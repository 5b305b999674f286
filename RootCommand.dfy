/** Root commands: the enum tools.mscript.syntax.RootCommand. */
module RootCommands {
  import TextSpecifications

  datatype RootCommand = StartCommand | StopCommand {

    /** getName: the command symbol followed by the command word. */
    function Name(): (n: string)
      ensures |n| > 1 && n[0] == TextSpecifications.TextSpecification.Command.Symbol()
      ensures this == StartCommand ==> n == "@start"
      ensures this == StopCommand ==> n == "@stop"
    {
      [TextSpecifications.TextSpecification.Command.Symbol()] + (match this case StartCommand => "start" case StopCommand => "stop")
    }
  }

  /** RootCommand.values(), in declaration order. */
  const Values: seq<RootCommand> := [StartCommand, StopCommand]

  /** There are exactly two commands and their names differ. */
  lemma CommandsDistinct(a: RootCommand)
    ensures a in Values && |Values| == 2
    ensures StartCommand.Name() != StopCommand.Name()
  {
  }
}
