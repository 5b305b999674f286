/** The prefix characters of MSCRIPT: the enum tools.mscript.syntax.TextSpecifications. */
module TextSpecifications {

  datatype TextSpecification = Command | Annotation | Comment {

    /** getSymbol */
    function Symbol(): (c: char)
      ensures this == Command ==> c == '@'
      ensures this == Annotation ==> c == '*'
      ensures this == Comment ==> c == '#'
    {
      match this
      case Command => '@'
      case Annotation => '*'
      case Comment => '#'
    }
  }

  /** The three symbols are pairwise distinct, so a first character selects at most one category. */
  lemma SymbolsDistinct(a: TextSpecification, b: TextSpecification)
    ensures a.Symbol() == b.Symbol() ==> a == b
  {
  }
}
