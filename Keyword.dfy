/** Lookups over the command and annotation tables: the interface tools.mscript.syntax.Keyword. */
module Keyword {
  import opened Wrappers
  import opened RootCommands
  import opened Annotations
  import opened Diagnostics

  /** The linear search over RootCommand.values() shared by commandExists and getKeywordFromName. */
  function FindCommand(cs: seq<RootCommand>, name: string): (r: Option<RootCommand>)
    ensures r.Some? ==> r.value in cs && r.value.Name() == name
    ensures r.None? ==> forall c :: c in cs ==> c.Name() != name
  {
    if cs == [] then None
    else if cs[0].Name() == name then Some(cs[0])
    else FindCommand(cs[1..], name)
  }

  /** The linear search over Annotation.values() shared by annotationExists and getAnnotationFromID. */
  function FindAnnotation(as_: seq<Annotation>, id: string): (r: Option<Annotation>)
    ensures r.Some? ==> r.value in as_ && r.value.Id() == id
    ensures r.None? ==> forall a :: a in as_ ==> a.Id() != id
  {
    if as_ == [] then None
    else if as_[0].Id() == id then Some(as_[0])
    else FindAnnotation(as_[1..], id)
  }

  /** commandExists: the name, with its `@`, is one of the two root commands. */
  function CommandExists(name: string): (b: bool)
    ensures b <==> name == "@start" || name == "@stop"
  {
    assert StartCommand in RootCommands.Values && StopCommand in RootCommands.Values;
    assert forall c: RootCommand :: c.Name() in ["@start", "@stop"];
    FindCommand(RootCommands.Values, name).Some?
  }

  /** annotationExists: the bracketed ID, without its `*`, is one of the seven annotations. */
  function AnnotationExists(id: string): (b: bool)
    ensures b <==> exists a: Annotation :: a.Id() == id
  {
    AllAnnotationsListed();
    FindAnnotation(Annotations.Values, id).Some?
  }

  /** The IDs annotationExists accepts are exactly the seven of the table. */
  lemma AnnotationExistsIffListed(id: string)
    ensures AnnotationExists(id) <==> id in ["[@]", "[#]", "[*]", "[_]", "[^+]", "[{{]", "[}}]"]
  {
    if AnnotationExists(id) {
      var a: Annotation :| a.Id() == id;
      IdsDistinct(a, a);
    }
  }

  /** getKeywordFromName: the command with this name, or the "Non-existent Root Command" diagnostic. */
  function GetKeywordFromName(name: string): (r: Result<RootCommand, Diagnostic>)
    ensures r.Ok? <==> CommandExists(name)
    ensures r.Ok? ==> r.value.Name() == name
    ensures r.Err? ==> r.error == Diagnostic(NonExistentRootCommand(name), 4)
  {
    match FindCommand(RootCommands.Values, name)
    case Some(c) => Ok(c)
    case None => Err(Diagnostic(NonExistentRootCommand(name), 4))
  }

  /** getAnnotationFromID: the annotation with this ID, falling back to STORE_AS_LINE. */
  function GetAnnotationFromId(id: string): (a: Annotation)
    ensures AnnotationExists(id) ==> a.Id() == id
    ensures !AnnotationExists(id) ==> a == StoreAsLine
  {
    match FindAnnotation(Annotations.Values, id)
    case Some(a) => a
    case None => StoreAsLine
  }
}
