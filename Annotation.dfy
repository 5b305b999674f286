/** The annotation table: the enum tools.mscript.syntax.Annotation. */
module Annotations {
  import opened Wrappers
  import TS = TextSpecifications

  datatype Annotation =
    | TextRootSymbol
    | TextCommentSymbol
    | TextAnnotationSymbol
    | Whitespace
    | StoreAsLine
    | GroupEntriesOpen
    | GroupEntriesClose
  {
    /** getID: the bracketed call sign, without the `*` annotation prefix. */
    function Id(): (id: string)
      ensures 3 <= |id| && id[0] == '[' && id[|id| - 1] == ']'
    {
      match this
      case TextRootSymbol => "[@]"
      case TextCommentSymbol => "[#]"
      case TextAnnotationSymbol => "[*]"
      case Whitespace => "[_]"
      case StoreAsLine => "[^+]"
      case GroupEntriesOpen => "[{{]"
      case GroupEntriesClose => "[}}]"
    }

    /**
     * getActualValue: the text a symbol annotation stands for, null (None) for the other
     * three. The first three escape the three prefix characters; `*[_]` is a blank.
     */
    function ActualValue(): (v: Option<string>)
      ensures v.Some? <==> this in {TextRootSymbol, TextCommentSymbol, TextAnnotationSymbol, Whitespace}
      ensures v.Some? ==> |v.value| == 1
      ensures this == TextRootSymbol ==> v.value[0] == TS.TextSpecification.Command.Symbol()
      ensures this == TextCommentSymbol ==> v.value[0] == TS.TextSpecification.Comment.Symbol()
      ensures this == TextAnnotationSymbol ==> v.value[0] == TS.TextSpecification.Annotation.Symbol()
      ensures this == Whitespace ==> v.value[0] == ' '
    {
      match this
      case TextRootSymbol => Some("@")
      case TextCommentSymbol => Some("#")
      case TextAnnotationSymbol => Some("*")
      case Whitespace => Some(" ")
      case _ => None
    }
  }

  /** Annotation.values(), in declaration order. */
  const Values: seq<Annotation> :=
    [TextRootSymbol, TextCommentSymbol, TextAnnotationSymbol, Whitespace,
     StoreAsLine, GroupEntriesOpen, GroupEntriesClose]

  /** values() lists every annotation. */
  lemma AllAnnotationsListed()
    ensures forall a: Annotation :: a in Values
  {
    forall a: Annotation ensures a in Values {
      IdsDistinct(a, a);
    }
  }

  /** The seven IDs are exactly these, and they are pairwise distinct. */
  lemma IdsDistinct(a: Annotation, b: Annotation)
    ensures a in Values
    ensures a.Id() in ["[@]", "[#]", "[*]", "[_]", "[^+]", "[{{]", "[}}]"]
    ensures a.Id() == b.Id() ==> a == b
  {
  }
}
