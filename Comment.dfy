/** Comment signatures: the enum tools.mscript.syntax.Comment. */
module Comments {
  import TextSpecifications
  import opened Strings

  datatype Comment = Single | BulkOpen | BulkClose {

    /** getSignature: each signature is built from the comment symbol of TextSpecifications. */
    function Signature(): (s: string)
      ensures this == Single ==> s == "#"
      ensures this == BulkOpen ==> s == "##!"
      ensures this == BulkClose ==> s == "!##"
    {
      var c := TextSpecifications.TextSpecification.Comment.Symbol();
      match this
      case Single => [c]
      case BulkOpen => [c, c, '!']
      case BulkClose => ['!', c, c]
    }
  }

  /** BULK_OPEN starts with SINGLE, so a bulk opener must be tested before a single-line comment. */
  lemma BulkOpenStartsWithSingle(tok: string)
    ensures StartsWith(BulkOpen.Signature(), Single.Signature())
    ensures StartsWith(tok, BulkOpen.Signature()) ==> StartsWith(tok, Single.Signature())
  {
  }

  /** BULK_CLOSE does not start with the comment symbol: no `#` token ever starts with `!##`. */
  lemma BulkCloseIsNoComment(tok: string)
    ensures StartsWith(tok, Single.Signature()) ==> !StartsWith(tok, BulkClose.Signature())
  {
    if StartsWith(tok, Single.Signature()) {
      assert tok[0] == Single.Signature()[0] != BulkClose.Signature()[0];
    }
  }
}
