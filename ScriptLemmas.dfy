/**
 * What the extraction engine promises, proved about the functions of ScriptSpec: the
 * annotation rules, the comment rules, the pre-scan and the main loop, and where
 * extraction resumes.
 */
module ScriptProperties {
  import opened Wrappers
  import opened Strings
  import opened Scanning
  import opened Comments
  import opened RootCommands
  import opened Annotations
  import opened Keyword
  import opened Diagnostics
  import opened ScriptSpec

  // ---------------------------------------------------------------------------------
  // Sequences of tokens

  /** Each item followed by ", ", the way the group builder appends tokens. */
  function Suffixed(items: seq<string>): string {
    if |items| == 0 then "" else items[0] + ", " + Suffixed(items[1..])
  }

  /** The position of the first item equal to `x`, or |s| when there is none. */
  function IndexOf(s: seq<string>, x: string): (k: nat)
    ensures k <= |s|
    ensures forall j :: 0 <= j < k ==> s[j] != x
    ensures k < |s| ==> s[k] == x
  {
    if |s| == 0 then 0 else if s[0] == x then 0 else 1 + IndexOf(s[1..], x)
  }

  /** The position of the first token holding `!##`, or |s| when there is none. */
  function FirstCloser(s: seq<string>): (k: nat)
    ensures k <= |s|
    ensures forall j :: 0 <= j < k ==> !Contains(s[j], BulkClose.Signature())
    ensures k < |s| ==> Contains(s[k], BulkClose.Signature())
  {
    if |s| == 0 then 0
    else if Contains(s[0], BulkClose.Signature()) then 0
    else 1 + FirstCloser(s[1..])
  }

  /** The items, each followed by ", ", are the joined items followed by ", ". */
  lemma {:induction false} SuffixedIsJoin(items: seq<string>)
    requires |items| > 0
    ensures Suffixed(items) == Join(items, ", ") + ", "
    decreases |items|
  {
    if |items| > 1 {
      SuffixedIsJoin(items[1..]);
      calc {
        Suffixed(items);
        items[0] + ", " + Suffixed(items[1..]);
        items[0] + ", " + (Join(items[1..], ", ") + ", ");
        (items[0] + ", " + Join(items[1..], ", ")) + ", ";
      }
    }
  }

  /** The group entry is "{", the items joined by ", ", then "}"; no items give "{}". */
  lemma CloseGroupJoins(items: seq<string>)
    ensures CloseGroup("{" + Suffixed(items)) == "{" + Join(items, ", ") + "}"
  {
    if |items| > 0 {
      SuffixedIsJoin(items);
      var b := "{" + Suffixed(items);
      assert b == ("{" + Join(items, ", ")) + ", ";
      assert b[..|b| - 2] == "{" + Join(items, ", ");
    } else {
      assert "{" + Suffixed(items) == "{";
    }
  }

  // ---------------------------------------------------------------------------------
  // Annotation names

  /** `*[` does not occur in `s`. */
  predicate NoTagOpener(s: string) {
    forall k :: 0 <= k < |s| - 1 ==> !(s[k] == '*' && s[k + 1] == '[')
  }

  /** The regular expression leaves exactly the text between `*[` and the first `]`. */
  lemma {:induction false} NameBeforeBracket(name: string, x: string)
    requires forall k :: 0 <= k < |name| ==> name[k] != ']'
    requires NoTagOpener(name)
    ensures AnnotationName(name + "]" + x) == name
    decreases |name|
  {
    if |name| > 0 {
      var s := name + "]" + x;
      assert s[0] == name[0] && s[1..] == name[1..] + "]" + x;
      assert !(s[0] == '*' && s[1] == '[') by {
        if |name| > 1 {
          assert s[1] == name[1];
        } else {
          assert s[1] == ']';
        }
      }
      NameBeforeBracket(name[1..], x);
      assert AnnotationName(s) == [name[0]] + name[1..];
    }
  }

  /** The name read from a tag `*[name]x`. */
  lemma TagName(name: string, x: string)
    requires forall k :: 0 <= k < |name| ==> name[k] != ']'
    requires NoTagOpener(name)
    ensures AnnotationName(AnnotationPrefix + "[" + name + "]" + x) == name
  {
    var s := AnnotationPrefix + "[" + name + "]" + x;
    assert s[2..] == name + "]" + x;
    NameBeforeBracket(name, x);
  }

  /** Between its brackets an ID holds no `]` and no `*[`. */
  lemma IdIsPlain(a: Annotation)
    ensures forall k :: 0 < k < |a.Id()| - 1 ==> a.Id()[k] != ']'
    ensures forall k :: 0 < k < |a.Id()| - 2 ==> !(a.Id()[k] == '*' && a.Id()[k + 1] == '[')
  {
  }

  /** Every annotation's tag `*` + ID, followed by any text, names that annotation. */
  lemma AnnotationTagName(a: Annotation, x: string)
    ensures var id := a.Id();
      && AnnotationName(AnnotationPrefix + id + x) == id[1..|id| - 1]
      && AnnotationExists("[" + id[1..|id| - 1] + "]")
      && GetAnnotationFromId("[" + id[1..|id| - 1] + "]") == a
  {
    var id := a.Id();
    var name := id[1..|id| - 1];
    assert id == "[" + name + "]";
    IdIsPlain(a);
    assert forall k :: 0 <= k < |name| ==> name[k] == id[k + 1];
    TagName(name, x);
    assert AnnotationPrefix + id + x == AnnotationPrefix + "[" + name + "]" + x;
    IdsDistinct(a, GetAnnotationFromId(id));
  }

  // ---------------------------------------------------------------------------------
  // Expanding annotations

  /**
   * A symbol annotation stands for its character, followed by the text after the tag:
   * `*[@]x` gives "@x", `*[#]x` gives "#x", `*[*]x` gives "*x" and `*[_]x` gives " x".
   */
  lemma {:induction false} SymbolAnnotationExpands(t: string, a: Annotation, x: string, p: nat)
    requires p <= |t| && a.ActualValue().Some?
    ensures ExpandAnnotation(t, AnnotationPrefix + a.Id() + x, p) == Expanded(a.ActualValue().value + x, p)
  {
    var tok := AnnotationPrefix + a.Id() + x;
    AnnotationTagName(a, x);
    var id := a.Id();
    assert "[" + id[1..|id| - 1] + "]" == id;
    assert tok[3 + |id[1..|id| - 1]|..] == x;
  }

  /**
   * `*[^+]x`: x and a space (when x is not empty), then the rest of the physical line
   * without one leading space; the line is consumed. An empty rest of line, or none,
   * is a native error.
   */
  lemma StoreAsLineTakesRestOfLine(t: string, x: string, p: nat)
    requires p <= |t|
    ensures var r := ExpandAnnotation(t, "*[^+]" + x, p);
      match RestOfLine(t, p)
      case None => r == Rejected(Native)
      case Some((line, q)) =>
        if |line| == 0 then r == Rejected(Native)
        else r == Expanded((if |x| > 0 then x + " " else "") + (if line[0] == ' ' then line[1..] else line), q)
  {
    StoreTagStoresLine(t, x, p);
    assert |StoreAsLine.Id()| == 4 && |"*[^+]" + x| == 5 + |x|;
  }

  /** `*[^+]x` expands to the stored line, with x as the text after the tag. */
  lemma StoreTagStoresLine(t: string, x: string, p: nat)
    requires p <= |t|
    ensures ExpandAnnotation(t, "*[^+]" + x, p) == StoreLine(t, "*[^+]" + x, x, p)
  {
    AnnotationTagName(StoreAsLine, x);
    var tok := "*[^+]" + x;
    assert tok == AnnotationPrefix + StoreAsLine.Id() + x;
    assert tok[3 + 2..] == x;
  }

  /** A group closer met on its own is a dangling data group, severity 1. */
  lemma LoneGroupCloseIsDangling(t: string, x: string, p: nat)
    requires p <= |t|
    ensures ExpandAnnotation(t, GroupCloseToken + x, p) == Rejected(Diagnostic(DanglingDataGroup, 1))
  {
    AnnotationTagName(GroupEntriesClose, x);
  }

  /** A bare `*` is an unknown annotation, severity 4. */
  lemma BareStarIsUnknown(t: string, p: nat)
    requires p <= |t|
    ensures ExpandAnnotation(t, "*", p) == Rejected(Diagnostic(UnknownAnnotation("*"), 4))
  {
    assert AnnotationName("*") == "*";
  }

  /** A tag whose bracketed ID is not in the table is an unknown annotation, severity 4. */
  lemma UnlistedTagIsUnknown(t: string, name: string, x: string, p: nat)
    requires p <= |t|
    requires forall k :: 0 <= k < |name| ==> name[k] != ']'
    requires NoTagOpener(name)
    requires "[" + name + "]" !in ["[@]", "[#]", "[*]", "[_]", "[^+]", "[{{]", "[}}]"]
    ensures var tok := AnnotationPrefix + "[" + name + "]" + x;
      ExpandAnnotation(t, tok, p) == Rejected(Diagnostic(UnknownAnnotation(tok), 4))
  {
    TagName(name, x);
    AnnotationExistsIffListed("[" + name + "]");
  }

  // ---------------------------------------------------------------------------------
  // Tokens and cursors

  /** `x`, a list with `x` in front, starts over after its first item. */
  lemma ConsFacts(x: string, rest: seq<string>, n: nat)
    requires n <= |rest|
    ensures ([x] + rest)[0] == x && ([x] + rest)[1..] == rest
    ensures ([x] + rest)[..n + 1] == [x] + rest[..n]
    ensures n < |rest| ==> ([x] + rest)[n + 2..] == rest[n + 1..]
  {
    assert ([x] + rest)[1..] == rest;
    assert ([x] + rest)[..n + 1] == [x] + rest[..n];
    if n < |rest| {
      assert ([x] + rest)[n + 2..] == rest[n + 1..];
    }
  }

  /** String concatenation regroups. */
  lemma ConcatAssoc(a: string, b: string, c: string)
    ensures a + b + c == a + (b + c)
  {
  }

  /** One token off the front of the token sequence. */
  lemma TokensStep(t: string, p: nat)
    requires p <= |t| && NextToken(t, p).Some?
    ensures Tokens(t, p) == [NextToken(t, p).value.0] + Tokens(t, NextToken(t, p).value.1)
  {
  }

  /** No token is left at the end of the text. */
  lemma TokensEnd(t: string, p: nat)
    requires p <= |t| && NextToken(t, p).None?
    ensures Tokens(t, p) == []
  {
  }

  /** The first `n` tokens of a token sequence with `x` in front, and the cursor after them. */
  lemma AdvanceStep(t: string, p: nat, n: nat)
    requires p <= |t| && NextToken(t, p).Some? && 0 < n <= |Tokens(t, p)|
    ensures var q := NextToken(t, p).value.1;
      n - 1 <= |Tokens(t, q)| && Advance(t, p, n) == Advance(t, q, n - 1)
  {
    TokensStep(t, p);
  }

  /** The cursor after n + 1 tokens is the cursor after the token that follows the first `n`. */
  predicate AdvancesOneMore(t: string, p: nat, n: nat)
    requires p <= |t| && n < |Tokens(t, p)|
  {
    var q := Advance(t, p, n);
    NextToken(t, q).Some? && Advance(t, p, n + 1) == NextToken(t, q).value.1
  }

  /** The cursor after one token is the one NextToken leaves. */
  lemma AdvanceOne(t: string, p: nat)
    requires p <= |t| && 0 < |Tokens(t, p)|
    ensures AdvancesOneMore(t, p, 0)
  {
    if NextToken(t, p).None? {
      TokensEnd(t, p);
    }
  }

  /** One token further on, the cursor arithmetic is the same. */
  lemma AdvanceOneMoreStep(t: string, p: nat, n: nat)
    requires p <= |t| && 0 < n < |Tokens(t, p)| && NextToken(t, p).Some?
    requires var q := NextToken(t, p).value.1; n - 1 < |Tokens(t, q)| && AdvancesOneMore(t, q, n - 1)
    ensures AdvancesOneMore(t, p, n)
  {
    AdvanceStep(t, p, n);
    AdvanceStep(t, p, n + 1);
  }

  /** Advancing by n + 1 tokens is advancing by n, then past one more token. */
  lemma {:induction false} AdvanceLast(t: string, p: nat, n: nat)
    requires p <= |t| && n < |Tokens(t, p)|
    ensures AdvancesOneMore(t, p, n)
    decreases n
  {
    if n == 0 {
      AdvanceOne(t, p);
    } else {
      if NextToken(t, p).None? {
        TokensEnd(t, p);
      }
      var q := NextToken(t, p).value.1;
      TokensStep(t, p);
      AdvanceLast(t, q, n - 1);
      AdvanceOneMoreStep(t, p, n);
    }
  }

  // ---------------------------------------------------------------------------------
  // Data groups

  /**
   * What the group loop computes: the tokens before the first `*[}}]`, each followed by
   * ", ", appended to the builder, with the cursor after that closer or at the end.
   */
  predicate CollectsUntilClose(t: string, p: nat, b: string)
    requires p <= |t|
  {
    var toks := Tokens(t, p);
    var k := IndexOf(toks, GroupCloseToken);
    && CollectGroup(t, p, b).0 == b + Suffixed(toks[..k])
    && Tokens(t, CollectGroup(t, p, b).1) == if k < |toks| then toks[k + 1..] else []
  }

  /** The index of the closer and the builder text, one token further on. */
  lemma GroupSequenceStep(tok: string, rest: seq<string>, b: string)
    requires tok != GroupCloseToken
    ensures var toks := [tok] + rest;
      var k := IndexOf(rest, GroupCloseToken);
      && IndexOf(toks, GroupCloseToken) == k + 1
      && b + tok + ", " + Suffixed(rest[..k]) == b + Suffixed(toks[..k + 1])
      && (if k + 1 < |toks| then toks[k + 2..] else []) == (if k < |rest| then rest[k + 1..] else [])
  {
    var k := IndexOf(rest, GroupCloseToken);
    ConsFacts(tok, rest, k);
    assert IndexOf([tok] + rest, GroupCloseToken) == 1 + IndexOf(([tok] + rest)[1..], GroupCloseToken);
    assert Suffixed(([tok] + rest)[..k + 1]) == tok + ", " + Suffixed(rest[..k]);
    ConcatAssoc(b, tok + ", ", Suffixed(rest[..k]));
  }

  /** At the end of the text the group loop stops with nothing added. */
  lemma CollectGroupAtEnd(t: string, p: nat, b: string)
    requires p <= |t| && NextToken(t, p).None?
    ensures CollectsUntilClose(t, p, b)
  {
    TokensEnd(t, p);
    assert Tokens(t, p)[..0] == [];
  }

  /** On `*[}}]` the group loop stops with nothing added, after the closer. */
  lemma CollectGroupAtClose(t: string, p: nat, b: string)
    requires p <= |t| && NextToken(t, p).Some? && NextToken(t, p).value.0 == GroupCloseToken
    ensures CollectsUntilClose(t, p, b)
  {
    var (tok, q) := NextToken(t, p).value;
    TokensStep(t, p);
    ConsFacts(tok, Tokens(t, q), 0);
    assert Tokens(t, p)[..0] == [];
  }

  /** Any other token is appended with ", " and the loop goes on. */
  lemma CollectGroupAtToken(t: string, p: nat, b: string)
    requires p <= |t| && NextToken(t, p).Some? && NextToken(t, p).value.0 != GroupCloseToken
    requires var (tok, q) := NextToken(t, p).value; CollectsUntilClose(t, q, b + tok + ", ")
    ensures CollectsUntilClose(t, p, b)
  {
    var (tok, q) := NextToken(t, p).value;
    TokensStep(t, p);
    assert CollectGroup(t, p, b) == CollectGroup(t, q, b + tok + ", ");
    GroupSequenceStep(tok, Tokens(t, q), b);
  }

  /**
   * The group loop appends the tokens before the first `*[}}]`, each followed by ", ",
   * and leaves the cursor after that closer, or at the end of the text.
   */
  lemma {:induction false} CollectGroupTakesUntilClose(t: string, p: nat, b: string)
    requires p <= |t|
    ensures CollectsUntilClose(t, p, b)
    decreases |t| - p
  {
    if NextToken(t, p).None? {
      CollectGroupAtEnd(t, p, b);
    } else if NextToken(t, p).value.0 == GroupCloseToken {
      CollectGroupAtClose(t, p, b);
    } else {
      var (tok, q) := NextToken(t, p).value;
      CollectGroupTakesUntilClose(t, q, b + tok + ", ");
      CollectGroupAtToken(t, p, b);
    }
  }

  /** `*[{{]x` is the group opener, with x as the text after the tag. */
  lemma GroupTagOpensGroup(t: string, x: string, p: nat)
    requires p <= |t|
    ensures ExpandAnnotation(t, "*[{{]" + x, p) == GroupEntry(t, x, p)
  {
    AnnotationTagName(GroupEntriesOpen, x);
    var tok := "*[{{]" + x;
    assert tok == AnnotationPrefix + GroupEntriesOpen.Id() + x;
    assert tok[3 + 2..] == x;
  }

  /** The seeded builder, each item followed by ", ". */
  lemma SeededBuilder(x: string, items: seq<string>)
    ensures "{" + (if |x| > 0 then x + ", " else "") + Suffixed(items)
         == "{" + Suffixed((if |x| > 0 then [x] else []) + items)
  {
    if |x| > 0 {
      ConsFacts(x, items, 0);
      assert Suffixed([x] + items) == x + ", " + Suffixed(items);
      ConcatAssoc("{", x + ", ", Suffixed(items));
    } else {
      assert [] + items == items;
    }
  }

  /**
   * A group entry made from the tokens at `p`: "{", then x (when not empty) and the
   * tokens before the first `*[}}]` joined by ", ", then "}"; the cursor ends after the
   * closer, or at the end of the text.
   */
  predicate JoinsGroup(t: string, x: string, p: nat, r: Expansion)
    requires p <= |t|
  {
    var toks := Tokens(t, p);
    var k := IndexOf(toks, GroupCloseToken);
    && r.Expanded?
    && r.pos <= |t|
    && r.entry == "{" + Join((if |x| > 0 then [x] else []) + toks[..k], ", ") + "}"
    && Tokens(t, r.pos) == if k < |toks| then toks[k + 1..] else []
  }

  /** The group entry joins the tokens up to the closer, after the seed. */
  lemma GroupEntryJoinsTokens(t: string, x: string, p: nat)
    requires p <= |t|
    ensures JoinsGroup(t, x, p, GroupEntry(t, x, p))
  {
    var toks := Tokens(t, p);
    var k := IndexOf(toks, GroupCloseToken);
    var b := "{" + (if |x| > 0 then x + ", " else "");
    CollectGroupTakesUntilClose(t, p, b);
    SeededBuilder(x, toks[..k]);
    CloseGroupJoins((if |x| > 0 then [x] else []) + toks[..k]);
  }

  /**
   * `*[{{]x` takes the following tokens verbatim up to the first `*[}}]` (or the end of
   * the text) and makes one entry: "{", then x (when not empty) and those tokens joined
   * by ", ", then "}". The cursor ends after the closer.
   */
  lemma GroupAnnotationJoinsTokens(t: string, x: string, p: nat)
    requires p <= |t|
    ensures JoinsGroup(t, x, p, ExpandAnnotation(t, "*[{{]" + x, p))
  {
    GroupTagOpensGroup(t, x, p);
    GroupEntryJoinsTokens(t, x, p);
  }

  // ---------------------------------------------------------------------------------
  // Comments

  /** An occurrence in a suffix of `s` is an occurrence in `s`, further on. */
  lemma OccursInSuffix(s: string, sub: string, i: nat, j: nat)
    requires i <= |s| && OccursAt(s[i..], sub, j)
    ensures OccursAt(s, sub, i + j)
  {
    assert s[i + j..i + j + |sub|] == s[i..][j..j + |sub|];
  }

  /**
   * The salvaged text is what follows the last `!##`: the token up to it ends with `!##`,
   * and it holds no further `!##`. It is empty exactly when the token ends with `!##`.
   */
  lemma SalvagedTextFollowsLastCloser(tok: string)
    requires Contains(tok, BulkClose.Signature())
    ensures EndsWith(tok[..|tok| - |AfterLastBulkClose(tok)|], BulkClose.Signature())
    ensures !Contains(AfterLastBulkClose(tok), BulkClose.Signature())
    ensures AfterLastBulkClose(tok) == [] <==> EndsWith(tok, BulkClose.Signature())
  {
    var sig := BulkClose.Signature();
    var i := LastIndexOf(tok, sig).value;
    var r := AfterLastBulkClose(tok);
    assert r == tok[i + 3..];
    assert tok[..i + 3][i..] == tok[i..i + 3] == sig;
    if Contains(r, sig) {
      var j :| 0 <= j <= |r| - |sig| && OccursAt(r, sig, j);
      OccursInSuffix(tok, sig, i + 3, j);
    }
    if EndsWith(tok, sig) {
      assert OccursAt(tok, sig, |tok| - 3);
    }
  }

  /**
   * The loop after a `##!` opener consumes the tokens up to and including the first one
   * holding `!##`, and stores what follows the last `!##` in it when that is not empty;
   * with no such token it runs to the end of the text and stores nothing.
   */
  lemma {:induction false} BulkCommentRunsToCloser(t: string, p: nat, acc: seq<string>)
    requires p <= |t|
    ensures var toks := Tokens(t, p);
      var k := FirstCloser(toks);
      var r := SkipBulkComment(t, p, acc);
      && Tokens(t, r.0) == (if k < |toks| then toks[k + 1..] else [])
      && r.1 == if k < |toks| && !EndsWith(toks[k], BulkClose.Signature()) then acc + [AfterLastBulkClose(toks[k])] else acc
    decreases |t| - p
  {
    match NextToken(t, p)
    case None =>
    case Some((tok, q)) =>
      var toks := Tokens(t, p);
      assert toks == [tok] + Tokens(t, q);
      if !Contains(tok, BulkClose.Signature()) {
        BulkCommentRunsToCloser(t, q, acc);
        assert toks[1..] == Tokens(t, q);
        assert FirstCloser(toks) == 1 + FirstCloser(Tokens(t, q));
      }
  }

  /** `##!!##` is passed over on its own; nothing else is consumed. */
  lemma SelfClosedBulkComment(t: string, q: nat, acc: seq<string>)
    requires q <= |t|
    ensures SkipComment(t, "##!!##", q, acc) == Skipped(q, acc)
  {
    assert StartsWith("##!!##", BulkOpen.Signature());
    assert BulkOpen.Signature() + BulkClose.Signature() == "##!!##";
  }

  /** Any other `#` token drops the rest of its line; at the very end of the text nextLine() throws. */
  lemma LineCommentSkipsRestOfLine(t: string, tok: string, q: nat, acc: seq<string>)
    requires q <= |t| && IsCommentToken(tok) && !StartsWith(tok, BulkOpen.Signature())
    ensures var r := SkipComment(t, tok, q, acc);
      if q == |t| then r == SkipFailed(Native)
      else r.Skipped? && r.entries == acc && Lines(t, r.pos) == Lines(t, q)[1..]
  {
  }

  /** A token that starts with `!##` is raw text, never a comment. */
  lemma BulkCloseTokenIsRaw(tok: string)
    requires StartsWith(tok, BulkClose.Signature())
    ensures IsRawToken(tok)
  {
    assert tok[0] == '!';
  }

  // ---------------------------------------------------------------------------------
  // The region between `@start` and `@stop`

  /** Every token in the list is raw text. */
  predicate AllRaw(toks: seq<string>) {
    forall j :: 0 <= j < |toks| ==> IsRawToken(toks[j])
  }

  /** A raw token is appended and the loop goes on right after it. */
  lemma ExtractRawStep(t: string, p: nat, acc: seq<string>)
    requires p <= |t| && NextToken(t, p).Some? && IsRawToken(NextToken(t, p).value.0)
    ensures var (tok, q) := NextToken(t, p).value;
      Extract(t, p, acc) == Extract(t, q, acc + [tok])
  {
  }

  /** At the end of the text the loop ends normally with the entries it has. */
  lemma ExtractAtEnd(t: string, p: nat, acc: seq<string>)
    requires p <= |t| && NextToken(t, p).None?
    ensures Extract(t, p, acc) == Outcome(acc, None)
  {
  }

  /** The main loop, run from `p`, amounts to running it after the first `n` tokens stored. */
  predicate SkipsStored(t: string, p: nat, acc: seq<string>, n: nat)
    requires p <= |t| && n <= |Tokens(t, p)|
  {
    Extract(t, p, acc) == Extract(t, Advance(t, p, n), acc + Tokens(t, p)[..n])
  }

  /** Storing `x` and then n - 1 more items stores the first `n` items of `[x] + rest`. */
  lemma StoredPrefix(acc: seq<string>, x: string, rest: seq<string>, n: nat)
    requires 0 < n <= |rest| + 1
    ensures acc + [x] + rest[..n - 1] == acc + ([x] + rest)[..n]
  {
    ConsFacts(x, rest, n - 1);
  }

  /** The first of `n` raw tokens is stored, and the rest follow. */
  lemma SkipsStoredStep(t: string, p: nat, acc: seq<string>, n: nat)
    requires p <= |t| && 0 < n <= |Tokens(t, p)| && NextToken(t, p).Some?
    requires IsRawToken(NextToken(t, p).value.0)
    requires var (tok, q) := NextToken(t, p).value;
      n - 1 <= |Tokens(t, q)| && SkipsStored(t, q, acc + [tok], n - 1)
    ensures SkipsStored(t, p, acc, n)
  {
    var (tok, q) := NextToken(t, p).value;
    TokensStep(t, p);
    AdvanceStep(t, p, n);
    ExtractRawStep(t, p, acc);
    StoredPrefix(acc, tok, Tokens(t, q), n);
  }

  /** The raw tokens after the first one, when the first `n` are raw. */
  lemma AllRawTail(t: string, p: nat, n: nat)
    requires p <= |t| && 0 < n <= |Tokens(t, p)| && NextToken(t, p).Some?
    requires AllRaw(Tokens(t, p)[..n])
    ensures var (tok, q) := NextToken(t, p).value;
      IsRawToken(tok) && n - 1 <= |Tokens(t, q)| && AllRaw(Tokens(t, q)[..n - 1])
  {
    var (tok, q) := NextToken(t, p).value;
    TokensStep(t, p);
    ConsFacts(tok, Tokens(t, q), n - 1);
    var all, rest := Tokens(t, p)[..n], Tokens(t, q)[..n - 1];
    assert all[0] == tok;
    forall j | 0 <= j < |rest|
      ensures IsRawToken(rest[j])
    {
      assert rest[j] == all[j + 1];
    }
  }

  /** Raw tokens are appended verbatim, in order, and the loop goes on after them. */
  lemma {:induction false} ExtractKeepsRawTokens(t: string, p: nat, acc: seq<string>, n: nat)
    requires p <= |t| && n <= |Tokens(t, p)|
    requires AllRaw(Tokens(t, p)[..n])
    ensures SkipsStored(t, p, acc, n)
    decreases n
  {
    if n == 0 {
      assert acc + Tokens(t, p)[..0] == acc;
    } else {
      var (tok, q) := NextToken(t, p).value;
      AllRawTail(t, p, n);
      ExtractKeepsRawTokens(t, q, acc + [tok], n - 1);
      SkipsStoredStep(t, p, acc, n);
    }
  }

  /** A region of raw text only ends with the end of the text and yields all its tokens. */
  lemma RawRegionIsKeptVerbatim(t: string, p: nat, acc: seq<string>)
    requires p <= |t| && AllRaw(Tokens(t, p))
    ensures Extract(t, p, acc) == Outcome(acc + Tokens(t, p), None)
  {
    var toks := Tokens(t, p);
    var n := |toks|;
    assert toks[..n] == toks;
    ExtractKeepsRawTokens(t, p, acc, n);
    var q := Advance(t, p, n);
    if NextToken(t, q).Some? {
      TokensStep(t, q);
      assert false;
    }
    ExtractAtEnd(t, q, acc + toks);
  }

  /**
   * An `@` word ends the loop: a second `@start` is a duplicate start (severity 1), `@stop`
   * hands over to the loop after `@stop`, and any other `@` word is a non-existent root
   * command (severity 4).
   */
  lemma ExtractAtCommand(t: string, p: nat, acc: seq<string>)
    requires p <= |t| && NextToken(t, p).Some? && IsCommandToken(NextToken(t, p).value.0)
    ensures var (tok, q) := NextToken(t, p).value;
      && (tok == "@start" ==> Extract(t, p, acc) == Outcome(acc, Some(Diagnostic(DuplicateStart, 1))))
      && (tok == "@stop" ==> Extract(t, p, acc) == AfterStop(t, q, acc))
      && (!CommandExists(tok) ==> Extract(t, p, acc) == Outcome(acc, Some(Diagnostic(NonExistentRootCommand(tok), 4))))
  {
    var (tok, q) := NextToken(t, p).value;
    if tok == "@start" {
      assert GetKeywordFromName(tok) == Ok(StartCommand);
    } else if tok == "@stop" {
      assert GetKeywordFromName(tok) == Ok(StopCommand);
    } else {
      assert GetKeywordFromName(tok).Err?;
    }
  }

  /**
   * The first root command after raw text ends the loop with the raw text stored: a
   * second `@start` is a duplicate start (severity 1), an unknown `@` word a non-existent
   * root command (severity 4), and `@stop` hands over to the loop after `@stop`.
   */
  lemma RegionEndsAtCommand(t: string, p: nat, acc: seq<string>, n: nat)
    requires p <= |t| && n < |Tokens(t, p)|
    requires AllRaw(Tokens(t, p)[..n]) && IsCommandToken(Tokens(t, p)[n])
    ensures var tok, acc2 := Tokens(t, p)[n], acc + Tokens(t, p)[..n];
      && (tok == "@start" ==> Extract(t, p, acc) == Outcome(acc2, Some(Diagnostic(DuplicateStart, 1))))
      && (tok == "@stop" ==> Extract(t, p, acc) == AfterStop(t, Advance(t, p, n + 1), acc2))
      && (!CommandExists(tok) ==> Extract(t, p, acc) == Outcome(acc2, Some(Diagnostic(NonExistentRootCommand(tok), 4))))
  {
    ExtractKeepsRawTokens(t, p, acc, n);
    var q := Advance(t, p, n);
    var toks := Tokens(t, p);
    assert Tokens(t, q) == toks[n..];
    if NextToken(t, q).None? {
      TokensEnd(t, q);
      assert false;
    }
    AdvanceLast(t, p, n);
    TokensStep(t, q);
    ExtractAtCommand(t, q, acc + toks[..n]);
  }

  /** After `@stop`, the end of the text ends the read normally. */
  lemma AfterStopAtEnd(t: string, p: nat, acc: seq<string>)
    requires p <= |t| && Tokens(t, p) == []
    ensures AfterStop(t, p, acc) == Outcome(acc, None)
  {
    if NextToken(t, p).Some? {
      TokensStep(t, p);
    }
  }

  /** After `@stop`, a token that is not a comment is dangling code (severity 2). */
  lemma AfterStopRejectsCode(t: string, p: nat, acc: seq<string>)
    requires p <= |t| && |Tokens(t, p)| > 0 && !IsCommentToken(Tokens(t, p)[0])
    ensures AfterStop(t, p, acc) == Outcome(acc, Some(Diagnostic(DanglingCode(Tokens(t, p)[0]), 2)))
  {
    if NextToken(t, p).None? {
      TokensEnd(t, p);
    } else {
      TokensStep(t, p);
    }
  }

  /**
   * After `@stop`, a comment is skipped: the loop goes on after it with the text the
   * comment salvaged, or stops with the error of nextLine() at the end of the text.
   */
  lemma AfterStopSkipsComment(t: string, p: nat, acc: seq<string>)
    requires p <= |t| && NextToken(t, p).Some? && IsCommentToken(NextToken(t, p).value.0)
    ensures var (tok, q) := NextToken(t, p).value;
      var r := SkipComment(t, tok, q, acc);
      && (r.Skipped? ==> AfterStop(t, p, acc) == AfterStop(t, r.pos, r.entries))
      && (r.SkipFailed? ==> AfterStop(t, p, acc) == Outcome(acc, Some(r.error)))
  {
  }

  // ---------------------------------------------------------------------------------
  // The pre-scan

  /** Every token in the list is an `@` word that is not a root command. */
  predicate AllUnknownCommands(toks: seq<string>) {
    |toks| == 0 || (IsCommandToken(toks[0]) && !CommandExists(toks[0]) && AllUnknownCommands(toks[1..]))
  }

  /** Past the iteration bound the pre-scan reports a missing start, wherever it is. */
  lemma PreScanPastBound(t: string, p: nat, i: nat, acc: seq<string>)
    requires p <= |t| && i > IterationBound
    ensures PreScan(t, p, i, acc) == PreScanResult(acc, PreScanFailed(Diagnostic(MissingStart, 4)))
  {
  }

  /** An unknown `@` word costs one iteration. */
  lemma PreScanUnknownStep(t: string, p: nat, i: nat, acc: seq<string>)
    requires p <= |t| && i <= IterationBound && NextToken(t, p).Some?
    requires IsCommandToken(NextToken(t, p).value.0) && !CommandExists(NextToken(t, p).value.0)
    ensures PreScan(t, p, i, acc) == PreScan(t, NextToken(t, p).value.1, i + 1, acc)
  {
  }

  /**
   * A comment costs the pre-scan one iteration: it goes on after the comment with the
   * text the comment salvaged, or stops with the error of nextLine() at the end of the text.
   */
  lemma PreScanSkipsComment(t: string, p: nat, i: nat, acc: seq<string>)
    requires p <= |t| && i <= IterationBound && NextToken(t, p).Some?
    requires IsCommentToken(NextToken(t, p).value.0)
    ensures var (tok, q) := NextToken(t, p).value;
      var r := SkipComment(t, tok, q, acc);
      && (r.Skipped? ==> PreScan(t, p, i, acc) == PreScan(t, r.pos, i + 1, r.entries))
      && (r.SkipFailed? ==> PreScan(t, p, i, acc) == PreScanResult(acc, PreScanFailed(r.error)))
  {
  }

  /** The unknown `@` words after the first one, when the first `n` are unknown. */
  lemma AllUnknownTail(t: string, p: nat, n: nat)
    requires p <= |t| && 0 < n <= |Tokens(t, p)| && NextToken(t, p).Some?
    requires AllUnknownCommands(Tokens(t, p)[..n])
    ensures var (tok, q) := NextToken(t, p).value;
      && IsCommandToken(tok) && !CommandExists(tok)
      && n - 1 <= |Tokens(t, q)| && AllUnknownCommands(Tokens(t, q)[..n - 1])
  {
    var (tok, q) := NextToken(t, p).value;
    TokensStep(t, p);
    ConsFacts(tok, Tokens(t, q), n - 1);
    var all := Tokens(t, p)[..n];
    assert all == [tok] + Tokens(t, q)[..n - 1];
    ConsFacts(tok, Tokens(t, q)[..n - 1], n - 1);
  }

  /** The pre-scan, run from `p`, amounts to running it after the first `n` tokens passed over. */
  predicate PassesOver(t: string, p: nat, i: nat, acc: seq<string>, n: nat)
    requires p <= |t| && n <= |Tokens(t, p)|
  {
    PreScan(t, p, i, acc) == PreScan(t, Advance(t, p, n), i + n, acc)
  }

  /** The first of `n` unknown `@` words is passed over, and the rest follow. */
  lemma PassesOverStep(t: string, p: nat, i: nat, acc: seq<string>, n: nat)
    requires p <= |t| && 0 < n <= |Tokens(t, p)| && NextToken(t, p).Some?
    requires IsCommandToken(NextToken(t, p).value.0) && !CommandExists(NextToken(t, p).value.0)
    requires var q := NextToken(t, p).value.1;
      n - 1 <= |Tokens(t, q)| && PassesOver(t, q, i + 1, acc, n - 1)
    ensures PassesOver(t, p, i, acc, n)
  {
    AdvanceStep(t, p, n);
    if i <= IterationBound {
      PreScanUnknownStep(t, p, i, acc);
    } else {
      PreScanPastBound(t, p, i, acc);
      PreScanPastBound(t, Advance(t, p, n), i + n, acc);
    }
  }

  /** Unknown `@` words cost the pre-scan one iteration each and nothing else. */
  lemma {:induction false} PreScanSkipsUnknownCommands(t: string, p: nat, i: nat, acc: seq<string>, n: nat)
    requires p <= |t| && n <= |Tokens(t, p)|
    requires AllUnknownCommands(Tokens(t, p)[..n])
    ensures PassesOver(t, p, i, acc, n)
    decreases n
  {
    if n > 0 {
      var (tok, q) := NextToken(t, p).value;
      AllUnknownTail(t, p, n);
      PreScanSkipsUnknownCommands(t, q, i + 1, acc, n - 1);
      PassesOverStep(t, p, i, acc, n);
    }
  }

  /** A token that is neither a comment nor an `@` word: hasStart() rejects it as dangling code. */
  predicate IsPreScanCode(tok: string) {
    !IsCommentToken(tok) && !IsCommandToken(tok)
  }

  /** What the pre-scan does with the token at `p`, within the iteration bound. */
  function FirstTokenStatus(t: string, p: nat, acc: seq<string>): PreScanResult
    requires p <= |t|
  {
    match NextToken(t, p)
    case None => PreScanResult(acc, PreScanFailed(Diagnostic(MissingStart, 4)))
    case Some((tok, _)) =>
      if tok == "@start" then PreScanResult(acc, StartFound)
      else if tok == "@stop" then PreScanResult(acc, StopFound)
      else PreScanResult(acc, PreScanFailed(Diagnostic(DanglingCode(tok), 2)))
  }

  /**
   * The first token decides: none is a missing start, `@start` and `@stop` are found,
   * anything that is neither a comment nor an `@` word is dangling code.
   */
  lemma FirstTokenStatusCases(t: string, p: nat, acc: seq<string>)
    requires p <= |t|
    ensures var r := FirstTokenStatus(t, p, acc);
      && (Tokens(t, p) == [] ==> r == PreScanResult(acc, PreScanFailed(Diagnostic(MissingStart, 4))))
      && (|Tokens(t, p)| > 0 && Tokens(t, p)[0] == "@start" ==> r == PreScanResult(acc, StartFound))
      && (|Tokens(t, p)| > 0 && Tokens(t, p)[0] == "@stop" ==> r == PreScanResult(acc, StopFound))
      && (|Tokens(t, p)| > 0 && IsPreScanCode(Tokens(t, p)[0]) ==>
           r == PreScanResult(acc, PreScanFailed(Diagnostic(DanglingCode(Tokens(t, p)[0]), 2))))
  {
    if NextToken(t, p).Some? {
      TokensStep(t, p);
    }
  }

  /** Token `n` of `toks` ends the pre-scan: it is `@start`, `@stop` or dangling code, or there is none. */
  predicate Decisive(toks: seq<string>, n: nat)
    requires n <= |toks|
  {
    n == |toks| || toks[n] == "@start" || toks[n] == "@stop" || IsPreScanCode(toks[n])
  }

  /** A decisive token `n` is the first token after the cursor has passed `n` tokens. */
  lemma DecisiveAfter(t: string, p: nat, n: nat)
    requires p <= |t| && n <= |Tokens(t, p)| && Decisive(Tokens(t, p), n)
    ensures Decisive(Tokens(t, Advance(t, p, n)), 0)
  {
    var all, rest := Tokens(t, p), Tokens(t, Advance(t, p, n));
    assert rest == all[n..];
    if n < |all| {
      assert rest[0] == all[n];
    }
  }

  /** `@start`, `@stop`, dangling code or the end of the text decide the pre-scan at once. */
  lemma PreScanDecides(t: string, p: nat, i: nat, acc: seq<string>)
    requires p <= |t| && i <= IterationBound
    requires Decisive(Tokens(t, p), 0)
    ensures PreScan(t, p, i, acc) == FirstTokenStatus(t, p, acc)
  {
    if NextToken(t, p).None? {
    } else {
      TokensStep(t, p);
      var tok := NextToken(t, p).value.0;
      if tok == "@start" {
        assert GetKeywordFromName(tok) == Ok(StartCommand);
      } else if tok == "@stop" {
        assert GetKeywordFromName(tok) == Ok(StopCommand);
      }
    }
  }

  /** The pre-scan from `q` at iteration `j` ends with the status of the token at `q`, or at the bound. */
  predicate DecidesAt(t: string, q: nat, j: nat, acc: seq<string>)
    requires q <= |t|
  {
    PreScan(t, q, j, acc) ==
      if j > IterationBound then PreScanResult(acc, PreScanFailed(Diagnostic(MissingStart, 4)))
      else FirstTokenStatus(t, q, acc)
  }

  /** The cursor `q` that has passed `n` tokens, up to a decisive one, decides the pre-scan. */
  lemma DecisiveDecides(t: string, p: nat, n: nat, q: nat, j: nat, acc: seq<string>)
    requires p <= |t| && n <= |Tokens(t, p)| && q == Advance(t, p, n)
    requires Decisive(Tokens(t, p), n)
    ensures DecidesAt(t, q, j, acc)
  {
    if j > IterationBound {
      PreScanPastBound(t, q, j, acc);
    } else {
      DecisiveAfter(t, p, n);
      PreScanDecides(t, q, j, acc);
    }
  }

  /** Passing over `n` tokens to a cursor that decides the pre-scan decides it from `p`. */
  lemma PassesOverThenDecides(t: string, p: nat, i: nat, acc: seq<string>, n: nat)
    requires p <= |t| && n <= |Tokens(t, p)|
    requires PassesOver(t, p, i, acc, n) && DecidesAt(t, Advance(t, p, n), i + n, acc)
    ensures PreScan(t, p, i, acc) ==
      if i + n > IterationBound then PreScanResult(acc, PreScanFailed(Diagnostic(MissingStart, 4)))
      else FirstTokenStatus(t, Advance(t, p, n), acc)
  {
  }

  /**
   * After unknown `@` words, the pre-scan finds `@start` (true), `@stop` (false), a token
   * that is neither a comment nor an `@` word (dangling code, severity 2) or nothing
   * (missing start, severity 4); past 5000
   * iterations it reports a missing start whatever follows.
   */
  lemma {:induction false} PreScanOutcome(t: string, p: nat, i: nat, acc: seq<string>, n: nat)
    requires p <= |t| && n <= |Tokens(t, p)|
    requires AllUnknownCommands(Tokens(t, p)[..n])
    requires Decisive(Tokens(t, p), n)
    ensures PreScan(t, p, i, acc) ==
      if i + n > IterationBound then PreScanResult(acc, PreScanFailed(Diagnostic(MissingStart, 4)))
      else FirstTokenStatus(t, Advance(t, p, n), acc)
  {
    PreScanSkipsUnknownCommands(t, p, i, acc, n);
    DecisiveDecides(t, p, n, Advance(t, p, n), i + n, acc);
    PassesOverThenDecides(t, p, i, acc, n);
  }

  // ---------------------------------------------------------------------------------
  // Where extraction resumes

  /** The reader's search returns the number of the first line equal to the target. */
  lemma {:induction false} FindLineFindsFirst(t: string, p: nat, c: nat, check: string, target: string, current: nat)
    requires p <= |t|
    ensures var ls := [check] + Lines(t, p);
      var k := IndexOf(ls, target);
      FindLine(t, p, c, check, target, current) == if k < |ls| then c + k else current
    decreases |t| - p
  {
    var ls := [check] + Lines(t, p);
    if check != target {
      match RestOfLine(t, p)
      case None =>
        assert ls == [check];
      case Some((line, q)) =>
        FindLineFindsFirst(t, q, c + 1, line, target, current);
        assert ls[1..] == [line] + Lines(t, q);
        assert IndexOf(ls, target) == 1 + IndexOf([line] + Lines(t, q), target);
    }
  }

  /**
   * startLine becomes the number of the first line that is exactly `@start` (line 0 is
   * the header), or keeps its value when there is none; skipping that many lines and one
   * more leaves the scanner at the start of the line after it.
   */
  lemma StartLineIsFirstStartLine(t: string, current: nat)
    ensures var ls := Lines(t, 0);
      var k := IndexOf(ls, StartCommand.Name());
      && StartLineOf(t, current) == (if k < |ls| then k else current)
      && (k < |ls| ==> SkipLines(t, 0, k + 1).Some? && Lines(t, SkipLines(t, 0, k + 1).value) == ls[k + 1..])
  {
    var ls := Lines(t, 0);
    var k := IndexOf(ls, StartCommand.Name());
    match RestOfLine(t, 0)
    case None =>
    case Some((line0, p)) =>
      assert ls == [line0] + Lines(t, p);
      FindLineFindsFirst(t, p, 0, line0, StartCommand.Name(), current);
    SkipLinesDropsLines(t, 0, k + 1);
  }

  // ---------------------------------------------------------------------------------
  // Whole reads

  /** When the pre-scan meets `@stop` first, read() extracts nothing and reports no error. */
  lemma StopFirstReadsNothing(t: string, startLine: nat, acc: seq<string>)
    requires RestOfLine(t, 0).Some?
    requires PreScan(t, RestOfLine(t, 0).value.1, 1, acc).status == StopFound
    ensures ReadResult(t, startLine, acc) == ReadOutcome(PreScan(t, RestOfLine(t, 0).value.1, 1, acc).entries, startLine, None)
  {
  }

  /** When the pre-scan meets `@start` first, hasStart() sets startLine to the first line that is exactly `@start`. */
  lemma StartSetsStartLine(t: string, startLine: nat, acc: seq<string>)
    requires RestOfLine(t, 0).Some?
    requires PreScan(t, RestOfLine(t, 0).value.1, 1, acc).status == StartFound
    requires IndexOf(Lines(t, 0), "@start") < |Lines(t, 0)|
    ensures HasStartResult(t, startLine, acc)
         == StartResult(PreScan(t, RestOfLine(t, 0).value.1, 1, acc).entries, IndexOf(Lines(t, 0), "@start"), StartFound)
  {
    StartLineIsFirstStartLine(t, startLine);
  }

  /**
   * When the pre-scan meets `@start` first, read() resumes on the line after the first
   * line that is exactly `@start` and returns what the main loop extracts from there,
   * after the entries the pre-scan salvaged.
   */
  lemma ReadAfterStart(t: string, startLine: nat, acc: seq<string>)
    requires RestOfLine(t, 0).Some?
    requires PreScan(t, RestOfLine(t, 0).value.1, 1, acc).status == StartFound
    requires IndexOf(Lines(t, 0), "@start") < |Lines(t, 0)|
    ensures SkipLines(t, 0, IndexOf(Lines(t, 0), "@start") + 1).Some?
    ensures var k := IndexOf(Lines(t, 0), "@start");
      var e := PreScan(t, RestOfLine(t, 0).value.1, 1, acc).entries;
      match SkipLines(t, 0, k + 1)
      case None => false
      case Some(p) =>
        var o := Extract(t, p, e);
        ReadResult(t, startLine, acc) == ReadOutcome(o.entries, k, o.failure)
  {
    StartSetsStartLine(t, startLine, acc);
    StartLineIsFirstStartLine(t, startLine);
  }

  /**
   * When the pre-scan meets `@start` first but no line is exactly `@start`, startLine
   * keeps its value and read() resumes on the line after it, or fails natively when the
   * text has no such line.
   */
  lemma ReadWithoutStartLine(t: string, startLine: nat, acc: seq<string>)
    requires RestOfLine(t, 0).Some?
    requires PreScan(t, RestOfLine(t, 0).value.1, 1, acc).status == StartFound
    requires IndexOf(Lines(t, 0), "@start") == |Lines(t, 0)|
    ensures var e := PreScan(t, RestOfLine(t, 0).value.1, 1, acc).entries;
      ReadResult(t, startLine, acc) ==
        match SkipLines(t, 0, startLine + 1)
        case None => ReadOutcome(e, startLine, Some(Native))
        case Some(p) =>
          var o := Extract(t, p, e);
          ReadOutcome(o.entries, startLine, o.failure)
  {
    StartLineIsFirstStartLine(t, startLine);
  }
}
