/**
 * The part of java.util.Scanner (default delimiter) that the script reader uses, over
 * the whole text of the file. The text is one string; '\n' ends each physical line.
 * A cursor is an index into the text: next() skips whitespace, across lines, and returns
 * the maximal run of non-whitespace characters; nextLine() returns the rest of the
 * current line and moves past its terminator. BufferedReader.readLine reads lines the
 * same way, so RestOfLine also stands for it.
 */
module Scanning {
  import opened Wrappers

  /** Character.isWhitespace, the characters of Scanner's default delimiter. */
  predicate IsWhitespace(c: char) {
    || ('\t' <= c <= '\r')
    || ('\U{1C}' <= c <= '\U{1F}')
    || c == ' '
    || c == '\U{1680}'
    || ('\U{2000}' <= c <= '\U{2006}')
    || ('\U{2008}' <= c <= '\U{200A}')
    || c == '\U{2028}' || c == '\U{2029}'
    || c == '\U{205F}'
    || c == '\U{3000}'
  }

  /** The end of the whitespace run that starts at `p`. */
  function SkipWhitespace(t: string, p: nat): (q: nat)
    requires p <= |t|
    ensures p <= q <= |t|
    ensures q == |t| || !IsWhitespace(t[q])
    decreases |t| - p
  {
    if p < |t| && IsWhitespace(t[p]) then SkipWhitespace(t, p + 1) else p
  }

  /** Everything SkipWhitespace passes over is whitespace. */
  lemma {:induction false} SkipWhitespaceSkipsWhitespace(t: string, p: nat)
    requires p <= |t|
    ensures forall k :: p <= k < SkipWhitespace(t, p) ==> IsWhitespace(t[k])
    decreases |t| - p
  {
    if p < |t| && IsWhitespace(t[p]) {
      SkipWhitespaceSkipsWhitespace(t, p + 1);
    }
  }

  /** The end of the non-whitespace run that starts at `p`. */
  function TokenEnd(t: string, p: nat): (q: nat)
    requires p <= |t|
    ensures p <= q <= |t|
    ensures q == |t| || IsWhitespace(t[q])
    decreases |t| - p
  {
    if p < |t| && !IsWhitespace(t[p]) then TokenEnd(t, p + 1) else p
  }

  /** A token holds no whitespace. */
  lemma {:induction false} TokenEndSkipsText(t: string, p: nat)
    requires p <= |t|
    ensures forall k :: p <= k < TokenEnd(t, p) ==> !IsWhitespace(t[k])
    decreases |t| - p
  {
    if p < |t| && !IsWhitespace(t[p]) {
      TokenEndSkipsText(t, p + 1);
    }
  }

  /** The end of the line that `p` is on: the next '\n', or the end of the text. */
  function LineEnd(t: string, p: nat): (q: nat)
    requires p <= |t|
    ensures p <= q <= |t|
    ensures q == |t| || t[q] == '\n'
    decreases |t| - p
  {
    if p < |t| && t[p] != '\n' then LineEnd(t, p + 1) else p
  }

  /** A line holds no '\n'. */
  lemma {:induction false} LineEndSkipsLine(t: string, p: nat)
    requires p <= |t|
    ensures forall k :: p <= k < LineEnd(t, p) ==> t[k] != '\n'
    decreases |t| - p
  {
    if p < |t| && t[p] != '\n' {
      LineEndSkipsLine(t, p + 1);
    }
  }

  /** The end of a line is its first '\n'. */
  lemma {:induction false} LineEndAt(t: string, p: nat, e: nat)
    requires p <= e < |t| && t[e] == '\n'
    requires forall k :: p <= k < e ==> t[k] != '\n'
    ensures LineEnd(t, p) == e
    decreases e - p
  {
    if p < e {
      LineEndAt(t, p + 1, e);
    }
  }

  /** The end of a token is its first whitespace character, or the end of the text. */
  lemma {:induction false} TokenEndAt(t: string, p: nat, e: nat)
    requires p <= e <= |t| && (e == |t| || IsWhitespace(t[e]))
    requires forall k :: p <= k < e ==> !IsWhitespace(t[k])
    ensures TokenEnd(t, p) == e
    decreases e - p
  {
    if p < e {
      TokenEndAt(t, p + 1, e);
    }
  }

  /**
   * Scanner.next(): the next token and the cursor just after it, or None when only
   * whitespace is left (hasNext() is false).
   */
  function NextToken(t: string, p: nat): (r: Option<(string, nat)>)
    requires p <= |t|
    ensures r.Some? ==> p < r.value.1 <= |t| && 0 < |r.value.0|
  {
    var s := SkipWhitespace(t, p);
    if s == |t| then None
    else
      var e := TokenEnd(t, s);
      Some((t[s..e], e))
  }

  /**
   * NextToken finds no token exactly when only whitespace is left; otherwise the token is
   * the maximal whitespace-free run after the whitespace at `p`, and ends at the cursor.
   */
  lemma NextTokenIsNextWord(t: string, p: nat)
    requires p <= |t|
    ensures NextToken(t, p).None? <==> forall k :: p <= k < |t| ==> IsWhitespace(t[k])
    ensures NextToken(t, p).Some? ==>
      var (tok, q) := NextToken(t, p).value;
      && p < q <= |t| && 0 < |tok| <= q - p
      && tok == t[q - |tok|..q]
      && (forall k :: p <= k < q - |tok| ==> IsWhitespace(t[k]))
      && (forall k :: 0 <= k < |tok| ==> !IsWhitespace(tok[k]))
      && (q == |t| || IsWhitespace(t[q]))
  {
    SkipWhitespaceSkipsWhitespace(t, p);
    var s := SkipWhitespace(t, p);
    if s < |t| {
      TokenEndSkipsText(t, s);
    }
  }

  /**
   * Scanner.nextLine(): the rest of the current line and the cursor at the start of the
   * next one; None (NoSuchElementException) when the cursor is at the end of the text.
   */
  function RestOfLine(t: string, p: nat): (r: Option<(string, nat)>)
    requires p <= |t|
    ensures r.None? <==> p == |t|
    ensures r.Some? ==> p < r.value.1 <= |t|
  {
    if p == |t| then None
    else
      var e := LineEnd(t, p);
      Some((t[p..e], if e < |t| then e + 1 else e))
  }

  /** The line is the text from `p` up to the next '\n' (or the end), which it skips. */
  lemma RestOfLineIsLine(t: string, p: nat)
    requires p <= |t|
    ensures RestOfLine(t, p).Some? ==>
      var (line, q) := RestOfLine(t, p).value;
      && p + |line| <= |t|
      && t[p..p + |line|] == line
      && (forall k :: 0 <= k < |line| ==> line[k] != '\n')
      && (if p + |line| == |t| then q == |t| else t[p + |line|] == '\n' && q == p + |line| + 1)
  {
    LineEndSkipsLine(t, p);
  }

  /** All tokens from `p` to the end of the text, in order. */
  function Tokens(t: string, p: nat): (toks: seq<string>)
    requires p <= |t|
    ensures forall i :: 0 <= i < |toks| ==> |toks[i]| > 0
    decreases |t| - p
  {
    match NextToken(t, p)
    case None => []
    case Some((tok, q)) => [tok] + Tokens(t, q)
  }

  /** The cursor after `n` more tokens. */
  function Advance(t: string, p: nat, n: nat): (q: nat)
    requires p <= |t| && n <= |Tokens(t, p)|
    ensures p <= q <= |t|
    ensures Tokens(t, q) == Tokens(t, p)[n..]
    decreases n
  {
    if n == 0 then p
    else
      var (_, p1) := NextToken(t, p).value;
      Advance(t, p1, n - 1)
  }

  /** The lines of the text from `p` on, as successive nextLine() (or readLine()) calls return them. */
  function Lines(t: string, p: nat): seq<string>
    requires p <= |t|
    decreases |t| - p
  {
    match RestOfLine(t, p)
    case None => []
    case Some((line, q)) => [line] + Lines(t, q)
  }

  /** The cursor after `n` nextLine() calls, or None when one of them throws. */
  function SkipLines(t: string, p: nat, n: nat): (r: Option<nat>)
    requires p <= |t|
    ensures r.Some? ==> p <= r.value <= |t|
    decreases n
  {
    if n == 0 then Some(p)
    else
      match RestOfLine(t, p)
      case None => None
      case Some((_, q)) => SkipLines(t, q, n - 1)
  }

  /** Skipping `n` lines succeeds exactly when `n` lines remain, and leaves the others. */
  lemma {:induction false} SkipLinesDropsLines(t: string, p: nat, n: nat)
    requires p <= |t|
    ensures SkipLines(t, p, n).Some? <==> n <= |Lines(t, p)|
    ensures SkipLines(t, p, n).Some? ==> Lines(t, SkipLines(t, p, n).value) == Lines(t, p)[n..]
    decreases n
  {
    if n > 0 {
      match RestOfLine(t, p)
      case None =>
      case Some((_, q)) => SkipLinesDropsLines(t, q, n - 1);
    }
  }

  /** java.util.Scanner over a fixed text. */
  class Scanner {
    const text: string
    var pos: nat

    ghost predicate Valid()
      reads this
    {
      pos <= |text|
    }

    constructor (text: string)
      ensures Valid() && this.text == text && pos == 0
    {
      this.text := text;
      pos := 0;
    }

    /** hasNext(): looks ahead without moving the cursor. */
    method HasNext() returns (b: bool)
      requires Valid()
      ensures b <==> NextToken(text, pos).Some?
    {
      var q := pos;
      while q < |text| && IsWhitespace(text[q])
        invariant pos <= q <= |text|
        invariant SkipWhitespace(text, q) == SkipWhitespace(text, pos)
      {
        q := q + 1;
      }
      b := q < |text|;
    }

    /** next(): callers first check hasNext(). */
    method Next() returns (tok: string)
      requires Valid() && NextToken(text, pos).Some?
      modifies this
      ensures Valid()
      ensures NextToken(text, old(pos)) == Some((tok, pos))
    {
      var s := pos;
      while s < |text| && IsWhitespace(text[s])
        invariant pos <= s <= |text|
        invariant SkipWhitespace(text, s) == SkipWhitespace(text, pos)
      {
        s := s + 1;
      }
      var e := s;
      while e < |text| && !IsWhitespace(text[e])
        invariant s <= e <= |text|
        invariant TokenEnd(text, e) == TokenEnd(text, s)
      {
        e := e + 1;
      }
      tok := text[s..e];
      pos := e;
    }

    /** nextLine(): None where Java throws NoSuchElementException; the cursor then stays. */
    method NextLine() returns (line: Option<string>)
      requires Valid()
      modifies this
      ensures Valid()
      ensures match RestOfLine(text, old(pos))
        case None => line.None? && pos == old(pos)
        case Some((l, q)) => line == Some(l) && pos == q
    {
      if pos == |text| {
        return None;
      }
      var e := pos;
      while e < |text| && text[e] != '\n'
        invariant pos <= e <= |text|
        invariant LineEnd(text, e) == LineEnd(text, pos)
      {
        e := e + 1;
      }
      line := Some(text[pos..e]);
      pos := if e < |text| then e + 1 else e;
    }
  }
}
