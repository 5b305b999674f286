/**
 * What Script.hasStart() and Script.read() compute, as functions of the file text, the
 * cursor and the entries gathered so far. Each function follows one loop or branch of
 * the Java code; the class in Script.dfy runs the same loops and is proved to agree.
 */
module ScriptSpec {
  import opened Wrappers
  import opened Strings
  import opened Scanning
  import TS = TextSpecifications
  import opened Comments
  import opened RootCommands
  import opened Annotations
  import opened Keyword
  import opened Diagnostics

  /** The first line every script must have. */
  const Header: string := "```mscript"

  /** hasStart() gives up after this many tokens of its own loop. */
  const IterationBound: nat := 5000

  const CommentPrefix: string := [TS.TextSpecification.Comment.Symbol()]
  const CommandPrefix: string := [TS.TextSpecification.Command.Symbol()]
  const AnnotationPrefix: string := [TS.TextSpecification.Annotation.Symbol()]

  /** The token that closes a data group: `*[}}]`. */
  const GroupCloseToken: string := AnnotationPrefix + GroupEntriesClose.Id()

  /**
   * A file the Script constructor accepts: its first line is the header. '\n' is the
   * only line terminator, so Scanner, BufferedReader and the regular expressions agree
   * on where lines end.
   */
  predicate IsScriptSource(t: string) {
    && (forall k :: 0 <= k < |t| ==> t[k] != '\r' && t[k] != '\U{85}' && t[k] != '\U{2028}' && t[k] != '\U{2029}')
    && RestOfLine(t, 0).Some? && RestOfLine(t, 0).value.0 == Header
  }

  predicate IsCommentToken(tok: string) { StartsWith(tok, CommentPrefix) }
  predicate IsCommandToken(tok: string) { StartsWith(tok, CommandPrefix) }
  predicate IsAnnotationToken(tok: string) { StartsWith(tok, AnnotationPrefix) }

  /** Raw text: a token that read() stores as it is. */
  predicate IsRawToken(tok: string) {
    !IsCommentToken(tok) && !IsCommandToken(tok) && !IsAnnotationToken(tok)
  }

  /** A diagnostic raised where nothing is wrong with the script but a Java call threw. */
  const Native: Diagnostic := Diagnostic(NativeError, 5)

  // ---------------------------------------------------------------------------------
  // Comments

  /** The text after the last `!##` of a token: tempVar.replaceAll(".*!##", ""). */
  function AfterLastBulkClose(tok: string): (r: string)
    requires Contains(tok, BulkClose.Signature())
    ensures EndsWith(tok, r)
  {
    var i := LastIndexOf(tok, BulkClose.Signature()).value;
    tok[i + |BulkClose.Signature()|..]
  }

  /**
   * The loop after a `##!` opener: tokens are consumed up to and including the first one
   * that contains `!##`; if that one does not end with `!##`, the text after its last
   * `!##` is stored as an entry. Without such a token the loop stops at the end of the text.
   */
  function SkipBulkComment(t: string, p: nat, acc: seq<string>): (r: (nat, seq<string>))
    requires p <= |t|
    ensures p <= r.0 <= |t|
    ensures acc <= r.1 && |r.1| <= |acc| + 1
    decreases |t| - p
  {
    match NextToken(t, p)
    case None => (p, acc)
    case Some((tok, q)) =>
      if Contains(tok, BulkClose.Signature()) then
        (q, if !EndsWith(tok, BulkClose.Signature()) then acc + [AfterLastBulkClose(tok)] else acc)
      else
        SkipBulkComment(t, q, acc)
  }

  datatype Skip = Skipped(pos: nat, entries: seq<string>) | SkipFailed(error: Diagnostic)

  /**
   * A `#` token, read at cursor `p` (just after the token). `##!!##` is passed over on its
   * own; any other `##!` token opens a bulk comment; any other `#` token drops the rest
   * of its line, and nextLine() throws when the token ends the text. (The `!##` test that
   * follows the `##!` test in Java never holds for a `#` token: Comments.BulkCloseIsNoComment.)
   */
  function SkipComment(t: string, tok: string, p: nat, acc: seq<string>): (r: Skip)
    requires p <= |t| && IsCommentToken(tok)
    ensures r.Skipped? ==> p <= r.pos <= |t| && acc <= r.entries
    ensures r.SkipFailed? ==> r.error == Native
  {
    if StartsWith(tok, BulkOpen.Signature()) then
      if tok == BulkOpen.Signature() + BulkClose.Signature() then Skipped(p, acc)
      else
        var (q, es) := SkipBulkComment(t, p, acc);
        Skipped(q, es)
    else
      match RestOfLine(t, p)
      case None => SkipFailed(Native)
      case Some((_, q)) => Skipped(q, acc)
  }

  // ---------------------------------------------------------------------------------
  // Annotations

  /**
   * The annotation name: input.replaceAll("\\*\\[|].*", "") removes every `*[` and
   * everything from the first `]` on.
   */
  function AnnotationName(s: string): (r: string)
    ensures |r| <= |s|
  {
    if |s| == 0 then ""
    else if s[0] == ']' then ""
    else if |s| >= 2 && s[0] == '*' && s[1] == '[' then AnnotationName(s[2..])
    else [s[0]] + AnnotationName(s[1..])
  }

  /**
   * The loop after `*[{{]`: every token up to the first `*[}}]` (consumed) or the end of
   * the text is appended to the builder `b`, followed by ", ".
   */
  function CollectGroup(t: string, p: nat, b: string): (r: (string, nat))
    requires p <= |t|
    ensures p <= r.1 <= |t|
    decreases |t| - p
  {
    match NextToken(t, p)
    case None => (b, p)
    case Some((tok, q)) =>
      if tok == GroupCloseToken then (b, q)
      else CollectGroup(t, q, b + tok + ", ")
  }

  /** The group entry made from the builder: its trailing ", " cut off, then "}". */
  function CloseGroup(b: string): string {
    var n := if |b| - 2 > 0 then |b| - 2 else if |b| - 1 > 0 then |b| - 1 else |b|;
    b[..n] + "}"
  }

  datatype Expansion = Expanded(entry: string, pos: nat) | Rejected(error: Diagnostic)

  /**
   * `*[^+]`: the text after the tag, then a space if the tag carried text (`tok` is longer
   * than `*[^+]`), then the rest of the physical line without its first space; the rest of
   * the line is consumed.
   */
  function StoreLine(t: string, tok: string, rest: string, p: nat): (r: Expansion)
    requires p <= |t|
    ensures r.Expanded? ==> p < r.pos <= |t|
    ensures r.Rejected? ==> r.error == Native
  {
    var tagContainsText := |StoreAsLine.Id()| + 1 < |tok|;
    match RestOfLine(t, p)
    case None => Rejected(Native)  // nextLine() throws
    case Some((s, q)) =>
      if |s| == 0 then Rejected(Native)  // charAt(0) throws
      else Expanded((if tagContainsText then rest + " " else rest) + (if s[0] == ' ' then s[1..] else s), q)
  }

  /** `*[{{]`: the group entry, seeded with the text after the tag when there is any. */
  function GroupEntry(t: string, rest: string, p: nat): (r: Expansion)
    requires p <= |t|
    ensures r.Expanded? && p <= r.pos <= |t|
  {
    var (b, q) := CollectGroup(t, p, "{" + (if |rest| > 0 then rest + ", " else ""));
    Expanded(CloseGroup(b), q)
  }

  /** A `*` token, read at cursor `p`: the entry it makes, or the diagnostic it raises. */
  function ExpandAnnotation(t: string, tok: string, p: nat): (r: Expansion)
    requires p <= |t|
    ensures r.Expanded? ==> p <= r.pos <= |t|
    ensures r.Rejected? ==> WellRated(r.error)
  {
    var name := AnnotationName(tok);
    var id := "[" + name + "]";
    if AnnotationExists(id) && |tok| != 1 then
      if |tok| < 3 + |name| then Rejected(Native)  // substring(3 + length) throws
      else
        var rest := tok[3 + |name|..];
        match GetAnnotationFromId(id)
        case TextCommentSymbol => Expanded(TextCommentSymbol.ActualValue().value + rest, p)
        case TextRootSymbol => Expanded(TextRootSymbol.ActualValue().value + rest, p)
        case TextAnnotationSymbol => Expanded(TextAnnotationSymbol.ActualValue().value + rest, p)
        case Whitespace => Expanded(Whitespace.ActualValue().value + rest, p)
        case StoreAsLine => StoreLine(t, tok, rest, p)
        case GroupEntriesOpen => GroupEntry(t, rest, p)
        case GroupEntriesClose => Rejected(Diagnostic(DanglingDataGroup, 1))
    else
      Rejected(Diagnostic(UnknownAnnotation(tok), 4))
  }

  // ---------------------------------------------------------------------------------
  // Extraction

  /** Where read() ends: the entries it holds and, if it stopped on one, the diagnostic. */
  datatype Outcome = Outcome(entries: seq<string>, failure: Option<Diagnostic>)

  /**
   * The loop after `@stop`: only `#` tokens (with the comments they open) may follow;
   * the first other token is dangling code.
   */
  function AfterStop(t: string, p: nat, acc: seq<string>): (r: Outcome)
    requires p <= |t|
    ensures acc <= r.entries
    ensures r.failure.Some? ==> WellRated(r.failure.value)
    ensures r.failure.Some? ==> r.failure.value.kind.DanglingCode? || r.failure.value == Native
    decreases |t| - p
  {
    match NextToken(t, p)
    case None => Outcome(acc, None)
    case Some((tok, q)) =>
      if IsCommentToken(tok) then
        match SkipComment(t, tok, q, acc)
        case Skipped(q2, acc2) => AfterStop(t, q2, acc2)
        case SkipFailed(d) => Outcome(acc, Some(d))
      else
        Outcome(acc, Some(Diagnostic(DanglingCode(tok), 2)))
  }

  datatype Step = Continue(pos: nat, entries: seq<string>) | Halt(outcome: Outcome)

  /** One iteration of read()'s main loop, for the token `tok` read just before cursor `q`. */
  function ExtractStep(t: string, tok: string, q: nat, acc: seq<string>): (r: Step)
    requires q <= |t|
    ensures r.Continue? ==> q <= r.pos <= |t| && acc <= r.entries
    ensures r.Halt? ==> acc <= r.outcome.entries
    ensures r.Halt? && r.outcome.failure.Some? ==> WellRated(r.outcome.failure.value)
  {
    if IsCommentToken(tok) then
      match SkipComment(t, tok, q, acc)
      case Skipped(q2, acc2) => Continue(q2, acc2)
      case SkipFailed(d) => Halt(Outcome(acc, Some(d)))
    else if IsCommandToken(tok) then
      match GetKeywordFromName(tok)
      case Err(d) => Halt(Outcome(acc, Some(d)))
      case Ok(StartCommand) => Halt(Outcome(acc, Some(Diagnostic(DuplicateStart, 1))))
      case Ok(StopCommand) => Halt(AfterStop(t, q, acc))
    else if IsAnnotationToken(tok) then
      match ExpandAnnotation(t, tok, q)
      case Expanded(e, q2) => Continue(q2, acc + [e])
      case Rejected(d) => Halt(Outcome(acc, Some(d)))
    else
      Continue(q, acc + [tok])
  }

  /** read()'s main loop from cursor `p`; the end of the text ends it normally. */
  function Extract(t: string, p: nat, acc: seq<string>): (r: Outcome)
    requires p <= |t|
    ensures acc <= r.entries
    ensures r.failure.Some? ==> WellRated(r.failure.value)
    decreases |t| - p
  {
    match NextToken(t, p)
    case None => Outcome(acc, None)
    case Some((tok, q)) =>
      match ExtractStep(t, tok, q, acc)
      case Continue(q2, acc2) => Extract(t, q2, acc2)
      case Halt(o) => o
  }

  // ---------------------------------------------------------------------------------
  // Pre-scan

  datatype PreScanStatus = StartFound | StopFound | PreScanFailed(error: Diagnostic)

  datatype PreScanResult = PreScanResult(entries: seq<string>, status: PreScanStatus)

  /**
   * hasStart()'s loop, iteration `i` at cursor `p`: comments are skipped, `@start` and
   * `@stop` end it, any other `@` word is passed over, and anything else is dangling code.
   */
  function PreScan(t: string, p: nat, i: nat, acc: seq<string>): (r: PreScanResult)
    requires p <= |t|
    ensures acc <= r.entries
    ensures r.status.PreScanFailed? ==> WellRated(r.status.error)
    decreases IterationBound + 1 - i
  {
    if i > IterationBound then PreScanResult(acc, PreScanFailed(Diagnostic(MissingStart, 4)))
    else
      match NextToken(t, p)
      case None => PreScanResult(acc, PreScanFailed(Diagnostic(MissingStart, 4)))
      case Some((tok, q)) =>
        if IsCommentToken(tok) then
          match SkipComment(t, tok, q, acc)
          case Skipped(q2, acc2) => PreScan(t, q2, i + 1, acc2)
          case SkipFailed(d) => PreScanResult(acc, PreScanFailed(d))
        else if IsCommandToken(tok) then
          if !CommandExists(tok) then PreScan(t, q, i + 1, acc)
          else if GetKeywordFromName(tok) == Ok(StartCommand) then PreScanResult(acc, StartFound)
          else PreScanResult(acc, StopFound)  // the only other root command
        else
          PreScanResult(acc, PreScanFailed(Diagnostic(DanglingCode(tok), 2)))
  }

  /**
   * The reader's do-while loop: `check` is line `c`, the reader is at `p`; the result is
   * the number of the first line equal to `target`, or `current` when there is none.
   */
  function FindLine(t: string, p: nat, c: nat, check: string, target: string, current: nat): nat
    requires p <= |t|
    decreases |t| - p
  {
    if check == target then c
    else
      match RestOfLine(t, p)
      case None => current
      case Some((line, q)) => FindLine(t, q, c + 1, line, target, current)
  }

  /** startLine after `@start` was found: the first line that is exactly `@start`, if any. */
  function StartLineOf(t: string, current: nat): nat {
    match RestOfLine(t, 0)
    case None => current
    case Some((line0, p)) => FindLine(t, p, 0, line0, StartCommand.Name(), current)
  }

  datatype StartResult = StartResult(entries: seq<string>, startLine: nat, status: PreScanStatus)

  /** hasStart(): skip the header line, then pre-scan; `@start` also sets startLine. */
  function HasStartResult(t: string, startLine: nat, acc: seq<string>): (r: StartResult)
    ensures acc <= r.entries
    ensures r.status.PreScanFailed? ==> WellRated(r.status.error)
  {
    match RestOfLine(t, 0)
    case None => StartResult(acc, startLine, PreScanFailed(Native))
    case Some((_, p)) =>
      var s := PreScan(t, p, 1, acc);
      StartResult(s.entries, if s.status == StartFound then StartLineOf(t, startLine) else startLine, s.status)
  }

  datatype ReadOutcome = ReadOutcome(entries: seq<string>, startLine: nat, failure: Option<Diagnostic>)

  /**
   * read(): reject an empty file, pre-scan, and when `@start` was found run the main loop
   * from the line after startLine. Entries are appended to those the object already holds.
   */
  function ReadResult(t: string, startLine: nat, acc: seq<string>): (r: ReadOutcome)
    ensures acc <= r.entries
    ensures r.failure.Some? ==> WellRated(r.failure.value)
  {
    if RestOfLine(t, 0).None? then ReadOutcome(acc, startLine, Some(Diagnostic(EmptyFile, 2)))
    else
      var s := HasStartResult(t, startLine, acc);
      match s.status
      case PreScanFailed(d) => ReadOutcome(s.entries, s.startLine, Some(d))
      case StopFound => ReadOutcome(s.entries, s.startLine, None)
      case StartFound =>
        match SkipLines(t, 0, s.startLine + 1)
        case None => ReadOutcome(s.entries, s.startLine, Some(Native))
        case Some(p) =>
          var o := Extract(t, p, s.entries);
          ReadOutcome(o.entries, s.startLine, o.failure)
  }
}
