/**
 * The class tools.mscript.Script: the pre-scan hasStart() and the extraction read(),
 * over a java.util.Scanner that each of them opens on the file. Entries go to the
 * returnValue list, which is never cleared, and hasStart() sets startLine.
 */
module Scripts {
  import opened Wrappers
  import opened Strings
  import opened Scanning
  import opened Comments
  import opened RootCommands
  import opened Annotations
  import opened Keyword
  import opened Diagnostics
  import opened ScriptSpec

  /** What hasStart() returns: true on `@start`, false on `@stop`; a diagnostic ends the run. */
  function StatusResult(status: PreScanStatus): Result<bool, Diagnostic> {
    match status
    case StartFound => Ok(true)
    case StopFound => Ok(false)
    case PreScanFailed(d) => Err(d)
  }

  class Script {
    const text: string
    var startLine: nat
    var returnValue: seq<string>

    /** The constructor's checks on the file are I/O and left out; its header-line check is the precondition. */
    constructor (text: string)
      requires IsScriptSource(text)
      ensures this.text == text && startLine == 0 && returnValue == []
    {
      this.text := text;
      startLine := 0;
      returnValue := [];
    }

    /** The `##!` loop: up to the first token holding `!##`, salvaging text after it. */
    method SkipBulkComment(sc: Scanner)
      requires sc.Valid() && sc.text == text
      modifies this`returnValue, sc
      ensures sc.Valid()
      ensures (sc.pos, returnValue) == ScriptSpec.SkipBulkComment(text, old(sc.pos), old(returnValue))
    {
      while true
        invariant sc.Valid()
        invariant ScriptSpec.SkipBulkComment(text, sc.pos, returnValue)
               == ScriptSpec.SkipBulkComment(text, old(sc.pos), old(returnValue))
        decreases |text| - sc.pos
      {
        var more := sc.HasNext();
        if !more {
          break;
        }
        var tempVar := sc.Next();
        if Contains(tempVar, BulkClose.Signature()) {
          if !EndsWith(tempVar, BulkClose.Signature()) {
            returnValue := returnValue + [AfterLastBulkClose(tempVar)];
          }
          break;
        }
      }
    }

    /** A `#` token: a bulk comment, `##!!##` alone, or the rest of the line. */
    method SkipComment(sc: Scanner, input: string) returns (failure: Option<Diagnostic>)
      requires sc.Valid() && sc.text == text && IsCommentToken(input)
      modifies this`returnValue, sc
      ensures sc.Valid()
      ensures match ScriptSpec.SkipComment(text, input, old(sc.pos), old(returnValue))
        case Skipped(q, es) => failure.None? && sc.pos == q && returnValue == es
        case SkipFailed(d) => failure == Some(d) && returnValue == old(returnValue)
    {
      if StartsWith(input, BulkOpen.Signature()) {
        if input != BulkOpen.Signature() + BulkClose.Signature() {
          SkipBulkComment(sc);
        }
      } else {
        var line := sc.NextLine();
        if line.None? {
          return Some(Native);
        }
      }
      return None;
    }

    /** `*[^+]`: one entry from the text after the tag and the rest of the line. */
    method StoreLine(sc: Scanner, input: string, str1: string) returns (failure: Option<Diagnostic>)
      requires sc.Valid() && sc.text == text
      modifies this`returnValue, sc
      ensures sc.Valid()
      ensures match ScriptSpec.StoreLine(text, input, str1, old(sc.pos))
        case Expanded(e, q) => failure.None? && sc.pos == q && returnValue == old(returnValue) + [e]
        case Rejected(d) => failure == Some(d) && returnValue == old(returnValue)
    {
      var tagContainsText := |StoreAsLine.Id()| + 1 < |input|;
      var s := sc.NextLine();
      if s.None? || |s.value| == 0 {
        return Some(Native);
      }
      var line := s.value;
      returnValue := returnValue + [(if tagContainsText then str1 + " " else str1) + (if line[0] == ' ' then line[1..] else line)];
      return None;
    }

    /** `*[{{]`: the StringBuilder loop that gathers tokens up to `*[}}]`. */
    method GroupEntries(sc: Scanner, str1: string) returns (entry: string)
      requires sc.Valid() && sc.text == text
      modifies sc
      ensures sc.Valid()
      ensures ScriptSpec.GroupEntry(text, str1, old(sc.pos)) == Expanded(entry, sc.pos)
    {
      var groupEntryBuilder := "{";
      if |str1| > 0 {
        groupEntryBuilder := groupEntryBuilder + str1 + ", ";
      }
      assert groupEntryBuilder == "{" + (if |str1| > 0 then str1 + ", " else "");
      ghost var goal := CollectGroup(text, sc.pos, groupEntryBuilder);
      while true
        invariant sc.Valid()
        invariant CollectGroup(text, sc.pos, groupEntryBuilder) == goal
        decreases |text| - sc.pos
      {
        var more := sc.HasNext();
        if !more {
          break;
        }
        ghost var before := sc.pos;
        var tempVar := sc.Next();
        if tempVar == GroupCloseToken {
          assert goal == (groupEntryBuilder, sc.pos) by {
            assert CollectGroup(text, before, groupEntryBuilder) == (groupEntryBuilder, sc.pos);
          }
          break;
        }
        groupEntryBuilder := groupEntryBuilder + tempVar + ", ";
      }
      entry := CloseGroup(groupEntryBuilder);
    }

    /** A `*` token: look the annotation up and apply it. */
    method ProcessAnnotation(sc: Scanner, input: string) returns (failure: Option<Diagnostic>)
      requires sc.Valid() && sc.text == text
      modifies this`returnValue, sc
      ensures sc.Valid()
      ensures match ExpandAnnotation(text, input, old(sc.pos))
        case Expanded(e, q) => failure.None? && sc.pos == q && returnValue == old(returnValue) + [e]
        case Rejected(d) => failure == Some(d) && returnValue == old(returnValue)
    {
      var annotation := AnnotationName(input);
      var id := "[" + annotation + "]";
      if !(AnnotationExists(id) && |input| != 1) {
        return Some(Diagnostic(UnknownAnnotation(input), 4));
      }
      if |input| < 3 + |annotation| {
        return Some(Native);
      }
      var str1 := input[3 + |annotation|..];
      match GetAnnotationFromId(id) {
      case TextCommentSymbol =>
        returnValue := returnValue + [TextCommentSymbol.ActualValue().value + str1];
      case TextRootSymbol =>
        returnValue := returnValue + [TextRootSymbol.ActualValue().value + str1];
      case TextAnnotationSymbol =>
        returnValue := returnValue + [TextAnnotationSymbol.ActualValue().value + str1];
      case Whitespace =>
        returnValue := returnValue + [Whitespace.ActualValue().value + str1];
      case StoreAsLine =>
        failure := StoreLine(sc, input, str1);
        return;
      case GroupEntriesOpen =>
        var entry := GroupEntries(sc, str1);
        returnValue := returnValue + [entry];
      case GroupEntriesClose =>
        return Some(Diagnostic(DanglingDataGroup, 1));
      }
      return None;
    }

    /** After `@stop`: only comments may follow. */
    method CheckAfterStop(sc: Scanner) returns (failure: Option<Diagnostic>)
      requires sc.Valid() && sc.text == text
      modifies this`returnValue, sc
      ensures AfterStop(text, old(sc.pos), old(returnValue)) == Outcome(returnValue, failure)
    {
      while true
        invariant sc.Valid()
        invariant AfterStop(text, sc.pos, returnValue) == AfterStop(text, old(sc.pos), old(returnValue))
        decreases |text| - sc.pos
      {
        var more := sc.HasNext();
        if !more {
          break;
        }
        var input := sc.Next();
        if IsCommentToken(input) {
          failure := SkipComment(sc, input);
          if failure.Some? {
            return;
          }
        } else {
          return Some(Diagnostic(DanglingCode(input), 2));
        }
      }
      return None;
    }

    /** read()'s main loop over the tokens after the `@start` line. */
    method ExtractEntries(sc: Scanner) returns (failure: Option<Diagnostic>)
      requires sc.Valid() && sc.text == text
      modifies this`returnValue, sc
      ensures Extract(text, old(sc.pos), old(returnValue)) == Outcome(returnValue, failure)
    {
      while true
        invariant sc.Valid()
        invariant Extract(text, sc.pos, returnValue) == Extract(text, old(sc.pos), old(returnValue))
        decreases |text| - sc.pos
      {
        var more := sc.HasNext();
        if !more {
          break;
        }
        var input := sc.Next();
        if IsCommentToken(input) {
          failure := SkipComment(sc, input);
          if failure.Some? {
            return;
          }
        } else if IsCommandToken(input) {
          match GetKeywordFromName(input) {
          case Err(d) =>
            return Some(d);
          case Ok(StartCommand) =>
            return Some(Diagnostic(DuplicateStart, 1));
          case Ok(StopCommand) =>
            failure := CheckAfterStop(sc);
            return;
          }
        } else if IsAnnotationToken(input) {
          failure := ProcessAnnotation(sc, input);
          if failure.Some? {
            return;
          }
        } else {
          returnValue := returnValue + [input];
        }
      }
      return None;
    }

    /** The reader's search for the line that is exactly `input`, starting from line `check0`. */
    method FindStartLine(reader: Scanner, check0: string, input: string)
      requires reader.Valid() && reader.text == text
      modifies this`startLine, reader
      ensures startLine == FindLine(text, old(reader.pos), 0, check0, input, old(startLine))
    {
      var check := check0;
      var c := 0;
      while true
        invariant reader.Valid()
        invariant FindLine(text, reader.pos, c, check, input, startLine)
               == FindLine(text, old(reader.pos), 0, check0, input, old(startLine))
        decreases |text| - reader.pos
      {
        if input == check {
          startLine := c;
          break;
        }
        c := c + 1;
        var line := reader.NextLine();
        if line.None? {
          break;
        }
        check := line.value;
      }
    }

    /** One iteration of hasStart()'s loop, the `i`-th: None when the loop goes on. */
    method PreScanIteration(sc: Scanner, ghost i: nat) returns (done: Option<PreScanStatus>)
      requires sc.Valid() && sc.text == text && i <= IterationBound
      modifies this`returnValue, sc
      ensures sc.Valid()
      ensures done.None? ==> PreScan(text, old(sc.pos), i, old(returnValue)) == PreScan(text, sc.pos, i + 1, returnValue)
      ensures done.Some? ==> PreScan(text, old(sc.pos), i, old(returnValue)) == PreScanResult(returnValue, done.value)
    {
      var more := sc.HasNext();
      if !more {
        return Some(PreScanFailed(Diagnostic(MissingStart, 4)));
      }
      var input := sc.Next();
      if IsCommentToken(input) {
        var failure := SkipComment(sc, input);
        if failure.Some? {
          return Some(PreScanFailed(failure.value));
        }
      } else if IsCommandToken(input) {
        if CommandExists(input) {
          if GetKeywordFromName(input) == Ok(StartCommand) {
            return Some(StartFound);
          } else {
            return Some(StopFound);
          }
        }
      } else {
        return Some(PreScanFailed(Diagnostic(DanglingCode(input), 2)));
      }
      return None;
    }

    /** hasStart()'s loop over at most 5000 tokens after the header line. */
    method ScanForRoot(sc: Scanner) returns (status: PreScanStatus)
      requires sc.Valid() && sc.text == text
      modifies this`returnValue, sc
      ensures PreScan(text, old(sc.pos), 1, old(returnValue)) == PreScanResult(returnValue, status)
    {
      for i := 1 to IterationBound + 1
        invariant sc.Valid()
        invariant PreScan(text, sc.pos, i, returnValue) == PreScan(text, old(sc.pos), 1, old(returnValue))
      {
        var done := PreScanIteration(sc, i);
        if done.Some? {
          return done.value;
        }
      }
      return PreScanFailed(Diagnostic(MissingStart, 4));
    }

    /** hasStart(): true when `@start` comes first, false when `@stop` does. */
    method HasStart() returns (r: Result<bool, Diagnostic>)
      modifies this
      ensures var s := HasStartResult(text, old(startLine), old(returnValue));
        returnValue == s.entries && startLine == s.startLine && r == StatusResult(s.status)
    {
      var sc := new Scanner(text);
      var reader := new Scanner(text);
      var check := reader.NextLine();
      var header := sc.NextLine();
      if header.None? {
        return Err(Native);
      }
      var status := ScanForRoot(sc);
      if status == StartFound {
        FindStartLine(reader, check.value, StartCommand.Name());
      }
      return StatusResult(status);
    }

    /** read()'s loop that moves the scanner past the `@start` line. */
    method SkipToStart(sc: Scanner) returns (ok: bool)
      requires sc.Valid() && sc.text == text && sc.pos == 0
      modifies sc
      ensures sc.Valid()
      ensures SkipLines(text, 0, startLine + 1) == if ok then Some(sc.pos) else None
    {
      var i := 0;
      while i <= startLine
        invariant sc.Valid() && 0 <= i <= startLine + 1
        invariant SkipLines(text, sc.pos, startLine + 1 - i) == SkipLines(text, 0, startLine + 1)
        decreases startLine + 1 - i
      {
        ghost var p := sc.pos;
        var line := sc.NextLine();
        if line.None? {
          assert SkipLines(text, p, startLine + 1 - i) == None;
          return false;
        }
        assert SkipLines(text, p, startLine + 1 - i) == SkipLines(text, sc.pos, startLine - i);
        i := i + 1;
      }
      return true;
    }

    /** read(): the entries of the region between `@start` and `@stop` (or the end of the file). */
    method Read() returns (r: Result<seq<string>, Diagnostic>)
      modifies this
      ensures var o := ReadResult(text, old(startLine), old(returnValue));
        && returnValue == o.entries && startLine == o.startLine
        && r == (if o.failure.None? then Ok(o.entries) else Err(o.failure.value))
    {
      var sc := new Scanner(text);
      var reader := new Scanner(text);
      var check := reader.NextLine();
      if check.None? {
        return Err(Diagnostic(EmptyFile, 2));
      }
      var found := HasStart();
      if found.Err? {
        return Err(found.error);
      }
      if found.value {
        var skipped := SkipToStart(sc);
        if !skipped {
          return Err(Native);
        }
        var failure := ExtractEntries(sc);
        if failure.Some? {
          return Err(failure.value);
        }
      }
      return Ok(returnValue);
    }
  }
}
