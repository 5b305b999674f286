/**
 * Four whole reads of small scripts, worked out from the functions of ScriptSpec: a
 * region between `@start` and `@stop` followed by a bulk comment, a `@start` that shares
 * its line with other text, text salvaged from a bulk comment before `@start`, and a
 * `@start` sharing its line that is followed by a line that is exactly `@start`.
 */
module ScriptExamples {
  import opened Wrappers
  import opened Strings
  import opened Scanning
  import opened Comments
  import opened RootCommands
  import opened Keyword
  import opened Diagnostics
  import opened ScriptSpec
  import opened ScriptProperties

  /** The header line of a text that starts with the header and a '\n'. */
  lemma HeaderLine(t: string)
    requires |t| > 10 && t[..11] == "```mscript\n"
    ensures RestOfLine(t, 0) == Some(("```mscript", 11))
  {
    var h := t[..11];
    assert forall k | 0 <= k < 11 :: t[k] == h[k];
    assert forall k | 0 <= k < 10 :: h[k] != '\n';
    LineEndAt(t, 0, 10);
    assert t[0..10] == h[..10] == "```mscript";
  }

  /** The second line of the third example is the word `@start`, ended by '\n'. */
  lemma StartWord(t: string)
    requires t == "```mscript\n@start\n" + "foo bar\n@stop\n" + "##! x!##y\n"
    ensures t[11..17] == "@start"
    ensures forall k | 11 <= k < 17 :: t[k] != '\n' && !IsWhitespace(t[k])
    ensures t[17] == '\n'
  {
    assert t[11] == '@' && t[12] == 's' && t[13] == 't' && t[14] == 'a' && t[15] == 'r' && t[16] == 't';
    var w := t[11..17];
    assert |w| == 6 && w[0] == t[11] && w[1] == t[12] && w[2] == t[13] && w[3] == t[14] && w[4] == t[15] && w[5] == t[16];
  }

  /** The lines of the third example up to the region: the header, then `@start`. */
  lemma RegionLines(t: string)
    requires t == "```mscript\n@start\n" + "foo bar\n@stop\n" + "##! x!##y\n"
    ensures RestOfLine(t, 11) == Some(("@start", 18))
  {
    StartWord(t);
    LineEndAt(t, 11, 17);
  }

  /** The first token of the third example: `@start`. */
  lemma RegionStart(t: string)
    requires t == "```mscript\n@start\n" + "foo bar\n@stop\n" + "##! x!##y\n"
    ensures NextToken(t, 11) == Some(("@start", 17))
  {
    StartWord(t);
    TokenEndAt(t, 11, 17);
  }

  /** The first word of the region of the third example: `foo`. */
  lemma RegionFoo(t: string)
    requires t == "```mscript\n@start\n" + "foo bar\n@stop\n" + "##! x!##y\n"
    ensures NextToken(t, 18) == Some(("foo", 21))
  {
    assert t[18] == 'f' && t[19] == 'o' && t[20] == 'o' && t[21] == ' ';
    TokenEndAt(t, 18, 21);
    var w := t[18..21];
    assert |w| == 3 && w[0] == t[18] && w[1] == t[19] && w[2] == t[20];
    assert w == "foo";
  }

  /** The second word of the region of the third example: `bar`. */
  lemma RegionBar(t: string)
    requires t == "```mscript\n@start\n" + "foo bar\n@stop\n" + "##! x!##y\n"
    ensures NextToken(t, 21) == Some(("bar", 25))
  {
    assert t[21] == ' ' && t[22] == 'b' && t[23] == 'a' && t[24] == 'r' && t[25] == '\n';
    assert SkipWhitespace(t, 21) == 22;
    TokenEndAt(t, 22, 25);
    var w := t[22..25];
    assert |w| == 3 && w[0] == t[22] && w[1] == t[23] && w[2] == t[24];
    assert w == "bar";
  }

  /** The token that ends the region of the third example: `@stop`. */
  lemma RegionStop(t: string)
    requires t == "```mscript\n@start\n" + "foo bar\n@stop\n" + "##! x!##y\n"
    ensures NextToken(t, 25) == Some(("@stop", 31))
  {
    assert IsWhitespace(t[25]) && !IsWhitespace(t[26]) && IsWhitespace(t[31]);
    assert SkipWhitespace(t, 25) == 26;
    TokenEndAt(t, 26, 31);
    var w := t[26..31];
    assert |w| == 5 && w[0] == '@' && w[1] == 's' && w[2] == 't' && w[3] == 'o' && w[4] == 'p';
    assert w == "@stop";
  }

  /** The tokens of the third example after `@stop`: `##!`, `x!##y`, and no more. */
  lemma RegionTrailer(t: string)
    requires t == "```mscript\n@start\n" + "foo bar\n@stop\n" + "##! x!##y\n"
    ensures NextToken(t, 31) == Some(("##!", 35))
    ensures NextToken(t, 35) == Some(("x!##y", 41))
    ensures NextToken(t, 41).None?
  {
    assert IsWhitespace(t[31]) && !IsWhitespace(t[32]) && IsWhitespace(t[35]);
    assert SkipWhitespace(t, 31) == 32;
    TokenEndAt(t, 32, 35);
    var open := t[32..35];
    assert |open| == 3 && open[0] == '#' && open[1] == '#' && open[2] == '!';
    assert open == "##!";
    assert IsWhitespace(t[35]) && !IsWhitespace(t[36]) && IsWhitespace(t[41]);
    assert SkipWhitespace(t, 35) == 36;
    TokenEndAt(t, 36, 41);
    var close := t[36..41];
    assert |close| == 5 && close[0] == 'x' && close[1] == '!' && close[2] == '#' && close[3] == '#' && close[4] == 'y';
    assert close == "x!##y";
    assert IsWhitespace(t[41]) && SkipWhitespace(t, 41) == 42;
  }

  /** After `@stop` in the third example, the bulk comment is skipped and `y` is salvaged. */
  lemma RegionAfterStop(t: string)
    requires t == "```mscript\n@start\n" + "foo bar\n@stop\n" + "##! x!##y\n"
    ensures AfterStop(t, 31, ["foo", "bar"]) == Outcome(["foo", "bar", "y"], None)
  {
    RegionTrailer(t);
    SalvagedY();
    assert ["foo", "bar"] + ["y"] == ["foo", "bar", "y"];
    assert SkipBulkComment(t, 35, ["foo", "bar"]) == (41, ["foo", "bar", "y"]);
    assert StartsWith("##!", BulkOpen.Signature()) && "##!" != BulkOpen.Signature() + BulkClose.Signature();
    assert SkipComment(t, "##!", 35, ["foo", "bar"]) == Skipped(41, ["foo", "bar", "y"]);
    assert AfterStop(t, 41, ["foo", "bar", "y"]) == Outcome(["foo", "bar", "y"], None);
  }

  /** A word that starts with none of `#`, `@` and `*` is raw text. */
  lemma PlainWord(w: string)
    requires |w| > 0 && w[0] != '#' && w[0] != '@' && w[0] != '*'
    ensures IsRawToken(w)
  {
    assert w[..1][0] == w[0];
  }

  /** The main loop of the third example stores `foo` and `bar`, then stops at `@stop`. */
  lemma RegionExtract(t: string)
    requires t == "```mscript\n@start\n" + "foo bar\n@stop\n" + "##! x!##y\n"
    ensures Extract(t, 18, []) == Outcome(["foo", "bar", "y"], None)
  {
    RegionFoo(t);
    RegionBar(t);
    RegionStop(t);
    RegionAfterStop(t);
    PlainWord("foo");
    PlainWord("bar");
    ExtractRawStep(t, 18, []);
    ExtractRawStep(t, 21, ["foo"]);
    assert [] + ["foo"] == ["foo"] && ["foo"] + ["bar"] == ["foo", "bar"];
    assert IsCommandToken("@stop");
    ExtractAtCommand(t, 25, ["foo", "bar"]);
  }

  /**
   * A script with its region between `@start` and `@stop`: read() returns the words of
   * the region, and then the text a bulk comment after `@stop` salvages.
   */
  lemma RegionIsReturned(t: string)
    requires t == "```mscript\n@start\n" + "foo bar\n@stop\n" + "##! x!##y\n"
    ensures ReadResult(t, 0, []) == ReadOutcome(["foo", "bar", "y"], 1, None)
  {
    HeaderLine(t);
    RegionLines(t);
    RegionStart(t);
    assert GetKeywordFromName("@start") == Ok(StartCommand);
    assert PreScan(t, 11, 1, []) == PreScanResult([], StartFound);
    assert FindLine(t, 11, 0, "```mscript", "@start", 0) == 1;
    assert HasStartResult(t, 0, []) == StartResult([], 1, StartFound);
    assert SkipLines(t, 0, 2) == Some(18);
    RegionExtract(t);
  }

  /** The lines of the example after the header: `@start a`, and no more. */
  lemma SharedLineLines(t: string)
    requires t == "```mscript\n@start a\n"
    ensures RestOfLine(t, 11) == Some(("@start a", 20))
    ensures RestOfLine(t, 20).None?
  {
    LineEndAt(t, 11, 19);
    var line := t[11..19];
    assert |line| == 8 && forall k | 0 <= k < 8 :: line[k] == "@start a"[k];
    assert line == "@start a";
  }

  /** The first token after the header is `@start`. */
  lemma SharedLineFirstToken(t: string)
    requires t == "```mscript\n@start a\n"
    ensures NextToken(t, 11) == Some(("@start", 17))
  {
    assert !IsWhitespace(t[11]) && IsWhitespace(t[17]);
    TokenEndAt(t, 11, 17);
    assert t[11..17] == "@start";
  }

  /**
   * `@start` that shares its line with other text: no line is exactly `@start`, so
   * startLine keeps its value 0, the main loop starts again on line 1 and meets the same
   * `@start` as a duplicate.
   */
  lemma StartSharingItsLineIsDuplicate(t: string)
    requires t == "```mscript\n@start a\n"
    ensures ReadResult(t, 0, []) == ReadOutcome([], 0, Some(Diagnostic(DuplicateStart, 1)))
  {
    HeaderLine(t);
    SharedLineLines(t);
    SharedLineFirstToken(t);
    assert GetKeywordFromName("@start") == Ok(StartCommand);
    assert PreScan(t, 11, 1, []) == PreScanResult([], StartFound);
    assert FindLine(t, 20, 1, "@start a", "@start", 0) == 0;
    assert StartLineOf(t, 0) == 0;
    assert HasStartResult(t, 0, []) == StartResult([], 0, StartFound);
    assert SkipLines(t, 0, 1) == Some(11);
    assert Extract(t, 11, []) == Outcome([], Some(Diagnostic(DuplicateStart, 1)));
  }

  /** The lines of the second example after the header: `##! x!##y`, then `@start`. */
  lemma SalvageLines(t: string)
    requires t == "```mscript\n##! x!##y\n@start\n"
    ensures RestOfLine(t, 11) == Some(("##! x!##y", 21))
    ensures RestOfLine(t, 21) == Some(("@start", 28))
    ensures RestOfLine(t, 28).None?
  {
    LineEndAt(t, 11, 20);
    var comment := t[11..20];
    assert |comment| == 9 && forall k | 0 <= k < 9 :: comment[k] == "##! x!##y"[k];
    assert comment == "##! x!##y";
    LineEndAt(t, 21, 27);
    var start := t[21..27];
    assert |start| == 6 && forall k | 0 <= k < 6 :: start[k] == "@start"[k];
    assert start == "@start";
  }

  /** The first token of the second example: `##!`. */
  lemma SalvageOpener(t: string)
    requires t == "```mscript\n##! x!##y\n@start\n"
    ensures NextToken(t, 11) == Some(("##!", 14))
  {
    assert !IsWhitespace(t[11]) && IsWhitespace(t[14]);
    TokenEndAt(t, 11, 14);
    var w := t[11..14];
    assert |w| == 3 && w[0] == '#' && w[1] == '#' && w[2] == '!';
    assert w == "##!";
  }

  /** The second token of the second example: `x!##y`. */
  lemma SalvageCloser(t: string)
    requires t == "```mscript\n##! x!##y\n@start\n"
    ensures NextToken(t, 14) == Some(("x!##y", 20))
  {
    assert IsWhitespace(t[14]) && !IsWhitespace(t[15]) && IsWhitespace(t[20]);
    assert SkipWhitespace(t, 14) == 15;
    TokenEndAt(t, 15, 20);
    var w := t[15..20];
    assert |w| == 5 && forall k | 0 <= k < 5 :: w[k] == "x!##y"[k];
    assert w == "x!##y";
  }

  /** The third token of the second example: `@start`, the last one. */
  lemma SalvageStart(t: string)
    requires t == "```mscript\n##! x!##y\n@start\n"
    ensures NextToken(t, 20) == Some(("@start", 27))
    ensures NextToken(t, 28).None?
  {
    assert IsWhitespace(t[20]) && !IsWhitespace(t[21]) && IsWhitespace(t[27]);
    assert SkipWhitespace(t, 20) == 21;
    TokenEndAt(t, 21, 27);
    var w := t[21..27];
    assert |w| == 6 && forall k | 0 <= k < 6 :: w[k] == "@start"[k];
    assert w == "@start";
  }

  /** The text after the last `!##` of `x!##y` is `y`. */
  lemma SalvagedY()
    ensures Contains("x!##y", BulkClose.Signature()) && !EndsWith("x!##y", BulkClose.Signature())
    ensures AfterLastBulkClose("x!##y") == "y"
  {
    var s := "x!##y";
    var w := s[1..4];
    assert |w| == 3 && w[0] == '!' && w[1] == '#' && w[2] == '#';
    assert OccursAt(s, "!##", 1);
    assert s[2] != '!' && s[2..5] != "!##";
    assert LastIndexUpTo(s, "!##", 2) == Some(1);
  }

  /** The bulk comment of the second example runs to `x!##y` and stores `y`. */
  lemma SalvageBulkComment(t: string)
    requires t == "```mscript\n##! x!##y\n@start\n"
    ensures SkipComment(t, "##!", 14, []) == Skipped(20, ["y"])
  {
    SalvageCloser(t);
    SalvagedY();
    assert [] + ["y"] == ["y"];
    assert SkipBulkComment(t, 14, []) == (20, ["y"]);
    assert StartsWith("##!", BulkOpen.Signature()) && "##!" != BulkOpen.Signature() + BulkClose.Signature();
  }

  /** The pre-scan of the second example: the bulk comment stores `y`, then `@start` is found. */
  lemma SalvagePreScan(t: string)
    requires t == "```mscript\n##! x!##y\n@start\n"
    ensures PreScan(t, 11, 1, []) == PreScanResult(["y"], StartFound)
  {
    SalvageOpener(t);
    SalvageBulkComment(t);
    SalvageStart(t);
    assert GetKeywordFromName("@start") == Ok(StartCommand);
    assert PreScan(t, 20, 2, ["y"]) == PreScanResult(["y"], StartFound);
  }

  /**
   * A bulk comment before `@start` whose closing token carries text: the pre-scan stores
   * that text, and read() returns it although it lies outside the region.
   */
  lemma SalvagedTextBeforeStartIsReturned(t: string)
    requires t == "```mscript\n##! x!##y\n@start\n"
    ensures ReadResult(t, 0, []) == ReadOutcome(["y"], 2, None)
  {
    HeaderLine(t);
    SalvageLines(t);
    SalvagePreScan(t);
    SalvageStart(t);
    assert FindLine(t, 21, 1, "##! x!##y", "@start", 0) == 2;
    assert StartLineOf(t, 0) == 2;
    assert HasStartResult(t, 0, []) == StartResult(["y"], 2, StartFound);
    assert SkipLines(t, 0, 3) == Some(28);
    assert Extract(t, 28, ["y"]) == Outcome(["y"], None);
  }

  /** The lines of the fourth example after the header: `@start foo`, then `@start`. */
  lemma LaterLines(t: string)
    requires t == "```mscript\n@start foo\n" + "@start\nbar\n"
    ensures RestOfLine(t, 11) == Some(("@start foo", 22))
    ensures RestOfLine(t, 22) == Some(("@start", 29))
  {
    LineEndAt(t, 11, 21);
    var shared := t[11..21];
    assert |shared| == 10 && forall k | 0 <= k < 10 :: shared[k] == "@start foo"[k];
    assert shared == "@start foo";
    LineEndAt(t, 22, 28);
    var start := t[22..28];
    assert |start| == 6 && forall k | 0 <= k < 6 :: start[k] == "@start"[k];
    assert start == "@start";
  }

  /** The first token of the fourth example: `@start`. */
  lemma LaterFirstToken(t: string)
    requires t == "```mscript\n@start foo\n" + "@start\nbar\n"
    ensures NextToken(t, 11) == Some(("@start", 17))
  {
    assert !IsWhitespace(t[11]) && IsWhitespace(t[17]);
    TokenEndAt(t, 11, 17);
    var w := t[11..17];
    assert |w| == 6 && forall k | 0 <= k < 6 :: w[k] == "@start"[k];
    assert w == "@start";
  }

  /** The tokens of the fourth example after its exact `@start` line: `bar`, and no more. */
  lemma LaterBar(t: string)
    requires t == "```mscript\n@start foo\n" + "@start\nbar\n"
    ensures NextToken(t, 29) == Some(("bar", 32))
    ensures NextToken(t, 32).None?
  {
    assert !IsWhitespace(t[29]) && IsWhitespace(t[32]);
    TokenEndAt(t, 29, 32);
    var w := t[29..32];
    assert |w| == 3 && w[0] == 'b' && w[1] == 'a' && w[2] == 'r';
    assert w == "bar";
    assert IsWhitespace(t[32]) && SkipWhitespace(t, 32) == 33;
  }

  /**
   * `@start` shares its line with `foo`, and a later line is exactly `@start`: the start
   * line moves to that later line, read() resumes after it, and `foo` is dropped without
   * any diagnostic.
   */
  lemma LaterStartLineDropsText(t: string)
    requires t == "```mscript\n@start foo\n" + "@start\nbar\n"
    ensures ReadResult(t, 0, []) == ReadOutcome(["bar"], 2, None)
  {
    HeaderLine(t);
    LaterLines(t);
    LaterFirstToken(t);
    LaterBar(t);
    assert GetKeywordFromName("@start") == Ok(StartCommand);
    assert PreScan(t, 11, 1, []) == PreScanResult([], StartFound);
    assert FindLine(t, 22, 1, "@start foo", "@start", 0) == 2;
    assert StartLineOf(t, 0) == 2;
    assert HasStartResult(t, 0, []) == StartResult([], 2, StartFound);
    assert SkipLines(t, 0, 3) == Some(29);
    PlainWord("bar");
    ExtractRawStep(t, 29, []);
    ExtractAtEnd(t, 32, ["bar"]);
    assert [] + ["bar"] == ["bar"];
  }
}
