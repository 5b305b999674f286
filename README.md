# MSCRIPT extraction engine, in Dafny

MSCRIPT is a small markup for test data. A script file opens with a header line and
contains, somewhere after it, an `@start` root command and optionally an `@stop` root
command. Between them, every whitespace-separated word is a data entry, with these
exceptions:

- `#` starts a line comment;
- `##!` … `!##` is a bulk comment;
- `*[..]` annotations escape the special symbols (`*[@]`, `*[#]`, `*[*]`, `*[_]`);
- `*[^+]` stores the rest of the line as one entry;
- `*[{{]` … `*[}}]` gather a data group into one `{a, b, c}` entry.

`tools.mscript.Script` does the extraction in two passes over the file:

- `hasStart()` pre-scans the tokens to decide whether `@start` or `@stop` comes first. Along
  the way it skips comments and salvages text that follows a bulk-comment closer. When it
  finds `@start`, it also records the number of the first line of the file that is exactly
  `@start`. That line may lie inside a bulk comment, before the `@start` the pre-scan met.
- `read()` skips the file up to and including that line. It then runs the main loop that
  collects entries until `@stop` or the end of the file. After `@stop`, anything other
  than comments is rejected.

The project models both passes, the scanner they read through, and the keyword tables
of `tools.mscript.syntax`.

How the model is laid out:

- Each pass is written twice:
  - as an imperative `class Script` whose methods update the fields `returnValue` and
    `startLine` the way the Java methods do, over a `Scanner` object with a cursor;
  - as pure specification functions over the file text (module `ScriptSpec`).
- Every method's `ensures` ties its new state and result to the specification function.
- The properties of the extraction are lemmas about those functions (module
  `ScriptProperties`), with four whole-file examples in `ScriptExamples`.
- A Java `ScriptingException` prints a message and ends the process. Here it is a
  terminal `Diagnostic` value: its kind plus the severity it is raised with.
- The file is a `string`. `java.util.Scanner.next()` and `nextLine()` become `NextToken`
  and `RestOfLine` on a cursor into that string, and `BufferedReader.readLine()` becomes
  a second cursor.

Files:

| file | module | contents |
|---|---|---|
| `Wrappers.dfy` | `Wrappers` | `Option`, `Result` |
| `Strings.dfy` | `Strings` | prefixes, suffixes, occurrence, last index, `Join` |
| `Diagnostics.dfy` | `Diagnostics` | the error kinds and their severities |
| `TextSpecifications.dfy`, `Comment.dfy`, `RootCommand.dfy`, `Annotation.dfy` | `TextSpecifications`, `Comments`, `RootCommands`, `Annotations` | the syntax enums |
| `Keyword.dfy` | `Keyword` | the keyword lookups |
| `Scanner.dfy` | `Scanning` | tokens and lines of a text, and the `Scanner` class |
| `ScriptSpec.dfy` | `ScriptSpec` | `hasStart()` and `read()` as functions |
| `Script.dfy` | `Scripts` | the `Script` class |
| `ScriptLemmas.dfy` | `ScriptProperties` | properties of the extraction |
| `ScriptExamples.dfy` | `ScriptExamples` | four whole files worked through |

## Model

| member | source | states |
|---|---|---|
| TextSpecifications.TextSpecification.Symbol | src/tools/mscript/syntax/TextSpecifications.java:8-18 | the command, annotation and comment symbols are `@`, `*` and `#` |
| TextSpecifications.SymbolsDistinct | src/tools/mscript/syntax/TextSpecifications.java:8-10 | the three symbols are pairwise different, so a token's first character selects at most one branch |
| Comments.Comment.Signature | src/tools/mscript/syntax/Comment.java:10-33 | the single, bulk-open and bulk-close signatures are `#`, `##!` and `!##` |
| Comments.BulkOpenStartsWithSingle | src/tools/mscript/syntax/Comment.java:13-14 | a bulk opener also starts with the single-line signature, so it must be tested first |
| Comments.BulkCloseIsNoComment | src/tools/mscript/syntax/Comment.java:17-18 | no token that starts with the comment signature starts with the bulk closer, so the closer test inside the comment branch never succeeds |
| RootCommands.RootCommand.Name | src/tools/mscript/syntax/RootCommand.java:11-20 | the names are `@start` and `@stop`, and each begins with the command symbol |
| RootCommands.CommandsDistinct | src/tools/mscript/syntax/RootCommand.java:11-12 | the two commands have different names, and the value list has two entries and holds every command |
| Annotations.Annotation.Id | src/tools/mscript/syntax/Annotation.java:11-40 | every identifier is bracketed by `[` and `]` with at least one character between |
| Annotations.Annotation.ActualValue | src/tools/mscript/syntax/Annotation.java:11-44 | exactly the four symbol annotations have a value; it is one character: the command, comment or annotation symbol, or a blank |
| Annotations.AllAnnotationsListed | src/tools/mscript/syntax/Annotation.java:10-17 | the value list holds every annotation |
| Annotations.IdsDistinct | src/tools/mscript/syntax/Annotation.java:11-17 | every annotation is listed, its identifier is one of the seven tags, and an identifier names at most one annotation |
| Diagnostics.SeverityOf | src/tools/mscript/Script.java:218-520 | every diagnostic the core raises has the severity of its raise site: a duplicate start (`Script.java:267-271`) and a dangling data group (`Script.java:399-402`) 1; an empty file (`Script.java:225`) and dangling code (`Script.java:319-323`, `Script.java:506-510`) 2; a missing start (`Script.java:516-519`), a non-existent root command (`Keyword.java:46-49`) and an unknown annotation (`Script.java:405-409`) 4; a native error (`Script.java:428`) 5; all within the cap of 5 that `ScriptingException.java:29-34` applies |
| Strings.LastIndexOf | src/tools/mscript/Script.java:248 | the last occurrence of a pattern: present iff the text contains it, and no occurrence starts later |
| Keyword.FindCommand | src/tools/mscript/syntax/Keyword.java:16-21 | the linear search finds a listed command with that name, or none has it |
| Keyword.FindAnnotation | src/tools/mscript/syntax/Keyword.java:30-35 | the linear search finds a listed annotation with that identifier, or none has it |
| Keyword.CommandExists | src/tools/mscript/syntax/Keyword.java:16-21 | a name is a root command iff it is `@start` or `@stop` |
| Keyword.AnnotationExists | src/tools/mscript/syntax/Keyword.java:30-35 | an identifier exists iff some annotation has it |
| Keyword.AnnotationExistsIffListed | src/tools/mscript/syntax/Keyword.java:30-35 | the existing identifiers are exactly the seven bracketed tags |
| Keyword.GetKeywordFromName | src/tools/mscript/syntax/Keyword.java:42-51 | succeeds iff the command exists and then returns the command of that name; otherwise the non-existent root command error at severity 4 |
| Keyword.GetAnnotationFromId | src/tools/mscript/syntax/Keyword.java:58-65 | returns the annotation with that identifier, falling back to the store-as-line annotation when none has it |
| Scanning.SkipWhitespaceSkipsWhitespace | src/tools/mscript/Script.java:236 | the scanner skips exactly the whitespace before a token: every skipped character is whitespace and the next is not |
| Scanning.TokenEndSkipsText | src/tools/mscript/Script.java:236 | a token runs to the first whitespace character |
| Scanning.LineEndSkipsLine | src/tools/mscript/Script.java:238 | a line runs to the first line terminator |
| Scanning.NextTokenIsNextWord | src/tools/mscript/Script.java:235-236 | there is no further token iff only whitespace is left; otherwise the token is the maximal run of non-whitespace after the skipped whitespace |
| Scanning.RestOfLineIsLine | src/tools/mscript/Script.java:238 | the rest of the line is the text up to the next line terminator, and the cursor moves past that terminator |
| Scanning.SkipLinesDropsLines | src/tools/mscript/Script.java:229-232 | skipping n lines succeeds iff the text has at least n lines left, and leaves exactly the lines after them |
| Scanning.Scanner.HasNext | src/tools/mscript/Script.java:235 | true iff another token is left |
| Scanning.Scanner.Next | src/tools/mscript/Script.java:236 | returns the next token and moves the cursor past it |
| Scanning.Scanner.NextLine | src/tools/mscript/Script.java:238 | returns the rest of the current line and moves to the next one; fails at the end of the text |
| Scanning.Scanner.constructor | src/tools/mscript/Script.java:219 | a scanner starts at the beginning of the text |
| ScriptSpec.AfterLastBulkClose | src/tools/mscript/Script.java:248 | the salvaged text is a suffix of the token |
| ScriptSpec.SkipBulkComment | src/tools/mscript/Script.java:242-255 | skipping a bulk comment moves forward and adds at most one entry after those already held |
| ScriptSpec.SkipComment | src/tools/mscript/Script.java:239-263 | a comment only appends entries, and the only way it fails is the native error of reading past the end |
| ScriptSpec.AnnotationName | src/tools/mscript/Script.java:335 | the name left by the regular expression is no longer than the token |
| ScriptSpec.CollectGroup | src/tools/mscript/Script.java:376-391 | gathering a group never moves the cursor backwards |
| ScriptSpec.StoreLine | src/tools/mscript/Script.java:364-372 | a stored line consumes at least one character; the only failure is the native error |
| ScriptSpec.GroupEntry | src/tools/mscript/Script.java:373-397 | a data group always yields an entry |
| ScriptSpec.ExpandAnnotation | src/tools/mscript/Script.java:333-410 | an annotation either yields an entry or raises a diagnostic with its kind's severity |
| ScriptSpec.AfterStop | src/tools/mscript/Script.java:283-326 | after `@stop` entries are only added; the only failures are dangling code and the native error |
| ScriptSpec.ExtractStep | src/tools/mscript/Script.java:235-414 | one turn of the main loop moves forward, only appends, and raises only diagnostics with their kind's severity |
| ScriptSpec.Extract | src/tools/mscript/Script.java:235-415 | the main loop only appends to the entries the object already held, and every diagnostic carries its kind's severity |
| ScriptSpec.PreScan | src/tools/mscript/Script.java:450-511 | the pre-scan only appends salvaged entries, and every failure carries its kind's severity |
| ScriptSpec.HasStartResult | src/tools/mscript/Script.java:440-521 | `hasStart()` only appends entries, and every failure carries its kind's severity |
| ScriptSpec.ReadResult | src/tools/mscript/Script.java:218-431 | `read()` only appends entries, and every failure carries its kind's severity |
| Scripts.Script.constructor | src/tools/mscript/Script.java:165-195 | a new script holds the file's text, start line 0 and no entries |
| Scripts.Script.SkipBulkComment | src/tools/mscript/Script.java:242-255 | the loop over a bulk comment leaves cursor and entries as the specification of the bulk comment says |
| Scripts.Script.SkipComment | src/tools/mscript/Script.java:239-263 | the comment branch of the main loop agrees with its specification, failure included |
| Scripts.Script.StoreLine | src/tools/mscript/Script.java:364-372 | the store-as-line case agrees with its specification |
| Scripts.Script.GroupEntries | src/tools/mscript/Script.java:373-397 | the group loop builds the entry its specification gives and leaves the cursor after the closer |
| Scripts.Script.ProcessAnnotation | src/tools/mscript/Script.java:333-410 | the annotation branch appends the expansion or fails with the diagnostic its specification gives |
| Scripts.Script.CheckAfterStop | src/tools/mscript/Script.java:283-326 | the loop after `@stop` agrees with its specification |
| Scripts.Script.ExtractEntries | src/tools/mscript/Script.java:235-415 | the main loop leaves the entries and the failure its specification gives |
| Scripts.Script.FindStartLine | src/tools/mscript/Script.java:483-491 | the reader loop sets the start line its specification gives |
| Scripts.Script.PreScanIteration | src/tools/mscript/Script.java:451-511 | one turn of the pre-scan either decides the status or continues with the same remaining pre-scan |
| Scripts.Script.ScanForRoot | src/tools/mscript/Script.java:450-520 | the bounded pre-scan loop ends with the entries and status its specification gives |
| Scripts.Script.HasStart | src/tools/mscript/Script.java:440-521 | `hasStart()` sets entries and start line and returns true, false or the diagnostic as its specification gives |
| Scripts.Script.SkipToStart | src/tools/mscript/Script.java:229-232 | the scanner is moved past start line + 1 lines, or the skip fails when the file is shorter |
| Scripts.Script.Read | src/tools/mscript/Script.java:218-431 | `read()` sets entries and start line and returns the entries or the diagnostic as its specification gives |
| ScriptProperties.CloseGroupJoins | src/tools/mscript/Script.java:392-396 | trimming the trailing separator and closing the brace turns the builder into the items joined by `", "` in braces, `{}` when there are none |
| ScriptProperties.NameBeforeBracket | src/tools/mscript/Script.java:335 | the regular expression keeps exactly the text before the first `]` when that text holds no `*[` |
| ScriptProperties.TagName | src/tools/mscript/Script.java:335 | for `*[name]x` the extracted name is `name` |
| ScriptProperties.IdIsPlain | src/tools/mscript/syntax/Annotation.java:11-17 | no identifier has a `]` or a `*[` inside its brackets |
| ScriptProperties.AnnotationTagName | src/tools/mscript/Script.java:335-339 | every annotation tag yields its own name, which exists and maps back to that annotation |
| ScriptProperties.SymbolAnnotationExpands | src/tools/mscript/Script.java:340-363 | a symbol annotation stores its symbol followed by the text glued to the tag, and consumes nothing more |
| ScriptProperties.StoreAsLineTakesRestOfLine | src/tools/mscript/Script.java:364-372 | `*[^+]x` stores `x`, a blank, and the rest of the line less one leading blank; it fails natively at the end of the text or on an empty line |
| ScriptProperties.LoneGroupCloseIsDangling | src/tools/mscript/Script.java:398-402 | a group closer outside a group is a dangling data group at severity 1 |
| ScriptProperties.BareStarIsUnknown | src/tools/mscript/Script.java:337 | a lone `*` is an unknown annotation at severity 4 |
| ScriptProperties.UnlistedTagIsUnknown | src/tools/mscript/Script.java:404-410 | a tag whose name is not one of the seven is an unknown annotation at severity 4, naming the whole token |
| ScriptProperties.CollectGroupTakesUntilClose | src/tools/mscript/Script.java:376-391 | the group takes every token up to the first closer, each followed by a separator, and resumes after the closer (or at the end) |
| ScriptProperties.GroupTagOpensGroup | src/tools/mscript/Script.java:373 | `*[{{]` dispatches to the group case |
| ScriptProperties.GroupEntryJoinsTokens | src/tools/mscript/Script.java:373-397 | the group entry is the seed text (if any) and the tokens up to the closer, joined in braces, and the scan resumes after the closer |
| ScriptProperties.GroupAnnotationJoinsTokens | src/tools/mscript/Script.java:333-397 | the same for the `*[{{]` token seen by the annotation branch |
| ScriptProperties.SalvagedTextFollowsLastCloser | src/tools/mscript/Script.java:246-249 | the part of the token before the salvaged text ends with the closer `!##`, the salvaged text holds no further closer, and it is empty iff the token ends with the closer |
| ScriptProperties.BulkCommentRunsToCloser | src/tools/mscript/Script.java:242-255 | a bulk comment swallows every token up to the first that contains the closer (or to the end), and adds the text after the last closer when the token does not end with it |
| ScriptProperties.SelfClosedBulkComment | src/tools/mscript/Script.java:241 | `##!!##` is a complete comment that consumes nothing more |
| ScriptProperties.LineCommentSkipsRestOfLine | src/tools/mscript/Script.java:261-262 | a line comment drops the rest of its line, and fails natively at the end of the text |
| ScriptProperties.BulkCloseTokenIsRaw | src/tools/mscript/Script.java:411-412 | a token starting with the bulk closer reaches the raw-text branch, so the dangling-bulk-comment branch cannot be taken |
| ScriptProperties.ExtractRawStep | src/tools/mscript/Script.java:411-412 | a raw-text token is appended and the loop continues right after it |
| ScriptProperties.ExtractAtCommand | src/tools/mscript/Script.java:264-332 | an `@` word ends the main loop: a second `@start` is a duplicate start at severity 1, `@stop` hands over to the loop after `@stop`, any other `@` word is a non-existent root command at severity 4 |
| ScriptProperties.ExtractAtEnd | src/tools/mscript/Script.java:235 | at the end of the tokens the main loop ends without failure and with the entries held |
| ScriptProperties.ExtractKeepsRawTokens | src/tools/mscript/Script.java:411-412 | a run of raw tokens is appended as it is, in order, and the loop goes on after it |
| ScriptProperties.RawRegionIsKeptVerbatim | src/tools/mscript/Script.java:235-415 | when every remaining token is raw text, read's loop returns exactly those tokens after the held entries |
| ScriptProperties.RegionEndsAtCommand | src/tools/mscript/Script.java:235-332 | after a run of raw text, the first `@` word ends the loop with the entries plus that text: a duplicate start at severity 1 for `@start`, the loop after `@stop` for `@stop`, a non-existent root command at severity 4 for any other |
| ScriptProperties.AfterStopAtEnd | src/tools/mscript/Script.java:283-331 | `@stop` with nothing after it returns the entries without failure |
| ScriptProperties.AfterStopRejectsCode | src/tools/mscript/Script.java:318-323 | when the next token after `@stop` is not a comment, it is dangling code at severity 2 |
| ScriptProperties.AfterStopSkipsComment | src/tools/mscript/Script.java:283-317 | a comment after `@stop` is skipped and the loop goes on after it with the text it salvaged, or fails natively at the end of the text; together with the two lemmas above every token after `@stop` is covered |
| ScriptProperties.PreScanPastBound | src/tools/mscript/Script.java:450 | after 5000 turns the pre-scan reports a missing start at severity 4 |
| ScriptProperties.PreScanSkipsComment | src/tools/mscript/Script.java:452-477 | a comment costs the pre-scan one turn: it goes on after the comment with the text the comment salvaged, or fails natively at the end of the text |
| ScriptProperties.PreScanSkipsUnknownCommands | src/tools/mscript/Script.java:480-502 | the pre-scan passes over unknown `@` words, one turn each, without adding entries |
| ScriptProperties.FirstTokenStatusCases | src/tools/mscript/Script.java:480-520 | the first token decides: none is a missing start at severity 4, `@start` and `@stop` are found, and a token that is neither a comment nor an `@` word (a `*` token included) is dangling code at severity 2 |
| ScriptProperties.PreScanDecides | src/tools/mscript/Script.java:480-511 | when the first token is `@start`, `@stop`, neither a comment nor an `@` word (a `*` token included), or absent, the pre-scan decides on it |
| ScriptProperties.PreScanOutcome | src/tools/mscript/Script.java:450-520 | after n unknown `@` words, the next token settles the pre-scan when it is `@start`, `@stop`, neither a comment nor an `@` word, or absent, unless the n turns run past the 5000 bound; comments are stated by `PreScanSkipsComment` |
| ScriptProperties.FindLineFindsFirst | src/tools/mscript/Script.java:483-491 | the reader loop stops at the first line equal to the token and counts from the first line, and keeps the old start line when there is none |
| ScriptProperties.StartLineIsFirstStartLine | src/tools/mscript/Script.java:483-491 | the start line is the index of the first line that is exactly `@start`, and skipping one line past it leaves the lines after it |
| ScriptProperties.StopFirstReadsNothing | src/tools/mscript/Script.java:495-500 | when `@stop` comes first, `read()` returns only the salvaged entries, without failure |
| ScriptProperties.StartSetsStartLine | src/tools/mscript/Script.java:482-494 | when the pre-scan meets `@start` first and some line is exactly `@start`, `hasStart()` sets the start line to the number of the first such line, which may lie inside a bulk comment |
| ScriptProperties.ReadAfterStart | src/tools/mscript/Script.java:218-431 | when the pre-scan meets `@start` first and some line is exactly `@start`, `read()` skips to the line after the first such line and returns what the main loop extracts from there, after the salvaged entries |
| ScriptProperties.ReadWithoutStartLine | src/tools/mscript/Script.java:218-431 | when the pre-scan meets `@start` first but no line is exactly `@start`, the start line keeps its value and `read()` resumes one line after it, or fails natively when the file is shorter |
| ScriptExamples.RegionIsReturned | src/tools/mscript/Script.java:218-431 | for a file with `foo bar` between `@start` and `@stop` and `##! x!##y` after `@stop`, `read()` returns `foo`, `bar` and the salvaged `y`, with start line 1 and no failure |
| ScriptExamples.StartSharingItsLineIsDuplicate | src/tools/mscript/Script.java:483-491 | for a file whose only `@start` shares its line with other text, no line is exactly `@start`, so the start line stays 0 and `read()` meets `@start` again as a duplicate start |
| ScriptExamples.LaterStartLineDropsText | src/tools/mscript/Script.java:218-431 | for a file where `@start foo` is followed by a line that is exactly `@start` and then `bar`, the start line moves to that later line and `read()` returns only `bar`, dropping `foo` without a diagnostic |
| ScriptExamples.SalvagedTextBeforeStartIsReturned | src/tools/mscript/Script.java:461 | text after a bulk-comment closer before `@start` is among the returned entries |

## Left out

- Console output and `System.exit`. A raised `ScriptingException` becomes a `Diagnostic` result carrying its kind and severity. Messages, their line numbers, `printDataStack` and the stop-line counting loop (`Script.java:273-281`), which only feeds a message, are not modelled.
- File I/O. The constructor's checks on the file itself are dropped: the `.txt` extension, `exists()` and `canRead()` (`Script.java:166-179`) and, when logging is requested, `canWrite()` (`Script.java:203`). Only the header-line check (`Script.java:184-190`) becomes part of the precondition `IsScriptSource` on the file's text, which also excludes line terminators other than `\n`. The success log that `read()` appends to the file is left out.
- `maxInputLength` (`Script.java:233`, `Script.java:413`) is computed but never read, and is left out.
- Native errors. Every Java runtime exception caught by the catch-alls is the single `Native` diagnostic at severity 5. The model raises it where the code can throw:
  - `nextLine()` at the end of the file;
  - `charAt(0)` on an empty line after `*[^+]`;
  - skipping past the end of the file to the start line;
  - `substring(3 + name length)` on an annotation token shorter than its tag, such as `*]` or `*[@`, whose extracted name exists but leaves too few characters.
- Branches no input can reach are not modelled:
  - empty tokens (`Script.java:237`, `Script.java:503`);
  - the `null` checks;
  - the three dangling-bulk-comment branches (`Script.java:256`, `Script.java:303`, `Script.java:469`). Each sits inside the test for a token starting with `#`, and `Comments.BulkCloseIsNoComment` proves no such token starts with `!##`. In `read()`'s main loop a `!##` token is raw text (`ScriptProperties.BulkCloseTokenIsRaw`); before `@start` and after `@stop` it is dangling code at severity 2 (`ScriptProperties.FirstTokenStatusCases`, `ScriptProperties.AfterStopRejectsCode`).
- Text representation:
  - line terminators are `\n` only;
  - characters are Unicode scalar values, not UTF-16 units;
  - whitespace is the fixed set in `Scanning.IsWhitespace`.
- The scanner and the reader are two cursors over one text. The model assumes the file does not change between `hasStart()` and `read()`.
- `tools.mscript.syntax.Symbols` (box-drawing characters for console output) and `tools.mscript.syntax.WordAssessment` are not part of this model.
- ScriptSpec.Extract: its own contract states only that entries are appended and every diagnostic is rated. What the main loop extracts is stated by `RawRegionIsKeptVerbatim`, `RegionEndsAtCommand` and `ExtractAtEnd`, not by a single equation over the whole file.
- ScriptSpec.ExtractStep: its own contract is weaker; the per-branch lemmas (`ExtractRawStep`, `ExtractAtCommand`, the comment and annotation lemmas) state each turn.
- ScriptSpec.PreScan: its own contract is weaker; `PreScanOutcome`, `PreScanSkipsUnknownCommands`, `PreScanSkipsComment` and `FirstTokenStatusCases` state what the pre-scan decides.
- ScriptSpec.HasStartResult: its own contract is weaker; `StartSetsStartLine` and `StartLineIsFirstStartLine` state the start line it records.
- ScriptSpec.ReadResult: its own contract is weaker; `StopFirstReadsNothing`, `ReadAfterStart`, `ReadWithoutStartLine` and the four whole-read `ScriptExamples` lemmas state whole reads, and the extraction lemmas state the main loop piecewise.
- ScriptSpec.SkipBulkComment: its own contract is weaker; `BulkCommentRunsToCloser` states what is skipped and salvaged.
- ScriptSpec.SkipComment: its own contract is weaker; `LineCommentSkipsRestOfLine` and `SelfClosedBulkComment` state the cases.
- ScriptSpec.ExpandAnnotation: its own contract is weaker; the annotation lemmas (`SymbolAnnotationExpands` to `GroupAnnotationJoinsTokens`) state each case.
- ScriptSpec.CollectGroup: its own contract is weaker; `CollectGroupTakesUntilClose` states what is gathered.
- ScriptSpec.GroupEntry: its own contract is weaker; `GroupEntryJoinsTokens` states the entry.
- ScriptSpec.StoreLine: its own contract is weaker; `StoreAsLineTakesRestOfLine` states the stored line.
- ScriptSpec.AfterStop: its own contract is weaker; `AfterStopAtEnd`, `AfterStopRejectsCode` and `AfterStopSkipsComment` state the cases.
- ScriptSpec.AnnotationName: its own contract is weaker; `TagName` and `AnnotationTagName` state the extracted name.
- ScriptSpec.AfterLastBulkClose: its own contract is weaker; `SalvagedTextFollowsLastCloser` states the salvaged text.

Behaviour of the code worth knowing (the class documentation at `Script.java:60-62` and `Script.java:81-82` describes `@start` on its own line and rejects dangling text; the points below are what the code does):

- `returnValue` is a field that `read()` appends to and never clears. `Scripts.Script.Read` states its new entries in terms of the old ones, so a second call on the same object returns the first call's entries again, followed by the new ones. Reading is not idempotent per object.
- An unterminated bulk comment runs silently to the end of the file in both passes.
- Text salvaged after a bulk-comment closer before `@start` is kept. `read()` therefore returns it before the region's entries (`ScriptExamples.SalvagedTextBeforeStartIsReturned`). The result is not only what lies between `@start` and `@stop`.
- The start line is found by comparing whole lines with `@start`, from the top of the file and regardless of comments. A line that is exactly `@start` inside a bulk comment therefore becomes the start line, even though the pre-scan skipped it (`ScriptProperties.StartSetsStartLine`). When `@start` shares its line with other text, what happens depends on the rest of the file:
  - if no other line is exactly `@start`, no line matches and the start line stays 0 (`ScriptProperties.ReadWithoutStartLine`). `read()` then meets `@start` again and fails with a duplicate start (`ScriptExamples.StartSharingItsLineIsDuplicate`);
  - if a later line is exactly `@start`, the start line moves to that line (`ScriptProperties.ReadAfterStart`). The text between the two is dropped without any diagnostic (`ScriptExamples.LaterStartLineDropsText`).
