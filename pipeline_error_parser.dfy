/** The Groovy error parser the build engine uses. Every line of a build log
    is matched against one anchored pattern,
      ^([^:]+):([^:]+):([^@]+) @ line \d+, column (\d+)
    and each matching line yields one error record: path, line, message and
    column, in that capture order. */
module PipelineErrorParser {
  import opened Wrappers
  import opened Strings
  import opened Sequences

  /** Where the parts of the pattern sit in a line: the first `:` (`c1`), the
      second `:` (`c2`), the `@` (`at`), the end of the digits after `@ line`
      (`d`) and the end of the column digits (`e`). */
  datatype Spans = Spans(c1: nat, c2: nat, at: nat, d: nat, e: nat)

  /** A Groovy compilation error; `line` is `None` where `parseInt` gives `NaN`. */
  datatype GroovyError = GroovyError(path: string, line: Option<int>, column: nat, message: string)

  /** The literal text before the ignored line number (starting at the blank
      before `@`) and before the column number. */
  const AtLine: string := " @ line "
  const ColumnLabel: string := ", column "

  /** The language of the pattern, anchored at the start of `text`, with its
      parts at `m`: `[^:]+` up to the first `:`, `[^:]+` up to the second,
      `[^@]+` up to the blank before the next `@`, then ` @ line `, a digit run,
      `, column ` and the column digits, which the greedy `(\d+)` takes up to
      the first non-digit. */
  predicate IsLocatedMatch(text: string, m: Spans) {
    && PathEnds(text, m.c1)
    && LineFieldEnds(text, m.c1, m.c2)
    && MessageEnds(text, m.c2, m.at)
    && NumbersEnd(text, m.at, m.d, m.e)
  }

  /** `^([^:]+):` with the `:` at `c1`. */
  predicate PathEnds(text: string, c1: nat) {
    0 < c1 < |text| && text[c1] == ':' && forall i :: 0 <= i < c1 ==> text[i] != ':'
  }

  /** `([^:]+):` after the first `:`, with the second `:` at `c2`. */
  predicate LineFieldEnds(text: string, c1: nat, c2: nat) {
    c1 + 1 < c2 < |text| && text[c2] == ':' && forall i :: c1 < i < c2 ==> text[i] != ':'
  }

  /** `([^@]+) @ line ` after the second `:`, with the `@` at `at`. */
  predicate MessageEnds(text: string, c2: nat, at: nat) {
    c2 + 2 < at && HasAt(text, at - 1, AtLine) && forall i :: c2 < i < at - 1 ==> text[i] != '@'
  }

  /** `\d+, column (\d+)` after `@ line `: the first digit run ends at `d`, the
      column digits at `e`. */
  predicate NumbersEnd(text: string, at: nat, d: nat, e: nat) {
    && at + 7 < d && HasAt(text, d, ColumnLabel) && d + 9 < e <= |text|
    && (forall i :: at + 7 <= i < d ==> IsDigit(text[i]))
    && (forall i :: d + 9 <= i < e ==> IsDigit(text[i]))
    && (e == |text| || !IsDigit(text[e]))
  }

  /** `RE_GROOVY_ERROR.exec(text)`, one part of the pattern at a time: the
      path runs to the first `:`, the line field to the second, and the
      message to the blank before the first `@` after that. */
  function MatchLocated(text: string): Option<Spans> {
    var c1 := IndexFrom(text, ':', 0);
    if c1 == 0 || c1 == |text| then None else MatchLineField(text, c1)
  }

  function MatchLineField(text: string, c1: nat): Option<Spans>
    requires c1 < |text|
  {
    var c2 := IndexFrom(text, ':', c1 + 1);
    if c2 == c1 + 1 || c2 == |text| then None else MatchMessage(text, c1, c2)
  }

  function MatchMessage(text: string, c1: nat, c2: nat): Option<Spans>
    requires c2 < |text|
  {
    var at := IndexFrom(text, '@', c2 + 1);
    if at < c2 + 3 || !HasAt(text, at - 1, AtLine) then None else MatchNumbers(text, c1, c2, at)
  }

  function MatchNumbers(text: string, c1: nat, c2: nat, at: nat): Option<Spans>
    requires at + 7 <= |text|
  {
    var d := DigitsEnd(text, at + 7);
    if d == at + 7 || !HasAt(text, d, ColumnLabel) then None
    else
      var e := DigitsEnd(text, d + 9);
      if e == d + 9 then None else Some(Spans(c1, c2, at, d, e))
  }

  /** What `MatchLocated` finds is a match of the pattern. */
  lemma LocatedSound(text: string)
    requires MatchLocated(text).Some?
    ensures IsLocatedMatch(text, MatchLocated(text).value)
  {
    var m := MatchLocated(text).value;
    assert PathEnds(text, m.c1);
    assert MatchLineField(text, m.c1) == Some(m);
    assert LineFieldEnds(text, m.c1, m.c2);
    assert MatchMessage(text, m.c1, m.c2) == Some(m);
    MessageSound(text, m.c1, m.c2);
  }

  lemma MessageSound(text: string, c1: nat, c2: nat)
    requires c2 < |text|
    requires MatchMessage(text, c1, c2).Some?
    ensures var m := MatchMessage(text, c1, c2).value;
      m.c1 == c1 && m.c2 == c2 && MessageEnds(text, c2, m.at) && NumbersEnd(text, m.at, m.d, m.e)
  {
    var at := IndexFrom(text, '@', c2 + 1);
    assert MatchNumbers(text, c1, c2, at).Some?;
    NumbersSound(text, c1, c2, at);
  }

  lemma NumbersSound(text: string, c1: nat, c2: nat, at: nat)
    requires at + 7 <= |text|
    requires MatchNumbers(text, c1, c2, at).Some?
    ensures var m := MatchNumbers(text, c1, c2, at).value;
      m.c1 == c1 && m.c2 == c2 && m.at == at && NumbersEnd(text, at, m.d, m.e)
  {
  }

  /** Whenever the pattern matches with its parts at `m`, `MatchLocated` finds
      exactly `m`: the match is unique, and `None` means the pattern does not
      match. */
  lemma LocatedComplete(text: string, m: Spans)
    requires IsLocatedMatch(text, m)
    ensures MatchLocated(text) == Some(m)
  {
    LineFieldComplete(text, m);
    IndexFromIs(text, ':', 0, m.c1);
  }

  lemma LineFieldComplete(text: string, m: Spans)
    requires LineFieldEnds(text, m.c1, m.c2)
    requires MessageEnds(text, m.c2, m.at) && NumbersEnd(text, m.at, m.d, m.e)
    ensures MatchLineField(text, m.c1) == Some(m)
  {
    NumbersComplete(text, m);
    MessageComplete(text, m);
    IndexFromIs(text, ':', m.c1 + 1, m.c2);
  }

  lemma MessageComplete(text: string, m: Spans)
    requires m.c2 < |text| && m.at + 7 <= |text|
    requires MessageEnds(text, m.c2, m.at)
    requires MatchNumbers(text, m.c1, m.c2, m.at) == Some(m)
    ensures MatchMessage(text, m.c1, m.c2) == Some(m)
  {
    AtSignAt(text, m.c2, m.at);
  }

  /** The first `@` after the second colon is the one of ` @ line `. */
  lemma AtSignAt(text: string, c2: nat, at: nat)
    requires c2 < |text|
    requires MessageEnds(text, c2, at)
    ensures IndexFrom(text, '@', c2 + 1) == at
  {
    assert text[at - 1..at + 7] == AtLine;
    assert text[at] == AtLine[1];
    IndexFromIs(text, '@', c2 + 1, at);
  }

  lemma NumbersComplete(text: string, m: Spans)
    requires NumbersEnd(text, m.at, m.d, m.e)
    ensures MatchNumbers(text, m.c1, m.c2, m.at) == Some(m)
  {
    assert text[m.d..m.d + 9] == ColumnLabel;
    assert text[m.d] == ColumnLabel[0];
    DigitsEndIs(text, m.at + 7, m.d);
    DigitsEndIs(text, m.d + 9, m.e);
  }

  /** The spans lie in order inside the line: enough to read the captures off. */
  predicate SpansInOrder(text: string, m: Spans) {
    m.c1 < m.c2 < m.at - 1 < m.d + 9 <= m.e <= |text|
  }

  /** The record of a match: `line` is `parseInt` of the text between the
      first two colons, `column` the value of the digits after `, column `;
      the number after `@ line` plays no part. */
  function ErrorOf(text: string, m: Spans): GroovyError
    requires SpansInOrder(text, m)
  {
    GroovyError(text[..m.c1], ParseInt(text[m.c1 + 1..m.c2]), DecimalValue(text[m.d + 9..m.e]), text[m.c2 + 1..m.at - 1])
  }

  /** The captures of a match: a non-empty path without `:` and a non-empty
      message without `@`. */
  lemma ErrorOfFields(text: string, m: Spans)
    requires IsLocatedMatch(text, m)
    ensures SpansInOrder(text, m)
    ensures var e := ErrorOf(text, m);
      && e.path != [] && ':' !in e.path
      && e.message != [] && '@' !in e.message
  {
    var path := text[..m.c1];
    assert forall i :: 0 <= i < |path| ==> path[i] == text[i];
    var message := text[m.c2 + 1..m.at - 1];
    assert forall i :: 0 <= i < |message| ==> message[i] == text[m.c2 + 1 + i];
    var column := text[m.d + 9..m.e];
    assert forall i :: 0 <= i < |column| ==> column[i] == text[m.d + 9 + i];
  }

  /** The column is what `parseInt` gives for the captured digits. */
  lemma ColumnParses(text: string, m: Spans)
    requires IsLocatedMatch(text, m)
    ensures SpansInOrder(text, m)
    ensures ParseInt(text[m.d + 9..m.e]) == Some(ErrorOf(text, m).column as int)
  {
    var column := text[m.d + 9..m.e];
    assert forall i :: 0 <= i < |column| ==> column[i] == text[m.d + 9 + i];
    ParseIntOfDigits(column);
    ColumnOf(text, m);
  }

  lemma ColumnOf(text: string, m: Spans)
    requires SpansInOrder(text, m)
    ensures ErrorOf(text, m).column == DecimalValue(text[m.d + 9..m.e])
  {
  }

  /** The records one line contributes: one for a match, none otherwise. */
  function LineRecords(text: string): (r: seq<GroovyError>)
    ensures |r| <= 1
    ensures |r| == 1 <==> MatchLocated(text).Some?
  {
    match MatchLocated(text)
    case None => []
    case Some(m) => LocatedOrdered(text); [ErrorOf(text, m)]
  }

  /** A match found by the matcher has its spans in order. */
  lemma LocatedOrdered(text: string)
    requires MatchLocated(text).Some?
    ensures SpansInOrder(text, MatchLocated(text).value)
  {
    LocatedSound(text);
  }

  /** What `parseGroovyErrors(text)` returns. */
  function Parse(text: string): seq<GroovyError> {
    FlatMap(Split(text, '\n'), LineRecords)
  }

  /** `parseGroovyErrors`: one pass over the lines, pushing a record for each match. */
  method ParseGroovyErrors(text: string) returns (errors: seq<GroovyError>)
    ensures errors == Parse(text)
  {
    errors := [];
    var lines := Split(text, '\n');
    for i := 0 to |lines|
      invariant errors == FlatMap(lines[..i], LineRecords)
    {
      assert lines[..i + 1][..i] == lines[..i];
      var m := MatchLocated(lines[i]);
      if m.Some? {
        LocatedOrdered(lines[i]);
        errors := errors + [ErrorOf(lines[i], m.value)];
      }
    }
    assert lines[..|lines|] == lines;
  }

  // ---------------------------------------------------------------------------
  // Properties

  /** The empty log yields no record. */
  lemma ParseEmpty()
    ensures Parse("") == []
  {
    FlatMapSingle("", LineRecords);
  }

  /** Each line depends only on itself: parsing two logs joined by a newline
      gives the records of the first followed by those of the second. */
  lemma ParseConcat(a: string, b: string)
    ensures Parse(a + "\n" + b) == Parse(a) + Parse(b)
  {
    LinesConcat(a, b, LineRecords);
  }

  /** The number of lines the pattern matches. */
  function CountMatching(lines: seq<string>): nat {
    if lines == [] then 0
    else CountMatching(lines[..|lines| - 1]) + (if MatchLocated(lines[|lines| - 1]).Some? then 1 else 0)
  }

  /** Each matching line yields exactly one record and no other line yields any. */
  lemma {:induction false} ParseLength(text: string)
    ensures |Parse(text)| == CountMatching(Split(text, '\n'))
  {
    CountIsSumSizes(Split(text, '\n'));
    FlatMapLength(Split(text, '\n'), LineRecords);
  }

  lemma {:induction false} CountIsSumSizes(lines: seq<string>)
    ensures SumSizes(lines, LineRecords) == CountMatching(lines)
  {
    if lines != [] {
      CountIsSumSizes(lines[..|lines| - 1]);
    }
  }

  /** Every record in the result is the record of one of the lines. */
  lemma ParseRecordFromLine(text: string, e: GroovyError)
    requires e in Parse(text)
    ensures exists k :: 0 <= k < |Split(text, '\n')| && LineRecords(Split(text, '\n')[k]) == [e]
  {
    var lines := Split(text, '\n');
    FlatMapSingletonMembership(lines, LineRecords, e);
    var k :| 0 <= k < |lines| && LineRecords(lines[k]) == [e];
  }

  /** The record of every matching line is in the result. */
  lemma ParseKeepsLineRecord(text: string, k: nat)
    requires k < |Split(text, '\n')|
    requires MatchLocated(Split(text, '\n')[k]).Some?
    ensures LineRecords(Split(text, '\n')[k])[0] in Parse(text)
  {
    var lines := Split(text, '\n');
    var e := LineRecords(lines[k])[0];
    FlatMapMembership(lines, LineRecords, e);
  }

  /** A line built from the pattern's parts. */
  function Compose(path: string, lineField: string, message: string, reported: string, column: string, rest: string): string {
    path + ":" + lineField + ":" + message + AtLine + reported + ColumnLabel + column + rest
  }

  /** The parts' character classes, as the pattern states them. */
  predicate WellFormedParts(path: string, lineField: string, message: string, reported: string, column: string, rest: string) {
    && path != [] && ':' !in path
    && lineField != [] && ':' !in lineField
    && message != [] && '@' !in message
    && reported != [] && AllDigits(reported)
    && column != [] && AllDigits(column)
    && (rest == [] || !IsDigit(rest[0]))
  }

  /** Every line assembled from well-formed parts matches, at the parts' positions. */
  lemma ComposeMatches(path: string, lineField: string, message: string, reported: string, column: string, rest: string)
    requires WellFormedParts(path, lineField, message, reported, column, rest)
    ensures
      var c1 := |path|;
      var c2 := c1 + 1 + |lineField|;
      var at := c2 + 1 + |message| + 1;
      var d := at + 7 + |reported|;
      IsLocatedMatch(Compose(path, lineField, message, reported, column, rest),
                     Spans(c1, c2, at, d, d + 9 + |column|))
  {
    ComposePathEnds(path, lineField, message, reported, column, rest);
    ComposeLineFieldEnds(path, lineField, message, reported, column, rest);
    ComposeMessageEnds(path, lineField, message, reported, column, rest);
    ComposeNumbersEnd(path, lineField, message, reported, column, rest);
  }

  lemma ComposePathEnds(path: string, lineField: string, message: string, reported: string, column: string, rest: string)
    requires path != [] && ':' !in path
    ensures PathEnds(Compose(path, lineField, message, reported, column, rest), |path|)
  {
    var t := lineField + ":" + message + AtLine + reported + ColumnLabel + column + rest;
    var text := path + ":" + t;
    assert Compose(path, lineField, message, reported, column, rest) == text;
    assert forall i :: 0 <= i < |path| ==> text[i] == path[i];
  }

  lemma ComposeLineFieldEnds(path: string, lineField: string, message: string, reported: string, column: string, rest: string)
    requires lineField != [] && ':' !in lineField
    ensures LineFieldEnds(Compose(path, lineField, message, reported, column, rest), |path|, |path| + 1 + |lineField|)
  {
    var t := message + AtLine + reported + ColumnLabel + column + rest;
    var text := path + ":" + lineField + ":" + t;
    assert Compose(path, lineField, message, reported, column, rest) == text;
    assert forall i :: |path| < i < |path| + 1 + |lineField| ==> text[i] == lineField[i - |path| - 1];
  }

  lemma ComposeMessageEnds(path: string, lineField: string, message: string, reported: string, column: string, rest: string)
    requires message != [] && '@' !in message
    ensures
      var c2 := |path| + 1 + |lineField|;
      MessageEnds(Compose(path, lineField, message, reported, column, rest), c2, c2 + 1 + |message| + 1)
  {
    var pre := path + ":" + lineField + ":";
    var t := reported + ColumnLabel + column + rest;
    var text := pre + message + AtLine + t;
    assert Compose(path, lineField, message, reported, column, rest) == text;
    var at := |pre| + |message| + 1;
    assert forall i :: |pre| <= i < |pre| + |message| ==> text[i] == message[i - |pre|];
    assert text[at - 1..at + 7] == AtLine;
  }

  lemma ComposeNumbersEnd(path: string, lineField: string, message: string, reported: string, column: string, rest: string)
    requires reported != [] && AllDigits(reported)
    requires column != [] && AllDigits(column)
    requires rest == [] || !IsDigit(rest[0])
    ensures
      var at := |path| + 1 + |lineField| + 1 + |message| + 1;
      var d := at + 7 + |reported|;
      NumbersEnd(Compose(path, lineField, message, reported, column, rest), at, d, d + 9 + |column|)
  {
    var pre := path + ":" + lineField + ":" + message + AtLine;
    var text := pre + reported + ColumnLabel + column + rest;
    assert Compose(path, lineField, message, reported, column, rest) == text;
    var d := |pre| + |reported|;
    var e := d + 9 + |column|;
    assert forall i :: |pre| <= i < d ==> text[i] == reported[i - |pre|];
    assert text[d..d + 9] == ColumnLabel;
    assert forall i :: d + 9 <= i < e ==> text[i] == column[i - d - 9];
    assert e < |text| ==> text[e] == rest[0];
  }

  /** The record of a line assembled from well-formed parts: the path, the
      `parseInt` of the field between the first two colons, the column's value
      and the message. The number after `@ line` does not appear in it. */
  lemma ComposedRecord(path: string, lineField: string, message: string, reported: string, column: string, rest: string)
    requires WellFormedParts(path, lineField, message, reported, column, rest)
    ensures LineRecords(Compose(path, lineField, message, reported, column, rest))
         == [GroovyError(path, ParseInt(lineField), DecimalValue(column), message)]
  {
    ComposeMatches(path, lineField, message, reported, column, rest);
    ComposePathSlice(path, lineField, message, reported, column, rest);
    ComposeLineFieldSlice(path, lineField, message, reported, column, rest);
    ComposeMessageSlice(path, lineField, message, reported, column, rest);
    ComposeColumnSlice(path, lineField, message, reported, column, rest);
    var c1 := |path|;
    var c2 := c1 + 1 + |lineField|;
    var at := c2 + 1 + |message| + 1;
    var d := at + 7 + |reported|;
    RecordAt(Compose(path, lineField, message, reported, column, rest),
             Spans(c1, c2, at, d, d + 9 + |column|), path, lineField, message, column);
  }

  /** A line that matches at the given spans contributes the record read off those spans. */
  lemma RecordAt(text: string, m: Spans, path: string, lineField: string, message: string, column: string)
    requires IsLocatedMatch(text, m)
    requires text[..m.c1] == path && text[m.c1 + 1..m.c2] == lineField
    requires text[m.c2 + 1..m.at - 1] == message && text[m.d + 9..m.e] == column
    ensures LineRecords(text) == [GroovyError(path, ParseInt(lineField), DecimalValue(column), message)]
  {
    LocatedComplete(text, m);
    RecordsOfMatch(text, m);
  }

  lemma RecordsOfMatch(text: string, m: Spans)
    requires MatchLocated(text) == Some(m)
    ensures IsLocatedMatch(text, m)
    ensures LineRecords(text)
         == [GroovyError(text[..m.c1], ParseInt(text[m.c1 + 1..m.c2]), DecimalValue(text[m.d + 9..m.e]), text[m.c2 + 1..m.at - 1])]
  {
    LocatedOrdered(text);
    LocatedSound(text);
    RecordsOfFound(text, m);
    ErrorOfSpans(text, m);
  }

  lemma RecordsOfFound(text: string, m: Spans)
    requires MatchLocated(text) == Some(m)
    requires SpansInOrder(text, m)
    ensures LineRecords(text) == [ErrorOf(text, m)]
  {
  }

  lemma ErrorOfSpans(text: string, m: Spans)
    requires SpansInOrder(text, m)
    ensures ErrorOf(text, m)
         == GroovyError(text[..m.c1], ParseInt(text[m.c1 + 1..m.c2]), DecimalValue(text[m.d + 9..m.e]), text[m.c2 + 1..m.at - 1])
  {
  }

  lemma ComposePathSlice(path: string, lineField: string, message: string, reported: string, column: string, rest: string)
    ensures Compose(path, lineField, message, reported, column, rest)[..|path|] == path
  {
    var t := ":" + lineField + ":" + message + AtLine + reported + ColumnLabel + column + rest;
    assert Compose(path, lineField, message, reported, column, rest) == path + t;
  }

  lemma ComposeLineFieldSlice(path: string, lineField: string, message: string, reported: string, column: string, rest: string)
    ensures Compose(path, lineField, message, reported, column, rest)[|path| + 1..|path| + 1 + |lineField|] == lineField
  {
    var pre := path + ":";
    var t := ":" + message + AtLine + reported + ColumnLabel + column + rest;
    assert Compose(path, lineField, message, reported, column, rest) == pre + lineField + t;
  }

  lemma ComposeMessageSlice(path: string, lineField: string, message: string, reported: string, column: string, rest: string)
    ensures
      var c2 := |path| + 1 + |lineField|;
      Compose(path, lineField, message, reported, column, rest)[c2 + 1..c2 + 1 + |message|] == message
  {
    var pre := path + ":" + lineField + ":";
    var t := AtLine + reported + ColumnLabel + column + rest;
    assert Compose(path, lineField, message, reported, column, rest) == pre + message + t;
  }

  lemma ComposeColumnSlice(path: string, lineField: string, message: string, reported: string, column: string, rest: string)
    ensures
      var d := |path| + 1 + |lineField| + 1 + |message| + 1 + 7 + |reported|;
      Compose(path, lineField, message, reported, column, rest)[d + 9..d + 9 + |column|] == column
  {
    var pre := path + ":" + lineField + ":" + message + AtLine + reported + ColumnLabel;
    assert Compose(path, lineField, message, reported, column, rest) == pre + column + rest;
  }

  /** Parsing a log that holds only a matching line gives exactly its record. */
  lemma ParseComposedLine(path: string, lineField: string, message: string, reported: string, column: string, rest: string)
    requires WellFormedParts(path, lineField, message, reported, column, rest)
    requires '\n' !in path && '\n' !in lineField && '\n' !in message && '\n' !in rest
    ensures Parse(Compose(path, lineField, message, reported, column, rest))
         == [GroovyError(path, ParseInt(lineField), DecimalValue(column), message)]
  {
    var text := Compose(path, lineField, message, reported, column, rest);
    assert '\n' !in AtLine && '\n' !in ColumnLabel;
    assert '\n' !in text;
    SplitNoSep(text, '\n');
    FlatMapSingle(text, LineRecords);
    ComposedRecord(path, lineField, message, reported, column, rest);
  }

  /** The message of the documented compiler error line. */
  const ExampleMessage: string := " expecting ''', found '\\n'"

  /** The documented compiler error line gives path, line, column and message. */
  lemma CompilerErrorExample()
    ensures Parse("WorkflowScript: 9: expecting ''', found '\\n' @ line 9, column 32.")
         == [GroovyError("WorkflowScript", Some(9), 32, ExampleMessage)]
  {
    ExampleWellFormed();
    ExampleParts();
    ParseComposedLine("WorkflowScript", " 9", ExampleMessage, "9", "32", ".");
    ExampleValues();
  }

  lemma ExampleWellFormed()
    ensures WellFormedParts("WorkflowScript", " 9", ExampleMessage, "9", "32", ".")
    ensures '\n' !in "WorkflowScript" && '\n' !in " 9" && '\n' !in ExampleMessage && '\n' !in "."
  {
    ExamplePathField();
    ExampleMessageChars();
  }

  lemma ExamplePathField()
    ensures ':' !in "WorkflowScript" && ':' !in " 9"
    ensures '\n' !in "WorkflowScript" && '\n' !in " 9"
  {
  }

  lemma ExampleMessageChars()
    ensures '@' !in ExampleMessage && '\n' !in ExampleMessage
  {
  }

  lemma ExampleParts()
    ensures Compose("WorkflowScript", " 9", ExampleMessage, "9", "32", ".")
         == "WorkflowScript: 9: expecting ''', found '\\n' @ line 9, column 32."
  {
    ExampleHead();
    ExampleTail();
  }

  lemma ExampleHead()
    ensures "WorkflowScript" + ":" + " 9" + ":" + ExampleMessage
         == "WorkflowScript: 9: expecting ''', found '\\n'"
  {
    ExampleLocation();
    assert "WorkflowScript: 9:" + ExampleMessage == "WorkflowScript: 9: expecting ''', found '\\n'";
  }

  lemma ExampleLocation()
    ensures "WorkflowScript" + ":" + " 9" + ":" == "WorkflowScript: 9:"
  {
    assert "WorkflowScript" + ":" == "WorkflowScript:";
    assert "WorkflowScript:" + " 9" == "WorkflowScript: 9";
  }

  lemma ExampleTail()
    ensures "WorkflowScript: 9: expecting ''', found '\\n'" + AtLine + "9" + ColumnLabel + "32" + "."
         == "WorkflowScript: 9: expecting ''', found '\\n' @ line 9, column 32."
  {
    assert "WorkflowScript: 9: expecting ''', found '\\n'" + AtLine == "WorkflowScript: 9: expecting ''', found '\\n' @ line ";
    assert "WorkflowScript: 9: expecting ''', found '\\n' @ line " + "9" == "WorkflowScript: 9: expecting ''', found '\\n' @ line 9";
    assert "WorkflowScript: 9: expecting ''', found '\\n' @ line 9" + ColumnLabel == "WorkflowScript: 9: expecting ''', found '\\n' @ line 9, column ";
    assert "WorkflowScript: 9: expecting ''', found '\\n' @ line 9, column " + "32" == "WorkflowScript: 9: expecting ''', found '\\n' @ line 9, column 32";
  }

  lemma ExampleValues()
    ensures ParseInt(" 9") == Some(9) && DecimalValue("32") == 32
  {
    assert TrimStart(" 9") == "9";
    ParseIntOfDigits("9");
  }
}
