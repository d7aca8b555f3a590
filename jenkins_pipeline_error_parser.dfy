/** The two-pattern Groovy error parser of the `jenkins/` directory. Every line
    of a build log is tried against both entries of `RE_GROOVY_ERRORS`, in
    array order, and every match yields one record. The first entry is the
    compiler-message pattern of the one-pattern parser with named groups, the
    second recognises a stack frame of the pipeline script,
      .*WorkflowScript.run\((?<path>[^:]+):(?<line>\d+)\).*
    whose records have neither `column` nor `message`. */
module JenkinsPipelineErrorParser {
  import opened Wrappers
  import opened Strings
  import opened Sequences
  import PipelineErrorParser

  /** A Groovy error with optional `column` and `message`; `line` (and
      `column`) is `None` where `parseInt` gives `NaN`. */
  datatype GroovyError = GroovyError(path: string, line: Option<int>, column: Option<int>, message: Option<string>)

  /** The entries of `RE_GROOVY_ERRORS`. */
  datatype Pattern = CompilerMessage | StackFrame

  const Patterns: seq<Pattern> := [CompilerMessage, StackFrame]

  /** The named groups of a match; a group the pattern lacks is `None`. */
  datatype Groups = Groups(path: string, line: string, column: Option<string>, message: Option<string>)

  // ---------------------------------------------------------------------------
  // Searching positions

  /** The first `i` in `[from, end)` with `p(i)`, or `end`. */
  function FirstWhere(p: nat -> bool, from: nat, end: nat): nat
    decreases end - from
  {
    if from >= end then end
    else if p(from) then from
    else FirstWhere(p, from + 1, end)
  }

  lemma {:induction false} FirstWhereSpec(p: nat -> bool, from: nat, end: nat)
    requires from <= end
    ensures from <= FirstWhere(p, from, end) <= end
    ensures forall i :: from <= i < FirstWhere(p, from, end) ==> !p(i)
    ensures FirstWhere(p, from, end) < end ==> p(FirstWhere(p, from, end))
    decreases end - from
  {
    if from < end && !p(from) {
      FirstWhereSpec(p, from + 1, end);
    }
  }

  /** Starting the search anywhere up to the first hit finds the same hit. */
  lemma {:induction false} FirstWhereSkip(p: nat -> bool, a: nat, b: nat, end: nat)
    requires a <= b <= FirstWhere(p, a, end)
    ensures FirstWhere(p, b, end) == FirstWhere(p, a, end)
    decreases b - a
  {
    if a < b {
      FirstWhereSkip(p, a + 1, b, end);
    }
  }

  /** The last `i` in `[lo, hi)` with `p(i)`, and `lo` when there is none
      after `lo`. */
  function LastWhere(p: nat -> bool, lo: nat, hi: nat): nat
    decreases hi
  {
    if hi <= lo + 1 then lo
    else if p(hi - 1) then hi - 1
    else LastWhere(p, lo, hi - 1)
  }

  lemma {:induction false} LastWhereSpec(p: nat -> bool, lo: nat, hi: nat)
    requires lo < hi && p(lo)
    ensures lo <= LastWhere(p, lo, hi) < hi && p(LastWhere(p, lo, hi))
    ensures forall i :: LastWhere(p, lo, hi) < i < hi ==> !p(i)
    decreases hi
  {
    if hi > lo + 1 && !p(hi - 1) {
      LastWhereSpec(p, lo, hi - 1);
    }
  }

  /** Among the positions `fits` below `n`, `r` is the one a backtracking
      `.*X.*` settles on when `.` stops at `term`: every earlier hit reaches
      `r` without crossing a `term` position, and every later hit lies beyond
      one. */
  predicate LastOfFirstStretch(fits: nat -> bool, term: nat -> bool, n: nat, r: nat) {
    && r < n && fits(r)
    && (forall j :: 0 <= j < r && fits(j) ==> r < FirstWhere(term, j, n))
    && (forall j :: r < j < n && fits(j) ==> FirstWhere(term, r, n) < j)
  }

  /** Searching for the first hit, then for the last hit before the next
      `term` position, yields that position. */
  lemma StretchSound(fits: nat -> bool, term: nat -> bool, n: nat)
    requires forall j :: 0 <= j < n && fits(j) ==> !term(j)
    requires FirstWhere(fits, 0, n) < n
    ensures var j0 := FirstWhere(fits, 0, n);
      LastOfFirstStretch(fits, term, n, LastWhere(fits, j0, FirstWhere(term, j0, n)))
  {
    var j0 := FirstWhere(fits, 0, n);
    FirstWhereSpec(fits, 0, n);
    var b := FirstWhere(term, j0, n);
    FirstWhereSpec(term, j0, n);
    assert j0 < b;
    var r := LastWhere(fits, j0, b);
    LastWhereSpec(fits, j0, b);
    FirstWhereSkip(term, j0, r, n);
    forall j | 0 <= j < r && fits(j)
      ensures r < FirstWhere(term, j, n)
    {
      FirstWhereSkip(term, j0, j, n);
    }
  }

  /** That position is the only one with the property. */
  lemma StretchComplete(fits: nat -> bool, term: nat -> bool, n: nat, r: nat)
    requires forall j :: 0 <= j < n && fits(j) ==> !term(j)
    requires LastOfFirstStretch(fits, term, n, r)
    ensures FirstWhere(fits, 0, n) < n
    ensures var j0 := FirstWhere(fits, 0, n);
      LastWhere(fits, j0, FirstWhere(term, j0, n)) == r
  {
    FirstWhereSpec(fits, 0, n);
    var j0 := FirstWhere(fits, 0, n);
    var b := FirstWhere(term, j0, n);
    FirstWhereSpec(term, j0, n);
    assert r < b;
    FirstWhereSkip(term, j0, r, n);
    LastWhereSpec(fits, j0, b);
  }

  // ---------------------------------------------------------------------------
  // The stack-frame pattern

  /** The characters JavaScript's `.` does not match. */
  predicate IsLineTerminator(c: char) {
    c == '\n' || c == '\r' || c == '\U{2028}' || c == '\U{2029}'
  }

  const Script: string := "WorkflowScript"
  const Run: string := "run("

  /** Where a frame sits in a line: `WorkflowScript` at `j`, the `:` closing
      the path at `c`, the `)` closing the line digits at `q`. The unescaped
      `.` of the pattern is the character at `j + 14`. */
  datatype Frame = Frame(j: nat, c: nat, q: nat)

  /** `WorkflowScript.run\(([^:]+):(\d+)\)` matches at `k.j`, with its parts
      at `k`: any character but a line terminator between `WorkflowScript`
      and `run(`, a path without `:`, and a digit run closed by `)`. */
  predicate IsFrameAt(text: string, k: Frame) {
    && k.j + 19 <= |text| && HasAt(text, k.j, Script)
    && !IsLineTerminator(text[k.j + 14]) && HasAt(text, k.j + 15, Run)
    && k.j + 19 < k.c < |text| && text[k.c] == ':'
    && (forall i :: k.j + 19 <= i < k.c ==> text[i] != ':')
    && k.c + 1 < k.q < |text| && text[k.q] == ')'
    && (forall i :: k.c + 1 <= i < k.q ==> IsDigit(text[i]))
  }

  /** The frame starting at `j`, if any: the path runs to the first `:` and
      the digits after it must be closed by `)`. */
  function MatchFrameAt(text: string, j: nat): Option<Frame> {
    if j + 19 <= |text| && HasAt(text, j, Script) && !IsLineTerminator(text[j + 14]) && HasAt(text, j + 15, Run) then
      var c := IndexFrom(text, ':', j + 19);
      if c == j + 19 || c == |text| then None
      else
        var q := DigitsEnd(text, c + 1);
        if q == c + 1 || q == |text| || text[q] != ')' then None else Some(Frame(j, c, q))
    else None
  }

  predicate FitsAt(text: string, j: nat) {
    MatchFrameAt(text, j).Some?
  }

  /** `FitsAt` and "is a line terminator" as predicates on positions. */
  function Fits(text: string): nat -> bool {
    (j: nat) => FitsAt(text, j)
  }

  function Terminates(text: string): nat -> bool {
    (t: nat) => t < |text| && IsLineTerminator(text[t])
  }

  /** The first line terminator at or after `from`, or `|text|`. */
  function TerminatorFrom(text: string, from: nat): nat {
    FirstWhere(Terminates(text), from, |text|)
  }

  /** `exec` of the stack-frame pattern. The match starts at the earliest
      position from which a frame can be reached without crossing a line
      terminator, that is at the start of the terminator-free stretch holding
      the first frame; the greedy `.*` then settles on the last frame of that
      stretch. */
  function MatchFrame(text: string): Option<Frame> {
    var j0 := FirstWhere(Fits(text), 0, |text|);
    if j0 == |text| then None
    else MatchFrameAt(text, LastWhere(Fits(text), j0, TerminatorFrom(text, j0)))
  }

  /** The frame `exec` reports: a frame such that every earlier frame lies in
      the same terminator-free stretch and every later one lies beyond a line
      terminator. */
  predicate IsFrameMatch(text: string, k: Frame) {
    IsFrameAt(text, k) && LastOfFirstStretch(Fits(text), Terminates(text), |text|, k.j)
  }

  lemma FrameAtSound(text: string, j: nat)
    requires FitsAt(text, j)
    ensures MatchFrameAt(text, j).value.j == j && IsFrameAt(text, MatchFrameAt(text, j).value)
  {
  }

  lemma FrameAtComplete(text: string, k: Frame)
    requires IsFrameAt(text, k)
    ensures MatchFrameAt(text, k.j) == Some(k)
  {
    IndexFromIs(text, ':', k.j + 19, k.c);
    DigitsEndIs(text, k.c + 1, k.q);
  }

  /** A frame starts with `W`, which is no line terminator. */
  lemma FitNotTerminator(text: string, j: nat)
    requires FitsAt(text, j)
    ensures j + 19 <= |text| && text[j] == 'W' && !IsLineTerminator(text[j])
  {
    assert text[j..j + 14] == Script;
    assert text[j] == Script[0];
  }

  lemma FramesAvoidTerminators(text: string)
    ensures forall j :: 0 <= j < |text| && Fits(text)(j) ==> !Terminates(text)(j)
  {
    forall j | 0 <= j < |text| && Fits(text)(j)
      ensures !Terminates(text)(j)
    {
      FitNotTerminator(text, j);
    }
  }

  /** What `MatchFrame` finds is the frame `exec` reports. */
  lemma FrameSound(text: string)
    requires MatchFrame(text).Some?
    ensures IsFrameMatch(text, MatchFrame(text).value)
  {
    FramesAvoidTerminators(text);
    StretchSound(Fits(text), Terminates(text), |text|);
    var j0 := FirstWhere(Fits(text), 0, |text|);
    FrameAtSound(text, LastWhere(Fits(text), j0, TerminatorFrom(text, j0)));
  }

  /** The frame `exec` reports is the one `MatchFrame` finds. */
  lemma FrameComplete(text: string, k: Frame)
    requires IsFrameMatch(text, k)
    ensures MatchFrame(text) == Some(k)
  {
    FramesAvoidTerminators(text);
    StretchComplete(Fits(text), Terminates(text), |text|, k.j);
    FrameAtComplete(text, k);
  }

  /** The pattern fails exactly on lines in which no frame starts. */
  lemma FrameNone(text: string)
    ensures MatchFrame(text).None? <==> forall j :: 0 <= j < |text| ==> !FitsAt(text, j)
  {
    FirstWhereSpec(Fits(text), 0, |text|);
    var j0 := FirstWhere(Fits(text), 0, |text|);
    if j0 < |text| {
      FramesAvoidTerminators(text);
      StretchSound(Fits(text), Terminates(text), |text|);
      var r := LastWhere(Fits(text), j0, TerminatorFrom(text, j0));
      assert Fits(text)(r);
    } else {
      forall j | 0 <= j < |text|
        ensures !FitsAt(text, j)
      {
        assert !Fits(text)(j);
      }
    }
  }

  predicate FrameInOrder(text: string, k: Frame) {
    k.j + 19 < k.c < k.q <= |text|
  }

  lemma FrameOrdered(text: string)
    requires MatchFrame(text).Some?
    ensures IsFrameAt(text, MatchFrame(text).value) && FrameInOrder(text, MatchFrame(text).value)
  {
    var j0 := FirstWhere(Fits(text), 0, |text|);
    FrameAtSound(text, LastWhere(Fits(text), j0, TerminatorFrom(text, j0)));
  }

  // ---------------------------------------------------------------------------
  // Matching a line and building its records

  function LocatedGroups(text: string, m: PipelineErrorParser.Spans): Groups
    requires PipelineErrorParser.SpansInOrder(text, m)
  {
    Groups(text[..m.c1], text[m.c1 + 1..m.c2], Some(text[m.d + 9..m.e]), Some(text[m.c2 + 1..m.at - 1]))
  }

  function FrameGroups(text: string, k: Frame): Groups
    requires FrameInOrder(text, k)
  {
    Groups(text[k.j + 19..k.c], text[k.c + 1..k.q], None, None)
  }

  /** `re.exec(line)` for each entry of `RE_GROOVY_ERRORS`. */
  function Exec(p: Pattern, line: string): Option<Groups> {
    match p
    case CompilerMessage => ExecCompilerMessage(line)
    case StackFrame => ExecStackFrame(line)
  }

  function ExecCompilerMessage(line: string): Option<Groups> {
    match PipelineErrorParser.MatchLocated(line)
    case None => None
    case Some(m) => PipelineErrorParser.LocatedOrdered(line); Some(LocatedGroups(line, m))
  }

  function ExecStackFrame(line: string): Option<Groups> {
    match MatchFrame(line)
    case None => None
    case Some(k) => FrameOrdered(line); Some(FrameGroups(line, k))
  }

  /** The object pushed for a match: `line` through `parseInt`, `column`
      through `parseInt` when the group is present and non-empty (a truthy
      string), otherwise absent. */
  function Record(g: Groups): GroovyError {
    var column := if g.column.Some? && g.column.value != [] then ParseInt(g.column.value) else None;
    GroovyError(g.path, ParseInt(g.line), column, g.message)
  }

  /** The records one pattern contributes for one line. */
  function PatternRecords(p: Pattern, line: string): seq<GroovyError> {
    Pushed(Exec(p, line))
  }

  /** What is pushed for the result of one `exec`. */
  function Pushed(g: Option<Groups>): seq<GroovyError> {
    match g
    case None => []
    case Some(g) => [Record(g)]
  }

  /** The records of the patterns `ps` for one line, in the order of `ps`. */
  function RecordsOf(ps: seq<Pattern>, line: string): seq<GroovyError> {
    if ps == [] then [] else RecordsOf(ps[..|ps| - 1], line) + PatternRecords(ps[|ps| - 1], line)
  }

  function LineRecords(line: string): seq<GroovyError> {
    RecordsOf(Patterns, line)
  }

  /** What `parseGroovyErrors(text)` returns. */
  function Parse(text: string): seq<GroovyError> {
    FlatMap(Split(text, '\n'), LineRecords)
  }

  /** `parseGroovyErrors`: for each line, for each pattern, push a record when
      the pattern matches. */
  method ParseGroovyErrors(text: string) returns (errors: seq<GroovyError>)
    ensures errors == Parse(text)
  {
    errors := [];
    var lines := Split(text, '\n');
    for i := 0 to |lines|
      invariant errors == FlatMap(lines[..i], LineRecords)
    {
      assert lines[..i + 1][..i] == lines[..i];
      errors := PushLineMatches(errors, lines[i]);
    }
    assert lines[..|lines|] == lines;
  }

  /** The inner loop of `parseGroovyErrors`: try every pattern on one line,
      in array order, and push a record for each match. */
  method PushLineMatches(errors: seq<GroovyError>, line: string) returns (pushed: seq<GroovyError>)
    ensures pushed == errors + LineRecords(line)
  {
    pushed := PushMatches(errors, Patterns, line);
  }

  /** The loop over a list of patterns. */
  method PushMatches(errors: seq<GroovyError>, ps: seq<Pattern>, line: string) returns (pushed: seq<GroovyError>)
    ensures pushed == errors + RecordsOf(ps, line)
  {
    pushed := errors;
    for p := 0 to |ps|
      invariant pushed == errors + RecordsOf(ps[..p], line)
    {
      assert ps[..p + 1][..p] == ps[..p];
      pushed := PushMatch(pushed, ps[p], line);
    }
    assert ps[..|ps|] == ps;
  }

  /** The body of the inner loop: one pattern on one line. */
  method PushMatch(errors: seq<GroovyError>, p: Pattern, line: string) returns (pushed: seq<GroovyError>)
    ensures pushed == errors + PatternRecords(p, line)
  {
    var m := Exec(p, line);
    pushed := errors;
    if m.Some? {
      pushed := pushed + [Record(m.value)];
    }
  }

  // ---------------------------------------------------------------------------
  // Properties

  /** The empty log yields no record. */
  lemma ParseEmpty()
    ensures Parse("") == []
  {
    FlatMapSingle("", LineRecords);
    LineRecordsInOrder("");
    assert PipelineErrorParser.MatchLocated("") == None;
    assert MatchFrame("") == None;
  }

  /** Lines are independent: parsing two logs joined by a newline gives the
      records of the first followed by those of the second. */
  lemma ParseConcat(a: string, b: string)
    ensures Parse(a + "\n" + b) == Parse(a) + Parse(b)
  {
    LinesConcat(a, b, LineRecords);
  }

  function CompilerMessageRecords(line: string): seq<GroovyError> {
    Pushed(ExecCompilerMessage(line))
  }

  function StackFrameRecords(line: string): seq<GroovyError> {
    Pushed(ExecStackFrame(line))
  }

  /** A line yields the record of the first pattern, if it matches, before
      that of the second. */
  lemma LineRecordsInOrder(line: string)
    ensures LineRecords(line) == CompilerMessageRecords(line) + StackFrameRecords(line)
  {
    assert Patterns[..1] == [CompilerMessage];
    FirstPatternRecords(line);
  }

  lemma FirstPatternRecords(line: string)
    ensures RecordsOf([CompilerMessage], line) == CompilerMessageRecords(line)
  {
    assert [CompilerMessage][..0] == [];
  }

  /** The number of patterns among `ps` that match `line`. */
  function CountMatches(ps: seq<Pattern>, line: string): nat {
    if ps == [] then 0
    else CountMatches(ps[..|ps| - 1], line) + (if Exec(ps[|ps| - 1], line).Some? then 1 else 0)
  }

  /** The number of (line, pattern) pairs that match. */
  function CountPairs(lines: seq<string>): nat {
    if lines == [] then 0 else CountPairs(lines[..|lines| - 1]) + CountMatches(Patterns, lines[|lines| - 1])
  }

  /** One record per matching (line, pattern) pair, and no other. */
  lemma ParseLength(text: string)
    ensures |Parse(text)| == CountPairs(Split(text, '\n'))
  {
    FlatMapLength(Split(text, '\n'), LineRecords);
    SumSizesIsPairs(Split(text, '\n'));
  }

  lemma {:induction false} SumSizesIsPairs(lines: seq<string>)
    ensures SumSizes(lines, LineRecords) == CountPairs(lines)
  {
    if lines != [] {
      SumSizesIsPairs(lines[..|lines| - 1]);
      RecordsOfLength(Patterns, lines[|lines| - 1]);
    }
  }

  lemma {:induction false} RecordsOfLength(ps: seq<Pattern>, line: string)
    ensures |RecordsOf(ps, line)| == CountMatches(ps, line)
  {
    if ps != [] {
      RecordsOfLength(ps[..|ps| - 1], line);
    }
  }

  /** A record of the one-pattern parser, with `column` and `message` present. */
  function Widen(e: PipelineErrorParser.GroovyError): GroovyError {
    GroovyError(e.path, e.line, Some(e.column as int), Some(e.message))
  }

  function WidenAll(es: seq<PipelineErrorParser.GroovyError>): (r: seq<GroovyError>)
    ensures |r| == |es|
  {
    if es == [] then [] else WidenAll(es[..|es| - 1]) + [Widen(es[|es| - 1])]
  }

  lemma {:induction false} WidenAllAppend(a: seq<PipelineErrorParser.GroovyError>, b: seq<PipelineErrorParser.GroovyError>)
    ensures WidenAll(a + b) == WidenAll(a) + WidenAll(b)
  {
    if b == [] {
      assert a + b == a;
    } else {
      var ab := a + b;
      assert ab[..|ab| - 1] == a + b[..|b| - 1];
      WidenAllAppend(a, b[..|b| - 1]);
    }
  }

  /** The first pattern is the one-pattern parser's: on every line it yields
      that parser's record, carrying the same path, `parseInt` of the line
      field, column and message. */
  lemma CompilerMessageAgrees(line: string)
    ensures CompilerMessageRecords(line) == WidenAll(PipelineErrorParser.LineRecords(line))
  {
    if PipelineErrorParser.MatchLocated(line).Some? {
      var m := PipelineErrorParser.MatchLocated(line).value;
      PipelineErrorParser.LocatedSound(line);
      LocatedRecord(line, m);
      assert WidenAll([PipelineErrorParser.ErrorOf(line, m)]) == [Widen(PipelineErrorParser.ErrorOf(line, m))];
    }
  }

  lemma LocatedRecord(line: string, m: PipelineErrorParser.Spans)
    requires PipelineErrorParser.IsLocatedMatch(line, m)
    ensures PipelineErrorParser.SpansInOrder(line, m)
    ensures Record(LocatedGroups(line, m)) == Widen(PipelineErrorParser.ErrorOf(line, m))
  {
    PipelineErrorParser.ColumnParses(line, m);
  }

  /** Over a whole log, the first pattern's records are those of the
      one-pattern parser. */
  lemma FirstPatternAgrees(text: string)
    ensures FlatMap(Split(text, '\n'), CompilerMessageRecords) == WidenAll(PipelineErrorParser.Parse(text))
  {
    CompilerMessagesAgree(Split(text, '\n'));
  }

  lemma {:induction false} CompilerMessagesAgree(lines: seq<string>)
    ensures FlatMap(lines, CompilerMessageRecords) == WidenAll(FlatMap(lines, PipelineErrorParser.LineRecords))
  {
    if lines != [] {
      var init := lines[..|lines| - 1];
      var last := lines[|lines| - 1];
      CompilerMessagesAgree(init);
      WidenAllAppend(FlatMap(init, PipelineErrorParser.LineRecords), PipelineErrorParser.LineRecords(last));
      CompilerMessageAgrees(last);
    }
  }

  /** A line matched at frame `k` yields one stack-frame record: the path is
      the text after `run(` up to the first `:`, `line` the value of the whole
      digit run between that `:` and the closing `)`, and `column` and
      `message` are absent. */
  lemma StackFrameRecord(line: string, k: Frame)
    requires MatchFrame(line) == Some(k)
    ensures FrameInOrder(line, k)
    ensures StackFrameRecords(line) == [GroovyError(line[k.j + 19..k.c], Some(DecimalValue(line[k.c + 1..k.q])), None, None)]
  {
    StackFrameFields(line);
    FrameRecordsOf(line);
    FrameRecord(line, k);
  }

  /** The path of a frame is non-empty and has no `:`; the line is the whole
      digit run up to the `)`. */
  lemma StackFrameFields(line: string)
    requires MatchFrame(line).Some?
    ensures var k := MatchFrame(line).value;
      FrameInOrder(line, k)
      && var path := line[k.j + 19..k.c];
      && var digits := line[k.c + 1..k.q];
      && path != [] && ':' !in path && digits != [] && AllDigits(digits) && line[k.q] == ')'
  {
    FrameOrdered(line);
    FrameParts(line, MatchFrame(line).value);
  }

  lemma FrameRecordsOf(line: string)
    requires MatchFrame(line).Some?
    ensures FrameInOrder(line, MatchFrame(line).value)
    ensures StackFrameRecords(line) == [Record(FrameGroups(line, MatchFrame(line).value))]
  {
    FrameOrdered(line);
  }

  lemma FrameParts(line: string, k: Frame)
    requires IsFrameAt(line, k)
    ensures FrameInOrder(line, k)
    ensures var path := line[k.j + 19..k.c];
      var digits := line[k.c + 1..k.q];
      path != [] && ':' !in path && digits != [] && AllDigits(digits)
  {
    var path := line[k.j + 19..k.c];
    assert forall i :: 0 <= i < |path| ==> path[i] == line[k.j + 19 + i];
    var digits := line[k.c + 1..k.q];
    assert forall i :: 0 <= i < |digits| ==> digits[i] == line[k.c + 1 + i];
  }

  lemma FrameRecord(line: string, k: Frame)
    requires FrameInOrder(line, k)
    requires line[k.c + 1..k.q] != [] && AllDigits(line[k.c + 1..k.q])
    ensures Record(FrameGroups(line, k)) == GroovyError(line[k.j + 19..k.c], Some(DecimalValue(line[k.c + 1..k.q])), None, None)
  {
    var path := line[k.j + 19..k.c];
    var digits := line[k.c + 1..k.q];
    assert FrameGroups(line, k) == Groups(path, digits, None, None);
    DigitsRecord(path, digits);
  }

  lemma DigitsRecord(path: string, digits: string)
    requires digits != [] && AllDigits(digits)
    ensures Record(Groups(path, digits, None, None)) == GroovyError(path, Some(DecimalValue(digits)), None, None)
  {
    ParseIntOfDigits(digits);
  }

  /** A line in which no frame starts yields no stack-frame record. */
  lemma StackFrameAbsent(line: string)
    ensures StackFrameRecords(line) == [] <==> forall j :: 0 <= j < |line| ==> !FitsAt(line, j)
  {
    FrameNone(line);
  }

  /** A line holding a frame at `k`, and no other `W` early enough to start
      one, is matched at `k`. */
  lemma SoleFrame(text: string, k: Frame)
    requires IsFrameAt(text, k)
    requires forall j :: 0 <= j && j + 19 <= |text| && j != k.j ==> text[j] != 'W'
    ensures MatchFrame(text) == Some(k)
  {
    FrameAtComplete(text, k);
    forall j | 0 <= j < |text| && j != k.j
      ensures !Fits(text)(j)
    {
      if FitsAt(text, j) {
        FitNotTerminator(text, j);
      }
    }
    assert Fits(text)(k.j);
    FrameComplete(text, k);
  }

  /** The stack-frame line of the pattern's comment,
      `at WorkflowScript.run(WorkflowScript:2)`, spelled from its parts. */
  const FrameExample: string := "at " + Script + "." + Run + Script + ":2)"

  /** The frame line yields one record: path `WorkflowScript`, line 2, and
      neither column nor message. */
  lemma FrameExampleRecords()
    ensures Parse(FrameExample) == [GroovyError("WorkflowScript", Some(2), None, None)]
  {
    var t := FrameExample;
    assert '\n' !in t;
    SplitNoSep(t, '\n');
    FlatMapSingle(t, LineRecords);
    LineRecordsInOrder(t);
    FrameExampleNoMessage();
    assert CompilerMessageRecords(t) == [];
    FrameExampleFrame();
    StackFrameRecord(t, Frame(3, 36, 38));
    assert DecimalValue("2") == 2;
  }

  /** `y` sits in `x + y + z` right after `x`. */
  lemma Middle(x: string, y: string, z: string)
    ensures (x + y + z)[|x|..|x| + |y|] == y
    ensures forall i :: 0 <= i < |y| ==> (x + y + z)[|x| + i] == y[i]
  {
  }

  /** The line has a single `:`, so the first pattern fails on it. */
  lemma FrameExampleNoMessage()
    ensures PipelineErrorParser.MatchLocated(FrameExample) == None
  {
    var t := FrameExample;
    var head := "at " + Script + "." + Run + Script;
    assert t == head + ":2)";
    assert ':' !in head;
    assert forall i :: 0 <= i < |head| ==> t[i] == head[i];
    IndexFromIs(t, ':', 0, 36);
    assert t[37] == '2' && t[38] == ')';
    IndexFromIs(t, ':', 37, |t|);
  }

  lemma FrameExampleFrame()
    ensures MatchFrame(FrameExample) == Some(Frame(3, 36, 38))
    ensures FrameExample[22..36] == "WorkflowScript" && FrameExample[37..38] == "2"
  {
    var t := FrameExample;
    FrameExampleScript();
    FrameExampleRun();
    FrameExamplePath();
    assert t[36] == ':' && t[37] == '2' && t[38] == ')';
    assert t[37..38] == "2";
    FrameExampleOnlyW();
    SoleFrame(t, Frame(3, 36, 38));
  }

  lemma FrameExampleScript()
    ensures HasAt(FrameExample, 3, Script) && FrameExample[17] == '.'
  {
    var rest := "." + Run + Script + ":2)";
    assert FrameExample == "at " + Script + rest;
    Middle("at ", Script, rest);
  }

  lemma FrameExampleRun()
    ensures HasAt(FrameExample, 18, Run)
  {
    var front := "at " + Script + ".";
    var rest := Script + ":2)";
    assert FrameExample == front + Run + rest;
    Middle(front, Run, rest);
  }

  lemma FrameExamplePath()
    ensures FrameExample[22..36] == "WorkflowScript"
    ensures forall i :: 22 <= i < 36 ==> FrameExample[i] != ':'
  {
    var front := "at " + Script + "." + Run;
    assert FrameExample == front + Script + ":2)";
    Middle(front, Script, ":2)");
    assert ':' !in Script;
  }

  /** Apart from position 3, no `W` starts early enough for a frame. */
  lemma FrameExampleOnlyW()
    ensures forall j :: 0 <= j && j + 19 <= |FrameExample| && j != 3 ==> FrameExample[j] != 'W'
  {
    var rest := Script[1..] + "." + Run;
    assert FrameExample == "at " + [Script[0]] + rest + Script + ":2)";
    assert 'W' !in "at " && 'W' !in rest;
    assert forall j :: 4 <= j < 22 ==> FrameExample[j] == rest[j - 4];
  }
}
