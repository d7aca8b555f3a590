/** The log line layout of `src/log.ts`: a timestamp from the date parts,
    each zero-padded, then the tag, the level and the message. The date parts
    are given; reading the clock and writing to the output channel are not
    part of this model. */
module Log {
  import opened Strings
  import opened Wrappers

  datatype LogLevel = Error | Warn | Info | Debug

  /** The string value of each level. */
  function LevelName(level: LogLevel): string {
    match level
    case Error => "error"
    case Warn => "warn"
    case Info => "info"
    case Debug => "debug"
  }

  const DefaultWidth: nat := 2

  /** `pad(n, to)`: the decimal digits of `n` after enough `0`s to reach
      `to` characters. */
  function Pad(n: nat, to: nat): string {
    var digits := NatToDecimal(n);
    Repeat('0', if to > |digits| then to - |digits| else 0) + digits
  }

  /** The padded text ends with the digits of `n`, is `to` long unless the
      digits are longer, is made longer only by `0`s, and is the digits
      themselves when they already reach `to`. */
  lemma PadSpec(n: nat, to: nat)
    ensures var p := Pad(n, to); var digits := NatToDecimal(n);
      |p| == (if to > |digits| then to else |digits|)
      && p[|p| - |digits|..] == digits
      && (forall k :: 0 <= k < |p| - |digits| ==> p[k] == '0')
      && (|digits| >= to ==> p == digits)
  {
  }

  /** Padding keeps the value: the padded text reads back as `n`. */
  lemma PadValue(n: nat, to: nat)
    ensures AllDigits(Pad(n, to)) && DecimalValue(Pad(n, to)) == n
  {
    var digits := NatToDecimal(n);
    var zeros := Repeat('0', if to > |digits| then to - |digits| else 0);
    LeadingZerosValue(zeros, digits);
    DecimalRoundTrip(n);
  }

  lemma DecimalWidth(n: nat)
    ensures n < 100 ==> |NatToDecimal(n)| <= 2
    ensures n < 1000 ==> |NatToDecimal(n)| <= 3
    ensures 1000 <= n < 10000 ==> |NatToDecimal(n)| == 4
  {
    if n >= 10 {
      DecimalWidth(n / 10);
    }
  }

  /** A part padded to `to` characters that has at most `to` digits. */
  lemma PadWidth(n: nat, to: nat)
    requires |NatToDecimal(n)| <= to
    ensures |Pad(n, to)| == to && DecimalValue(Pad(n, to)) == n
  {
    PadValue(n, to);
  }

  /** `year-MM-DD`, with `month` counted from 0 as `getMonth()` does. */
  function DateString(year: nat, month: nat, day: nat): string {
    NatToDecimal(year) + "-" + Pad(month + 1, DefaultWidth) + "-" + Pad(day, DefaultWidth)
  }

  /** `HH:MM:SS.mmm`. */
  function TimeString(hours: nat, minutes: nat, seconds: nat, millis: nat): string {
    Pad(hours, DefaultWidth) + ":" + Pad(minutes, DefaultWidth) + ":" + Pad(seconds, DefaultWidth) + "." + Pad(millis, 3)
  }

  /** A four-digit year gives a ten-character date whose fields read back as
      the year, the month plus one and the day. */
  lemma DateLayout(year: nat, month: nat, day: nat)
    requires 1000 <= year < 10000 && month < 12 && day < 100
    ensures var d := DateString(year, month, day);
      |d| == 10 && d[4] == '-' && d[7] == '-'
      && DecimalValue(d[..4]) == year && DecimalValue(d[5..7]) == month + 1 && DecimalValue(d[8..]) == day
  {
    var y := NatToDecimal(year);
    var m := Pad(month + 1, DefaultWidth);
    var dd := Pad(day, DefaultWidth);
    DecimalWidth(year);
    DecimalWidth(month + 1);
    DecimalWidth(day);
    PadWidth(month + 1, DefaultWidth);
    PadWidth(day, DefaultWidth);
    DecimalRoundTrip(year);
    Separated(y, "-", m, "-", dd);
  }

  /** Hours, minutes and seconds below 100 and milliseconds below 1000 give a
      twelve-character time whose fields read back as those values. */
  lemma TimeLayout(hours: nat, minutes: nat, seconds: nat, millis: nat)
    requires hours < 100 && minutes < 100 && seconds < 100 && millis < 1000
    ensures var t := TimeString(hours, minutes, seconds, millis);
      |t| == 12 && t[2] == ':' && t[5] == ':' && t[8] == '.'
      && DecimalValue(t[..2]) == hours && DecimalValue(t[3..5]) == minutes
      && DecimalValue(t[6..8]) == seconds && DecimalValue(t[9..]) == millis
  {
    var h := Pad(hours, DefaultWidth);
    var m := Pad(minutes, DefaultWidth);
    var s := Pad(seconds, DefaultWidth);
    var ms := Pad(millis, 3);
    DecimalWidth(hours);
    DecimalWidth(minutes);
    DecimalWidth(seconds);
    DecimalWidth(millis);
    PadWidth(hours, DefaultWidth);
    PadWidth(minutes, DefaultWidth);
    PadWidth(seconds, DefaultWidth);
    PadWidth(millis, 3);
    var t := TimeString(hours, minutes, seconds, millis);
    TimeParts(h, m, s, ms);
    assert t[..2] == h && t[3..5] == m && t[6..8] == s && t[9..] == ms;
  }

  /** Where the fields of a time text with two-digit parts sit. */
  lemma TimeParts(h: string, m: string, s: string, ms: string)
    requires |h| == 2 && |m| == 2 && |s| == 2 && |ms| == 3
    ensures var t := h + ":" + m + ":" + s + "." + ms;
      |t| == 12 && t[2] == ':' && t[5] == ':' && t[8] == '.'
      && t[..2] == h && t[3..5] == m && t[6..8] == s && t[9..] == ms
  {
    var hm := h + ":" + m;
    Separated(h, ":", m, "", "");
    assert hm + "" + "" == hm;
    Separated(hm, ":", s, ".", ms);
  }

  /** Where the parts of `a + x + b + y + c` sit. */
  lemma Separated(a: string, x: string, b: string, y: string, c: string)
    ensures var t := a + x + b + y + c;
      var i := |a| + |x|;
      var j := i + |b| + |y|;
      |t| == j + |c| && t[..|a|] == a && t[|a|..i] == x && t[i..i + |b|] == b
      && t[i + |b|..j] == y && t[j..] == c
  {
  }

  /** `date time`, the timestamp between the first brackets. */
  function Stamp(year: nat, month: nat, day: nat, hours: nat, minutes: nat, seconds: nat, millis: nat): string {
    DateString(year, month, day) + " " + TimeString(hours, minutes, seconds, millis)
  }

  /** `[<date> <time>] [<tag>] [<level>] <msg>`. */
  function LogLine(level: LogLevel, tag: string, msg: string, stamp: string): string {
    "[" + stamp + "] [" + tag + "] [" + LevelName(level) + "] " + msg
  }

  /** The level a level name stands for. */
  function LevelOf(name: string): Option<LogLevel> {
    if name == "error" then Some(Error)
    else if name == "warn" then Some(Warn)
    else if name == "info" then Some(Info)
    else if name == "debug" then Some(Debug)
    else None
  }

  /** Splits `s` at the first occurrence of `sep`'s first character, which
      must start `sep`: the field before it and the text after `sep`. */
  function ReadField(s: string, sep: string): Option<(string, string)>
    requires sep != []
  {
    var i := IndexOf(s, sep[0]);
    if HasAt(s, i, sep) then Some((s[..i], s[i + |sep|..])) else None
  }

  /** Splits a line into its timestamp, tag, level name and message: each
      bracketed field ends at the first `]` after its `[`, and the message is
      everything after the level's `] `. */
  function LineFields(line: string): Option<(string, string, string, string)> {
    if !HasAt(line, 0, "[") then None
    else
      match ReadField(line[1..], "] [")
      case None => None
      case Some((stamp, rest)) =>
        match ReadField(rest, "] [")
        case None => None
        case Some((tag, rest')) =>
          match ReadField(rest', "] ")
          case None => None
          case Some((name, msg)) => Some((stamp, tag, name, msg))
  }

  /** Reads a line back into its level, tag, message and timestamp. */
  function ReadLogLine(line: string): Option<(LogLevel, string, string, string)> {
    match LineFields(line)
    case None => None
    case Some((stamp, tag, name, msg)) =>
      match LevelOf(name)
      case None => None
      case Some(level) => Some((level, tag, msg, stamp))
  }

  /** A timestamp and a tag free of `]` are read back from the line with the
      level and the whole message, whatever the message holds. */
  lemma LogLineRoundTrip(level: LogLevel, tag: string, msg: string, stamp: string)
    requires ']' !in stamp && ']' !in tag
    ensures ReadLogLine(LogLine(level, tag, msg, stamp)) == Some((level, tag, msg, stamp))
  {
    LevelNameRead(level);
    FieldsRoundTrip(stamp, tag, LevelName(level), msg);
  }

  /** Each level name is read back as its level, and holds no `]`. */
  lemma LevelNameRead(level: LogLevel)
    ensures LevelOf(LevelName(level)) == Some(level) && ']' !in LevelName(level)
  {
  }

  lemma FieldsRoundTrip(stamp: string, tag: string, name: string, msg: string)
    requires ']' !in stamp && ']' !in tag && ']' !in name
    ensures LineFields("[" + stamp + "] [" + tag + "] [" + name + "] " + msg) == Some((stamp, tag, name, msg))
  {
    var r2 := name + "] " + msg;
    var r1 := tag + "] [" + r2;
    var line := "[" + stamp + "] [" + tag + "] [" + name + "] " + msg;
    assert line == "[" + (stamp + "] [" + r1);
    assert line[1..] == stamp + "] [" + r1;
    FieldOf(stamp, "] [", r1);
    FieldOf(tag, "] [", r2);
    FieldOf(name, "] ", msg);
  }

  /** A field that lacks the separator's first character is read off the
      front of `f + sep + rest`. */
  lemma FieldOf(f: string, sep: string, rest: string)
    requires sep != [] && sep[0] !in f
    ensures ReadField(f + sep + rest, sep) == Some((f, rest))
  {
    var s := f + sep + rest;
    forall n | 0 <= n < |f| ensures s[n] != sep[0] {
      assert s[n] == f[n];
    }
    assert s[|f|] == sep[0];
    assert s[..|f|] == f;
    assert s[|f|..|f| + |sep|] == sep;
    assert s[|f| + |sep|..] == rest;
  }

  /** A line stamped from the clock's parts is read back whole for any tag
      free of `]`. */
  lemma StampedLineRoundTrip(level: LogLevel, tag: string, msg: string,
                             year: nat, month: nat, day: nat, hours: nat, minutes: nat, seconds: nat, millis: nat)
    requires ']' !in tag
    ensures var stamp := Stamp(year, month, day, hours, minutes, seconds, millis);
      ReadLogLine(LogLine(level, tag, msg, stamp)) == Some((level, tag, msg, stamp))
  {
    StampUnbracketed(year, month, day, hours, minutes, seconds, millis);
    LogLineRoundTrip(level, tag, msg, Stamp(year, month, day, hours, minutes, seconds, millis));
  }

  /** The timestamp holds digits and the separators `-`, ` `, `:` and `.`
      only, so never a `]`. */
  lemma StampUnbracketed(year: nat, month: nat, day: nat, hours: nat, minutes: nat, seconds: nat, millis: nat)
    ensures ']' !in Stamp(year, month, day, hours, minutes, seconds, millis)
  {
    NoBracket(NatToDecimal(year));
    PadNoBracket(month + 1, DefaultWidth);
    PadNoBracket(day, DefaultWidth);
    PadNoBracket(hours, DefaultWidth);
    PadNoBracket(minutes, DefaultWidth);
    PadNoBracket(seconds, DefaultWidth);
    PadNoBracket(millis, 3);
  }

  lemma PadNoBracket(n: nat, to: nat)
    ensures ']' !in Pad(n, to)
  {
    PadValue(n, to);
    NoBracket(Pad(n, to));
  }

  lemma NoBracket(s: string)
    requires AllDigits(s)
    ensures ']' !in s
  {
    forall k | 0 <= k < |s| ensures s[k] != ']' {
      assert IsDigit(s[k]);
    }
  }

  /** With dates in range the timestamp is 23 characters, so the tag starts
      at a fixed column. */
  lemma StampWidth(year: nat, month: nat, day: nat, hours: nat, minutes: nat, seconds: nat, millis: nat)
    requires 1000 <= year < 10000 && month < 12 && day < 100
    requires hours < 100 && minutes < 100 && seconds < 100 && millis < 1000
    ensures |Stamp(year, month, day, hours, minutes, seconds, millis)| == 23
  {
    DateLayout(year, month, day);
    TimeLayout(hours, minutes, seconds, millis);
  }
}
