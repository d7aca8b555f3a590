/** The envinject job property of `src/jenkins/envinjectPlugin.ts`: the
    properties become `k=v` lines, which are put with the plugin version into
    the XML text of an `EnvInjectJobProperty` element. Parsing that text into
    a node is not part of this model. */
module EnvinjectPlugin {
  import opened Strings
  import opened Wrappers

  const ShortName: string := "envinject"

  /** A property value as the untyped `properties` object may hold it. */
  datatype PropertyValue = Text(s: string) | Number(n: int) | Boolean(b: bool) | Null | Undefined

  /** How `${v}` renders a value. */
  function Shown(v: PropertyValue): string {
    match v
    case Text(s) => s
    case Number(n) => IntToDecimal(n)
    case Boolean(b) => if b then "true" else "false"
    case Null => "null"
    case Undefined => "undefined"
  }

  /** Only a text value can bring a newline, `=` or `<` into the properties. */
  lemma ShownPlain(v: PropertyValue)
    requires !v.Text?
    ensures '\n' !in Shown(v) && '=' !in Shown(v) && '<' !in Shown(v)
  {
    if v.Number? {
      var d := NatToDecimal(if v.n < 0 then -v.n else v.n);
      assert forall k :: 0 <= k < |d| ==> '0' <= d[k] <= '9';
    }
  }

  /** `${k}=${v}` for one property. */
  function EntryLine(e: (string, PropertyValue)): string {
    e.0 + "=" + Shown(e.1)
  }

  function EntryLines(entries: seq<(string, PropertyValue)>): (r: seq<string>)
    ensures |r| == |entries| && forall i :: 0 <= i < |entries| ==> r[i] == EntryLine(entries[i])
  {
    seq(|entries|, i requires 0 <= i < |entries| => EntryLine(entries[i]))
  }

  /** The entries with every value rendered as text. */
  function ShownEntries(entries: seq<(string, PropertyValue)>): (r: seq<(string, string)>)
    ensures |r| == |entries|
    ensures forall i :: 0 <= i < |entries| ==> r[i] == (entries[i].0, Shown(entries[i].1))
  {
    seq(|entries|, i requires 0 <= i < |entries| => (entries[i].0, Shown(entries[i].1)))
  }

  /** The properties, one `k=v` line each in entry order, joined by `\n`. */
  function PropertiesConfig(entries: seq<(string, PropertyValue)>): string {
    Join(EntryLines(entries), '\n')
  }

  /** Reads one `k=v` line back: the key ends at the first `=`. */
  function DecodeLine(line: string): (string, string) {
    var i := IndexOf(line, '=');
    (line[..i], if i < |line| then line[i + 1..] else "")
  }

  /** Reads a properties text back into its entries; the empty text has none. */
  function DecodeProperties(text: string): seq<(string, string)> {
    if text == "" then []
    else
      var lines := Split(text, '\n');
      seq(|lines|, i requires 0 <= i < |lines| => DecodeLine(lines[i]))
  }

  /** Entries that survive the text form: no key holds `=` or a newline and
      no value a newline. */
  predicate Plain(entries: seq<(string, PropertyValue)>) {
    forall i :: 0 <= i < |entries| ==> '=' !in entries[i].0 && '\n' !in entries[i].0 && '\n' !in Shown(entries[i].1)
  }

  /** No properties give an empty text. */
  lemma PropertiesEmpty()
    ensures PropertiesConfig([]) == ""
  {
    assert EntryLines([]) == [];
  }

  /** Each line of the text is one entry's `k=v`, in entry order. */
  lemma PropertiesLines(entries: seq<(string, PropertyValue)>)
    requires entries != [] && Plain(entries)
    ensures Split(PropertiesConfig(entries), '\n') == EntryLines(entries)
  {
    var lines := EntryLines(entries);
    forall k | 0 <= k < |lines| ensures '\n' !in lines[k] {
      assert lines[k] == entries[k].0 + "=" + Shown(entries[k].1);
    }
    SplitJoin(lines, '\n');
  }

  lemma DecodeEntryLine(e: (string, PropertyValue))
    requires '=' !in e.0
    ensures DecodeLine(EntryLine(e)) == (e.0, Shown(e.1))
  {
    var line := EntryLine(e);
    assert line[|e.0|] == '=';
    assert IndexOf(line, '=') == |e.0|;
    assert line[..|e.0|] == e.0;
    assert line[|e.0| + 1..] == Shown(e.1);
  }

  /** The text gives back the entries, each value as it was rendered. */
  lemma PropertiesRoundTrip(entries: seq<(string, PropertyValue)>)
    requires Plain(entries)
    ensures DecodeProperties(PropertiesConfig(entries)) == ShownEntries(entries)
  {
    if entries == [] {
      PropertiesEmpty();
    } else {
      var text := PropertiesConfig(entries);
      PropertiesLines(entries);
      forall i | 0 <= i < |entries| ensures DecodeProperties(text)[i] == ShownEntries(entries)[i] {
        DecodeEntryLine(entries[i]);
      }
    }
  }

  const Head: string := "\n    <EnvInjectJobProperty plugin=\"envinject@"
  const Open: string := "\">\n      <info>\n        <propertiesContent>"
  const OnFlag: string := "<on>true</on>"
  const KeepSystemFlag: string := "<keepJenkinsSystemVariables>true</keepJenkinsSystemVariables>"
  const KeepBuildFlag: string := "<keepBuildVariables>true</keepBuildVariables>"
  const OverrideFlag: string := "<overrideBuildParameters>false</overrideBuildParameters>"
  const Indent: string := "\n      "
  /** Everything after the properties: the fixed flags and the closing tag. */
  const Tail: string := "</propertiesContent>" + Indent + "</info>"
    + Indent + OnFlag + Indent + KeepSystemFlag + Indent + KeepBuildFlag + Indent + OverrideFlag
    + "\n  </EnvInjectJobProperty>"

  /** The XML text handed to the parser. */
  function XmlConfigText(version: string, entries: seq<(string, PropertyValue)>): string {
    Head + version + Open + PropertiesConfig(entries) + Tail
  }

  /** Splits `text` as `h + v + o + props + t`: `v` runs to the first
      occurrence of `o`'s first character after `h`, and `props` to the first
      occurrence of `t`'s first character after `o`. */
  function Frame(text: string, h: string, o: string, t: string): Option<(string, string)>
    requires o != [] && t != []
  {
    if !HasAt(text, 0, h) then None
    else
      var q := IndexFrom(text, o[0], |h|);
      if !HasAt(text, q, o) then None
      else
        var p := q + |o|;
        var lt := IndexFrom(text, t[0], p);
        if HasAt(text, lt, t) && lt + |t| == |text| then Some((text[|h|..q], text[p..lt]))
        else None
  }

  /** Reads the version and the properties back from an XML text: the version
      runs to the first `"` after `envinject@`, the properties to the first
      `<` after `<propertiesContent>`, and the rest must be exactly the closing
      tag with the fixed flags. */
  function ReadXmlConfig(text: string): Option<(string, seq<(string, string)>)> {
    match Frame(text, Head, Open, Tail)
    case None => None
    case Some((version, props)) => Some((version, DecodeProperties(props)))
  }

  /** Entries whose keys and rendered values hold no `<`. */
  predicate Unmarked(entries: seq<(string, PropertyValue)>) {
    forall i :: 0 <= i < |entries| ==> '<' !in entries[i].0 && '<' !in Shown(entries[i].1)
  }

  /** The version, the properties and the fixed flags are all read back from
      the XML text. */
  lemma XmlConfigRoundTrip(version: string, entries: seq<(string, PropertyValue)>)
    requires '"' !in version && Plain(entries) && Unmarked(entries)
    ensures ReadXmlConfig(XmlConfigText(version, entries)) == Some((version, ShownEntries(entries)))
  {
    var lines := EntryLines(entries);
    forall k | 0 <= k < |lines| ensures '<' !in lines[k] {
      assert lines[k] == entries[k].0 + "=" + Shown(entries[k].1);
    }
    JoinLacks(lines, '\n', '<');
    FrameFields(Head, version, Open, PropertiesConfig(entries), Tail);
    PropertiesRoundTrip(entries);
  }

  /** `Frame` finds each field of `h + v + o + props + t` when the stop
      characters do not occur early. */
  lemma FrameFields(h: string, v: string, o: string, props: string, t: string)
    requires o != [] && t != [] && o[0] !in v && t[0] !in props
    ensures Frame(h + v + o + props + t, h, o, t) == Some((v, props))
  {
    var text := h + v + o + props + t;
    var q := |h| + |v|;
    var p := q + |o|;
    var lt := p + |props|;
    assert text[..|h|] == h;
    assert text[|h|..q] == v;
    assert text[q..p] == o;
    assert text[p..lt] == props;
    assert text[lt..] == t;
    IndexFromIs(text, o[0], |h|, q);
    IndexFromIs(text, t[0], p, lt);
  }
}
