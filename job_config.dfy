/** The job configuration rewrite of `PipelineBuild.updateJobScript`: the
    job's XML, as the object tree `xml2js` parses it into, gets the pipeline
    script at `flow-definition.definition[0].script` and a zero
    `flow-definition.quietPeriod`. Property writes follow JavaScript in strict
    mode: writing through `undefined` or onto a primitive is a `TypeError`. */
module JobConfig {
  import opened Wrappers

  /** A JavaScript value as parsed from XML or JSON. Arrays are objects keyed
      by their indices, as JavaScript property access sees them. */
  datatype Js = Str(s: string) | Num(n: int) | Bool(b: bool) | Obj(fields: map<string, Js>)

  /** The value at a property path (`t[p0][p1]...`), `None` for `undefined`. */
  function Get(t: Js, path: seq<string>): Option<Js>
    decreases |path|
  {
    if path == [] then Some(t)
    else if t.Obj? && path[0] in t.fields then Get(t.fields[path[0]], path[1..])
    else None
  }

  /** Assigning at `path` succeeds: every property read on the way yields an
      object, and so does the one whose property is written. */
  predicate CanPut(t: Js, path: seq<string>)
    decreases |path|
  {
    path != [] && t.Obj? && (|path| == 1 || (path[0] in t.fields && CanPut(t.fields[path[0]], path[1..])))
  }

  /** `t[p0]...[pn] = v`. */
  function Put(t: Js, path: seq<string>, v: Js): (r: Js)
    requires CanPut(t, path)
    ensures r.Obj?
    decreases |path|
  {
    if |path| == 1 then Obj(t.fields[path[0] := v])
    else Obj(t.fields[path[0] := Put(t.fields[path[0]], path[1..], v)])
  }

  predicate IsPrefix(a: seq<string>, b: seq<string>) {
    |a| <= |b| && b[..|a|] == a
  }

  /** Two paths one of which leads through the other. */
  predicate Comparable(a: seq<string>, b: seq<string>) {
    IsPrefix(a, b) || IsPrefix(b, a)
  }

  /** An assignment can be made exactly when the value holding the written
      property is an object. */
  lemma {:induction false} CanPutParent(t: Js, path: seq<string>)
    requires path != []
    ensures CanPut(t, path) <==> Get(t, path[..|path| - 1]).Some? && Get(t, path[..|path| - 1]).value.Obj?
    decreases |path|
  {
    if |path| > 1 && t.Obj? && path[0] in t.fields {
      CanPutParent(t.fields[path[0]], path[1..]);
      assert path[..|path| - 1][1..] == path[1..][..|path| - 2];
    }
  }

  /** After the assignment the path holds the assigned value. */
  lemma {:induction false} PutGet(t: Js, path: seq<string>, v: Js)
    requires CanPut(t, path)
    ensures Get(Put(t, path, v), path) == Some(v)
    decreases |path|
  {
    if |path| > 1 {
      PutGet(t.fields[path[0]], path[1..], v);
    }
  }

  /** The assignment changes no value at a path that neither leads to the
      assigned property nor through it. */
  lemma {:induction false} PutOther(t: Js, path: seq<string>, v: Js, p: seq<string>)
    requires CanPut(t, path)
    requires !Comparable(path, p)
    ensures Get(Put(t, path, v), p) == Get(t, p)
    decreases |path|
  {
    assert p != [];
    if p[0] == path[0] {
      PutOther(t.fields[path[0]], path[1..], v, p[1..]);
    }
  }

  const FlowDefinition: string := "flow-definition"
  const ScriptPath: seq<string> := [FlowDefinition, "definition", "0", "script"]
  const QuietPeriodPath: seq<string> := [FlowDefinition, "quietPeriod"]

  /** The message of the error a failed property write raises. */
  const TypeErrorMessage: string := "TypeError"

  /** The tree pushed back as the job's configuration, or the `TypeError` the
      first assignment raises when the tree lacks an object at
      `flow-definition.definition[0]`. */
  function UpdateJobScript(parsed: Js, script: string): Result<Js> {
    if !CanPut(parsed, ScriptPath) then Err(TypeErrorMessage)
    else
      var withScript := Put(parsed, ScriptPath, Str(script));
      Ok(Put(withScript, QuietPeriodPath, Num(0)))
  }

  /** The rewrite fails exactly when `flow-definition.definition[0]` is not an
      object. */
  lemma UpdateJobScriptFails(parsed: Js, script: string)
    ensures UpdateJobScript(parsed, script).Err? <==>
      !(Get(parsed, ScriptPath[..3]).Some? && Get(parsed, ScriptPath[..3]).value.Obj?)
    ensures UpdateJobScript(parsed, script).Err? ==> UpdateJobScript(parsed, script).error == TypeErrorMessage
  {
    CanPutParent(parsed, ScriptPath);
  }

  /** A successful rewrite holds the script and a zero quiet period. */
  lemma UpdateJobScriptSets(parsed: Js, script: string)
    requires UpdateJobScript(parsed, script).Ok?
    ensures Get(UpdateJobScript(parsed, script).value, ScriptPath) == Some(Str(script))
    ensures Get(UpdateJobScript(parsed, script).value, QuietPeriodPath) == Some(Num(0))
  {
    var withScript := Put(parsed, ScriptPath, Str(script));
    PutGet(parsed, ScriptPath, Str(script));
    PutGet(withScript, QuietPeriodPath, Num(0));
    assert !Comparable(QuietPeriodPath, ScriptPath) by {
      assert ScriptPath[..2] != QuietPeriodPath;
    }
    PutOther(withScript, QuietPeriodPath, Num(0), ScriptPath);
  }

  /** Every other value of the configuration is left as it was. */
  lemma UpdateJobScriptKeeps(parsed: Js, script: string, p: seq<string>)
    requires UpdateJobScript(parsed, script).Ok?
    requires !Comparable(ScriptPath, p) && !Comparable(QuietPeriodPath, p)
    ensures Get(UpdateJobScript(parsed, script).value, p) == Get(parsed, p)
  {
    var withScript := Put(parsed, ScriptPath, Str(script));
    PutOther(parsed, ScriptPath, Str(script), p);
    PutOther(withScript, QuietPeriodPath, Num(0), p);
  }
}
