/** The step sequence of `PipelineBuild.start()` against a Jenkins server
    whose answers are given: rewrite the job's configuration, read the next
    build number, trigger the job, look the build up at most
    `BUILD_FETCH_RETRIES` times, then attach the log stream. Every failure
    inside the sequence is caught and handed to the done handler. */
module PipelineStart {
  import opened Wrappers
  import opened JobConfig

  const BuildFetchRetries: nat := 10
  const NotStartedMessage: string := "Could not start build"

  /** A request a build sends to the server, in the order sent. */
  datatype RemoteCall =
    | FetchConfig(job: string)
    | PushConfig(job: string, config: Js)
    | GetJob(job: string)
    | Trigger(job: string, parameters: Option<Js>)
    | GetBuild(job: string, number: Option<int>)
    | StreamLog(job: string, number: Option<int>)
    | FetchLog(job: string, number: Option<int>)
    | StopBuild(job: string, number: Option<int>)

  /** The server's answers to one `start()`: the job's configuration as
      parsed (or the error fetching or parsing it raised), the answer to
      pushing it back, the job's `nextBuildNumber` (which may be missing), the
      answer to the trigger, and the answer to each build lookup. A lookup
      beyond `lookups` throws. */
  datatype Server = Server(
    config: Result<Js>,
    push: Result<()>,
    jobInfo: Result<Option<int>>,
    trigger: Result<()>,
    lookups: seq<Lookup>)

  /** What one `build.get` does: throw, as it does while the build does not
      exist yet, or resolve, with a build object (`build`) or with a falsy
      value. */
  datatype Lookup = Throws | Resolves(build: bool)

  /** What `start()` leaves behind: the build number, whether the build runs,
      whether a log stream is attached, the requests sent and the error the
      done handler is given, if any. */
  datatype Started = Started(
    buildNumber: Option<int>,
    running: bool,
    streaming: bool,
    calls: seq<RemoteCall>,
    failure: Option<string>)

  /** The `i`-th lookup resolves, which ends the retry loop. */
  predicate Answers(lookups: seq<Lookup>, i: nat) {
    i < |lookups| && lookups[i].Resolves?
  }

  /** The index of the first lookup below `limit` that resolves, or `limit`. */
  function FirstAnswer(lookups: seq<Lookup>, from: nat, limit: nat): nat
    decreases limit - from
  {
    if from >= limit then limit
    else if Answers(lookups, from) then from
    else FirstAnswer(lookups, from + 1, limit)
  }

  /** Some lookup of the retry loop resolves. */
  predicate Answered(lookups: seq<Lookup>) {
    FirstAnswer(lookups, 0, BuildFetchRetries) < BuildFetchRetries
  }

  /** The retry loop ends with a build object: the lookup that ends it
      resolves to one. A lookup that resolves to a falsy value ends the loop
      without a build. */
  predicate Found(lookups: seq<Lookup>) {
    var f := FirstAnswer(lookups, 0, BuildFetchRetries);
    f < BuildFetchRetries && f < |lookups| && lookups[f] == Resolves(true)
  }

  /** The lookups the retry loop makes: up to and including the first that
      resolves, and all of them when every one throws. */
  function Attempts(lookups: seq<Lookup>): nat {
    var f := FirstAnswer(lookups, 0, BuildFetchRetries);
    if f < BuildFetchRetries then f + 1 else BuildFetchRetries
  }

  function Repeated(c: RemoteCall, n: nat): (r: seq<RemoteCall>)
    ensures |r| == n
  {
    if n == 0 then [] else Repeated(c, n - 1) + [c]
  }

  /** `o` with the requests `c` sent before it. */
  function After(c: seq<RemoteCall>, o: Started): Started {
    o.(calls := c + o.calls)
  }

  /** The steps after the guard. `connected` says whether the build has a
      client; without one the first request raises a `TypeError`. */
  function StartSteps(job: string, script: string, parameters: Option<Js>, connected: bool, s: Server): Started {
    if !connected then Started(None, false, false, [], Some(TypeErrorMessage))
    else
      match s.config
      case Err(e) => Started(None, false, false, [FetchConfig(job)], Some(e))
      case Ok(tree) => After([FetchConfig(job)], Rewrite(job, script, parameters, tree, s))
  }

  /** The steps once the configuration `tree` has been fetched. */
  function Rewrite(job: string, script: string, parameters: Option<Js>, tree: Js, s: Server): Started {
    match UpdateJobScript(tree, script)
    case Err(e) => Started(None, false, false, [], Some(e))
    case Ok(updated) => After([PushConfig(job, updated)], Launch(job, parameters, s))
  }

  /** The steps once the rewritten configuration has been pushed. */
  function Launch(job: string, parameters: Option<Js>, s: Server): Started {
    match s.push
    case Err(e) => Started(None, false, false, [], Some(e))
    case Ok(_) =>
      match s.jobInfo
      case Err(e) => Started(None, false, false, [GetJob(job)], Some(e))
      case Ok(number) =>
        match s.trigger
        case Err(e) => Started(number, false, false, [GetJob(job), Trigger(job, parameters)], Some(e))
        case Ok(_) => After([GetJob(job), Trigger(job, parameters)], LookUp(job, number, s.lookups))
  }

  /** The retry loop and what follows it. */
  function LookUp(job: string, number: Option<int>, lookups: seq<Lookup>): Started {
    var tried := Repeated(GetBuild(job, number), Attempts(lookups));
    if !Found(lookups) then Started(number, false, false, tried, Some(NotStartedMessage))
    else Started(number, true, true, tried + [StreamLog(job, number)], None)
  }

  /** The first answer from `from` is the first index at which a lookup
      resolves, every lookup before it throwing. */
  lemma {:induction false} FirstAnswerSpec(lookups: seq<Lookup>, from: nat, limit: nat)
    requires from <= limit
    ensures from <= FirstAnswer(lookups, from, limit) <= limit
    ensures forall i: nat :: from <= i < FirstAnswer(lookups, from, limit) ==> !Answers(lookups, i)
    ensures FirstAnswer(lookups, from, limit) < limit ==> Answers(lookups, FirstAnswer(lookups, from, limit))
    decreases limit - from
  {
    if from < limit && !Answers(lookups, from) {
      FirstAnswerSpec(lookups, from + 1, limit);
    }
  }

  /** An index with those two properties is the first answer. */
  lemma {:induction false} FirstAnswerIs(lookups: seq<Lookup>, from: nat, limit: nat, k: nat)
    requires from <= k <= limit
    requires forall i: nat :: from <= i < k ==> !Answers(lookups, i)
    requires k < limit ==> Answers(lookups, k)
    ensures FirstAnswer(lookups, from, limit) == k
    decreases k - from
  {
    if from < k {
      FirstAnswerIs(lookups, from + 1, limit, k);
    }
  }

  /** The retry loop makes between one and `BuildFetchRetries` lookups; it
      stops at the first that resolves, and has the build exactly when that
      one resolves to a build object; it makes them all when every one
      throws. */
  lemma AttemptsSpec(lookups: seq<Lookup>)
    ensures 1 <= Attempts(lookups) <= BuildFetchRetries
    ensures forall i: nat :: i < Attempts(lookups) - 1 ==> !Answers(lookups, i)
    ensures Answered(lookups) <==> Answers(lookups, Attempts(lookups) - 1)
    ensures Found(lookups) <==> Answers(lookups, Attempts(lookups) - 1) && lookups[Attempts(lookups) - 1].build
    ensures !Answered(lookups) ==> Attempts(lookups) == BuildFetchRetries
  {
    FirstAnswerSpec(lookups, 0, BuildFetchRetries);
  }

  /** A loop that stops after `n` lookups, at one that resolves or at the
      limit, has made the loop's attempts, and has a build exactly when the
      last one resolved to a build object. */
  lemma LookUpAt(lookups: seq<Lookup>, n: nat)
    requires 1 <= n <= BuildFetchRetries
    requires forall i: nat :: i < n - 1 ==> !Answers(lookups, i)
    requires Answers(lookups, n - 1) || n == BuildFetchRetries
    ensures Attempts(lookups) == n
    ensures Found(lookups) <==> Answers(lookups, n - 1) && lookups[n - 1].build
  {
    FirstAnswerIs(lookups, 0, BuildFetchRetries, if Answers(lookups, n - 1) then n - 1 else BuildFetchRetries);
  }

  /** A lookup that resolves to a falsy value after every earlier one threw
      ends the loop at once, without a build. */
  lemma FalsyAnswer(lookups: seq<Lookup>, k: nat)
    requires k < BuildFetchRetries && k < |lookups| && lookups[k] == Resolves(false)
    requires forall i: nat :: i < k ==> !Answers(lookups, i)
    ensures Attempts(lookups) == k + 1 && Answered(lookups) && !Found(lookups)
  {
    FirstAnswerIs(lookups, 0, BuildFetchRetries, k);
  }

  /** The number of build lookups among `calls`. */
  function Lookups(calls: seq<RemoteCall>): nat {
    if calls == [] then 0
    else Lookups(calls[..|calls| - 1]) + (if calls[|calls| - 1].GetBuild? then 1 else 0)
  }

  lemma {:induction false} LookupsAppend(a: seq<RemoteCall>, b: seq<RemoteCall>)
    ensures Lookups(a + b) == Lookups(a) + Lookups(b)
    decreases |b|
  {
    if b == [] {
      assert a + b == a;
    } else {
      assert (a + b)[..|a + b| - 1] == a + b[..|b| - 1];
      LookupsAppend(a, b[..|b| - 1]);
    }
  }

  lemma {:induction false} LookupsRepeated(job: string, number: Option<int>, n: nat)
    ensures Lookups(Repeated(GetBuild(job, number), n)) == n
  {
    if n > 0 {
      LookupsRepeated(job, number, n - 1);
      assert Repeated(GetBuild(job, number), n)[..n - 1] == Repeated(GetBuild(job, number), n - 1);
    }
  }

  /** Every step before the lookups succeeds. */
  predicate Triggers(script: string, connected: bool, s: Server) {
    connected && s.config.Ok? && UpdateJobScript(s.config.value, script).Ok?
    && s.push.Ok? && s.jobInfo.Ok? && s.trigger.Ok?
  }

  /** The requests of a start in which every step succeeds, in order. */
  function FullTrace(job: string, parameters: Option<Js>, updated: Js, number: Option<int>, lookups: seq<Lookup>): seq<RemoteCall> {
    [FetchConfig(job), PushConfig(job, updated), GetJob(job), Trigger(job, parameters)]
    + Repeated(GetBuild(job, number), Attempts(lookups)) + [StreamLog(job, number)]
  }

  /** The build runs exactly when every step succeeds and a lookup finds the
      build; it then streams its log, the stream is the last request, and the
      done handler is not called. Otherwise it is given exactly one error. */
  lemma StartRunning(job: string, script: string, parameters: Option<Js>, connected: bool, s: Server)
    ensures var o := StartSteps(job, script, parameters, connected, s);
      (o.running <==> Triggers(script, connected, s) && Found(s.lookups))
      && o.streaming == o.running
      && (o.running <==> o.failure.None?)
      && (o.running ==> |o.calls| > 0 && o.calls[|o.calls| - 1] == StreamLog(job, o.buildNumber))
  {
  }

  /** No lookup happens unless the trigger succeeded, and then exactly the
      retry loop's, never more than `BuildFetchRetries`. */
  lemma StartLookupCount(job: string, script: string, parameters: Option<Js>, connected: bool, s: Server)
    ensures Lookups(StartSteps(job, script, parameters, connected, s).calls)
      == if Triggers(script, connected, s) then Attempts(s.lookups) else 0
    ensures Lookups(StartSteps(job, script, parameters, connected, s).calls) <= BuildFetchRetries
  {
    AttemptsSpec(s.lookups);
    if connected && s.config.Ok? {
      var r := Rewrite(job, script, parameters, s.config.value, s);
      LookupsAppend([FetchConfig(job)], r.calls);
      LookupsSnoc([], FetchConfig(job));
      if UpdateJobScript(s.config.value, script).Ok? {
        var updated := UpdateJobScript(s.config.value, script).value;
        LookupsAppend([PushConfig(job, updated)], Launch(job, parameters, s).calls);
        LookupsSnoc([], PushConfig(job, updated));
        LaunchLookups(job, parameters, s);
      }
    }
  }

  lemma LaunchLookups(job: string, parameters: Option<Js>, s: Server)
    ensures Lookups(Launch(job, parameters, s).calls)
      == if s.push.Ok? && s.jobInfo.Ok? && s.trigger.Ok? then Attempts(s.lookups) else 0
  {
    var head := [GetJob(job), Trigger(job, parameters)];
    LookupsSnoc([], GetJob(job));
    LookupsSnoc([GetJob(job)], Trigger(job, parameters));
    assert [GetJob(job)] + [Trigger(job, parameters)] == head;
    if s.push.Ok? && s.jobInfo.Ok? && s.trigger.Ok? {
      LookupsAppend(head, LookUp(job, s.jobInfo.value, s.lookups).calls);
      LookUpLookups(job, s.jobInfo.value, s.lookups);
    }
  }

  lemma LookUpLookups(job: string, number: Option<int>, lookups: seq<Lookup>)
    ensures Lookups(LookUp(job, number, lookups).calls) == Attempts(lookups)
  {
    var rs := Repeated(GetBuild(job, number), Attempts(lookups));
    LookupsRepeated(job, number, Attempts(lookups));
    LookupsSnoc(rs, StreamLog(job, number));
  }

  lemma LookupsSnoc(a: seq<RemoteCall>, c: RemoteCall)
    ensures Lookups(a + [c]) == Lookups(a) + if c.GetBuild? then 1 else 0
  {
    assert (a + [c])[..|a|] == a;
  }

  lemma {:induction false} NoLookups(calls: seq<RemoteCall>)
    requires forall c :: c in calls ==> !c.GetBuild?
    ensures Lookups(calls) == 0
  {
    if calls != [] {
      assert forall c :: c in calls[..|calls| - 1] ==> c in calls;
      NoLookups(calls[..|calls| - 1]);
    }
  }

  /** When the retry loop ends without a build the build is reported as not
      started: the done handler gets "Could not start build", no log stream
      is attached and the build does not run. All `BuildFetchRetries` lookups
      are made when every one throws. */
  lemma StartNotFound(job: string, script: string, parameters: Option<Js>, connected: bool, s: Server)
    requires Triggers(script, connected, s) && !Found(s.lookups)
    ensures var o := StartSteps(job, script, parameters, connected, s);
      o.failure == Some(NotStartedMessage) && !o.running && !o.streaming
      && (forall c :: c in o.calls ==> !c.StreamLog?)
      && Lookups(o.calls) == Attempts(s.lookups)
      && (!Answered(s.lookups) ==> Lookups(o.calls) == BuildFetchRetries)
  {
    var o := StartSteps(job, script, parameters, connected, s);
    var updated := UpdateJobScript(s.config.value, script).value;
    var number := s.jobInfo.value;
    var rs := Repeated(GetBuild(job, number), Attempts(s.lookups));
    assert o.calls == [FetchConfig(job), PushConfig(job, updated), GetJob(job), Trigger(job, parameters)] + rs;
    RepeatedMembers(GetBuild(job, number), Attempts(s.lookups));
    StartLookupCount(job, script, parameters, connected, s);
    AttemptsSpec(s.lookups);
  }

  lemma {:induction false} RepeatedMembers(c: RemoteCall, n: nat)
    ensures forall d :: d in Repeated(c, n) ==> d == c
  {
    if n > 0 {
      RepeatedMembers(c, n - 1);
    }
  }

  /** The build number is the job's `nextBuildNumber` once it has been read,
      and stays unset when an earlier step fails, in particular when the
      configuration cannot be rewritten. */
  lemma StartBuildNumber(job: string, script: string, parameters: Option<Js>, connected: bool, s: Server)
    ensures StartSteps(job, script, parameters, connected, s).buildNumber ==
      if connected && s.config.Ok? && UpdateJobScript(s.config.value, script).Ok? && s.push.Ok? && s.jobInfo.Ok?
      then s.jobInfo.value else None
  {
  }

  predicate CallsPrefix(a: seq<RemoteCall>, b: seq<RemoteCall>) {
    |a| <= |b| && b[..|a|] == a
  }

  lemma PrefixAfter(c: seq<RemoteCall>, a: seq<RemoteCall>, b: seq<RemoteCall>)
    requires CallsPrefix(a, b)
    ensures CallsPrefix(c + a, c + b)
    ensures c + a == c + b <==> a == b
  {
    assert (c + b)[..|c + a|] == c + b[..|a|];
    if c + a == c + b {
      assert a == (c + a)[|c|..];
    }
  }

  /** The requests after the push, when every step succeeds. */
  function LaunchTrace(job: string, parameters: Option<Js>, number: Option<int>, lookups: seq<Lookup>): seq<RemoteCall> {
    [GetJob(job), Trigger(job, parameters)] + Repeated(GetBuild(job, number), Attempts(lookups)) + [StreamLog(job, number)]
  }

  lemma LaunchOrder(job: string, parameters: Option<Js>, s: Server)
    ensures var o := Launch(job, parameters, s);
      var full := LaunchTrace(job, parameters, if s.jobInfo.Ok? then s.jobInfo.value else None, s.lookups);
      CallsPrefix(o.calls, full) && (o.running <==> o.calls == full)
  {
    var o := Launch(job, parameters, s);
    var number := if s.jobInfo.Ok? then s.jobInfo.value else None;
    var full := LaunchTrace(job, parameters, number, s.lookups);
    var head := [GetJob(job), Trigger(job, parameters)];
    var rs := Repeated(GetBuild(job, number), Attempts(s.lookups));
    if s.push.Ok? && s.jobInfo.Ok? && s.trigger.Ok? {
      if Found(s.lookups) {
        assert o.calls == full;
      } else {
        assert o.calls == head + rs;
        assert full[..|head + rs|] == head + rs;
      }
    } else if s.push.Ok? && s.jobInfo.Ok? {
      assert full[..2] == head;
    } else if s.push.Ok? {
      assert full[..1] == [GetJob(job)];
    }
  }

  /** Once the rewrite succeeds, the requests sent are a prefix of the full
      sequence: the rewritten configuration is pushed, then the job is read,
      triggered, looked up and streamed, in that order; the build runs
      exactly when all of them were sent. */
  lemma StartTraceOrder(job: string, script: string, parameters: Option<Js>, connected: bool, s: Server)
    requires connected && s.config.Ok? && UpdateJobScript(s.config.value, script).Ok?
    ensures var o := StartSteps(job, script, parameters, connected, s);
      var number := if s.jobInfo.Ok? then s.jobInfo.value else None;
      var full := FullTrace(job, parameters, UpdateJobScript(s.config.value, script).value, number, s.lookups);
      CallsPrefix(o.calls, full) && (o.running <==> o.calls == full)
  {
    var updated := UpdateJobScript(s.config.value, script).value;
    var o := StartSteps(job, script, parameters, connected, s);
    assert o == After([FetchConfig(job), PushConfig(job, updated)], Launch(job, parameters, s));
    UpdatedTraceOrder(job, parameters, updated, s, o);
  }

  /** The same, for the result of the phases after a rewrite to `updated`. */
  lemma UpdatedTraceOrder(job: string, parameters: Option<Js>, updated: Js, s: Server, o: Started)
    requires o == After([FetchConfig(job), PushConfig(job, updated)], Launch(job, parameters, s))
    ensures var number := if s.jobInfo.Ok? then s.jobInfo.value else None;
      var full := FullTrace(job, parameters, updated, number, s.lookups);
      CallsPrefix(o.calls, full) && (o.running <==> o.calls == full)
  {
    var number := if s.jobInfo.Ok? then s.jobInfo.value else None;
    var l := Launch(job, parameters, s);
    var c := [FetchConfig(job), PushConfig(job, updated)];
    LaunchOrder(job, parameters, s);
    PrefixAfter(c, l.calls, LaunchTrace(job, parameters, number, s.lookups));
    assert FullTrace(job, parameters, updated, number, s.lookups) == c + LaunchTrace(job, parameters, number, s.lookups);
  }
}
