/** Resolution of the `jenkins-runner` settings of `src/settings.ts`: host
    configurations get their defaults and their names, and each job's
    `runWith` names are looked up among the hosts, with a warning for a job
    naming an undefined host and an error for a job left with none. The raw
    settings are given as the entries `Object.entries` yields, in order. */
module Settings {
  import opened Wrappers
  import opened Strings
  import opened Sequences
  import opened JobConfig

  datatype HostConfigRaw = HostConfigRaw(
    url: string,
    user: Option<string>,
    password: Option<string>,
    useCrumbIssuer: Option<bool>,
    rejectUnauthorizedCert: Option<bool>)

  datatype HostConfig = HostConfig(
    friendlyName: string,
    url: string,
    user: Option<string>,
    password: Option<string>,
    useCrumbIssuer: bool,
    rejectUnauthorizedCert: bool)

  /** A `runWith` field: one host name or a list of them. */
  datatype RunWith = One(name: string) | Many(names: seq<string>)

  /** A raw job; `isDefault` may hold any value, only a boolean is taken. */
  datatype JobRaw = JobRaw(isDefault: Option<Js>, runWith: RunWith, name: string, parameters: Option<Js>)

  datatype Job = Job(
    friendlyName: string,
    isDefault: bool,
    runWith: seq<HostConfig>,
    name: string,
    parameters: Option<Js>)

  const SettingsErrorMessage: string := "Errors in Settings - see log"

  /** `raw || true` on an optional boolean. */
  function OrTrue(raw: Option<bool>): bool {
    (raw.Some? && raw.value) || true
  }

  /** A flag after the spread of the raw host: the raw value when the raw
      host has one, else the `|| true` default. */
  function Spread(defaulted: bool, raw: Option<bool>): bool {
    if raw.Some? then raw.value else defaulted
  }

  /** The host configuration named `name`: defaults first, then every field
      of the raw host spread over them. */
  function ResolveHost(name: string, raw: HostConfigRaw): (h: HostConfig)
    ensures h.friendlyName == name
    ensures h.url == raw.url && h.user == raw.user && h.password == raw.password
  {
    HostConfig(name, raw.url, raw.user, raw.password,
      Spread(OrTrue(raw.useCrumbIssuer), raw.useCrumbIssuer),
      Spread(OrTrue(raw.rejectUnauthorizedCert), raw.rejectUnauthorizedCert))
  }

  /** The default of `|| true` is always `true`, so a flag keeps its raw
      value when there is one and is `true` otherwise. */
  lemma ResolveHostFlags(name: string, raw: HostConfigRaw)
    ensures ResolveHost(name, raw).useCrumbIssuer == (raw.useCrumbIssuer != Some(false))
    ensures ResolveHost(name, raw).rejectUnauthorizedCert == (raw.rejectUnauthorizedCert != Some(false))
  {
  }

  /** The map built from the resolved entries; a later entry with the same
      name replaces an earlier one, as `new Map(entries)` does. */
  function HostMap(entries: seq<(string, HostConfigRaw)>): map<string, HostConfig> {
    if entries == [] then map[]
    else
      var last := entries[|entries| - 1];
      HostMap(entries[..|entries| - 1])[last.0 := ResolveHost(last.0, last.1)]
  }

  /** The `hosts` getter; no host settings give no hosts. */
  function Hosts(rawHosts: Option<seq<(string, HostConfigRaw)>>): map<string, HostConfig> {
    if rawHosts.None? then map[] else HostMap(rawHosts.value)
  }

  /** The names of the entries. */
  function NameSet<T>(entries: seq<(string, T)>): set<string> {
    set i | 0 <= i < |entries| :: entries[i].0
  }

  predicate DistinctNames<T>(entries: seq<(string, T)>) {
    forall i, j :: 0 <= i < j < |entries| ==> entries[i].0 != entries[j].0
  }

  lemma NameSetSnoc<T>(entries: seq<(string, T)>)
    requires entries != []
    ensures NameSet(entries) == NameSet(entries[..|entries| - 1]) + {entries[|entries| - 1].0}
  {
    var init := entries[..|entries| - 1];
    forall k | k in NameSet(entries) ensures k in NameSet(init) + {entries[|entries| - 1].0} {
      var i :| 0 <= i < |entries| && entries[i].0 == k;
      if i < |init| {
        assert init[i].0 == k;
      }
    }
    forall k | k in NameSet(init) ensures k in NameSet(entries) {
      var i :| 0 <= i < |init| && init[i].0 == k;
      assert entries[i].0 == k;
    }
  }

  /** There is one host per named entry. */
  lemma {:induction false} HostMapKeys(entries: seq<(string, HostConfigRaw)>)
    ensures HostMap(entries).Keys == NameSet(entries)
  {
    if entries != [] {
      HostMapKeys(entries[..|entries| - 1]);
      NameSetSnoc(entries);
    }
  }

  /** An entry's host is its resolved raw configuration. */
  lemma {:induction false} HostMapEntry(entries: seq<(string, HostConfigRaw)>, i: nat)
    requires DistinctNames(entries) && i < |entries|
    ensures entries[i].0 in HostMap(entries)
    ensures HostMap(entries)[entries[i].0] == ResolveHost(entries[i].0, entries[i].1)
  {
    if i < |entries| - 1 {
      var init := entries[..|entries| - 1];
      assert init[i] == entries[i];
      assert entries[i].0 != entries[|entries| - 1].0;
      HostMapEntry(init, i);
    }
  }

  lemma HostsAbsent()
    ensures Hosts(None) == map[]
  {
  }

  /** The host names of a `runWith` field, as `utils.toArray` lists them. */
  function ToArray(runWith: RunWith): seq<string> {
    match runWith
    case One(name) => [name]
    case Many(names) => names
  }

  /** The names that are not defined hosts, in order. */
  function Missing(names: seq<string>, hosts: map<string, HostConfig>): seq<string> {
    if names == [] then []
    else
      var n := names[|names| - 1];
      Missing(names[..|names| - 1], hosts) + (if n in hosts then [] else [n])
  }

  /** The missing names are exactly the names that are not defined hosts. */
  lemma {:induction false} MissingMembers(names: seq<string>, hosts: map<string, HostConfig>, n: string)
    ensures n in Missing(names, hosts) <==> n in names && n !in hosts
  {
    if names != [] {
      var init := names[..|names| - 1];
      MissingMembers(init, hosts, n);
      assert names == init + [names[|names| - 1]];
    }
  }

  /** The hosts the defined names denote, in the order of the names. */
  function Found(names: seq<string>, hosts: map<string, HostConfig>): seq<HostConfig> {
    if names == [] then []
    else
      var n := names[|names| - 1];
      Found(names[..|names| - 1], hosts) + (if n in hosts then [hosts[n]] else [])
  }

  /** Looking names up distributes over concatenation, so the found hosts
      keep the order of their names. */
  lemma {:induction false} FoundAppend(a: seq<string>, b: seq<string>, hosts: map<string, HostConfig>)
    ensures Found(a + b, hosts) == Found(a, hosts) + Found(b, hosts)
    decreases |b|
  {
    if b == [] {
      assert a + b == a;
    } else {
      assert (a + b)[..|a + b| - 1] == a + b[..|b| - 1];
      FoundAppend(a, b[..|b| - 1], hosts);
    }
  }

  /** A defined name contributes its host, an undefined one nothing. */
  lemma FoundSingle(n: string, hosts: map<string, HostConfig>)
    ensures Found([n], hosts) == if n in hosts then [hosts[n]] else []
  {
    assert [n][..0] == [];
  }

  /** Every found host is the host of one of the names, and they are as many
      as the defined names. */
  lemma {:induction false} FoundHosts(names: seq<string>, hosts: map<string, HostConfig>)
    ensures forall h :: h in Found(names, hosts) ==> exists n :: n in names && n in hosts && hosts[n] == h
    ensures |Found(names, hosts)| + |Missing(names, hosts)| == |names|
  {
    if names != [] {
      var init := names[..|names| - 1];
      FoundHosts(init, hosts);
      forall h | h in Found(names, hosts)
        ensures exists n :: n in names && n in hosts && hosts[n] == h
      {
        if h in Found(init, hosts) {
          var n :| n in init && n in hosts && hosts[n] == h;
          assert n in names;
        } else {
          assert names[|names| - 1] in names;
        }
      }
    }
  }

  /** A job is left with no host exactly when none of its names is defined. */
  lemma FoundNone(names: seq<string>, hosts: map<string, HostConfig>)
    ensures Found(names, hosts) == [] <==> forall n :: n in names ==> n !in hosts
  {
    FoundHosts(names, hosts);
    if Found(names, hosts) == [] {
      assert |Missing(names, hosts)| == |names|;
      MissingAll(names, hosts);
    } else {
      var h := Found(names, hosts)[0];
      assert h in Found(names, hosts);
    }
  }

  lemma {:induction false} MissingAll(names: seq<string>, hosts: map<string, HostConfig>)
    requires |Missing(names, hosts)| == |names|
    ensures forall n :: n in names ==> n !in hosts
  {
    if names != [] {
      var init := names[..|names| - 1];
      assert |Missing(init, hosts)| <= |init| by { MissingLength(init, hosts); }
      MissingAll(init, hosts);
      assert forall n :: n in names ==> n in init || n == names[|names| - 1];
    }
  }

  lemma {:induction false} MissingLength(names: seq<string>, hosts: map<string, HostConfig>)
    ensures |Missing(names, hosts)| <= |names|
  {
    if names != [] {
      MissingLength(names[..|names| - 1], hosts);
    }
  }

  /** `${name}\n` for each missing name; an array turned into a string
      joins its items with `,`. */
  function Lines(names: seq<string>): seq<string> {
    seq(|names|, i requires 0 <= i < |names| => names[i] + "\n")
  }

  function WarningText(jobName: string, missing: seq<string>): string {
    "Hosts in \"runWith\" field for job " + jobName + " not defined - see Settings:\n" + Join(Lines(missing), ',')
  }

  function ErrorText(jobName: string): string {
    "Job " + jobName + " has no found host configs in its \"runWith\" field"
  }

  /** The job named `jobName` resolved with its found hosts. */
  function ResolveJob(jobName: string, raw: JobRaw, found: seq<HostConfig>): (j: Job)
    ensures j.friendlyName == jobName && j.runWith == found
    ensures j.name == raw.name && j.parameters == raw.parameters
    ensures j.isDefault <==> raw.isDefault == Some(Bool(true))
  {
    Job(jobName, if raw.isDefault.Some? && raw.isDefault.value.Bool? then raw.isDefault.value.b else false,
      found, raw.name, raw.parameters)
  }

  /** The warning of one job, if it names an undefined host. */
  function JobWarning(e: (string, JobRaw), hosts: map<string, HostConfig>): seq<string> {
    var missing := Missing(ToArray(e.1.runWith), hosts);
    if |missing| > 0 then [WarningText(e.0, missing)] else []
  }

  /** The error of one job, if it is left without a host. */
  function JobError(e: (string, JobRaw), hosts: map<string, HostConfig>): seq<string> {
    if |Found(ToArray(e.1.runWith), hosts)| == 0 then [ErrorText(e.0)] else []
  }

  function Warnings(entries: seq<(string, JobRaw)>, hosts: map<string, HostConfig>): seq<string> {
    if entries == [] then []
    else Warnings(entries[..|entries| - 1], hosts) + JobWarning(entries[|entries| - 1], hosts)
  }

  function Errors(entries: seq<(string, JobRaw)>, hosts: map<string, HostConfig>): seq<string> {
    if entries == [] then []
    else Errors(entries[..|entries| - 1], hosts) + JobError(entries[|entries| - 1], hosts)
  }

  function JobMap(entries: seq<(string, JobRaw)>, hosts: map<string, HostConfig>): map<string, Job> {
    if entries == [] then map[]
    else
      var last := entries[|entries| - 1];
      JobMap(entries[..|entries| - 1], hosts)[last.0 := ResolveJob(last.0, last.1, Found(ToArray(last.1.runWith), hosts))]
  }

  /** The keys of a `Map` filled by `set` with the entries' names, in its
      iteration order: the order of first insertion, since setting a key that
      is already there keeps its place. */
  function KeyOrder<T>(entries: seq<(string, T)>): seq<string> {
    if entries == [] then []
    else
      var init := KeyOrder(entries[..|entries| - 1]);
      var k := entries[|entries| - 1].0;
      if k in init then init else init + [k]
  }

  /** The iteration order lists every name once. */
  lemma {:induction false} KeyOrderNames<T>(entries: seq<(string, T)>)
    ensures forall i, j :: 0 <= i < j < |KeyOrder(entries)| ==> KeyOrder(entries)[i] != KeyOrder(entries)[j]
    ensures forall k :: k in KeyOrder(entries) <==> k in NameSet(entries)
  {
    if entries != [] {
      KeyOrderNames(entries[..|entries| - 1]);
      NameSetSnoc(entries);
    }
  }

  /** With distinct names, as the keys of an object are, the iteration order
      is the order of the entries. */
  lemma {:induction false} KeyOrderOfDistinct<T>(entries: seq<(string, T)>)
    requires DistinctNames(entries)
    ensures |KeyOrder(entries)| == |entries|
    ensures forall i :: 0 <= i < |entries| ==> KeyOrder(entries)[i] == entries[i].0
  {
    if entries != [] {
      var init := entries[..|entries| - 1];
      var last := entries[|entries| - 1].0;
      assert DistinctNames(init) by {
        forall i, j | 0 <= i < j < |init| ensures init[i].0 != init[j].0 {
          assert init[i] == entries[i] && init[j] == entries[j];
        }
      }
      KeyOrderOfDistinct(init);
      forall i | 0 <= i < |KeyOrder(init)| ensures KeyOrder(init)[i] != last {
        assert init[i] == entries[i];
      }
    }
  }

  /** The `jobs` getter: the resolved jobs keyed by name, the order in which
      the `Map` yields their names, and the warnings, or the error thrown when
      some job has no host. */
  method ResolveJobs(rawJobs: Option<seq<(string, JobRaw)>>, rawHosts: Option<seq<(string, HostConfigRaw)>>)
    returns (r: Result<(map<string, Job>, seq<string>, seq<string>)>)
    ensures rawJobs.None? ==> r == Ok((map[], [], []))
    ensures rawJobs.Some? ==>
      var hosts := Hosts(rawHosts);
      r == if Errors(rawJobs.value, hosts) != [] then Err(SettingsErrorMessage)
           else Ok((JobMap(rawJobs.value, hosts), KeyOrder(rawJobs.value), Warnings(rawJobs.value, hosts)))
  {
    if rawJobs.None? {
      return Ok((map[], [], []));
    }
    var entries := rawJobs.value;
    var hosts := Hosts(rawHosts);
    var warnings: seq<string> := [];
    var errors: seq<string> := [];
    var asDict: map<string, Job> := map[];
    var order: seq<string> := [];
    for i := 0 to |entries|
      invariant warnings == Warnings(entries[..i], hosts)
      invariant errors == Errors(entries[..i], hosts)
      invariant asDict == JobMap(entries[..i], hosts)
      invariant order == KeyOrder(entries[..i])
    {
      var jobName := entries[i].0;
      var rawJob := entries[i].1;
      var names := ToArray(rawJob.runWith);
      var missing := Missing(names, hosts);
      var found := Found(names, hosts);
      if |missing| > 0 {
        warnings := warnings + [WarningText(jobName, missing)];
      }
      if |found| == 0 {
        errors := errors + [ErrorText(jobName)];
      }
      asDict := asDict[jobName := ResolveJob(jobName, rawJob, found)];
      if jobName !in order {
        order := order + [jobName];
      }
      JobsStep(entries, i, hosts);
    }
    assert entries[..|entries|] == entries;
    if |errors| > 0 {
      return Err(SettingsErrorMessage);
    }
    return Ok((asDict, order, warnings));
  }

  lemma JobsStep(entries: seq<(string, JobRaw)>, i: nat, hosts: map<string, HostConfig>)
    requires i < |entries|
    ensures Warnings(entries[..i + 1], hosts) == Warnings(entries[..i], hosts) + JobWarning(entries[i], hosts)
    ensures Errors(entries[..i + 1], hosts) == Errors(entries[..i], hosts) + JobError(entries[i], hosts)
    ensures JobMap(entries[..i + 1], hosts) == JobMap(entries[..i], hosts)[entries[i].0 :=
      ResolveJob(entries[i].0, entries[i].1, Found(ToArray(entries[i].1.runWith), hosts))]
    ensures KeyOrder(entries[..i + 1]) == var o := KeyOrder(entries[..i]);
      if entries[i].0 in o then o else o + [entries[i].0]
  {
    assert entries[..i + 1][..i] == entries[..i];
  }

  /** There is one job per entry. */
  lemma {:induction false} JobMapKeys(entries: seq<(string, JobRaw)>, hosts: map<string, HostConfig>)
    ensures JobMap(entries, hosts).Keys == NameSet(entries)
  {
    if entries != [] {
      JobMapKeys(entries[..|entries| - 1], hosts);
      NameSetSnoc(entries);
    }
  }

  /** Each job is resolved from its own entry, with the hosts of its own
      names. */
  lemma {:induction false} JobMapEntry(entries: seq<(string, JobRaw)>, hosts: map<string, HostConfig>, i: nat)
    requires DistinctNames(entries) && i < |entries|
    ensures entries[i].0 in JobMap(entries, hosts)
    ensures JobMap(entries, hosts)[entries[i].0]
      == ResolveJob(entries[i].0, entries[i].1, Found(ToArray(entries[i].1.runWith), hosts))
  {
    if i < |entries| - 1 {
      var init := entries[..|entries| - 1];
      assert init[i] == entries[i];
      assert entries[i].0 != entries[|entries| - 1].0;
      JobMapEntry(init, hosts, i);
    }
  }

  /** A job contributes a warning exactly when one of its names is not a
      defined host; the warnings follow the order of the jobs. */
  lemma {:induction false} WarningsOfJobs(entries: seq<(string, JobRaw)>, hosts: map<string, HostConfig>)
    ensures Warnings(entries, hosts) == FlatMap(entries, e => JobWarning(e, hosts))
  {
    if entries != [] {
      WarningsOfJobs(entries[..|entries| - 1], hosts);
    }
  }

  lemma JobWarned(e: (string, JobRaw), hosts: map<string, HostConfig>)
    ensures JobWarning(e, hosts) != [] <==> exists n :: n in ToArray(e.1.runWith) && n !in hosts
  {
    var names := ToArray(e.1.runWith);
    var missing := Missing(names, hosts);
    if missing != [] {
      MissingMembers(names, hosts, missing[0]);
    } else {
      forall n | n in names ensures n in hosts {
        MissingMembers(names, hosts, n);
      }
    }
  }

  /** A job none of whose names is a defined host. */
  predicate Unhosted(e: (string, JobRaw), hosts: map<string, HostConfig>) {
    Found(ToArray(e.1.runWith), hosts) == []
  }

  /** Some job is left without a host exactly when there is an error. */
  lemma ErrorsOfJobs(entries: seq<(string, JobRaw)>, hosts: map<string, HostConfig>)
    ensures Errors(entries, hosts) != [] <==> exists i :: 0 <= i < |entries| && Unhosted(entries[i], hosts)
  {
    if Errors(entries, hosts) != [] {
      var i := UnhostedOfErrors(entries, hosts);
    }
    if exists i :: 0 <= i < |entries| && Unhosted(entries[i], hosts) {
      var i :| 0 <= i < |entries| && Unhosted(entries[i], hosts);
      JobErrorUnhosted(entries[i], hosts);
      ErrorsOfUnhosted(entries, hosts, i);
    }
  }

  /** A job without a host leaves an error. */
  lemma {:induction false} ErrorsOfUnhosted(entries: seq<(string, JobRaw)>, hosts: map<string, HostConfig>, i: int)
    requires 0 <= i < |entries| && JobError(entries[i], hosts) != []
    ensures Errors(entries, hosts) != []
    decreases |entries|
  {
    var init := entries[..|entries| - 1];
    var last := JobError(entries[|entries| - 1], hosts);
    assert Errors(entries, hosts) == Errors(init, hosts) + last;
    if i < |init| {
      assert init[i] == entries[i];
      ErrorsOfUnhosted(init, hosts, i);
      assert |Errors(entries, hosts)| >= |Errors(init, hosts)| > 0;
    } else {
      assert entries[i] == entries[|entries| - 1];
      assert |Errors(entries, hosts)| >= |last| > 0;
    }
  }

  /** An error names a job without a host. */
  lemma {:induction false} UnhostedOfErrors(entries: seq<(string, JobRaw)>, hosts: map<string, HostConfig>) returns (i: int)
    requires Errors(entries, hosts) != []
    ensures 0 <= i < |entries| && Unhosted(entries[i], hosts)
    decreases |entries|
  {
    var init := entries[..|entries| - 1];
    var last := entries[|entries| - 1];
    assert Errors(entries, hosts) == Errors(init, hosts) + JobError(last, hosts);
    JobErrorUnhosted(last, hosts);
    if Errors(init, hosts) != [] {
      i := UnhostedOfErrors(init, hosts);
      assert entries[i] == init[i];
    } else {
      i := |entries| - 1;
    }
  }

  /** A job has an error exactly when it is unhosted. */
  lemma JobErrorUnhosted(e: (string, JobRaw), hosts: map<string, HostConfig>)
    ensures JobError(e, hosts) != [] <==> Unhosted(e, hosts)
  {
  }
}
