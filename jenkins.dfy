/** The host objects and pipeline builds of `src/jenkins.ts`. A `Jenkins`
    host is registered under a key made from its URL and user, holds the
    client talking to the server and the builds created through it. A
    `PipelineBuild` rewrites its job's script, triggers the job, finds the
    build, streams its log and, when the stream ends, fetches the full log and
    parses it for Groovy errors. The server is an oracle whose answers are
    passed in; the requests a build sends are recorded in its `calls`, and the
    values its done handler is called with in its `notifications`. */
module JenkinsBuilds {
  import opened Wrappers
  import opened Strings
  import opened Sequences
  import opened JobConfig
  import opened PipelineStart
  import PipelineErrorParser

  /** The client `jenkins(...)` is created with: the server URL and, when a
      user and a password are both given, the credentials put into it. */
  datatype Client = Client(baseUrl: string, credentials: Option<(string, string)>)

  /** The build's state field, `"running"` or `"stopped"`. */
  datatype State = Running | Stopped

  /** A template-string rendering of an optional string. */
  function UserText(user: Option<string>): string {
    if user.Some? then user.value else "undefined"
  }

  /** The registry key of a host: `${baseUrl}-${user}`. */
  function HostKey(baseUrl: string, user: Option<string>): (key: string)
    ensures |key| > |baseUrl| && key[..|baseUrl|] == baseUrl && key[|baseUrl|] == '-'
    ensures key[|baseUrl| + 1..] == UserText(user)
  {
    baseUrl + "-" + UserText(user)
  }

  /** Hosts whose URLs contain no `-` share a key only when their users
      render alike. */
  lemma HostKeyInjective(b1: string, u1: Option<string>, b2: string, u2: Option<string>)
    requires '-' !in b1 && '-' !in b2
    requires HostKey(b1, u1) == HostKey(b2, u2)
    ensures b1 == b2 && UserText(u1) == UserText(u2)
  {
    var k := HostKey(b1, u1);
    assert IndexOf(k, '-') == |b1| by { IndexOfIs(k, '-', |b1|); }
    assert IndexOf(k, '-') == |b2| by { IndexOfIs(k, '-', |b2|); }
  }

  lemma IndexOfIs(s: string, c: char, i: nat)
    requires i < |s| && s[i] == c
    requires forall k :: 0 <= k < i ==> s[k] != c
    ensures IndexOf(s, c) == i
  {
  }

  /** The key does not tell hosts apart in general: an absent user and the
      user "undefined" share one, and so does a `-` moved between URL and
      user. */
  lemma HostKeyCollisions()
    ensures HostKey("http://ci", None) == HostKey("http://ci", Some("undefined"))
    ensures HostKey("http://ci-a", Some("b")) == HostKey("http://ci", Some("a-b"))
  {
  }

  /** The text before a host's URL names its user: `user@`. */
  function UserPrefix(user: Option<string>): string {
    if user.Some? then user.value + "@" else ""
  }

  /** The host registry, the static `_hosts` map. */
  class HostRegistry {
    var hosts: map<string, Jenkins>

    constructor ()
      ensures hosts == map[]
    {
      hosts := map[];
    }

    /** The host registered under the key of `baseUrl` and `user`, created
        and registered first when there is none. */
    method GetOrCreateHost(baseUrl: string, user: Option<string>) returns (host: Jenkins)
      modifies this`hosts
      ensures HostKey(baseUrl, user) in hosts && hosts[HostKey(baseUrl, user)] == host
      ensures HostKey(baseUrl, user) in old(hosts) ==> hosts == old(hosts)
      ensures HostKey(baseUrl, user) !in old(hosts) ==>
        hosts == old(hosts)[HostKey(baseUrl, user) := host] && fresh(host)
        && host.baseUrl == baseUrl && host.user == user && host.Valid()
        && host.builds == [] && host.client.None? && host.password.None?
    {
      var key := HostKey(baseUrl, user);
      if key !in hosts {
        var created := new Jenkins(baseUrl, user);
        hosts := hosts[key := created];
      }
      host := hosts[key];
    }
  }

  class Jenkins {
    const baseUrl: string
    const user: Option<string>
    var password: Option<string>
    var client: Option<Client>
    var builds: seq<PipelineBuild>

    /** Every listed build was created through this host. */
    predicate Valid()
      reads this
    {
      forall b :: b in builds ==> b.jenkins == this
    }

    constructor (baseUrl: string, user: Option<string>)
      ensures this.baseUrl == baseUrl && this.user == user
      ensures password.None? && client.None? && builds == []
      ensures Valid()
    {
      this.baseUrl := baseUrl;
      this.user := user;
      password := None;
      client := None;
      builds := [];
    }

    /** `user@baseUrl`, or the URL alone without a user. */
    function Description(): (d: string)
      ensures |d| >= |baseUrl| && d[|d| - |baseUrl|..] == baseUrl
      ensures user.None? ==> d == baseUrl
      ensures user.Some? ==>
        |d| == |user.value| + 1 + |baseUrl| && d[..|user.value|] == user.value
        && d[|user.value|] == '@' && d[|user.value| + 1..] == baseUrl
    {
      UserPrefix(user) + baseUrl
    }

    /** When the user has no `@`, the description's first `@` separates the
        user from the URL, so both can be read back from it. */
    lemma DescriptionNamesUser()
      requires user.Some? && '@' !in user.value
      ensures var d := Description(); var i := IndexOf(d, '@');
        i < |d| && d[..i] == user.value && d[i + 1..] == baseUrl
    {
      var d := Description();
      assert d == user.value + "@" + baseUrl;
      IndexOfIs(d, '@', |user.value|);
    }

    /** Creates the client when the user and the password are both given or
        both absent, and refuses exactly one of them with "invalid
        arguments", keeping the old client. */
    method UpdatePassword(password: Option<string>) returns (r: Result<()>)
      modifies this`client
      ensures r.Err? <==> user.Some? != password.Some?
      ensures r.Err? ==> r.error == "invalid arguments" && client == old(client)
      ensures r.Ok? ==> client == Some(Client(baseUrl,
        if user.Some? then Some((user.value, password.value)) else None))
    {
      if password.Some? && user.Some? {
        client := Some(Client(baseUrl, Some((user.value, password.value))));
        r := Ok(());
      } else if user.None? && password.None? {
        client := Some(Client(baseUrl, None));
        r := Ok(());
      } else {
        r := Err("invalid arguments");
      }
    }

    /** A new build using this host's current client, appended to `builds`. */
    method CreatePipelineBuild(usingJob: string, withScript: string, doneSet: bool, parameters: Option<Js>)
      returns (b: PipelineBuild)
      requires Valid()
      modifies this`builds
      ensures Valid()
      ensures fresh(b) && builds == old(builds) + [b]
      ensures b.jenkins == this && b.client == client && b.usingJob == usingJob
        && b.withScript == withScript && b.parameters == parameters && b.doneSet == doneSet
      ensures b.Fresh()
    {
      b := new PipelineBuild(this, client, usingJob, withScript, doneSet, parameters);
      builds := builds + [b];
    }

    /** Removes a listed build, which then destroys itself; a build that is
        not listed is left alone. */
    method Destroy(b: PipelineBuild)
      requires Valid()
      modifies this`builds, b`calls, b`streaming, b`doneSet
      decreases if b in builds then 1 else 0, 0
      ensures Valid()
      ensures builds == Without(old(builds), b)
      ensures b in old(builds) ==>
        !b.doneSet && !b.streaming && b.calls == old(b.calls) + b.StopRequest()
      ensures b !in old(builds) ==>
        b.calls == old(b.calls) && b.doneSet == old(b.doneSet) && b.streaming == old(b.streaming)
    {
      if b in builds {
        builds := Without(builds, b);
        forall x | x in builds ensures x.jenkins == this {
          WithoutMembers(old(builds), b, x);
        }
        WithoutMembers(old(builds), b, b);
        b.Destroy();
        WithoutAbsent(Without(old(builds), b), b);
      } else {
        WithoutAbsent(builds, b);
      }
    }
  }

  /** The message `start()` throws when the build already has a number. */
  function AlreadyStartedMessage(job: string, number: int): string {
    "Trying to start build for job " + job + " - but has already been started with #" + IntToDecimal(number)
  }

  /** The `#<number>` part of a build's description. */
  function NumberTag(number: Option<int>): string {
    if number.Some? then "#" + IntToDecimal(number.value) else ""
  }

  /** Different build numbers, and a number and none, are told apart. */
  lemma NumberTagInjective(a: Option<int>, b: Option<int>)
    requires NumberTag(a) == NumberTag(b)
    ensures a == b
  {
    if a.Some? && b.Some? {
      assert IntToDecimal(a.value) == NumberTag(a)[1..];
      ParseIntRoundTrip(a.value);
      ParseIntRoundTrip(b.value);
    }
  }

  /** Two builds of the same job on the same host that describe themselves
      alike carry the same build number. */
  lemma DescriptionTellsNumbers(a: PipelineBuild, b: PipelineBuild)
    requires a.usingJob == b.usingJob && a.jenkins == b.jenkins
    requires a.Description() == b.Description()
    ensures a.buildNumber == b.buildNumber
  {
    MiddleOfDescription(a.usingJob, a.jenkins.Description(), NumberTag(a.buildNumber), NumberTag(b.buildNumber));
    NumberTagInjective(a.buildNumber, b.buildNumber);
  }

  /** Descriptions of one job on one host differ only in the tag between
      them. */
  lemma MiddleOfDescription(job: string, host: string, t1: string, t2: string)
    requires job + " " + t1 + " on " + host == job + " " + t2 + " on " + host
    ensures t1 == t2
  {
    var d := job + " " + t1 + " on " + host;
    assert t1 == d[|job| + 1..|d| - |host| - 4];
    assert t2 == d[|job| + 1..|d| - |host| - 4];
  }

  class PipelineBuild {
    const jenkins: Jenkins
    const client: Option<Client>
    const usingJob: string
    const withScript: string
    const parameters: Option<Js>
    /** Whether a done handler is set. */
    var doneSet: bool
    var buildNumber: Option<int>
    var errors: seq<PipelineErrorParser.GroovyError>
    var buildLog: string
    var state: State
    /** Whether a log stream is attached. */
    var streaming: bool
    var calls: seq<RemoteCall>
    /** The arguments of the done handler's calls, `None` for `undefined`. */
    var notifications: seq<Option<string>>
    /** The chunks handed to the log handler. */
    var forwarded: seq<string>

    /** A build that has done nothing yet. */
    predicate Fresh()
      reads this
    {
      buildNumber.None? && errors == [] && buildLog == "" && state == Stopped && !streaming
      && calls == [] && notifications == [] && forwarded == []
    }

    /** The parsed errors are those of the build log. */
    predicate LogParsed()
      reads this
    {
      errors == PipelineErrorParser.Parse(buildLog)
    }

    constructor (jenkins: Jenkins, client: Option<Client>, usingJob: string, withScript: string,
                 doneSet: bool, parameters: Option<Js>)
      ensures this.jenkins == jenkins && this.client == client && this.usingJob == usingJob
      ensures this.withScript == withScript && this.doneSet == doneSet && this.parameters == parameters
      ensures Fresh() && LogParsed()
    {
      this.jenkins := jenkins;
      this.client := client;
      this.usingJob := usingJob;
      this.withScript := withScript;
      this.doneSet := doneSet;
      this.parameters := parameters;
      buildNumber := None;
      errors := [];
      buildLog := "";
      state := Stopped;
      streaming := false;
      calls := [];
      notifications := [];
      forwarded := [];
      new;
      PipelineErrorParser.ParseEmpty();
    }

    predicate IsRunning()
      reads this
    {
      state == State.Running
    }

    /** `<job> #<number> on <host>`, without the number before there is one. */
    function Description(): (d: string)
      reads this
      ensures var h := jenkins.Description(); var n := |d| - |h| - 4;
        |usingJob| + 1 <= n && d[..|usingJob|] == usingJob && d[|usingJob|] == ' '
        && d[|usingJob| + 1..n] == NumberTag(buildNumber)
        && d[n..|d| - |h|] == " on " && d[|d| - |h|..] == h
    {
      usingJob + " " + NumberTag(buildNumber) + " on " + jenkins.Description()
    }

    /** The request `stop()` sends; without a client it raises instead. */
    function StopRequest(): seq<RemoteCall>
      reads this
    {
      if client.Some? then [StopBuild(usingJob, buildNumber)] else []
    }

    method Notify(error: Option<string>)
      modifies this`notifications
      ensures notifications == old(notifications) + if doneSet then [error] else []
    {
      if doneSet {
        notifications := notifications + [error];
      }
    }

    /** The build did what `o` describes: it got `o`'s build number, runs and
        streams when `o` does (and is otherwise left as it was), sent `o`'s
        requests and, when a done handler is set, gave it `o`'s error. */
    twostate predicate Performed(o: Started)
      reads this
    {
      buildNumber == o.buildNumber
      && state == (if o.running then State.Running else old(state))
      && streaming == (o.streaming || old(streaming))
      && calls == old(calls) + o.calls
      && notifications == old(notifications) + (if doneSet && o.failure.Some? then [o.failure] else [])
    }

    /** Starts the build: refused when it already has a number, otherwise
        the steps of `StartSteps` against `server`, each failure going to the
        done handler. A failed start leaves the state as it was. */
    method Start(server: Server) returns (r: Result<()>)
      modifies this`buildNumber, this`state, this`streaming, this`calls, this`notifications
      ensures old(buildNumber).Some? ==>
        r == Err(AlreadyStartedMessage(usingJob, old(buildNumber).value))
        && buildNumber == old(buildNumber) && state == old(state) && streaming == old(streaming)
        && calls == old(calls) && notifications == old(notifications)
      ensures old(buildNumber).None? ==>
        r == Ok(()) && Performed(StartSteps(usingJob, withScript, parameters, client.Some?, server))
    {
      if buildNumber.Some? {
        return Err(AlreadyStartedMessage(usingJob, buildNumber.value));
      }
      r := Ok(());
      RunSteps(server);
    }

    /** The steps inside the `try`. */
    method RunSteps(server: Server)
      requires buildNumber.None?
      modifies this`buildNumber, this`state, this`streaming, this`calls, this`notifications
      ensures Performed(StartSteps(usingJob, withScript, parameters, client.Some?, server))
    {
      if client.None? {
        Notify(Some(TypeErrorMessage));
        return;
      }
      calls := calls + [FetchConfig(usingJob)];
      if server.config.Err? {
        Notify(Some(server.config.error));
        return;
      }
      RewriteAndRun(server.config.value, server);
      assert old(calls) + [FetchConfig(usingJob)] + Rewrite(usingJob, withScript, parameters, server.config.value, server).calls
        == old(calls) + StartSteps(usingJob, withScript, parameters, client.Some?, server).calls;
    }

    /** Rewrites the fetched configuration `tree` and, when that succeeds,
        pushes it and goes on. */
    method RewriteAndRun(tree: Js, server: Server)
      requires buildNumber.None?
      modifies this`buildNumber, this`state, this`streaming, this`calls, this`notifications
      ensures Performed(Rewrite(usingJob, withScript, parameters, tree, server))
    {
      var updated := UpdateJobScript(tree, withScript);
      if updated.Err? {
        Notify(Some(updated.error));
        return;
      }
      calls := calls + [PushConfig(usingJob, updated.value)];
      LaunchBuild(server);
      assert old(calls) + [PushConfig(usingJob, updated.value)] + Launch(usingJob, parameters, server).calls
        == old(calls) + Rewrite(usingJob, withScript, parameters, tree, server).calls;
    }

    /** Reads the build number, triggers the job and looks the build up. */
    method LaunchBuild(server: Server)
      requires buildNumber.None?
      modifies this`buildNumber, this`state, this`streaming, this`calls, this`notifications
      ensures Performed(Launch(usingJob, parameters, server))
    {
      if server.push.Err? {
        Notify(Some(server.push.error));
        return;
      }
      calls := calls + [GetJob(usingJob)];
      if server.jobInfo.Err? {
        Notify(Some(server.jobInfo.error));
        return;
      }
      buildNumber := server.jobInfo.value;
      calls := calls + [Trigger(usingJob, parameters)];
      if server.trigger.Err? {
        Notify(Some(server.trigger.error));
        return;
      }
      LookUpBuild(server.lookups);
      assert old(calls) + [GetJob(usingJob)] + [Trigger(usingJob, parameters)] + LookUp(usingJob, buildNumber, server.lookups).calls
        == old(calls) + Launch(usingJob, parameters, server).calls;
    }

    /** The retry loop and what follows it: up to `BuildFetchRetries`
        lookups, then the log stream, or the "Could not start build" notice. */
    method LookUpBuild(lookups: seq<Lookup>)
      modifies this`state, this`streaming, this`calls, this`notifications
      ensures Performed(LookUp(usingJob, buildNumber, lookups))
    {
      var fetchCount: nat := 0;
      var build := false;
      while fetchCount < BuildFetchRetries
        invariant fetchCount <= BuildFetchRetries
        invariant forall i: nat :: i < fetchCount ==> !Answers(lookups, i)
        invariant calls == old(calls) + Repeated(GetBuild(usingJob, buildNumber), fetchCount)
        invariant state == old(state) && streaming == old(streaming) && notifications == old(notifications)
      {
        fetchCount := fetchCount + 1;
        calls := calls + [GetBuild(usingJob, buildNumber)];
        if Answers(lookups, fetchCount - 1) {
          build := lookups[fetchCount - 1].build;
          break;
        }
      }
      LookUpAt(lookups, fetchCount);
      if !build {
        Notify(Some(NotStartedMessage));
        return;
      }
      calls := calls + [StreamLog(usingJob, buildNumber)];
      streaming := true;
      state := State.Running;
    }

    /** A chunk of the stream goes to the log handler; the build log is only
        replaced when the stream ends. */
    method OnData(text: string)
      modifies this`forwarded
      ensures forwarded == old(forwarded) + [text]
    {
      forwarded := forwarded + [text];
    }

    /** The end of the stream, with the error it ended with: the build stops,
        the full log is fetched and parsed, and then the done handler is
        called. A fetch that fails (or no client) ends it early. */
    method PostDone(error: Option<string>, fullLog: Result<string>)
      modifies this`state, this`calls, this`buildLog, this`errors, this`notifications
      ensures state == Stopped
      ensures client.None? ==> calls == old(calls)
      ensures client.Some? ==> calls == old(calls) + [FetchLog(usingJob, old(buildNumber))]
      ensures client.Some? && fullLog.Ok? ==>
        buildLog == fullLog.value && LogParsed()
        && notifications == old(notifications) + if doneSet then [error] else []
      ensures !(client.Some? && fullLog.Ok?) ==>
        buildLog == old(buildLog) && errors == old(errors) && notifications == old(notifications)
    {
      state := Stopped;
      if client.Some? {
        FetchFullLog(error, fullLog);
      }
    }

    /** The request for the full log, and what its answer does. */
    method FetchFullLog(error: Option<string>, fullLog: Result<string>)
      modifies this`calls, this`buildLog, this`errors, this`notifications
      ensures calls == old(calls) + [FetchLog(usingJob, old(buildNumber))]
      ensures fullLog.Ok? ==>
        buildLog == fullLog.value && LogParsed()
        && notifications == old(notifications) + if doneSet then [error] else []
      ensures fullLog.Err? ==>
        buildLog == old(buildLog) && errors == old(errors) && notifications == old(notifications)
    {
      calls := calls + [FetchLog(usingJob, buildNumber)];
      if fullLog.Ok? {
        buildLog := fullLog.value;
        errors := PipelineErrorParser.ParseGroovyErrors(buildLog);
        Notify(error);
      }
    }

    /** Asks the server to stop the build. */
    method Stop()
      modifies this`calls
      ensures calls == old(calls) + StopRequest()
    {
      if client.Some? {
        calls := calls + [StopBuild(usingJob, buildNumber)];
      }
    }

    /** Stops the build, drops the stream and the done handler and has the
        host remove it; the host destroys a listed build once more, so a
        listed build is stopped twice. */
    method Destroy()
      requires jenkins.Valid()
      modifies this`calls, this`streaming, this`doneSet, jenkins`builds
      decreases if this in jenkins.builds then 1 else 0, 1
      ensures jenkins.Valid()
      ensures jenkins.builds == Without(old(jenkins.builds), this) && this !in jenkins.builds
      ensures !doneSet && !streaming
      ensures calls == old(calls) + StopRequest() + if this in old(jenkins.builds) then StopRequest() else []
    {
      Stop();
      streaming := false;
      doneSet := false;
      jenkins.Destroy(this);
      WithoutMembers(old(jenkins.builds), this, this);
    }
  }
}
