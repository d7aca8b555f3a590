# jenkins-runner core in Dafny

jenkins-runner is a VS Code extension. It runs a local Jenkins pipeline
script on a remote Jenkins job:

1. It writes the script into the job's XML configuration.
2. It triggers a build and waits for the build to appear.
3. It streams the console log.
4. It scans the final log for Groovy compilation errors.

This project models the extension's core and proves properties of that model:

- **The two Groovy error parsers** (`PipelineErrorParser`, `JenkinsPipelineErrorParser`).
  - The regular expressions become hand-written matchers, each proved sound
    and complete against a predicate that describes the pattern's language.
  - A pure `Parse` function over the lines of the text is the specification.
  - The `for`/`push` loops become methods that are proved to compute `Parse`.
- **The build engine of `src/jenkins.ts`** (`JenkinsBuilds`, `PipelineStart`, `JobConfig`).
  - The static host table becomes the class `HostRegistry`.
  - The Jenkins host is the class `Jenkins`, with its credential check and
    its build list.
  - A build is the class `PipelineBuild`. This covers the `start()` sequence
    with its bounded lookup loop, `postDone`, `stop` and the mutually
    recursive `destroy`.
  - The remote Jenkins server is an oracle.
    - A `Server` value supplies the outcome of every remote call.
    - Every call the build makes is appended to a trace, `calls`.
    - Every `doneHandler` invocation is appended to `notifications`.
  - The pure function `PipelineStart.StartSteps` specifies what `start()`
    does. Each step method is proved to perform exactly its phase of it.
  - The configuration rewrite works on an `xml2js`-shaped object tree. It
    follows JavaScript strict-mode property writes.
- **Settings resolution** (`Settings`): host defaulting, and job resolution
  against the hosts, with warnings and errors.
- **The envinject properties text and XML template** (`EnvinjectPlugin`).
- **The log line layout with its zero padding** (`Log`).

Shared helpers:

- `Strings` models `split`, `join`, decimal rendering and `Number.parseInt`.
- `Sequences` provides `flatMap` and removal from a list.
- `Wrappers` provides `Option` and `Result`.

JavaScript values become these Dafny values:

- `undefined` and `NaN` become `None`.
- An exception becomes `Err` carrying its message.

## Model

| member | source | states |
|---|---|---|
| PipelineErrorParser.LocatedSound | src/pipeline_error_parser.ts:29 | whatever the matcher finds is a match of `^([^:]+):([^:]+):([^@]+) @ line \d+, column (\d+)` at those positions |
| PipelineErrorParser.LocatedComplete | src/pipeline_error_parser.ts:29 | every match of the pattern is found by the matcher, at the same positions, so the match is unique |
| PipelineErrorParser.ErrorOfFields | src/pipeline_error_parser.ts:29-45 | a record's path is non-empty and has no `:`; its message is non-empty and has no `@` |
| PipelineErrorParser.ColumnParses | src/pipeline_error_parser.ts:29-45 | the column is exactly what `parseInt` gives for the whole digit run after `, column ` |
| PipelineErrorParser.LineRecords | src/pipeline_error_parser.ts:42-46 | a line yields at most one record, and yields one exactly when the pattern matches it |
| PipelineErrorParser.RecordsOfMatch | src/pipeline_error_parser.ts:42-45 | a matched line's record is: the text before the first `:`, `parseInt` of the text between the first two colons, the column digits' value, and the text from the second `:` to the blank before `@` |
| PipelineErrorParser.ComposedRecord | src/pipeline_error_parser.ts:29-45 | a line assembled from well-formed parts yields the record of those parts; the `@ line` number is ignored |
| PipelineErrorParser.ParseComposedLine | src/pipeline_error_parser.ts:38-49 | a text of one such line parses to that one record |
| PipelineErrorParser.CompilerErrorExample | src/pipeline_error_parser.ts:25-29 | the compiler message shown beside the pattern parses to path `WorkflowScript`, line 9, column 32 |
| PipelineErrorParser.ParseGroovyErrors | src/pipeline_error_parser.ts:38-49 | the loop over the split lines returns `Parse(text)` |
| PipelineErrorParser.ParseEmpty | src/pipeline_error_parser.ts:38-49 | the empty text has no errors |
| PipelineErrorParser.ParseConcat | src/pipeline_error_parser.ts:41-47 | `parse(a + "\n" + b) == parse(a) + parse(b)`: lines are independent and keep their order |
| PipelineErrorParser.ParseLength | src/pipeline_error_parser.ts:41-46 | the number of records is the number of matching lines |
| PipelineErrorParser.ParseRecordFromLine | src/pipeline_error_parser.ts:41-46 | every record is the record of some line |
| PipelineErrorParser.ParseKeepsLineRecord | src/pipeline_error_parser.ts:41-46 | every matching line's record is in the result |
| JenkinsPipelineErrorParser.FrameSound | src/jenkins/pipeline_error_parser.ts:34 | a frame the matcher finds is a match of `.*WorkflowScript.run\((?<path>[^:]+):(?<line>\d+)\).*`, taken at the rightmost fit of the first fitting stretch, as the greedy `.*` does |
| JenkinsPipelineErrorParser.FrameComplete | src/jenkins/pipeline_error_parser.ts:34 | a frame in that position is the one the matcher returns |
| JenkinsPipelineErrorParser.FrameNone | src/jenkins/pipeline_error_parser.ts:34 | the stack frame pattern fails exactly when no position fits |
| JenkinsPipelineErrorParser.StackFrameRecord | src/jenkins/pipeline_error_parser.ts:34-56 | a line matched at a frame yields exactly one record, which holds the text after `run(` up to the first `:` as path, the value of the digit run up to `)` as line, and neither column nor message |
| JenkinsPipelineErrorParser.StackFrameFields | src/jenkins/pipeline_error_parser.ts:34 | in a frame the path is non-empty with no `:`, and the line field is the full digit run, closed by `)` |
| JenkinsPipelineErrorParser.StackFrameAbsent | src/jenkins/pipeline_error_parser.ts:34-57 | a line gives no stack frame record exactly when no position fits the pattern |
| JenkinsPipelineErrorParser.SoleFrame | src/jenkins/pipeline_error_parser.ts:34 | a line with one frame and no other `W` is matched at that frame |
| JenkinsPipelineErrorParser.FrameExampleRecords | src/jenkins/pipeline_error_parser.ts:31-34 | `at WorkflowScript.run(WorkflowScript:2)` parses to one record: path `WorkflowScript`, line 2, no column, no message |
| JenkinsPipelineErrorParser.LineRecordsInOrder | src/jenkins/pipeline_error_parser.ts:23-57 | a line's records are the compiler-message record (if any) followed by the stack-frame record (if any) |
| JenkinsPipelineErrorParser.CompilerMessageAgrees | src/jenkins/pipeline_error_parser.ts:29-56 | the first pattern's record of a line is the one-pattern parser's record with column and message present |
| JenkinsPipelineErrorParser.FirstPatternAgrees | src/jenkins/pipeline_error_parser.ts:29-56 | over a whole text, the first pattern's records are the one-pattern parser's records |
| JenkinsPipelineErrorParser.ParseGroovyErrors | src/jenkins/pipeline_error_parser.ts:44-62 | the nested loops over lines and patterns return `Parse(text)` |
| JenkinsPipelineErrorParser.PushLineMatches | src/jenkins/pipeline_error_parser.ts:48-58 | the inner loop appends the records of one line, in pattern order |
| JenkinsPipelineErrorParser.ParseEmpty | src/jenkins/pipeline_error_parser.ts:44-62 | the empty text has no errors |
| JenkinsPipelineErrorParser.ParseConcat | src/jenkins/pipeline_error_parser.ts:47-60 | `parse(a + "\n" + b) == parse(a) + parse(b)` |
| JenkinsPipelineErrorParser.ParseLength | src/jenkins/pipeline_error_parser.ts:47-58 | the number of records is the number of matching (line, pattern) pairs |
| JobConfig.UpdateJobScriptFails | src/jenkins.ts:162-164 | the rewrite raises `TypeError` exactly when `flow-definition.definition[0]` is not an object |
| JobConfig.UpdateJobScriptSets | src/jenkins.ts:164-165 | after the rewrite the script path holds the script and `quietPeriod` holds 0 |
| JobConfig.UpdateJobScriptKeeps | src/jenkins.ts:162-167 | every other path of the tree is unchanged |
| PipelineStart.AttemptsSpec | src/jenkins.ts:213-224 | between 1 and 10 lookups are made; all but the last throw; the loop has a build exactly when the last resolves to a build object; 10 are made when every one throws |
| PipelineStart.FalsyAnswer | src/jenkins.ts:213-225 | a lookup that resolves to a falsy value, after earlier ones threw, ends the loop at once with no build |
| PipelineStart.StartRunning | src/jenkins.ts:191-250 | `start` ends running exactly when every step succeeds and the loop ends with a build object; it streams exactly then; it reports a failure exactly otherwise; the stream request is the last call |
| PipelineStart.StartLookupCount | src/jenkins.ts:213-224 | the number of `build.get` calls is the lookup attempts when the trigger happened, else 0, and never more than 10 |
| PipelineStart.StartNotFound | src/jenkins.ts:213-231 | when the loop ends without a build (every lookup threw, or one resolved falsy) the failure is "Could not start build", nothing streams, the lookups made are the loop's attempts, and 10 when every one threw |
| PipelineStart.StartBuildNumber | src/jenkins.ts:199-203 | the build number is set exactly when the rewrite, the push and the job read succeed, and is then `nextBuildNumber` |
| PipelineStart.LaunchOrder | src/jenkins.ts:203-239 | from the job read on, the calls are a prefix of read, trigger, lookups, stream, and are all of it exactly when running |
| PipelineStart.StartTraceOrder | src/jenkins.ts:198-239 | once the config is fetched and rewritten, the calls are a prefix of the full trace, and are all of it exactly when running |
| JenkinsBuilds.HostKey | src/jenkins.ts:48 | the key is the base URL, a `-`, then the user or `undefined` |
| JenkinsBuilds.HostKeyInjective | src/jenkins.ts:48 | for base URLs without `-`, equal keys mean equal URLs and users |
| JenkinsBuilds.HostKeyCollisions | src/jenkins.ts:48 | distinct hosts can share a key: a missing user and the user `undefined`, or a `-` moved between URL and user |
| JenkinsBuilds.HostRegistry.constructor | src/jenkins.ts:45 | the host table starts empty |
| JenkinsBuilds.HostRegistry.GetOrCreateHost | src/jenkins.ts:47-55 | returns the registered host for the key; if the key exists, nothing changes; otherwise exactly one fresh host with no builds and no client is added |
| JenkinsBuilds.Jenkins.constructor | src/jenkins.ts:71-75 | a new host has the given URL and user, no client, no password and no builds |
| JenkinsBuilds.Jenkins.Description | src/jenkins.ts:65-67 | with a user, the description is the user, `@`, then the base URL, whatever characters the user holds; without one it is the base URL |
| JenkinsBuilds.Jenkins.DescriptionNamesUser | src/jenkins.ts:65-67 | for a user without `@`, the first `@` of the description separates user and URL, so both are read back |
| JenkinsBuilds.Jenkins.UpdatePassword | src/jenkins.ts:77-93 | fails with "invalid arguments" exactly when just one of user and password is given, leaving the client as it was; otherwise the client is rebuilt, with credentials when both are given |
| JenkinsBuilds.Jenkins.CreatePipelineBuild | src/jenkins.ts:96-106 | exactly one fresh, unstarted build is appended, bound to this host and its client |
| JenkinsBuilds.Jenkins.Destroy | src/jenkins.ts:108-113 | removes exactly that build, keeping the others in order; a listed build has its handlers dropped and is stopped, with one stop request when it has a client and none otherwise; an absent one is left alone |
| JenkinsBuilds.NumberTagInjective | src/jenkins.ts:139 | different build numbers give different `#n` tags in the description |
| JenkinsBuilds.PipelineBuild.constructor | src/jenkins.ts:119-152 | a new build is stopped, has no number, no log, no errors, no calls made and nothing notified |
| JenkinsBuilds.PipelineBuild.Description | src/jenkins.ts:138-140 | the description is the job name, a blank, the `#<number>` tag (empty without a number), ` on `, then the host's description |
| JenkinsBuilds.DescriptionTellsNumbers | src/jenkins.ts:138-140 | two builds of one job on one host with equal descriptions have the same build number |
| JenkinsBuilds.PipelineBuild.Start | src/jenkins.ts:191-250 | an already numbered build fails with the "already been started" message and changes nothing; otherwise the build performs `StartSteps` for its job, script, parameters and client |
| JenkinsBuilds.PipelineBuild.RunSteps | src/jenkins.ts:198-249 | the body of the `try` and its `catch` perform `StartSteps` |
| JenkinsBuilds.PipelineBuild.RewriteAndRun | src/jenkins.ts:160-210 | from a fetched config, the build performs the rewrite phase, `Rewrite` |
| JenkinsBuilds.PipelineBuild.LaunchBuild | src/jenkins.ts:203-210 | after the push, the build performs the launch phase, `Launch` |
| JenkinsBuilds.PipelineBuild.LookUpBuild | src/jenkins.ts:213-239 | the retry loop performs the lookup phase, `LookUp`: up to 10 lookups stopping at the first that resolves, then the stream and running when it resolved to a build, or "Could not start build" |
| JenkinsBuilds.PipelineBuild.OnData | src/jenkins.ts:235 | each streamed chunk is handed on to the log handler, in order |
| JenkinsBuilds.PipelineBuild.Notify | src/jenkins.ts:186-188 | the done handler is called with the error only while it is set |
| JenkinsBuilds.PipelineBuild.PostDone | src/jenkins.ts:173-189 | the build stops; when the full log arrives it replaces the log, the errors become the parse of that log, and only then the done handler is called; when the fetch fails, log, errors and notifications are unchanged |
| JenkinsBuilds.PipelineBuild.Stop | src/jenkins.ts:252-255 | one stop request for this job and number when the build has a client, none otherwise |
| JenkinsBuilds.PipelineBuild.Destroy | src/jenkins.ts:257-262 | terminates; the build ends out of its host's list with the stream and done handler dropped; when it has a client it sends one stop request, or two when it was listed, and none without a client |
| Settings.ResolveHost | src/settings.ts:124-131 | a host's friendly name is its key, and its URL, user and password are the raw ones |
| Settings.ResolveHostFlags | src/settings.ts:128-130 | `useCrumbIssuer` and `rejectUnauthorizedCert` keep the raw value when present and are `true` when absent |
| Settings.HostsAbsent | src/settings.ts:118-120 | without host configs the host map is empty |
| Settings.HostMapKeys | src/settings.ts:124-132 | the host map has exactly the raw host names as keys |
| Settings.HostMapEntry | src/settings.ts:124-132 | with distinct names, each name maps to its resolved raw host |
| Settings.MissingMembers | src/settings.ts:151 | a name is reported missing exactly when it is in `runWith` but not a defined host |
| Settings.FoundAppend | src/settings.ts:152 | the found hosts of two name lists are those of each list, in the order of the names |
| Settings.FoundHosts | src/settings.ts:151-152 | every found host belongs to a listed name, and found plus missing count every name |
| Settings.FoundNone | src/settings.ts:152 | no host is found exactly when no listed name is defined |
| Settings.ResolveJob | src/settings.ts:163-169 | friendly name is the key, `runWith` is the found hosts, name and parameters are copied, and `isDefault` holds exactly when the raw value is the boolean `true` |
| Settings.JobWarned | src/settings.ts:151-157 | a job is warned about exactly when some `runWith` name is not a defined host |
| Settings.WarningsOfJobs | src/settings.ts:149-157 | the warnings are each job's warning, in job order |
| Settings.ErrorsOfJobs | src/settings.ts:159-161 | there is an error exactly when some job resolves to no host |
| Settings.ErrorsOfUnhosted | src/settings.ts:159-161 | a job that resolves to no host leaves an error |
| Settings.UnhostedOfErrors | src/settings.ts:159-161 | every error comes from a job at some index that resolves to no host |
| Settings.JobMapKeys | src/settings.ts:149-169 | the job map has exactly one key per raw job |
| Settings.JobMapEntry | src/settings.ts:149-169 | with distinct names, each job maps to its resolution |
| Settings.ResolveJobs | src/settings.ts:136-182 | with no jobs the result is an empty map with no names and no warnings; otherwise it throws "Errors in Settings - see log" if any error was collected, else returns the job map, the order in which the `Map` yields its names, and the warnings |
| Settings.KeyOrderNames | src/settings.ts:148-163 | the `Map` yields every job name exactly once, and no other name |
| Settings.KeyOrderOfDistinct | src/settings.ts:148-163 | with distinct names, as an object's keys are, the `Map` yields the names in the order of the raw jobs |
| EnvinjectPlugin.EntryLines | src/jenkins/envinjectPlugin.ts:14 | every entry becomes exactly `k=v`, the value rendered as `${v}` renders it, in entry order |
| EnvinjectPlugin.PropertiesEmpty | src/jenkins/envinjectPlugin.ts:14 | no properties give an empty `propertiesContent` |
| EnvinjectPlugin.PropertiesLines | src/jenkins/envinjectPlugin.ts:14 | the text splits on `\n` into exactly the entry lines: no leading, trailing or extra newline |
| EnvinjectPlugin.DecodeEntryLine | src/jenkins/envinjectPlugin.ts:14 | a key without `=` is recovered, with its rendered value, from its line |
| EnvinjectPlugin.PropertiesRoundTrip | src/jenkins/envinjectPlugin.ts:14 | for keys without `=` or newline and rendered values without newline, the entries, with their rendered values, are read back from the text in order |
| EnvinjectPlugin.ShownPlain | src/jenkins/envinjectPlugin.ts:14 | a number, boolean, `null` or `undefined` value renders, as `${v}` does, without newline, `=` or `<` |
| EnvinjectPlugin.XmlConfigRoundTrip | src/jenkins/envinjectPlugin.ts:14-25 | for a version without `"` and entries without `=`, newline or `<` where they would break the text, reading the XML text back gives the version, the rendered entries in order, and exactly the fixed closing flags (`on`, both `keep…` true, `overrideBuildParameters` false) |
| EnvinjectPlugin.FrameFields | src/jenkins/envinjectPlugin.ts:16-25 | the version ends at the attribute's closing `"` and the properties at `</propertiesContent>` when neither holds that stop character |
| Log.PadSpec | src/log.ts:59-63 | `pad(n, to)` ends with the digits of `n`, has length max(to, digits), adds only `0`s, and is the digits themselves when they reach `to` |
| Log.PadValue | src/log.ts:59-63 | the padded text is all digits and reads back as `n` |
| Log.DateLayout | src/log.ts:67 | a four-digit year gives `YYYY-MM-DD`, whose fields read back as the year, `getMonth()+1` and the day |
| Log.TimeLayout | src/log.ts:68 | `HH:MM:SS.mmm`, milliseconds padded to 3, whose fields read back as the parts |
| Log.StampWidth | src/log.ts:67-70 | in range, the timestamp is 23 characters |
| Log.LogLineRoundTrip | src/log.ts:70 | for a timestamp and tag without `]`, the line `[<stamp>] [<tag>] [<level>] <msg>` reads back as exactly that level, tag, message (whatever it holds) and timestamp |
| Log.StampedLineRoundTrip | src/log.ts:59-70 | a line stamped from any date and time parts reads back whole whenever the tag has no `]` |
| Log.StampUnbracketed | src/log.ts:67-68 | the timestamp holds no `]`, so it never ends its field early |
| Log.LevelNameRead | src/log.ts:70 | every level's name reads back as that level |

## Left out

- Asynchrony.
  - `async`/`await` is not modelled, nor the event order of the log stream (`data`, `end`, `error`).
  - `stop()` is fire-and-forget, and its race is not modelled.
  - Each operation is a sequential step. The stream's events are the separate methods `OnData` and `PostDone`.
  - Nothing claims that `end` or `error` fires once.
- The `jenkins` npm client, `xml2js` parsing and building, and `timeout(100)`.
  - The server's answers are the `Server` parameter, and its requests are the `calls` trace.
  - A parsed config is a `JobConfig.Js` tree. JavaScript arrays in it are objects keyed by index.
  - The time between lookups is not modelled.
- `updatePassword`'s URL handling.
  - Splicing the credentials into the URL is not modelled; the client records them as a pair instead.
  - `url.URL` can throw on an invalid base URL. That is not modelled.
  - `Jenkins.password` is declared but never assigned, so it stays `None`.
- `updateCredentials`, called from `src/commands.ts`, has no definition in `src/jenkins.ts` and is not part of this model.
- The `hosts`, `builds` and `errors` getters are the fields `HostRegistry.hosts`, `Jenkins.builds` and `PipelineBuild.errors` read directly.
- Logging.
  - The `logger` calls, the output channel and `new Date()` are not part of this model.
  - `Log` takes the date parts as arguments.
  - `Logger`'s methods only pass their tag on to `LogLine`.
- `JobConfig.TypeErrorMessage`: the exact text of a JavaScript `TypeError` is engine-dependent. The model uses `"TypeError"` for every failed property write, and for `start()`'s call through a missing `jenkinsInstance`.
- JenkinsBuilds.PipelineBuild.Stop, JenkinsBuilds.PipelineBuild.PostDone: without a client, `stop()` (`src/jenkins.ts:254`) and `postDone()` (`src/jenkins.ts:182`) reject with a `TypeError` that nobody observes, because no caller awaits them. The model records no request and no notification for them.
- `Settings.config` (the VS Code workspace configuration) and `validate` (the package schema) are not part of this model. Raw hosts and jobs are given as ordered `(key, value)` lists.
- Settings.ResolveJobs, EnvinjectPlugin.PropertiesConfig: the lists are taken to be in `Object.entries` order already. JavaScript's rule for that order (integer-like keys first, ascending, then the others as inserted) is not modelled.
- Settings.Hosts: the iteration order of the hosts `Map` is not modelled, because within this model the hosts are only read by name.
- `utils.toArray` is not part of this model. It is taken to wrap a lone name into a one-element list.
- Settings.ResolveHost: `...rawHost` can copy unknown extra keys into a host. Only the declared fields are modelled.
- `src/commands.ts`, `src/ui.ts` and the empty `src/test/extension.test.ts` are not part of this model. They are UI glue.
- Numerics: integers are mathematical. JavaScript's float rounding of huge `parseInt` results is not modelled. `NaN` and `undefined` are both `None`.
- EnvinjectPlugin.Shown: a property value is text, an integer, a boolean, `null` or `undefined`. Every integer is rendered in plain decimal, as JavaScript does only below 10^21 in magnitude (larger ones come out in exponent form). Numbers that are not integers (`1.5`, `NaN`), objects and arrays are not modelled.
- JenkinsBuilds.PipelineBuild.LookUpBuild, PipelineStart.LookUp: `build.logStream` (`src/jenkins.ts:234`) is taken not to throw. If it threw synchronously, the `catch` at `src/jenkins.ts:240-248` would pass the error to the done handler; that path is not modelled.
- Streamed data is only handed to the log handler (`src/jenkins.ts:235`). `buildLog` is set once, from the full log, in `postDone` (`src/jenkins.ts:173-189`).
- Handlers: `destroy` drops the stream and the done handler, but does not detach the listeners already registered on the stream. The model records only that `streaming` and `doneSet` become false.
- `PipelineStart.StartSteps`: the model follows the code's two states.
  - A `start` that fails after `nextBuildNumber` was read keeps that number, so a second `start` is refused.
  - A `start` that fails earlier leaves no number, and can be retried.
