# OnionReverseProxy worker role: a Dafny model of the relay supervisor

The worker role of OnionReverseProxy keeps one relay process (`rot.exe`) alive
inside a cloud role instance. It has two classes, and this project models both.

**`RotManager`** owns the relay process. Its constructor:
- rewrites the relay's configuration file, replacing every `127.0.0.1:80` with the
  `HiddenServicePortDests` setting and then every `127.0.0.1:443` with
  `HiddenServiceSSLPortDests`;
- starts the process;
- raises its priority.

Two handlers classify each line the relay writes:
- a stdout line tagged `[err]` is handled as a stderr line;
- a stderr line holding `Out of memory` or `Dying` kills the relay.

`IsProcessOk` is the health probe. `Dispose` is a one-shot teardown: it polls
`HasExited`, kills the process if that poll does not show an exit, polls until it
has exited, and then releases the handle and drops it.

**`WorkerRole`** hosts the supervisor:
- `Run` sweeps stale relay processes, runs `RunAsync`, and on every way out sweeps
  again and sets the run-complete event.
- `RunAsync` derives the instance number from the role instance id, builds a
  `RotManager` for it in a `using` block, and waits in 30-second steps while no
  cancellation has been requested and the process is healthy.
- An unhandled out-of-memory exception cancels the run.
- A configuration-setting change takes the instance offline.
- `OnStop` cancels and then waits for `Run` to finish.
- `Dispose` is one-shot.

The modules follow that structure:

- `Wrappers`: `Option`, which stands for a .NET reference that may be null.
- `Tracing`: the trace entries (level and message).
- `Text`: the .NET string operations used: `IsNullOrWhiteSpace`, ordinal
  `Contains`/`IndexOf`, `String.Replace` (all non-overlapping occurrences, left to
  right), and `LastIndexOf` on one character.
- `Numbers`: `Int32.TryParse` with the integer number style, and `Int32.ToString`.
- `OutputClassifier`: the two `DataReceived` handlers, as functions returning an
  action.
- `ConfigTemplate`: the configuration substitution and the configuration file name.
- `Processes`: the relay process as the supervisor sees it.
  - `CheckProcess` is the three-way health decision.
  - `ChildProcess` is a class with `Kill`, `HasExited` polls and `Dispose`. The
    outcomes the operating system decides are fixed when the process is created:
    whether `Kill` is refused, and how many polls pass before an accepted kill
    shows as an exit.
- `Supervisor`: the `RotManager` class and its constructor `Start`. `Start` reports
  the constructor's exceptions as a `StartResult`.
- `WorkerRoles`:
  - the pure decisions (`GetRoleInstanceNumber`, the unhandled-exception rule, the
    environment-change rule);
  - the `WorkerRole` class, whose methods update the cancellation flag, the
    run-complete flag, the disposal counters, the trace log, and an event trace of
    the actions whose order the code promises.

The environment is passed in as parameters:
- the configuration template and settings;
- whether the host allows the spawn and the priority change;
- the initial responsiveness;
- a sequence of `EnvStep`s, saying what happens during each 30-second wait
  (cancellation, exit of the process, responsiveness).

The per-interval `responding` flag is a free over-approximation. .NET's
`Process.Responding` reports true for a process without a main window, and the
relay is started with `CreateNoWindow`, so the deployed role may never take the
"not responding" path.

`RunAsync` requires only that some step ends the loop. Apart from that, the model
takes no time, has no concurrency, and does no I/O.

The no-placeholder-left property of the configuration substitution is proved under
a stronger hypothesis than "a value without the placeholder leaves no placeholder",
because that statement is false.
A value can end with the beginning of a placeholder whose rest follows in the
text. `ConfigTemplate.PlaceholderCanSurvive` exhibits this: the value `127.0.0.1:8`
on the text `127.0.0.1:800`. The no-placeholder-left result is therefore proved
for values that are `Clean`: they hold no placeholder, and no placeholder can
straddle their edges.

Setting `PriorityClass` is not guarded (RotManager.cs:98). A refusal therefore
makes the constructor throw after the process has started, and `RunAsync` logs the
exception. `Supervisor.Start` returns that process as `orphan`, which no
`RotManager` owns and no `Dispose` reaches.

## Model

| member | source | states |
|---|---|---|
| `Text.IsWhiteSpace` | WebReverseProxyWorkerRole/RotManager.cs:31-44 | the ASCII white space (tab to carriage return, and space) counts as white space, and no printable ASCII character does |
| `Text.IsNullOrWhiteSpace` | WebReverseProxyWorkerRole/RotManager.cs:31-44 | null and the empty string are blank; a string holding a printable ASCII character is not |
| `Text.Contains` | WebReverseProxyWorkerRole/RotManager.cs:33-47 | the empty pattern is contained in every text, and a contained pattern is no longer than the text |
| `Text.ReplaceAll` | WebReverseProxyWorkerRole/RotManager.cs:77-78 | a text without the pattern is returned unchanged |
| `Text.ReplaceAllAtFirst` | WebReverseProxyWorkerRole/RotManager.cs:77-78 | definition: Replace rewrites the first occurrence and then continues right after it, so matches do not overlap (the property is `Text.ReplaceAllKeepsFree`) |
| `Text.SuffixAfterLast` | WebReverseProxyWorkerRole/WorkerRole.cs:106-108 | the suffix after the last separator holds no separator and is no longer than the id |
| `Text.IndexOfFrom` | WebReverseProxyWorkerRole/RotManager.cs:77-78 | the result is the first index at or after `k` where the pattern occurs; `None` exactly when it occurs nowhere from `k` on |
| `Text.IndexOf` | WebReverseProxyWorkerRole/RotManager.cs:33 | the result is the first occurrence of the pattern, and `None` exactly when the text does not contain it |
| `Text.LastIndexOf` | WebReverseProxyWorkerRole/WorkerRole.cs:106 | the result is -1 or an index holding the character, and no later index holds it |
| `Text.SuffixAfterLastShape` | WebReverseProxyWorkerRole/WorkerRole.cs:106 | `Substring(LastIndexOf(c) + 1)` is a suffix without `c`; it is the whole id when `c` is absent, and otherwise `c` stands just before it |
| `Text.SuffixAfterLastKeeps` | WebReverseProxyWorkerRole/WorkerRole.cs:106 | a character after the last `c` lies inside that suffix, at the matching position |
| `Text.SuffixAfterLastOf` | WebReverseProxyWorkerRole/WorkerRole.cs:106 | the suffix after the last `c` of `a + c + b`, where `b` has no `c`, is `b` |
| `Text.LacksFirstChar` | WebReverseProxyWorkerRole/RotManager.cs:47 | a text without the pattern's first character does not contain the pattern |
| `Text.OccursInConcat` | WebReverseProxyWorkerRole/RotManager.cs:77-78 | an occurrence in a concatenation lies in the left part, in the right part, or across the seam |
| `Text.NotContainsSuffix` | WebReverseProxyWorkerRole/RotManager.cs:77-78 | a text free of `q` has every suffix free of `q` |
| `Text.NoneBeforeFree` | WebReverseProxyWorkerRole/RotManager.cs:77-78 | with no occurrence starting before `m`, the first `m` characters hold none |
| `Text.CleanThenFree` | WebReverseProxyWorkerRole/RotManager.cs:77-78 | a clean value followed by a `q`-free text contains no `q` |
| `Text.FreeThenClean` | WebReverseProxyWorkerRole/RotManager.cs:77-78 | a `q`-free text followed by a `q`-free text that starts with a clean value contains no `q` |
| `Text.AroundFirstMatch` | WebReverseProxyWorkerRole/RotManager.cs:77-78 | before the first occurrence of `p` there is no `q`; after it there is none when the text had none |
| `Text.ReplaceAllKeepsFree` | WebReverseProxyWorkerRole/RotManager.cs:77-78 | Replace with a value clean for `q` leaves no `q`: it removes every `p` when `q == p`, and keeps a `q`-free text `q`-free |
| `Numbers.TrimStartShape` | WebReverseProxyWorkerRole/WorkerRole.cs:106 | the leading white space TryParse skips is a prefix of white space, and the rest is kept unchanged |
| `Numbers.TrimEndShape` | WebReverseProxyWorkerRole/WorkerRole.cs:106 | the trailing white space TryParse skips is a suffix of white space, and the rest is kept unchanged |
| `Numbers.ParseSigned` | WebReverseProxyWorkerRole/WorkerRole.cs:106 | the text parses only when every character is a digit or a sign |
| `Numbers.TryParseInt32` | WebReverseProxyWorkerRole/WorkerRole.cs:106-108 | a successful parse yields a value in the 32-bit range |
| `Numbers.NatToDigits` | WebReverseProxyWorkerRole/WorkerRole.cs:114 | the decimal text is non-empty and all digits, has no leading zero, and its value is `n` |
| `Numbers.IntToString` | WebReverseProxyWorkerRole/RotManager.cs:56 | ToString yields digits, ending in a digit, with at most a leading '-' |
| `Numbers.TrimNothing` | WebReverseProxyWorkerRole/WorkerRole.cs:106 | a text without white space at either end is not trimmed |
| `Numbers.TrimKeeps` | WebReverseProxyWorkerRole/WorkerRole.cs:106 | every character that is not white space survives the trimming |
| `Numbers.ParseSignedIntToString` | WebReverseProxyWorkerRole/WorkerRole.cs:106 | parsing reads back every integer that ToString writes |
| `Numbers.TryParseIntToString` | WebReverseProxyWorkerRole/WorkerRole.cs:106 | `int.TryParse(n.ToString())` gives back `n` for every 32-bit `n` |
| `Numbers.IntToStringInjective` | WebReverseProxyWorkerRole/RotManager.cs:56 | distinct integers have distinct decimal texts |
| `Numbers.NotANumber` | WebReverseProxyWorkerRole/WorkerRole.cs:106-108 | a text holding a character that is not white space, a sign or a digit does not parse |
| `OutputClassifier.ActionLog` | WebReverseProxyWorkerRole/RotManager.cs:37-46 | definition: an ignored line writes nothing; a logged line writes exactly one entry, at information or error level, with the action's message (the properties are in the handler lemmas and `Supervisor.RotManager.Perform`) |
| `OutputClassifier.ErrorOutputHandler` | WebReverseProxyWorkerRole/RotManager.cs:42-50 | a line is ignored exactly when it is null or blank; otherwise it is an error with the "RotManager : " prefix that kills iff it holds "Out of memory" or "Dying" |
| `OutputClassifier.OutputHandler` | WebReverseProxyWorkerRole/RotManager.cs:29-40 | a line is ignored exactly when it is blank; an information entry is only ever made for an unmarked line, with the prefix |
| `OutputClassifier.BlankLineIgnored` | WebReverseProxyWorkerRole/RotManager.cs:31-44 | a null, empty or white-space line logs nothing and kills nothing, on either stream |
| `OutputClassifier.MarkedLineIsErrorLine` | WebReverseProxyWorkerRole/RotManager.cs:33-34 | a stdout line with `[err]` gets exactly the stderr outcome, and it kills iff it is fatal |
| `OutputClassifier.UnmarkedOutputNeverKills` | WebReverseProxyWorkerRole/RotManager.cs:35-38 | an unmarked stdout line never kills, and a non-blank one is logged as information with the prefix |
| `OutputClassifier.ErrorLineKillsIffFatal` | WebReverseProxyWorkerRole/RotManager.cs:44-48 | a non-blank stderr line writes exactly one error entry, and kills iff it holds a fatal substring |
| `OutputClassifier.FatalMatchIsCaseSensitive` | WebReverseProxyWorkerRole/RotManager.cs:47 | "dying" and "out of memory" in lower case are logged as errors but do not kill |
| `OutputClassifier.MarkedFatalLineKills` | WebReverseProxyWorkerRole/RotManager.cs:33-48 | "[err] Out of memory" on stdout kills the relay |
| `ConfigTemplate.Substitute` | WebReverseProxyWorkerRole/RotManager.cs:77-78 | a text holding neither placeholder is left unchanged |
| `ConfigTemplate.SubstituteLeavesNoPlaceholder` | WebReverseProxyWorkerRole/RotManager.cs:77-78 | with clean setting values, neither placeholder is left after the two replacements |
| `ConfigTemplate.SecondRunIsNoOp` | WebReverseProxyWorkerRole/RotManager.cs:76-79 | with clean values, substituting the written file again, with any settings, changes nothing ("works only once") |
| `ConfigTemplate.PlaceholderCanSurvive` | WebReverseProxyWorkerRole/RotManager.cs:77 | a value without the placeholder can still leave one behind (value `127.0.0.1:8` on text `127.0.0.1:800`) |
| `ConfigTemplate.ConfFileName` | WebReverseProxyWorkerRole/RotManager.cs:56 | the configuration file lies under the fixed data-directory prefix, and its name ends in a digit (the instance number's last) |
| `ConfigTemplate.ConfFileNameInjective` | WebReverseProxyWorkerRole/RotManager.cs:56 | instances with different numbers get different configuration files |
| `Processes.CheckProcess` | WebReverseProxyWorkerRole/RotManager.cs:104-129 | healthy iff non-null, not exited and responding; each of the three failure verdicts iff its own condition holds |
| `Processes.HealthMessage` | WebReverseProxyWorkerRole/RotManager.cs:116-126 | every failure verdict has a non-empty reason |
| `Processes.HealthMessagesDistinct` | WebReverseProxyWorkerRole/RotManager.cs:116-126 | the reasons "is null", "has exited" and "is not responding" are pairwise distinct |
| `Processes.ChildProcess.constructor` | WebReverseProxyWorkerRole/RotManager.cs:81-96 | a new process is running, with the responsiveness and kill policy the host fixes |
| `Processes.ChildProcess.Kill` | WebReverseProxyWorkerRole/RotManager.cs:146 | Kill succeeds iff the host allows it and the process has neither exited nor is still terminating from an earlier Kill; each call is counted |
| `Processes.ChildProcess.PollHasExited` | WebReverseProxyWorkerRole/RotManager.cs:147 | after an accepted kill, each poll brings the exit one poll nearer; otherwise nothing changes |
| `Processes.ChildProcess.Release` | WebReverseProxyWorkerRole/RotManager.cs:159 | Process.Dispose releases the handle and records whether the process had exited |
| `Processes.ChildProcess.Advance` | WebReverseProxyWorkerRole/WorkerRole.cs:126 | what one 30-second wait does to the process: it may exit, and its responsiveness is set |
| `Supervisor.WrittenConfig` | WebReverseProxyWorkerRole/RotManager.cs:76-79 | a configuration is written iff the file and both settings were read |
| `Supervisor.StartFailure` | WebReverseProxyWorkerRole/RotManager.cs:76-98 | the constructor succeeds iff the file and settings are read and the spawn and priority change are allowed; a priority refusal is the last failure |
| `Supervisor.Start` | WebReverseProxyWorkerRole/RotManager.cs:54-101 | the constructor writes the substituted text, fails with its first failing step's error, and orphans the started process when the priority change is refused |
| `Supervisor.RotManager.constructor` | WebReverseProxyWorkerRole/RotManager.cs:54-101 | a new supervisor owns a fresh running process and the configuration file of its instance |
| `Supervisor.RotManager.IsProcessOk` | WebReverseProxyWorkerRole/RotManager.cs:104-129 | its `HasExited` query is a poll, so an exit that is due shows; returns true iff the process it then sees is healthy; on false it logs exactly one error with the reason |
| `Supervisor.RotManager.Perform` | WebReverseProxyWorkerRole/RotManager.cs:34-48 | logs the action, and kills iff the action asks it to; a kill on a disposed handle is a null reference |
| `Supervisor.RotManager.OnOutputData` | WebReverseProxyWorkerRole/RotManager.cs:29-40 | the stdout handler logs the classified line; an unmarked line never kills and leaves the process untouched; a killing line calls Kill once, which is accepted iff the host allows it and the process is alive and not already terminating, throws otherwise, and is a null reference on a dropped handle |
| `Supervisor.RotManager.OnErrorData` | WebReverseProxyWorkerRole/RotManager.cs:42-50 | the stderr handler logs the line, and attempts a kill iff the line is non-blank and fatal; that Kill is counted once, accepted iff the host allows it and the process is alive and not already terminating, throws otherwise, and is a null reference on a dropped handle |
| `Supervisor.RotManager.DisposeCore` | WebReverseProxyWorkerRole/RotManager.cs:134-170 | first call with disposing: `HasExited` is polled (RotManager.cs:142), and the process is killed only if that poll shows no exit; it is then waited for until it has exited, unless Kill threw (refused, or still terminating from a handler's Kill), in which case the exception is logged and the process is released still running; it is released and dropped; later calls change nothing |
| `Supervisor.RotManager.Dispose` | WebReverseProxyWorkerRole/RotManager.cs:172-175 | Dispose is Dispose(true): one-shot teardown with the same guarantees; a live process whose kill the host refuses is released still running |
| `Supervisor.HandlerKillThenDispose` | WebReverseProxyWorkerRole/RotManager.cs:134-175 | after a fatal stderr line has killed the relay, Dispose calls Kill again only when its `HasExited` poll does not yet show the exit; that Kill throws on the terminating process and is logged, and the handle is then released before the exit |
| `Supervisor.HandlerKillThenCheck` | WebReverseProxyWorkerRole/RotManager.cs:104-129 | after a fatal stderr line has killed the relay, IsProcessOk fails with "process has exited" when the exit is due on its poll, and otherwise reports the responsiveness |
| `WorkerRoles.GetRoleInstanceNumber` | WebReverseProxyWorkerRole/WorkerRole.cs:102-116 | the index is a 32-bit value, and 0 when neither suffix parses |
| `WorkerRoles.UnderscoreSuffixWins` | WebReverseProxyWorkerRole/WorkerRole.cs:106 | a number after the last '_' is the result, whatever follows the last '.' |
| `WorkerRoles.DotSuffixFallback` | WebReverseProxyWorkerRole/WorkerRole.cs:106-111 | without a number after the last '_', the '.' suffix is parsed, and the result is 0 and "not found" when that fails too |
| `WorkerRoles.UnderscoreRoundTrip` | WebReverseProxyWorkerRole/WorkerRole.cs:106 | an id of the form `prefix_n` yields `n` for any prefix and any 32-bit `n` |
| `WorkerRoles.DotRoundTrip` | WebReverseProxyWorkerRole/WorkerRole.cs:106-108 | an id of the form `prefix.n` yields `n` for any prefix and any 32-bit `n` |
| `WorkerRoles.UnderscoreSuffixSpoiled` | WebReverseProxyWorkerRole/WorkerRole.cs:106 | when a '.' follows the last '_', the '_' suffix does not parse |
| `WorkerRoles.NoSuffixExample` | WebReverseProxyWorkerRole/WorkerRole.cs:105-114 | "role" gives 0, not found, and the "not found" warning is logged first |
| `WorkerRoles.UnderscoreExample` | WebReverseProxyWorkerRole/WorkerRole.cs:106 | "role_3" gives 3 |
| `WorkerRoles.DotExample` | WebReverseProxyWorkerRole/WorkerRole.cs:108 | "role.7" gives 7 |
| `WorkerRoles.BothSuffixesExample` | WebReverseProxyWorkerRole/WorkerRole.cs:106-108 | "a.5_3" gives 3 |
| `WorkerRoles.BothSuffixesDotExample` | WebReverseProxyWorkerRole/WorkerRole.cs:108 | in "a.5_3" the suffix after the last '.', "5_3", does not parse, so only the '_' suffix yields a number |
| `WorkerRoles.SuffixNotANumber` | WebReverseProxyWorkerRole/WorkerRole.cs:106-108 | the suffix after the last separator does not parse when it holds a character that is no white space, sign or digit |
| `WorkerRoles.InstanceNumberLog` | WebReverseProxyWorkerRole/WorkerRole.cs:110-114 | warnings only: "not found" with the id when no suffix parsed, then always the instance number |
| `WorkerRoles.UnhandledLog` | WebReverseProxyWorkerRole/WorkerRole.cs:25-41 | exactly one error entry with the unhandled-exception prefix, naming the exception's type when there is one |
| `WorkerRoles.CancelsOnUnhandled` | WebReverseProxyWorkerRole/WorkerRole.cs:23-42 | only an Exception object can cancel; an Exception cancels iff it is an OutOfMemoryException |
| `WorkerRoles.AnyConfigurationSettingChange` | WebReverseProxyWorkerRole/WorkerRole.cs:50 | true iff some change in the list is a configuration-setting change |
| `WorkerRoles.ChangingCancel` | WebReverseProxyWorkerRole/WorkerRole.cs:48-54 | a setting change sets `e.Cancel`; otherwise `e.Cancel` keeps its value |
| `WorkerRoles.SettingChangeTakesOffline` | WebReverseProxyWorkerRole/WorkerRole.cs:50-52 | a setting change at any position takes the instance offline |
| `WorkerRoles.TopologyOnlyLeavesCancel` | WebReverseProxyWorkerRole/WorkerRole.cs:50-53 | topology changes alone leave `e.Cancel` as it was |
| `WorkerRoles.FirstStop` | WebReverseProxyWorkerRole/WorkerRole.cs:124 | the index of the first wait interval that ends the loop |
| `WorkerRoles.LoopFailsOnUnhealthy` | WebReverseProxyWorkerRole/WorkerRole.cs:124-127 | when the loop does not end by cancellation, the process it leaves is not healthy; a cancellation inside a wait means at least one wait |
| `WorkerRoles.WorkerRole.constructor` | WebReverseProxyWorkerRole/WorkerRole.cs:18-19 | the token is not cancelled, the run-complete event is not set, and nothing has been disposed |
| `WorkerRoles.WorkerRole.OnUnhandledException` | WebReverseProxyWorkerRole/WorkerRole.cs:21-46 | logs the exception (or NULL), and requests cancellation iff it is an out-of-memory exception |
| `WorkerRoles.WorkerRole.Supervise` | WebReverseProxyWorkerRole/WorkerRole.cs:124-127 | the loop waits again only while not cancelled and healthy; the number of waits, the cancellation and the process's exit and responsiveness are those the first stopping interval determines; when it ends on health, exactly one IsProcessOk error is logged, and otherwise nothing |
| `WorkerRoles.WorkerRole.RunRotManager` | WebReverseProxyWorkerRole/WorkerRole.cs:122-128 | a constructed RotManager is supervised and then always disposed (disposed flag set, its process released); Kill is called once iff the process was still alive, and the process has exited unless the host refused that kill; a constructor that throws skips the block |
| `WorkerRoles.WorkerRole.RunAsync` | WebReverseProxyWorkerRole/WorkerRole.cs:118-142 | logs the instance number, runs the using block, logs a constructor exception, and always logs the end |
| `WorkerRoles.WorkerRole.Run` | WebReverseProxyWorkerRole/WorkerRole.cs:75-100 | sweep, RunAsync, sweep, then the run-complete event is set, on every path |
| `WorkerRoles.WorkerRole.OnStop` | WebReverseProxyWorkerRole/WorkerRole.cs:144-154 | cancellation is requested before the wait for run completion |
| `WorkerRoles.WorkerRole.DisposeCore` | WebReverseProxyWorkerRole/WorkerRole.cs:159-177 | the first call with disposing disposes the token source and the event once; later calls dispose nothing |
| `WorkerRoles.WorkerRole.Dispose` | WebReverseProxyWorkerRole/WorkerRole.cs:180-183 | Dispose is Dispose(true): each resource is disposed at most once |
| `WorkerRoles.CancelledBeforeLoop` | WebReverseProxyWorkerRole/WorkerRole.cs:124 | a cancellation requested before the loop means no wait and no in-wait cancellation, but a built RotManager is still disposed |

## Left out

- Process spawning, the `ProcessStartInfo` settings, stream redirection and
  `BeginOutputReadLine`/`BeginErrorReadLine` (RotManager.cs:81-100): these are
  operating-system I/O. The process is the `ChildProcess` record, and the host's
  answers are parameters.
- File reading and writing, and the debug-build deletion of the hidden-service key
  files (RotManager.cs:58-79). The file's text and the two settings are inputs,
  and the text written back is a result of `Supervisor.Start`.
- `TryKillTorIfRequired` (RotManager.cs:15-27) lists processes by name, which is
  an operating-system query. It appears as the opaque `KillSweep` event in `Run`'s
  trace.
- `OnStart` (WorkerRole.cs:56-73), `ServicePointManager`, Application Insights
  telemetry, `Debugger.Break` and `base.OnStop`: these are host configuration, with
  no decision in them.
- Timing and concurrency are not modelled:
  - `Task.Delay(30000)` and `Task.Delay(200)`;
  - the output callbacks running beside `Dispose`;
  - the blocking `runCompleteEvent.WaitOne` in `OnStop`, which is an event in the
    trace;
  - a cancellation arriving during a wait, which is the `cancel` flag of that
    interval's `EnvStep`.
- `Supervisor.RotManager.DisposeCore`: exceptions from `Process.Dispose` are not
  modelled, because the model's release cannot fail. An exception from `Kill` is
  logged under its fixed prefix, without the exception text.
- `WorkerRoles.WorkerRole.RunAsync`: the logged exception carries the fixed prefix
  "WorkerRole.RunAsync Exception", not the base exception's text. The catch clauses
  for `OperationCanceledException` and `AggregateException` are not separate paths:
  cancellation leaves the loop normally in the model.
- `WorkerRoles.WorkerRole.Run`: the `catch` branches (WorkerRole.cs:84-94) are not
  modelled. `RunAsync` catches every exception itself, so they are unreachable.
- `WorkerRoles.WorkerRole.OnUnhandledException`: the message carries the exception's
  type name in place of `GetBaseException().ToString()`.
- Trace output is kept per object: `log` of each `RotManager` and `log` of the
  `WorkerRole`, in place of the process-wide `Trace` listeners.
- `Numbers.TryParseInt32`: culture-specific signs are not modelled, nor the
  trailing NUL characters .NET accepts after the number ("3\0" gives 3, and the
  model rejects it, like `Numbers.NotANumber`). It follows the invariant-culture
  `NumberStyles.Integer` rules: white space U+0009–U+000D and U+0020 at either end,
  one optional sign, ASCII digits, and the Int32 range.
- `Text.LastIndexOf`: it models the one-character ordinal search. The source passes
  one-character strings to the culture-sensitive `LastIndexOf(string)`, which agrees
  with it for `_` and `.` on ids without combining marks, such as the ASCII role
  instance ids the host assigns.
- `ConfigTemplate.SubstituteLeavesNoPlaceholder`: it requires `Clean` values, which
  is stronger than "the values do not contain a placeholder". The weaker condition
  does not imply the result, as `ConfigTemplate.PlaceholderCanSurvive` shows.
- `Supervisor.Start`: on a refused priority change, the process that was already
  started is returned as `orphan` and is not killed. In the code only the final
  process sweep of `Run` (`TryKillTorIfRequired`, WorkerRole.cs:97) can stop it,
  unless the host refuses that kill too. The sweep is the opaque `KillSweep` event,
  so the model does not show the orphan ending.
- `Supervisor.RotManager.Perform`: a `Kill` that throws (`KillThrew`) or meets a
  dropped handle (`NullHandle`) is an exception escaping `ErrorOutputHandler`
  (RotManager.cs:48) on the reader's callback thread. In the code nothing catches it:
  `CurrentDomain_UnhandledException` runs without cancelling, and the .NET Framework
  runtime then ends the host process. The model returns the outcome as a tag and
  goes on.
- `WorkerRoles.WorkerRole.Supervise`: it requires a live process, and a started
  relay is always live, so a relay that exits before the first health check
  (no wait, "process has exited" logged, RotManager.cs:108, 121) is not
  represented. It also requires that no handler kill is pending: the output
  handlers do not run during the loop, because the model has no concurrency.
  `Supervisor.HandlerKillThenCheck` shows a health check after a handler kill.
