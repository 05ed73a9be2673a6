/**
 * RotManager: owns the relay process. Construction substitutes and writes the
 * configuration and starts the process; the two output handlers classify lines
 * and kill on a fatal one; IsProcessOk is the health probe; Dispose tears the
 * process down once.
 */
module Supervisor {
  import opened Wrappers
  import opened Tracing
  import opened OutputClassifier
  import opened ConfigTemplate
  import opened Processes

  const KillExceptionMessage: string := "RotManager.Dispose process.Kill Exception"
  const PortSetting: string := "HiddenServicePortDests"
  const SslPortSetting: string := "HiddenServiceSSLPortDests"

  /** What a handler's kill request came to. */
  datatype KillOutcome =
    | NoKill          // the line did not ask for a kill
    | KillAccepted    // Process.Kill returned
    | KillThrew       // Process.Kill threw; nothing in the handler catches it
    | NullHandle      // the handle was already disposed: a NullReferenceException

  /** Why the constructor threw, in the order the constructor can throw. */
  datatype StartError =
    | ConfFileMissing        // File.ReadAllText
    | SettingMissing(name: string)  // RoleEnvironment.GetConfigurationSettingValue
    | SpawnRefused           // Process.Start
    | PriorityRefused        // setting PriorityClass, after the process has started

  datatype StartResult =
    | Started(rot: RotManager)
    | StartFailed(error: StartError)

  /** The inputs the constructor reads from files, settings and the host. */
  datatype StartInputs = StartInputs(
    template: Option<string>,
    portDests: Option<string>,
    sslDests: Option<string>,
    spawnAllowed: bool,
    priorityAllowed: bool,
    child: ChildSpec)

  /** The constructor got the configuration file and both settings. */
  predicate ConfigRead(inputs: StartInputs) {
    inputs.template.Some? && inputs.portDests.Some? && inputs.sslDests.Some?
  }

  /** The text the constructor writes back to the configuration file, if it gets that far. */
  function WrittenConfig(inputs: StartInputs): (r: Option<string>)
    ensures r.Some? <==> ConfigRead(inputs)
  {
    if ConfigRead(inputs) then
      Some(Substitute(inputs.template.value, inputs.portDests.value, inputs.sslDests.value))
    else None
  }

  /** The first step of the constructor that throws, if any. */
  function StartFailure(inputs: StartInputs): (r: Option<StartError>)
    ensures r.None? <==> ConfigRead(inputs) && inputs.spawnAllowed && inputs.priorityAllowed
    ensures r == Some(PriorityRefused) <==> ConfigRead(inputs) && inputs.spawnAllowed && !inputs.priorityAllowed
  {
    if inputs.template.None? then Some(ConfFileMissing)
    else if inputs.portDests.None? then Some(SettingMissing(PortSetting))
    else if inputs.sslDests.None? then Some(SettingMissing(SslPortSetting))
    else if !inputs.spawnAllowed then Some(SpawnRefused)
    else if !inputs.priorityAllowed then Some(PriorityRefused)
    else None
  }

  /**
   * new RotManager(i): the constructor, with its exceptions as StartFailed.
   * `orphan` is the process started before a refused priority change: no
   * RotManager owns it, so no Dispose reaches it.
   */
  method Start(i: int, inputs: StartInputs) returns (r: StartResult, written: Option<string>, orphan: Option<ChildProcess>)
    ensures written == WrittenConfig(inputs)
    ensures r.StartFailed? <==> StartFailure(inputs).Some?
    ensures r.StartFailed? ==> r.error == StartFailure(inputs).value
    ensures orphan.Some? <==> StartFailure(inputs) == Some(PriorityRefused)
    ensures orphan.Some? ==> fresh(orphan.value) && orphan.value.State() == ProcState(false, inputs.child.responding)
    ensures r.Started? ==> fresh(r.rot) && fresh(r.rot.process) && r.rot.Valid()
    ensures r.Started? ==> r.rot.confFile == ConfFileName(i) && Some(r.rot.config) == written
    ensures r.Started? ==> !r.rot.disposedValue && r.rot.log == []
    ensures r.Started? ==> r.rot.process.State() == ProcState(false, inputs.child.responding)
    ensures r.Started? ==> r.rot.process.killRefused == inputs.child.killRefused && r.rot.process.killCalls == 0
    ensures r.Started? ==> !r.rot.process.killRequested
  {
    written := WrittenConfig(inputs);
    orphan := None;
    var failure := StartFailure(inputs);
    if failure.Some? {
      if failure.value == PriorityRefused {
        var p := new ChildProcess(inputs.child);
        orphan := Some(p);
      }
      r := StartFailed(failure.value);
    } else {
      var rot := new RotManager(i, written.value, inputs.child);
      r := Started(rot);
    }
  }

  class RotManager {
    /** The relay process; null once disposed. */
    var process: ChildProcess?
    /** To detect redundant Dispose calls. */
    var disposedValue: bool
    /** What this supervisor has written through Trace. */
    var log: seq<LogEntry>
    const confFile: string
    /** The configuration text written to confFile. */
    const config: string

    /** A handle the supervisor still holds has not been released. */
    ghost predicate Valid()
      reads this, process
    {
      process != null ==> !process.released
    }

    /** The process as IsProcessOk sees it. */
    function View(): Option<ProcState>
      reads this, process
    {
      if process == null then None else Some(process.State())
    }

    /** The part of the constructor after the checks that can throw. */
    constructor (i: int, config: string, child: ChildSpec)
      ensures Valid() && fresh(process) && !disposedValue && log == []
      ensures this.confFile == ConfFileName(i) && this.config == config
      ensures process.State() == ProcState(false, child.responding)
      ensures process.killRefused == child.killRefused && process.killCalls == 0 && !process.killRequested
      ensures process.exitPolls == child.exitPolls
    {
      confFile := ConfFileName(i);
      this.config := config;
      process := new ChildProcess(child);
      disposedValue := false;
      log := [];
    }

    /**
     * IsProcessOk: true exactly for a live, responding process; otherwise the
     * reason is traced. Its HasExited query is a poll, so an exit that is due
     * shows here.
     */
    method IsProcessOk() returns (ok: bool)
      modifies this`log, process
      ensures process != null ==>
        && process.hasExited == old(process.ExitShowsOnPoll())
        && process.exitPolls == (if old(process.killRequested) && !old(process.hasExited) && old(process.exitPolls) > 0
                                 then old(process.exitPolls) - 1 else old(process.exitPolls))
        && process.responding == old(process.responding) && process.killRequested == old(process.killRequested)
        && process.killCalls == old(process.killCalls)
        && process.released == old(process.released) && process.exitedAtRelease == old(process.exitedAtRelease)
      ensures ok <==> CheckProcess(View()) == Healthy
      ensures ok ==> log == old(log)
      ensures !ok ==> log == old(log) + [LogEntry(Error, HealthMessage(CheckProcess(View())))]
    {
      if process != null {
        var gone := process.PollHasExited();
      }
      var h := CheckProcess(View());
      ok := h == Healthy;
      if !ok {
        log := log + [LogEntry(Error, HealthMessage(h))];
      }
    }

    /** Trace the action and carry out its kill request. */
    method Perform(a: Action) returns (outcome: KillOutcome)
      modifies this`log, process
      ensures log == old(log) + ActionLog(a)
      ensures outcome == NoKill <==> !Kills(a)
      ensures Kills(a) && process == null ==> outcome == NullHandle
      ensures Kills(a) && process != null ==>
        && process.killCalls == old(process.killCalls) + 1
        && (outcome == KillAccepted <==> old(process.AcceptsKill()))
        && (outcome == KillAccepted || outcome == KillThrew)
        && process.killRequested == (old(process.killRequested) || outcome == KillAccepted)
        && process.State() == old(process.State()) && process.released == old(process.released)
        && process.exitPolls == old(process.exitPolls)
      ensures !Kills(a) && process != null ==> unchanged(process)
    {
      log := log + ActionLog(a);
      if !Kills(a) {
        outcome := NoKill;
      } else if process == null {
        outcome := NullHandle;
      } else {
        var ok := process.Kill();
        outcome := if ok then KillAccepted else KillThrew;
      }
    }

    /** The OutputDataReceived handler. */
    method OnOutputData(data: Option<string>) returns (outcome: KillOutcome)
      modifies this`log, process
      ensures log == old(log) + ActionLog(OutputHandler(data))
      ensures outcome == NoKill <==> !Kills(OutputHandler(data))
      ensures data.Some? && !Text.Contains(data.value, ErrorMarker) ==> outcome == NoKill
      ensures Kills(OutputHandler(data)) && process == null ==> outcome == NullHandle
      ensures Kills(OutputHandler(data)) && process != null ==>
        && process.killCalls == old(process.killCalls) + 1
        && (outcome == KillAccepted <==> old(process.AcceptsKill()))
        && (outcome == KillAccepted || outcome == KillThrew)
        && process.killRequested == (old(process.killRequested) || outcome == KillAccepted)
        && process.State() == old(process.State()) && process.released == old(process.released)
        && process.exitPolls == old(process.exitPolls)
      ensures outcome == NoKill && process != null ==> unchanged(process)
    {
      if data.Some? && !Text.Contains(data.value, ErrorMarker) {
        UnmarkedOutputNeverKills(data);
      }
      outcome := Perform(OutputHandler(data));
    }

    /** The ErrorDataReceived handler. */
    method OnErrorData(data: Option<string>) returns (outcome: KillOutcome)
      modifies this`log, process
      ensures log == old(log) + ActionLog(ErrorOutputHandler(data))
      ensures outcome != NoKill <==> !Text.IsNullOrWhiteSpace(data) && IsFatal(data.value)
      ensures Kills(ErrorOutputHandler(data)) && process == null ==> outcome == NullHandle
      ensures Kills(ErrorOutputHandler(data)) && process != null ==>
        && process.killCalls == old(process.killCalls) + 1
        && (outcome == KillAccepted <==> old(process.AcceptsKill()))
        && (outcome == KillAccepted || outcome == KillThrew)
        && process.killRequested == (old(process.killRequested) || outcome == KillAccepted)
        && process.State() == old(process.State()) && process.released == old(process.released)
        && process.exitPolls == old(process.exitPolls)
      ensures outcome == NoKill && process != null ==> unchanged(process)
    {
      outcome := Perform(ErrorOutputHandler(data));
    }

    /**
     * Dispose(bool): once only. HasExited is polled; a process whose exit does
     * not show is killed and waited for; the handle is then released and
     * dropped. A Kill that throws (refused, or the process is still terminating
     * from an earlier Kill) is traced, and the handle is released all the same.
     */
    method DisposeCore(disposing: bool)
      requires Valid()
      modifies this, process
      ensures Valid() && disposedValue
      ensures old(disposedValue) || !disposing ==> process == old(process) && log == old(log)
      ensures (old(disposedValue) || !disposing) && old(process) != null ==> unchanged(old(process))
      ensures !old(disposedValue) && disposing ==> process == null
      ensures !old(disposedValue) && disposing && old(process) == null ==> log == old(log)
      ensures !old(disposedValue) && disposing && old(process) != null ==>
        var p := old(process);
        && p.released
        && p.killCalls == old(p.killCalls) + (if old(p.ExitShowsOnPoll()) then 0 else 1)
        && (old(p.ExitShowsOnPoll()) || !(p.killRefused || old(p.killRequested)) ==> p.hasExited && p.exitedAtRelease)
        && (!old(p.ExitShowsOnPoll()) && (p.killRefused || old(p.killRequested)) ==> !p.hasExited && !p.exitedAtRelease)
        && p.responding == old(p.responding)
        && log == old(log) + (if !old(p.ExitShowsOnPoll()) && (p.killRefused || old(p.killRequested)) then [LogEntry(Error, KillExceptionMessage)] else [])
    {
      if !disposedValue {
        if disposing && process != null {
          var p := process;
          var gone := p.PollHasExited();
          if !gone {
            var ok := p.Kill();
            if ok {
              var exited := p.PollHasExited();
              while !exited
                invariant p.killRequested && exited == p.hasExited
                invariant p.killCalls == old(p.killCalls) + 1 && !p.released
                invariant p.responding == old(p.responding)
                modifies p
                decreases p.exitPolls + (if p.hasExited then 0 else 1)
              {
                exited := p.PollHasExited();
              }
            } else {
              log := log + [LogEntry(Error, KillExceptionMessage)];
            }
          }
          p.Release();
          process := null;
        }
        disposedValue := true;
      }
    }

    /** Dispose(): Dispose(true). */
    method Dispose()
      requires Valid()
      modifies this, process
      ensures Valid() && disposedValue
      ensures old(disposedValue) ==> process == old(process) && log == old(log)
      ensures old(disposedValue) && old(process) != null ==> unchanged(old(process))
      ensures !old(disposedValue) ==> process == null
      ensures !old(disposedValue) && old(process) != null ==>
        var p := old(process);
        && p.released
        && p.killCalls == old(p.killCalls) + (if old(p.ExitShowsOnPoll()) then 0 else 1)
        && (old(p.ExitShowsOnPoll()) || !(p.killRefused || old(p.killRequested)) ==> p.hasExited && p.exitedAtRelease)
        && (!old(p.ExitShowsOnPoll()) && (p.killRefused || old(p.killRequested)) ==> !p.hasExited && !p.exitedAtRelease)
        && log == old(log) + (if !old(p.ExitShowsOnPoll()) && (p.killRefused || old(p.killRequested)) then [LogEntry(Error, KillExceptionMessage)] else [])
    {
      DisposeCore(true);
    }
  }

  /**
   * A fatal stderr line kills the relay, and Dispose runs afterwards. The
   * HasExited check in Dispose is a poll. When the exit is due on that poll,
   * Dispose does not kill again. Otherwise its Kill meets a process that is
   * still terminating and throws: the exception is traced, and the handle is
   * released before the exit.
   */
  method HandlerKillThenDispose(i: int, config: string, child: ChildSpec, line: string)
    returns (killCalls: nat, exitedAtRelease: bool, log: seq<LogEntry>)
    requires !child.killRefused && !Text.IsNullOrWhiteSpace(Some(line)) && IsFatal(line)
    ensures killCalls == if child.exitPolls == 0 then 1 else 2
    ensures exitedAtRelease <==> child.exitPolls == 0
    ensures log == [LogEntry(Error, LinePrefix + line)]
                   + (if child.exitPolls == 0 then [] else [LogEntry(Error, KillExceptionMessage)])
  {
    var rot := new RotManager(i, config, child);
    ErrorLineKillsIffFatal(line);
    var outcome := rot.OnErrorData(Some(line));
    var p := rot.process;
    rot.Dispose();
    killCalls, exitedAtRelease, log := p.killCalls, p.exitedAtRelease, rot.log;
  }

  /**
   * A fatal stderr line kills the relay, and IsProcessOk runs afterwards: its
   * HasExited poll sees the exit when it is due, and then the probe fails
   * with "process has exited".
   */
  method HandlerKillThenCheck(i: int, config: string, child: ChildSpec, line: string)
    returns (ok: bool, log: seq<LogEntry>)
    requires !child.killRefused && !Text.IsNullOrWhiteSpace(Some(line)) && IsFatal(line)
    ensures ok <==> child.exitPolls > 0 && child.responding
    ensures child.exitPolls == 0 ==>
      log == [LogEntry(Error, LinePrefix + line), LogEntry(Error, HealthMessage(ProcessExited))]
  {
    var rot := new RotManager(i, config, child);
    ErrorLineKillsIffFatal(line);
    var outcome := rot.OnErrorData(Some(line));
    ok := rot.IsProcessOk();
    log := rot.log;
  }
}
