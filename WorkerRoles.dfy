/**
 * WorkerRole: the cloud role that hosts the supervisor. Its pure decisions
 * (instance number, unhandled-exception rule, environment-change rule) are
 * functions; its lifecycle (Run, RunAsync, OnStop, Dispose) is a class over the
 * cancellation flag, the run-complete event and a trace of what it did.
 */
module WorkerRoles {
  import opened Wrappers
  import opened Tracing
  import opened Text
  import opened Numbers
  import opened Processes
  import opened Supervisor

  // ---------------------------------------------------------------------------
  // GetRoleInstanceNumber

  /** The instance index, and whether either suffix parsed ("not found" is traced otherwise). */
  datatype InstanceNumber = InstanceNumber(index: int, found: bool)

  /**
   * The number after the last '_' of the instance id; failing that, the number
   * after the last '.'; failing that, 0 (TryParse leaves 0 in its out value).
   */
  function GetRoleInstanceNumber(id: string): (r: InstanceNumber)
    ensures MinInt32 <= r.index <= MaxInt32
    ensures !r.found ==> r.index == 0
  {
    match TryParseInt32(SuffixAfterLast(id, '_'))
    case Some(n) => InstanceNumber(n, true)
    case None =>
      match TryParseInt32(SuffixAfterLast(id, '.'))
      case Some(m) => InstanceNumber(m, true)
      case None => InstanceNumber(0, false)
  }

  const NotFoundPrefix: string := "WorkerRole.GetRoleInstanceNumber not found : "
  const NumberPrefix: string := "WorkerRole.GetRoleInstanceNumber : "

  /** The warnings GetRoleInstanceNumber traces. */
  function InstanceNumberLog(id: string, r: InstanceNumber): (log: seq<LogEntry>)
    ensures |log| == if r.found then 1 else 2
    ensures forall k :: 0 <= k < |log| ==> log[k].level == Warning
    ensures !r.found ==> log[0].message == NotFoundPrefix + id
    ensures log[|log| - 1].message == NumberPrefix + IntToString(r.index)
  {
    (if r.found then [] else [LogEntry(Warning, NotFoundPrefix + id)])
    + [LogEntry(Warning, NumberPrefix + IntToString(r.index))]
  }

  /** A number after the last '_' wins, whatever follows the last '.'. */
  lemma UnderscoreSuffixWins(id: string)
    requires TryParseInt32(SuffixAfterLast(id, '_')).Some?
    ensures GetRoleInstanceNumber(id) == InstanceNumber(TryParseInt32(SuffixAfterLast(id, '_')).value, true)
  {
  }

  /** Without a number after the last '_', the '.' suffix decides, and 0 when it does not parse either. */
  lemma DotSuffixFallback(id: string)
    requires TryParseInt32(SuffixAfterLast(id, '_')).None?
    ensures GetRoleInstanceNumber(id).found <==> TryParseInt32(SuffixAfterLast(id, '.')).Some?
    ensures GetRoleInstanceNumber(id).index == TryParseInt32(SuffixAfterLast(id, '.')).GetOr(0)
  {
  }

  /** An id ending in '_' and a 32-bit number yields that number, whatever comes before. */
  lemma UnderscoreRoundTrip(prefix: string, n: int)
    requires MinInt32 <= n <= MaxInt32
    ensures GetRoleInstanceNumber(prefix + "_" + IntToString(n)) == InstanceNumber(n, true)
  {
    SuffixAfterLastOf(prefix, '_', IntToString(n));
    TryParseIntToString(n);
  }

  /** An id ending in '.' and a 32-bit number yields that number, whatever comes before. */
  lemma DotRoundTrip(prefix: string, n: int)
    requires MinInt32 <= n <= MaxInt32
    ensures GetRoleInstanceNumber(prefix + "." + IntToString(n)) == InstanceNumber(n, true)
  {
    var digits := IntToString(n);
    SuffixAfterLastOf(prefix, '.', digits);
    TryParseIntToString(n);
    UnderscoreSuffixSpoiled(prefix, digits);
  }

  /** With '.' after the last '_', the '_' suffix keeps the '.', so it does not parse. */
  lemma UnderscoreSuffixSpoiled(prefix: string, digits: string)
    requires forall j :: 0 <= j < |digits| ==> IsDigit(digits[j]) || digits[j] == '-'
    ensures TryParseInt32(SuffixAfterLast(prefix + "." + digits, '_')).None?
  {
    var id := prefix + "." + digits;
    var k := |prefix|;
    forall j | k <= j < |id| ensures id[j] != '_' {
      if j > k {
        assert id[j] == digits[j - k - 1];
      }
    }
    SuffixAfterLastKeeps(id, '_', k);
    var u := SuffixAfterLast(id, '_');
    NotANumber(u, k - (|id| - |u|));
  }

  /** "role" has no number: instance 0, not found, and both warnings are traced. */
  lemma NoSuffixExample(id: string)
    requires id == "role"
    ensures GetRoleInstanceNumber(id) == InstanceNumber(0, false)
    ensures InstanceNumberLog(id, GetRoleInstanceNumber(id))[0] == LogEntry(Warning, NotFoundPrefix + id)
  {
    assert '_' !in id && '.' !in id;
    SuffixAfterLastShape(id, '_');
    SuffixAfterLastShape(id, '.');
    NotANumber(id, 0);
  }

  /** "role_3" is instance 3. */
  lemma UnderscoreExample(id: string)
    requires id == "role_3"
    ensures GetRoleInstanceNumber(id) == InstanceNumber(3, true)
  {
    assert NatToDigits(3) == "3";
    assert id == "role" + "_" + IntToString(3);
    UnderscoreRoundTrip("role", 3);
  }

  /** "role.7" is instance 7. */
  lemma DotExample(id: string)
    requires id == "role.7"
    ensures GetRoleInstanceNumber(id) == InstanceNumber(7, true)
  {
    assert NatToDigits(7) == "7";
    assert id == "role" + "." + IntToString(7);
    DotRoundTrip("role", 7);
  }

  /** "a.5_3": the suffix after the last '_' wins over the one after the last '.'. */
  lemma BothSuffixesExample(id: string)
    requires id == "a.5_3"
    ensures GetRoleInstanceNumber(id) == InstanceNumber(3, true)
  {
    assert NatToDigits(3) == "3";
    assert id == "a.5" + "_" + IntToString(3);
    UnderscoreRoundTrip("a.5", 3);
  }

  /** In "a.5_3" the suffix after the last '.', "5_3", is no number: only the '_' suffix yields one. */
  lemma BothSuffixesDotExample(id: string)
    requires id == "a.5_3"
    ensures TryParseInt32(SuffixAfterLast(id, '.')).None?
  {
    assert id == "a" + "." + "5_3";
    SuffixNotANumber("a", '.', "5_3", 1);
  }

  /** The suffix after the last `c` does not parse when it holds a character no number can hold. */
  lemma SuffixNotANumber(a: string, c: char, b: string, k: nat)
    requires c !in b && k < |b|
    requires !IsNumberWhite(b[k]) && !IsDigit(b[k]) && b[k] != '+' && b[k] != '-'
    ensures TryParseInt32(SuffixAfterLast(a + [c] + b, c)).None?
  {
    SuffixAfterLastOf(a, c, b);
    NotANumber(b, k);
  }

  // ---------------------------------------------------------------------------
  // CurrentDomain_UnhandledException

  datatype ExceptionKind =
    | OutOfMemoryException
    | InsufficientMemoryException   // derives from OutOfMemoryException
    | OtherException(typeName: string)

  /** UnhandledExceptionEventArgs.ExceptionObject: null, an object that is no Exception, or an Exception. */
  datatype ExceptionObject = NullObject | NonException | Thrown(kind: ExceptionKind)

  /** `ex is OutOfMemoryException`, which also holds for its subclass. */
  predicate IsOutOfMemory(k: ExceptionKind) {
    k.OutOfMemoryException? || k.InsufficientMemoryException?
  }

  function TypeName(k: ExceptionKind): string {
    match k
    case OutOfMemoryException => "System.OutOfMemoryException"
    case InsufficientMemoryException => "System.InsufficientMemoryException"
    case OtherException(n) => n
  }

  const UnhandledPrefix: string := "WorkerRole.CurrentDomain_UnhandledException : "

  /** Only an out-of-memory exception cancels the run; a null or non-Exception object never does. */
  function CancelsOnUnhandled(e: ExceptionObject): (r: bool)
    ensures r ==> e.Thrown?
    ensures e.Thrown? ==> (r <==> IsOutOfMemory(e.kind))
  {
    match e
    case Thrown(k) => IsOutOfMemory(k)
    case _ => false
  }

  /** The error the handler traces. */
  function UnhandledLog(e: ExceptionObject): (log: seq<LogEntry>)
    ensures |log| == 1 && log[0].level == Error && UnhandledPrefix <= log[0].message
    ensures e.Thrown? ==> log[0].message == UnhandledPrefix + TypeName(e.kind)
  {
    match e
    case Thrown(k) => [LogEntry(Error, UnhandledPrefix + TypeName(k))]
    case _ => [LogEntry(Error, UnhandledPrefix + "NULL")]
  }

  // ---------------------------------------------------------------------------
  // RoleEnvironmentChanging

  /** The kinds of RoleEnvironmentChange the platform reports. */
  datatype RoleChange = ConfigurationSettingChange(settingName: string) | TopologyChange(roleName: string)

  /** Changes.Any(change => change is RoleEnvironmentConfigurationSettingChange). */
  function AnyConfigurationSettingChange(changes: seq<RoleChange>): (r: bool)
    ensures r <==> exists i :: 0 <= i < |changes| && changes[i].ConfigurationSettingChange?
  {
    if |changes| == 0 then false
    else changes[0].ConfigurationSettingChange? || AnyConfigurationSettingChange(changes[1..])
  }

  /** The value of e.Cancel after the handler: set when a setting changes, else as it was. */
  function ChangingCancel(changes: seq<RoleChange>, cancel: bool): (r: bool)
    ensures AnyConfigurationSettingChange(changes) ==> r
    ensures !AnyConfigurationSettingChange(changes) ==> r == cancel
  {
    if AnyConfigurationSettingChange(changes) then true else cancel
  }

  /** A setting change anywhere in the list takes the instance offline. */
  lemma SettingChangeTakesOffline(changes: seq<RoleChange>, i: nat, cancel: bool)
    requires i < |changes| && changes[i].ConfigurationSettingChange?
    ensures ChangingCancel(changes, cancel)
  {
  }

  /** Topology changes alone leave e.Cancel as it was. */
  lemma TopologyOnlyLeavesCancel(changes: seq<RoleChange>, cancel: bool)
    requires forall i :: 0 <= i < |changes| ==> changes[i].TopologyChange?
    ensures ChangingCancel(changes, cancel) == cancel
  {
  }

  // ---------------------------------------------------------------------------
  // The lifecycle

  /** What the role does, in order, that the source's ordering promises are about. */
  datatype RoleEvent =
    | KillSweep             // RotManager.TryKillTorIfRequired
    | RotDisposed           // the end of RunAsync's using block
    | CancelRequested       // cancellationTokenSource.Cancel()
    | RunCompleteSet        // runCompleteEvent.Set()
    | WaitedForRunComplete  // runCompleteEvent.WaitOne()

  /** The instance id and what the RotManager constructor will meet. */
  datatype Host = Host(instanceId: string, start: StartInputs)

  /** Some interval of the supervision loop ends it. */
  predicate EventuallyStops(steps: seq<EnvStep>) {
    exists k :: 0 <= k < |steps| && steps[k].Stops()
  }

  /** The first interval that ends the loop. */
  function FirstStop(steps: seq<EnvStep>): (k: nat)
    requires EventuallyStops(steps)
    ensures k < |steps| && steps[k].Stops()
    ensures forall j :: 0 <= j < k ==> !steps[j].Stops()
  {
    if steps[0].Stops() then 0
    else
      assert EventuallyStops(steps[1..]) by {
        var k :| 0 <= k < |steps| && steps[k].Stops();
        assert steps[1..][k - 1] == steps[k];
      }
      1 + FirstStop(steps[1..])
  }

  /** How many 30-second waits the supervision loop begins, from its entry state. */
  function LoopDelays(cancelled: bool, responding: bool, steps: seq<EnvStep>): nat
    requires EventuallyStops(steps)
  {
    if !cancelled && responding then FirstStop(steps) + 1 else 0
  }

  /** The loop ends because cancellation arrives during a wait. */
  predicate LoopCancels(cancelled: bool, responding: bool, steps: seq<EnvStep>)
    requires EventuallyStops(steps)
  {
    !cancelled && responding && steps[FirstStop(steps)].cancel
  }

  /** The process as the loop leaves it: as the stopping interval left it, or as it entered. */
  function LoopEndState(cancelled: bool, responding: bool, steps: seq<EnvStep>): ProcState
    requires EventuallyStops(steps)
  {
    if LoopDelays(cancelled, responding, steps) > 0 then
      ProcState(steps[FirstStop(steps)].exits, steps[FirstStop(steps)].responding)
    else ProcState(false, responding)
  }

  /** The loop ends because IsProcessOk reports a failure, not because of cancellation. */
  predicate LoopFailsHealth(cancelled: bool, responding: bool, steps: seq<EnvStep>)
    requires EventuallyStops(steps)
  {
    !cancelled && !LoopCancels(cancelled, responding, steps)
  }

  /** When the health check ends the loop, the process it sees is indeed not healthy. */
  lemma LoopFailsOnUnhealthy(cancelled: bool, responding: bool, steps: seq<EnvStep>)
    requires EventuallyStops(steps)
    ensures LoopFailsHealth(cancelled, responding, steps) ==>
      CheckProcess(Some(LoopEndState(cancelled, responding, steps))) != Healthy
    ensures LoopCancels(cancelled, responding, steps) ==> LoopDelays(cancelled, responding, steps) > 0
  {
  }

  /** How many 30-second waits RunAsync begins: none when the constructor threw. */
  function Delays(host: Host, cancelled: bool, steps: seq<EnvStep>): nat
    requires EventuallyStops(steps)
  {
    if StartFailure(host.start).None? then LoopDelays(cancelled, host.start.child.responding, steps) else 0
  }

  /** Cancellation arrives during one of RunAsync's waits. */
  predicate CancelledInDelay(host: Host, cancelled: bool, steps: seq<EnvStep>)
    requires EventuallyStops(steps)
  {
    StartFailure(host.start).None? && LoopCancels(cancelled, host.start.child.responding, steps)
  }

  /** The events of RunAsync's using block: a cancellation from outside, then the disposal of the RotManager. */
  function UsingBlockEvents(cancelled: bool, inputs: StartInputs, steps: seq<EnvStep>): seq<RoleEvent>
    requires EventuallyStops(steps)
  {
    if StartFailure(inputs).None? then
      if LoopCancels(cancelled, inputs.child.responding, steps) then [CancelRequested, RotDisposed] else [RotDisposed]
    else []
  }

  const RunAsyncExceptionMessage: string := "WorkerRole.RunAsync Exception"
  const RunAsyncEndMessage: string := "WorkerRole.RunAsync : End"

  /** RunAsync's trace: the instance number, the exception from the constructor if any, the end. */
  function RunAsyncLog(host: Host): seq<LogEntry> {
    InstanceNumberLog(host.instanceId, GetRoleInstanceNumber(host.instanceId))
    + (if StartFailure(host.start).Some? then [LogEntry(Error, RunAsyncExceptionMessage)] else [])
    + [LogEntry(Information, RunAsyncEndMessage)]
  }

  class WorkerRole {
    /** cancellationTokenSource.IsCancellationRequested */
    var cancellationRequested: bool
    /** runCompleteEvent is set */
    var runComplete: bool
    /** To detect redundant Dispose calls. */
    var disposedValue: bool
    var tokenSourceDisposals: nat
    var completeEventDisposals: nat
    var log: seq<LogEntry>
    var trace: seq<RoleEvent>

    constructor ()
      ensures !cancellationRequested && !runComplete && !disposedValue
      ensures tokenSourceDisposals == 0 && completeEventDisposals == 0 && log == [] && trace == []
    {
      cancellationRequested := false;
      runComplete := false;
      disposedValue := false;
      tokenSourceDisposals := 0;
      completeEventDisposals := 0;
      log := [];
      trace := [];
    }

    /** CurrentDomain_UnhandledException: trace it; an out-of-memory exception cancels the run. */
    method OnUnhandledException(e: ExceptionObject)
      modifies this`cancellationRequested, this`log, this`trace
      ensures cancellationRequested == (old(cancellationRequested) || CancelsOnUnhandled(e))
      ensures log == old(log) + UnhandledLog(e)
      ensures trace == old(trace) + (if CancelsOnUnhandled(e) then [CancelRequested] else [])
    {
      log := log + UnhandledLog(e);
      if CancelsOnUnhandled(e) {
        cancellationRequested := true;
        trace := trace + [CancelRequested];
      }
    }

    /**
     * The supervision loop of RunAsync: while no cancellation is requested and
     * the process is healthy, wait 30 seconds. Step `k` of `steps` is what
     * happens during the k-th wait; a cancellation ends the wait with
     * OperationCanceledException, which leaves the loop.
     */
    method Supervise(r: RotManager, steps: seq<EnvStep>) returns (delays: nat)
      requires EventuallyStops(steps)
      requires r.process != null && r.Valid() && !r.process.hasExited && !r.process.killRequested
      modifies this`cancellationRequested, this`trace, r`log, r.process
      ensures delays == LoopDelays(old(cancellationRequested), old(r.process.responding), steps)
      ensures cancellationRequested == (old(cancellationRequested) || LoopCancels(old(cancellationRequested), old(r.process.responding), steps))
      ensures trace == old(trace) + (if LoopCancels(old(cancellationRequested), old(r.process.responding), steps) then [CancelRequested] else [])
      ensures r.process == old(r.process) && r.Valid()
      ensures r.process.killRefused == old(r.process.killRefused) && r.process.killCalls == old(r.process.killCalls)
      ensures r.process.killRequested == old(r.process.killRequested)
      ensures r.process.State() == LoopEndState(old(cancellationRequested), old(r.process.responding), steps)
      ensures LoopFailsHealth(old(cancellationRequested), old(r.process.responding), steps) ==> CheckProcess(r.View()) != Healthy
      ensures r.log == old(r.log) + (if LoopFailsHealth(old(cancellationRequested), old(r.process.responding), steps)
                                     then [LogEntry(Error, HealthMessage(CheckProcess(r.View())))] else [])
    {
      ghost var cancelled0 := cancellationRequested;
      ghost var responding0 := r.process.responding;
      ghost var k := FirstStop(steps);
      LoopFailsOnUnhealthy(cancelled0, responding0, steps);
      var p := r.process;
      delays := 0;
      var proceed := !cancellationRequested;
      if proceed {
        proceed := r.IsProcessOk();
      }
      while proceed
        invariant r.process == p && !p.released
        invariant p.killCalls == old(p.killCalls) && p.killRequested == old(p.killRequested)
        invariant proceed ==> delays <= k && !cancellationRequested && p.State() == ProcState(false, true)
        invariant proceed ==> trace == old(trace) && !cancelled0 && responding0 && r.log == old(r.log)
        invariant !proceed ==> p.State() == LoopEndState(cancelled0, responding0, steps)
        invariant !proceed ==> r.log == old(r.log) + (if LoopFailsHealth(cancelled0, responding0, steps)
                                                      then [LogEntry(Error, HealthMessage(CheckProcess(r.View())))] else [])
        invariant !proceed ==> delays == LoopDelays(cancelled0, responding0, steps)
        invariant !proceed ==> cancellationRequested == (cancelled0 || LoopCancels(cancelled0, responding0, steps))
        invariant !proceed ==> trace == old(trace) + (if LoopCancels(cancelled0, responding0, steps) then [CancelRequested] else [])
        decreases k + 1 - delays
      {
        var step := steps[delays];
        p.Advance(step);
        if step.Stops() {
          assert delays == k;
        } else {
          assert delays != k;
        }
        delays := delays + 1;
        if step.cancel {
          cancellationRequested := true;
          trace := trace + [CancelRequested];
          proceed := false;
        } else {
          proceed := r.IsProcessOk();
        }
      }
    }

    /**
     * The using block of RunAsync: construct the RotManager for instance `i`,
     * supervise it, and dispose it on both ways out of the loop. A constructor
     * that throws skips the block.
     */
    method RunRotManager(i: int, inputs: StartInputs, steps: seq<EnvStep>)
      returns (delays: nat, rot: RotManager?, ghost child: ChildProcess?)
      requires EventuallyStops(steps)
      modifies this`cancellationRequested, this`trace
      ensures rot != null <==> StartFailure(inputs).None?
      ensures rot != null ==> fresh(rot) && rot.disposedValue && rot.process == null
      ensures rot != null ==> child != null && fresh(child) && child.released
      ensures rot != null ==>
        var exitedInLoop := LoopEndState(old(cancellationRequested), inputs.child.responding, steps).hasExited;
        && child.killCalls == (if exitedInLoop then 0 else 1)
        && (exitedInLoop || !inputs.child.killRefused ==> child.hasExited && child.exitedAtRelease)
        && (!exitedInLoop && inputs.child.killRefused ==> !child.hasExited && !child.exitedAtRelease)
      ensures rot != null ==> delays == LoopDelays(old(cancellationRequested), inputs.child.responding, steps)
      ensures rot == null ==> delays == 0 && cancellationRequested == old(cancellationRequested)
      ensures rot != null ==> cancellationRequested == (old(cancellationRequested) || LoopCancels(old(cancellationRequested), inputs.child.responding, steps))
      ensures trace == old(trace) + UsingBlockEvents(old(cancellationRequested), inputs, steps)
    {
      var started, written, orphan := Start(i, inputs);
      delays := 0;
      rot := null;
      child := null;
      if started.Started? {
        var r := started.rot;
        child := r.process;
        delays := Supervise(r, steps);
        r.Dispose();
        ghost var t := trace;
        trace := trace + [RotDisposed];
        assert trace == old(trace) + UsingBlockEvents(old(cancellationRequested), inputs, steps) by {
          assert old(trace) + UsingBlockEvents(old(cancellationRequested), inputs, steps) == t + [RotDisposed];
        }
        rot := r;
      }
    }

    /**
     * RunAsync: trace the instance number, run the using block, trace the
     * constructor's exception if it threw, and trace the end.
     */
    method RunAsync(host: Host, steps: seq<EnvStep>) returns (delays: nat, rot: RotManager?)
      requires EventuallyStops(steps)
      modifies this`cancellationRequested, this`log, this`trace
      ensures delays == Delays(host, old(cancellationRequested), steps)
      ensures cancellationRequested == (old(cancellationRequested) || CancelledInDelay(host, old(cancellationRequested), steps))
      ensures trace == old(trace) + UsingBlockEvents(old(cancellationRequested), host.start, steps)
      ensures log == old(log) + RunAsyncLog(host)
      ensures rot != null <==> StartFailure(host.start).None?
      ensures rot != null ==> fresh(rot) && rot.disposedValue && rot.process == null
    {
      var id := GetRoleInstanceNumber(host.instanceId);
      log := log + InstanceNumberLog(host.instanceId, id);
      ghost var child;
      delays, rot, child := RunRotManager(id.index, host.start, steps);
      var failure := if rot == null then [LogEntry(Error, RunAsyncExceptionMessage)] else [];
      log := log + failure;
      AppendAssoc(old(log), InstanceNumberLog(host.instanceId, id), failure);
      AppendAssoc(old(log), InstanceNumberLog(host.instanceId, id) + failure, [LogEntry(Information, RunAsyncEndMessage)]);
      log := log + [LogEntry(Information, RunAsyncEndMessage)];
    }

    /**
     * Run: sweep stale relay processes, run RunAsync to its end, then, on every
     * way out, sweep again and set runCompleteEvent.
     */
    method Run(host: Host, steps: seq<EnvStep>)
      requires EventuallyStops(steps)
      modifies this`cancellationRequested, this`log, this`trace, this`runComplete
      ensures runComplete
      ensures cancellationRequested == (old(cancellationRequested) || CancelledInDelay(host, old(cancellationRequested), steps))
      ensures trace == old(trace) + [KillSweep] + UsingBlockEvents(old(cancellationRequested), host.start, steps) + [KillSweep] + [RunCompleteSet]
      ensures log == old(log) + [LogEntry(Information, "WorkerRole is running")] + RunAsyncLog(host)
    {
      log := log + [LogEntry(Information, "WorkerRole is running")];
      trace := trace + [KillSweep];
      var delays, rot := RunAsync(host, steps);
      trace := trace + [KillSweep];
      runComplete := true;
      trace := trace + [RunCompleteSet];
    }

    /** OnStop: request cancellation, then wait for Run to complete. */
    method OnStop()
      modifies this`cancellationRequested, this`log, this`trace
      ensures cancellationRequested
      ensures trace == old(trace) + [CancelRequested, WaitedForRunComplete]
      ensures log == old(log) + [LogEntry(Information, "WebReverseProxyWorkerRole is stopping"),
                                 LogEntry(Information, "WebReverseProxyWorkerRole has stopped")]
    {
      log := log + [LogEntry(Information, "WebReverseProxyWorkerRole is stopping")];
      cancellationRequested := true;
      trace := trace + [CancelRequested];
      trace := trace + [WaitedForRunComplete];
      log := log + [LogEntry(Information, "WebReverseProxyWorkerRole has stopped")];
    }

    /** Dispose(bool): once only, dispose the token source and the event. */
    method DisposeCore(disposing: bool)
      modifies this`disposedValue, this`tokenSourceDisposals, this`completeEventDisposals
      ensures disposedValue
      ensures tokenSourceDisposals == old(tokenSourceDisposals) + (if !old(disposedValue) && disposing then 1 else 0)
      ensures completeEventDisposals == old(completeEventDisposals) + (if !old(disposedValue) && disposing then 1 else 0)
    {
      if !disposedValue {
        if disposing {
          tokenSourceDisposals := tokenSourceDisposals + 1;
          completeEventDisposals := completeEventDisposals + 1;
        }
        disposedValue := true;
      }
    }

    /** Dispose(): Dispose(true). */
    method Dispose()
      modifies this`disposedValue, this`tokenSourceDisposals, this`completeEventDisposals
      ensures disposedValue
      ensures tokenSourceDisposals == old(tokenSourceDisposals) + (if old(disposedValue) then 0 else 1)
      ensures completeEventDisposals == old(completeEventDisposals) + (if old(disposedValue) then 0 else 1)
    {
      DisposeCore(true);
    }
  }

  /**
   * A cancellation requested before RunAsync reaches its loop (OnStop racing
   * ahead of Run): no wait at all, no cancellation during a wait, and the
   * using block still disposes the RotManager it built.
   */
  lemma CancelledBeforeLoop(host: Host, steps: seq<EnvStep>)
    requires EventuallyStops(steps)
    ensures Delays(host, true, steps) == 0 && !CancelledInDelay(host, true, steps)
    ensures UsingBlockEvents(true, host.start, steps) == if StartFailure(host.start).None? then [RotDisposed] else []
  {
  }
}
