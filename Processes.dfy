/**
 * The relay process as the supervisor sees it through System.Diagnostics.Process:
 * an exited flag, a responding flag, and Kill, HasExited and Dispose. The
 * operating system's side is an oracle fixed when the process is created:
 * whether Kill is refused, and how many HasExited polls pass after a successful
 * Kill before the process is reported as exited.
 */
module Processes {
  import opened Wrappers

  /** What IsProcessOk can observe of a live handle. */
  datatype ProcState = ProcState(hasExited: bool, responding: bool)

  /** The verdict of IsProcessOk, one value per branch. */
  datatype Health = Healthy | ProcessNull | ProcessExited | NotResponding

  /**
   * IsProcessOk's three nested checks: a null handle, then an exited process,
   * then one that does not respond. Responding is only asked of a live process.
   */
  function CheckProcess(p: Option<ProcState>): (h: Health)
    ensures h == Healthy <==> p.Some? && !p.value.hasExited && p.value.responding
    ensures h == ProcessNull <==> p.None?
    ensures h == ProcessExited <==> p.Some? && p.value.hasExited
    ensures h == NotResponding <==> p.Some? && !p.value.hasExited && !p.value.responding
  {
    match p
    case None => ProcessNull
    case Some(s) =>
      if s.hasExited then ProcessExited
      else if s.responding then Healthy
      else NotResponding
  }

  const HealthPrefix: string := "RotManager.IsProcessOk : process "

  /** The reason IsProcessOk traces for each failing verdict. */
  function HealthMessage(h: Health): (m: string)
    requires h != Healthy
    ensures |m| > 0
  {
    match h
    case ProcessNull => HealthPrefix + "is null"
    case ProcessExited => HealthPrefix + "has exited"
    case NotResponding => HealthPrefix + "is not responding"
  }

  /** The three failure reasons are told apart by their messages. */
  lemma HealthMessagesDistinct(g: Health, h: Health)
    requires g != Healthy && h != Healthy && g != h
    ensures HealthMessage(g) != HealthMessage(h)
  {
    var n := |HealthPrefix|;
    assert HealthMessage(ProcessNull)[n] == 'i' && HealthMessage(ProcessNull)[n + 4] == 'u';
    assert HealthMessage(ProcessExited)[n] == 'h';
    assert HealthMessage(NotResponding)[n] == 'i' && HealthMessage(NotResponding)[n + 4] == 'o';
  }

  /** The start parameters the oracle fixes for a new process. */
  datatype ChildSpec = ChildSpec(responding: bool, exitPolls: nat, killRefused: bool)

  /** One 30-second interval of the supervision loop, as the environment plays it. */
  datatype EnvStep = EnvStep(cancel: bool, exits: bool, responding: bool) {
    /** The step ends the supervision loop. */
    predicate Stops() {
      cancel || exits || !responding
    }
  }

  class ChildProcess {
    var hasExited: bool
    var responding: bool
    /** The host refuses Kill (access denied in the cloud sandbox). */
    const killRefused: bool
    /** A Kill has been accepted and the process is terminating. */
    var killRequested: bool
    /** HasExited polls still to pass after an accepted Kill before the exit shows. */
    var exitPolls: nat
    /** Number of Kill calls made on this handle. */
    var killCalls: nat
    /** Process.Dispose has released the handle. */
    var released: bool
    /** Whether the process had exited when the handle was released. */
    var exitedAtRelease: bool

    constructor (spec: ChildSpec)
      ensures !hasExited && responding == spec.responding && killRefused == spec.killRefused
      ensures exitPolls == spec.exitPolls && !killRequested && killCalls == 0 && !released
    {
      hasExited := false;
      responding := spec.responding;
      killRefused := spec.killRefused;
      killRequested := false;
      exitPolls := spec.exitPolls;
      killCalls := 0;
      released := false;
      exitedAtRelease := false;
    }

    function State(): ProcState
      reads this
    {
      ProcState(hasExited, responding)
    }

    /** The next HasExited poll reports the exit: it has shown already, or an accepted kill is due. */
    predicate ExitShowsOnPoll()
      reads this
    {
      hasExited || (killRequested && exitPolls == 0)
    }

    /** Kill is accepted: the host allows it, and the process is neither exited nor already terminating. */
    predicate AcceptsKill()
      reads this
    {
      !killRefused && !hasExited && !killRequested
    }

    /**
     * Process.Kill: throws (ok == false) when refused, when the process has
     * already exited, or while it is still terminating from an earlier Kill.
     */
    method Kill() returns (ok: bool)
      modifies this
      ensures ok == old(AcceptsKill())
      ensures killCalls == old(killCalls) + 1
      ensures killRequested == (old(killRequested) || ok)
      ensures hasExited == old(hasExited) && responding == old(responding) && exitPolls == old(exitPolls)
      ensures released == old(released) && exitedAtRelease == old(exitedAtRelease)
    {
      killCalls := killCalls + 1;
      ok := !killRefused && !hasExited && !killRequested;
      if ok {
        killRequested := true;
      }
    }

    /** Process.HasExited: each poll of a terminating process brings its exit one poll nearer. */
    method PollHasExited() returns (exited: bool)
      modifies this
      ensures exited == hasExited && exited == old(ExitShowsOnPoll())
      ensures old(killRequested) && !old(hasExited) ==>
        if old(exitPolls) == 0 then hasExited && exitPolls == 0
        else !hasExited && exitPolls == old(exitPolls) - 1
      ensures !(old(killRequested) && !old(hasExited)) ==> hasExited == old(hasExited) && exitPolls == old(exitPolls)
      ensures responding == old(responding) && killRequested == old(killRequested) && killCalls == old(killCalls)
      ensures released == old(released) && exitedAtRelease == old(exitedAtRelease)
    {
      if killRequested && !hasExited {
        if exitPolls == 0 {
          hasExited := true;
        } else {
          exitPolls := exitPolls - 1;
        }
      }
      exited := hasExited;
    }

    /** Process.Dispose: releases the handle; the process itself is left as it is. */
    method Release()
      modifies this
      ensures released && exitedAtRelease == hasExited
      ensures hasExited == old(hasExited) && responding == old(responding) && exitPolls == old(exitPolls)
      ensures killRequested == old(killRequested) && killCalls == old(killCalls)
    {
      released := true;
      exitedAtRelease := hasExited;
    }

    /** What happens to the process during one interval of the supervision loop. */
    method Advance(step: EnvStep)
      modifies this
      ensures hasExited == (old(hasExited) || step.exits) && responding == step.responding
      ensures exitPolls == old(exitPolls) && killRequested == old(killRequested) && killCalls == old(killCalls)
      ensures released == old(released) && exitedAtRelease == old(exitedAtRelease)
    {
      hasExited := hasExited || step.exits;
      responding := step.responding;
    }
  }
}
