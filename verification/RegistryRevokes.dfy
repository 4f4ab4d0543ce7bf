// What a revoke that is not cut short comes to, whatever else runs meanwhile.
module RegistryRevokes {
  import opened Prelude
  import opened Records
  import opened Transactions
  import opened RegistryProtocol
  import opened RegistryRuns
  import opened RegistryStore

  /** Somewhere inside a revoke of `f`, from queueing for the lifecycle lock to its last write. */
  predicate InRevoke(x: Proc, f: Fingerprint) {
    match x
    case Queued(tx) => tx == Disable(f)
    case Wants(tx) => OfRevoke(tx, f)
    case Holds(tx) => OfRevoke(tx, f)
    case Writing(tx, _, _) => OfRevoke(tx, f)
    case Closing(after) => after.Remote? && after.target == f
    case Remote(target, _) => target == f
    case _ => false
  }

  predicate OfRevoke(tx: Tx, f: Fingerprint) {
    (tx.Disable? || tx.Cleanup?) && tx.target == f
  }

  /** Step `k` cuts the process short: a crash or an I/O error, or a write that fails. */
  ghost predicate CutShort(run: Run, k: nat, p: Pid)
    requires k < |run.labels|
  {
    run.labels[k] == Stop(p) || (run.labels[k].Write? && run.labels[k].p == p && !run.labels[k].fault.NoFault?)
  }

  /** Step `k` finds the device active with no epoch left to revoke it under. */
  ghost predicate Exhausted(run: Run, k: nat, p: Pid, f: Fingerprint)
    requires IsRun(run) && k < |run.labels|
  {
    && run.labels[k].Load? && run.labels[k].p == p && At(run.states[k], p) == Holds(Disable(f))
    && LifeOf(Reg(run, k), f) == Active && Reg(run, k).epoch == U64_MAX
  }

  /** Step `k` finishes the revoke with the device gone. */
  ghost predicate Removes(run: Run, k: nat, p: Pid, f: Fingerprint)
    requires IsRun(run) && k < |run.labels|
  {
    At(run.states[k + 1], p) == Closing(Finished(true)) && LifeOf(Reg(run, k + 1), f) == Absent
  }

  predicate Failed(x: Proc) {
    x == Closing(Finished(false)) || x == Finished(false)
  }

  // ---- one step ----

  lemma RevokeLoads(run: Run, k: nat, p: Pid, f: Fingerprint)
    requires IsRun(run) && k < |run.labels| && run.labels[k].Load? && run.labels[k].p == p
    requires InRevoke(At(run.states[k], p), f)
    ensures || InRevoke(At(run.states[k + 1], p), f)
            || Removes(run, k, p, f)
            || (Failed(At(run.states[k + 1], p)) && Exhausted(run, k, p, f))
  {
    TakenBy(run, k, p);
    if At(run.states[k], p).tx.Cleanup? {
      CleanupIsNeverRefused(run, k, run.labels[k].now);
    }
  }

  lemma RevokeWrites(run: Run, k: nat, p: Pid, f: Fingerprint)
    requires IsRun(run) && k < |run.labels| && run.labels[k] == Write(p, NoFault)
    requires InRevoke(At(run.states[k], p), f)
    ensures InRevoke(At(run.states[k + 1], p), f) || Removes(run, k, p, f)
  {
    TakenBy(run, k, p);
    var w, r := At(run.states[k], p), Reg(run, k);
    ValidView(run.states[k].disk);
    if w.tx.Disable? {
      DisableStaysValid(r, f, w.next);
      DisablePutEffect(r, f, w.next);
    } else {
      StoredIsMember(r.devices, f);
      CleanupStaysValid(r, f);
      CleanupPutEffect(r, f, w.tx.pending, w.next);
    }
  }

  /** One step of anyone: the revoke goes on, removes the device, or is cut short or out of epochs. */
  lemma RevokeStep(run: Run, k: nat, p: Pid, f: Fingerprint)
    requires IsRun(run) && k < |run.labels| && InRevoke(At(run.states[k], p), f)
    ensures || InRevoke(At(run.states[k + 1], p), f)
            || Removes(run, k, p, f)
            || (Failed(At(run.states[k + 1], p)) && (CutShort(run, k, p) || Exhausted(run, k, p, f)))
  {
    var l := run.labels[k];
    if l.p == p && l.Load? {
      RevokeLoads(run, k, p, f);
    } else if l == Write(p, NoFault) {
      RevokeWrites(run, k, p, f);
    } else {
      TakenBy(run, k, p);
    }
  }

  // ---- whole runs ----

  /**
    From any state a crash can leave and under every interleaving: a revoke that is never
    cut short is still going, has removed the device, or met an active device at the last epoch.
   */
  lemma {:induction false} UncutRevokeRemoves(run: Run, i: nat, j: nat, p: Pid, f: Fingerprint)
    requires IsRun(run) && i <= j < |run.states| && InRevoke(At(run.states[i], p), f)
    requires forall k :: i <= k < j ==> !CutShort(run, k, p)
    ensures || InRevoke(At(run.states[j], p), f)
            || (exists k :: i <= k < j && Removes(run, k, p, f))
            || (exists k :: i <= k < j && Exhausted(run, k, p, f))
    decreases j - i
  {
    if i < j {
      RevokeStep(run, i, p, f);
      if InRevoke(At(run.states[i + 1], p), f) {
        UncutRevokeRemoves(run, i + 1, j, p, f);
      }
    }
  }

  /** A revoke that reports success had the device gone when it finished, whatever ran meanwhile. */
  lemma {:induction false} SuccessMeansGone(run: Run, i: nat, j: nat, p: Pid, f: Fingerprint) returns (k: nat)
    requires IsRun(run) && i <= j < |run.states|
    requires InRevoke(At(run.states[i], p), f) && At(run.states[j], p) == Finished(true)
    ensures i <= k < j && Removes(run, k, p, f)
    decreases j - i
  {
    RevokeStep(run, i, p, f);
    if InRevoke(At(run.states[i + 1], p), f) {
      k := SuccessMeansGone(run, i + 1, j, p, f);
    } else {
      if Failed(At(run.states[i + 1], p)) {
        StoppedStaysStopped(run, i + 1, j, p);
      }
      k := i;
    }
  }

  // ---- it gets there ----

  /** Steps a revoke has left, at most. */
  function StepsLeft(x: Proc): nat {
    match x
    case Queued(_) => 9
    case Wants(tx) => if tx.Disable? then 8 else 3
    case Holds(tx) => if tx.Disable? then 7 else 2
    case Writing(tx, _, _) => if tx.Disable? then 6 else 1
    case Closing(_) => 5
    case Remote(_, _) => 4
    case _ => 0
  }

  /** A revoke is never stuck: it can take a step of its own, or waits for a lock another process holds. */
  lemma RevokeCanStep(run: Run, k: nat, p: Pid, f: Fingerprint)
    requires IsRun(run) && k < |run.states| && InRevoke(At(run.states[k], p), f)
    ensures var s, x := run.states[k], At(run.states[k], p);
            || (x.Queued? && s.lifecycle.Some? && s.lifecycle != Some(p))
            || (x.Wants? && s.registry.Some? && s.registry != Some(p))
            || exists l: Label :: l.p == p && Enabled(s, l) && !l.Stop? && (l.Write? ==> l.fault.NoFault?)
  {
    RunKeepsInv(run, k);
    var s, x := run.states[k], At(run.states[k], p);
    var l := match x
      case Queued(_) => TakeLifecycle(p)
      case Wants(_) => TakeRegistry(p)
      case Holds(_) => Load(p, 0)
      case Writing(_, _, _) => Write(p, NoFault)
      case Closing(_) => Unlock(p)
      case _ => Confirm(p);
    assert Ready(x, l) && l.p == p;
    OwnLocks(run, k, p);
  }

  /** The lifecycle lock is let go at the latest when a job ends. */
  predicate MayHoldLifecycle(x: Proc) {
    HoldsLifecycle(x) || (x.Closing? && x.after.Finished?)
  }

  lemma LocksMove(x: Proc, l: Label, r: Registry)
    requires Ready(x, l) && Shaped(x)
    ensures HoldsRegistry(x) && !l.Unlock? && !l.Stop? ==> HoldsRegistry(Moved(x, l, r))
    ensures MayHoldLifecycle(x) && !Moved(x, l, r).Finished? ==> MayHoldLifecycle(Moved(x, l, r))
  {
    assert x.Closing? ==> HoldsLifecycle(x) == HoldsLifecycle(x.after);
  }

  /** A process waiting for a lock does not hold it itself. */
  lemma {:induction false} OwnLocks(run: Run, k: nat, p: Pid)
    requires IsRun(run) && k < |run.states|
    ensures run.states[k].registry == Some(p) ==> HoldsRegistry(At(run.states[k], p))
    ensures run.states[k].lifecycle == Some(p) ==> MayHoldLifecycle(At(run.states[k], p))
  {
    if k > 0 {
      OwnLocks(run, k - 1, p);
      TakenBy(run, k - 1, p);
      assert StepAt(run, k - 1);
      if run.labels[k - 1].p == p {
        LocksMove(At(run.states[k - 1], p), run.labels[k - 1], Reg(run, k - 1));
      }
    }
  }

  ghost function OwnSteps(run: Run, i: nat, j: nat, p: Pid): nat
    requires i <= j <= |run.labels|
    decreases j - i
  {
    if i == j then 0 else (if run.labels[i].p == p then 1 else 0) + OwnSteps(run, i + 1, j, p)
  }

  lemma StepsRunDown(run: Run, k: nat, p: Pid, f: Fingerprint)
    requires IsRun(run) && k < |run.labels|
    requires InRevoke(At(run.states[k], p), f) && InRevoke(At(run.states[k + 1], p), f)
    ensures StepsLeft(At(run.states[k + 1], p)) + (if run.labels[k].p == p then 1 else 0) <= StepsLeft(At(run.states[k], p))
  {
    TakenBy(run, k, p);
  }

  /**
    Nine steps of its own, uncut, end every revoke, however the others' steps fall between:
    the device is gone at one of them, or the epoch was exhausted.
   */
  lemma {:induction false} NineStepsRemove(run: Run, i: nat, j: nat, p: Pid, f: Fingerprint)
    requires IsRun(run) && i <= j < |run.states| && InRevoke(At(run.states[i], p), f)
    requires forall k :: i <= k < j ==> !CutShort(run, k, p)
    requires OwnSteps(run, i, j, p) >= StepsLeft(At(run.states[i], p))
    ensures StepsLeft(At(run.states[i], p)) <= 9
    ensures (exists k :: i <= k < j && Removes(run, k, p, f)) || (exists k :: i <= k < j && Exhausted(run, k, p, f))
    decreases j - i
  {
    RevokeStep(run, i, p, f);
    if InRevoke(At(run.states[i + 1], p), f) {
      StepsRunDown(run, i, p, f);
      NineStepsRemove(run, i + 1, j, p, f);
    }
  }
}
