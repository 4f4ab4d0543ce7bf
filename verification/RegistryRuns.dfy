// Facts about whole runs of the registry protocol.
module RegistryRuns {
  import opened Prelude
  import opened Records
  import opened Transactions
  import opened RegistryProtocol

  datatype Run = Run(states: seq<Sys>, labels: seq<Label>)

  ghost predicate StepAt(run: Run, i: nat)
    requires |run.states| == |run.labels| + 1 && i < |run.labels|
  {
    Enabled(run.states[i], run.labels[i]) && run.states[i + 1] == Next(run.states[i], run.labels[i])
  }

  /** Any interleaving, from any valid file and no process running. */
  ghost predicate IsRun(run: Run) {
    && |run.states| == |run.labels| + 1
    && Init(run.states[0])
    && forall i: nat :: i < |run.labels| ==> StepAt(run, i)
  }

  /** The registry on disk after `k` steps. */
  function Reg(run: Run, k: nat): Registry
    requires k < |run.states|
  {
    View(run.states[k].disk)
  }

  lemma {:induction false} RunKeepsInv(run: Run, k: nat)
    requires IsRun(run) && k < |run.states|
    ensures Inv(run.states[k]) && ValidRegistry(Reg(run, k))
  {
    if k == 0 {
      InitInv(run.states[0]);
    } else {
      RunKeepsInv(run, k - 1);
      assert StepAt(run, k - 1);
      StepKeepsInv(run.states[k - 1], run.labels[k - 1]);
    }
    ValidView(run.states[k].disk);
  }

  // ---- refinement of an atomic registry ----

  /** Step `k` renames a new file into place. */
  ghost predicate CommitsAt(run: Run, k: nat)
    requires IsRun(run) && k < |run.labels|
  {
    var l := run.labels[k];
    l.Write? && At(run.states[k], l.p).Writing? && Lands(At(run.states[k], l.p).next, l.fault)
  }

  datatype Op = Op(tx: Tx, now: int)

  ghost function OpAt(run: Run, k: nat): Op
    requires IsRun(run) && k < |run.labels| && CommitsAt(run, k)
  {
    var w := At(run.states[k], run.labels[k].p);
    Op(w.tx, w.now)
  }

  /** One operation applied atomically. */
  function Apply(r: Registry, op: Op): Registry {
    match PlanOf(op.tx, r, op.now)
    case Put(next) => next
    case _ => r
  }

  function Replay(r: Registry, ops: seq<Op>): Registry {
    if ops == [] then r else Apply(Replay(r, ops[..|ops| - 1]), ops[|ops| - 1])
  }

  /** The operations whose write reached the disk in the first `k` steps, in order. */
  ghost function Committed(run: Run, k: nat): seq<Op>
    requires IsRun(run) && k <= |run.labels|
  {
    if k == 0 then []
    else if CommitsAt(run, k - 1) then Committed(run, k - 1) + [OpAt(run, k - 1)]
    else Committed(run, k - 1)
  }

  /** A committed write is the operation planned against the state it replaces. */
  lemma CommitIsAtomic(run: Run, k: nat)
    requires IsRun(run) && k < |run.labels| && CommitsAt(run, k)
    ensures PlanOf(OpAt(run, k).tx, Reg(run, k), OpAt(run, k).now) == Put(Reg(run, k + 1))
    ensures Sound(OpAt(run, k).tx, Reg(run, k))
    ensures run.labels[k].p in run.states[k].procs
  {
    RunKeepsInv(run, k);
    assert StepAt(run, k);
    var s, p := run.states[k], run.labels[k].p;
    assert p in s.procs;
    assert Agrees(At(s, p), View(s.disk));
  }

  lemma OtherStepsKeepDisk(run: Run, k: nat)
    requires IsRun(run) && k < |run.labels| && !CommitsAt(run, k)
    ensures Reg(run, k + 1) == Reg(run, k)
  {
    assert StepAt(run, k);
  }

  /** Every interleaving refines an atomic registry: no committed update is ever lost. */
  lemma {:induction false} RefinesAtomicRegistry(run: Run, k: nat)
    requires IsRun(run) && k < |run.states|
    ensures Reg(run, k) == Replay(Reg(run, 0), Committed(run, k))
  {
    if k > 0 {
      RefinesAtomicRegistry(run, k - 1);
      if CommitsAt(run, k - 1) {
        CommitIsAtomic(run, k - 1);
        var ops := Committed(run, k);
        assert ops[..|ops| - 1] == Committed(run, k - 1);
      } else {
        OtherStepsKeepDisk(run, k - 1);
      }
    }
  }

  // ---- the life of one record ----

  datatype Life = Absent | Active | Tombstone

  function LifeOf(r: Registry, f: Fingerprint): Life {
    match Stored(r.devices, f)
    case None => Absent
    case Some(d) => if d.active then Active else Tombstone
  }

  /** One planned write moves a record one place along absent, active, tombstone, absent, or not at all. */
  ghost predicate LifeMoves(tx: Tx, r: Registry, next: Registry, f: Fingerprint) {
    var a, b := LifeOf(r, f), LifeOf(next, f);
    && (a == Active ==> b != Absent) && (a == Tombstone ==> b != Active) && (a == Absent ==> b != Tombstone)
    && (a == Tombstone == b ==> Stored(next.devices, f) == Stored(r.devices, f))
    && (a == Tombstone && b == Absent ==> tx.Cleanup? && tx.target == f && tx.pending.Some?)
  }

  lemma TargetLifeMoves(tx: Tx, r: Registry, now: int, next: Registry)
    requires ValidRegistry(r) && PlanOf(tx, r, now) == Put(next) && Sound(tx, r)
    ensures LifeMoves(tx, r, next, Target(tx))
  {
    match tx
    case Gate(snap, ask) => GatePutEffect(snap.epoch, r, ask, now, next);
    case Pin(d, _) => PinPutEffect(r, d, next);
    case Disable(f) => DisablePutEffect(r, f, next);
    case Cleanup(f, pending) => CleanupPutEffect(r, f, pending, next);
  }

  lemma PutLifeMoves(tx: Tx, r: Registry, now: int, next: Registry, f: Fingerprint)
    requires ValidRegistry(r) && PlanOf(tx, r, now) == Put(next) && Sound(tx, r)
    ensures LifeMoves(tx, r, next, f)
  {
    if Target(tx) == f {
      TargetLifeMoves(tx, r, now, next);
    } else {
      PutTouchesTargetOnly(tx, r, now, next, f);
    }
  }

  /** Absent, active, tombstone, absent: a step never skips or reverses one of these. */
  lemma LifeStep(run: Run, k: nat, f: Fingerprint)
    requires IsRun(run) && k < |run.labels|
    ensures LifeOf(Reg(run, k), f) == Active ==> LifeOf(Reg(run, k + 1), f) != Absent
    ensures LifeOf(Reg(run, k), f) == Tombstone ==> LifeOf(Reg(run, k + 1), f) != Active
    ensures LifeOf(Reg(run, k), f) == Absent ==> LifeOf(Reg(run, k + 1), f) != Tombstone
    ensures LifeOf(Reg(run, k), f) == Tombstone == LifeOf(Reg(run, k + 1), f)
            ==> Stored(Reg(run, k + 1).devices, f) == Stored(Reg(run, k).devices, f)
    ensures LifeOf(Reg(run, k), f) == Tombstone && LifeOf(Reg(run, k + 1), f) == Absent
            ==> CommitsAt(run, k) && OpAt(run, k).tx.Cleanup? && OpAt(run, k).tx.target == f
                && OpAt(run, k).tx.pending.Some?
  {
    if CommitsAt(run, k) {
      CommitIsAtomic(run, k);
      RunKeepsInv(run, k);
      PutLifeMoves(OpAt(run, k).tx, Reg(run, k), OpAt(run, k).now, Reg(run, k + 1), f);
    } else {
      OtherStepsKeepDisk(run, k);
    }
  }

  /** A tombstone comes back to life only by being removed first. */
  lemma {:induction false} TombstoneLeavesThroughAbsence(run: Run, i: nat, j: nat, f: Fingerprint) returns (k: nat)
    requires IsRun(run) && i < j < |run.states|
    requires LifeOf(Reg(run, i), f) == Tombstone && LifeOf(Reg(run, j), f) == Active
    ensures i < k < j && LifeOf(Reg(run, k), f) == Absent
    decreases j - i
  {
    LifeStep(run, i, f);
    if LifeOf(Reg(run, i + 1), f) == Absent {
      k := i + 1;
    } else {
      k := TombstoneLeavesThroughAbsence(run, i + 1, j, f);
    }
  }

  /** An active record is disabled on disk before it is gone. */
  lemma {:induction false} RemovalPassesThroughTombstone(run: Run, i: nat, j: nat, f: Fingerprint) returns (k: nat)
    requires IsRun(run) && i < j < |run.states|
    requires LifeOf(Reg(run, i), f) == Active && LifeOf(Reg(run, j), f) == Absent
    ensures i < k < j && LifeOf(Reg(run, k), f) == Tombstone
    decreases j - i
  {
    LifeStep(run, i, f);
    if LifeOf(Reg(run, i + 1), f) == Tombstone {
      k := i + 1;
    } else {
      k := RemovalPassesThroughTombstone(run, i + 1, j, f);
    }
  }

  /** All through a remote revoke the disk holds the tombstone, or no record at all. */
  lemma RemoteSeesDisabledDevice(run: Run, k: nat, p: Pid)
    requires IsRun(run) && k < |run.states| && At(run.states[k], p).Remote?
    ensures LifeOf(Reg(run, k), At(run.states[k], p).target) != Active
    ensures At(run.states[k], p).pending.Some? <==>
            LifeOf(Reg(run, k), At(run.states[k], p).target) == Tombstone
  {
    RunKeepsInv(run, k);
    assert p in run.states[k].procs;
    assert Agrees(At(run.states[k], p), Reg(run, k));
  }

  /** Whatever decisions run meanwhile, the identity checks before a cleanup always pass. */
  lemma CleanupIsNeverRefused(run: Run, k: nat, now: int)
    requires IsRun(run) && k < |run.labels| && run.labels[k].Load?
    requires At(run.states[k], run.labels[k].p).Holds? && At(run.states[k], run.labels[k].p).tx.Cleanup?
    ensures !PlanOf(At(run.states[k], run.labels[k].p).tx, Reg(run, k), now).Refuse?
  {
    RunKeepsInv(run, k);
    var p := run.labels[k].p;
    assert p in run.states[k].procs;
    assert Agrees(At(run.states[k], p), Reg(run, k));
    StoredIsMember(Reg(run, k).devices, At(run.states[k], p).tx.target);
  }

  /** What the process that takes step `k` was, given what it became. */
  lemma TakenBy(run: Run, k: nat, p: Pid)
    requires IsRun(run) && k < |run.labels|
    ensures run.labels[k].p != p ==> At(run.states[k + 1], p) == At(run.states[k], p)
    ensures run.labels[k].p == p ==>
            && Ready(At(run.states[k], p), run.labels[k])
            && At(run.states[k + 1], p) == Moved(At(run.states[k], p), run.labels[k], Reg(run, k))
    ensures Shaped(At(run.states[k], p)) && Agrees(At(run.states[k], p), Reg(run, k))
    ensures ValidDisk(run.states[k].disk)
    ensures run.labels[k].p == p ==>
            run.states[k + 1].disk ==
            if run.labels[k].Write? then Written(run.states[k].disk, At(run.states[k], p).next, run.labels[k].fault)
            else run.states[k].disk
  {
    assert StepAt(run, k);
    RunKeepsInv(run, k);
  }

  lemma CleanupBefore(run: Run, k: nat, p: Pid, tx: Tx)
    requires IsRun(run) && k < |run.labels| && tx.Cleanup? && InCleanup(At(run.states[k + 1], p), tx)
    ensures InCleanup(At(run.states[k], p), tx)
            || (run.labels[k] == Confirm(p) && At(run.states[k], p) == Remote(tx.target, tx.pending))
  {
    TakenBy(run, k, p);
    if run.labels[k].p == p {
      CleanupPredecessor(At(run.states[k], p), run.labels[k], Reg(run, k), tx);
    }
  }

  /** A process holding a cleanup had its remote revoke confirmed. */
  lemma {:induction false} CleanupFollowsConfirmation(run: Run, j: nat, p: Pid, tx: Tx) returns (c: nat)
    requires IsRun(run) && j < |run.states| && tx.Cleanup? && InCleanup(At(run.states[j], p), tx)
    ensures c < j && run.labels[c] == Confirm(p)
    ensures At(run.states[c], p) == Remote(tx.target, tx.pending)
  {
    assert j > 0;
    CleanupBefore(run, j - 1, p, tx);
    if InCleanup(At(run.states[j - 1], p), tx) {
      c := CleanupFollowsConfirmation(run, j - 1, p, tx);
    } else {
      c := j - 1;
    }
  }

  /** A record is removed only after the remote side confirmed its revocation. */
  lemma RemovalFollowsConfirmation(run: Run, k: nat, f: Fingerprint) returns (c: nat, p: Pid)
    requires IsRun(run) && k < |run.labels|
    requires LifeOf(Reg(run, k), f) != Absent && LifeOf(Reg(run, k + 1), f) == Absent
    ensures c < k && run.labels[c] == Confirm(p)
    ensures At(run.states[c], p).Remote? && At(run.states[c], p).target == f
    ensures LifeOf(Reg(run, c), f) == Tombstone
  {
    LifeStep(run, k, f);
    p := run.labels[k].p;
    c := CleanupFollowsConfirmation(run, k, p, OpAt(run, k).tx);
    RemoteSeesDisabledDevice(run, c, p);
  }

  // ---- the revocation epoch ----

  /** The devices one step disables. */
  ghost function Deactivated(r: Registry, next: Registry): set<Fingerprint> {
    set d | d in r.devices && d.active && !ActiveIn(next, d.fingerprint) :: d.fingerprint
  }

  ghost function Deactivations(run: Run, k: nat): nat
    requires IsRun(run) && k < |run.states|
  {
    if k == 0 then 0
    else Deactivations(run, k - 1) + |Deactivated(Reg(run, k - 1), Reg(run, k))|
  }

  lemma DeactivatedByStep(run: Run, k: nat)
    requires IsRun(run) && k < |run.labels|
    ensures Reg(run, k + 1).epoch == Reg(run, k).epoch + |Deactivated(Reg(run, k), Reg(run, k + 1))|
  {
    RunKeepsInv(run, k);
    var r, next := Reg(run, k), Reg(run, k + 1);
    var gone := Deactivated(r, next);
    forall d | d in r.devices && d.active
      ensures ActiveIn(r, d.fingerprint)
    {
      MemberIsStored(r.devices, d);
    }
    if CommitsAt(run, k) {
      CommitIsAtomic(run, k);
      var op := OpAt(run, k);
      EpochStep(op.tx, r, op.now, next);
      forall f | f in gone
        ensures op.tx == Disable(f) && ActiveIn(r, f)
      {
        ActiveStep(op.tx, r, op.now, next, f);
      }
      if op.tx.Disable? && ActiveIn(r, op.tx.target) {
        DisablePutEffect(r, op.tx.target, next);
        StoredIsMember(r.devices, op.tx.target);
        assert gone == {op.tx.target};
      } else {
        assert gone == {};
      }
    } else {
      OtherStepsKeepDisk(run, k);
      assert gone == {};
    }
  }

  /** Across every crash, failed write and retry the epoch counts the disabled devices exactly. */
  lemma {:induction false} EpochCountsDeactivations(run: Run, k: nat)
    requires IsRun(run) && k < |run.states|
    ensures Reg(run, k).epoch == Reg(run, 0).epoch + Deactivations(run, k)
  {
    if k > 0 {
      EpochCountsDeactivations(run, k - 1);
      DeactivatedByStep(run, k - 1);
    }
  }

  lemma {:induction false} EpochMonotone(run: Run, i: nat, j: nat)
    requires IsRun(run) && i <= j < |run.states|
    ensures Reg(run, i).epoch <= Reg(run, j).epoch
    decreases j - i
  {
    if i < j {
      DeactivatedByStep(run, i);
      EpochMonotone(run, i + 1, j);
    }
  }

  lemma {:induction false} StoppedStaysStopped(run: Run, i: nat, j: nat, p: Pid)
    requires IsRun(run) && i <= j < |run.states|
    requires At(run.states[i], p) == Closing(Finished(false)) || At(run.states[i], p) == Finished(false)
    ensures At(run.states[j], p) == Closing(Finished(false)) || At(run.states[j], p) == Finished(false)
    decreases j - i
  {
    if i < j {
      assert StepAt(run, i);
      assert p in run.states[i].procs;
      StoppedStaysStopped(run, i + 1, j, p);
    }
  }

  /** With the epoch exhausted, revoking an active device writes nothing and calls no remote. */
  lemma ExhaustedRevokeStops(run: Run, k: nat, j: nat)
    requires IsRun(run) && k < |run.labels| && k < j < |run.states| && run.labels[k].Load?
    requires var x := At(run.states[k], run.labels[k].p);
             x.Holds? && x.tx.Disable? && LifeOf(Reg(run, k), x.tx.target) == Active
    requires Reg(run, k).epoch == U64_MAX
    ensures run.states[k + 1].disk == run.states[k].disk
    ensures !At(run.states[j], run.labels[k].p).Remote? && !At(run.states[j], run.labels[k].p).Writing?
  {
    assert StepAt(run, k);
    StoppedStaysStopped(run, k + 1, j, run.labels[k].p);
  }

  // ---- authorization ----

  lemma SnapshotBefore(run: Run, k: nat, p: Pid, snap: Registry)
    requires IsRun(run) && k < |run.labels| && Carried(At(run.states[k + 1], p)) == Some(snap)
    ensures Carried(At(run.states[k], p)) == Some(snap)
            || (run.labels[k].Load? && run.labels[k].p == p && At(run.states[k], p) == Holds(Snapshot)
                && Reg(run, k) == snap)
  {
    TakenBy(run, k, p);
    if run.labels[k].p == p {
      SnapshotPredecessor(At(run.states[k], p), run.labels[k], Reg(run, k), snap);
    }
  }

  /** A carried snapshot is what the registry was when the process loaded it. */
  lemma {:induction false} SnapshotOrigin(run: Run, j: nat, p: Pid, snap: Registry) returns (i: nat)
    requires IsRun(run) && j < |run.states| && Carried(At(run.states[j], p)) == Some(snap)
    ensures i < j && run.labels[i].Load? && run.labels[i].p == p
    ensures At(run.states[i], p) == Holds(Snapshot) && Reg(run, i) == snap
    ensures forall k :: i < k <= j ==> Carried(At(run.states[k], p)) == Some(snap)
  {
    assert j > 0;
    SnapshotBefore(run, j - 1, p, snap);
    if Carried(At(run.states[j - 1], p)) == Some(snap) {
      i := SnapshotOrigin(run, j - 1, p, snap);
    } else {
      i := j - 1;
    }
  }

  lemma GrantBefore(run: Run, k: nat, p: Pid, snap: Registry, ask: Ask)
    requires IsRun(run) && k < |run.labels| && PassedGate(At(run.states[k + 1], p), snap, ask)
    ensures PassedGate(At(run.states[k], p), snap, ask)
            || (run.labels[k].Load? && run.labels[k].p == p && At(run.states[k], p) == Holds(Gate(snap, ask))
                && !GatePlan(Reg(run, k), snap.epoch, ask, run.labels[k].now).Refuse?)
  {
    TakenBy(run, k, p);
    if run.labels[k].p == p {
      GrantPredecessor(At(run.states[k], p), run.labels[k], Reg(run, k), snap, ask);
    }
  }

  /** A grant goes back to a gate check that refused nothing. */
  lemma {:induction false} GrantOrigin(run: Run, j: nat, p: Pid, snap: Registry, ask: Ask) returns (g: nat)
    requires IsRun(run) && j < |run.states| && PassedGate(At(run.states[j], p), snap, ask)
    ensures g < j && run.labels[g].Load? && run.labels[g].p == p
    ensures At(run.states[g], p) == Holds(Gate(snap, ask))
    ensures !GatePlan(Reg(run, g), snap.epoch, ask, run.labels[g].now).Refuse?
  {
    assert j > 0;
    GrantBefore(run, j - 1, p, snap, ask);
    if PassedGate(At(run.states[j - 1], p), snap, ask) {
      g := GrantOrigin(run, j - 1, p, snap, ask);
    } else {
      g := j - 1;
    }
  }

  /**
    A granted request took its snapshot at some step i and passed the gate at some step g,
    before its expiry. From i to g no device was revoked on disk, so none was removed and
    re-enrolled either, and the device that answered stayed active under its fingerprint.
   */
  lemma GrantIsFenced(run: Run, j: nat, p: Pid) returns (i: nat, g: nat)
    requires IsRun(run) && j < |run.states| && At(run.states[j], p).Granted?
    ensures i < g < j
    ensures var x := At(run.states[j], p);
            && At(run.states[i], p) == Holds(Snapshot) && run.labels[i].Load? && run.labels[i].p == p
            && At(run.states[g], p) == Holds(Gate(x.snap, x.ask)) && run.labels[g].Load? && run.labels[g].p == p
            && Reg(run, i) == x.snap
            && x.ask.device in x.snap.devices && x.ask.device.active
            && run.labels[g].now < x.ask.expiresAt
            && IdentityAt(run, g, x.ask.device)
            && forall k :: i <= k <= g ==>
                 && Reg(run, k).epoch == x.snap.epoch
                 && Deactivations(run, k) == Deactivations(run, i)
                 && ActiveIn(Reg(run, k), x.ask.device.fingerprint)
  {
    var x := At(run.states[j], p);
    g := GrantOrigin(run, j, p, x.snap, x.ask);
    i := SnapshotOrigin(run, g, p, x.snap);
    RunKeepsInv(run, g);
    RunKeepsInv(run, i);
    assert p in run.states[g].procs;
    assert Shaped(At(run.states[g], p));
    FindIdentityIsStored(Reg(run, g).devices, x.ask.device);
    forall k | i <= k <= g
      ensures Reg(run, k).epoch == x.snap.epoch
      ensures Deactivations(run, k) == Deactivations(run, i)
      ensures ActiveIn(Reg(run, k), x.ask.device.fingerprint)
    {
      EpochMonotone(run, i, k);
      EpochMonotone(run, k, g);
      EpochCountsDeactivations(run, i);
      EpochCountsDeactivations(run, k);
      if k == i {
        MemberIsStored(x.snap.devices, x.ask.device);
      } else {
        RunKeepsInv(run, k);
        assert p in run.states[k].procs;
        assert Agrees(At(run.states[k], p), Reg(run, k));
      }
    }
  }

  /** Step `k` writes a pin of this device's fingerprint under another identity. */
  ghost predicate RepinsAt(run: Run, k: nat, d: Record)
    requires IsRun(run) && k < |run.labels|
  {
    && CommitsAt(run, k) && OpAt(run, k).tx.Pin?
    && OpAt(run, k).tx.device.fingerprint == d.fingerprint
    && !SameIdentity(OpAt(run, k).tx.device, d)
  }

  ghost predicate IdentityAt(run: Run, k: nat, d: Record)
    requires k < |run.states|
  {
    && ActiveIn(Reg(run, k), d.fingerprint)
    && SameIdentity(Stored(Reg(run, k).devices, d.fingerprint).value, d)
  }

  lemma IdentityStep(run: Run, k: nat, d: Record)
    requires IsRun(run) && k < |run.labels|
    requires IdentityAt(run, k, d) && ActiveIn(Reg(run, k + 1), d.fingerprint)
    ensures IdentityAt(run, k + 1, d) <==> !RepinsAt(run, k, d)
  {
    if CommitsAt(run, k) {
      CommitIsAtomic(run, k);
      RunKeepsInv(run, k);
      var op, r, next := OpAt(run, k), Reg(run, k), Reg(run, k + 1);
      if Target(op.tx) != d.fingerprint {
        PutTouchesTargetOnly(op.tx, r, op.now, next, d.fingerprint);
      } else {
        match op.tx
        case Gate(snap, ask) => GatePutEffect(snap.epoch, r, ask, op.now, next);
        case Pin(e, _) => PinPutEffect(r, e, next);
        case Disable(_) => DisablePutEffect(r, d.fingerprint, next);
        case Cleanup(_, pending) => CleanupPutEffect(r, d.fingerprint, pending, next);
      }
    } else {
      OtherStepsKeepDisk(run, k);
    }
  }

  lemma {:induction false} IdentityHeld(run: Run, i: nat, j: nat, d: Record)
    requires IsRun(run) && i <= j < |run.states| && IdentityAt(run, i, d)
    requires forall k :: i <= k <= j ==> ActiveIn(Reg(run, k), d.fingerprint)
    requires forall k :: i <= k < j ==> !RepinsAt(run, k, d)
    ensures forall k :: i <= k <= j ==> IdentityAt(run, k, d)
    decreases j - i
  {
    if i < j {
      IdentityStep(run, i, d);
      IdentityHeld(run, i + 1, j, d);
    }
  }

  /**
    The gate compares identities at the snapshot and at the gate only. The record kept its
    identity all the way through exactly when nobody re-pinned the same fingerprint under
    another identity (say, a new API token) in between.
   */
  lemma GrantKeptIdentityIff(run: Run, j: nat, p: Pid) returns (i: nat, g: nat)
    requires IsRun(run) && j < |run.states| && At(run.states[j], p).Granted?
    ensures i < g < j
    ensures At(run.states[i], p) == Holds(Snapshot)
    ensures At(run.states[g], p) == Holds(Gate(At(run.states[j], p).snap, At(run.states[j], p).ask))
    ensures var d := At(run.states[j], p).ask.device;
            (forall k :: i <= k <= g ==> IdentityAt(run, k, d))
            <==> (forall k :: i <= k < g ==> !RepinsAt(run, k, d))
  {
    i, g := GrantIsFenced(run, j, p);
    var d := At(run.states[j], p).ask.device;
    RunKeepsInv(run, i);
    MemberIsStored(Reg(run, i).devices, d);
    assert IdentityAt(run, i, d);
    if forall k :: i <= k < g ==> !RepinsAt(run, k, d) {
      IdentityHeld(run, i, g, d);
    }
    if forall k :: i <= k <= g ==> IdentityAt(run, k, d) {
      forall k | i <= k < g
        ensures !RepinsAt(run, k, d)
      {
        assert IdentityAt(run, k, d) && IdentityAt(run, k + 1, d);
        IdentityStep(run, k, d);
      }
    }
  }

  // ---- signature counters ----

  ghost predicate CountAtLeast(r: Registry, f: Fingerprint, c: nat) {
    Stored(r.devices, f).Some? ==> Stored(r.devices, f).value.signCount >= c
  }

  lemma CounterStep(run: Run, k: nat, f: Fingerprint, c: nat)
    requires IsRun(run) && k < |run.labels|
    requires LifeOf(Reg(run, k), f) != Absent && CountAtLeast(Reg(run, k), f, c)
    ensures CountAtLeast(Reg(run, k + 1), f, c)
  {
    if CommitsAt(run, k) {
      CommitIsAtomic(run, k);
      RunKeepsInv(run, k);
      var op, r, next := OpAt(run, k), Reg(run, k), Reg(run, k + 1);
      if Target(op.tx) != f {
        PutTouchesTargetOnly(op.tx, r, op.now, next, f);
      } else {
        match op.tx
        case Gate(snap, ask) => GatePutEffect(snap.epoch, r, ask, op.now, next);
        case Pin(d, _) => PinPutEffect(r, d, next);
        case Disable(_) => DisablePutEffect(r, f, next);
        case Cleanup(_, pending) => CleanupPutEffect(r, f, pending, next);
      }
    } else {
      OtherStepsKeepDisk(run, k);
    }
  }

  /** While a fingerprint stays in the registry its stored counter never falls. */
  lemma {:induction false} CounterMonotone(run: Run, i: nat, j: nat, f: Fingerprint, c: nat)
    requires IsRun(run) && i <= j < |run.states| && CountAtLeast(Reg(run, i), f, c)
    requires forall k :: i <= k <= j ==> LifeOf(Reg(run, k), f) != Absent
    ensures CountAtLeast(Reg(run, j), f, c)
    decreases j - i
  {
    if i < j {
      CounterStep(run, i, f, c);
      CounterMonotone(run, i + 1, j, f, c);
    }
  }

  predicate Settled(x: Proc, snap: Registry, ask: Ask) {
    x == Granted(snap, ask) || x == Closing(Granted(snap, ask))
  }

  lemma SettledBefore(run: Run, k: nat, p: Pid, snap: Registry, ask: Ask)
    requires IsRun(run) && k < |run.labels| && Settled(At(run.states[k + 1], p), snap, ask)
    requires !ask.warningOnly && ask.observed.Some?
    ensures || Settled(At(run.states[k], p), snap, ask)
            || (&& At(run.states[k + 1], p) == Closing(Granted(snap, ask))
                && LifeOf(Reg(run, k + 1), ask.device.fingerprint) == Active
                && CountAtLeast(Reg(run, k + 1), ask.device.fingerprint, ask.observed.value))
  {
    TakenBy(run, k, p);
    var x, l, r := At(run.states[k], p), run.labels[k], Reg(run, k);
    if l.p == p && !Settled(x, snap, ask) {
      SettledPredecessor(x, l, r, snap, ask);
      SettledCounter(x, l, r, run.states[k].disk, snap, ask);
    }
  }

  lemma SettledCounter(x: Proc, l: Label, r: Registry, disk: Option<Registry>, snap: Registry, ask: Ask)
    requires r == View(disk) && ValidDisk(disk) && Agrees(x, r) && ask.observed.Some?
    requires || (l.Load? && GatePlan(r, snap.epoch, ask, l.now) == Keep)
             || (l.Write? && x.Writing? && x.tx == Gate(snap, ask) && Succeeds(x.next, l.fault))
    ensures var out := if l.Write? then View(Written(disk, x.next, l.fault)) else r;
            && LifeOf(out, ask.device.fingerprint) == Active
            && CountAtLeast(out, ask.device.fingerprint, ask.observed.value)
  {
    ValidView(disk);
    FindIdentityIsStored(r.devices, ask.device);
    if l.Write? {
      GatePutEffect(snap.epoch, r, ask, x.now, x.next);
    }
  }

  /** Where a command-lane grant was settled, the counter it observed is on disk. */
  lemma {:induction false} GrantRecordsCounter(run: Run, j: nat, p: Pid, snap: Registry, ask: Ask) returns (w: nat)
    requires IsRun(run) && j < |run.states| && Settled(At(run.states[j], p), snap, ask)
    requires !ask.warningOnly && ask.observed.Some?
    ensures w <= j && At(run.states[w], p) == Closing(Granted(snap, ask))
    ensures LifeOf(Reg(run, w), ask.device.fingerprint) == Active
    ensures CountAtLeast(Reg(run, w), ask.device.fingerprint, ask.observed.value)
  {
    assert j > 0;
    SettledBefore(run, j - 1, p, snap, ask);
    if Settled(At(run.states[j - 1], p), snap, ask) {
      w := GrantRecordsCounter(run, j - 1, p, snap, ask);
    } else {
      w := j;
    }
  }
}
