// Decisions, pins, enrollments and two-phase revokes as interleaved processes over one
// devices.json, the lifecycle lock and the registry lock. A process runs one job.
// Every lock, load, write and unlock is a step of its own.
module RegistryProtocol {
  import opened Prelude
  import opened Records
  import opened Transactions

  type Pid = nat

  datatype Proc =
    | Fresh
    | Queued(tx: Tx)                                  // wants the lifecycle lock
    | Wants(tx: Tx)                                   // wants the registry lock
    | Holds(tx: Tx)                                   // has the registry lock, nothing loaded
    | Writing(tx: Tx, now: int, next: Registry)       // holds the edited state in memory
    | Closing(after: Proc)                            // done with the file, still holds the lock
    | Deciding(snap: Registry)                        // waits for a device to answer
    | Remote(target: Fingerprint, pending: Option<Pending>)  // remote revoke in progress
    | Activating                                      // remote activation in progress
    | Granted(snap: Registry, ask: Ask)
    | Finished(ok: bool)

  datatype Sys = Sys(
    disk: Option<Registry>,
    lifecycle: Option<Pid>,
    registry: Option<Pid>,
    procs: map<Pid, Proc>)

  datatype Job = Decide | Manage(tx: Tx)

  datatype Label =
    | Begin(p: Pid, job: Job)
    | TakeLifecycle(p: Pid)
    | TakeRegistry(p: Pid)
    | Load(p: Pid, now: int)
    | Write(p: Pid, fault: WriteFault)
    | Unlock(p: Pid)
    | Answer(p: Pid, ask: Ask)
    | Confirm(p: Pid)
    | Activated(p: Pid)
    | Stop(p: Pid)      // a crash, an I/O error, a busy lock or a failed remote call

  function At(s: Sys, p: Pid): Proc {
    if p in s.procs then s.procs[p] else Fresh
  }

  function Release(held: Option<Pid>, p: Pid): Option<Pid> {
    if held == Some(p) then None else held
  }

  function AfterLoad(tx: Tx, r: Registry, now: int): Proc {
    if tx.Snapshot? then Closing(Deciding(r))
    else match PlanOf(tx, r, now)
      case Refuse(_) => Closing(Finished(false))
      case Put(next) => Writing(tx, now, next)
      case Keep =>
        Closing(match tx
                case Gate(snap, ask) => Granted(snap, ask)
                case Disable(f) => Remote(f, None)
                case _ => Finished(true))
  }

  function AfterWrite(tx: Tx, next: Registry, ok: bool): Proc {
    match tx
    case Gate(snap, ask) => if ok || ask.warningOnly then Granted(snap, ask) else Finished(false)
    case Pin(_, activate) => if !ok then Finished(false) else if activate then Activating else Finished(true)
    case Disable(f) =>
      var tombstone := Stored(next.devices, f);
      if ok && tombstone.Some? then Remote(f, Some(Pending(tombstone.value, next.epoch)))
      else Finished(false)
    case _ => Finished(ok)
  }

  // ---- steps ----

  /** What a step needs of the process taking it. */
  ghost predicate Ready(x: Proc, l: Label) {
    match l
    case Begin(_, job) => x.Fresh? && (job.Manage? ==> job.tx.Pin? || job.tx.Disable?)
    case TakeLifecycle(_) => x.Queued?
    case TakeRegistry(_) => x.Wants?
    case Load(_, _) => x.Holds?
    case Write(_, _) => x.Writing?
    case Unlock(_) => x.Closing?
    case Answer(_, ask) => x.Deciding? && ask.device in x.snap.devices && ask.device.active
    case Confirm(_) => x.Remote?
    case Activated(_) => x.Activating?
    case Stop(_) => !x.Fresh? && !x.Granted? && !x.Finished?
  }

  /** What a step makes of the process taking it. */
  ghost function Moved(x: Proc, l: Label, r: Registry): Proc
    requires Ready(x, l)
  {
    match l
    case Begin(_, job) => if job.Decide? then Wants(Snapshot) else Queued(job.tx)
    case TakeLifecycle(_) => Wants(x.tx)
    case TakeRegistry(_) => Holds(x.tx)
    case Load(_, now) => AfterLoad(x.tx, r, now)
    case Write(_, fault) => Closing(AfterWrite(x.tx, x.next, Succeeds(x.next, fault)))
    case Unlock(_) => x.after
    case Answer(_, ask) => Wants(Gate(x.snap, ask))
    case Confirm(_) => Wants(Cleanup(x.target, x.pending))
    case Activated(_) => Finished(true)
    case Stop(_) => Finished(false)
  }

  ghost predicate Enabled(s: Sys, l: Label) {
    && Ready(At(s, l.p), l)
    && (l.TakeLifecycle? ==> s.lifecycle == None)
    && (l.TakeRegistry? ==> s.registry == None)
  }

  ghost function Next(s: Sys, l: Label): Sys
    requires Enabled(s, l)
  {
    var x := At(s, l.p);
    var y := Moved(x, l, View(s.disk));
    Sys(if l.Write? then Written(s.disk, x.next, l.fault) else s.disk,
        if l.TakeLifecycle? then Some(l.p)
        else if y.Finished? then Release(s.lifecycle, l.p) else s.lifecycle,
        if l.TakeRegistry? then Some(l.p)
        else if l.Unlock? || l.Stop? then Release(s.registry, l.p) else s.registry,
        s.procs[l.p := y])
  }

  ghost predicate Init(s: Sys) {
    ValidDisk(s.disk) && s.lifecycle == None && s.registry == None && s.procs == map[]
  }

  // ---- what every reachable state keeps ----

  predicate HoldsRegistry(x: Proc) {
    x.Holds? || x.Writing? || x.Closing?
  }

  predicate HoldsLifecycle(x: Proc) {
    match x
    case Wants(tx) => NeedsLifecycle(tx)
    case Holds(tx) => NeedsLifecycle(tx)
    case Writing(tx, _, _) => NeedsLifecycle(tx)
    case Closing(after) => HoldsLifecycle(after)
    case Remote(_, _) => true
    case Activating => true
    case _ => false
  }

  /** The recipient snapshot a decision still relies on. */
  function Carried(x: Proc): Option<Registry> {
    match x
    case Deciding(snap) => Some(snap)
    case Closing(after) => if after.Deciding? then Some(after.snap) else None
    case Wants(tx) => if tx.Gate? then Some(tx.snap) else None
    case Holds(tx) => if tx.Gate? then Some(tx.snap) else None
    case Writing(tx, _, _) => if tx.Gate? then Some(tx.snap) else None
    case _ => None
  }

  /** The revocation a process has started and not finished. */
  function Revoking(x: Proc): Option<Tx> {
    match x
    case Remote(f, pending) => Some(Cleanup(f, pending))
    case Closing(after) => if after.Remote? then Some(Cleanup(after.target, after.pending)) else None
    case Wants(tx) => if tx.Cleanup? then Some(tx) else None
    case Holds(tx) => if tx.Cleanup? then Some(tx) else None
    case Writing(tx, _, _) => if tx.Cleanup? then Some(tx) else None
    case _ => None
  }

  ghost predicate ActiveIn(r: Registry, f: Fingerprint) {
    Stored(r.devices, f).Some? && Stored(r.devices, f).value.active
  }

  /** Unless the epoch moved on, every device active in the snapshot is still active. */
  ghost predicate Fenced(snap: Registry, r: Registry) {
    && ValidRegistry(snap)
    && snap.epoch <= r.epoch
    && (snap.epoch == r.epoch ==>
          forall d :: d in snap.devices && d.active ==> ActiveIn(r, d.fingerprint))
  }

  /** The registry still shows what the revoke left behind. */
  ghost predicate Untouched(tx: Tx, r: Registry)
    requires tx.Cleanup?
  {
    match tx.pending
    case None => Stored(r.devices, tx.target) == None
    case Some(p) =>
      && p.tombstone.fingerprint == tx.target
      && !p.tombstone.active
      && Stored(r.devices, tx.target) == Some(p.tombstone)
      && r.epoch == p.epoch
  }

  /** Which values a process can hold at each point of its job. */
  predicate Shaped(x: Proc) {
    match x
    case Queued(tx) => tx.Pin? || tx.Disable?
    case Wants(tx) => AsksOwnSnapshot(tx)
    case Holds(tx) => AsksOwnSnapshot(tx)
    case Writing(tx, _, _) => AsksOwnSnapshot(tx)
    case Closing(after) =>
      after.Deciding? || after.Granted? || after.Remote? || after.Activating? || after.Finished?
    case _ => true
  }

  predicate AsksOwnSnapshot(tx: Tx) {
    tx.Gate? ==> tx.ask.device in tx.snap.devices && tx.ask.device.active
  }

  ghost predicate Placed(s: Sys, p: Pid) {
    && (HoldsRegistry(At(s, p)) ==> s.registry == Some(p))
    && (HoldsLifecycle(At(s, p)) ==> s.lifecycle == Some(p))
  }

  /** What a process remembers agrees with the registry on disk. */
  ghost predicate Agrees(x: Proc, r: Registry) {
    && (x.Writing? ==> PlanOf(x.tx, r, x.now) == Put(x.next))
    && (Carried(x).Some? ==> Fenced(Carried(x).value, r))
    && (Revoking(x).Some? ==> Untouched(Revoking(x).value, r))
  }

  ghost predicate Inv(s: Sys) {
    && ValidDisk(s.disk)
    && (forall p :: p in s.procs ==> Shaped(At(s, p)))
    && (forall p :: p in s.procs ==> Placed(s, p))
    && (forall p :: p in s.procs ==> Agrees(At(s, p), View(s.disk)))
  }

  // ---- one planned write, seen from the registry ----

  lemma ValidView(disk: Option<Registry>)
    requires ValidDisk(disk)
    ensures ValidRegistry(View(disk))
  {
  }

  /** The cleanup a revoke may plan is about its own tombstone. */
  ghost predicate Sound(tx: Tx, r: Registry) {
    tx.Cleanup? ==> Untouched(tx, r)
  }

  /** The epoch never falls, and no active record disappears or sleeps unless it rises. */
  lemma PutKeepsFence(tx: Tx, r: Registry, now: int, next: Registry, snap: Registry)
    requires ValidRegistry(r) && PlanOf(tx, r, now) == Put(next) && Sound(tx, r)
    requires Fenced(snap, r)
    ensures Fenced(snap, next)
  {
    EpochStep(tx, r, now, next);
    if snap.epoch == next.epoch {
      forall d | d in snap.devices && d.active
        ensures ActiveIn(next, d.fingerprint)
      {
        assert ActiveIn(r, d.fingerprint);
        ActiveStep(tx, r, now, next, d.fingerprint);
      }
    }
  }

  lemma EpochStep(tx: Tx, r: Registry, now: int, next: Registry)
    requires ValidRegistry(r) && PlanOf(tx, r, now) == Put(next) && Sound(tx, r)
    ensures r.epoch <= next.epoch <= r.epoch + 1
    ensures next.epoch != r.epoch <==> tx.Disable? && ActiveIn(r, tx.target)
  {
  }

  /** An active record stays active unless this very write is its revocation. */
  lemma ActiveStep(tx: Tx, r: Registry, now: int, next: Registry, f: Fingerprint)
    requires ValidRegistry(r) && PlanOf(tx, r, now) == Put(next) && Sound(tx, r)
    requires ActiveIn(r, f)
    ensures ActiveIn(next, f) || (tx == Disable(f) && Stored(next.devices, f).Some?
                                  && next.epoch == r.epoch + 1)
  {
    if f != Target(tx) {
      PutTouchesTargetOnly(tx, r, now, next, f);
    } else {
      match tx
      case Gate(snap, ask) => GatePutEffect(snap.epoch, r, ask, now, next);
      case Pin(d, _) => PinPutEffect(r, d, next);
      case Disable(f) => DisablePutEffect(r, f, next);
      case Cleanup(f, pending) => CleanupPutEffect(r, f, pending, next);
    }
  }

  /** A decision's counter update never disturbs a revocation in progress. */
  lemma GateKeepsPending(tx: Tx, r: Registry, now: int, next: Registry, revoke: Tx)
    requires ValidRegistry(r) && tx.Gate? && PlanOf(tx, r, now) == Put(next)
    requires revoke.Cleanup? && Untouched(revoke, r)
    ensures Untouched(revoke, next)
  {
    GatePutEffect(tx.snap.epoch, r, tx.ask, now, next);
    if revoke.target != Target(tx) {
      PutTouchesTargetOnly(tx, r, now, next, revoke.target);
    }
  }

  // ---- the invariant is inductive ----

  lemma InitInv(s: Sys)
    requires Init(s)
    ensures Inv(s)
  {
  }

  lemma StepKeepsInv(s: Sys, l: Label)
    requires Inv(s) && Enabled(s, l)
    ensures Inv(Next(s, l))
  {
    var t := Next(s, l);
    ValidView(s.disk);
    StepKeepsPlaces(s, l);
    if l.Write? {
      WriteKeepsAgreement(s, l);
    } else if l.Load? {
      LoadAgrees(At(s, l.p).tx, View(s.disk), l.now);
    } else {
      MoveKeepsAgreement(s, l);
    }
  }

  lemma StepKeepsPlaces(s: Sys, l: Label)
    requires Inv(s) && Enabled(s, l)
    ensures forall q :: q in Next(s, l).procs ==> Shaped(At(Next(s, l), q)) && Placed(Next(s, l), q)
  {
    var t := Next(s, l);
    forall q | q in t.procs
      ensures Shaped(At(t, q)) && Placed(t, q)
    {
      if q == l.p {
        MoverKeepsShape(s, l);
        MoverKeepsPlace(s, l);
      } else {
        BystanderKeepsPlace(s, l, q);
      }
    }
  }

  lemma MoverKeepsShape(s: Sys, l: Label)
    requires Enabled(s, l) && (l.p in s.procs ==> Shaped(At(s, l.p)))
    ensures Shaped(At(Next(s, l), l.p))
  {
  }

  lemma MoverKeepsPlace(s: Sys, l: Label)
    requires Enabled(s, l) && (l.p in s.procs ==> Shaped(At(s, l.p)) && Placed(s, l.p))
    ensures Placed(Next(s, l), l.p)
  {
    if HoldsLifecycle(Moved(At(s, l.p), l, View(s.disk))) {
      LifecycleNeed(At(s, l.p), l, View(s.disk));
    }
  }

  /** Only taking the lifecycle lock makes a process need it. */
  lemma LifecycleNeed(x: Proc, l: Label, r: Registry)
    requires Ready(x, l) && HoldsLifecycle(Moved(x, l, r))
    ensures HoldsLifecycle(x) || l.TakeLifecycle?
  {
  }

  lemma BystanderKeepsPlace(s: Sys, l: Label, q: Pid)
    requires Inv(s) && Enabled(s, l) && q in s.procs && q != l.p
    ensures Shaped(At(Next(s, l), q)) && Placed(Next(s, l), q)
  {
  }

  /** A step that neither loads nor writes keeps what its process remembers true. */
  lemma MoverAgrees(x: Proc, l: Label, r: Registry)
    requires Ready(x, l) && Shaped(x) && Agrees(x, r) && !l.Write? && !l.Load?
    ensures Agrees(Moved(x, l, r), r)
  {
  }

  lemma MoveKeepsAgreement(s: Sys, l: Label)
    requires Inv(s) && Enabled(s, l) && !l.Write? && !l.Load?
    ensures forall q :: q in Next(s, l).procs ==> Agrees(At(Next(s, l), q), View(s.disk))
  {
    var t := Next(s, l);
    forall q | q in t.procs
      ensures Agrees(At(t, q), View(s.disk))
    {
      if q == l.p {
        MoverAgrees(At(s, q), l, View(s.disk));
      }
    }
  }

  /** A snapshot is fenced by the registry it was taken from. */
  lemma SnapshotIsFenced(r: Registry)
    requires ValidRegistry(r)
    ensures Fenced(r, r)
  {
    forall d | d in r.devices && d.active
      ensures ActiveIn(r, d.fingerprint)
    {
      MemberIsStored(r.devices, d);
    }
  }

  lemma PlannedAgrees(tx: Tx, r: Registry, now: int, next: Registry)
    requires Agrees(Holds(tx), r) && PlanOf(tx, r, now) == Put(next)
    ensures Agrees(Writing(tx, now, next), r)
  {
    SameMemory(tx, now, next);
  }

  /** Planning a write changes nothing of what the process carries or is revoking. */
  lemma SameMemory(tx: Tx, now: int, next: Registry)
    ensures Carried(Writing(tx, now, next)) == Carried(Holds(tx))
    ensures Revoking(Writing(tx, now, next)) == Revoking(Holds(tx))
  {
  }

  lemma KeptAgrees(tx: Tx, r: Registry, now: int)
    requires PlanOf(tx, r, now) == Keep && !tx.Snapshot?
    ensures Agrees(AfterLoad(tx, r, now), r)
  {
  }

  lemma LoadAgrees(tx: Tx, r: Registry, now: int)
    requires ValidRegistry(r) && Agrees(Holds(tx), r)
    ensures Agrees(AfterLoad(tx, r, now), r)
  {
    if tx.Snapshot? {
      SnapshotIsFenced(r);
    } else {
      match PlanOf(tx, r, now)
      case Put(next) => PlannedAgrees(tx, r, now, next);
      case Keep => KeptAgrees(tx, r, now);
      case Refuse(_) =>
    }
  }

  lemma WriteKeepsAgreement(s: Sys, l: Label)
    requires Inv(s) && Enabled(s, l) && l.Write?
    ensures forall q :: q in Next(s, l).procs ==> Agrees(At(Next(s, l), q), View(Next(s, l).disk))
  {
    var t := Next(s, l);
    forall q | q in t.procs
      ensures Agrees(At(t, q), View(t.disk))
    {
      if q == l.p {
        WriterKeepsAgreement(s, l);
      } else {
        OthersKeepAgreement(s, l, q);
      }
    }
  }

  lemma WriterKeepsAgreement(s: Sys, l: Label)
    requires Inv(s) && Enabled(s, l) && l.Write?
    ensures Agrees(At(Next(s, l), l.p), View(Next(s, l).disk))
  {
    var w, r := At(s, l.p), View(s.disk);
    assert Agrees(w, r);
    WriterAgrees(w.tx, r, w.now, w.next, l.fault);
  }

  lemma OthersKeepAgreement(s: Sys, l: Label, q: Pid)
    requires Inv(s) && Enabled(s, l) && l.Write? && q in s.procs && q != l.p
    ensures Agrees(At(Next(s, l), q), View(Next(s, l).disk))
  {
    var w, r := At(s, l.p), View(s.disk);
    ValidView(s.disk);
    assert Shaped(w) && Placed(s, l.p) && Agrees(w, r);
    assert Placed(s, q) && Agrees(At(s, q), r);
    if Lands(w.next, l.fault) {
      BystanderAgrees(w.tx, r, w.now, w.next, At(s, q));
    }
  }

  /** The tombstone a disable wrote is what its process goes on to remember. */
  lemma DisablerAgrees(f: Fingerprint, r: Registry, next: Registry)
    requires DisablePlan(r, f) == Put(next)
    ensures Agrees(Closing(AfterWrite(Disable(f), next, true)), next)
  {
    DisablePutEffect(r, f, next);
    StoredIsMember(next.devices, f);
  }

  /** After any other write, or a failed one, there is nothing to remember. */
  lemma RemembersNothing(tx: Tx, next: Registry, ok: bool, r: Registry)
    requires tx.Disable? ==> !ok
    ensures Agrees(Closing(AfterWrite(tx, next, ok)), r)
  {
  }

  lemma WriterAgrees(tx: Tx, r: Registry, now: int, next: Registry, fault: WriteFault)
    requires PlanOf(tx, r, now) == Put(next)
    ensures Agrees(Closing(AfterWrite(tx, next, Succeeds(next, fault))), next)
    ensures !Succeeds(next, fault) ==> Agrees(Closing(AfterWrite(tx, next, false)), r)
  {
    RemembersNothing(tx, next, false, r);
    if tx.Disable? && Succeeds(next, fault) {
      DisablerAgrees(tx.target, r, next);
    } else {
      RemembersNothing(tx, next, Succeeds(next, fault), next);
    }
  }

  /** Another process's write leaves what this one remembers true. */
  lemma BystanderAgrees(tx: Tx, r: Registry, now: int, next: Registry, x: Proc)
    requires ValidRegistry(r) && PlanOf(tx, r, now) == Put(next) && Sound(tx, r)
    requires Agrees(x, r) && !x.Writing?
    requires HoldsLifecycle(x) ==> !NeedsLifecycle(tx)
    ensures Agrees(x, next)
  {
    if Carried(x).Some? {
      PutKeepsFence(tx, r, now, next, Carried(x).value);
    }
    if Revoking(x).Some? {
      assert x.Closing? ==> HoldsLifecycle(x) == HoldsLifecycle(x.after);
      GateKeepsPending(tx, r, now, next, Revoking(x).value);
    }
  }

  // ---- where a process can have come from ----

  predicate InCleanup(x: Proc, tx: Tx) {
    x == Wants(tx) || x == Holds(tx) || (x.Writing? && x.tx == tx)
  }

  lemma CleanupPredecessor(x: Proc, l: Label, r: Registry, tx: Tx)
    requires Ready(x, l) && Shaped(x) && tx.Cleanup? && InCleanup(Moved(x, l, r), tx)
    ensures InCleanup(x, tx) || (l.Confirm? && x == Remote(tx.target, tx.pending))
  {
  }

  lemma SnapshotPredecessor(x: Proc, l: Label, r: Registry, snap: Registry)
    requires Ready(x, l) && Shaped(x) && Carried(Moved(x, l, r)) == Some(snap)
    ensures Carried(x) == Some(snap) || (l.Load? && x == Holds(Snapshot) && snap == r)
  {
  }

  /** The process passed every gate check for this question. */
  predicate PassedGate(x: Proc, snap: Registry, ask: Ask) {
    || x == Granted(snap, ask)
    || x == Closing(Granted(snap, ask))
    || (x.Writing? && x.tx == Gate(snap, ask))
  }

  lemma GrantPredecessor(x: Proc, l: Label, r: Registry, snap: Registry, ask: Ask)
    requires Ready(x, l) && Shaped(x) && PassedGate(Moved(x, l, r), snap, ask)
    ensures PassedGate(x, snap, ask)
            || (l.Load? && x == Holds(Gate(snap, ask)) && !GatePlan(r, snap.epoch, ask, l.now).Refuse?)
  {
  }

  lemma SettledPredecessor(x: Proc, l: Label, r: Registry, snap: Registry, ask: Ask)
    requires Ready(x, l) && Shaped(x)
    requires Moved(x, l, r) == Granted(snap, ask) || Moved(x, l, r) == Closing(Granted(snap, ask))
    ensures || x == Closing(Granted(snap, ask))
            || (l.Load? && x == Holds(Gate(snap, ask)) && GatePlan(r, snap.epoch, ask, l.now) == Keep)
            || (l.Write? && x.Writing? && x.tx == Gate(snap, ask)
                && (Succeeds(x.next, l.fault) || ask.warningOnly))
    ensures x != Closing(Granted(snap, ask)) ==> Moved(x, l, r) == Closing(Granted(snap, ask))
  {
  }
}
