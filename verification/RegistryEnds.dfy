// What decisions and pins that are not cut short come to, whatever else runs meanwhile.
module RegistryEnds {
  import opened Prelude
  import opened Records
  import opened Transactions
  import opened RegistryProtocol
  import opened RegistryRuns
  import opened RegistryStore
  import opened RegistryRevokes

  // ---- ends are final, and nobody is stuck ----

  /** A granted or finished process stays what it is. */
  lemma {:induction false} EndIsFinal(run: Run, i: nat, j: nat, p: Pid)
    requires IsRun(run) && i <= j < |run.states| && (At(run.states[i], p).Granted? || At(run.states[i], p).Finished?)
    ensures At(run.states[j], p) == At(run.states[i], p)
    decreases j - i
  {
    if i < j {
      TakenBy(run, i, p);
      EndIsFinal(run, i + 1, j, p);
    }
  }

  /**
    Every process that has started and not ended can crash; and unless it waits for a device to
    answer, it can go on or waits for a lock that another process holds.
   */
  lemma AnyoneCanStep(run: Run, k: nat, p: Pid)
    requires IsRun(run) && k < |run.states|
    requires !At(run.states[k], p).Fresh? && !At(run.states[k], p).Granted? && !At(run.states[k], p).Finished?
    ensures Enabled(run.states[k], Stop(p))
    ensures var s, x := run.states[k], At(run.states[k], p);
            || x.Deciding?
            || (x.Queued? && s.lifecycle.Some? && s.lifecycle != Some(p))
            || (x.Wants? && s.registry.Some? && s.registry != Some(p))
            || exists l: Label :: l.p == p && Enabled(s, l) && !l.Stop? && (l.Write? ==> l.fault.NoFault?)
  {
    var s, x := run.states[k], At(run.states[k], p);
    var l := match x
      case Queued(_) => TakeLifecycle(p)
      case Wants(_) => TakeRegistry(p)
      case Holds(_) => Load(p, 0)
      case Writing(_, _, _) => Write(p, NoFault)
      case Closing(_) => Unlock(p)
      case Activating => Activated(p)
      case _ => Confirm(p);
    assert x.Deciding? || (Ready(x, l) && l.p == p);
    OwnLocks(run, k, p);
  }

  // ---- the final gate ----

  /** Passing the final gate, or past it. */
  predicate InGate(x: Proc, snap: Registry, ask: Ask) {
    || x == Wants(Gate(snap, ask)) || x == Holds(Gate(snap, ask)) || (x.Writing? && x.tx == Gate(snap, ask))
    || x == Closing(Granted(snap, ask)) || x == Granted(snap, ask)
  }

  /** The gate must refuse: the epoch moved, the request expired, or the answering record is gone or another. */
  ghost predicate MustRefuse(r: Registry, snap: Registry, ask: Ask, now: int) {
    || r.epoch != snap.epoch || ask.expiresAt <= now
    || forall e :: e in r.devices && e.active ==>
         e.(name := ask.device.name, signCount := ask.device.signCount, active := ask.device.active) != ask.device
  }

  lemma {:induction false} FindIdentityIff(ds: seq<Record>, d: Record)
    ensures FindIdentity(ds, d).None? <==>
            forall e :: e in ds && e.active ==> e.(name := d.name, signCount := d.signCount, active := d.active) != d
  {
    if ds != [] {
      FindIdentityIff(ds[1..], d);
      IdentityIff(ds[0], d);
      assert forall e :: e in ds <==> e == ds[0] || e in ds[1..];
    }
  }

  lemma GateRefusesIff(r: Registry, snap: Registry, ask: Ask, now: int)
    ensures GatePlan(r, snap.epoch, ask, now).Refuse? <==> MustRefuse(r, snap, ask, now)
  {
    FindIdentityIff(r.devices, ask.device);
  }

  lemma CountedIsValidIff(d: Record, c: nat)
    requires ValidRecord(d) && c > 0
    ensures ValidRecord(d.(signCount := c)) <==> d.kind == Webauthn && c <= 0xFFFF_FFFF
  {
  }

  lemma ReplacedIsDistinct(ds: seq<Record>, d: Record)
    requires Distinct(ds) && Stored(ds, d.fingerprint).Some?
    requires d.credentialId == Stored(ds, d.fingerprint).value.credentialId
    ensures Distinct(Replaced(ds, d.fingerprint, d))
  {
    ReplacedShape(ds, d.fingerprint, d);
  }

  lemma {:induction false} ReplacedAllValidIff(ds: seq<Record>, d: Record)
    requires Stored(ds, d.fingerprint).Some? && forall e :: e in ds ==> ValidRecord(e)
    ensures (forall e :: e in Replaced(ds, d.fingerprint, d) ==> ValidRecord(e)) <==> ValidRecord(d)
  {
    var next := Replaced(ds, d.fingerprint, d);
    if ds[0].fingerprint == d.fingerprint {
      assert next == [d] + ds[1..];
    } else {
      ReplacedAllValidIff(ds[1..], d);
      assert next == [ds[0]] + Replaced(ds[1..], d.fingerprint, d);
    }
  }

  lemma ReplacedIsValidIff(r: Registry, d: Record)
    requires ValidRegistry(r) && Stored(r.devices, d.fingerprint).Some?
    requires d.credentialId == Stored(r.devices, d.fingerprint).value.credentialId
    ensures ValidRegistry(r.(devices := Replaced(r.devices, d.fingerprint, d))) <==> ValidRecord(d)
  {
    ReplacedIsDistinct(r.devices, d);
    ReplacedAllValidIff(r.devices, d);
    ReplacedShape(r.devices, d.fingerprint, d);
  }

  /** Only browser credentials count, and in 32 bits. */
  lemma CounterFitsIff(r: Registry, snap: Registry, ask: Ask, now: int, next: Registry)
    requires ValidRegistry(r) && GatePlan(r, snap.epoch, ask, now) == Put(next)
    ensures ask.observed.Some?
    ensures ValidRegistry(next) <==> ask.device.kind == Webauthn && ask.observed.value <= 0xFFFF_FFFF
  {
    FindIdentityIsStored(r.devices, ask.device);
    StoredIsMember(r.devices, ask.device.fingerprint);
    var stored := Stored(r.devices, ask.device.fingerprint).value;
    CountedIsValidIff(stored, ask.observed.value);
    ReplacedIsValidIff(r, stored.(signCount := ask.observed.value));
  }

  /** Step `k` is a reason not to grant: a crash, a refusal the gate owes, or a counter it could not store. */
  ghost predicate Unmade(run: Run, k: nat, p: Pid, snap: Registry, ask: Ask)
    requires IsRun(run) && k < |run.labels|
  {
    && run.labels[k].p == p
    && match run.labels[k]
       case Stop(_) => true
       case Load(_, now) => MustRefuse(Reg(run, k), snap, ask, now)
       case Write(_, fault) =>
         !ask.warningOnly && !(fault.NoFault? && ask.device.kind == Webauthn && ask.observed.Some? && ask.observed.value <= 0xFFFF_FFFF)
       case _ => false
  }

  lemma GateWrites(run: Run, k: nat, p: Pid, snap: Registry, ask: Ask)
    requires IsRun(run) && k < |run.labels| && run.labels[k].Write? && run.labels[k].p == p
    requires InGate(At(run.states[k], p), snap, ask)
    ensures if Unmade(run, k, p, snap, ask) then Failed(At(run.states[k + 1], p)) else InGate(At(run.states[k + 1], p), snap, ask)
  {
    TakenBy(run, k, p);
    var w, r := At(run.states[k], p), Reg(run, k);
    ValidView(run.states[k].disk);
    CounterFitsIff(r, snap, ask, w.now, w.next);
  }

  /** One step of anyone: the decision goes on exactly when that step is no reason against it. */
  lemma GateStep(run: Run, k: nat, p: Pid, snap: Registry, ask: Ask)
    requires IsRun(run) && k < |run.labels| && InGate(At(run.states[k], p), snap, ask)
    ensures if Unmade(run, k, p, snap, ask) then Failed(At(run.states[k + 1], p)) else InGate(At(run.states[k + 1], p), snap, ask)
  {
    var l := run.labels[k];
    if l.Write? && l.p == p {
      GateWrites(run, k, p, snap, ask);
    } else {
      TakenBy(run, k, p);
      if l.Load? {
        GateRefusesIff(Reg(run, k), snap, ask, l.now);
      }
    }
  }

  function GateStepsLeft(x: Proc): nat {
    match x
    case Wants(_) => 4
    case Holds(_) => 3
    case Writing(_, _, _) => 2
    case Closing(_) => 1
    case _ => 0
  }

  lemma GateRunsDown(run: Run, k: nat, p: Pid, snap: Registry, ask: Ask)
    requires IsRun(run) && k < |run.labels|
    requires InGate(At(run.states[k], p), snap, ask) && InGate(At(run.states[k + 1], p), snap, ask)
    ensures GateStepsLeft(At(run.states[k + 1], p)) + (if run.labels[k].p == p then 1 else 0) <= GateStepsLeft(At(run.states[k], p))
  {
    TakenBy(run, k, p);
  }

  /**
    An answered request is granted: under every interleaving, four steps of its own with no
    reason against it among them are enough, and with fewer it is still on its way.
   */
  lemma {:induction false} UnrefusedIsGranted(run: Run, i: nat, j: nat, p: Pid, snap: Registry, ask: Ask)
    requires IsRun(run) && i <= j < |run.states| && InGate(At(run.states[i], p), snap, ask)
    requires forall k :: i <= k < j ==> !Unmade(run, k, p, snap, ask)
    ensures InGate(At(run.states[j], p), snap, ask) && GateStepsLeft(At(run.states[i], p)) <= 4
    ensures OwnSteps(run, i, j, p) >= GateStepsLeft(At(run.states[i], p)) ==> At(run.states[j], p) == Granted(snap, ask)
    decreases j - i
  {
    if i < j {
      GateStep(run, i, p, snap, ask);
      GateRunsDown(run, i, p, snap, ask);
      UnrefusedIsGranted(run, i + 1, j, p, snap, ask);
    }
  }

  /** And it fails only for such a reason. */
  lemma {:induction false} FailureHasAReason(run: Run, i: nat, j: nat, p: Pid, snap: Registry, ask: Ask)
    requires IsRun(run) && i <= j < |run.states| && InGate(At(run.states[i], p), snap, ask)
    requires At(run.states[j], p).Finished?
    ensures At(run.states[j], p) == Finished(false) && exists k :: i <= k < j && Unmade(run, k, p, snap, ask)
    decreases j - i
  {
    assert i < j;
    GateStep(run, i, p, snap, ask);
    if Unmade(run, i, p, snap, ask) {
      StoppedStaysStopped(run, i + 1, j, p);
    } else {
      FailureHasAReason(run, i + 1, j, p, snap, ask);
    }
  }

  // ---- pins and enrollments ----

  /** A pin of `d` that has not written yet. */
  predicate BeforePin(x: Proc, d: Record, activate: bool) {
    (x.Queued? || x.Wants? || x.Holds? || x.Writing?) && x.tx == Pin(d, activate)
  }

  /** The remote side is being told of the new device. */
  predicate Enrolling(x: Proc) {
    x == Closing(Activating) || x == Activating
  }

  predicate Succeeded(x: Proc) {
    x == Closing(Finished(true)) || x == Finished(true)
  }

  /** Step `k` ends a pin: a crash, a device that may not be pinned, or a failed write. */
  ghost predicate Unpinned(run: Run, k: nat, p: Pid, d: Record)
    requires IsRun(run) && k < |run.labels|
  {
    && run.labels[k].p == p
    && match run.labels[k]
       case Stop(_) => true
       case Load(_, _) => !PinPlan(Reg(run, k), d).Put? && !MayPin(Reg(run, k), d)
       case Write(_, fault) => !fault.NoFault? || !MayPin(Reg(run, k), d)
       case _ => false
  }

  lemma PinWrites(run: Run, k: nat, p: Pid, d: Record, activate: bool)
    requires IsRun(run) && k < |run.labels| && run.labels[k].Write? && run.labels[k].p == p
    requires BeforePin(At(run.states[k], p), d, activate)
    ensures Unpinned(run, k, p, d) ==> Failed(At(run.states[k + 1], p))
    ensures !Unpinned(run, k, p, d) ==>
              && (if activate then Enrolling(At(run.states[k + 1], p)) else Succeeded(At(run.states[k + 1], p)))
              && LifeOf(Reg(run, k + 1), d.fingerprint) == Active
  {
    TakenBy(run, k, p);
    var w, r := At(run.states[k], p), Reg(run, k);
    ValidView(run.states[k].disk);
    PinPlanIff(r, d);
    PinPutEffect(r, d, w.next);
  }

  /** One step of anyone before the pin is written. */
  lemma PinStep(run: Run, k: nat, p: Pid, d: Record, activate: bool)
    requires IsRun(run) && k < |run.labels| && BeforePin(At(run.states[k], p), d, activate)
    ensures Unpinned(run, k, p, d) ==> Failed(At(run.states[k + 1], p))
    ensures !Unpinned(run, k, p, d) && run.labels[k] != Write(p, NoFault) ==> BeforePin(At(run.states[k + 1], p), d, activate)
  {
    var l := run.labels[k];
    if l.Write? && l.p == p {
      PinWrites(run, k, p, d, activate);
    } else {
      TakenBy(run, k, p);
      ValidView(run.states[k].disk);
      PinPlanIff(Reg(run, k), d);
    }
  }

  /** No other process can disable a device while its enrollment holds the lifecycle lock. */
  lemma EnrollingStep(run: Run, k: nat, p: Pid, f: Fingerprint)
    requires IsRun(run) && k < |run.labels| && Enrolling(At(run.states[k], p)) && LifeOf(Reg(run, k), f) == Active
    ensures LifeOf(Reg(run, k + 1), f) == Active
  {
    if CommitsAt(run, k) {
      CommitIsAtomic(run, k);
      RunKeepsInv(run, k);
      ValidView(run.states[k].disk);
      var s, q := run.states[k], run.labels[k].p;
      assert StepAt(run, k);
      assert p in s.procs && Placed(s, p) && Placed(s, q);
      ActiveStep(OpAt(run, k).tx, Reg(run, k), OpAt(run, k).now, Reg(run, k + 1), f);
    } else {
      OtherStepsKeepDisk(run, k);
    }
  }

  lemma EnrollingMoves(run: Run, k: nat, p: Pid)
    requires IsRun(run) && k < |run.labels| && Enrolling(At(run.states[k], p))
    ensures var x, l := At(run.states[k + 1], p), run.labels[k];
            || (Enrolling(x) && l != Activated(p) && l != Stop(p))
            || (l == Activated(p) && x == Finished(true)) || (l == Stop(p) && x == Finished(false))
  {
    TakenBy(run, k, p);
  }

  /**
    All through a remote activation the pinned device is on disk and active, whatever else runs;
    and the enrollment succeeds exactly when the activation is reported back.
   */
  lemma {:induction false} ActivationSeesPinnedDevice(run: Run, i: nat, j: nat, p: Pid, f: Fingerprint)
    requires IsRun(run) && i <= j < |run.states| && Enrolling(At(run.states[i], p)) && LifeOf(Reg(run, i), f) == Active
    ensures Enrolling(At(run.states[j], p)) ==> LifeOf(Reg(run, j), f) == Active
    ensures At(run.states[j], p) == Finished(true) <==> exists k :: i <= k < j && run.labels[k] == Activated(p)
    ensures At(run.states[j], p) == Finished(false) <==> exists k :: i <= k < j && run.labels[k] == Stop(p)
    ensures Enrolling(At(run.states[j], p)) || At(run.states[j], p).Finished?
    decreases j - i
  {
    if i < j {
      EnrollingStep(run, i, p, f);
      EnrollingMoves(run, i, p);
      if Enrolling(At(run.states[i + 1], p)) {
        ActivationSeesPinnedDevice(run, i + 1, j, p, f);
      } else {
        EndTakesNoStep(run, i + 1, j, p);
      }
    }
  }

  lemma {:induction false} EndTakesNoStep(run: Run, i: nat, j: nat, p: Pid)
    requires IsRun(run) && i <= j < |run.states| && At(run.states[i], p).Finished?
    ensures At(run.states[j], p) == At(run.states[i], p) && forall k :: i <= k < j ==> run.labels[k].p != p
    decreases j - i
  {
    if i < j {
      TakenBy(run, i, p);
      EndTakesNoStep(run, i + 1, j, p);
    }
  }

  /**
    A pin is on disk when it says so: it has written only if the device may be pinned at that
    very step, and unless a step ends it, it goes on until it has.
   */
  lemma {:induction false} PinComesTo(run: Run, i: nat, j: nat, p: Pid, d: Record, activate: bool)
    requires IsRun(run) && i <= j < |run.states| && BeforePin(At(run.states[i], p), d, activate)
    ensures || BeforePin(At(run.states[j], p), d, activate)
            || (exists k :: i <= k < j && Unpinned(run, k, p, d) && Failed(At(run.states[k + 1], p)))
            || (exists k :: i <= k < j && run.labels[k] == Write(p, NoFault) && MayPin(Reg(run, k), d)
                            && LifeOf(Reg(run, k + 1), d.fingerprint) == Active
                            && if activate then Enrolling(At(run.states[k + 1], p)) else Succeeded(At(run.states[k + 1], p)))
    decreases j - i
  {
    if i < j {
      PinStep(run, i, p, d, activate);
      if !Unpinned(run, i, p, d) {
        if run.labels[i] == Write(p, NoFault) {
          PinWrites(run, i, p, d, activate);
        } else {
          PinComesTo(run, i + 1, j, p, d, activate);
        }
      }
    }
  }
}
