// Runs built step by step: a revoke retried after any crash, and a re-pin the gate cannot see.
module RegistryScenarios {
  import opened Prelude
  import opened Records
  import opened Transactions
  import opened RegistryProtocol
  import opened RegistryRuns
  import opened RegistryStore

  ghost function Last(run: Run): Sys
    requires run.states != []
  {
    run.states[|run.states| - 1]
  }

  /** `more` continues `run`. */
  ghost predicate Continues(run: Run, more: Run) {
    run.states <= more.states && run.labels <= more.labels
  }

  lemma Then(run: Run, l: Label) returns (more: Run)
    requires IsRun(run) && Enabled(Last(run), l)
    ensures IsRun(more) && Continues(run, more)
    ensures |more.labels| == |run.labels| + 1 && more.labels[|run.labels|] == l
    ensures Last(more) == Next(Last(run), l)
  {
    more := Run(run.states + [Next(Last(run), l)], run.labels + [l]);
    forall i: nat | i < |more.labels|
      ensures StepAt(more, i)
    {
      if i < |run.labels| {
        assert StepAt(run, i);
      }
    }
  }

  ghost predicate Quiet(s: Sys) {
    s.lifecycle == None && s.registry == None
  }

  /** One whole transaction of process `p`, alone: lock, load, and unlock or stay to write. */
  lemma LockAndLoad(run: Run, p: Pid, now: int) returns (more: Run)
    requires IsRun(run) && At(Last(run), p).Wants? && Last(run).registry == None
    ensures IsRun(more) && Continues(run, more) && |more.labels| == |run.labels| + 2
    ensures At(Last(more), p) == AfterLoad(At(Last(run), p).tx, View(Last(run).disk), now)
    ensures Last(more).disk == Last(run).disk && Last(more).lifecycle == Last(run).lifecycle
    ensures Last(more).registry == Some(p)
    ensures forall q :: q != p ==> At(Last(more), q) == At(Last(run), q)
    ensures more.labels[|run.labels|..] == [TakeRegistry(p), Load(p, now)]
    ensures At(more.states[|run.states|], p) == Holds(At(Last(run), p).tx)
  {
    more := Then(run, TakeRegistry(p));
    more := Then(more, Load(p, now));
  }

  /** A working write, then the unlock. */
  lemma WriteAndUnlock(run: Run, p: Pid) returns (more: Run)
    requires IsRun(run) && At(Last(run), p).Writing? && Last(run).registry == Some(p)
    requires ValidRegistry(At(Last(run), p).next)
    ensures IsRun(more) && Continues(run, more) && |more.labels| == |run.labels| + 2
    ensures At(Last(more), p) == AfterWrite(At(Last(run), p).tx, At(Last(run), p).next, true)
    ensures Last(more).disk == Some(At(Last(run), p).next) && Last(more).registry == None
    ensures Last(more).lifecycle ==
            if At(Last(more), p).Finished? then Release(Last(run).lifecycle, p) else Last(run).lifecycle
    ensures forall q :: q != p ==> At(Last(more), q) == At(Last(run), q)
    ensures more.labels[|run.labels|] == Write(p, NoFault)
    ensures more.states[|run.labels|] == Last(run)
  {
    more := Then(run, Write(p, NoFault));
    more := Then(more, Unlock(p));
  }

  lemma JustUnlock(run: Run, p: Pid) returns (more: Run)
    requires IsRun(run) && At(Last(run), p).Closing? && Last(run).registry == Some(p)
    ensures IsRun(more) && Continues(run, more) && |more.labels| == |run.labels| + 1
    ensures At(Last(more), p) == At(Last(run), p).after
    ensures Last(more).disk == Last(run).disk && Last(more).registry == None
    ensures Last(more).lifecycle ==
            if At(Last(more), p).Finished? then Release(Last(run).lifecycle, p) else Last(run).lifecycle
    ensures forall q :: q != p ==> At(Last(more), q) == At(Last(run), q)
  {
    more := Then(run, Unlock(p));
  }

  /** A pin that starts alone, up to the moment it holds the lifecycle lock. */
  lemma PinStarts(run: Run, p: Pid, d: Record) returns (more: Run)
    requires IsRun(run) && Quiet(Last(run)) && At(Last(run), p) == Fresh
    ensures IsRun(more) && Continues(run, more) && |more.labels| == |run.labels| + 2
    ensures At(Last(more), p) == Wants(Pin(d, false))
    ensures Last(more).disk == Last(run).disk && Last(more).registry == None && Last(more).lifecycle == Some(p)
    ensures forall q :: q != p ==> At(Last(more), q) == At(Last(run), q)
  {
    more := Then(run, Begin(p, Manage(Pin(d, false))));
    more := Then(more, TakeLifecycle(p));
  }

  /** It loads the registry and plans its write. */
  lemma PinLoads(run: Run, p: Pid, d: Record, next: Registry) returns (more: Run)
    requires IsRun(run) && Quiet(Last(run)) && At(Last(run), p) == Fresh
    requires PinPlan(View(Last(run).disk), d) == Put(next)
    ensures IsRun(more) && Continues(run, more) && |more.labels| == |run.labels| + 4
    ensures At(Last(more), p) == Writing(Pin(d, false), 0, next)
    ensures Last(more).disk == Last(run).disk && Last(more).registry == Some(p) && Last(more).lifecycle == Some(p)
    ensures forall q :: q != p ==> At(Last(more), q) == At(Last(run), q)
  {
    var started := PinStarts(run, p, d);
    more := LockAndLoad(started, p, 0);
  }

  /** A pin that runs alone takes effect. */
  lemma SoloPin(run: Run, p: Pid, d: Record, next: Registry) returns (more: Run, w: nat)
    requires IsRun(run) && Quiet(Last(run)) && At(Last(run), p) == Fresh
    requires PinPlan(View(Last(run).disk), d) == Put(next) && ValidRegistry(next)
    ensures IsRun(more) && Continues(run, more) && Quiet(Last(more))
    ensures Last(more).disk == Some(next)
    ensures forall q :: q != p ==> At(Last(more), q) == At(Last(run), q)
    ensures |run.labels| <= w < |more.labels| && CommitsAt(more, w) && OpAt(more, w).tx == Pin(d, false)
  {
    var loaded := PinLoads(run, p, d, next);
    w := |loaded.labels|;
    more := WriteAndUnlock(loaded, p);
  }

  /** A new revoke can finish: once the locks are free one run of it alone does. */
  lemma RetryCanFinish(run: Run, p: Pid, f: Fingerprint) returns (more: Run)
    requires IsRun(run) && Quiet(Last(run)) && At(Last(run), p) == Fresh
    requires LifeOf(View(Last(run).disk), f) == Active ==> View(Last(run).disk).epoch < U64_MAX
    ensures IsRun(more) && Continues(run, more) && Quiet(Last(more))
    ensures LifeOf(View(Last(more).disk), f) == Absent
    ensures At(Last(more), p) == Finished(true)
  {
    var pending;
    more, pending := DisableAlone(run, p, f);
    more := ConfirmAndClean(more, p, f, pending);
  }

  lemma DisableAlone(run: Run, p: Pid, f: Fingerprint) returns (more: Run, pending: Option<Pending>)
    requires IsRun(run) && Quiet(Last(run)) && At(Last(run), p) == Fresh
    requires LifeOf(View(Last(run).disk), f) == Active ==> View(Last(run).disk).epoch < U64_MAX
    ensures IsRun(more) && Continues(run, more)
    ensures At(Last(more), p) == Remote(f, pending)
    ensures Last(more).registry == None && Last(more).lifecycle == Some(p)
  {
    more := Then(run, Begin(p, Manage(Disable(f))));
    more := Then(more, TakeLifecycle(p));
    assert Last(more).disk == Last(run).disk && At(Last(more), p) == Wants(Disable(f));
    more, pending := DisableFromLock(more, p, f);
  }

  lemma DisableFromLock(run: Run, p: Pid, f: Fingerprint) returns (more: Run, pending: Option<Pending>)
    requires IsRun(run) && At(Last(run), p) == Wants(Disable(f))
    requires Last(run).registry == None && Last(run).lifecycle == Some(p)
    requires LifeOf(View(Last(run).disk), f) == Active ==> View(Last(run).disk).epoch < U64_MAX
    ensures IsRun(more) && Continues(run, more)
    ensures At(Last(more), p) == Remote(f, pending)
    ensures Last(more).registry == None && Last(more).lifecycle == Some(p)
  {
    var r := View(Last(run).disk);
    RunKeepsInv(run, |run.labels|);
    more := LockAndLoad(run, p, 0);
    if Stored(r.devices, f).Some? {
      var next := At(Last(more), p).next;
      DisableStaysValid(r, f, next);
      DisablePutEffect(r, f, next);
      more := WriteAndUnlock(more, p);
      pending := Some(Pending(Stored(next.devices, f).value, next.epoch));
    } else {
      more := JustUnlock(more, p);
      pending := None;
    }
  }

  /** The disk under a confirmed remote revoke, once the registry lock is held again. */
  lemma ConfirmAndLoad(run: Run, p: Pid, f: Fingerprint, pending: Option<Pending>) returns (more: Run)
    requires IsRun(run) && At(Last(run), p) == Remote(f, pending)
    requires Last(run).registry == None && Last(run).lifecycle == Some(p)
    ensures IsRun(more) && Continues(run, more)
    ensures Last(more).disk == Last(run).disk && Last(more).registry == Some(p) && Last(more).lifecycle == Some(p)
    ensures At(Last(more), p) == AfterLoad(Cleanup(f, pending), View(Last(run).disk), 0)
    ensures ValidRegistry(View(Last(run).disk)) && Untouched(Cleanup(f, pending), View(Last(run).disk))
  {
    RunKeepsInv(run, |run.labels|);
    assert p in Last(run).procs;
    assert Agrees(At(Last(run), p), View(Last(run).disk));
    more := Then(run, Confirm(p));
    more := LockAndLoad(more, p, 0);
  }

  /** What the cleanup plans over what the first phase left. */
  lemma CleanupPlans(r: Registry, f: Fingerprint, pending: Option<Pending>)
    requires ValidRegistry(r) && Untouched(Cleanup(f, pending), r)
    ensures match CleanupPlan(r, f, pending)
            case Refuse(_) => false
            case Keep => LifeOf(r, f) == Absent
            case Put(next) => ValidRegistry(next) && LifeOf(next, f) == Absent
  {
    if pending.Some? {
      StoredIsMember(r.devices, f);
      CleanupStaysValid(r, f);
      CleanupPutEffect(r, f, pending, CleanupPlan(r, f, pending).next);
    }
  }

  lemma ConfirmAndClean(run: Run, p: Pid, f: Fingerprint, pending: Option<Pending>) returns (more: Run)
    requires IsRun(run) && At(Last(run), p) == Remote(f, pending)
    requires Last(run).registry == None && Last(run).lifecycle == Some(p)
    ensures IsRun(more) && Continues(run, more) && Quiet(Last(more))
    ensures LifeOf(View(Last(more).disk), f) == Absent
    ensures At(Last(more), p) == Finished(true)
  {
    var loaded := ConfirmAndLoad(run, p, f, pending);
    CleanupPlans(View(Last(run).disk), f, pending);
    if At(Last(loaded), p).Writing? {
      more := WriteAndUnlock(loaded, p);
    } else {
      more := JustUnlock(loaded, p);
    }
  }

  // ---- two re-pins between snapshot and gate ----

  lemma Rotate(d: Record, token: Bytes, epoch: nat)
    requires ValidRecord(d) && d.active && |token| == 32 && epoch <= U64_MAX
    ensures ValidRecord(d.(tokenHash := token)) && ValidRegistry(Registry([d], epoch))
    ensures PinPlan(Registry([d], epoch), d.(tokenHash := token))
            == Put(Registry([d.(tokenHash := token)], epoch))
  {
    var e, r := d.(tokenHash := token), Registry([d], epoch);
    assert ValidRecord(e);
    assert Stored(r.devices, e.fingerprint) == Some(d);
    assert Without(r.devices[1..], e.fingerprint) == [];
    assert PinnedCount(Some(d), e) == e.signCount;
  }

  /** Only process 0 has ever moved. */
  ghost predicate OnlyZero(s: Sys) {
    forall q :: q != 0 ==> At(s, q) == Fresh
  }

  lemma DecisionStarts(d: Record) returns (run: Run)
    requires ValidRecord(d) && d.active
    ensures IsRun(run) && Quiet(Last(run)) && OnlyZero(Last(run))
    ensures Last(run).disk == Some(Registry([d], 0)) && At(Last(run), 0) == Wants(Snapshot)
  {
    run := Run([Sys(Some(Registry([d], 0)), None, None, map[])], []);
    run := Then(run, Begin(0, Decide));
  }

  /** A decision on a host with one device, waiting for its answer. */
  lemma SnapshotTaken(d: Record) returns (run: Run)
    requires ValidRecord(d) && d.active
    ensures IsRun(run) && Quiet(Last(run)) && OnlyZero(Last(run))
    ensures Last(run).disk == Some(Registry([d], 0)) && At(Last(run), 0) == Deciding(Registry([d], 0))
  {
    var started := DecisionStarts(d);
    var loaded := LockAndLoad(started, 0, 0);
    run := JustUnlock(loaded, 0);
  }

  /** The answer arrives and the gate, finding the same registry, grants it. */
  lemma AnswerGranted(run: Run, d: Record) returns (more: Run)
    requires IsRun(run) && Quiet(Last(run)) && d.active
    requires Last(run).disk == Some(Registry([d], 0))
    requires At(Last(run), 0) == Deciding(Registry([d], 0))
    ensures IsRun(more) && Continues(run, more) && |more.states| > |run.states|
    ensures At(Last(more), 0) == Granted(Registry([d], 0), Ask(d, 1, None, false))
  {
    var ask := Ask(d, 1, None, false);
    more := Then(run, Answer(0, ask));
    more := LockAndLoad(more, 0, 0);
    assert GatePlan(Registry([d], 0), 0, ask, 0) == Keep;
    more := JustUnlock(more, 0);
  }

  /**
    The identity can change and change back unseen. For every device: a token rotated away
    and back between snapshot and gate, with no revocation, still ends in a grant.
   */
  lemma RotationAndBackIsGranted(d: Record, token: Bytes) returns (run: Run, j: nat, k: nat)
    requires ValidRecord(d) && d.active && |token| == 32 && token != d.tokenHash
    ensures IsRun(run) && k < |run.labels| && k < j < |run.states|
    ensures At(run.states[j], 0).Granted? && At(run.states[j], 0).ask.device == d
    ensures RepinsAt(run, k, d)
    ensures !IdentityAt(run, k + 1, d)
  {
    run := SnapshotTaken(d);
    run, k := RotateAndBack(run, d, token);
    var granted := AnswerGranted(run, d);
    SameCommit(run, granted, k);
    run := granted;
    j := |run.labels|;
    RepinShows(run, k, d, d.(tokenHash := token));
  }

  lemma RotateAndBack(run: Run, d: Record, token: Bytes) returns (more: Run, k: nat)
    requires IsRun(run) && Quiet(Last(run)) && OnlyZero(Last(run))
    requires ValidRecord(d) && d.active && |token| == 32
    requires Last(run).disk == Some(Registry([d], 0))
    ensures IsRun(more) && Quiet(Last(more)) && Last(more).disk == Some(Registry([d], 0))
    ensures At(Last(more), 0) == At(Last(run), 0)
    ensures k < |more.labels| && CommitsAt(more, k)
    ensures OpAt(more, k).tx == Pin(d.(tokenHash := token), false)
  {
    var e := d.(tokenHash := token);
    Rotate(d, token, 0);
    Rotate(e, d.tokenHash, 0);
    assert e.(tokenHash := d.tokenHash) == d;
    var away, w;
    away, k := SoloPin(run, 1, e, Registry([e], 0));
    assert At(Last(away), 2) == At(Last(run), 2) == Fresh;
    more, w := SoloPin(away, 2, d, Registry([d], 0));
    SameCommit(away, more, k);
  }

  lemma RepinShows(run: Run, k: nat, d: Record, e: Record)
    requires IsRun(run) && k < |run.labels| && CommitsAt(run, k) && OpAt(run, k).tx == Pin(e, false)
    requires e.fingerprint == d.fingerprint && !SameIdentity(e, d)
    ensures RepinsAt(run, k, d) && !IdentityAt(run, k + 1, d)
  {
    RunKeepsInv(run, k);
    CommitIsAtomic(run, k);
    PinPutEffect(Reg(run, k), e, Reg(run, k + 1));
  }

  lemma SameCommit(run: Run, more: Run, k: nat)
    requires IsRun(run) && IsRun(more) && Continues(run, more) && k < |run.labels| && CommitsAt(run, k)
    ensures CommitsAt(more, k) && OpAt(more, k) == OpAt(run, k)
  {
  }
}
