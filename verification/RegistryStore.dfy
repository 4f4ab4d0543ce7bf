// The registry operations as the hook runs them, one at a time, over devices.json.
module RegistryStore {
  import opened Prelude
  import opened Records
  import opened Transactions

  function Fingerprints(ds: seq<Record>): set<Fingerprint> {
    set d | d in ds :: d.fingerprint
  }

  function Credentials(ds: seq<Record>): set<Bytes> {
    set d | d in ds :: d.credentialId
  }

  /** A record fit to be pinned: every length, range and key shape, and names that are the hashes they should be. */
  ghost predicate WellFormed(d: Record) {
    && d.version == 1
    && 1 <= |d.credentialId| <= 0xFFFF_FFFF_FFFF_FFFF && 1 <= |d.publicKey| <= 0xFFFF_FFFF_FFFF_FFFF
    && |d.boxKey| == 32 && |d.tokenHash| == 32 && 1 <= |d.name| <= 128 && d.signCount < 0x1_0000_0000
    && d.fingerprint == DeviceFingerprint(d.credentialId, d.publicKey, d.boxKey)
    && (d.kind == Webauthn ==> 0xA0 <= d.publicKey[0] as int < 0xC0)
    && (d.kind != Webauthn ==>
          && |d.publicKey| == 65 && d.publicKey[0] as int == 4
          && d.credentialId == Sha256(d.publicKey) && d.signCount == 0)
  }

  /** At most eight such records, no fingerprint and no credential twice. */
  ghost predicate Orderly(r: Registry) {
    && |r.devices| <= 8 && r.epoch < 0x1_0000_0000_0000_0000
    && (forall i :: 0 <= i < |r.devices| ==> WellFormed(r.devices[i]))
    && (forall i, j :: 0 <= i < |r.devices| && 0 <= j < |r.devices| && i != j ==>
          r.devices[i].fingerprint != r.devices[j].fingerprint && r.devices[i].credentialId != r.devices[j].credentialId)
  }

  lemma WellFormedIff(d: Record)
    ensures ValidRecord(d) <==> WellFormed(d)
  {
  }

  lemma DistinctIff(ds: seq<Record>)
    ensures Distinct(ds) <==>
            forall i, j :: 0 <= i < |ds| && 0 <= j < |ds| && i != j ==>
              ds[i].fingerprint != ds[j].fingerprint && ds[i].credentialId != ds[j].credentialId
  {
  }

  /** What validation lets through, in numbers. */
  lemma OrderlyIff(r: Registry)
    ensures ValidRegistry(r) <==> Orderly(r)
  {
    DistinctIff(r.devices);
    forall i | 0 <= i < |r.devices|
      ensures ValidRecord(r.devices[i]) <==> WellFormed(r.devices[i])
    {
      WellFormedIff(r.devices[i]);
    }
  }

  /** `DeviceRegistryV1::validate`: one pass that remembers what it has seen. */
  method Validate(r: Registry) returns (ok: bool)
    requires r.epoch <= U64_MAX
    ensures ok <==> ValidRegistry(r)
  {
    if |r.devices| > MAX_DEVICES {
      return false;
    }
    var fingerprints, credentials := {}, {};
    var i := 0;
    while i < |r.devices|
      invariant 0 <= i <= |r.devices|
      invariant fingerprints == Fingerprints(r.devices[..i])
      invariant credentials == Credentials(r.devices[..i])
      invariant forall d :: d in r.devices[..i] ==> ValidRecord(d)
      invariant Distinct(r.devices[..i])
    {
      var d := r.devices[i];
      assert r.devices[..i + 1] == r.devices[..i] + [d];
      if !ValidRecord(d) {
        assert d in r.devices;
        return false;
      }
      DistinctGrows(r.devices[..i], d);
      if d.fingerprint in fingerprints || d.credentialId in credentials {
        DistinctPrefix(r.devices, i + 1);
        return false;
      }
      fingerprints, credentials := fingerprints + {d.fingerprint}, credentials + {d.credentialId};
      i := i + 1;
    }
    assert r.devices[..|r.devices|] == r.devices;
    return true;
  }

  /** Adding a record keeps the list distinct exactly when neither of its keys was seen. */
  lemma DistinctGrows(ds: seq<Record>, d: Record)
    requires Distinct(ds)
    ensures Distinct(ds + [d]) <==> d.fingerprint !in Fingerprints(ds) && d.credentialId !in Credentials(ds)
    ensures Fingerprints(ds + [d]) == Fingerprints(ds) + {d.fingerprint}
    ensures Credentials(ds + [d]) == Credentials(ds) + {d.credentialId}
  {
    var all := ds + [d];
    assert forall x :: x in all <==> x in ds || x == d;
    if Distinct(all) {
      forall e | e in ds
        ensures e.fingerprint != d.fingerprint && e.credentialId != d.credentialId
      {
        var j :| 0 <= j < |ds| && ds[j] == e;
        assert all[j] == e && all[|ds|] == d;
      }
    }
    if d.fingerprint !in Fingerprints(ds) && d.credentialId !in Credentials(ds) {
      forall j | 0 <= j < |ds|
        ensures all[j].fingerprint != d.fingerprint && all[j].credentialId != d.credentialId
      {
        assert ds[j] in ds;
      }
    }
  }

  lemma DistinctPrefix(ds: seq<Record>, n: nat)
    requires n <= |ds|
    ensures Distinct(ds) ==> Distinct(ds[..n])
  {
  }

  /** `iter().find(..)` by fingerprint. */
  method Find(ds: seq<Record>, f: Fingerprint) returns (found: Option<Record>)
    ensures found == Stored(ds, f)
  {
    var i := 0;
    while i < |ds|
      invariant 0 <= i <= |ds|
      invariant Stored(ds, f) == Stored(ds[i..], f)
    {
      if ds[i].fingerprint == f {
        return Some(ds[i]);
      }
      i := i + 1;
    }
    return None;
  }

  /** `retain(|stored| stored.fingerprint != f)`. */
  method Retain(ds: seq<Record>, f: Fingerprint) returns (kept: seq<Record>)
    ensures kept == Without(ds, f)
  {
    kept := [];
    var i := 0;
    while i < |ds|
      invariant 0 <= i <= |ds|
      invariant kept + Without(ds[i..], f) == Without(ds, f)
    {
      if ds[i].fingerprint != f {
        kept := kept + [ds[i]];
      }
      i := i + 1;
    }
  }

  /** Rewrites the first record under a fingerprint where it stands. */
  method Rewrite(ds: seq<Record>, f: Fingerprint, d: Record) returns (out: seq<Record>)
    ensures out == Replaced(ds, f, d)
  {
    var i := 0;
    while i < |ds| && ds[i].fingerprint != f
      invariant 0 <= i <= |ds|
      invariant Replaced(ds, f, d) == ds[..i] + Replaced(ds[i..], f, d)
    {
      i := i + 1;
    }
    if i < |ds| {
      out := ds[i := d];
    } else {
      out := ds;
    }
  }

  /** The edit a pin makes to the loaded registry; nothing when it is refused. */
  method EditPin(state: Registry, device: Record) returns (next: Option<Registry>)
    ensures next == match PinPlan(state, device) case Put(r) => Some(r) case _ => None
  {
    if !ValidRecord(device) || !device.active {
      return None;
    }
    var i := 0;
    while i < |state.devices|
      invariant 0 <= i <= |state.devices|
      invariant forall j :: 0 <= j < i ==> !(state.devices[j].credentialId == device.credentialId
                                             && state.devices[j].fingerprint != device.fingerprint)
    {
      if state.devices[i].credentialId == device.credentialId && state.devices[i].fingerprint != device.fingerprint {
        return None;
      }
      i := i + 1;
    }
    var pinned := device;
    var stored := Find(state.devices, device.fingerprint);
    if stored.Some? {
      if !stored.value.active {
        return None;
      }
      if SameCredential(stored.value, pinned) && stored.value.signCount > pinned.signCount {
        pinned := pinned.(signCount := stored.value.signCount);
      }
    }
    var kept := Retain(state.devices, pinned.fingerprint);
    next := Some(state.(devices := kept + [pinned]));
  }

  datatype GateResult = Authorized | Denied(why: Refusal) | HostFault

  /** What may go wrong while one revoke runs. */
  datatype RevokeFaults = RevokeFaults(disable: WriteFault, remoteOk: bool, cleanup: WriteFault, syncOk: bool)

  class Store {
    var disk: Option<Registry>
    /** The registry on disk at each remote revoke call. */
    var remoteCalls: seq<Registry>

    method Load() returns (state: Registry)
      ensures state == View(disk)
    {
      if disk.Some? {
        return disk.value;
      }
      return EMPTY_REGISTRY;
    }

    /** `Transaction::write`: validate, then replace the file at the rename. */
    method Save(next: Registry, fault: WriteFault) returns (ok: bool)
      requires ValidDisk(disk) && next.epoch <= U64_MAX
      modifies this`disk
      ensures disk == Written(old(disk), next, fault)
      ensures ok <==> Succeeds(next, fault)
      // An invalid registry or an early fault leaves the file; a late fault is reported over the new one.
      ensures ok <==> ValidRegistry(next) && fault == NoFault
      ensures disk == if ValidRegistry(next) && fault != BeforeRename then Some(next) else old(disk)
    {
      var valid := Validate(next);
      if !valid || fault == BeforeRename {
        return false;
      }
      disk := Some(next);
      return fault == NoFault;
    }

    /** `registry::pin`. */
    method PinDevice(device: Record, fault: WriteFault) returns (ok: bool)
      requires ValidDisk(disk)
      modifies this`disk
      ensures ValidDisk(disk)
      ensures match PinPlan(View(old(disk)), device)
              case Put(next) => disk == Written(old(disk), next, fault) && (ok <==> Succeeds(next, fault))
              case _ => disk == old(disk) && !ok
      // A pin goes through exactly when the device may be pinned and the write works.
      ensures ok <==> MayPin(View(old(disk)), device) && fault.NoFault?
      // It then stands under its fingerprint as given, with the larger of the two counters.
      ensures ok ==> var was := Stored(View(old(disk)).devices, device.fingerprint);
                     Stored(View(disk).devices, device.fingerprint) ==
                     Some(device.(signCount := if was.Some? && was.value.signCount > device.signCount
                                               then was.value.signCount else device.signCount))
      ensures forall g :: g != device.fingerprint ==> Stored(View(disk).devices, g) == Stored(View(old(disk)).devices, g)
    {
      ghost var before := View(disk);
      var state := Load();
      var next := EditPin(state, device);
      PinPlanIff(before, device);
      if next.None? {
        return false;
      }
      PinLeaves(before, device, next.value);
      ok := Save(next.value, fault);
    }

    /** `authorize_in`: the final checks and the counter update. */
    method Authorize(snapEpoch: nat, ask: Ask, now: int, fault: WriteFault) returns (out: GateResult)
      requires ValidDisk(disk)
      modifies this`disk
      ensures ValidDisk(disk)
      ensures match GatePlan(View(old(disk)), snapEpoch, ask, now)
              case Refuse(why) => out == Denied(why) && disk == old(disk)
              case Keep => out == Authorized && disk == old(disk)
              case Put(next) =>
                && disk == Written(old(disk), next, fault)
                && out == if Succeeds(next, fault) || ask.warningOnly then Authorized else HostFault
      ensures out == Authorized && ask.observed.Some? && !ask.warningOnly ==>
                var s := Stored(View(disk).devices, ask.device.fingerprint);
                s.Some? && s.value.active && s.value.signCount >= ask.observed.value
    {
      var state := Load();
      assert ValidRegistry(state);
      if snapEpoch != state.epoch {
        return Denied(PredatesRevocation);
      }
      var i := 0;
      while i < |state.devices| && !(state.devices[i].active && SameIdentity(state.devices[i], ask.device))
        invariant 0 <= i <= |state.devices|
        invariant FindIdentity(state.devices, ask.device) == FindIdentity(state.devices[i..], ask.device)
      {
        i := i + 1;
      }
      if i == |state.devices| {
        return Denied(CredentialGone);
      }
      var stored := state.devices[i];
      assert FindIdentity(state.devices, ask.device) == Some(stored);
      FindIdentityIsStored(state.devices, ask.device);
      if ask.expiresAt <= now {
        return Denied(Expired);
      }
      if ask.observed.Some? && ask.observed.value > stored.signCount {
        var updated := Rewrite(state.devices, stored.fingerprint, stored.(signCount := ask.observed.value));
        GatePutEffect(snapEpoch, state, ask, now, state.(devices := updated));
        var ok := Save(state.(devices := updated), fault);
        if !ok && !ask.warningOnly {
          return HostFault;
        }
      }
      return Authorized;
    }

    /** The first phase of a revoke: the record becomes a tombstone, durably, or nothing follows. */
    method DisableDevice(f: Fingerprint, fault: WriteFault) returns (done: bool, pending: Option<Pending>)
      requires ValidDisk(disk)
      modifies this`disk
      ensures ValidDisk(disk)
      ensures match DisablePlan(View(old(disk)), f)
              case Refuse(_) => !done && disk == old(disk)
              case Keep => done && pending == None && disk == old(disk)
              case Put(next) =>
                && disk == Written(old(disk), next, fault) && ValidRegistry(next) && (done <==> fault.NoFault?)
                && pending == Some(Pending(Stored(View(old(disk)).devices, f).value.(active := false), next.epoch))
      ensures PhaseEffect(View(old(disk)), View(disk), f)
      ensures Stored(View(disk).devices, f).Some? <==> Stored(View(old(disk)).devices, f).Some?
      ensures done ==> PendingFits(View(disk), f, pending)
    {
      var state := Load();
      assert ValidRegistry(state);
      if DisablePlan(state, f).Put? {
        DisableLeaves(state, f, DisablePlan(state, f).next);
      }
      var stored := Find(state.devices, f);
      if stored.None? {
        return true, None;
      }
      var tombstone := stored.value.(active := false);
      var epoch := state.epoch;
      if stored.value.active {
        if epoch == U64_MAX {
          return false, None;
        }
        epoch := epoch + 1;
      }
      var disabled := Rewrite(state.devices, f, tombstone);
      DisableStaysValid(state, f, Registry(disabled, epoch));
      done := Save(Registry(disabled, epoch), fault);
      pending := Some(Pending(tombstone, epoch));
    }

    /** The last phase: remove exactly the tombstone that was left, or find it already gone. */
    method CleanUp(f: Fingerprint, pending: Option<Pending>, fault: WriteFault, syncOk: bool) returns (ok: bool)
      requires ValidDisk(disk)
      modifies this`disk
      ensures ValidDisk(disk)
      ensures match CleanupPlan(View(old(disk)), f, pending)
              case Refuse(_) => !ok && disk == old(disk)
              case Keep => (ok <==> syncOk) && disk == old(disk)
              case Put(next) => disk == Written(old(disk), next, fault) && ValidRegistry(next) && (ok <==> fault.NoFault?)
      ensures ok ==> Stored(View(disk).devices, f).None?
      ensures PendingFits(View(old(disk)), f, pending) ==>
                && PhaseEffect(View(old(disk)), View(disk), f)
                && (fault.NoFault? && syncOk ==> ok)
    {
      var state := Load();
      assert ValidRegistry(state);
      if pending.Some? && Stored(state.devices, f) == Some(pending.value.tombstone)
         && !pending.value.tombstone.active && pending.value.epoch == state.epoch {
        StoredIsMember(state.devices, f);
        CleanupLeaves(state, f, pending);
      }
      CleanupGone(state, f, pending);
      if pending.Some? {
        if state.epoch != pending.value.epoch || pending.value.tombstone !in state.devices || pending.value.tombstone.active {
          return false;
        }
        var kept := Retain(state.devices, f);
        CleanupStaysValid(state, f);
        ok := Save(state.(devices := kept), fault);
      } else {
        var appeared := Find(state.devices, f);
        ok := appeared.None? && syncOk;
      }
    }

    /** `revoke_with`: disable durably, revoke remotely, then clean up. */
    method Revoke(f: Fingerprint, faults: RevokeFaults) returns (ok: bool)
      requires ValidDisk(disk)
      modifies this
      ensures ValidDisk(disk)
      // The remote is called at most once, and never while the device is active on disk.
      ensures remoteCalls == old(remoteCalls) || (|remoteCalls| == |old(remoteCalls)| + 1
                && old(remoteCalls) == remoteCalls[..|old(remoteCalls)|]
                && var seen := Stored(remoteCalls[|remoteCalls| - 1].devices, f);
                   seen.Some? ==> !seen.value.active)
      // Success means gone; other devices are never touched.
      ensures ok ==> Stored(View(disk).devices, f).None? && |remoteCalls| > |old(remoteCalls)|
      ensures forall g :: g != f ==> Stored(View(disk).devices, g) == Stored(View(old(disk)).devices, g)
      // Before a confirmed remote revoke the record is at most disabled, never removed.
      ensures !faults.remoteOk && Stored(View(old(disk)).devices, f).Some? ==> Stored(View(disk).devices, f).Some?
      // The epoch moves exactly when an active device ends up inactive or gone.
      ensures var was := Stored(View(old(disk)).devices, f);
              var left := Stored(View(disk).devices, f);
              View(disk).epoch == View(old(disk)).epoch
                + (if was.Some? && was.value.active && (left.None? || !left.value.active) then 1 else 0)
      // An exhausted epoch stops the revoke of an active device before anything happens.
      ensures View(old(disk)).epoch == U64_MAX && Stored(View(old(disk)).devices, f).Some?
              && Stored(View(old(disk)).devices, f).value.active
              ==> !ok && disk == old(disk) && remoteCalls == old(remoteCalls)
      // A working disk and remote finish the job from any state a crash can leave.
      ensures faults == RevokeFaults(NoFault, true, NoFault, true)
              && !(View(old(disk)).epoch == U64_MAX && Stored(View(old(disk)).devices, f).Some?
                   && Stored(View(old(disk)).devices, f).value.active)
              ==> ok
    {
      var done, pending := DisableDevice(f, faults.disable);
      if !done {
        return false;
      }
      var seen := Load();
      remoteCalls := remoteCalls + [seen];
      if !faults.remoteOk {
        return false;
      }
      ok := CleanUp(f, pending, faults.cleanup, faults.syncOk);
    }
  }

  /** One phase of a revoke touches one record only and moves the epoch with its deactivation. */
  ghost predicate PhaseEffect(r: Registry, next: Registry, f: Fingerprint) {
    && (forall g :: g != f ==> Stored(next.devices, g) == Stored(r.devices, g))
    && var was, left := Stored(r.devices, f), Stored(next.devices, f);
       && (was.None? ==> left.None?)
       && (was.Some? && !was.value.active && left.Some? ==> !left.value.active)
       && next.epoch == r.epoch + (if was.Some? && was.value.active && (left.None? || !left.value.active) then 1 else 0)
  }

  /** What a finished first phase remembers is what the disk holds: a tombstone, or nothing. */
  ghost predicate PendingFits(r: Registry, f: Fingerprint, pending: Option<Pending>) {
    match pending
    case None => Stored(r.devices, f).None?
    case Some(p) => Stored(r.devices, f) == Some(p.tombstone) && !p.tombstone.active && p.epoch == r.epoch
  }

  /** The first phase's write: a tombstone, the other devices as they were. */
  lemma DisableLeaves(r: Registry, f: Fingerprint, next: Registry)
    requires ValidRegistry(r) && DisablePlan(r, f) == Put(next)
    ensures var s := Stored(r.devices, f);
            && s.Some? && Stored(next.devices, f) == Some(s.value.(active := false))
            && next.epoch == r.epoch + (if s.value.active then 1 else 0)
    ensures forall g :: g != f ==> Stored(next.devices, g) == Stored(r.devices, g)
  {
    DisablePutEffect(r, f, next);
    forall g | g != f
      ensures Stored(next.devices, g) == Stored(r.devices, g)
    {
      PutTouchesTargetOnly(Disable(f), r, 0, next, g);
    }
  }

  /** The last phase finds its tombstone and removes that alone. */
  lemma CleanupLeaves(r: Registry, f: Fingerprint, pending: Option<Pending>)
    requires ValidRegistry(r) && pending.Some? && PendingFits(r, f, pending)
    requires pending.value.tombstone in r.devices && pending.value.tombstone.fingerprint == f
    ensures var plan := CleanupPlan(r, f, pending);
            && plan.Put? && plan.next.epoch == r.epoch && Stored(plan.next.devices, f).None?
            && forall g :: g != f ==> Stored(plan.next.devices, g) == Stored(r.devices, g)
  {
    var next := CleanupPlan(r, f, pending).next;
    CleanupPutEffect(r, f, pending, next);
    forall g | g != f
      ensures Stored(next.devices, g) == Stored(r.devices, g)
    {
      PutTouchesTargetOnly(Cleanup(f, pending), r, 0, next, g);
    }
  }

  /** A cleanup that is not refused leaves nothing under the fingerprint. */
  lemma CleanupGone(r: Registry, f: Fingerprint, pending: Option<Pending>)
    ensures CleanupPlan(r, f, pending).Keep? ==> Stored(r.devices, f).None?
    ensures CleanupPlan(r, f, pending).Put? ==> Stored(CleanupPlan(r, f, pending).next.devices, f).None?
  {
    StoredWithout(r.devices, f, f);
  }

  // ---- when a pin goes through ----

  /**
    A device may be pinned: it is valid and active, its credential is nobody else's, no revoke
    of it is pending, and there is room or it is there already.
   */
  ghost predicate MayPin(r: Registry, d: Record) {
    && WellFormed(d) && d.active
    && (forall e :: e in r.devices && e.fingerprint != d.fingerprint ==> e.credentialId != d.credentialId)
    && (forall e :: e in r.devices && e.fingerprint == d.fingerprint ==> e.active)
    && (|r.devices| < 8 || exists e :: e in r.devices && e.fingerprint == d.fingerprint)
  }

  lemma {:induction false} WithoutLength(ds: seq<Record>, f: Fingerprint)
    requires Distinct(ds)
    ensures |Without(ds, f)| == if Stored(ds, f).Some? then |ds| - 1 else |ds|
    ensures forall d :: d in Without(ds, f) <==> d in ds && d.fingerprint != f
  {
    if ds != [] {
      WithoutLength(ds[1..], f);
      if ds[0].fingerprint == f {
        NoneStored(ds[1..], f);
      }
    }
  }

  lemma {:induction false} NoneStored(ds: seq<Record>, f: Fingerprint)
    requires forall i :: 0 <= i < |ds| ==> ds[i].fingerprint != f
    ensures Stored(ds, f).None?
  {
    if ds != [] {
      NoneStored(ds[1..], f);
    }
  }

  /** The counter kept is the larger one: where the credentials differ both counters are zero. */
  lemma LargerCounter(r: Registry, d: Record)
    requires ValidRegistry(r) && ValidRecord(d)
    ensures var was := Stored(r.devices, d.fingerprint);
            PinnedCount(was, d) == if was.Some? && was.value.signCount > d.signCount then was.value.signCount else d.signCount
    ensures ValidRecord(d.(signCount := PinnedCount(Stored(r.devices, d.fingerprint), d)))
  {
    var was := Stored(r.devices, d.fingerprint);
    if was.Some? {
      StoredIsMember(r.devices, d.fingerprint);
      FingerprintDeterminesKeys(was.value, d);
    }
  }

  /** Adding `pinned` to the rest is valid exactly when its credential is free and there is room. */
  lemma PinnedIsValid(r: Registry, pinned: Record)
    requires ValidRegistry(r) && ValidRecord(pinned)
    ensures ValidRegistry(r.(devices := Without(r.devices, pinned.fingerprint) + [pinned])) <==>
            && (forall e :: e in r.devices && e.fingerprint != pinned.fingerprint ==> e.credentialId != pinned.credentialId)
            && (|r.devices| < 8 || Stored(r.devices, pinned.fingerprint).Some?)
  {
    var rest := Without(r.devices, pinned.fingerprint);
    WithoutShape(r.devices, pinned.fingerprint);
    WithoutLength(r.devices, pinned.fingerprint);
    DistinctGrows(rest, pinned);
    assert pinned.fingerprint !in Fingerprints(rest);
    assert pinned.credentialId in Credentials(rest) <==>
           exists e :: e in r.devices && e.fingerprint != pinned.fingerprint && e.credentialId == pinned.credentialId;
  }

  lemma StoredIffMember(ds: seq<Record>, f: Fingerprint)
    requires Distinct(ds)
    ensures Stored(ds, f).Some? <==> exists e :: e in ds && e.fingerprint == f
    ensures Stored(ds, f).Some? ==> forall e :: e in ds && e.fingerprint == f ==> e == Stored(ds, f).value
  {
    StoredIsMember(ds, f);
    forall e | e in ds && e.fingerprint == f
      ensures Stored(ds, f) == Some(e)
    {
      MemberIsStored(ds, e);
    }
  }

  /** Planned and writable, exactly when it may be pinned. */
  lemma PinPlanIff(r: Registry, d: Record)
    requires ValidRegistry(r)
    ensures MayPin(r, d) <==> PinPlan(r, d).Put? && ValidRegistry(PinPlan(r, d).next)
  {
    StoredIffMember(r.devices, d.fingerprint);
    WellFormedIff(d);
    if ValidRecord(d) {
      LargerCounter(r, d);
      PinnedIsValid(r, d.(signCount := PinnedCount(Stored(r.devices, d.fingerprint), d)));
    }
  }

  lemma PinLeaves(r: Registry, d: Record, next: Registry)
    requires ValidRegistry(r) && PinPlan(r, d) == Put(next)
    ensures var was := Stored(r.devices, d.fingerprint);
            Stored(next.devices, d.fingerprint) ==
            Some(d.(signCount := if was.Some? && was.value.signCount > d.signCount then was.value.signCount else d.signCount))
    ensures forall g :: g != d.fingerprint ==> Stored(next.devices, g) == Stored(r.devices, g)
  {
    PinPutEffect(r, d, next);
    LargerCounter(r, d);
    forall g | g != d.fingerprint
      ensures Stored(next.devices, g) == Stored(r.devices, g)
    {
      PinTouchesTargetOnly(r, d, next, g);
    }
  }

  // ---- edits that keep a registry valid ----

  lemma {:induction false} ReplacedShape(ds: seq<Record>, f: Fingerprint, d: Record)
    requires d.fingerprint == f
    requires Stored(ds, f).Some? ==> d.credentialId == Stored(ds, f).value.credentialId
    ensures |Replaced(ds, f, d)| == |ds|
    ensures forall i :: 0 <= i < |ds| ==>
              && Replaced(ds, f, d)[i].fingerprint == ds[i].fingerprint
              && Replaced(ds, f, d)[i].credentialId == ds[i].credentialId
              && (Replaced(ds, f, d)[i] == ds[i] || Replaced(ds, f, d)[i] == d)
  {
    if ds != [] && ds[0].fingerprint != f {
      ReplacedShape(ds[1..], f, d);
    }
  }

  lemma DisableStaysValid(r: Registry, f: Fingerprint, next: Registry)
    requires ValidRegistry(r) && Stored(r.devices, f).Some? && next.epoch <= U64_MAX
    requires next.devices == Replaced(r.devices, f, Stored(r.devices, f).value.(active := false))
    ensures ValidRegistry(next)
  {
    StoredIsMember(r.devices, f);
    ReplacedShape(r.devices, f, Stored(r.devices, f).value.(active := false));
  }

  lemma {:induction false} WithoutShape(ds: seq<Record>, f: Fingerprint)
    requires Distinct(ds)
    ensures Distinct(Without(ds, f)) && |Without(ds, f)| <= |ds|
    ensures forall d :: d in Without(ds, f) ==> d in ds
  {
    if ds != [] {
      WithoutShape(ds[1..], f);
      HeadStaysDistinct(ds, Without(ds[1..], f));
    }
  }

  lemma CleanupStaysValid(r: Registry, f: Fingerprint)
    requires ValidRegistry(r)
    ensures ValidRegistry(r.(devices := Without(r.devices, f)))
  {
    WithoutShape(r.devices, f);
  }
}
