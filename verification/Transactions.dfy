// What each registry transaction does to the state it loads
// (hook/src/registry.rs and the revoke phases of hook/src/main.rs).
module Transactions {
  import opened Prelude
  import opened Records

  /** One final-authorization question: the device that answered, and the request's limits. */
  datatype Ask = Ask(device: Record, expiresAt: int, observed: Option<nat>, warningOnly: bool)

  /** What a revoke remembers between disabling a device and cleaning it up. */
  datatype Pending = Pending(tombstone: Record, epoch: nat)

  datatype Tx =
    | Snapshot
    | Gate(snap: Registry, ask: Ask)
    | Pin(device: Record, activate: bool)
    | Disable(target: Fingerprint)
    | Cleanup(target: Fingerprint, pending: Option<Pending>)

  datatype Refusal =
    | InvalidRecord
    | InactiveRecord
    | CredentialTaken
    | RevocationPending
    | EpochExhausted
    | PredatesRevocation
    | CredentialGone
    | Expired
    | PendingChanged
    | DeviceAppeared

  /** What a transaction decides under the lock: stop, succeed as is, or write a new state. */
  datatype Plan = Refuse(why: Refusal) | Keep | Put(next: Registry)

  /** How one atomic write may go wrong. */
  datatype WriteFault = NoFault | BeforeRename | AfterRename

  predicate NeedsLifecycle(tx: Tx) {
    tx.Pin? || tx.Disable? || tx.Cleanup?
  }

  function Target(tx: Tx): Fingerprint {
    match tx
    case Snapshot => []
    case Gate(_, ask) => ask.device.fingerprint
    case Pin(d, _) => d.fingerprint
    case Disable(f) => f
    case Cleanup(f, _) => f
  }

  // ---- the individual transactions ----

  function PinnedCount(old': Option<Record>, d: Record): nat {
    if old'.Some? && SameCredential(old'.value, d) && old'.value.signCount > d.signCount
    then old'.value.signCount else d.signCount
  }

  function PinPlan(r: Registry, d: Record): Plan {
    if !ValidRecord(d) then Refuse(InvalidRecord)
    else if !d.active then Refuse(InactiveRecord)
    else if exists i :: 0 <= i < |r.devices| && r.devices[i].credentialId == d.credentialId
                        && r.devices[i].fingerprint != d.fingerprint then Refuse(CredentialTaken)
    else
      var stored := Stored(r.devices, d.fingerprint);
      if stored.Some? && !stored.value.active then Refuse(RevocationPending)
      else Put(r.(devices := Without(r.devices, d.fingerprint)
                             + [d.(signCount := PinnedCount(stored, d))]))
  }

  function DisablePlan(r: Registry, f: Fingerprint): Plan {
    match Stored(r.devices, f)
    case None => Keep
    case Some(d) =>
      if d.active && r.epoch == U64_MAX then Refuse(EpochExhausted)
      else Put(Registry(Replaced(r.devices, f, d.(active := false)),
                        if d.active then r.epoch + 1 else r.epoch))
  }

  function CleanupPlan(r: Registry, f: Fingerprint, pending: Option<Pending>): Plan {
    match pending
    case Some(p) =>
      if r.epoch != p.epoch || p.tombstone !in r.devices || p.tombstone.active
      then Refuse(PendingChanged)
      else Put(r.(devices := Without(r.devices, f)))
    case None =>
      if Stored(r.devices, f).Some? then Refuse(DeviceAppeared) else Keep
  }

  /** The first active record with the identity asked about. */
  function FindIdentity(ds: seq<Record>, d: Record): Option<Record> {
    if ds == [] then None
    else if ds[0].active && SameIdentity(ds[0], d) then Some(ds[0])
    else FindIdentity(ds[1..], d)
  }

  function GatePlan(r: Registry, snapEpoch: nat, ask: Ask, now: int): Plan {
    if snapEpoch != r.epoch then Refuse(PredatesRevocation)
    else match FindIdentity(r.devices, ask.device)
      case None => Refuse(CredentialGone)
      case Some(stored) =>
        if ask.expiresAt <= now then Refuse(Expired)
        else if ask.observed.Some? && ask.observed.value > stored.signCount then
          Put(r.(devices := Replaced(r.devices, stored.fingerprint,
                                     stored.(signCount := ask.observed.value))))
        else Keep
  }

  function PlanOf(tx: Tx, r: Registry, now: int): Plan {
    match tx
    case Snapshot => Keep
    case Gate(snap, ask) => GatePlan(r, snap.epoch, ask, now)
    case Pin(d, _) => PinPlan(r, d)
    case Disable(f) => DisablePlan(r, f)
    case Cleanup(f, pending) => CleanupPlan(r, f, pending)
  }

  // ---- loading and writing devices.json ----

  /** A missing file loads as the empty registry at epoch zero. */
  function View(disk: Option<Registry>): Registry {
    if disk.Some? then disk.value else EMPTY_REGISTRY
  }

  ghost predicate ValidDisk(disk: Option<Registry>) {
    disk.Some? ==> ValidRegistry(disk.value)
  }

  /** A write validates first and replaces the file only at the rename. */
  ghost predicate Lands(next: Registry, fault: WriteFault) {
    ValidRegistry(next) && !fault.BeforeRename?
  }

  ghost predicate Succeeds(next: Registry, fault: WriteFault) {
    ValidRegistry(next) && fault.NoFault?
  }

  ghost function Written(disk: Option<Registry>, next: Registry, fault: WriteFault): (out: Option<Registry>)
    ensures ValidDisk(disk) ==> ValidDisk(out)
  {
    if Lands(next, fault) then Some(next) else disk
  }

  // ---- what a planned write changes ----

  /** With distinct fingerprints the gate finds the record under the fingerprint, or nothing. */
  lemma {:induction false} FindIdentityIsStored(ds: seq<Record>, d: Record)
    requires Distinct(ds)
    ensures FindIdentity(ds, d) ==
            var s := Stored(ds, d.fingerprint);
            if s.Some? && s.value.active && SameIdentity(s.value, d) then s else None
  {
    if ds != [] {
      if ds[0].fingerprint == d.fingerprint {
        NoIdentity(ds[1..], d);
      } else {
        FindIdentityIsStored(ds[1..], d);
      }
    }
  }

  lemma {:induction false} NoIdentity(ds: seq<Record>, d: Record)
    requires forall i :: 0 <= i < |ds| ==> ds[i].fingerprint != d.fingerprint
    ensures FindIdentity(ds, d).None?
  {
    if ds != [] {
      NoIdentity(ds[1..], d);
    }
  }

  lemma GateTouchesTargetOnly(snapEpoch: nat, r: Registry, ask: Ask, now: int, next: Registry, g: Fingerprint)
    requires Distinct(r.devices) && GatePlan(r, snapEpoch, ask, now) == Put(next) && g != ask.device.fingerprint
    ensures Stored(next.devices, g) == Stored(r.devices, g)
  {
    FindIdentityIsStored(r.devices, ask.device);
    var s := FindIdentity(r.devices, ask.device).value;
    StoredReplaced(r.devices, s.fingerprint, s.(signCount := ask.observed.value), g);
  }

  lemma PinTouchesTargetOnly(r: Registry, d: Record, next: Registry, g: Fingerprint)
    requires PinPlan(r, d) == Put(next) && g != d.fingerprint
    ensures Stored(next.devices, g) == Stored(r.devices, g)
  {
    StoredWithout(r.devices, d.fingerprint, g);
    StoredAppended(Without(r.devices, d.fingerprint), d.(signCount := PinnedCount(Stored(r.devices, d.fingerprint), d)), g);
  }

  /** Every planned write touches one fingerprint only. */
  lemma PutTouchesTargetOnly(tx: Tx, r: Registry, now: int, next: Registry, g: Fingerprint)
    requires ValidRegistry(r) && PlanOf(tx, r, now) == Put(next) && g != Target(tx)
    ensures Stored(next.devices, g) == Stored(r.devices, g)
  {
    match tx
    case Gate(snap, ask) => GateTouchesTargetOnly(snap.epoch, r, ask, now, next, g);
    case Pin(d, _) => PinTouchesTargetOnly(r, d, next, g);
    case Disable(f) =>
      StoredIsMember(r.devices, f);
      StoredReplaced(r.devices, f, Stored(r.devices, f).value.(active := false), g);
    case Cleanup(f, _) =>
      StoredWithout(r.devices, f, g);
  }

  /** The gate writes a larger counter into an active record of the same identity. */
  lemma GatePutEffect(snapEpoch: nat, r: Registry, ask: Ask, now: int, next: Registry)
    requires ValidRegistry(r) && GatePlan(r, snapEpoch, ask, now) == Put(next)
    ensures next.epoch == r.epoch == snapEpoch
    ensures ask.observed.Some?
    ensures var s := Stored(r.devices, ask.device.fingerprint);
            && s.Some? && s.value.active && SameIdentity(s.value, ask.device)
            && s.value.signCount < ask.observed.value
            && Stored(next.devices, ask.device.fingerprint)
               == Some(s.value.(signCount := ask.observed.value))
  {
    FindIdentityIsStored(r.devices, ask.device);
    var s := FindIdentity(r.devices, ask.device).value;
    StoredReplaced(r.devices, s.fingerprint, s.(signCount := ask.observed.value), s.fingerprint);
  }

  /** A pin replaces an absent or active record, never a tombstone, and keeps the larger counter. */
  lemma PinPutEffect(r: Registry, d: Record, next: Registry)
    requires ValidRegistry(r) && PinPlan(r, d) == Put(next)
    ensures next.epoch == r.epoch && ValidRecord(d) && d.active
    ensures var s := Stored(r.devices, d.fingerprint);
            && (s.Some? ==> s.value.active)
            && Stored(next.devices, d.fingerprint) == Some(d.(signCount := PinnedCount(s, d)))
            && (s.Some? ==> PinnedCount(s, d) >= s.value.signCount)
  {
    var s := Stored(r.devices, d.fingerprint);
    StoredWithout(r.devices, d.fingerprint, d.fingerprint);
    StoredAppended(Without(r.devices, d.fingerprint), d.(signCount := PinnedCount(s, d)), d.fingerprint);
    StoredIsMember(r.devices, d.fingerprint);
    if s.Some? {
      FingerprintDeterminesKeys(s.value, d);
    }
  }

  /** Disabling turns the record into a tombstone; the epoch counts the ones that were active. */
  lemma DisablePutEffect(r: Registry, f: Fingerprint, next: Registry)
    requires DisablePlan(r, f) == Put(next)
    ensures var s := Stored(r.devices, f);
            && s.Some?
            && Stored(next.devices, f) == Some(s.value.(active := false))
            && next.epoch == r.epoch + (if s.value.active then 1 else 0)
  {
    StoredIsMember(r.devices, f);
    StoredReplaced(r.devices, f, Stored(r.devices, f).value.(active := false), f);
  }

  lemma CleanupPutEffect(r: Registry, f: Fingerprint, pending: Option<Pending>, next: Registry)
    requires ValidRegistry(r) && CleanupPlan(r, f, pending) == Put(next)
    requires pending.Some? && pending.value.tombstone.fingerprint == f
    ensures next.epoch == r.epoch
    ensures Stored(r.devices, f) == Some(pending.value.tombstone)
    ensures !pending.value.tombstone.active
    ensures Stored(next.devices, f) == None
  {
    MemberIsStored(r.devices, pending.value.tombstone);
    StoredWithout(r.devices, f, f);
  }
}
