// What the hook's exit status proves about the decisions it was handed.
module HookLaws {
  import opened Prelude
  import opened Records
  import opened Transactions
  import opened Verdicts
  import opened HookLanes
  import A = Admission

  // ---- authenticity, stated without the code's order of checks ----

  ghost predicate Sound(c: Context) {
    A.ValidId(c.id) && Distinct(c.devices) && forall d :: d in c.devices ==> ValidRecord(d) && d.active
  }

  /** A configuration naming one https site: no trailing slash, a bare relying party, the same server. */
  ghost predicate NamesOneSite(config: HookConfig) {
    && config.version == 1
    && |config.origin| >= 8 && config.origin[..8] == "https://" && config.origin[|config.origin| - 1] != '/'
    && config.rpId != "" && (forall i :: 0 <= i < |config.rpId| ==> config.rpId[i] != '/')
    && config.serverBaseUrl == config.origin
  }

  /** Authenticator data of 37 to 1024 bytes and client data of 1 to 16384 bytes. */
  ghost predicate FitsLimits(w: Web) {
    37 + |w.data.extra| <= 1024 && 1 <= |w.clientJson| <= 16384
  }

  /**
    The key of `d` made an assertion of `challenge` for this site, with the user present and
    verified: bits 0 and 2 of the flags.
   */
  ghost predicate Asserted(w: Web, challenge: Bytes, d: Record, config: HookConfig, client: ClientParser) {
    && d.kind == Webauthn && d.fingerprint == w.fingerprint && d.credentialId == w.credentialId
    && NamesOneSite(config) && FitsLimits(w)
    && client(w.clientJson) == Some(ClientData("webauthn.get", challenge, config.origin, false))
    && w.data.rpIdHash == Sha256(config.rpId) && (w.data.flags % 8 == 5 || w.data.flags % 8 == 7)
    && w.signature == Signed(d.publicKey, Message.Assertion(w.data, Sha256(w.clientJson)))
  }

  /** Device `d` really made this decision about this request. */
  ghost predicate AuthenticFrom(x: Decision, d: Record, lane: Lane, c: Context, m: Moment) {
    match x
    case Deny(denial) =>
      && denial.version == 1 && denial.requestId == c.id && denial.fingerprint == d.fingerprint
      && (if denial.signature.Some?
          then denial.signature.value == Signed(d.publicKey, Message.Challenge(DenyChallenge(c.id, d.fingerprint)))
          else lane == NatsLane && d.kind == Webauthn && m.config.Some? && RecordsDenial(m.server, c.id, d.fingerprint))
    case Approve(w) =>
      && w.version == 1 && w.requestId == c.id
      && m.config.Some? && Asserted(w, ApproveChallenge(c.raw), d, m.config.value, c.client)
    case ApproveNative(n) =>
      && n.version == 1 && n.requestId == c.id && n.fingerprint == d.fingerprint && d.kind != Webauthn
      && n.signature == Signed(d.publicKey, Message.Challenge(ApproveChallenge(c.raw)))
  }

  /** The server's record says this device denied this request. */
  ghost predicate RecordsDenial(server: Option<Decision>, id: string, f: Fingerprint) {
    exists denial :: server == Some(Deny(denial)) && denial.requestId == id && denial.fingerprint == f
  }

  ghost predicate Authentic(x: Decision, lane: Lane, c: Context, m: Moment) {
    exists d :: d in c.devices && AuthenticFrom(x, d, lane, c, m)
  }

  /** A browser message well formed but for what only its verification would show. */
  ghost predicate Presentable(w: Web, version: nat, id: string) {
    && w.version == version && w.requestId == id && FitsLimits(w)
    && (w.signature.Junk? ==> 8 <= w.signature.length <= 256)
  }

  ghost predicate NamesPinned(w: Web, c: Context) {
    exists d :: d in c.devices && d.kind == Webauthn && d.fingerprint == w.fingerprint && d.credentialId == w.credentialId
  }

  /** A browser approval naming a pinned credential cannot be checked without hook.json. */
  ghost predicate Uncheckable(x: Decision, c: Context, m: Moment) {
    x.Approve? && m.config.None? && Presentable(x.web, 1, c.id) && NamesPinned(x.web, c)
  }

  // ---- the gate ----

  ghost predicate GateRefuses(c: Context, d: Record, lock: Option<Lock>) {
    lock.Some? && (|| lock.value.registry.epoch != c.epoch
                   || FindIdentity(lock.value.registry.devices, d).None?
                   || c.expiresAt <= lock.value.now)
  }

  /** A grown signature counter was stored, or its loss is tolerated. */
  ghost predicate Counted(d: Record, observed: Option<nat>, authentication: bool, lock: Lock) {
    var found := FindIdentity(lock.registry.devices, d);
    observed.Some? && found.Some? && observed.value > found.value.signCount ==> lock.writeOk || authentication
  }

  /** The gate denies and grants on exactly what it read under the lock. */
  lemma GateMeaning(c: Context, d: Record, observed: Option<nat>, authentication: bool, lock: Option<Lock>)
    ensures var r := FinalAuthorization(c, d, observed, authentication, lock);
            && (r == Failed(Plain) <==> GateRefuses(c, d, lock))
            && (r == Granted <==>
                  lock.Some? && !GateRefuses(c, d, lock) && Counted(d, observed, authentication, lock.value))
            && (r == Granted ==> exists e :: e in lock.value.registry.devices && e.active && SameIdentity(e, d))
            && r != Failed(Invalid) && r != Failed(Transport)
  {
    if lock.Some? {
      FoundIsStored(lock.value.registry.devices, d);
    }
  }

  lemma {:induction false} FoundIsStored(ds: seq<Record>, d: Record)
    ensures var f := FindIdentity(ds, d);
            f.Some? ==> f.value in ds && f.value.active && SameIdentity(f.value, d)
  {
    if ds != [] {
      FoundIsStored(ds[1..], d);
    }
  }

  // ---- one candidate ----

  /** Fingerprints are distinct, so a decision names at most one device. */
  lemma FindsIt(ds: seq<Record>, w: Wanted, d: Record)
    requires Distinct(ds) && d in ds && Matches(d, w)
    ensures Find(ds, w) == Some(d)
  {
    var e := Find(ds, w).value;
    var i :| 0 <= i < |ds| && ds[i] == d;
    var j :| 0 <= j < |ds| && ds[j] == e;
    assert i == j;
  }

  lemma MakerMatches(x: Decision, d: Record, lane: Lane, c: Context, m: Moment)
    requires AuthenticFrom(x, d, lane, c, m)
    ensures Matches(d, WantedBy(x))
  {
    assert d.kind.Webauthn? || d.kind.Software? || d.kind.SecureEnclave?;
  }

  /** Under distinct fingerprints only the device a decision names can have made it. */
  lemma OnlyTheNamed(x: Decision, lane: Lane, c: Context, m: Moment)
    requires Distinct(c.devices)
    ensures var named := Find(c.devices, WantedBy(x));
            && (Authentic(x, lane, c, m) <==> named.Some? && AuthenticFrom(x, named.value, lane, c, m))
            && (forall d :: d in c.devices && AuthenticFrom(x, d, lane, c, m) ==> named == Some(d))
  {
    var wanted := WantedBy(x);
    forall d | d in c.devices && AuthenticFrom(x, d, lane, c, m)
      ensures Find(c.devices, wanted) == Some(d)
    {
      MakerMatches(x, d, lane, c, m);
      FindsIt(c.devices, wanted, d);
    }
  }

  /** How an authentic approval ends: late, or as the gate says. */
  ghost predicate Ends(r: Result, c: Context, d: Record, observed: Option<nat>, authentication: bool, m: Moment) {
    r == if c.expiresAt <= m.now then Failed(Plain) else FinalAuthorization(c, d, observed, authentication, m.lock)
  }

  /** A denial stands exactly when the device it names made it: there is no other condition. */
  lemma DenyMeaning(x: Denial, lane: Lane, c: Context, m: Moment)
    requires A.ValidId(c.id)
    requires var named := Find(c.devices, WantedBy(Deny(x))); named.Some? ==> ValidRecord(named.value)
    ensures var named := Find(c.devices, WantedBy(Deny(x)));
            ApplyDeny(x, lane, c, m) ==
            Failed(if named.Some? && AuthenticFrom(Deny(x), named.value, lane, c, m) then Plain else Invalid)
  {
  }

  lemma NativeMeaning(n: Native, lane: Lane, c: Context, m: Moment)
    requires A.ValidId(c.id)
    requires var named := Find(c.devices, WantedBy(ApproveNative(n))); named.Some? ==> ValidRecord(named.value)
    ensures var named := Find(c.devices, WantedBy(ApproveNative(n)));
            if named.Some? && AuthenticFrom(ApproveNative(n), named.value, lane, c, m)
            then Ends(ApplyNative(n, c, m), c, named.value, None, false, m)
            else ApplyNative(n, c, m) == Failed(Invalid)
  {
  }

  lemma WebMeaning(w: Web, lane: Lane, c: Context, m: Moment)
    requires A.ValidId(c.id)
    requires var named := Find(c.devices, WantedBy(Approve(w))); named.Some? ==> ValidRecord(named.value)
    ensures var named := Find(c.devices, WantedBy(Approve(w)));
            if named.Some? && AuthenticFrom(Approve(w), named.value, lane, c, m)
            then Ends(ApplyWeb(w, c, m), c, named.value, Some(w.data.signCount), false, m)
            else ApplyWeb(w, c, m) == Failed(if Uncheckable(Approve(w), c, m) then Unavailable else Invalid)
  {
    var named := Find(c.devices, WantedBy(Approve(w)));
    if named.Some? {
      ShapeMeaning(w, VERSION, c.id);
      if m.config.Some? && FitsLimits(w) {
        AssertionMeaning(w, ApproveChallenge(c.raw), named.value, m.config.value, c.client);
      }
    } else {
      assert forall d :: d in c.devices ==> !Matches(d, WantedBy(Approve(w)));
    }
  }

  lemma Halves(n: nat, q: nat, r: nat)
    requires n == 2 * q + r && r < 2
    ensures n % 2 == r
  {
  }

  lemma Quarters(n: nat, q: nat, r: nat)
    requires n == 4 * q + r && r < 4
    ensures n / 4 == q
  {
  }

  lemma FlagBits(flags: nat)
    ensures FlagsSet(flags) <==> flags % 8 == 5 || flags % 8 == 7
  {
    var q, r := flags / 8, flags % 8;
    assert flags == 8 * q + r;
    Halves(flags, 4 * q + r / 2, r % 2);
    if r < 4 {
      Quarters(flags, 2 * q, r);
      Halves(2 * q, q, 0);
    } else {
      Quarters(flags, 2 * q + 1, r - 4);
      Halves(2 * q + 1, q, 1);
    }
  }

  lemma SiteMeaning(config: HookConfig)
    ensures ValidConfig(config) <==> NamesOneSite(config)
  {
    assert "https://" <= config.origin <==> |config.origin| >= 8 && config.origin[..8] == "https://";
  }

  lemma AssertionMeaning(w: Web, challenge: Bytes, d: Record, config: HookConfig, client: ClientParser)
    requires ValidRecord(d) && FitsLimits(w)
    ensures VerifyAssertion(w, challenge, d, config, client) <==> Asserted(w, challenge, d, config, client)
  {
    FlagBits(w.data.flags);
    SiteMeaning(config);
  }

  /** The protocol library's browser check on its own, for any device it is asked about. */
  lemma ApprovalMeaning(w: Web, raw: Bytes, d: Record, config: HookConfig, client: ClientParser)
    requires FitsLimits(w)
    ensures VerifyApproval(w, raw, d, config, client) <==>
            ValidRecord(d) && w.version == 1 && w.requestId != "" && Asserted(w, ApproveChallenge(raw), d, config, client)
  {
    if ValidRecord(d) {
      AssertionMeaning(w, ApproveChallenge(raw), d, config, client);
    }
  }

  /** A browser message naming a pinned credential for this request has the right shape exactly when it is presentable. */
  lemma ShapeMeaning(w: Web, version: nat, id: string)
    requires A.ValidId(id) && w.credentialId != []
    ensures WebShape(w, version) && w.requestId == id <==> Presentable(w, version, id)
  {
  }

  function Observed(x: Decision): Option<nat> {
    if x.Approve? then Some(x.web.data.signCount) else None
  }

  /** Every result follows from who made the candidate. */
  lemma CandidateMeaning(x: Decision, lane: Lane, c: Context, m: Moment)
    requires Sound(c)
    ensures Uncheckable(x, c, m) ==> ApplyCommand(x, lane, c, m) == Failed(Unavailable)
    ensures !Authentic(x, lane, c, m) && !Uncheckable(x, c, m) ==> ApplyCommand(x, lane, c, m) == Failed(Invalid)
    ensures forall d :: d in c.devices && AuthenticFrom(x, d, lane, c, m) ==>
              if x.Deny? then ApplyCommand(x, lane, c, m) == Failed(Plain)
              else Ends(ApplyCommand(x, lane, c, m), c, d, Observed(x), false, m)
  {
    OnlyTheNamed(x, lane, c, m);
    match x
    case Deny(denial) => DenyMeaning(denial, lane, c, m);
    case Approve(w) => WebMeaning(w, lane, c, m);
    case ApproveNative(n) => NativeMeaning(n, lane, c, m);
  }

  /**
    A candidate is discarded exactly when no active pinned device made it, except that a
    browser approval for a pinned credential is unavailable when hook.json is missing.
   */
  lemma DiscardedIff(x: Decision, lane: Lane, c: Context, m: Moment)
    requires Sound(c)
    ensures ApplyCommand(x, lane, c, m) == Failed(Invalid) <==> !Authentic(x, lane, c, m) && !Uncheckable(x, c, m)
  {
    CandidateMeaning(x, lane, c, m);
    if d :| d in c.devices && AuthenticFrom(x, d, lane, c, m) {
      GateMeaning(c, d, Observed(x), false, m.lock);
    }
  }

  /** The clock and the gate let this approval through: same epoch, and its device still active. */
  ghost predicate Passes(c: Context, d: Record, observed: Option<nat>, authentication: bool, m: Moment) {
    && m.now < c.expiresAt && m.lock.Some?
    && var l := m.lock.value;
       && l.registry.epoch == c.epoch && l.now < c.expiresAt
       && (exists e :: e in l.registry.devices && e.active && SameIdentity(e, d))
       && Counted(d, observed, authentication, l)
  }

  ghost predicate Stopped(c: Context, d: Record, m: Moment) {
    c.expiresAt <= m.now || GateRefuses(c, d, m.lock)
  }

  lemma {:induction false} StoredIsFound(ds: seq<Record>, d: Record, e: Record)
    requires e in ds && e.active && SameIdentity(e, d)
    ensures FindIdentity(ds, d).Some?
  {
    if ds[0] != e {
      StoredIsFound(ds[1..], d, e);
    }
  }

  /** An authentic approval is granted exactly when the gate passes it and denied exactly when it stops it. */
  lemma EndsMeaning(r: Result, c: Context, d: Record, observed: Option<nat>, authentication: bool, m: Moment)
    requires Ends(r, c, d, observed, authentication, m)
    ensures r == Granted <==> Passes(c, d, observed, authentication, m)
    ensures r == Failed(Plain) <==> Stopped(c, d, m)
    ensures r != Failed(Invalid) && r != Failed(Transport)
  {
    GateMeaning(c, d, observed, authentication, m.lock);
    if m.lock.Some? {
      if e :| e in m.lock.value.registry.devices && e.active && SameIdentity(e, d) {
        StoredIsFound(m.lock.value.registry.devices, d, e);
      }
    }
  }

  /** Exit 0 for one candidate: an approval some active device made, in time, past the gate. */
  ghost predicate Approves(x: Decision, d: Record, lane: Lane, c: Context, m: Moment) {
    d in c.devices && AuthenticFrom(x, d, lane, c, m) && !x.Deny? && Passes(c, d, Observed(x), false, m)
  }

  /** Exit 1 for one candidate: made by an active device, and a denial, or late, or refused at the gate. */
  ghost predicate Denies(x: Decision, d: Record, lane: Lane, c: Context, m: Moment) {
    d in c.devices && AuthenticFrom(x, d, lane, c, m) && (x.Deny? || Stopped(c, d, m))
  }

  /** What a device's own candidate comes to. */
  lemma MadeBy(x: Decision, d: Record, lane: Lane, c: Context, m: Moment)
    requires Sound(c) && d in c.devices && AuthenticFrom(x, d, lane, c, m)
    ensures ApplyCommand(x, lane, c, m) == Granted <==> Approves(x, d, lane, c, m)
    ensures ApplyCommand(x, lane, c, m) == Failed(Plain) <==> Denies(x, d, lane, c, m)
  {
    CandidateMeaning(x, lane, c, m);
    if !x.Deny? {
      EndsMeaning(ApplyCommand(x, lane, c, m), c, d, Observed(x), false, m);
    }
  }

  lemma MadeByNobody(x: Decision, lane: Lane, c: Context, m: Moment)
    requires Sound(c) && !Authentic(x, lane, c, m)
    ensures ApplyCommand(x, lane, c, m) == Failed(Invalid) || ApplyCommand(x, lane, c, m) == Failed(Unavailable)
  {
    CandidateMeaning(x, lane, c, m);
  }

  /** One candidate is granted exactly when a device active in the snapshot approved and the gate passes it. */
  lemma GrantedIff(x: Decision, lane: Lane, c: Context, m: Moment)
    requires Sound(c)
    ensures ApplyCommand(x, lane, c, m) == Granted <==> exists d :: Approves(x, d, lane, c, m)
  {
    if d :| d in c.devices && AuthenticFrom(x, d, lane, c, m) {
      MadeBy(x, d, lane, c, m);
    } else {
      MadeByNobody(x, lane, c, m);
    }
    if d :| Approves(x, d, lane, c, m) {
      MadeBy(x, d, lane, c, m);
    }
  }

  /** One candidate denies exactly when an authentic device's word, the clock or the gate says so. */
  lemma DeniedIff(x: Decision, lane: Lane, c: Context, m: Moment)
    requires Sound(c)
    ensures ApplyCommand(x, lane, c, m) == Failed(Plain) <==> exists d :: Denies(x, d, lane, c, m)
  {
    if d :| d in c.devices && AuthenticFrom(x, d, lane, c, m) {
      MadeBy(x, d, lane, c, m);
    } else {
      MadeByNobody(x, lane, c, m);
    }
    if d :| Denies(x, d, lane, c, m) {
      MadeBy(x, d, lane, c, m);
    }
  }
}
