// Contextual sudo authentication from the host's seal to the host's acceptance
// (protocol/src/auth_v1.rs, agent/src/lib.rs, hook/src/main.rs).
module AuthChain {
  import opened Prelude
  import opened Records
  import opened Verdicts
  import opened HookLanes
  import opened HookLaws
  import opened HookRuns
  import A = Admission

  // ---- sealing ----

  /** An ideal sealed body: it opens with the box key it was sealed to and nothing else. */
  datatype Body = Body(fingerprint: Fingerprint, boxKey: Bytes, raw: Bytes)

  datatype Envelope = Envelope(version: nat, id: string, host: string, issuedAt: int, expiresAt: int, sealed: seq<Body>)

  function Seal(raw: Bytes, d: Record): Option<Body> {
    if |raw| > MAX_REQUEST_BYTES || !ValidRecord(d) then None else Some(Body(d.fingerprint, d.boxKey, raw))
  }

  function SealAll(raw: Bytes, ds: seq<Record>): Option<seq<Body>> {
    if ds == [] then Some([])
    else
      var first, rest := Seal(raw, ds[0]), SealAll(raw, ds[1..]);
      if first.None? || rest.None? then None else Some([first.value] + rest.value)
  }

  predicate ValidEnvelope(e: Envelope) {
    && e.version == AUTH_VERSION && A.ValidId(e.id) && 0 < |e.host| <= 255
    && 0 < |e.sealed| <= MAX_DEVICES && e.issuedAt < e.expiresAt
    && forall i, j :: 0 <= i < j < |e.sealed| ==> e.sealed[i].fingerprint != e.sealed[j].fingerprint
  }

  /** `seal_auth_request`. */
  function SealRequest(r: AuthRequest, raw: Bytes, ds: seq<Record>): Option<Envelope> {
    if |ds| > MAX_DEVICES || SealAll(raw, ds).None? then None
    else
      var e := Envelope(AUTH_VERSION, r.id, r.host, r.issuedAt, r.expiresAt, SealAll(raw, ds).value);
      if ValidEnvelope(e) then Some(e) else None
  }

  // ---- the agent ----

  datatype Opened = Opened(request: AuthRequest, raw: Bytes) | NotAddressed | Refused

  function BodyFor(bodies: seq<Body>, f: Fingerprint): Option<Body> {
    if bodies == [] then None else if bodies[0].fingerprint == f then Some(bodies[0]) else BodyFor(bodies[1..], f)
  }

  /** `open_auth_request_at` on the identity pinned as `me`. */
  function Open(me: Record, e: Envelope, now: int, parse: AuthParser): Opened {
    if me.kind != SecureEnclave then Refused
    else if !ValidEnvelope(e) || !Timely(e.issuedAt, e.expiresAt, now) then Refused
    else match BodyFor(e.sealed, me.fingerprint)
      case None => NotAddressed
      case Some(body) =>
        if body.boxKey != me.boxKey || |body.raw| > MAX_REQUEST_BYTES then Refused
        else match ParseAuthAt(body.raw, now, parse)
          case None => Refused
          case Some(r) =>
            if r.id != e.id || r.host != e.host || r.issuedAt != e.issuedAt || r.expiresAt != e.expiresAt then Refused
            else Opened(r, body.raw)
  }

  /** `authenticate`: a signature over the exact bytes that were opened. */
  function Authenticate(me: Record, o: Opened): Option<AuthDecision>
    requires o.Opened?
  {
    if me.kind != SecureEnclave then None
    else Some(AuthenticateNative(Native(AUTH_VERSION, o.request.id, me.fingerprint,
                                        Signed(me.publicKey, Message.Challenge(AuthChallenge(o.raw))))))
  }

  // ---- what acceptance means ----

  /**
    The hook's own request reads back as itself: small enough, of this protocol, for this id,
    and fresh at the moment it was issued.
   */
  ghost predicate ReadsBack(c: Context) {
    && |c.raw| <= 262144
    && exists r :: c.auth(c.raw) == Some(r) && FreshAt(r, c.issuedAt) && r.id == c.id
  }

  /** 1 to 128 ASCII letters, digits, hyphens and underscores. */
  ghost predicate IsId(id: string) {
    && 1 <= |id| <= 128
    && forall i :: 0 <= i < |id| ==>
         48 <= id[i] as int <= 57 || 65 <= id[i] as int <= 90 || 97 <= id[i] as int <= 122 || id[i] as int in {45, 95}
  }

  lemma IdMeaning(id: string)
    ensures IsId(id) <==> A.ValidId(id)
  {
    forall i | 0 <= i < |id|
      ensures A.IdChar(id[i]) <==>
              48 <= id[i] as int <= 57 || 65 <= id[i] as int <= 90 || 97 <= id[i] as int <= 122 || id[i] as int in {45, 95}
    {
    }
  }

  /** A well-formed authentication request within 30 seconds of its issue, unexpired, valid for at most 90. */
  ghost predicate FreshAt(r: AuthRequest, now: int) {
    && r.version == 2 && IsId(r.id) && 1 <= |r.host| <= 255 && r.issuedAt < r.expiresAt
    && -30 <= r.issuedAt - now <= 30 && now < r.expiresAt && r.expiresAt - r.issuedAt <= 90
  }

  lemma FreshMeaning(r: AuthRequest, now: int)
    ensures FreshAt(r, now) <==> ValidAuthRequest(r) && Timely(r.issuedAt, r.expiresAt, now)
  {
    IdMeaning(r.id);
  }

  lemma ReadsBackMeaning(c: Context)
    ensures ReadsBack(c) <==>
            ParseAuthAt(c.raw, c.issuedAt, c.auth).Some? && ParseAuthAt(c.raw, c.issuedAt, c.auth).value.id == c.id
  {
    if c.auth(c.raw).Some? {
      FreshMeaning(c.auth(c.raw).value, c.issuedAt);
    }
  }

  /** Hardware device `d` answered exactly these request bytes, in the authentication domain. */
  ghost predicate AnsweredBy(x: AuthDecision, d: Record, c: Context, m: Moment) {
    match x
    case AuthenticateNative(n) =>
      && d.kind == SecureEnclave && n.version == 2 && n.requestId == c.id && n.fingerprint == d.fingerprint
      && n.signature == Signed(d.publicKey, Message.Challenge(AuthChallenge(c.raw)))
    case AuthenticateWebauthn(w) =>
      && w.version == 2 && w.requestId == c.id
      && m.config.Some? && Asserted(w, AuthChallenge(c.raw), d, m.config.value, c.client)
  }

  ghost predicate Answered(x: AuthDecision, c: Context, m: Moment) {
    ReadsBack(c) && exists d :: d in c.devices && AnsweredBy(x, d, c, m)
  }

  ghost predicate NeedsConfig(x: AuthDecision, c: Context, m: Moment) {
    x.AuthenticateWebauthn? && m.config.None? && Presentable(x.web, 2, c.id) && NamesPinned(x.web, c)
  }

  function Count(x: AuthDecision): Option<nat> {
    if x.AuthenticateWebauthn? then Some(x.web.data.signCount) else None
  }

  lemma AnswererMatches(x: AuthDecision, d: Record, c: Context, m: Moment)
    requires AnsweredBy(x, d, c, m)
    ensures Matches(d, AuthWantedBy(x))
  {
  }

  /** Under distinct fingerprints only the device an answer names can have given it. */
  lemma OnlyTheNamedAnswers(x: AuthDecision, c: Context, m: Moment)
    requires Distinct(c.devices)
    ensures var named := Find(c.devices, AuthWantedBy(x));
            && (Answered(x, c, m) <==> ReadsBack(c) && named.Some? && AnsweredBy(x, named.value, c, m))
            && (forall d :: d in c.devices && AnsweredBy(x, d, c, m) ==> named == Some(d))
  {
    var wanted := AuthWantedBy(x);
    forall d | d in c.devices && AnsweredBy(x, d, c, m)
      ensures Find(c.devices, wanted) == Some(d)
    {
      AnswererMatches(x, d, c, m);
      FindsIt(c.devices, wanted, d);
    }
  }

  lemma NativeAnswer(n: Native, c: Context, m: Moment)
    requires A.ValidId(c.id)
    requires var named := Find(c.devices, AuthWantedBy(AuthenticateNative(n))); named.Some? ==> ValidRecord(named.value)
    ensures var named := Find(c.devices, AuthWantedBy(AuthenticateNative(n)));
            if ReadsBack(c) && named.Some? && AnsweredBy(AuthenticateNative(n), named.value, c, m)
            then Ends(ApplyAuthNative(n, c, m), c, named.value, None, true, m)
            else ApplyAuthNative(n, c, m) == Failed(Invalid)
  {
    ReadsBackMeaning(c);
  }

  lemma WebAnswer(w: Web, c: Context, m: Moment)
    requires A.ValidId(c.id)
    requires var named := Find(c.devices, AuthWantedBy(AuthenticateWebauthn(w))); named.Some? ==> ValidRecord(named.value)
    ensures var named := Find(c.devices, AuthWantedBy(AuthenticateWebauthn(w)));
            if ReadsBack(c) && named.Some? && AnsweredBy(AuthenticateWebauthn(w), named.value, c, m)
            then Ends(ApplyAuthWeb(w, c, m), c, named.value, Some(w.data.signCount), true, m)
            else ApplyAuthWeb(w, c, m) == Failed(if NeedsConfig(AuthenticateWebauthn(w), c, m) then Unavailable else Invalid)
  {
    ReadsBackMeaning(c);
    var named := Find(c.devices, AuthWantedBy(AuthenticateWebauthn(w)));
    if named.Some? {
      ShapeMeaning(w, AUTH_VERSION, c.id);
      if m.config.Some? && FitsLimits(w) {
        AssertionMeaning(w, AuthChallenge(c.raw), named.value, m.config.value, c.client);
      }
    } else {
      assert forall d :: d in c.devices ==> !Matches(d, AuthWantedBy(AuthenticateWebauthn(w)));
    }
  }

  /** Every result of one candidate, from which hardware device answered, if any. */
  lemma AnswerMeaning(x: AuthDecision, c: Context, m: Moment)
    requires Sound(c)
    ensures NeedsConfig(x, c, m) ==> ApplyAuth(x, c, m) == Failed(Unavailable)
    ensures !Answered(x, c, m) && !NeedsConfig(x, c, m) ==> ApplyAuth(x, c, m) == Failed(Invalid)
    ensures ReadsBack(c) ==> forall d :: d in c.devices && AnsweredBy(x, d, c, m) ==>
              Ends(ApplyAuth(x, c, m), c, d, Count(x), true, m)
  {
    OnlyTheNamedAnswers(x, c, m);
    match x
    case AuthenticateNative(n) => NativeAnswer(n, c, m);
    case AuthenticateWebauthn(w) => WebAnswer(w, c, m);
  }

  ghost predicate Accepts(x: AuthDecision, d: Record, c: Context, m: Moment) {
    ReadsBack(c) && d in c.devices && AnsweredBy(x, d, c, m) && Passes(c, d, Count(x), true, m)
  }

  ghost predicate Rejects(x: AuthDecision, d: Record, c: Context, m: Moment) {
    ReadsBack(c) && d in c.devices && AnsweredBy(x, d, c, m) && Stopped(c, d, m)
  }

  /** Accepted, or denied, exactly when a listed hardware device answered these bytes and the gate passes, or stops, it. */
  lemma AcceptedIff(x: AuthDecision, c: Context, m: Moment)
    requires Sound(c)
    ensures ApplyAuth(x, c, m) == Granted <==> exists d :: Accepts(x, d, c, m)
    ensures ApplyAuth(x, c, m) == Failed(Plain) <==> exists d :: Rejects(x, d, c, m)
  {
    AnswerMeaning(x, c, m);
    forall d | ReadsBack(c) && d in c.devices && AnsweredBy(x, d, c, m)
      ensures ApplyAuth(x, c, m) == Granted <==> Accepts(x, d, c, m)
      ensures ApplyAuth(x, c, m) == Failed(Plain) <==> Rejects(x, d, c, m)
    {
      EndsMeaning(ApplyAuth(x, c, m), c, d, Count(x), true, m);
    }
  }

  /** In both lanes, whatever a browser is granted was done by a person it saw and verified: bits 0 and 2 are set. */
  lemma BrowserGrantIsUserVerified(w: Web, lane: Lane, c: Context, m: Moment)
    requires Sound(c)
    requires ApplyCommand(Approve(w), lane, c, m) == Granted || ApplyAuth(AuthenticateWebauthn(w), c, m) == Granted
    ensures w.data.flags % 2 == 1 && (w.data.flags / 4) % 2 == 1
  {
    if ApplyCommand(Approve(w), lane, c, m) == Granted {
      GrantedIff(Approve(w), lane, c, m);
    } else {
      AcceptedIff(AuthenticateWebauthn(w), c, m);
    }
    FlagBits(w.data.flags);
  }

  // ---- domains ----

  /** A native signature made for any command, any denial or any other authentication is never accepted here. */
  lemma OtherSignaturesAreDiscarded(n: Native, key: Bytes, c: Context, m: Moment,
                                    other: Bytes, id: string, f: Fingerprint)
    requires Sound(c)
    requires || n.signature == Signed(key, Message.Challenge(ApproveChallenge(other)))
             || n.signature == Signed(key, Message.Challenge(DenyChallenge(id, f)))
             || (n.signature == Signed(key, Message.Challenge(AuthChallenge(other))) && other != c.raw)
    ensures ApplyAuth(AuthenticateNative(n), c, m) == Failed(Invalid)
  {
    DomainsDisjoint(other, c.raw, id, f);
    ChallengesInjective(other, c.raw);
    AnswerMeaning(AuthenticateNative(n), c, m);
  }

  /** And an authentication signature never approves or denies a command. */
  lemma AuthenticationDecidesNoCommand(raw: Bytes, key: Bytes, n: Native, x: Denial, lane: Lane, c: Context, m: Moment)
    requires Sound(c)
    requires n.signature == Signed(key, Message.Challenge(AuthChallenge(raw))) && x.signature == Some(n.signature)
    ensures ApplyCommand(ApproveNative(n), lane, c, m) == Failed(Invalid)
    ensures ApplyCommand(Deny(x), lane, c, m) == Failed(Invalid)
  {
    forall d: Record
      ensures !AuthenticFrom(ApproveNative(n), d, lane, c, m) && !AuthenticFrom(Deny(x), d, lane, c, m)
    {
      DomainsDisjoint(c.raw, raw, c.id, d.fingerprint);
    }
    DiscardedIff(ApproveNative(n), lane, c, m);
    DiscardedIff(Deny(x), lane, c, m);
  }

  // ---- completeness: the honest chain is accepted ----

  lemma {:induction false} SealedFor(raw: Bytes, ds: seq<Record>, d: Record)
    requires SealAll(raw, ds).Some? && d in ds && Distinct(ds)
    ensures BodyFor(SealAll(raw, ds).value, d.fingerprint) == Some(Body(d.fingerprint, d.boxKey, raw))
  {
    var bodies := SealAll(raw, ds).value;
    if ds[0] == d {
    } else {
      assert d in ds[1..];
      var j :| 0 <= j < |ds[1..]| && ds[1..][j] == d;
      assert ds[j + 1] == d;
      assert bodies[1..] == SealAll(raw, ds[1..]).value;
      assert Distinct(ds[1..]);
      SealedFor(raw, ds[1..], d);
    }
  }

  lemma {:induction false} SealAllIff(raw: Bytes, ds: seq<Record>)
    ensures SealAll(raw, ds).Some? <==> ds == [] || (|raw| <= 262144 && forall d :: d in ds ==> ValidRecord(d))
    ensures SealAll(raw, ds).Some? ==>
              && |SealAll(raw, ds).value| == |ds|
              && forall i :: 0 <= i < |ds| ==> SealAll(raw, ds).value[i] == Body(ds[i].fingerprint, ds[i].boxKey, raw)
  {
    if ds != [] {
      SealAllIff(raw, ds[1..]);
      assert forall d :: d in ds <==> d == ds[0] || d in ds[1..];
    }
  }

  /**
    Sealing succeeds exactly for one to eight valid devices under different fingerprints, a
    body of at most 256 KiB and a well-formed header, and then addresses each device in order.
   */
  lemma SealSucceedsIff(r: AuthRequest, raw: Bytes, ds: seq<Record>)
    ensures SealRequest(r, raw, ds).Some? <==>
            && 1 <= |ds| <= 8 && (forall d :: d in ds ==> ValidRecord(d)) && |raw| <= 262144
            && (forall i, j :: 0 <= i < j < |ds| ==> ds[i].fingerprint != ds[j].fingerprint)
            && IsId(r.id) && 1 <= |r.host| <= 255 && r.issuedAt < r.expiresAt
    ensures SealRequest(r, raw, ds).Some? ==>
              var e := SealRequest(r, raw, ds).value;
              && e.id == r.id && e.host == r.host && e.issuedAt == r.issuedAt && e.expiresAt == r.expiresAt
              && |e.sealed| == |ds|
              && forall i :: 0 <= i < |ds| ==> e.sealed[i] == Body(ds[i].fingerprint, ds[i].boxKey, raw)
  {
    IdMeaning(r.id);
    SealAllIff(raw, ds);
  }

  lemma OpensTo(r: AuthRequest, raw: Bytes, me: Record, e: Envelope, now: int, parse: AuthParser)
    requires me.kind == SecureEnclave && ValidEnvelope(e) && Timely(e.issuedAt, e.expiresAt, now)
    requires BodyFor(e.sealed, me.fingerprint) == Some(Body(me.fingerprint, me.boxKey, raw))
    requires |raw| <= MAX_REQUEST_BYTES && parse(raw) == Some(r) && ValidAuthRequest(r)
    requires r.id == e.id && r.host == e.host && r.issuedAt == e.issuedAt && r.expiresAt == e.expiresAt
    ensures Open(me, e, now, parse) == Opened(r, raw)
  {
  }

  lemma SealIsSmall(raw: Bytes, ds: seq<Record>)
    requires SealAll(raw, ds).Some? && ds != []
    ensures |raw| <= MAX_REQUEST_BYTES
  {
  }

  lemma SealOpens(r: AuthRequest, raw: Bytes, ds: seq<Record>, me: Record, now: int, parse: AuthParser)
    requires Distinct(ds) && parse(raw) == Some(r) && ValidAuthRequest(r) && Timely(r.issuedAt, r.expiresAt, now)
    requires me in ds && me.kind == SecureEnclave && SealRequest(r, raw, ds).Some?
    ensures |raw| <= MAX_REQUEST_BYTES
    ensures Open(me, SealRequest(r, raw, ds).value, now, parse) == Opened(r, raw)
  {
    SealIsSmall(raw, ds);
    SealedFor(raw, ds, me);
    OpensTo(r, raw, me, SealRequest(r, raw, ds).value, now, parse);
  }

  /**
    A request the host seals, any listed Secure Enclave device opens while it is timely,
    to exactly the bytes sealed, and the answer it signs is one the host accepts, subject
    only to the clock and the registry gate.
   */
  lemma HonestAnswerIsAccepted(r: AuthRequest, me: Record, c: Context, agentNow: int, m: Moment)
    requires Sound(c) && c.auth(c.raw) == Some(r)
    requires r.id == c.id && r.issuedAt == c.issuedAt && r.expiresAt == c.expiresAt
    requires FreshAt(r, agentNow)
    requires me in c.devices && me.kind == SecureEnclave
    requires SealRequest(r, c.raw, c.devices).Some?
    ensures var o := Open(me, SealRequest(r, c.raw, c.devices).value, agentNow, c.auth);
            && o == Opened(r, c.raw)
            && Authenticate(me, o).Some?
            && Ends(ApplyAuth(Authenticate(me, o).value, c, m), c, me, None, true, m)
  {
    FreshMeaning(r, agentNow);
    SealOpens(r, c.raw, c.devices, me, agentNow, c.auth);
    var x := Authenticate(me, Opened(r, c.raw)).value;
    assert Timely(r.issuedAt, r.expiresAt, c.issuedAt) && ParseAuthAt(c.raw, c.issuedAt, c.auth) == Some(r);
    ReadsBackMeaning(c);
    assert AnsweredBy(x, me, c, m);
    AnswerMeaning(x, c, m);
  }

  /** What a device shows and signs is what its sealed body says, whatever the envelope around it claims. */
  lemma OpenedIsSealed(me: Record, e: Envelope, now: int, parse: AuthParser)
    requires Open(me, e, now, parse).Opened?
    ensures var o := Open(me, e, now, parse);
            && Body(me.fingerprint, me.boxKey, o.raw) in e.sealed
            && parse(o.raw) == Some(o.request)
            && e.id == o.request.id && e.host == o.request.host
            && e.issuedAt == o.request.issuedAt && e.expiresAt == o.request.expiresAt
            && FreshAt(o.request, now)
            && (forall b :: b in e.sealed && b.fingerprint == me.fingerprint ==> b.raw == o.raw)
  {
    BodyForIsFirst(e.sealed, me.fingerprint);
    FreshMeaning(Open(me, e, now, parse).request, now);
  }

  /**
    A device opens an envelope to this request, exactly: an enclave device, an envelope of this
    protocol for at most eight recipients each named once, its own body among them, and in it a
    fresh request that the envelope's header repeats.
   */
  lemma OpensIff(me: Record, e: Envelope, now: int, parse: AuthParser, r: AuthRequest, raw: Bytes)
    ensures Open(me, e, now, parse) == Opened(r, raw) <==>
            && me.kind == SecureEnclave && e.version == 2 && |e.sealed| <= 8
            && (forall i, j :: 0 <= i < j < |e.sealed| ==> e.sealed[i].fingerprint != e.sealed[j].fingerprint)
            && Body(me.fingerprint, me.boxKey, raw) in e.sealed
            && |raw| <= 262144 && parse(raw) == Some(r) && FreshAt(r, now)
            && e.id == r.id && e.host == r.host && e.issuedAt == r.issuedAt && e.expiresAt == r.expiresAt
  {
    BodyForIsFirst(e.sealed, me.fingerprint);
    FreshMeaning(r, now);
  }

  /** It passes over an envelope exactly when a well-formed and timely one has no body for it. */
  lemma PassesOverIff(me: Record, e: Envelope, now: int, parse: AuthParser)
    ensures Open(me, e, now, parse) == NotAddressed <==>
            && me.kind == SecureEnclave && 1 <= |e.sealed| <= 8
            && (forall i, j :: 0 <= i < j < |e.sealed| ==> e.sealed[i].fingerprint != e.sealed[j].fingerprint)
            && FreshAt(AuthRequest(e.version, e.id, e.host, e.issuedAt, e.expiresAt, []), now)
            && forall b :: b in e.sealed ==> b.fingerprint != me.fingerprint
  {
    BodyForIsFirst(e.sealed, me.fingerprint);
    FreshMeaning(AuthRequest(e.version, e.id, e.host, e.issuedAt, e.expiresAt, []), now);
  }

  /** What a device makes of what it opened is the one native answer that verifies; a software device makes none. */
  lemma AnswersWhatVerifies(me: Record, o: Opened, now: int, parse: AuthParser, n: Native)
    requires o.Opened? && ValidRecord(me) && ParseAuthAt(o.raw, now, parse) == Some(o.request)
    ensures Authenticate(me, o) == Some(AuthenticateNative(n)) <==> VerifyNativeAuth(n, o.raw, me, now, parse)
  {
    OnlyItsOwnAuthentication(n, o.raw, me, now, parse);
  }

  lemma {:induction false} BodyForIsFirst(bodies: seq<Body>, f: Fingerprint)
    ensures BodyFor(bodies, f).Some? ==> BodyFor(bodies, f).value in bodies && BodyFor(bodies, f).value.fingerprint == f
    ensures (forall i, j :: 0 <= i < j < |bodies| ==> bodies[i].fingerprint != bodies[j].fingerprint) ==>
              forall b :: b in bodies && b.fingerprint == f ==> BodyFor(bodies, f) == Some(b)
  {
    if bodies != [] {
      BodyForIsFirst(bodies[1..], f);
    }
  }

  // ---- the whole authentication lane ----

  ghost function CarriedAuth(w: World<AuthDecision>, request: Context): Context
    requires w.snapshot.Some?
  {
    request.(devices := HardwareRecipients(w.snapshot.value.devices), epoch := w.snapshot.value.epoch)
  }

  lemma {:induction false} RecipientsStayDistinct(ds: seq<Record>)
    requires Distinct(ds)
    ensures Distinct(HardwareRecipients(ds))
  {
    if ds != [] {
      RecipientsStayDistinct(ds[1..]);
      HeadStaysDistinct(ds, HardwareRecipients(ds[1..]));
    }
  }

  ghost predicate AuthDecides(w: World<AuthDecision>, request: Context, x: AuthDecision, lane: Lane, m: Moment) {
    && w.serialized && w.snapshot.Some? && !w.abandoned
    && Deciding(w, request.id, x, lane, m, AuthApply(CarriedAuth(w, request)))
  }

  ghost predicate AuthReady(w: World<AuthDecision>, request: Context) {
    A.ValidId(request.id) && (w.snapshot.Some? ==> ValidRegistry(w.snapshot.value))
  }

  lemma CarriedAuthIsSound(w: World<AuthDecision>, request: Context)
    requires AuthReady(w, request) && w.snapshot.Some?
    ensures Sound(CarriedAuth(w, request))
  {
    RecipientsStayDistinct(w.snapshot.value.devices);
  }

  lemma AuthSettles(w: World<AuthDecision>, request: Context) returns (x: AuthDecision, lane: Lane, m: Moment)
    requires AuthReady(w, request) && ExitCode(AuthLane(w, request)) < 2
    ensures AuthDecides(w, request, x, lane, m)
    ensures AuthLane(w, request) == ApplyAuth(x, CarriedAuth(w, request), m)
  {
    var c := CarriedAuth(w, request);
    var settled;
    settled, lane, m := TransportedMeaning(w, c.id, false, AuthApply(c), AuthApply(c));
    x := settled.value;
  }

  lemma AuthResult(w: World<AuthDecision>, request: Context, x: AuthDecision, lane: Lane, m: Moment)
    requires AuthDecides(w, request, x, lane, m) && CarriedAuth(w, request).devices != []
    ensures var r := ApplyAuth(x, CarriedAuth(w, request), m);
            AuthLane(w, request) == if lane == SocketLane then SocketOutcome(r) else r
  {
    var c := CarriedAuth(w, request);
    DecidingDecides(w, c.id, false, x, lane, m, AuthApply(c), AuthApply(c));
  }

  /**
    The authentication lane answers 0 exactly when the decision that settles it was made by
    a hardware device of the snapshot over exactly the sealed bytes and passes the gate.
   */
  lemma AuthExitZeroIff(w: World<AuthDecision>, request: Context)
    requires AuthReady(w, request)
    ensures ExitCode(AuthLane(w, request)) == 0 <==>
            exists x, d, lane, m :: AuthDecides(w, request, x, lane, m) && Accepts(x, d, CarriedAuth(w, request), m)
  {
    if ExitCode(AuthLane(w, request)) == 0 {
      var x, lane, m := AuthSettles(w, request);
      CarriedAuthIsSound(w, request);
      AcceptedIff(x, CarriedAuth(w, request), m);
    }
    if x, d, lane, m :| AuthDecides(w, request, x, lane, m) && Accepts(x, d, CarriedAuth(w, request), m) {
      CarriedAuthIsSound(w, request);
      AcceptedIff(x, CarriedAuth(w, request), m);
      AuthResult(w, request, x, lane, m);
    }
  }

  /** It denies exactly when such a decision is late or refused at the gate; nothing else on this lane can. */
  lemma AuthExitOneIff(w: World<AuthDecision>, request: Context)
    requires AuthReady(w, request)
    ensures ExitCode(AuthLane(w, request)) == 1 <==>
            exists x, d, lane, m :: AuthDecides(w, request, x, lane, m) && Rejects(x, d, CarriedAuth(w, request), m)
  {
    if ExitCode(AuthLane(w, request)) == 1 {
      var x, lane, m := AuthSettles(w, request);
      CarriedAuthIsSound(w, request);
      AcceptedIff(x, CarriedAuth(w, request), m);
    }
    if x, d, lane, m :| AuthDecides(w, request, x, lane, m) && Rejects(x, d, CarriedAuth(w, request), m) {
      CarriedAuthIsSound(w, request);
      AcceptedIff(x, CarriedAuth(w, request), m);
      AuthResult(w, request, x, lane, m);
    }
  }
}
