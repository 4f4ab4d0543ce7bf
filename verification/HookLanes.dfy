// How the hook turns decisions into an exit status (hook/src/main.rs).
module HookLanes {
  import opened Prelude
  import opened Records
  import opened Transactions
  import opened Verdicts
  import S = Socket

  /** The error classes the exit status distinguishes. */
  datatype Fault = Plain | Unavailable | Invalid | Transport

  datatype Result = Granted | Failed(fault: Fault)

  /** `check_error_exit_code`: only an ordinary error denies. */
  function ExitCode(r: Result): nat {
    match r
    case Granted => 0
    case Failed(Plain) => 1
    case Failed(_) => 2
  }

  datatype Lane = SocketLane | NatsLane

  /** The registry as the final authorization finds it under its lock. */
  datatype Lock = Lock(registry: Registry, now: int, writeOk: bool)

  /** What checking one candidate reads from its surroundings. */
  datatype Moment = Moment(
    now: int,
    config: Option<HookConfig>,      // hook.json, if it loads
    server: Option<Decision>,        // the server's record for the request, if it answers
    lock: Option<Lock>,              // `None`: the lock or the registry could not be had
    overran: bool)                   // the check outlived the deadline

  /** One request on its way: what was sealed, to whom, and against which snapshot. */
  datatype Context = Context(
    id: string, raw: Bytes, issuedAt: int, expiresAt: int,
    devices: seq<Record>, epoch: nat,
    client: ClientParser, auth: AuthParser)

  // ---- final authorization ----

  function FinalAuthorization(c: Context, device: Record, observed: Option<nat>, authentication: bool,
                              lock: Option<Lock>): Result {
    match lock
    case None => Failed(Unavailable)
    case Some(l) =>
      match GatePlan(l.registry, c.epoch, Ask(device, c.expiresAt, observed, authentication), l.now)
      case Refuse(_) => Failed(Plain)
      case Keep => Granted
      case Put(_) => if l.writeOk || authentication then Granted else Failed(Unavailable)
  }

  // ---- one candidate ----

  /** The pinned device a decision has to name. */
  datatype Wanted = Wanted(kinds: set<DeviceKind>, fingerprint: Fingerprint, credentialId: Option<Bytes>)

  const ANY_KIND: set<DeviceKind> := {Webauthn, Software, SecureEnclave}
  const NATIVE: set<DeviceKind> := {Software, SecureEnclave}

  predicate Matches(d: Record, w: Wanted) {
    && d.kind in w.kinds && d.fingerprint == w.fingerprint
    && (w.credentialId.Some? ==> d.credentialId == w.credentialId.value)
  }

  function Find(ds: seq<Record>, w: Wanted): (r: Option<Record>)
    ensures r.Some? ==> r.value in ds && Matches(r.value, w)
    ensures r.None? ==> forall d :: d in ds ==> !Matches(d, w)
  {
    if ds == [] then None else if Matches(ds[0], w) then Some(ds[0]) else Find(ds[1..], w)
  }

  /** Who may have made a command decision. */
  function WantedBy(x: Decision): Wanted {
    match x
    case Deny(d) => Wanted(ANY_KIND, d.fingerprint, None)
    case Approve(w) => Wanted({Webauthn}, w.fingerprint, Some(w.credentialId))
    case ApproveNative(n) => Wanted(NATIVE, n.fingerprint, None)
  }

  /** Who may have made an authentication decision. */
  function AuthWantedBy(x: AuthDecision): Wanted {
    match x
    case AuthenticateNative(n) => Wanted({SecureEnclave}, n.fingerprint, None)
    case AuthenticateWebauthn(w) => Wanted({Webauthn}, w.fingerprint, Some(w.credentialId))
  }

  /** `denial_confirmed_by`. */
  predicate Confirms(record: Option<Decision>, denial: Denial) {
    && record.Some? && record.value.Deny?
    && record.value.denial.requestId == denial.requestId
    && record.value.denial.fingerprint == denial.fingerprint
  }

  function ApplyDeny(x: Denial, lane: Lane, c: Context, m: Moment): Result {
    if !DenialShape(x) || x.requestId != c.id then Failed(Invalid)
    else match Find(c.devices, WantedBy(Deny(x)))
      case None => Failed(Invalid)
      case Some(device) =>
        if x.signature.Some? then
          if VerifyDeny(x, device) then Failed(Plain) else Failed(Invalid)
        else if lane != NatsLane || device.kind != Webauthn then Failed(Invalid)
        else if m.config.None? || !Confirms(m.server, x) then Failed(Invalid)
        else Failed(Plain)
  }

  function ApplyWeb(w: Web, c: Context, m: Moment): Result {
    if !WebShape(w, VERSION) || w.requestId != c.id then Failed(Invalid)
    else match Find(c.devices, WantedBy(Approve(w)))
      case None => Failed(Invalid)
      case Some(device) =>
        if m.config.None? then Failed(Unavailable)
        else if !VerifyApproval(w, c.raw, device, m.config.value, c.client) then Failed(Invalid)
        else if c.expiresAt <= m.now then Failed(Plain)
        else FinalAuthorization(c, device, Some(w.data.signCount), false, m.lock)
  }

  function ApplyNative(n: Native, c: Context, m: Moment): Result {
    if !NativeShape(n, VERSION) || n.requestId != c.id then Failed(Invalid)
    else match Find(c.devices, WantedBy(ApproveNative(n)))
      case None => Failed(Invalid)
      case Some(device) =>
        if !VerifyNativeApproval(n, c.raw, device) then Failed(Invalid)
        else if c.expiresAt <= m.now then Failed(Plain)
        else FinalAuthorization(c, device, None, false, m.lock)
  }

  /** `apply_decision`. */
  function ApplyCommand(d: Decision, lane: Lane, c: Context, m: Moment): Result {
    match d
    case Deny(x) => ApplyDeny(x, lane, c, m)
    case Approve(w) => ApplyWeb(w, c, m)
    case ApproveNative(n) => ApplyNative(n, c, m)
  }

  function ApplyAuthNative(n: Native, c: Context, m: Moment): Result {
    if !NativeShape(n, AUTH_VERSION) || n.requestId != c.id then Failed(Invalid)
    else match Find(c.devices, AuthWantedBy(AuthenticateNative(n)))
      case None => Failed(Invalid)
      case Some(device) =>
        if !VerifyNativeAuth(n, c.raw, device, c.issuedAt, c.auth) then Failed(Invalid)
        else if c.expiresAt <= m.now then Failed(Plain)
        else FinalAuthorization(c, device, None, true, m.lock)
  }

  function ApplyAuthWeb(w: Web, c: Context, m: Moment): Result {
    if !WebShape(w, AUTH_VERSION) || w.requestId != c.id then Failed(Invalid)
    else match Find(c.devices, AuthWantedBy(AuthenticateWebauthn(w)))
      case None => Failed(Invalid)
      case Some(device) =>
        if m.config.None? then Failed(Unavailable)
        else if !VerifyWebauthnAuth(w, c.raw, device, m.config.value, c.issuedAt, c.auth, c.client) then Failed(Invalid)
        else if c.expiresAt <= m.now then Failed(Plain)
        else FinalAuthorization(c, device, Some(w.data.signCount), true, m.lock)
  }

  /** `apply_auth_decision`. */
  function ApplyAuth(d: AuthDecision, c: Context, m: Moment): Result {
    match d
    case AuthenticateNative(n) => ApplyAuthNative(n, c, m)
    case AuthenticateWebauthn(w) => ApplyAuthWeb(w, c, m)
  }

  // ---- candidates in order ----

  datatype Item<D> = Candidate(decision: D, at: Moment) | Breaks

  /** `first_valid_decision` on everything the stream will deliver before it ends. */
  function FirstValid<D>(items: seq<Item<D>>, apply: (D, Moment) -> Result): Result {
    if items == [] then Failed(Unavailable)
    else match items[0]
      case Breaks => Failed(Transport)
      case Candidate(d, m) =>
        if m.overran then Failed(Unavailable)
        else if apply(d, m) == Failed(Invalid) then FirstValid(items[1..], apply)
        else apply(d, m)
  }

  /** `first_valid_decision` as the loop it is. */
  method FirstValidDecision<D>(items: seq<Item<D>>, apply: (D, Moment) -> Result) returns (r: Result, ignored: nat)
    ensures r == FirstValid(items, apply)
    ensures ignored <= |items|
    ensures forall i :: 0 <= i < ignored ==>
              items[i].Candidate? && apply(items[i].decision, items[i].at) == Failed(Invalid)
    ensures ignored < |items| && items[ignored].Candidate? && !items[ignored].at.overran ==>
              r != Failed(Invalid) && r == apply(items[ignored].decision, items[ignored].at)
  {
    ignored := 0;
    while ignored < |items|
      invariant ignored <= |items|
      invariant FirstValid(items, apply) == FirstValid(items[ignored..], apply)
      invariant forall i :: 0 <= i < ignored ==>
                  items[i].Candidate? && apply(items[i].decision, items[i].at) == Failed(Invalid)
    {
      var item := items[ignored];
      if item.Breaks? {
        return Failed(Transport), ignored;
      }
      if item.at.overran {
        return Failed(Unavailable), ignored;
      }
      var result := apply(item.decision, item.at);
      if result != Failed(Invalid) {
        return result, ignored;
      }
      ignored := ignored + 1;
    }
    r := Failed(Unavailable);
  }

  /** `socket_decision_outcome`. */
  function SocketOutcome(r: Result): Result {
    if r == Failed(Invalid) then Failed(Unavailable) else r
  }

  // ---- a whole lane ----

  datatype Nats<D> = Unreachable(transport: bool) | Streams(items: seq<Item<D>>)

  /** Everything outside the hook one lane depends on. */
  datatype World<D> = World(
    nats: Option<bool>,                    // `None`: config.env is unusable; otherwise whether it names NATS
    serialized: bool,                      // the request serializes
    snapshot: Option<Registry>,
    envelope: Option<seq<S.Octet>>,        // the sealed envelope's bytes, if sealing works
    peer: S.Peer, start: int, deadline: int, decode: S.Codec,
    verdict: seq<S.Octet> -> Option<D>,    // the lane's own decision type
    at: Moment,                            // when a socket verdict is checked
    stream: Nats<D>,
    abandoned: bool)                       // the PAM caller went away

  /** Sealing includes the envelope's own validation, which caps its size. */
  function Sealed<D>(w: World<D>): Option<seq<S.Octet>> {
    if w.envelope.Some? && |w.envelope.value| > S.MAX_FRAME_BYTES then None else w.envelope
  }

  function Fallback<D>(w: World<D>, natsApply: (D, Moment) -> Result): Result
    requires w.nats.Some?
  {
    if !w.nats.value then Failed(Unavailable)
    else match w.stream
      case Unreachable(transport) => Failed(if transport then Transport else Unavailable)
      case Streams(items) => FirstValid(items, natsApply)
  }

  /** The two-transport matrix. The command lane repeats the size check after sealing. */
  function Transported<D>(w: World<D>, id: string, payload: seq<S.Octet>, repeatsCheck: bool,
                          socketApply: (D, Moment) -> Result, natsApply: (D, Moment) -> Result): Result
    requires w.nats.Some?
  {
    if repeatsCheck && |payload| > S.MAX_FRAME_BYTES then Failed(Plain)
    else match S.Attempt(w.peer, w.start, w.deadline, payload, w.decode, id)
      case HostFault => Failed(Unavailable)
      case Unframeable => Failed(Plain)
      case Unavailable => Failed(Unavailable)
      case Dropped => Failed(Unavailable)
      case Verdict(bytes) =>
        (match w.verdict(bytes)
         case None => Failed(Unavailable)
         case Some(d) => SocketOutcome(socketApply(d, w.at)))
      case Unconfigured => Fallback(w, natsApply)
      case NoAgent => Fallback(w, natsApply)
      case NoAck => Fallback(w, natsApply)
  }

  function ActiveDevices(devices: seq<Record>): (r: seq<Record>)
    ensures forall d :: d in r <==> d in devices && d.active
  {
    if devices == [] then []
    else if devices[0].active then [devices[0]] + ActiveDevices(devices[1..])
    else ActiveDevices(devices[1..])
  }

  function CommandApply(lane: Lane, c: Context): (Decision, Moment) -> Result {
    (d: Decision, m: Moment) => ApplyCommand(d, lane, c, m)
  }

  function AuthApply(c: Context): (AuthDecision, Moment) -> Result {
    (d: AuthDecision, m: Moment) => ApplyAuth(d, c, m)
  }

  /** `execute_request_at`. */
  function CommandLane(w: World<Decision>, request: Context): Result {
    if w.nats.None? || !w.serialized || w.snapshot.None? then Failed(Unavailable)
    else
      var c := request.(devices := ActiveDevices(w.snapshot.value.devices), epoch := w.snapshot.value.epoch);
      if c.devices == [] || Sealed(w).None? then Failed(Unavailable)
      else Transported(w, c.id, Sealed(w).value, true, CommandApply(SocketLane, c), CommandApply(NatsLane, c))
  }

  /** `execute_auth_request_at` and `await_auth_decision`. */
  function AuthLane(w: World<AuthDecision>, request: Context): Result {
    if w.nats.None? || !w.serialized || w.snapshot.None? then Failed(Unavailable)
    else
      var c := request.(devices := HardwareRecipients(w.snapshot.value.devices), epoch := w.snapshot.value.epoch);
      if c.devices == [] || Sealed(w).None? then Failed(Unavailable)
      else if w.abandoned then Failed(Unavailable)
      else Transported(w, c.id, Sealed(w).value, false, AuthApply(c), AuthApply(c))
  }
}
