// Signed verdicts and how they are verified against a pinned device
// (protocol/src/v1.rs, native_v1.rs, webauthn_v1.rs and auth_v1.rs).
module Verdicts {
  import opened Prelude
  import opened Records
  import A = Admission

  const APPROVE_DOMAIN: Bytes := "oshioki/approve/v1\0"
  const DENY_DOMAIN: Bytes := "oshioki/deny/v1\0"
  const AUTH_DOMAIN: Bytes := "oshioki/authenticate/sudo/v1\0"
  const AUTH_VERSION: nat := 2

  // ---- what is signed ----

  function DenyChallenge(requestId: string, fingerprint: Fingerprint): Bytes {
    Sha256(DENY_DOMAIN + requestId + "\0" + fingerprint)
  }

  function ApproveChallenge(raw: Bytes): Bytes {
    Sha256(APPROVE_DOMAIN + raw)
  }

  function AuthChallenge(raw: Bytes): Bytes {
    Sha256(AUTH_DOMAIN + raw)
  }

  /** Authenticator data, read as section 6.1 of Web Authentication Level 2 lays it out. */
  datatype AuthData = AuthData(rpIdHash: Bytes, flags: nat, signCount: nat, extra: Bytes)

  /**
    What an ECDSA key signs. A native device signs a 32-byte challenge; an authenticator
    signs its data followed by the client data hash, at least 69 bytes, so the two never meet.
   */
  datatype Message = Challenge(digest: Bytes) | Assertion(data: AuthData, clientHash: Bytes)

  /** Ideal signatures: the only term that verifies is the one the key's holder made. */
  datatype Sig = Signed(key: Bytes, message: Message) | Junk(length: nat)

  predicate Verifies(key: Bytes, message: Message, sig: Sig) {
    sig == Signed(key, message)
  }

  predicate SigShape(sig: Sig) {
    sig.Junk? ==> 8 <= sig.length <= 256
  }

  // ---- verdicts ----

  datatype Denial = Denial(version: nat, requestId: string, fingerprint: Fingerprint, signature: Option<Sig>)

  datatype Native = Native(version: nat, requestId: string, fingerprint: Fingerprint, signature: Sig)

  datatype Web = Web(version: nat, requestId: string, fingerprint: Fingerprint, credentialId: Bytes,
                     data: AuthData, clientJson: Bytes, signature: Sig)

  datatype Decision = Deny(denial: Denial) | Approve(web: Web) | ApproveNative(native: Native)

  datatype AuthDecision = AuthenticateNative(native: Native) | AuthenticateWebauthn(web: Web)

  predicate DenialShape(d: Denial) {
    d.version == VERSION && A.ValidId(d.requestId) && (d.signature.Some? ==> d.signature.value != Junk(0))
  }

  predicate NativeShape(n: Native, version: nat) {
    n.version == version && A.ValidId(n.requestId) && SigShape(n.signature)
  }

  predicate WebShape(w: Web, version: nat) {
    && w.version == version && A.ValidId(w.requestId) && SigShape(w.signature)
    && w.credentialId != [] && |w.data.extra| <= 987 && 0 < |w.clientJson| <= 16 * 1024
  }

  // ---- verification ----

  datatype HookConfig = HookConfig(version: nat, origin: string, rpId: string, serverBaseUrl: string)

  predicate ValidConfig(c: HookConfig) {
    && c.version == VERSION
    && "https://" <= c.origin && c.origin[|c.origin| - 1] != '/'
    && c.rpId != [] && '/' !in c.rpId
    && c.serverBaseUrl == c.origin
  }

  /** Parsed client data; the challenge is carried decoded. */
  datatype ClientData = ClientData(kind: string, challenge: Bytes, origin: string, crossOrigin: bool)

  type ClientParser = Bytes -> Option<ClientData>

  predicate VerifyDeny(d: Denial, device: Record) {
    && ValidRecord(device) && DenialShape(d) && d.fingerprint == device.fingerprint
    && d.signature.Some?
    && Verifies(device.publicKey, Challenge(DenyChallenge(d.requestId, d.fingerprint)), d.signature.value)
  }

  predicate VerifyNativeApproval(n: Native, raw: Bytes, device: Record) {
    && ValidRecord(device) && NativeShape(n, VERSION)
    && device.kind != Webauthn && n.fingerprint == device.fingerprint
    && Verifies(device.publicKey, Challenge(ApproveChallenge(raw)), n.signature)
  }

  /** User present, user verified. */
  predicate FlagsSet(flags: nat) {
    flags % 2 == 1 && flags / 4 % 2 == 1
  }

  /** The assertion checks both lanes share, for the challenge each of them expects. */
  predicate VerifyAssertion(w: Web, challenge: Bytes, device: Record, config: HookConfig, parse: ClientParser) {
    && ValidConfig(config) && ValidRecord(device)
    && device.kind == Webauthn && w.fingerprint == device.fingerprint && w.credentialId == device.credentialId
    && parse(w.clientJson).Some?
    && var client := parse(w.clientJson).value;
       && client.kind == "webauthn.get"
       && client.origin == config.origin && !client.crossOrigin
       && client.challenge == challenge
       && w.data.rpIdHash == Sha256(config.rpId)
       && FlagsSet(w.data.flags)
       && Verifies(device.publicKey, Assertion(w.data, Sha256(w.clientJson)), w.signature)
  }

  predicate VerifyApproval(w: Web, raw: Bytes, device: Record, config: HookConfig, parse: ClientParser) {
    w.version == VERSION && w.requestId != [] && VerifyAssertion(w, ApproveChallenge(raw), device, config, parse)
  }

  // ---- authentication requests ----

  /** An authentication request; `context` stands for the fields only people read. */
  datatype AuthRequest = AuthRequest(version: nat, id: string, host: string, issuedAt: int, expiresAt: int, context: Bytes)

  type AuthParser = Bytes -> Option<AuthRequest>

  predicate ValidAuthRequest(r: AuthRequest) {
    && r.version == AUTH_VERSION && A.ValidId(r.id) && r.issuedAt < r.expiresAt
    && 0 < |r.host| <= 255
  }

  predicate Timely(issuedAt: int, expiresAt: int, now: int) {
    A.TimelyAt(A.Body([], issuedAt, expiresAt), now)
  }

  const MAX_REQUEST_BYTES: nat := 256 * 1024

  /** `parse_auth_request_at`. */
  function ParseAuthAt(raw: Bytes, now: int, parse: AuthParser): Option<AuthRequest> {
    if |raw| > MAX_REQUEST_BYTES then None
    else match parse(raw)
      case None => None
      case Some(r) => if ValidAuthRequest(r) && Timely(r.issuedAt, r.expiresAt, now) then Some(r) else None
  }

  predicate VerifyNativeAuth(n: Native, raw: Bytes, device: Record, now: int, parse: AuthParser) {
    && ParseAuthAt(raw, now, parse).Some? && NativeShape(n, AUTH_VERSION) && ValidRecord(device)
    && device.kind == SecureEnclave && n.fingerprint == device.fingerprint
    && n.requestId == ParseAuthAt(raw, now, parse).value.id
    && Verifies(device.publicKey, Challenge(AuthChallenge(raw)), n.signature)
  }

  predicate VerifyWebauthnAuth(w: Web, raw: Bytes, device: Record, config: HookConfig, now: int,
                               parse: AuthParser, client: ClientParser) {
    && ParseAuthAt(raw, now, parse).Some? && WebShape(w, AUTH_VERSION)
    && w.requestId == ParseAuthAt(raw, now, parse).value.id
    && VerifyAssertion(w, AuthChallenge(raw), device, config, client)
  }

  /** `hardware_auth_recipients`. */
  function HardwareRecipients(devices: seq<Record>): (r: seq<Record>)
    ensures forall d :: d in r <==> d in devices && d.active && d.kind != Software
  {
    if devices == [] then []
    else if devices[0].active && devices[0].kind != Software then [devices[0]] + HardwareRecipients(devices[1..])
    else HardwareRecipients(devices[1..])
  }

  /** What the filter makes of one record. */
  function IfHardware(d: Record): seq<Record> {
    if d.active && d.kind != Software then [d] else []
  }

  lemma RecipientsHead(d: Record, rest: seq<Record>)
    ensures HardwareRecipients([d] + rest) == IfHardware(d) + HardwareRecipients(rest)
  {
    assert ([d] + rest)[1..] == rest;
  }

  lemma Associates(a: seq<Record>, b: seq<Record>, c: seq<Record>)
    ensures a + (b + c) == (a + b) + c
  {
  }

  /** Filtering keeps the registry's order: it goes piece by piece. */
  lemma {:induction false} RecipientsInOrder(a: seq<Record>, b: seq<Record>)
    ensures HardwareRecipients(a + b) == HardwareRecipients(a) + HardwareRecipients(b)
  {
    if a == [] {
      assert a + b == b;
    } else {
      RecipientsConcatHead(a[0], a[1..], b) by { RecipientsInOrder(a[1..], b); }
      assert [a[0]] + a[1..] == a;
    }
  }

  lemma RecipientsConcatHead(d: Record, rest: seq<Record>, b: seq<Record>)
    requires HardwareRecipients(rest + b) == HardwareRecipients(rest) + HardwareRecipients(b)
    ensures HardwareRecipients([d] + rest + b) == HardwareRecipients([d] + rest) + HardwareRecipients(b)
  {
    Associates([d], rest, b);
    RecipientsHead(d, rest);
    RecipientsHead(d, rest + b);
    Associates(IfHardware(d), HardwareRecipients(rest), HardwareRecipients(b));
  }

  // ---- the three signature domains never meet ----

  /** No approval, denial or authentication challenge is a challenge of another domain. */
  lemma DomainsDisjoint(a: Bytes, b: Bytes, requestId: string, fingerprint: Fingerprint)
    ensures ApproveChallenge(a) != AuthChallenge(b)
    ensures ApproveChallenge(a) != DenyChallenge(requestId, fingerprint)
    ensures AuthChallenge(b) != DenyChallenge(requestId, fingerprint)
  {
    var approve, auth := APPROVE_DOMAIN + a, AUTH_DOMAIN + b;
    var deny := DENY_DOMAIN + requestId + "\0" + fingerprint;
    assert approve[9] == 'p' && auth[9] == 'u' && deny[8] == 'd' && approve[8] == 'a' && auth[8] == 'a';
    assert Sha256(approve)[7..] == approve && Sha256(auth)[7..] == auth && Sha256(deny)[7..] == deny;
  }

  /** A challenge fixes the exact bytes it was made from. */
  lemma ChallengesInjective(a: Bytes, b: Bytes)
    ensures ApproveChallenge(a) == ApproveChallenge(b) ==> a == b
    ensures AuthChallenge(a) == AuthChallenge(b) ==> a == b
  {
    assert Sha256(APPROVE_DOMAIN + a)[7..][|APPROVE_DOMAIN|..] == a;
    assert Sha256(APPROVE_DOMAIN + b)[7..][|APPROVE_DOMAIN|..] == b;
    assert Sha256(AUTH_DOMAIN + a)[7..][|AUTH_DOMAIN|..] == a;
    assert Sha256(AUTH_DOMAIN + b)[7..][|AUTH_DOMAIN|..] == b;
  }

  /** A denial challenge fixes both the request and the device: ids hold no NUL. */
  lemma DenyChallengeInjective(id: string, fp: Fingerprint, id': string, fp': Fingerprint)
    requires A.ValidId(id) && A.ValidId(id')
    requires DenyChallenge(id, fp) == DenyChallenge(id', fp')
    ensures id == id' && fp == fp'
  {
    Sha256Injective(DENY_DOMAIN + id + "\0" + fp, DENY_DOMAIN + id' + "\0" + fp');
    DropDomain(id, fp);
    DropDomain(id', fp');
    SplitAtNul(id, fp, id', fp');
  }

  lemma DropDomain(id: string, fp: Fingerprint)
    ensures (DENY_DOMAIN + id + "\0" + fp)[|DENY_DOMAIN|..] == id + "\0" + fp
  {
  }

  lemma SplitAtNul(id: string, fp: Fingerprint, id': string, fp': Fingerprint)
    requires A.ValidId(id) && A.ValidId(id') && id + "\0" + fp == id' + "\0" + fp'
    ensures id == id' && fp == fp'
  {
    FirstNul(id, fp);
    FirstNul(id', fp');
    var s := id + "\0" + fp;
    assert id == s[..|id|] && id' == s[..|id'|];
    assert fp == s[|id| + 1..] && fp' == s[|id'| + 1..];
  }

  lemma FirstNul(id: string, fp: Fingerprint)
    requires A.ValidId(id)
    ensures var s := id + "\0" + fp; s[|id|] == '\0' && forall i :: 0 <= i < |id| ==> s[i] != '\0'
  {
  }

  // ---- what one signature can be used for ----

  /** An accepted assertion's signature fixes everything it was accepted for. */
  lemma SignatureFixesAssertion(w: Web, challenge: Bytes, d: Record, config: HookConfig,
                                w': Web, challenge': Bytes, d': Record, config': HookConfig, parse: ClientParser)
    requires VerifyAssertion(w, challenge, d, config, parse) && VerifyAssertion(w', challenge', d', config', parse)
    requires w.signature == w'.signature
    ensures challenge == challenge' && d.publicKey == d'.publicKey
    ensures config.origin == config'.origin && config.rpId == config'.rpId
    ensures w.data == w'.data && w.clientJson == w'.clientJson
  {
    Sha256Injective(w.clientJson, w'.clientJson);
    Sha256Injective(config.rpId, config'.rpId);
  }

  /**
    One browser signature approves one request: in whatever messages it is carried, to
    whatever host with whatever pinned devices, all of them were asked to run the same bytes,
    under the same key and for the same site.
   */
  lemma OneSignatureOneRequest(w: Web, raw: Bytes, d: Record, config: HookConfig,
                               w': Web, raw': Bytes, d': Record, config': HookConfig, parse: ClientParser)
    requires VerifyApproval(w, raw, d, config, parse) && VerifyApproval(w', raw', d', config', parse)
    requires w.signature == w'.signature
    ensures raw == raw' && d.publicKey == d'.publicKey && config.origin == config'.origin
  {
    SignatureFixesAssertion(w, ApproveChallenge(raw), d, config, w', ApproveChallenge(raw'), d', config', parse);
    ChallengesInjective(raw, raw');
  }

  /** And it serves one lane: what approves a command never authenticates, nor the reverse. */
  lemma SignatureServesOneLane(w: Web, raw: Bytes, d: Record, config: HookConfig,
                               w': Web, raw': Bytes, d': Record, config': HookConfig,
                               now: int, auth: AuthParser, parse: ClientParser)
    requires VerifyApproval(w, raw, d, config, parse)
    requires VerifyWebauthnAuth(w', raw', d', config', now, auth, parse)
    ensures w.signature != w'.signature
  {
    DomainsDisjoint(raw, raw', [], []);
    if w.signature == w'.signature {
      SignatureFixesAssertion(w, ApproveChallenge(raw), d, config, w', AuthChallenge(raw'), d', config', parse);
    }
  }

  // ---- each verifier accepts one message only ----

  /** The only denial of a request that a device's verifier accepts is the one that device makes. */
  lemma OnlyItsOwnDenial(d: Denial, device: Record)
    ensures VerifyDeny(d, device) <==>
            && ValidRecord(device) && A.ValidId(d.requestId)
            && d == Denial(1, d.requestId, device.fingerprint,
                           Some(Signed(device.publicKey, Challenge(DenyChallenge(d.requestId, device.fingerprint)))))
  {
  }

  /** The only native approval of these request bytes is the one a native device makes over them. */
  lemma OnlyItsOwnApproval(n: Native, raw: Bytes, device: Record)
    ensures VerifyNativeApproval(n, raw, device) <==>
            && ValidRecord(device) && (device.kind == Software || device.kind == SecureEnclave) && A.ValidId(n.requestId)
            && n == Native(1, n.requestId, device.fingerprint, Signed(device.publicKey, Challenge(ApproveChallenge(raw))))
  {
  }

  /** The only native authentication is the one an enclave device makes for the very request these bytes hold. */
  lemma OnlyItsOwnAuthentication(n: Native, raw: Bytes, device: Record, now: int, parse: AuthParser)
    ensures VerifyNativeAuth(n, raw, device, now, parse) <==>
            && ValidRecord(device) && device.kind == SecureEnclave && ParseAuthAt(raw, now, parse).Some?
            && n == Native(2, ParseAuthAt(raw, now, parse).value.id, device.fingerprint,
                           Signed(device.publicKey, Challenge(AuthChallenge(raw))))
  {
  }
}
