// The agent's request admission (agent/src/main.rs): permits, claims, owners and waiters,
// as interleaved lanes over one clock.
module Admission {
  import opened Prelude

  const MAX_IN_FLIGHT: nat := 8
  const MAX_SEEN: nat := 1024
  const LIFETIME: int := 90
  const SKEW: int := 30
  const RETENTION: int := LIFETIME + SKEW

  datatype Kind = Command | Authentication

  /**
    An opened request body. Claims compare SHA-256 hashes of the plaintext; with an ideal
    hash that is comparing bodies, and the body fixes its own timestamps.
   */
  datatype Body = Body(text: Bytes, issuedAt: int, expiresAt: int)

  datatype Req = Req(kind: Kind, id: string, body: Body)

  datatype Outcome = Verdict(kind: Kind, text: Bytes) | Unanswered

  datatype ChanState = Live | Answered(outcome: Outcome) | Dead

  /** One owner generation: the watch channel its lease reports through. */
  datatype Channel = Channel(req: Req, state: ChanState)

  datatype Seen = Seen(seenAt: int, body: Body, chan: nat, attached: bool)

  datatype Lane =
    | Reserved                                                   // a permit, nothing opened yet
    | Opened(req: Req)
    | Owner(req: Req, chan: nat, prompting: bool, past: seq<nat>)
    | Waiter(req: Req, chan: nat, past: seq<nat>)
    | Delivered(req: Req, outcome: Outcome)
    | Over

  datatype Answer = Answer(req: Req, outcome: Outcome)

  datatype Sys = Sys(
    now: int,
    free: nat,
    claims: map<string, Seen>,
    chans: seq<Channel>,
    lanes: map<nat, Lane>,
    answers: seq<Answer>,      // every recorded answer, in order
    evicted: set<string>)      // every key ever dropped for capacity

  datatype Label =
    | Tick(delta: nat)
    | Reserve(lane: nat)
    | Open(lane: nat, req: Req)
    | Claim(lane: nat, victim: string)
    | Relay(lane: nat)
    | Expire(lane: nat)
    | Prompt(lane: nat)
    | Record(lane: nat, outcome: Outcome)
    | Drop(lane: nat)

  // ---- claim keys ----

  predicate IdChar(c: char) {
    'a' <= c <= 'z' || 'A' <= c <= 'Z' || '0' <= c <= '9' || c == '-' || c == '_'
  }

  predicate ValidId(id: string) {
    0 < |id| <= 128 && forall i :: 0 <= i < |id| ==> IdChar(id[i])
  }

  function ClaimKey(kind: Kind, id: string): string {
    match kind
    case Command => id
    case Authentication => "auth:" + id
  }

  function Key(req: Req): string {
    ClaimKey(req.kind, req.id)
  }

  /** The two lanes can never take each other's claim. */
  lemma ClaimKeyInjective(a: Kind, x: string, b: Kind, y: string)
    requires ValidId(x) && ValidId(y) && ClaimKey(a, x) == ClaimKey(b, y)
    ensures a == b && x == y
  {
    if a.Authentication? {
      AuthKeyHasColon(x, y);
    }
    if b.Authentication? {
      AuthKeyHasColon(y, x);
    }
    if a.Authentication? && b.Authentication? {
      assert x == ClaimKey(a, x)[5..];
      assert y == ClaimKey(b, y)[5..];
    }
  }

  lemma AuthKeyHasColon(x: string, y: string)
    requires ValidId(y)
    ensures ClaimKey(Authentication, x) != y
  {
    assert ClaimKey(Authentication, x)[4] == ':';
    assert |y| > 4 ==> IdChar(y[4]);
  }

  /** `validate_request_timing`. */
  predicate TimelyAt(b: Body, now: int) {
    && now - SKEW <= b.issuedAt <= now + SKEW
    && now < b.expiresAt
    && b.expiresAt - b.issuedAt <= LIFETIME
  }

  // ---- claiming ----

  function Pruned(claims: map<string, Seen>, now: int): map<string, Seen> {
    map k | k in claims && now - claims[k].seenAt < RETENTION :: claims[k]
  }

  function StateOf(chans: seq<Channel>, c: nat): ChanState {
    if c < |chans| then chans[c].state else Dead
  }

  datatype Case = Duplicate | Attach | Own

  /** What claiming a request comes to, on a table already pruned. */
  function CaseOf(claims: map<string, Seen>, chans: seq<Channel>, req: Req): Case {
    var k := Key(req);
    if k !in claims then Own
    else if claims[k].body != req.body then Duplicate
    else match StateOf(chans, claims[k].chan)
      case Answered(_) => Duplicate
      case Live => if claims[k].attached then Duplicate else Attach
      case Dead => Own
  }

  predicate Overfull(claims: map<string, Seen>, key: string) {
    |claims| >= MAX_SEEN && key !in claims
  }

  predicate Oldest(claims: map<string, Seen>, victim: string) {
    victim in claims && forall k :: k in claims ==> claims[victim].seenAt <= claims[k].seenAt
  }

  function Evicted(claims: map<string, Seen>, key: string, victim: string): map<string, Seen> {
    if Overfull(claims, key) then claims - {victim} else claims
  }

  // ---- steps ----

  predicate HoldsPermit(x: Lane) {
    x.Reserved? || x.Opened? || x.Owner? || x.Waiter?
  }

  predicate Claimable(x: Lane, chans: seq<Channel>) {
    x.Opened? || (x.Waiter? && StateOf(chans, x.chan) == Dead)
  }

  function PastOf(x: Lane): seq<nat> {
    match x
    case Waiter(_, c, past) => past + [c]
    case _ => []
  }

  predicate Enabled(s: Sys, l: Label) {
    match l
    case Tick(_) => true
    case Reserve(n) => n !in s.lanes && s.free > 0
    case Open(n, req) =>
      n in s.lanes && s.lanes[n].Reserved? && ValidId(req.id) && TimelyAt(req.body, s.now)
    case Claim(n, victim) =>
      && n in s.lanes && Claimable(s.lanes[n], s.chans)
      && var claims := Pruned(s.claims, s.now);
         CaseOf(claims, s.chans, s.lanes[n].req).Own? && Overfull(claims, Key(s.lanes[n].req))
         ==> Oldest(claims, victim)
    case Relay(n) =>
      && n in s.lanes && s.lanes[n].Waiter?
      && StateOf(s.chans, s.lanes[n].chan).Answered?
    case Expire(n) =>
      n in s.lanes && s.lanes[n].Waiter? && s.lanes[n].req.body.expiresAt <= s.now
    case Prompt(n) =>
      && n in s.lanes && s.lanes[n].Owner? && !s.lanes[n].prompting
      && s.now < s.lanes[n].req.body.expiresAt
    case Record(n, outcome) =>
      && n in s.lanes && s.lanes[n].Owner? && s.lanes[n].prompting
      && (outcome.Verdict? ==> outcome.kind == s.lanes[n].req.kind)
    case Drop(n) => n in s.lanes && HoldsPermit(s.lanes[n])
  }

  /** A lane that stops holding a permit gives it back. */
  function Settle(s: Sys, n: nat, x: Lane): Sys {
    s.(lanes := s.lanes[n := x],
       free := if !HoldsPermit(x) then s.free + 1 else s.free)
  }

  function SetState(chans: seq<Channel>, c: nat, st: ChanState): seq<Channel> {
    if c < |chans| then chans[c := chans[c].(state := st)] else chans
  }

  function Delivery(req: Req, outcome: Outcome): Lane {
    if outcome.Verdict? && outcome.kind == req.kind then Delivered(req, outcome) else Over
  }

  function Claimed(s: Sys, n: nat, victim: string): Sys
    requires Enabled(s, Claim(n, victim))
  {
    var x := s.lanes[n];
    var k := Key(x.req);
    var claims := Pruned(s.claims, s.now);
    match CaseOf(claims, s.chans, x.req)
    case Duplicate => Settle(s.(claims := claims), n, Over)
    case Attach =>
      s.(claims := claims[k := claims[k].(attached := true)],
         lanes := s.lanes[n := Waiter(x.req, claims[k].chan, PastOf(x))])
    case Own =>
      s.(claims := Evicted(claims, k, victim)[k := Seen(s.now, x.req.body, |s.chans|, false)],
         chans := s.chans + [Channel(x.req, Live)],
         lanes := s.lanes[n := Owner(x.req, |s.chans|, false, PastOf(x))],
         evicted := if Overfull(claims, k) then s.evicted + {victim} else s.evicted)
  }

  function Next(s: Sys, l: Label): Sys
    requires Enabled(s, l)
  {
    match l
    case Tick(delta) => s.(now := s.now + delta)
    case Reserve(n) => s.(lanes := s.lanes[n := Reserved], free := s.free - 1)
    case Open(n, req) => s.(lanes := s.lanes[n := Opened(req)])
    case Claim(n, victim) => Claimed(s, n, victim)
    case Relay(n) =>
      Settle(s, n, Delivery(s.lanes[n].req, StateOf(s.chans, s.lanes[n].chan).outcome))
    case Expire(n) => Settle(s, n, Over)
    case Prompt(n) => s.(lanes := s.lanes[n := s.lanes[n].(prompting := true)])
    case Record(n, outcome) =>
      var x := s.lanes[n];
      Settle(s.(chans := SetState(s.chans, x.chan, Answered(outcome)),
                answers := s.answers + [Answer(x.req, outcome)]),
             n, Delivery(x.req, outcome))
    case Drop(n) =>
      var x := s.lanes[n];
      Settle(if x.Owner? then s.(chans := SetState(s.chans, x.chan, Dead)) else s, n, Over)
  }

  predicate Init(s: Sys) {
    s == Sys(s.now, MAX_IN_FLIGHT, map[], [], map[], [], {})
  }

  // ---- what every reachable state keeps ----

  predicate InChans(s: Sys, c: nat, req: Req) {
    c < |s.chans| && s.chans[c].req == req
  }

  ghost predicate ClaimOk(s: Sys, k: string)
    requires k in s.claims
  {
    var seen := s.claims[k];
    && seen.chan < |s.chans|
    && Key(s.chans[seen.chan].req) == k
    && s.chans[seen.chan].req.body == seen.body
    && seen.seenAt <= s.now
    && seen.body.expiresAt <= seen.seenAt + RETENTION
  }

  ghost predicate ChanOk(s: Sys, c: nat)
    requires c < |s.chans|
  {
    && ValidId(s.chans[c].req.id)
    && (s.chans[c].state.Answered? ==>
          && Answer(s.chans[c].req, s.chans[c].state.outcome) in s.answers
          && (s.chans[c].state.outcome.Verdict? ==> s.chans[c].state.outcome.kind == s.chans[c].req.kind))
  }

  /** The owner generations a lane waited on: each died, each is older than the next. */
  ghost predicate PastOk(s: Sys, past: seq<nat>, chan: nat, key: string) {
    && (forall i :: 0 <= i < |past| ==>
          past[i] < chan && past[i] < |s.chans| && s.chans[past[i]].state == Dead
          && Key(s.chans[past[i]].req) == key)
    && (forall i, j :: 0 <= i < j < |past| ==> past[i] < past[j])
  }

  ghost predicate ReqOk(s: Sys, req: Req) {
    ValidId(req.id) && req.body.expiresAt <= s.now + RETENTION
  }

  ghost predicate OwnerOk(s: Sys, req: Req, c: nat, prompting: bool) {
    && InChans(s, c, req) && s.chans[c].state == Live
    && (Key(req) !in s.evicted && s.now < req.body.expiresAt ==>
          Key(req) in s.claims && s.claims[Key(req)].chan == c)
    && (prompting && Key(req) !in s.evicted ==>
          forall a :: a in s.answers ==> a.req != req)
  }

  ghost predicate WaiterOk(s: Sys, req: Req, c: nat) {
    && InChans(s, c, req)
    && (Key(req) in s.claims ==>
          c < s.claims[Key(req)].chan || (c == s.claims[Key(req)].chan && s.claims[Key(req)].attached))
  }

  ghost predicate LaneOk(s: Sys, x: Lane) {
    match x
    case Opened(req) => ReqOk(s, req)
    case Owner(req, c, prompting, past) =>
      ReqOk(s, req) && OwnerOk(s, req, c, prompting) && PastOk(s, past, c, Key(req))
    case Waiter(req, c, past) =>
      ReqOk(s, req) && WaiterOk(s, req, c) && PastOk(s, past, c, Key(req))
    case Delivered(req, outcome) =>
      Answer(req, outcome) in s.answers && outcome.Verdict? && outcome.kind == req.kind
    case _ => true
  }

  /** A recorded answer stays on the table until its request has expired. */
  ghost predicate AnswerOk(s: Sys, a: Answer) {
    Key(a.req) !in s.evicted && s.now < a.req.body.expiresAt ==>
      && Key(a.req) in s.claims
      && s.claims[Key(a.req)].body == a.req.body
      && StateOf(s.chans, s.claims[Key(a.req)].chan) == Answered(a.outcome)
  }

  ghost predicate Apart(s: Sys, x: Lane, y: Lane) {
    && (x.Owner? && y.Owner? ==> x.chan != y.chan)
    && (x.Waiter? && y.Waiter? ==> x.chan != y.chan)
    && (x.Owner? && y.Owner? && x.prompting && y.prompting && x.req == y.req ==> Key(x.req) in s.evicted)
  }

  ghost function Holding(lanes: map<nat, Lane>): set<nat> {
    set n | n in lanes && HoldsPermit(lanes[n])
  }

  ghost predicate TableOk(s: Sys) {
    && (forall k :: k in s.claims ==> ClaimOk(s, k))
    && (forall c: nat :: c < |s.chans| ==> ChanOk(s, c))
    && |s.claims| <= MAX_SEEN
  }

  ghost predicate LanesOk(s: Sys) {
    && (forall n :: n in s.lanes ==> LaneOk(s, s.lanes[n]))
    && (forall m, n :: m in s.lanes && n in s.lanes && m != n ==> Apart(s, s.lanes[m], s.lanes[n]))
    && s.free + |Holding(s.lanes)| == MAX_IN_FLIGHT
  }

  ghost predicate AnswersOk(s: Sys) {
    && (forall a :: a in s.answers ==> AnswerOk(s, a))
    && (forall i, j :: 0 <= i < j < |s.answers| && s.answers[i].req == s.answers[j].req
          ==> Key(s.answers[i].req) in s.evicted)
  }

  ghost predicate Inv(s: Sys) {
    TableOk(s) && LanesOk(s) && AnswersOk(s)
  }

  lemma InitInv(s: Sys)
    requires Init(s)
    ensures Inv(s)
  {
  }
}
