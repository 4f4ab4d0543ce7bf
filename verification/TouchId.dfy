// The Touch ID prompt: numbered cancellation, deadline timers that cannot always be
// stopped, and signers on their own threads (agent/src/touchid.rs, enclave/src/mac.rs).
module TouchId {
  import opened Prelude

  const MODULUS: nat := U64_MAX + 1

  // ---- the canceller ----

  /** `CancelState`. A context is named after the ask whose signer created it. */
  datatype Canceller = Canceller(attempt: nat, context: Option<nat>, cancelled: bool)

  function Begun(c: Canceller): Canceller {
    Canceller((c.attempt + 1) % MODULUS, None, false)
  }

  function Cancelled(c: Canceller, attempt: nat): Canceller {
    if c.attempt == attempt then c.(cancelled := true) else c
  }

  /** The contexts a cancellation invalidates. */
  function HitBy(c: Canceller, attempt: nat): set<nat> {
    if c.attempt == attempt && c.context.Some? then {c.context.value} else {}
  }

  function Armed(c: Canceller, context: nat): Canceller {
    c.(context := Some(context))
  }

  function HitOnArm(c: Canceller, context: nat): set<nat> {
    if c.cancelled then {context} else {}
  }

  function Disarmed(c: Canceller): Canceller {
    c.(context := None)
  }

  /** `PromptCanceller`, updated in place; `invalid` is what reached `LAContext::invalidate`. */
  class PromptCanceller {
    var attempt: nat
    var context: Option<nat>
    var cancelled: bool
    var invalid: set<nat>

    function State(): Canceller
      reads this
    {
      Canceller(attempt, context, cancelled)
    }

    constructor ()
      ensures State() == Canceller(0, None, false) && invalid == {}
    {
      attempt, context, cancelled, invalid := 0, None, false, {};
    }

    method Begin() returns (number: nat)
      modifies this`attempt, this`context, this`cancelled
      ensures State() == Begun(old(State())) && number == attempt
    {
      attempt := (attempt + 1) % MODULUS;
      context := None;
      cancelled := false;
      number := attempt;
    }

    method Cancel(number: nat)
      modifies this`cancelled, this`invalid
      ensures State() == Cancelled(old(State()), number)
      ensures invalid == old(invalid) + HitBy(old(State()), number)
    {
      if attempt != number {
        return;
      }
      cancelled := true;
      if context.Some? {
        invalid := invalid + {context.value};
      }
    }

    method Arm(ctx: nat)
      modifies this`context, this`invalid
      ensures State() == Armed(old(State()), ctx)
      ensures invalid == old(invalid) + HitOnArm(old(State()), ctx)
    {
      if cancelled {
        invalid := invalid + {ctx};
      }
      context := Some(ctx);
    }

    method Disarm()
      modifies this`context
      ensures State() == Disarmed(old(State()))
    {
      context := None;
    }
  }

  // ---- waiting for the screen ----

  /** One look at the clock and the screen. */
  datatype Reading = Reading(now: int, locked: bool)

  datatype Poll = Raise(at: nat) | TooLate(at: nat) | StillWaiting

  /** The poll loop: a sheet goes up at the first unlocked look that still has time left. */
  method AwaitScreen(readings: seq<Reading>, expiresAt: int) returns (p: Poll)
    ensures p.Raise? ==> p.at < |readings| && !readings[p.at].locked && readings[p.at].now < expiresAt
    ensures p.TooLate? ==> p.at < |readings| && expiresAt <= readings[p.at].now
    ensures var stop := if p.StillWaiting? then |readings| else p.at;
            forall i :: 0 <= i < stop ==> readings[i].locked && readings[i].now < expiresAt
  {
    var i := 0;
    while i < |readings|
      invariant 0 <= i <= |readings|
      invariant forall j :: 0 <= j < i ==> readings[j].locked && readings[j].now < expiresAt
    {
      if expiresAt <= readings[i].now {
        return TooLate(i);
      }
      if !readings[i].locked {
        return Raise(i);
      }
      i := i + 1;
    }
    p := StillWaiting;
  }

  // ---- asks, timers and signers ----

  datatype Answer = Signature | Dismissed | Fault

  datatype Outcome = Approved | Denied | Expired | Error

  datatype Phase = Waiting | Polling | Signing | Settling | Done(outcome: Outcome) | Dropped

  /** The deadline task: it can be aborted only while it sleeps. */
  datatype Timer = Unset | Sleeping | Woken | Stored | Spent | Aborted

  datatype Signer = Idle | Started | Showing | Answered(answer: Answer) | Returned(answer: Answer)

  datatype Ask = Ask(expiresAt: int, phase: Phase, begun: nat, timer: Timer, signer: Signer, expired: bool)

  datatype Sys = Sys(
    now: int,
    locked: bool,
    holder: Option<nat>,       // who holds the sheet mutex
    begins: nat,               // how many attempts have begun
    canceller: Canceller,
    asks: map<nat, Ask>,
    invalid: set<nat>)         // asks whose context was invalidated

  datatype Label =
    | Tick(delta: nat)
    | Screen(locked: bool)
    | Enter(i: nat, expiresAt: int)
    | Acquire(i: nat)
    | GiveUp(i: nat)
    | Begin(i: nat)
    | Wake(i: nat)
    | Store(i: nat)
    | Cancel(i: nat)
    | Fail(i: nat)             // the key cannot be had, or is not the paired one
    | Arm(i: nat)
    | Respond(i: nat, answer: Answer)
    | Disarm(i: nat)
    | Join(i: nat)
    | Conclude(i: nat)
    | Drop(i: nat)

  predicate Has(s: Sys, i: nat, phase: Phase) {
    i in s.asks && s.asks[i].phase == phase
  }

  predicate Enabled(s: Sys, l: Label) {
    match l
    case Tick(_) => true
    case Screen(_) => true
    case Enter(i, _) => i !in s.asks
    case Acquire(i) => Has(s, i, Waiting) && s.holder.None?
    case GiveUp(i) => Has(s, i, Polling) && s.asks[i].expiresAt <= s.now
    case Begin(i) => Has(s, i, Polling) && s.now < s.asks[i].expiresAt && !s.locked
    case Wake(i) => i in s.asks && s.asks[i].timer.Sleeping? && s.asks[i].expiresAt <= s.now
    case Store(i) => i in s.asks && s.asks[i].timer.Woken?
    case Cancel(i) => i in s.asks && s.asks[i].timer.Stored?
    case Fail(i) => i in s.asks && s.asks[i].signer.Started?
    case Arm(i) => i in s.asks && s.asks[i].signer.Started?
    case Respond(i, answer) =>
      && i in s.asks && s.asks[i].signer.Showing?
      && (i in s.invalid ==> !answer.Signature?)
    case Disarm(i) => i in s.asks && s.asks[i].signer.Answered?
    case Join(i) => Has(s, i, Signing) && s.asks[i].signer.Returned?
    case Conclude(i) => Has(s, i, Settling) && s.asks[i].signer.Returned?
    case Drop(i) => i in s.asks && (s.asks[i].phase.Waiting? || s.asks[i].phase.Polling? || s.asks[i].phase.Signing?)
  }

  function With(s: Sys, i: nat, a: Ask): Sys {
    s.(asks := s.asks[i := a])
  }

  function OutcomeOf(a: Ask): Outcome
    requires a.signer.Returned?
  {
    if a.expired then Expired
    else match a.signer.answer
      case Signature => Approved
      case Dismissed => Denied
      case Fault => Error
  }

  function Number(a: Ask): nat {
    a.begun % MODULUS
  }

  /** A dropped prompt cancels its own attempt and lets go of the sheet; its signer runs on. */
  function DropAsk(s: Sys, i: nat): Sys
    requires i in s.asks
  {
    var a := s.asks[i];
    var t := With(s, i, a.(phase := Dropped));
    if a.phase.Signing? then
      t.(canceller := Cancelled(s.canceller, Number(a)),
         invalid := s.invalid + HitBy(s.canceller, Number(a)),
         holder := None)
    else t.(holder := if a.phase.Polling? then None else s.holder)
  }

  function Next(s: Sys, l: Label): Sys
    requires Enabled(s, l)
  {
    match l
    case Tick(delta) => s.(now := s.now + delta)
    case Screen(locked) => s.(locked := locked)
    case Enter(i, expiresAt) => With(s, i, Ask(expiresAt, Waiting, 0, Unset, Idle, false))
    case Acquire(i) => With(s, i, s.asks[i].(phase := Polling)).(holder := Some(i))
    case GiveUp(i) => With(s, i, s.asks[i].(phase := Done(Expired))).(holder := None)
    case Begin(i) =>
      With(s, i, s.asks[i].(phase := Signing, begun := s.begins + 1, timer := Sleeping, signer := Started))
        .(begins := s.begins + 1, canceller := Begun(s.canceller))
    case Wake(i) => With(s, i, s.asks[i].(timer := Woken))
    case Store(i) => With(s, i, s.asks[i].(timer := Stored, expired := true))
    case Cancel(i) =>
      With(s, i, s.asks[i].(timer := Spent))
        .(canceller := Cancelled(s.canceller, Number(s.asks[i])),
          invalid := s.invalid + HitBy(s.canceller, Number(s.asks[i])))
    case Fail(i) => With(s, i, s.asks[i].(signer := Returned(Fault)))
    case Arm(i) =>
      With(s, i, s.asks[i].(signer := Showing))
        .(canceller := Armed(s.canceller, i), invalid := s.invalid + HitOnArm(s.canceller, i))
    case Respond(i, answer) => With(s, i, s.asks[i].(signer := Answered(answer)))
    case Disarm(i) =>
      With(s, i, s.asks[i].(signer := Returned(s.asks[i].signer.answer))).(canceller := Disarmed(s.canceller))
    case Join(i) =>
      With(s, i, s.asks[i].(phase := Settling,
                            timer := if s.asks[i].timer.Sleeping? then Aborted else s.asks[i].timer))
    case Conclude(i) => With(s, i, s.asks[i].(phase := Done(OutcomeOf(s.asks[i])))).(holder := None)
    case Drop(i) => DropAsk(s, i)
  }

  predicate Init(s: Sys) {
    s == Sys(s.now, s.locked, None, 0, Canceller(0, None, false), map[], {})
  }

  // ---- what every reachable state keeps ----

  predicate Running(a: Ask) {
    a.signer.Started? || a.signer.Showing? || a.signer.Answered?
  }

  predicate Live(a: Ask) {
    a.phase.Signing? || a.phase.Settling?
  }

  /** What one ask says about itself. */
  predicate AskOk(s: Sys, i: nat, a: Ask) {
    && (a.phase.Polling? || Live(a) <==> s.holder == Some(i))
    && a.begun <= s.begins
    && (a.begun == 0 <==> a.signer.Idle?)
    && (a.begun == 0 ==> a.timer.Unset? && !a.expired && i !in s.invalid)
    && (a.phase.Waiting? || a.phase.Polling? ==> a.begun == 0)
    && (Live(a) ==> a.begun == s.begins > 0)
    && (a.timer.Stored? || a.timer.Spent? ==> a.expired)
    && (s.canceller.context == Some(i) ==> a.signer.Showing? || a.signer.Answered?)
    && (a.signer.Started? ==> i !in s.invalid)
    && (Live(a) && i in s.invalid ==> a.timer.Spent?)
    && (Live(a) ==> (s.canceller.cancelled <==> a.timer.Spent?))
    && (a.phase.Done? ==> a.signer.Idle? || a.signer.Returned?)
    && (a.phase.Done? && i in s.invalid ==> a.phase == Done(Expired))
    && (a.phase == Done(Denied) ==> a.signer == Returned(Dismissed))
    && (a.phase == Done(Approved) ==> a.signer == Returned(Signature))
    && (a.phase.Settling? ==> a.signer.Returned?)
  }

  ghost predicate DistinctBegins(asks: map<nat, Ask>) {
    forall i, j :: i in asks && j in asks && i != j && asks[i].begun > 0 ==> asks[i].begun != asks[j].begun
  }

  ghost predicate Inv(s: Sys) {
    && s.canceller.attempt == s.begins % MODULUS
    && (s.holder.Some? ==> s.holder.value in s.asks)
    && (s.canceller.context.Some? ==> s.canceller.context.value in s.asks)
    && (forall i :: i in s.asks ==> AskOk(s, i, s.asks[i]))
    && (forall i :: i in s.invalid ==> i in s.asks)
    && DistinctBegins(s.asks)
  }

  /** Attempt numbers have not wrapped. */
  predicate Bounded(s: Sys) {
    s.begins <= U64_MAX
  }

  lemma NumbersDistinct(s: Sys, a: Ask, b: Ask)
    requires Bounded(s) && 0 < a.begun <= s.begins && 0 < b.begun <= s.begins
    ensures Number(a) == Number(b) <==> a.begun == b.begun
    ensures Number(a) == s.begins % MODULUS <==> a.begun == s.begins
  {
  }
}
