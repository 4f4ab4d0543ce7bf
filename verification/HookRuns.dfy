// Whole lanes: every exit status traced back to a delivered decision.
module HookRuns {
  import opened Prelude
  import opened Records
  import opened Verdicts
  import opened HookLanes
  import opened HookLaws
  import S = Socket
  import SL = SocketLaws
  import A = Admission

  // ---- the first valid candidate wins ----

  ghost predicate Discarded<D>(item: Item<D>, apply: (D, Moment) -> Result) {
    item.Candidate? && !item.at.overran && apply(item.decision, item.at) == Failed(Invalid)
  }

  /** Any number of discarded candidates, anywhere in the stream, change nothing. */
  lemma {:induction false} DiscardedChangeNothing<D>(before: seq<Item<D>>, forged: seq<Item<D>>, after: seq<Item<D>>,
                                                     apply: (D, Moment) -> Result)
    requires forall i :: 0 <= i < |forged| ==> Discarded(forged[i], apply)
    ensures FirstValid(before + forged + after, apply) == FirstValid(before + after, apply)
    decreases |before| + |forged|
  {
    if before != [] {
      assert (before + forged + after)[1..] == before[1..] + forged + after;
      assert (before + after)[1..] == before[1..] + after;
      DiscardedChangeNothing(before[1..], forged, after, apply);
    } else if forged != [] {
      assert before + forged + after == forged + after && before + after == after;
      assert (forged + after)[1..] == forged[1..] + after;
      assert before + forged[1..] + after == forged[1..] + after;
      DiscardedChangeNothing(before, forged[1..], after, apply);
    } else {
      assert before + forged + after == before + after;
    }
  }

  lemma {:induction false} FirstAfterDiscarded<D>(forged: seq<Item<D>>, x: D, m: Moment, after: seq<Item<D>>,
                                                  apply: (D, Moment) -> Result)
    requires forall i :: 0 <= i < |forged| ==> Discarded(forged[i], apply)
    requires !m.overran && apply(x, m) != Failed(Invalid)
    ensures FirstValid(forged + ([Candidate(x, m)] + after), apply) == apply(x, m)
  {
    var rest := [Candidate(x, m)] + after;
    if forged == [] {
      assert forged + rest == rest;
    } else {
      assert (forged + rest)[1..] == forged[1..] + rest;
      FirstAfterDiscarded(forged[1..], x, m, after, apply);
    }
  }

  /** The stream's result is that of its first item that is not discarded. */
  lemma {:induction false} FirstKept<D>(items: seq<Item<D>>, apply: (D, Moment) -> Result) returns (k: nat)
    ensures k <= |items| && forall i :: 0 <= i < k ==> Discarded(items[i], apply)
    ensures FirstValid(items, apply) ==
            if k == |items| then Failed(Unavailable)
            else if items[k].Breaks? then Failed(Transport)
            else if items[k].at.overran then Failed(Unavailable)
            else apply(items[k].decision, items[k].at)
    ensures k < |items| ==> !Discarded(items[k], apply)
  {
    if items == [] || !Discarded(items[0], apply) {
      k := 0;
    } else {
      var rest := FirstKept(items[1..], apply);
      k := rest + 1;
      forall i | 0 <= i < k
        ensures Discarded(items[i], apply)
      {
        assert i > 0 ==> items[i] == items[1..][i - 1];
      }
      assert k < |items| ==> items[k] == items[1..][rest];
    }
  }

  // ---- the command lane ----

  /** The request as the lane carries it once the snapshot is taken. */
  ghost function Carried(w: World<Decision>, request: Context): Context
    requires w.snapshot.Some?
  {
    request.(devices := ActiveDevices(w.snapshot.value.devices), epoch := w.snapshot.value.epoch)
  }

  ghost predicate Deliverable(w: World<Decision>, request: Context) {
    A.ValidId(request.id) && (w.snapshot.Some? ==> ValidRegistry(w.snapshot.value))
  }

  lemma {:induction false} ActiveStayDistinct(ds: seq<Record>)
    requires Distinct(ds)
    ensures Distinct(ActiveDevices(ds))
  {
    if ds != [] {
      ActiveStayDistinct(ds[1..]);
      HeadStaysDistinct(ds, ActiveDevices(ds[1..]));
    }
  }

  /** Filtering keeps the registry's order: it goes piece by piece. */
  lemma {:induction false} ActiveInOrder(a: seq<Record>, b: seq<Record>)
    ensures ActiveDevices(a + b) == ActiveDevices(a) + ActiveDevices(b)
  {
    if a == [] {
      assert a + b == b;
    } else {
      assert (a + b)[1..] == a[1..] + b;
      ActiveInOrder(a[1..], b);
    }
  }

  lemma CarriedIsSound(w: World<Decision>, request: Context)
    requires Deliverable(w, request) && w.snapshot.Some?
    ensures Sound(Carried(w, request))
  {
    ActiveStayDistinct(w.snapshot.value.devices);
  }

  /** The sealed request, of legal size: anything larger is refused while sealing. */
  ghost predicate Envelops<D>(w: World<D>, payload: seq<S.Octet>) {
    w.envelope == Some(payload) && |payload| <= 3145728
  }

  /**
    A transport handed this decision to the hook, to be checked at this moment: an agent that
    was reached and acknowledged sent it on the socket, or nobody took the request there and it
    is among the candidates on NATS.
   */
  ghost predicate Handed<D>(w: World<D>, id: string, x: D, lane: Lane, m: Moment) {
    && w.nats.Some? && (exists payload :: Envelops(w, payload))
    && match lane
       case SocketLane => m == w.at && exists bytes :: SocketCarries(w, id, bytes) && w.verdict(bytes) == Some(x)
       case NatsLane =>
         && SL.NobodyTookIt(w.peer, w.start, w.deadline, w.decode, id) && w.nats.value
         && w.stream.Streams? && Candidate(x, m) in w.stream.items
  }

  /** After a timely acknowledgement the wire brings these bytes as its verdict. */
  ghost predicate SocketCarries<D>(w: World<D>, id: string, bytes: seq<S.Octet>) {
    && w.peer.config == Some(true) && SL.Reached(w.peer, w.start, w.deadline)
    && exists next :: SL.AckedWith(w.peer, w.deadline, w.decode, id, next)
                      && S.VerdictPhase(next, w.peer.end, w.deadline, w.decode) == S.Verdict(bytes)
  }

  lemma SealedIsEnvelope<D>(w: World<D>, payload: seq<S.Octet>)
    ensures Sealed(w) == Some(payload) <==> Envelops(w, payload)
  {
  }

  /** The socket's part, as the attempt reports it. */
  lemma CarriesIff<D>(w: World<D>, id: string, payload: seq<S.Octet>, bytes: seq<S.Octet>)
    requires Envelops(w, payload)
    ensures var o := S.Attempt(w.peer, w.start, w.deadline, payload, w.decode, id);
            && (SocketCarries(w, id, bytes) <==> o == S.Verdict(bytes))
            && (SL.NobodyTookIt(w.peer, w.start, w.deadline, w.decode, id) <==> o.Unconfigured? || o.NoAgent? || o.NoAck?)
  {
    SL.AttemptMeaning(w.peer, w.start, w.deadline, payload, w.decode, id);
  }

  /** When nobody took the request on the socket, whatever the reason, NATS decides. */
  lemma FallsBack<D>(w: World<D>, id: string, payload: seq<S.Octet>, repeatsCheck: bool,
                     socketApply: (D, Moment) -> Result, natsApply: (D, Moment) -> Result)
    requires w.nats.Some? && Envelops(w, payload) && SL.NobodyTookIt(w.peer, w.start, w.deadline, w.decode, id)
    ensures Transported(w, id, payload, repeatsCheck, socketApply, natsApply) ==
            if !w.nats.value then Failed(Unavailable)
            else match w.stream
              case Unreachable(transport) => Failed(if transport then Transport else Unavailable)
              case Streams(items) => FirstValid(items, natsApply)
  {
    CarriesIff(w, id, payload, []);
  }

  /** When an agent took it, NATS is never asked. */
  lemma DoesNotFallBack<D>(w: World<D>, other: Nats<D>, id: string, payload: seq<S.Octet>, repeatsCheck: bool,
                           socketApply: (D, Moment) -> Result, natsApply: (D, Moment) -> Result)
    requires w.nats.Some? && Envelops(w, payload) && !SL.NobodyTookIt(w.peer, w.start, w.deadline, w.decode, id)
    ensures Transported(w, id, payload, repeatsCheck, socketApply, natsApply)
         == Transported(w.(stream := other), id, payload, repeatsCheck, socketApply, natsApply)
  {
    CarriesIff(w, id, payload, []);
  }

  /** The one that settles the lane: what the socket carried, or the first NATS candidate not discarded. */
  ghost predicate Deciding<D>(w: World<D>, id: string, x: D, lane: Lane, m: Moment, natsApply: (D, Moment) -> Result) {
    && Handed(w, id, x, lane, m)
    && (lane == NatsLane ==> exists k: nat :: FirstAt(w.stream.items, k, x, m, natsApply))
  }

  ghost predicate FirstAt<D>(items: seq<Item<D>>, k: nat, x: D, m: Moment, apply: (D, Moment) -> Result) {
    && k < |items| && items[k] == Candidate(x, m) && !m.overran && apply(x, m) != Failed(Invalid)
    && forall i :: 0 <= i < k ==> Discarded(items[i], apply)
  }

  /** The lane's result is a fault of the transports or of the host, or that of the deciding decision. */
  lemma TransportedMeaning<D>(w: World<D>, id: string, repeatsCheck: bool,
                              socketApply: (D, Moment) -> Result, natsApply: (D, Moment) -> Result)
    returns (x: Option<D>, lane: Lane, m: Moment)
    requires w.nats.Some? && Sealed(w).Some?
    ensures var r := Transported(w, id, Sealed(w).value, repeatsCheck, socketApply, natsApply);
            match x
            case None => r == Failed(Unavailable) || r == Failed(Transport)
            case Some(d) => Deciding(w, id, d, lane, m, natsApply)
                            && (r == if lane == SocketLane then SocketOutcome(socketApply(d, m)) else natsApply(d, m))
                            && r != Failed(Invalid)
  {
    x, lane, m := None, NatsLane, w.at;
    var payload := Sealed(w).value;
    SealedIsEnvelope(w, payload);
    var outcome := S.Attempt(w.peer, w.start, w.deadline, payload, w.decode, id);
    CarriesIff(w, id, payload, if outcome.Verdict? then outcome.bytes else []);
    if outcome.Verdict? {
      x, lane := w.verdict(outcome.bytes), SocketLane;
    } else if (outcome.Unconfigured? || outcome.NoAgent? || outcome.NoAck?) && w.nats.value && w.stream.Streams? {
      var items := w.stream.items;
      var k := FirstKept(items, natsApply);
      if k < |items| && items[k].Candidate? && !items[k].at.overran {
        x, m := Some(items[k].decision), items[k].at;
        assert items[k] in items;
        assert FirstAt(items, k, x.value, m, natsApply);
      }
    }
  }

  /** Conversely the deciding decision's own result is the lane's. */
  lemma DecidingDecides<D>(w: World<D>, id: string, repeatsCheck: bool, x: D, lane: Lane, m: Moment,
                           socketApply: (D, Moment) -> Result, natsApply: (D, Moment) -> Result)
    requires Deciding(w, id, x, lane, m, natsApply)
    ensures Sealed(w).Some?
    ensures Transported(w, id, Sealed(w).value, repeatsCheck, socketApply, natsApply)
         == if lane == SocketLane then SocketOutcome(socketApply(x, m)) else natsApply(x, m)
  {
    var payload :| Envelops(w, payload);
    SealedIsEnvelope(w, payload);
    if lane == SocketLane {
      var bytes :| SocketCarries(w, id, bytes) && w.verdict(bytes) == Some(x);
      CarriesIff(w, id, payload, bytes);
    } else {
      CarriesIff(w, id, payload, []);
      var items := w.stream.items;
      var k: nat :| FirstAt(items, k, x, m, natsApply);
      var first := FirstKept(items, natsApply);
      assert !Discarded(items[k], natsApply);
      assert first == k;
    }
  }

  ghost predicate CommandDecides(w: World<Decision>, request: Context, x: Decision, lane: Lane, m: Moment) {
    w.serialized && w.snapshot.Some? && Deciding(w, request.id, x, lane, m, CommandApply(NatsLane, Carried(w, request)))
  }

  /** The command lane's result for the decision that settles it. */
  lemma CommandResult(w: World<Decision>, request: Context, x: Decision, lane: Lane, m: Moment)
    requires CommandDecides(w, request, x, lane, m) && Carried(w, request).devices != []
    ensures CommandLane(w, request) ==
            if lane == SocketLane then SocketOutcome(ApplyCommand(x, lane, Carried(w, request), m))
            else ApplyCommand(x, lane, Carried(w, request), m)
  {
    var c := Carried(w, request);
    DecidingDecides(w, c.id, true, x, lane, m, CommandApply(SocketLane, c), CommandApply(NatsLane, c));
  }

  lemma CommandSettles(w: World<Decision>, request: Context) returns (x: Decision, lane: Lane, m: Moment)
    requires Deliverable(w, request) && ExitCode(CommandLane(w, request)) < 2
    ensures CommandDecides(w, request, x, lane, m)
    ensures CommandLane(w, request) == ApplyCommand(x, lane, Carried(w, request), m)
  {
    var c := Carried(w, request);
    var settled;
    settled, lane, m := TransportedMeaning(w, c.id, true, CommandApply(SocketLane, c), CommandApply(NatsLane, c));
    x := settled.value;
  }

  /**
    Exit 0 on the command lane, exactly: the decision that settles the lane is an approval
    made by a device active in the snapshot, unexpired, and past the gate on the same epoch
    with that device still active.
   */
  lemma CommandExitZeroIff(w: World<Decision>, request: Context)
    requires Deliverable(w, request)
    ensures ExitCode(CommandLane(w, request)) == 0 <==>
            exists x, d, lane, m :: CommandDecides(w, request, x, lane, m) && Approves(x, d, lane, Carried(w, request), m)
  {
    if ExitCode(CommandLane(w, request)) == 0 {
      var x, lane, m := CommandSettles(w, request);
      CarriedIsSound(w, request);
      GrantedIff(x, lane, Carried(w, request), m);
    }
    if x, d, lane, m :| CommandDecides(w, request, x, lane, m) && Approves(x, d, lane, Carried(w, request), m) {
      CarriedIsSound(w, request);
      GrantedIff(x, lane, Carried(w, request), m);
      CommandResult(w, request, x, lane, m);
    }
  }

  /**
    Exit 1, exactly: the decision that settles the lane was made by a device active in the
    snapshot, and it denies, or came too late, or is refused at the gate. Nothing unauthenticated denies.
   */
  lemma CommandExitOneIff(w: World<Decision>, request: Context)
    requires Deliverable(w, request)
    ensures ExitCode(CommandLane(w, request)) == 1 <==>
            exists x, d, lane, m :: CommandDecides(w, request, x, lane, m) && Denies(x, d, lane, Carried(w, request), m)
  {
    if ExitCode(CommandLane(w, request)) == 1 {
      var x, lane, m := CommandSettles(w, request);
      CarriedIsSound(w, request);
      DeniedIff(x, lane, Carried(w, request), m);
    }
    if x, d, lane, m :| CommandDecides(w, request, x, lane, m) && Denies(x, d, lane, Carried(w, request), m) {
      CarriedIsSound(w, request);
      DeniedIff(x, lane, Carried(w, request), m);
      CommandResult(w, request, x, lane, m);
    }
  }

  /** Without one authentic decision among those handed over, the hook neither approves nor denies. */
  lemma ForgersCannotDecide(w: World<Decision>, request: Context)
    requires Deliverable(w, request) && w.snapshot.Some?
    requires forall x, lane, m :: Handed(w, request.id, x, lane, m) ==> !Authentic(x, lane, Carried(w, request), m)
    ensures ExitCode(CommandLane(w, request)) == 2
  {
    CommandExitZeroIff(w, request);
    CommandExitOneIff(w, request);
  }

  /** Candidates no device made, checked in time and checkable. */
  ghost predicate Forged(item: Item<Decision>, c: Context) {
    && item.Candidate? && !item.at.overran
    && !Authentic(item.decision, NatsLane, c, item.at) && !Uncheckable(item.decision, c, item.at)
  }

  lemma ForgedIsDiscarded(item: Item<Decision>, c: Context)
    requires Sound(c) && Forged(item, c)
    ensures Discarded(item, CommandApply(NatsLane, c))
  {
    DiscardedIff(item.decision, NatsLane, c, item.at);
  }

  /** On NATS the first authentic candidate decides, whatever was forged before it and whatever follows. */
  lemma FirstAuthenticDecides(c: Context, forged: seq<Item<Decision>>, x: Decision, m: Moment, after: seq<Item<Decision>>)
    requires Sound(c) && Authentic(x, NatsLane, c, m) && !m.overran
    requires forall i :: 0 <= i < |forged| ==> Forged(forged[i], c)
    ensures FirstValid(forged + ([Candidate(x, m)] + after), CommandApply(NatsLane, c)) == ApplyCommand(x, NatsLane, c, m)
  {
    var apply := CommandApply(NatsLane, c);
    forall i | 0 <= i < |forged|
      ensures Discarded(forged[i], apply)
    {
      ForgedIsDiscarded(forged[i], c);
    }
    DiscardedIff(x, NatsLane, c, m);
    FirstAfterDiscarded(forged, x, m, after, apply);
  }

  /** A forgery stays discarded however late it is looked at and whatever the registry says by then. */
  lemma LateForgeryStaysDiscarded(x: Decision, lane: Lane, c: Context, m: Moment, now: int, lock: Option<Lock>)
    requires Sound(c) && ApplyCommand(x, lane, c, m) == Failed(Invalid)
    ensures ApplyCommand(x, lane, c, m.(now := now, lock := lock)) == Failed(Invalid)
  {
    var later := m.(now := now, lock := lock);
    DiscardedIff(x, lane, c, m);
    DiscardedIff(x, lane, c, later);
    assert forall d :: AuthenticFrom(x, d, lane, c, later) <==> AuthenticFrom(x, d, lane, c, m);
  }
}
