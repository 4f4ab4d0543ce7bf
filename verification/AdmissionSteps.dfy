// Every admission step keeps the invariant.
module AdmissionSteps {
  import opened Prelude
  import opened Admission

  // ---- permits ----

  /** Replacing one lane moves the permit count by what that lane held before and after. */
  lemma PermitsMove(lanes: map<nat, Lane>, n: nat, x: Lane)
    ensures |Holding(lanes[n := x])| ==
            |Holding(lanes)|
            - (if n in lanes && HoldsPermit(lanes[n]) then 1 else 0)
            + (if HoldsPermit(x) then 1 else 0)
  {
    var before, after := Holding(lanes), Holding(lanes[n := x]);
    assert before - {n} == after - {n};
    WithoutOne(before, n);
    WithoutOne(after, n);
  }

  lemma WithoutOne(a: set<nat>, n: nat)
    ensures |a| == |a - {n}| + (if n in a then 1 else 0)
  {
    if n in a {
      assert a == (a - {n}) + {n};
    } else {
      assert a == a - {n};
    }
  }

  // ---- steps that leave the table alone ----

  /** Lane `n` becomes `x`; claims, channels, answers and the clock stay as they are. */
  lemma LaneOnly(s: Sys, t: Sys, n: nat, x: Lane)
    requires Inv(s)
    requires t == s.(lanes := s.lanes[n := x], free := t.free)
    requires LaneOk(s, x)
    requires forall m :: m in s.lanes && m != n ==> Apart(s, s.lanes[m], x) && Apart(s, x, s.lanes[m])
    requires t.free == s.free
             + (if n in s.lanes && HoldsPermit(s.lanes[n]) then 1 else 0)
             - (if HoldsPermit(x) then 1 else 0)
    ensures Inv(t)
  {
    PermitsMove(s.lanes, n, x);
    assert TableOk(t) by {
      forall k | k in t.claims ensures ClaimOk(t, k) { assert ClaimOk(s, k); }
      forall c: nat | c < |t.chans| ensures ChanOk(t, c) { assert ChanOk(s, c); }
    }
    forall m | m in t.lanes
      ensures LaneOk(t, t.lanes[m])
    {
      SameView(s, t, t.lanes[m]);
    }
    forall a | a in t.answers
      ensures AnswerOk(t, a)
    {
      assert AnswerOk(s, a);
    }
    forall i, j | i in t.lanes && j in t.lanes && i != j
      ensures Apart(t, t.lanes[i], t.lanes[j])
    {
      if i != n && j != n {
        assert Apart(s, s.lanes[i], s.lanes[j]);
      }
    }
  }

  lemma SameView(s: Sys, t: Sys, x: Lane)
    requires t == s.(lanes := t.lanes, free := t.free)
    ensures LaneOk(t, x) <==> LaneOk(s, x)
  {
  }

  lemma QuietSteps(s: Sys, l: Label)
    requires Inv(s) && Enabled(s, l)
    requires l.Reserve? || l.Open? || l.Relay? || l.Expire?
    ensures Inv(Next(s, l))
  {
    var n, t := l.lane, Next(s, l);
    assert n in s.lanes ==> LaneOk(s, s.lanes[n]);
    if l.Relay? {
      assert ChanOk(s, s.lanes[n].chan);
    }
    LaneOnly(s, t, n, t.lanes[n]);
  }

  /** Two owners of one unevicted request, while it is valid, are the same lane. */
  lemma OneOwner(s: Sys, m: nat, n: nat)
    requires Inv(s) && m in s.lanes && n in s.lanes && s.lanes[m].Owner? && s.lanes[n].Owner?
    requires Key(s.lanes[m].req) !in s.evicted
    requires s.now < s.lanes[m].req.body.expiresAt && s.now < s.lanes[n].req.body.expiresAt
    ensures Key(s.lanes[m].req) == Key(s.lanes[n].req) ==> m == n
  {
  }

  /** At most one lane is ever prompting for one unevicted request. */
  lemma PromptStep(s: Sys, l: Label)
    requires Inv(s) && Enabled(s, l) && l.Prompt?
    ensures Inv(Next(s, l))
  {
    var n, t := l.lane, Next(s, l);
    var x := s.lanes[n];
    var k := Key(x.req);
    assert LaneOk(s, x);
    if k !in s.evicted {
      assert s.claims[k].chan == x.chan;
      forall a | a in s.answers
        ensures a.req != x.req
      {
        assert AnswerOk(s, a);
      }
      forall m | m in s.lanes && m != n && s.lanes[m].Owner?
        ensures s.lanes[m].req != x.req
      {
        if s.now < s.lanes[m].req.body.expiresAt && Key(s.lanes[m].req) !in s.evicted {
          OneOwner(s, m, n);
        }
      }
    }
    forall m | m in s.lanes && m != n
      ensures Apart(s, s.lanes[m], t.lanes[n]) && Apart(s, t.lanes[n], s.lanes[m])
    {
      assert Apart(s, s.lanes[m], x) && Apart(s, x, s.lanes[m]);
    }
    LaneOnly(s, t, n, t.lanes[n]);
  }

  // ---- the clock ----

  lemma TickStep(s: Sys, l: Label)
    requires Inv(s) && l.Tick?
    ensures Inv(Next(s, l))
  {
    var t := Next(s, l);
    forall k | k in t.claims ensures ClaimOk(t, k) { assert ClaimOk(s, k); }
    forall c: nat | c < |t.chans| ensures ChanOk(t, c) { assert ChanOk(s, c); }
    forall a | a in t.answers ensures AnswerOk(t, a) { assert AnswerOk(s, a); }
    forall m | m in t.lanes
      ensures LaneOk(t, t.lanes[m])
    {
      LaterView(s, t, t.lanes[m]);
    }
    forall i, j | i in t.lanes && j in t.lanes && i != j
      ensures Apart(t, t.lanes[i], t.lanes[j])
    {
      assert Apart(s, s.lanes[i], s.lanes[j]);
    }
  }

  lemma LaterView(s: Sys, t: Sys, x: Lane)
    requires s.now <= t.now && t == s.(now := t.now) && LaneOk(s, x)
    ensures LaneOk(t, x)
  {
  }

  // ---- an owner ends ----

  /** One live channel leaves the live state; its owner is gone. */
  ghost predicate Ends(s: Sys, t: Sys, n: nat, outcome: Option<Outcome>) {
    && n in s.lanes && s.lanes[n].Owner? && s.lanes[n].chan < |s.chans|
    && t.now == s.now && t.claims == s.claims && t.evicted == s.evicted
    && t.chans == s.chans[s.lanes[n].chan := s.chans[s.lanes[n].chan].(
                    state := if outcome.Some? then Answered(outcome.value) else Dead)]
    && t.answers == (if outcome.Some? then s.answers + [Answer(s.lanes[n].req, outcome.value)] else s.answers)
    && t.lanes.Keys == s.lanes.Keys
    && (forall m :: m in s.lanes && m != n ==> t.lanes[m] == s.lanes[m])
    && !HoldsPermit(t.lanes[n])
    && t.lanes == s.lanes[n := t.lanes[n]]
    && t.free == s.free + 1
  }

  lemma EndKeepsTable(s: Sys, t: Sys, n: nat, outcome: Option<Outcome>)
    requires Inv(s) && Ends(s, t, n, outcome)
    requires outcome.Some? && outcome.value.Verdict? ==> outcome.value.kind == s.lanes[n].req.kind
    ensures TableOk(t)
  {
    var x := s.lanes[n];
    assert LaneOk(s, x);
    forall k | k in t.claims ensures ClaimOk(t, k) { assert ClaimOk(s, k); }
    forall c: nat | c < |t.chans| ensures ChanOk(t, c) { assert ChanOk(s, c); }
  }

  lemma EndKeepsLane(s: Sys, t: Sys, n: nat, outcome: Option<Outcome>, m: nat)
    requires Inv(s) && Ends(s, t, n, outcome) && m in s.lanes && m != n
    requires outcome.Some? ==> s.lanes[n].prompting
    ensures LaneOk(t, t.lanes[m])
  {
    var x, y := s.lanes[n], s.lanes[m];
    assert LaneOk(s, x) && LaneOk(s, y) && Apart(s, x, y);
    if y.Owner? {
      assert OwnerOk(t, y.req, y.chan, y.prompting);
      assert PastOk(t, y.past, y.chan, Key(y.req));
    }
    if y.Waiter? {
      assert PastOk(t, y.past, y.chan, Key(y.req));
    }
  }

  lemma EndKeepsAnswers(s: Sys, t: Sys, n: nat, outcome: Option<Outcome>)
    requires Inv(s) && Ends(s, t, n, outcome)
    requires outcome.Some? ==> s.lanes[n].prompting
    ensures AnswersOk(t)
  {
    var x := s.lanes[n];
    assert LaneOk(s, x);
    forall a | a in t.answers
      ensures AnswerOk(t, a)
    {
      if a in s.answers {
        assert AnswerOk(s, a);
      } else {
        var k := Key(x.req);
        assert k in s.claims ==> ClaimOk(s, k);
      }
    }
    forall i, j | 0 <= i < j < |t.answers| && t.answers[i].req == t.answers[j].req
      ensures Key(t.answers[i].req) in t.evicted
    {
      assert s.answers == t.answers[..|s.answers|];
      if j == |s.answers| {
        assert t.answers[i] in s.answers;
      } else {
        assert s.answers[i].req == s.answers[j].req;
      }
    }
  }

  lemma EndStep(s: Sys, t: Sys, n: nat, outcome: Option<Outcome>)
    requires Inv(s) && Ends(s, t, n, outcome)
    requires outcome.Some? ==> s.lanes[n].prompting
    requires outcome.Some? && outcome.value.Verdict? ==> outcome.value.kind == s.lanes[n].req.kind
    requires LaneOk(t, t.lanes[n])
    ensures Inv(t)
  {
    EndKeepsTable(s, t, n, outcome);
    EndKeepsAnswers(s, t, n, outcome);
    PermitsMove(s.lanes, n, t.lanes[n]);
    forall m | m in t.lanes
      ensures LaneOk(t, t.lanes[m])
    {
      if m != n {
        EndKeepsLane(s, t, n, outcome, m);
      }
    }
    forall i, j | i in t.lanes && j in t.lanes && i != j
      ensures Apart(t, t.lanes[i], t.lanes[j])
    {
      assert Apart(s, s.lanes[i], s.lanes[j]);
    }
  }

  lemma RecordStep(s: Sys, l: Label)
    requires Inv(s) && Enabled(s, l) && l.Record?
    ensures Inv(Next(s, l))
  {
    assert LaneOk(s, s.lanes[l.lane]);
    EndStep(s, Next(s, l), l.lane, Some(l.outcome));
  }

  lemma DropStep(s: Sys, l: Label)
    requires Inv(s) && Enabled(s, l) && l.Drop?
    ensures Inv(Next(s, l))
  {
    var x := s.lanes[l.lane];
    assert LaneOk(s, x);
    if x.Owner? {
      EndStep(s, Next(s, l), l.lane, None);
    } else {
      LaneOnly(s, Next(s, l), l.lane, Over);
    }
  }

  // ---- claiming ----

  /** What is pruned has expired, so pruning disturbs no unexpired owner or answer. */
  lemma PruneStep(s: Sys)
    requires Inv(s)
    ensures Inv(s.(claims := Pruned(s.claims, s.now)))
  {
    var t := s.(claims := Pruned(s.claims, s.now));
    assert t.claims.Keys <= s.claims.Keys;
    Smaller(t.claims, s.claims);
    forall k | k in t.claims ensures ClaimOk(t, k) { assert ClaimOk(s, k); }
    forall c: nat | c < |t.chans| ensures ChanOk(t, c) { assert ChanOk(s, c); }
    forall m | m in t.lanes
      ensures LaneOk(t, t.lanes[m])
    {
      PrunedView(s, t, t.lanes[m]);
    }
    forall a | a in t.answers
      ensures AnswerOk(t, a)
    {
      assert AnswerOk(s, a);
      assert Key(a.req) in s.claims ==> ClaimOk(s, Key(a.req));
    }
    forall i, j | i in t.lanes && j in t.lanes && i != j
      ensures Apart(t, t.lanes[i], t.lanes[j])
    {
      assert Apart(s, s.lanes[i], s.lanes[j]);
    }
  }

  lemma Smaller<T>(a: map<string, T>, b: map<string, T>)
    requires a.Keys <= b.Keys
    ensures |a| <= |b|
  {
    var rest := b.Keys - a.Keys;
    assert b.Keys == a.Keys + rest;
    assert |b.Keys| == |a.Keys| + |rest|;
  }

  lemma PrunedView(s: Sys, t: Sys, x: Lane)
    requires Inv(s) && LaneOk(s, x) && t == s.(claims := Pruned(s.claims, s.now))
    ensures LaneOk(t, x)
  {
  }

  /** The table's record of a request carries exactly that request. */
  lemma ClaimCarriesRequest(s: Sys, req: Req)
    requires Inv(s) && ValidId(req.id) && Key(req) in s.claims && s.claims[Key(req)].body == req.body
    ensures InChans(s, s.claims[Key(req)].chan, req)
  {
    var k := Key(req);
    assert ClaimOk(s, k);
    var c := s.claims[k].chan;
    assert ChanOk(s, c);
    ClaimKeyInjective(req.kind, req.id, s.chans[c].req.kind, s.chans[c].req.id);
  }

  /** A reclaiming waiter's dead generation joins the ones it has already outlived. */
  lemma PastGrows(s: Sys, x: Lane, c: nat)
    requires Claimable(x, s.chans) && LaneOk(s, x)
    requires x.Waiter? ==> x.chan < c
    ensures PastOk(s, PastOf(x), c, Key(x.req))
  {
  }

  lemma AttachStep(s: Sys, t: Sys, n: nat)
    requires Inv(s) && n in s.lanes && Claimable(s.lanes[n], s.chans)
    requires CaseOf(s.claims, s.chans, s.lanes[n].req) == Attach
    requires var x := s.lanes[n];
             var k := Key(x.req);
             t == s.(claims := s.claims[k := s.claims[k].(attached := true)],
                     lanes := s.lanes[n := Waiter(x.req, s.claims[k].chan, PastOf(x))])
    ensures Inv(t)
  {
    var x := s.lanes[n];
    var k := Key(x.req);
    var c := s.claims[k].chan;
    assert LaneOk(s, x);
    ClaimCarriesRequest(s, x.req);
    var mid := s.(claims := t.claims);
    FlagStep(s, mid, k);
    PastGrows(mid, x, c) by { assert LaneOk(mid, x); }
    forall m | m in mid.lanes && m != n
      ensures Apart(mid, mid.lanes[m], t.lanes[n]) && Apart(mid, t.lanes[n], mid.lanes[m])
    {
      assert LaneOk(s, s.lanes[m]);
    }
    LaneOnly(mid, t, n, t.lanes[n]);
  }

  lemma FlagTable(s: Sys, t: Sys, k: string)
    requires TableOk(s) && k in s.claims && t == s.(claims := s.claims[k := s.claims[k].(attached := true)])
    ensures TableOk(t)
  {
    assert t.claims.Keys == s.claims.Keys;
    Smaller(t.claims, s.claims);
    forall j | j in t.claims ensures ClaimOk(t, j) { assert ClaimOk(s, j); }
    forall c: nat | c < |t.chans| ensures ChanOk(t, c) { assert ChanOk(s, c); }
  }

  lemma FlagLanes(s: Sys, t: Sys, k: string)
    requires LanesOk(s) && k in s.claims && t == s.(claims := s.claims[k := s.claims[k].(attached := true)])
    ensures LanesOk(t)
  {
    forall m | m in t.lanes ensures LaneOk(t, t.lanes[m]) { FlagView(s, t, k, t.lanes[m]); }
    forall i, j | i in t.lanes && j in t.lanes && i != j
      ensures Apart(t, t.lanes[i], t.lanes[j])
    {
      assert Apart(s, s.lanes[i], s.lanes[j]);
    }
  }

  lemma FlagStep(s: Sys, t: Sys, k: string)
    requires Inv(s) && k in s.claims
    requires t == s.(claims := s.claims[k := s.claims[k].(attached := true)])
    ensures Inv(t)
  {
    FlagTable(s, t, k);
    FlagLanes(s, t, k);
    forall a | a in t.answers ensures AnswerOk(t, a) { assert AnswerOk(s, a); }
  }

  lemma FlagView(s: Sys, t: Sys, k: string, x: Lane)
    requires LaneOk(s, x) && k in s.claims
    requires t == s.(claims := s.claims[k := s.claims[k].(attached := true)])
    ensures LaneOk(t, x)
  {
  }

  // ---- becoming the owner ----

  /** Dropping a claim for capacity only costs the guarantees of the key it records. */
  lemma EvictStep(s: Sys, t: Sys, victim: string)
    requires Inv(s)
    requires t == s.(claims := s.claims - {victim}, evicted := s.evicted + {victim})
    ensures Inv(t)
  {
    assert t.claims.Keys <= s.claims.Keys;
    Smaller(t.claims, s.claims);
    forall k | k in t.claims ensures ClaimOk(t, k) { assert ClaimOk(s, k); }
    forall c: nat | c < |t.chans| ensures ChanOk(t, c) { assert ChanOk(s, c); }
    forall m | m in t.lanes
      ensures LaneOk(t, t.lanes[m])
    {
      EvictedView(s, t, victim, t.lanes[m]);
    }
    forall a | a in t.answers ensures AnswerOk(t, a) { assert AnswerOk(s, a); }
    forall i, j | i in t.lanes && j in t.lanes && i != j
      ensures Apart(t, t.lanes[i], t.lanes[j])
    {
      assert Apart(s, s.lanes[i], s.lanes[j]);
    }
  }

  lemma EvictedView(s: Sys, t: Sys, victim: string, x: Lane)
    requires LaneOk(s, x)
    requires t == s.(claims := s.claims - {victim}, evicted := s.evicted + {victim})
    ensures LaneOk(t, x)
  {
  }

  /** The table after a new generation for `req` is opened, seen from a lane that is not its owner. */
  ghost predicate Owns(s: Sys, t: Sys, req: Req) {
    && t == s.(claims := s.claims[Key(req) := Seen(s.now, req.body, |s.chans|, false)],
               chans := s.chans + [Channel(req, Live)])
    && CaseOf(s.claims, s.chans, req) == Own
  }

  lemma OwnKeepsClaim(s: Sys, t: Sys, req: Req, k: string)
    requires Inv(s) && Owns(s, t, req) && ReqOk(s, req) && k in t.claims
    ensures ClaimOk(t, k)
  {
  }

  lemma OwnKeepsTable(s: Sys, t: Sys, req: Req)
    requires Inv(s) && Owns(s, t, req) && ReqOk(s, req) && !Overfull(s.claims, Key(req))
    ensures TableOk(t)
  {
    forall k | k in t.claims ensures ClaimOk(t, k) { OwnKeepsClaim(s, t, req, k); }
    forall c: nat | c < |t.chans| ensures ChanOk(t, c) { assert c < |s.chans| ==> ChanOk(s, c); }
    Inserted(s.claims, Key(req), t.claims[Key(req)]);
  }

  lemma Inserted<T>(m: map<string, T>, k: string, v: T)
    ensures |m[k := v]| == if k in m then |m| else |m| + 1
  {
  }

  lemma OwnKeepsView(s: Sys, t: Sys, req: Req, x: Lane)
    requires Inv(s) && Owns(s, t, req) && LaneOk(s, x)
    ensures LaneOk(t, x)
  {
  }

  lemma OwnOpens(s: Sys, t: Sys, req: Req)
    requires Inv(s) && Owns(s, t, req) && ReqOk(s, req) && !Overfull(s.claims, Key(req))
    ensures Inv(t)
  {
    OwnKeepsTable(s, t, req);
    forall m | m in t.lanes ensures LaneOk(t, t.lanes[m]) { OwnKeepsView(s, t, req, t.lanes[m]); }
    forall a | a in t.answers ensures AnswerOk(t, a) { assert AnswerOk(s, a); }
    forall i, j | i in t.lanes && j in t.lanes && i != j
      ensures Apart(t, t.lanes[i], t.lanes[j])
    {
      assert Apart(s, s.lanes[i], s.lanes[j]);
    }
  }

  lemma OwnStep(s: Sys, mid: Sys, t: Sys, n: nat)
    requires Inv(s) && n in s.lanes && Claimable(s.lanes[n], s.chans)
    requires Owns(s, mid, s.lanes[n].req) && !Overfull(s.claims, Key(s.lanes[n].req))
    requires t == mid.(lanes := s.lanes[n := Owner(s.lanes[n].req, |s.chans|, false, PastOf(s.lanes[n]))])
    ensures Inv(t)
  {
    var x := s.lanes[n];
    assert LaneOk(s, x);
    OwnOpens(s, mid, x.req);
    assert LaneOk(mid, x);
    PastGrows(mid, x, |s.chans|);
    forall m | m in mid.lanes && m != n
      ensures Apart(mid, mid.lanes[m], t.lanes[n]) && Apart(mid, t.lanes[n], mid.lanes[m])
    {
      assert LaneOk(s, s.lanes[m]);
    }
    LaneOnly(mid, t, n, t.lanes[n]);
  }

  lemma ClaimStep(s: Sys, l: Label)
    requires Inv(s) && Enabled(s, l) && l.Claim?
    ensures Inv(Next(s, l))
  {
    var n, t := l.lane, Next(s, l);
    var x := s.lanes[n];
    var k := Key(x.req);
    var pruned := s.(claims := Pruned(s.claims, s.now));
    PruneStep(s);
    match CaseOf(pruned.claims, s.chans, x.req)
    case Duplicate => LaneOnly(pruned, t, n, Over);
    case Attach => AttachStep(pruned, t, n);
    case Own => ClaimOwn(pruned, t, n, l.victim);
  }

  /** The state an own claim leaves, once there is room for it. */
  ghost predicate OwnedIn(s: Sys, t: Sys, n: nat)
    requires n in s.lanes && Claimable(s.lanes[n], s.chans)
  {
    var x := s.lanes[n];
    t == s.(claims := s.claims[Key(x.req) := Seen(s.now, x.req.body, |s.chans|, false)],
            chans := s.chans + [Channel(x.req, Live)],
            lanes := s.lanes[n := Owner(x.req, |s.chans|, false, PastOf(x))])
  }

  lemma OwnWithRoom(s: Sys, t: Sys, n: nat)
    requires Inv(s) && n in s.lanes && Claimable(s.lanes[n], s.chans)
    requires CaseOf(s.claims, s.chans, s.lanes[n].req) == Own && !Overfull(s.claims, Key(s.lanes[n].req))
    requires OwnedIn(s, t, n)
    ensures Inv(t)
  {
    OwnStep(s, t.(lanes := s.lanes), t, n);
  }

  /** Dropping the oldest claim makes room, and leaves this claim the owner it would be. */
  lemma RoomIsMade(s: Sys, req: Req, victim: string)
    requires |s.claims| <= MAX_SEEN && Overfull(s.claims, Key(req)) && victim in s.claims
    ensures !Overfull(s.claims - {victim}, Key(req))
    ensures CaseOf(s.claims - {victim}, s.chans, req) == Own
  {
    assert s.claims.Keys == (s.claims - {victim}).Keys + {victim};
  }

  lemma ClaimOwn(s: Sys, t: Sys, n: nat, victim: string)
    requires Inv(s) && n in s.lanes && Claimable(s.lanes[n], s.chans)
    requires CaseOf(s.claims, s.chans, s.lanes[n].req) == Own
    requires Overfull(s.claims, Key(s.lanes[n].req)) ==> Oldest(s.claims, victim)
    requires var full := Overfull(s.claims, Key(s.lanes[n].req));
             var room := if full then s.(claims := s.claims - {victim}, evicted := s.evicted + {victim}) else s;
             OwnedIn(room, t, n)
    ensures Inv(t)
  {
    if Overfull(s.claims, Key(s.lanes[n].req)) {
      var room := s.(claims := s.claims - {victim}, evicted := s.evicted + {victim});
      EvictStep(s, room, victim);
      RoomIsMade(s, s.lanes[n].req, victim);
      OwnWithRoom(room, t, n);
    } else {
      OwnWithRoom(s, t, n);
    }
  }

  /** Every step of every lane, interleaved in any order, keeps the invariant. */
  lemma StepKeepsInv(s: Sys, l: Label)
    requires Inv(s) && Enabled(s, l)
    ensures Inv(Next(s, l))
  {
    match l
    case Tick(_) => TickStep(s, l);
    case Prompt(_) => PromptStep(s, l);
    case Record(_, _) => RecordStep(s, l);
    case Drop(_) => DropStep(s, l);
    case Claim(_, _) => ClaimStep(s, l);
    case _ => QuietSteps(s, l);
  }
}
