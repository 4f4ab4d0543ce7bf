// The way a delivery is left unanswered after its owner's death.
module AdmissionReclaims {
  import opened Admission
  import opened AdmissionRuns
  import opened AdmissionScenarios
  import opened AdmissionAnswers

  const REQ: Req := Req(Command, "r", Body("", 0, LIFETIME))
  const YES: Outcome := Verdict(Command, "yes")

  /** A new lane opens the request and claims; the table decides what it becomes. */
  lemma Arrive(run: Run, n: nat) returns (r: Run)
    requires IsRun(run) && MayOpen(Last(run), n, REQ)
    requires OnlyThisRequest(Last(run))
    ensures IsRun(r) && run.states <= r.states && run.labels <= r.labels && |r.labels| == |run.labels| + 3
    ensures Enabled(LaneOpens(Last(run), n, REQ), Claim(n, ""))
    ensures Last(r) == Next(LaneOpens(Last(run), n, REQ), Claim(n, ""))
    ensures Last(r).evicted == Last(run).evicted
  {
    var waiting := OpenLane(run, n, REQ);
    NothingToDrop(Last(run).claims, Last(run).now);
    r := Extend(waiting, Claim(n, ""));
  }

  /** The table records this request or nothing, as of now. */
  ghost predicate OnlyThisRequest(s: Sys) {
    s.claims.Keys <= {"r"} && forall k :: k in s.claims ==> s.claims[k].seenAt == s.now
  }

  lemma NothingToDrop(claims: map<string, Seen>, now: int)
    requires claims.Keys <= {"r"} && forall k :: k in claims ==> claims[k].seenAt == now
    ensures Pruned(claims, now) == claims && !Overfull(claims, "r")
  {
    assert claims.Keys == {} || claims.Keys == {"r"};
    assert |claims| == |claims.Keys|;
  }

  /** Lane 0 owns the request. */
  lemma OwnerArrives() returns (r: Run)
    ensures IsRun(r)
    ensures var s := Last(r);
            && s.now == 0 && s.free == 7 && s.evicted == {}
            && s.lanes == map[0 := Owner(REQ, 0, false, [])]
            && s.chans == [Channel(REQ, Live)] && s.claims == map["r" := Seen(0, REQ.body, 0, false)]
  {
    r := Run([Sys(0, MAX_IN_FLIGHT, map[], [], map[], [], {})], []);
    r := Arrive(r, 0);
  }

  /** Lane 1 waits on it. */
  lemma WaiterArrives() returns (r: Run)
    ensures IsRun(r)
    ensures var s := Last(r);
            && s.now == 0 && s.free == 6 && s.evicted == {}
            && s.lanes == map[0 := Owner(REQ, 0, false, []), 1 := Waiter(REQ, 0, [])]
            && s.chans == [Channel(REQ, Live)] && s.claims == map["r" := Seen(0, REQ.body, 0, true)]
  {
    var owned := OwnerArrives();
    r := Arrive(owned, 1);
  }

  /** Lane 0 dies. */
  lemma OwnerDies() returns (r: Run)
    ensures IsRun(r)
    ensures var s := Last(r);
            && s.now == 0 && s.free == 7 && s.evicted == {}
            && s.lanes == map[0 := Over, 1 := Waiter(REQ, 0, [])]
            && s.chans == [Channel(REQ, Dead)] && s.claims == map["r" := Seen(0, REQ.body, 0, true)]
  {
    var waited := WaiterArrives();
    r := Extend(waited, Drop(0));
  }

  /** Before lane 1 reclaims, lane 2 owns the request. */
  lemma OtherOwns() returns (r: Run)
    ensures IsRun(r)
    ensures var s := Last(r);
            && s.now == 0 && s.free == 6 && s.evicted == {}
            && s.lanes == map[0 := Over, 1 := Waiter(REQ, 0, []), 2 := Owner(REQ, 1, false, [])]
            && s.chans == [Channel(REQ, Dead), Channel(REQ, Live)]
            && s.claims == map["r" := Seen(0, REQ.body, 1, false)]
  {
    var died := OwnerDies();
    r := Arrive(died, 2);
  }

  /** And lane 3 waits on that. */
  lemma OtherWaits() returns (r: Run)
    ensures IsRun(r)
    ensures var s := Last(r);
            && s.now == 0 && s.free == 5 && s.evicted == {}
            && s.lanes == map[0 := Over, 1 := Waiter(REQ, 0, []), 2 := Owner(REQ, 1, false, []), 3 := Waiter(REQ, 1, [])]
            && s.chans == [Channel(REQ, Dead), Channel(REQ, Live)]
            && s.claims == map["r" := Seen(0, REQ.body, 1, true)]
  {
    var owned := OtherOwns();
    r := Arrive(owned, 3);
  }

  /** Now lane 1 reclaims and leaves with nothing. */
  lemma TooLate() returns (r: Run)
    ensures IsRun(r) && |r.labels| > 0 && r.labels[|r.labels| - 1] == Claim(1, "")
    ensures var s := r.states[|r.labels| - 1];
            1 in s.lanes && s.lanes[1].Waiter? && TakenSince(s, REQ, 0)
    ensures var s := Last(r);
            && s.now == 0 && s.evicted == {}
            && s.lanes == map[0 := Over, 1 := Over, 2 := Owner(REQ, 1, false, []), 3 := Waiter(REQ, 1, [])]
            && s.chans == [Channel(REQ, Dead), Channel(REQ, Live)]
  {
    var waited := OtherWaits();
    NothingToDrop(Last(waited).claims, Last(waited).now);
    r := Extend(waited, Claim(1, ""));
  }

  lemma OthersAnswer(run: Run) returns (r: Run)
    requires IsRun(run) && Last(run).now == 0 && Last(run).evicted == {}
    requires Last(run).lanes == map[0 := Over, 1 := Over, 2 := Owner(REQ, 1, false, []), 3 := Waiter(REQ, 1, [])]
    requires Last(run).chans == [Channel(REQ, Dead), Channel(REQ, Live)]
    ensures IsRun(r) && run.states <= r.states && run.labels <= r.labels
    ensures var s := Last(r);
            && s.now == 0 && s.evicted == {}
            && s.lanes == map[0 := Over, 1 := Over, 2 := Delivered(REQ, YES), 3 := Waiter(REQ, 1, [])]
            && s.chans == [Channel(REQ, Dead), Channel(REQ, Answered(YES))]
  {
    r := Extend(run, Prompt(2));
    assert Last(r).lanes[2] == Owner(REQ, 1, true, []) && Last(r).chans == Last(run).chans;
    r := Extend(r, Record(2, YES));
  }

  /** Lane 1 reclaims too late and leaves with nothing; the request is then answered to the other two. */
  lemma ReclaimCanComeTooLate() returns (r: Run, k: nat)
    ensures IsRun(r) && k < |r.labels| && r.labels[k] == Claim(1, "")
    ensures 1 in r.states[k].lanes && r.states[k].lanes[1].Waiter? && TakenSince(r.states[k], REQ, 0)
    ensures Last(r).now < REQ.body.expiresAt && Last(r).evicted == {}
    ensures Last(r).lanes == map[0 := Over, 1 := Over, 2 := Delivered(REQ, YES), 3 := Delivered(REQ, YES)]
  {
    var late := TooLate();
    k := |late.labels| - 1;
    var answered := OthersAnswer(late);
    r := Extend(answered, Relay(3));
    assert r.labels[k] == late.labels[k] && r.states[k] == late.states[k];
  }
}
