// The one way round "one prompt per request": the claim table's capacity bound.
module AdmissionEviction {
  import opened Admission
  import opened AdmissionRuns
  import opened AdmissionScenarios

  const TARGET: Req := Req(Command, "t", Body("", 0, LIFETIME))
  const APPROVAL: Outcome := Verdict(Command, "yes")

  function Letter(i: nat): char
    requires i < 26
  {
    (97 + i) as char
  }

  /** A different valid request id for every number below 26 * 26 * 26. */
  function FillerId(i: nat): string
    requires i < 17576
  {
    [Letter(i / 26 / 26), Letter(i / 26 % 26), Letter(i % 26)]
  }

  function Filler(i: nat): Req
    requires i < 17576
  {
    Req(Command, FillerId(i), Body("", 0, LIFETIME))
  }

  lemma FillerIdInjective(i: nat, j: nat)
    requires i < 17576 && j < 17576 && FillerId(i) == FillerId(j)
    ensures i == j
  {
  }

  // ---- claiming what nobody holds ----

  /** A new lane may open `req` and finds no claim on it. */
  ghost predicate Unclaimed(s: Sys, n: nat, req: Req, victim: string) {
    var claims := Pruned(s.claims, s.now);
    && MayOpen(s, n, req) && Key(req) !in claims
    && (Overfull(claims, Key(req)) ==> Oldest(claims, victim))
  }

  /** The claims after that lane has become the owner. */
  function ClaimsWith(s: Sys, req: Req, victim: string): map<string, Seen> {
    Evicted(Pruned(s.claims, s.now), Key(req), victim)[Key(req) := Seen(s.now, req.body, |s.chans|, false)]
  }

  lemma OpenAndClaim(run: Run, n: nat, req: Req, victim: string) returns (r: Run)
    requires IsRun(run) && Unclaimed(Last(run), n, req, victim)
    ensures IsRun(r) && run.states <= r.states && run.labels <= r.labels && |r.labels| == |run.labels| + 3
    ensures var s, t := Last(run), Last(r);
            && t.now == s.now && t.free == s.free - 1 && t.answers == s.answers
            && t.lanes == s.lanes[n := Owner(req, |s.chans|, false, [])]
            && t.claims == ClaimsWith(s, req, victim)
  {
    var waiting := OpenLane(run, n, req);
    r := Extend(waiting, Claim(n, victim));
    assert Last(run).lanes[n := Opened(req)][n := Owner(req, |Last(run).chans|, false, [])]
        == Last(run).lanes[n := Owner(req, |Last(run).chans|, false, [])];
  }

  /** A lane opens `req`, claims it as a new generation, and dies. */
  lemma OpenClaimDie(run: Run, n: nat, req: Req, victim: string) returns (r: Run)
    requires IsRun(run) && Unclaimed(Last(run), n, req, victim)
    ensures IsRun(r) && run.states <= r.states && run.labels <= r.labels
    ensures var s, t := Last(run), Last(r);
            && t.now == s.now && t.free == s.free && t.answers == s.answers
            && t.lanes.Keys == s.lanes.Keys + {n}
            && t.claims == ClaimsWith(s, req, victim)
  {
    var claimed := OpenAndClaim(run, n, req, victim);
    r := Extend(claimed, Drop(n));
  }

  // ---- filling the table ----

  /** The target is answered and seen first; `j` other requests have been claimed since. */
  ghost predicate Filled(s: Sys, j: nat) {
    && s.now == 1 && s.free == MAX_IN_FLIGHT
    && Answer(TARGET, APPROVAL) in s.answers
    && (forall n: nat :: n in s.lanes <==> n <= j)
    && "t" in s.claims && s.claims["t"].seenAt == 0
    && (forall k :: k in s.claims && k != "t" ==> s.claims[k].seenAt == 1)
    && (forall i: nat :: j < i < 17576 ==> FillerId(i) !in s.claims)
    && |s.claims| == j + 1
  }

  lemma FillOne(run: Run, j: nat) returns (r: Run)
    requires IsRun(run) && Filled(Last(run), j) && j < MAX_SEEN - 1
    ensures IsRun(r) && run.states <= r.states && run.labels <= r.labels
    ensures Filled(Last(r), j + 1)
  {
    var s := Last(run);
    assert ValidId(FillerId(j + 1));
    assert Pruned(s.claims, s.now) == s.claims;
    r := OpenClaimDie(run, j + 1, Filler(j + 1), "t");
    var t := Last(r);
    assert t.claims.Keys == s.claims.Keys + {FillerId(j + 1)};
    forall i: nat | j + 1 < i < 17576
      ensures FillerId(i) !in t.claims
    {
      if FillerId(i) == FillerId(j + 1) {
        FillerIdInjective(i, j + 1);
      }
    }
  }

  lemma {:induction false} Fill(run: Run, j: nat) returns (r: Run)
    requires IsRun(run) && Filled(Last(run), j) && j <= MAX_SEEN - 1
    ensures IsRun(r) && run.states <= r.states && run.labels <= r.labels
    ensures Filled(Last(r), MAX_SEEN - 1)
    decreases MAX_SEEN - j
  {
    if j == MAX_SEEN - 1 {
      r := run;
    } else {
      r := FillOne(run, j);
      r := Fill(r, j + 1);
    }
  }

  /** A delivery of the target that finds no claim for it prompts. */
  lemma PromptTarget(run: Run, n: nat, victim: string) returns (r: Run)
    requires IsRun(run) && Unclaimed(Last(run), n, TARGET, victim)
    ensures IsRun(r) && run.states <= r.states && run.labels <= r.labels
    ensures PromptsAt(r, |run.labels| + 3, n, TARGET)
    ensures var s, t := Last(run), Last(r);
            && t.now == s.now && t.free == s.free - 1 && t.answers == s.answers
            && t.lanes == s.lanes[n := Owner(TARGET, |s.chans|, true, [])]
            && t.claims == ClaimsWith(s, TARGET, victim)
  {
    var claimed := OpenAndClaim(run, n, TARGET, victim);
    r := Extend(claimed, Prompt(n));
    assert r.states[|run.labels| + 3] == Last(claimed);
  }

  /** The very first request of a new agent. */
  lemma FirstPrompt() returns (r: Run)
    ensures IsRun(r) && PromptsAt(r, 3, 0, TARGET)
    ensures var t := Last(r);
            && t.now == 0 && t.free == MAX_IN_FLIGHT - 1 && t.answers == []
            && t.lanes == map[0 := Owner(TARGET, 0, true, [])]
            && t.claims == map["t" := Seen(0, TARGET.body, 0, false)]
  {
    r := Run([Sys(0, MAX_IN_FLIGHT, map[], [], map[], [], {})], []);
    r := PromptTarget(r, 0, "");
  }

  /** It is answered. */
  lemma FirstAnswer() returns (r: Run)
    ensures IsRun(r) && PromptsAt(r, 3, 0, TARGET)
    ensures var t := Last(r);
            && t.now == 0 && t.free == MAX_IN_FLIGHT && t.answers == [Answer(TARGET, APPROVAL)]
            && t.lanes.Keys == {0} && t.claims == map["t" := Seen(0, TARGET.body, 0, false)]
  {
    var asked := FirstPrompt();
    r := Extend(asked, Record(0, APPROVAL));
  }

  /** And a second passes. */
  lemma AnswerTarget() returns (r: Run)
    ensures IsRun(r) && Filled(Last(r), 0) && PromptsAt(r, 3, 0, TARGET)
  {
    var answered := FirstAnswer();
    r := Extend(answered, Tick(1));
    assert Last(r).claims.Keys == {"t"};
    assert forall n: nat :: n in Last(r).lanes <==> n in Last(r).lanes.Keys;
  }

  /** One claim more than the table holds: the oldest, the answered target, is dropped. */
  lemma PushOut(run: Run) returns (r: Run)
    requires IsRun(run) && Filled(Last(run), MAX_SEEN - 1)
    ensures IsRun(r) && run.states <= r.states && run.labels <= r.labels
    ensures var t := Last(r);
            && t.now == 1 && t.free > 0 && MAX_SEEN + 1 !in t.lanes
            && Answer(TARGET, APPROVAL) in t.answers
            && "t" !in Pruned(t.claims, t.now) && Oldest(Pruned(t.claims, t.now), FillerId(MAX_SEEN))
  {
    var s := Last(run);
    assert ValidId(FillerId(MAX_SEEN));
    assert Pruned(s.claims, s.now) == s.claims;
    r := OpenClaimDie(run, MAX_SEEN, Filler(MAX_SEEN), "t");
    assert |FillerId(MAX_SEEN)| == 3;
  }

  /**
    Answered, then prompted for again, all inside the request's validity: 1024 other
    requests in between push the claim off the table.
   */
  lemma EvictionAllowsASecondPrompt() returns (run: Run, i: nat, j: nat, n: nat)
    ensures IsRun(run) && 4 <= i <= j
    ensures PromptsAt(run, 3, 0, TARGET) && PromptsAt(run, j, n, TARGET)
    ensures i < |run.states| && Answer(TARGET, APPROVAL) in run.states[i].answers
    ensures run.states[j].now < TARGET.body.expiresAt
  {
    var first := AnswerTarget();
    var full := Fill(first, 0);
    var over := PushOut(full);
    i := |over.states| - 1;
    n := MAX_SEEN + 1;
    run := PromptTarget(over, n, FillerId(MAX_SEEN));
    j := |over.labels| + 3;
    assert StepAt(run, j);
    Grows(run, i, j);
  }
}
