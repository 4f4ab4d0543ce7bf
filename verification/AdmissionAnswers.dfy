// How long an answered request stays a duplicate, and what a lane whose owner died gets.
module AdmissionAnswers {
  import opened Admission
  import opened AdmissionSteps
  import opened AdmissionRuns

  // ---- generations on the table ----

  /** The table points at generation `c` under this key. */
  ghost predicate OnTable(s: Sys, key: string, c: nat) {
    key in s.claims && s.claims[key].chan == c
  }

  /** This claim drops `key` for capacity. */
  ghost predicate Evicts(s: Sys, l: Label, key: string) {
    && l.Claim? && l.victim == key && l.lane in s.lanes && Claimable(s.lanes[l.lane], s.chans)
    && var claims := Pruned(s.claims, s.now);
       && CaseOf(claims, s.chans, s.lanes[l.lane].req).Own?
       && Overfull(claims, Key(s.lanes[l.lane].req))
  }

  ghost predicate EvictsAt(run: Run, k: nat, key: string)
    requires k < |run.labels| < |run.states|
  {
    Evicts(run.states[k], run.labels[k], key)
  }

  /** The table records generation `c` of a valid request, undecided or answered. */
  ghost predicate StandsAt(s: Sys, key: string, c: nat) {
    OnTable(s, key, c) && StateOf(s.chans, c) != Dead && s.now < s.claims[key].body.expiresAt
  }

  /** It records its answer. */
  ghost predicate AnswersAt(s: Sys, key: string, c: nat) {
    StandsAt(s, key, c) && StateOf(s.chans, c).Answered?
  }

  /** An answered or dead generation stays as it is. */
  lemma SettledStep(s: Sys, l: Label, c: nat)
    requires Inv(s) && Enabled(s, l) && c < |s.chans| && s.chans[c].state != Live
    ensures c < |Next(s, l).chans| && Next(s, l).chans[c] == s.chans[c]
  {
    assert (l.Record? || l.Drop?) ==> LaneOk(s, s.lanes[l.lane]);
  }

  lemma {:induction false} SettledStays(run: Run, i: nat, j: nat, c: nat)
    requires IsRun(run) && i <= j < |run.states| && c < |run.states[i].chans| && run.states[i].chans[c].state != Live
    ensures c < |run.states[j].chans| && run.states[j].chans[c] == run.states[i].chans[c]
    decreases j - i
  {
    if i < j {
      RunKeepsInv(run, i);
      assert StepAt(run, i);
      SettledStep(run.states[i], run.labels[i], c);
      SettledStays(run, i + 1, j, c);
    }
  }

  /** Only claims change the table. */
  lemma OtherStepsKeepClaims(s: Sys, l: Label)
    requires Enabled(s, l) && !l.Claim?
    ensures Next(s, l).claims == s.claims && forall key :: !Evicts(s, l, key)
  {
  }

  /** What a claim under another key leaves of a record. */
  lemma OtherClaimKeeps(s: Sys, l: Label, key: string)
    requires Enabled(s, l) && l.Claim? && key in Pruned(s.claims, s.now) && Key(s.lanes[l.lane].req) != key
    ensures if Evicts(s, l, key) then key !in Next(s, l).claims
            else key in Next(s, l).claims && Next(s, l).claims[key] == s.claims[key]
  {
  }

  /** What a claim under the same key does to a generation that has not died. */
  lemma OwnClaimKeeps(s: Sys, l: Label, key: string)
    requires Enabled(s, l) && l.Claim? && key in Pruned(s.claims, s.now) && Key(s.lanes[l.lane].req) == key
    requires StateOf(s.chans, s.claims[key].chan) != Dead
    ensures !Evicts(s, l, key) && key in Next(s, l).claims
    ensures Next(s, l).claims[key].chan == s.claims[key].chan && Next(s, l).claims[key].body == s.claims[key].body
  {
  }

  lemma StandingIsKept(s: Sys, key: string, c: nat)
    requires Inv(s) && StandsAt(s, key, c)
    ensures key in Pruned(s.claims, s.now) && c < |s.chans|
  {
    assert ClaimOk(s, key);
  }

  /** A valid request's undead generation leaves the table in exactly one way. */
  lemma GenerationStep(s: Sys, l: Label, key: string, c: nat)
    requires Inv(s) && Enabled(s, l) && StandsAt(s, key, c)
    ensures if Evicts(s, l, key) then key !in Next(s, l).claims
            else OnTable(Next(s, l), key, c) && Next(s, l).claims[key].body == s.claims[key].body
  {
    StandingIsKept(s, key, c);
    if !l.Claim? {
      OtherStepsKeepClaims(s, l);
    } else if Key(s.lanes[l.lane].req) == key {
      OwnClaimKeeps(s, l, key);
    } else {
      OtherClaimKeeps(s, l, key);
    }
  }

  lemma ChansGrow(s: Sys, l: Label)
    requires Enabled(s, l)
    ensures |s.chans| <= |Next(s, l).chans| <= |s.chans| + 1
  {
  }

  /** The same at a step of a run. */
  lemma GenerationStepAt(run: Run, i: nat, key: string, c: nat)
    requires IsRun(run) && i < |run.labels| && StandsAt(run.states[i], key, c)
    ensures c < |run.states[i].chans| <= |run.states[i + 1].chans|
    ensures EvictsAt(run, i, key) ==> key !in run.states[i + 1].claims
    ensures !EvictsAt(run, i, key) ==>
              OnTable(run.states[i + 1], key, c) && run.states[i + 1].claims[key].body == run.states[i].claims[key].body
  {
    RunKeepsInv(run, i);
    assert StepAt(run, i);
    StandingIsKept(run.states[i], key, c);
    GenerationStep(run.states[i], run.labels[i], key, c);
    ChansGrow(run.states[i], run.labels[i]);
  }

  /** A generation once off the table never comes back to it. */
  lemma GoneStep(s: Sys, l: Label, key: string, c: nat)
    requires Enabled(s, l) && c < |s.chans| && !OnTable(s, key, c)
    ensures !OnTable(Next(s, l), key, c) && c < |Next(s, l).chans|
  {
  }

  lemma {:induction false} GoneStaysGone(run: Run, i: nat, j: nat, key: string, c: nat)
    requires IsRun(run) && i <= j < |run.states| && c < |run.states[i].chans| && !OnTable(run.states[i], key, c)
    ensures !OnTable(run.states[j], key, c)
    decreases j - i
  {
    if i < j {
      assert StepAt(run, i);
      GoneStep(run.states[i], run.labels[i], key, c);
      GoneStaysGone(run, i + 1, j, key, c);
    }
  }

  /**
    While its request is valid, a generation that has not died is on the table at a later
    moment exactly when no claim in between dropped its key for capacity.
   */
  lemma {:induction false} OnTableIff(run: Run, i: nat, j: nat, key: string, c: nat)
    requires IsRun(run) && i <= j < |run.states| && StandsAt(run.states[i], key, c)
    requires run.states[j].now < run.states[i].claims[key].body.expiresAt && StateOf(run.states[j].chans, c) != Dead
    ensures OnTable(run.states[j], key, c) <==> forall k :: i <= k < j ==> !EvictsAt(run, k, key)
    ensures OnTable(run.states[j], key, c) ==> run.states[j].claims[key].body == run.states[i].claims[key].body
    decreases j - i
  {
    if i < j {
      GenerationStepAt(run, i, key, c);
      Grows(run, i + 1, j);
      if EvictsAt(run, i, key) {
        GoneStaysGone(run, i + 1, j, key, c);
      } else {
        if run.states[i + 1].chans[c].state == Dead {
          SettledStays(run, i + 1, j, c);
        }
        OnTableIff(run, i + 1, j, key, c);
      }
    }
  }

  // ---- replays of an answered request ----

  /** Any claim under the key of an unexpired answer is refused as a duplicate. */
  lemma AnsweredIsDuplicate(s: Sys, req: Req, c: nat)
    requires Inv(s) && AnswersAt(s, Key(req), c)
    ensures CaseOf(Pruned(s.claims, s.now), s.chans, req) == Duplicate
  {
    StandingIsKept(s, Key(req), c);
  }

  lemma AnswerPersists(run: Run, i: nat, j: nat, key: string, c: nat)
    requires IsRun(run) && i <= j < |run.states| && AnswersAt(run.states[i], key, c)
    ensures StateOf(run.states[j].chans, c) == StateOf(run.states[i].chans, c)
  {
    SettledStays(run, i, j, c);
  }

  /** Step `k` claims under this key. */
  ghost predicate ClaimsAt(run: Run, k: nat, key: string)
    requires k < |run.labels| < |run.states|
  {
    && run.labels[k].Claim? && run.labels[k].lane in run.states[k].lanes
    && Claimable(run.states[k].lanes[run.labels[k].lane], run.states[k].chans)
    && Key(run.states[k].lanes[run.labels[k].lane].req) == key
  }

  /** What that claim comes to. */
  ghost function CaseAt(run: Run, k: nat, key: string): Case
    requires k < |run.labels| < |run.states| && ClaimsAt(run, k, key)
  {
    var s := run.states[k];
    CaseOf(Pruned(s.claims, s.now), s.chans, s.lanes[run.labels[k].lane].req)
  }

  lemma AbsentStep(run: Run, k: nat, key: string)
    requires IsRun(run) && k < |run.labels| && key !in run.states[k].claims && !ClaimsAt(run, k, key)
    ensures key !in run.states[k + 1].claims
  {
    assert StepAt(run, k);
  }

  lemma {:induction false} AbsentStays(run: Run, i: nat, k: nat, key: string)
    requires IsRun(run) && i <= k < |run.states| && key !in run.states[i].claims
    requires forall j :: i <= j < k ==> !ClaimsAt(run, j, key)
    ensures key !in run.states[k].claims
    decreases k - i
  {
    if i < k {
      AbsentStep(run, i, key);
      AbsentStays(run, i + 1, k, key);
    }
  }

  lemma {:induction false} EvictedIsAbsent(run: Run, i: nat, k: nat, key: string, c: nat)
    requires IsRun(run) && i <= k < |run.states| && AnswersAt(run.states[i], key, c)
    requires run.states[k].now < run.states[i].claims[key].body.expiresAt
    requires forall j :: i <= j < k ==> !ClaimsAt(run, j, key)
    requires exists j :: i <= j < k && EvictsAt(run, j, key)
    ensures key !in run.states[k].claims
    decreases k - i
  {
    GenerationStepAt(run, i, key, c);
    if EvictsAt(run, i, key) {
      AbsentStays(run, i + 1, k, key);
    } else {
      AnswerPersists(run, i, i + 1, key, c);
      Grows(run, i + 1, k);
      EvictedIsAbsent(run, i + 1, k, key, c);
    }
  }

  /**
    The first claim under the key of an answered request, while that request is valid: it is
    a duplicate exactly when the answer was not dropped for capacity in between, and
    otherwise it owns the request anew.
   */
  lemma FirstReplayIff(run: Run, i: nat, k: nat, key: string, c: nat)
    requires IsRun(run) && i <= k < |run.labels| && AnswersAt(run.states[i], key, c)
    requires run.states[k].now < run.states[i].claims[key].body.expiresAt
    requires ClaimsAt(run, k, key) && forall j :: i <= j < k ==> !ClaimsAt(run, j, key)
    ensures CaseAt(run, k, key) == Duplicate <==> forall j :: i <= j < k ==> !EvictsAt(run, j, key)
    ensures CaseAt(run, k, key) == Own <==> exists j :: i <= j < k && EvictsAt(run, j, key)
  {
    if forall j :: i <= j < k ==> !EvictsAt(run, j, key) {
      AnswerPersists(run, i, k, key, c);
      OnTableIff(run, i, k, key, c);
      RunKeepsInv(run, k);
      AnsweredIsDuplicate(run.states[k], run.states[k].lanes[run.labels[k].lane].req, c);
    } else {
      EvictedIsAbsent(run, i, k, key, c);
    }
  }

  // ---- prompting again ----

  ghost predicate Owns(s: Sys, n: nat, req: Req) {
    n in s.lanes && s.lanes[n].Owner? && s.lanes[n].req == req
  }

  /** A lane that came to own a request claimed it as its own at some step. */
  lemma {:induction false} OwnerClaimed(run: Run, i: nat, j: nat, n: nat, req: Req) returns (k: nat)
    requires IsRun(run) && i <= j < |run.states| && !Owns(run.states[i], n, req) && Owns(run.states[j], n, req)
    ensures i <= k < j && ClaimsAt(run, k, Key(req)) && CaseAt(run, k, Key(req)) == Own
    decreases j - i
  {
    if Owns(run.states[i + 1], n, req) {
      assert StepAt(run, i);
      k := i;
    } else {
      k := OwnerClaimed(run, i + 1, j, n, req);
    }
  }

  /**
    Once a request's answer is on the table, a lane that does not own it yet prompts for it
    only after a claim dropped the answer for capacity. Evictions before the answer do not count.
   */
  lemma ReplayIsNotPrompted(run: Run, i: nat, j: nat, n: nat, req: Req, c: nat)
    requires IsRun(run) && i <= j && PromptsAt(run, j, n, req) && !Owns(run.states[i], n, req)
    requires AnswersAt(run.states[i], Key(req), c) && run.states[i].claims[Key(req)].body == req.body
    ensures exists k :: i <= k < j && EvictsAt(run, k, Key(req))
  {
    assert StepAt(run, j);
    var k := OwnerClaimed(run, i, j, n, req);
    Grows(run, k, j);
    if forall e :: i <= e < k ==> !EvictsAt(run, e, Key(req)) {
      AnswerPersists(run, i, k, Key(req), c);
      OnTableIff(run, i, k, Key(req), c);
      RunKeepsInv(run, k);
      AnsweredIsDuplicate(run.states[k], run.states[k].lanes[run.labels[k].lane].req, c);
    }
  }

  // ---- two generations of one request ----

  lemma {:induction false} RequestStays(run: Run, i: nat, j: nat, c: nat)
    requires IsRun(run) && i <= j < |run.states| && c < |run.states[i].chans|
    ensures c < |run.states[j].chans| && run.states[j].chans[c].req == run.states[i].chans[c].req
    decreases j - i
  {
    if i < j {
      assert StepAt(run, i);
      RequestStays(run, i + 1, j, c);
    }
  }

  /** The step that opened generation `c`: an own claim of the request it carries. */
  lemma {:induction false} OpenedAt(run: Run, j: nat, c: nat) returns (k: nat)
    requires IsRun(run) && j < |run.states| && c < |run.states[j].chans|
    ensures k < j && |run.states[k].chans| == c && |run.states[k + 1].chans| == c + 1
    ensures ClaimsAt(run, k, Key(run.states[j].chans[c].req)) && CaseAt(run, k, Key(run.states[j].chans[c].req)) == Own
    ensures run.states[k].lanes[run.labels[k].lane].req == run.states[j].chans[c].req
    ensures OnTable(run.states[k + 1], Key(run.states[j].chans[c].req), c)
    ensures run.states[k + 1].claims[Key(run.states[j].chans[c].req)].body == run.states[j].chans[c].req.body
  {
    assert StepAt(run, j - 1);
    if c < |run.states[j - 1].chans| {
      RequestStays(run, j - 1, j, c);
      k := OpenedAt(run, j - 1, c);
    } else {
      k := j - 1;
    }
  }

  lemma AliveBefore(run: Run, i: nat, j: nat, c: nat)
    requires IsRun(run) && i <= j < |run.states| && c < |run.states[i].chans|
    requires StateOf(run.states[j].chans, c) != Dead
    ensures StateOf(run.states[i].chans, c) != Dead
  {
    if StateOf(run.states[i].chans, c) == Dead {
      SettledStays(run, i, j, c);
    }
  }

  /**
    A valid request has a newer generation beside one that has not died only if its key was
    dropped for capacity after the older was claimed and before the newer was.
   */
  lemma TwoGenerationsNeedAnEviction(run: Run, j: nat, c: nat, d: nat) returns (k: nat)
    requires IsRun(run) && j < |run.states| && c < d < |run.states[j].chans|
    requires run.states[j].chans[c].req == run.states[j].chans[d].req
    requires run.states[j].now < run.states[j].chans[c].req.body.expiresAt
    requires run.states[j].chans[c].state != Dead
    ensures k < j && c < |run.states[k].chans| <= d && EvictsAt(run, k, Key(run.states[j].chans[c].req))
  {
    var req := run.states[j].chans[c].req;
    var first := OpenedAt(run, j, c);
    var second := OpenedAt(run, j, d);
    ChansOrder(run, first, second);
    Grows(run, first + 1, j);
    Grows(run, second, j);
    AliveBefore(run, first + 1, j, c);
    AliveBefore(run, second, j, c);
    assert StandsAt(run.states[first + 1], Key(req), c);
    OnTableIff(run, first + 1, second, Key(req), c);
    RunKeepsInv(run, second);
    if OnTable(run.states[second], Key(req), c) {
      StandingIsKept(run.states[second], Key(req), c);
    }
    k :| first + 1 <= k < second && EvictsAt(run, k, Key(req));
    ChansBetween(run, first + 1, k);
    ChansBetween(run, k, second);
  }

  lemma {:induction false} ChansBetween(run: Run, i: nat, j: nat)
    requires IsRun(run) && i <= j < |run.states|
    ensures |run.states[i].chans| <= |run.states[j].chans|
    decreases j - i
  {
    if i < j {
      assert StepAt(run, i);
      ChansGrow(run.states[i], run.labels[i]);
      ChansBetween(run, i + 1, j);
    }
  }

  lemma ChansOrder(run: Run, first: nat, second: nat)
    requires IsRun(run) && first < |run.labels| && second < |run.states|
    requires |run.states[first].chans| < |run.states[second].chans|
    ensures first + 1 <= second
  {
    if second <= first {
      ChansBetween(run, second, first);
    }
  }

  /** A recorded answer is the state of a generation of its request. */
  lemma {:induction false} AnswerHasGeneration(run: Run, i: nat, a: Answer) returns (c: nat)
    requires IsRun(run) && i < |run.states| && a in run.states[i].answers
    ensures c < |run.states[i].chans| && run.states[i].chans[c] == Channel(a.req, ChanState.Answered(a.outcome))
  {
    if a in run.states[i - 1].answers {
      c := AnswerHasGeneration(run, i - 1, a);
      SettledStays(run, i - 1, i, c);
    } else {
      RunKeepsInv(run, i - 1);
      assert StepAt(run, i - 1);
      c := RecordedIn(run.states[i - 1], run.labels[i - 1], a);
    }
  }

  lemma RecordedIn(s: Sys, l: Label, a: Answer) returns (c: nat)
    requires Inv(s) && Enabled(s, l) && a in Next(s, l).answers && a !in s.answers
    ensures c < |Next(s, l).chans| && Next(s, l).chans[c] == Channel(a.req, ChanState.Answered(a.outcome))
  {
    c := s.lanes[l.lane].chan;
    assert LaneOk(s, s.lanes[l.lane]);
  }

  /**
    An answered request is prompted for again only if its key was dropped for capacity
    between the claim that was answered and the claim that prompts.
   */
  lemma SecondPromptNeedsAnEviction(run: Run, i: nat, a: Answer, j: nat, n: nat) returns (c: nat, k: nat)
    requires IsRun(run) && i <= j && i < |run.states| && a in run.states[i].answers && PromptsAt(run, j, n, a.req)
    ensures k < j && EvictsAt(run, k, Key(a.req))
    ensures c < |run.states[j].chans| && run.states[j].chans[c] == Channel(a.req, ChanState.Answered(a.outcome))
    ensures var d, claimed := run.states[j].lanes[n].chan, |run.states[k].chans|;
            c < claimed <= d || d < claimed <= c
  {
    c := AnswerHasGeneration(run, i, a);
    SettledStays(run, i, j, c);
    RunKeepsInv(run, j);
    assert StepAt(run, j);
    var s := run.states[j];
    var d := s.lanes[n].chan;
    assert LaneOk(s, s.lanes[n]);
    if c < d {
      k := TwoGenerationsNeedAnEviction(run, j, c, d);
    } else {
      k := TwoGenerationsNeedAnEviction(run, j, d, c);
    }
  }

  lemma EvictedStep(s: Sys, l: Label, key: string)
    requires Enabled(s, l)
    ensures key in Next(s, l).evicted <==> key in s.evicted || Evicts(s, l, key)
  {
  }

  /** The keys the other theorems call evicted are those some earlier claim dropped for capacity. */
  lemma {:induction false} EvictedIff(run: Run, j: nat, key: string)
    requires IsRun(run) && j < |run.states|
    ensures key in run.states[j].evicted <==> exists k :: 0 <= k < j && EvictsAt(run, k, key)
  {
    if j > 0 {
      EvictedIff(run, j - 1, key);
      assert StepAt(run, j - 1);
      EvictedStep(run.states[j - 1], run.labels[j - 1], key);
      assert EvictsAt(run, j - 1, key) <==> Evicts(run.states[j - 1], run.labels[j - 1], key);
    }
  }

  /**
    Two lanes prompt for one request only if the first died in between or the key was dropped
    for capacity between the two claims. No other eviction matters.
   */
  lemma SecondPromptMeans(run: Run, i: nat, m: nat, j: nat, n: nat, req: Req)
    requires IsRun(run) && i < j && PromptsAt(run, i, m, req) && PromptsAt(run, j, n, req)
    ensures || (exists k :: i < k < j && run.labels[k] == Drop(m))
            || (exists c: nat, d: nat, k: nat :: EvictedBetween(run, k, j, req, c, d))
  {
    assert StepAt(run, i) && StepAt(run, j);
    PromptLastsOrEnds(run, i + 1, j, m, req);
    RunKeepsInv(run, j);
    var s := run.states[j];
    var d := s.lanes[n].chan;
    assert LaneOk(s, s.lanes[n]);
    if a :| a in s.answers && a.req == req {
      var c, k := SecondPromptNeedsAnEviction(run, j, a, j, n);
      assert EvictedBetween(run, k, j, req, if c < d then c else d, if c < d then d else c);
    } else if IsPrompting(s, m, req) {
      assert LaneOk(s, s.lanes[m]) && Apart(s, s.lanes[m], s.lanes[n]);
      var c := s.lanes[m].chan;
      var k := TwoGenerationsNeedAnEviction(run, j, if c < d then c else d, if c < d then d else c);
      assert EvictedBetween(run, k, j, req, if c < d then c else d, if c < d then d else c);
    }
  }

  /** Step `k` drops the key after generation `c` of the request was claimed and before `d` was. */
  ghost predicate EvictedBetween(run: Run, k: nat, j: nat, req: Req, c: nat, d: nat)
    requires |run.labels| < |run.states|
  {
    && k < j < |run.states| && k < |run.labels| && EvictsAt(run, k, Key(req)) && c < |run.states[k].chans| <= d < |run.states[j].chans|
    && run.states[j].chans[c].req == req && run.states[j].chans[d].req == req
  }

  // ---- disagreement ----

  lemma {:induction false} PromptingWasPrompted(run: Run, j: nat, n: nat) returns (v: nat)
    requires IsRun(run) && j < |run.states| && n in run.states[j].lanes
    requires run.states[j].lanes[n].Owner? && run.states[j].lanes[n].prompting
    ensures v < j && run.states[v].now < run.states[j].lanes[n].req.body.expiresAt
    ensures InChans(run.states[v], run.states[j].lanes[n].chan, run.states[j].lanes[n].req)
  {
    assert j > 0 && StepAt(run, j - 1);
    var s := run.states[j - 1];
    if run.labels[j - 1] == Prompt(n) {
      v := j - 1;
      RunKeepsInv(run, v);
      assert LaneOk(s, s.lanes[n]);
    } else {
      v := PromptingWasPrompted(run, j - 1, n);
    }
  }

  /** Every answered generation was already there while its request was valid: somebody prompted for it then. */
  lemma {:induction false} AnsweredWasPrompted(run: Run, j: nat, c: nat) returns (v: nat)
    requires IsRun(run) && j < |run.states| && StateOf(run.states[j].chans, c).Answered?
    ensures v < j && c < |run.states[v].chans| && run.states[v].chans[c].req == run.states[j].chans[c].req
    ensures run.states[v].now < run.states[j].chans[c].req.body.expiresAt
  {
    assert j > 0 && StepAt(run, j - 1);
    var s, l := run.states[j - 1], run.labels[j - 1];
    if StateOf(s.chans, c).Answered? {
      SettledStays(run, j - 1, j, c);
      v := AnsweredWasPrompted(run, j - 1, c);
    } else {
      RunKeepsInv(run, j - 1);
      AnsweredByStep(s, l, c);
      v := PromptingWasPrompted(run, j - 1, l.lane);
    }
  }

  lemma AnsweredByStep(s: Sys, l: Label, c: nat)
    requires Inv(s) && Enabled(s, l) && StateOf(Next(s, l).chans, c).Answered? && !StateOf(s.chans, c).Answered?
    ensures l.Record? && l.lane in s.lanes && s.lanes[l.lane].Owner? && s.lanes[l.lane].prompting
    ensures s.lanes[l.lane].chan == c && InChans(s, c, s.lanes[l.lane].req)
    ensures Next(s, l).chans[c].req == s.lanes[l.lane].req
  {
    assert l.Record? ==> LaneOk(s, s.lanes[l.lane]);
  }

  /** Two answered generations of one request have an eviction of its key between their claims. */
  lemma TwoAnswersNeedAnEviction(run: Run, j: nat, c: nat, d: nat) returns (k: nat)
    requires IsRun(run) && j < |run.states| && c < d
    requires StateOf(run.states[j].chans, c).Answered? && StateOf(run.states[j].chans, d).Answered?
    requires run.states[j].chans[c].req == run.states[j].chans[d].req
    ensures EvictedBetween(run, k, j, run.states[j].chans[c].req, c, d)
  {
    var v := AnsweredWasPrompted(run, j, d);
    AliveBefore(run, v, j, c);
    RequestStays(run, v, j, c);
    k := TwoGenerationsNeedAnEviction(run, v, c, d);
  }

  /**
    Agreement, with nothing left open: deliveries of one request differ only if its key was
    dropped for capacity between the two claims that were answered.
   */
  lemma DisagreementNeedsAnEviction(run: Run, i: nat, m: nat, j: nat, n: nat, req: Req, a: Outcome, b: Outcome)
    returns (c: nat, d: nat, k: nat)
    requires IsRun(run) && i <= j && DeliversAt(run, i, m, req, a) && DeliversAt(run, j, n, req, b) && a != b
    ensures EvictedBetween(run, k, j, req, c, d)
  {
    c := DeliveryHasGeneration(run, i, m, req, a);
    d := DeliveryHasGeneration(run, j, n, req, b);
    SettledStays(run, i, j, c);
    if d < c {
      c, d := d, c;
    }
    k := TwoAnswersNeedAnEviction(run, j, c, d);
  }

  lemma DeliveryHasGeneration(run: Run, i: nat, m: nat, req: Req, a: Outcome) returns (c: nat)
    requires IsRun(run) && DeliversAt(run, i, m, req, a)
    ensures c < |run.states[i].chans| && run.states[i].chans[c] == Channel(req, ChanState.Answered(a))
  {
    RunKeepsInv(run, i);
    assert LaneOk(run.states[i], run.states[i].lanes[m]);
    c := AnswerHasGeneration(run, i, Answer(req, a));
  }

  // ---- a recorded answer reaches its lanes ----

  /** What a lane carrying `req` ends with when the answer is `outcome`, on either lane. */
  function EndsWith(req: Req, outcome: Outcome): Lane {
    match outcome
    case Verdict(_, _) => Delivered(req, outcome)
    case Unanswered => Over
  }

  /** The owner that records an answer delivers exactly it, and opens it to everyone on its channel. */
  lemma RecordDelivers(run: Run, k: nat)
    requires IsRun(run) && k < |run.labels| && run.labels[k].Record?
    ensures var n, outcome := run.labels[k].lane, run.labels[k].outcome;
            && n in run.states[k].lanes && run.states[k].lanes[n].Owner? && n in run.states[k + 1].lanes
            && run.states[k + 1].lanes[n] == EndsWith(run.states[k].lanes[n].req, outcome)
            && StateOf(run.states[k + 1].chans, run.states[k].lanes[n].chan) == ChanState.Answered(outcome)
  {
    assert StepAt(run, k);
    RunKeepsInv(run, k);
    assert LaneOk(run.states[k], run.states[k].lanes[run.labels[k].lane]);
  }

  ghost predicate WaitsOn(s: Sys, n: nat, req: Req, c: nat) {
    n in s.lanes && s.lanes[n].Waiter? && s.lanes[n].req == req && s.lanes[n].chan == c
  }

  /** How a waiter on an answered channel can go on. */
  lemma WaiterStep(s: Sys, l: Label, n: nat, req: Req, c: nat)
    requires Inv(s) && Enabled(s, l) && WaitsOn(s, n, req, c) && StateOf(s.chans, c).Answered?
    ensures var t := Next(s, l);
            || WaitsOn(t, n, req, c)
            || (l == Relay(n) && n in t.lanes && t.lanes[n] == EndsWith(req, StateOf(s.chans, c).outcome))
            || l == Drop(n)
            || (l == Expire(n) && req.body.expiresAt <= s.now)
    ensures Enabled(s, Relay(n))
  {
    assert LaneOk(s, s.lanes[n]);
    assert ChanOk(s, c);
  }

  /**
    A waiter on an answered channel gets that answer: until it is dropped or its request
    expires it can relay, and it never leaves in any other way, nor with anything else.
   */
  lemma {:induction false} WaiterGetsTheAnswer(run: Run, i: nat, j: nat, n: nat, req: Req, c: nat)
    requires IsRun(run) && i <= j < |run.states| && WaitsOn(run.states[i], n, req, c)
    requires StateOf(run.states[i].chans, c).Answered?
    ensures || (WaitsOn(run.states[j], n, req, c) && Enabled(run.states[j], Relay(n)))
            || (exists k :: i <= k < j && run.labels[k] == Relay(n) && n in run.states[k + 1].lanes
                            && run.states[k + 1].lanes[n] == EndsWith(req, StateOf(run.states[i].chans, c).outcome))
            || (exists k :: i <= k < j && run.labels[k] == Drop(n))
            || (exists k :: i <= k < j && run.labels[k] == Expire(n) && req.body.expiresAt <= run.states[k].now)
    decreases j - i
  {
    RunKeepsInv(run, i);
    if i == j {
      WaiterStep(run.states[i], Tick(0), n, req, c);
    } else {
      assert StepAt(run, i);
      WaiterStep(run.states[i], run.labels[i], n, req, c);
      SettledStays(run, i, i + 1, c);
      if WaitsOn(run.states[i + 1], n, req, c) {
        WaiterGetsTheAnswer(run, i + 1, j, n, req, c);
      } else {
        assert run.labels[i] == Relay(n) || run.labels[i] == Drop(n) || run.labels[i] == Expire(n);
      }
    }
  }

  // ---- after an owner's death ----

  /** The table shows a generation newer than `c`, and it will not take this lane's request. */
  ghost predicate TakenSince(s: Sys, req: Req, c: nat) {
    var claims := Pruned(s.claims, s.now);
    && Key(req) in claims && c < claims[Key(req)].chan
    && var seen := claims[Key(req)];
       || seen.body != req.body
       || StateOf(s.chans, seen.chan).Answered?
       || (StateOf(s.chans, seen.chan).Live? && seen.attached)
  }

  /** What a reclaim finds: nothing newer than its dead owner is its own generation, and that one is free. */
  lemma ReclaimCase(s: Sys, x: Lane)
    requires Inv(s) && LaneOk(s, x) && x.Waiter? && StateOf(s.chans, x.chan) == Dead
    ensures var claims := Pruned(s.claims, s.now);
            && (CaseOf(claims, s.chans, x.req) == Duplicate <==> TakenSince(s, x.req, x.chan))
            && (CaseOf(claims, s.chans, x.req) == Attach ==>
                  x.chan < claims[Key(x.req)].chan && StateOf(s.chans, claims[Key(x.req)].chan) == Live)
            && x.chan < |s.chans|
  {
    assert Key(x.req) in s.claims ==> ClaimOk(s, Key(x.req));
  }

  /**
    A waiter whose owner died leaves with nothing exactly when another delivery has owned the
    key since, and that one is answered already, has a waiter already, or carries another body.
    Otherwise it owns the request or waits on its newer owner.
   */
  lemma ReclaimMeaning(run: Run, k: nat, n: nat)
    requires IsRun(run) && k < |run.labels| && run.labels[k].Claim? && run.labels[k].lane == n
    requires n in run.states[k].lanes && run.states[k].lanes[n].Waiter?
    ensures var s, t := run.states[k], run.states[k + 1];
            var x := s.lanes[n];
            && n in t.lanes
            && (t.lanes[n] == Over <==> TakenSince(s, x.req, x.chan))
            && (t.lanes[n] != Over ==>
                  (t.lanes[n].Owner? || t.lanes[n].Waiter?) && t.lanes[n].req == x.req
                  && x.chan < t.lanes[n].chan && StateOf(t.chans, t.lanes[n].chan) == Live)
  {
    assert StepAt(run, k);
    RunKeepsInv(run, k);
    assert LaneOk(run.states[k], run.states[k].lanes[n]);
    ReclaimCase(run.states[k], run.states[k].lanes[n]);
  }

  /** Some lane owns generation `c`. */
  ghost predicate HasOwner(s: Sys, c: nat) {
    exists n :: n in s.lanes && s.lanes[n].Owner? && s.lanes[n].chan == c
  }

  lemma OwnerStays(s: Sys, l: Label, n: nat)
    requires Inv(s) && Enabled(s, l) && n in s.lanes && s.lanes[n].Owner?
    ensures n in Next(s, l).lanes && StateOf(s.chans, s.lanes[n].chan) == Live
    ensures StateOf(Next(s, l).chans, s.lanes[n].chan) == Live ==>
              Next(s, l).lanes[n].Owner? && Next(s, l).lanes[n].chan == s.lanes[n].chan
  {
    assert LaneOk(s, s.lanes[n]);
  }

  lemma BornOwned(s: Sys, l: Label, c: nat)
    requires Inv(s) && Enabled(s, l) && StateOf(Next(s, l).chans, c) == Live && StateOf(s.chans, c) != Live
    ensures l.Claim? && l.lane in Next(s, l).lanes
    ensures Next(s, l).lanes[l.lane].Owner? && Next(s, l).lanes[l.lane].chan == c
  {
  }

  lemma LiveStep(s: Sys, l: Label, c: nat)
    requires Inv(s) && Enabled(s, l) && StateOf(Next(s, l).chans, c) == Live
    requires StateOf(s.chans, c) == Live ==> HasOwner(s, c)
    ensures HasOwner(Next(s, l), c)
  {
    if StateOf(s.chans, c) == Live {
      var n :| n in s.lanes && s.lanes[n].Owner? && s.lanes[n].chan == c;
      OwnerStays(s, l, n);
    } else {
      BornOwned(s, l, c);
    }
  }

  lemma LiveStepAt(run: Run, k: nat, c: nat)
    requires IsRun(run) && k < |run.labels| && StateOf(run.states[k + 1].chans, c) == Live
    requires StateOf(run.states[k].chans, c) == Live ==> HasOwner(run.states[k], c)
    ensures HasOwner(run.states[k + 1], c)
  {
    RunKeepsInv(run, k);
    assert StepAt(run, k);
    LiveStep(run.states[k], run.labels[k], c);
  }

  /** A generation is live only while some lane owns it. */
  lemma {:induction false} LiveHasOwner(run: Run, k: nat, c: nat)
    requires IsRun(run) && k < |run.states| && StateOf(run.states[k].chans, c) == Live
    ensures HasOwner(run.states[k], c)
  {
    assert k > 0;
    if StateOf(run.states[k - 1].chans, c) == Live {
      LiveHasOwner(run, k - 1, c);
    }
    LiveStepAt(run, k - 1, c);
  }

  /** The generation on the table for a request nobody answered and nobody owns is dead. */
  lemma UndecidedIsDead(run: Run, k: nat, req: Req)
    requires IsRun(run) && k < |run.states| && ValidId(req.id)
    requires Key(req) in run.states[k].claims && run.states[k].claims[Key(req)].body == req.body
    requires forall a :: a in run.states[k].answers ==> a.req != req
    requires forall m :: !Owns(run.states[k], m, req)
    ensures StateOf(run.states[k].chans, run.states[k].claims[Key(req)].chan) == Dead
  {
    RunKeepsInv(run, k);
    var s := run.states[k];
    var c := s.claims[Key(req)].chan;
    ClaimCarriesRequest(s, req);
    assert ChanOk(s, c);
    if StateOf(s.chans, c) == Live {
      LiveHasOwner(run, k, c);
      var m :| m in s.lanes && s.lanes[m].Owner? && s.lanes[m].chan == c;
      assert LaneOk(s, s.lanes[m]);
      assert Owns(s, m, req);
    }
  }

  lemma OwnsIffOwn(run: Run, k: nat, n: nat, req: Req)
    requires IsRun(run) && k < |run.labels| && run.labels[k].Claim? && run.labels[k].lane == n
    requires n in run.states[k].lanes && (run.states[k].lanes[n].Opened? || run.states[k].lanes[n].Waiter?)
    requires run.states[k].lanes[n].req == req
    ensures var s := run.states[k];
            Owns(run.states[k + 1], n, req) <==> CaseOf(Pruned(s.claims, s.now), s.chans, req) == Own
  {
    assert StepAt(run, k);
  }

  /**
    A request nobody has answered and nobody owns stays answerable, on a first delivery or
    after any number of deaths: a claim of it owns it exactly when its id is not on the table
    with another body.
   */
  lemma UndecidedIsClaimable(run: Run, k: nat, n: nat, req: Req)
    requires IsRun(run) && k < |run.labels| && run.labels[k].Claim? && run.labels[k].lane == n
    requires n in run.states[k].lanes && (run.states[k].lanes[n].Opened? || run.states[k].lanes[n].Waiter?)
    requires run.states[k].lanes[n].req == req
    requires forall a :: a in run.states[k].answers ==> a.req != req
    requires forall m :: !Owns(run.states[k], m, req)
    ensures var claims := Pruned(run.states[k].claims, run.states[k].now);
            Owns(run.states[k + 1], n, req) <==> !(Key(req) in claims && claims[Key(req)].body != req.body)
  {
    OwnsIffOwn(run, k, n, req);
    RunKeepsInv(run, k);
    assert LaneOk(run.states[k], run.states[k].lanes[n]);
    if Key(req) in run.states[k].claims && run.states[k].claims[Key(req)].body == req.body {
      UndecidedIsDead(run, k, req);
    }
  }
}
