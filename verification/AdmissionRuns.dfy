// Facts about whole runs of the agent's request admission.
module AdmissionRuns {
  import opened Prelude
  import opened Admission
  import opened AdmissionSteps

  datatype Run = Run(states: seq<Sys>, labels: seq<Label>)

  ghost predicate StepAt(run: Run, i: nat)
    requires |run.states| == |run.labels| + 1 && i < |run.labels|
  {
    Enabled(run.states[i], run.labels[i]) && run.states[i + 1] == Next(run.states[i], run.labels[i])
  }

  /** Any interleaving of any number of lanes, from an agent that has just started. */
  ghost predicate IsRun(run: Run) {
    && |run.states| == |run.labels| + 1
    && Init(run.states[0])
    && forall i: nat :: i < |run.labels| ==> StepAt(run, i)
  }

  lemma {:induction false} RunKeepsInv(run: Run, k: nat)
    requires IsRun(run) && k < |run.states|
    ensures Inv(run.states[k])
  {
    if k == 0 {
      InitInv(run.states[0]);
    } else {
      RunKeepsInv(run, k - 1);
      assert StepAt(run, k - 1);
      StepKeepsInv(run.states[k - 1], run.labels[k - 1]);
    }
  }

  // ---- what only grows ----

  lemma StepGrows(s: Sys, l: Label)
    requires Enabled(s, l)
    ensures s.answers <= Next(s, l).answers && s.evicted <= Next(s, l).evicted && s.now <= Next(s, l).now
    ensures s.lanes.Keys <= Next(s, l).lanes.Keys
  {
  }

  lemma {:induction false} Grows(run: Run, i: nat, j: nat)
    requires IsRun(run) && i <= j < |run.states|
    ensures run.states[i].answers <= run.states[j].answers
    ensures run.states[i].evicted <= run.states[j].evicted
    ensures run.states[i].now <= run.states[j].now
  {
    if i < j {
      Grows(run, i, j - 1);
      assert StepAt(run, j - 1);
      StepGrows(run.states[j - 1], run.labels[j - 1]);
    }
  }

  // ---- one answer, agreed on ----

  ghost predicate DeliversAt(run: Run, k: nat, n: nat, req: Req, outcome: Outcome) {
    k < |run.states| && n in run.states[k].lanes && run.states[k].lanes[n] == Delivered(req, outcome)
  }

  /**
    Whatever lanes carried a request, and whenever they delivered, they delivered one and
    the same verdict, of the request's own kind, unless its key was dropped for capacity.
   */
  lemma Agreement(run: Run, i: nat, m: nat, j: nat, n: nat, req: Req, a: Outcome, b: Outcome)
    requires IsRun(run) && i <= j
    requires DeliversAt(run, i, m, req, a) && DeliversAt(run, j, n, req, b)
    ensures a.Verdict? && b.Verdict? && a.kind == req.kind == b.kind
    ensures Key(req) !in run.states[j].evicted ==> a == b
  {
    RunKeepsInv(run, i);
    RunKeepsInv(run, j);
    Grows(run, i, j);
    var s, t := run.states[i], run.states[j];
    assert LaneOk(s, s.lanes[m]) && LaneOk(t, t.lanes[n]);
    var answers := t.answers;
    assert Answer(req, a) in answers && Answer(req, b) in answers;
    var x :| 0 <= x < |answers| && answers[x] == Answer(req, a);
    var y :| 0 <= y < |answers| && answers[y] == Answer(req, b);
    assert x < y || y < x || x == y;
  }

  // ---- prompts ----

  ghost predicate PromptsAt(run: Run, k: nat, n: nat, req: Req) {
    && k < |run.labels| < |run.states| && run.labels[k] == Prompt(n)
    && n in run.states[k].lanes && run.states[k].lanes[n].Owner? && run.states[k].lanes[n].req == req
  }

  /** Once a request has an answer, nothing prompts for it again unless its key was ever evicted. */
  lemma AnsweredThenEvicted(run: Run, i: nat, a: Answer, j: nat, n: nat)
    requires IsRun(run) && i <= j && i < |run.states| && a in run.states[i].answers
    requires PromptsAt(run, j, n, a.req)
    ensures Key(a.req) in run.states[j].evicted
  {
    Grows(run, i, j);
    RunKeepsInv(run, j);
    assert StepAt(run, j);
    var s := run.states[j];
    assert LaneOk(s, s.lanes[n]) && AnswerOk(s, a);
  }

  ghost predicate IsPrompting(s: Sys, n: nat, req: Req) {
    n in s.lanes && s.lanes[n].Owner? && s.lanes[n].prompting && s.lanes[n].req == req
  }

  /** An owner that is prompting stays so until it records an answer or dies. */
  lemma PromptingEnds(s: Sys, l: Label, n: nat, req: Req)
    requires Enabled(s, l) && IsPrompting(s, n, req)
    ensures IsPrompting(Next(s, l), n, req) || l == Drop(n)
            || (l.Record? && l.lane == n && Answer(req, l.outcome) in Next(s, l).answers)
  {
  }

  lemma {:induction false} PromptLastsOrEnds(run: Run, i: nat, j: nat, n: nat, req: Req)
    requires IsRun(run) && i <= j < |run.states| && IsPrompting(run.states[i], n, req)
    ensures || IsPrompting(run.states[j], n, req)
            || (exists k :: i <= k < j && run.labels[k] == Drop(n))
            || (exists a :: a in run.states[j].answers && a.req == req)
  {
    if i < j {
      PromptLastsOrEnds(run, i, j - 1, n, req);
      Grows(run, j - 1, j);
      if IsPrompting(run.states[j - 1], n, req) {
        assert StepAt(run, j - 1);
        PromptingEnds(run.states[j - 1], run.labels[j - 1], n, req);
      }
    }
  }

  /**
    Two prompts for one request, its key never evicted: the first prompting lane died
    without an answer in between. A retry on the other transport raises no second sheet.
   */
  lemma SecondPromptNeedsADeath(run: Run, i: nat, m: nat, j: nat, n: nat, req: Req)
    requires IsRun(run) && i < j && PromptsAt(run, i, m, req) && PromptsAt(run, j, n, req)
    requires Key(req) !in run.states[j].evicted
    ensures exists k :: i < k < j && run.labels[k] == Drop(m)
  {
    assert StepAt(run, i) && StepAt(run, j);
    assert IsPrompting(run.states[i + 1], m, req);
    PromptLastsOrEnds(run, i + 1, j, m, req);
    RunKeepsInv(run, j);
    var s := run.states[j];
    if a :| a in s.answers && a.req == req {
      AnsweredThenEvicted(run, j, a, j, n);
    }
    if IsPrompting(s, m, req) && m != n {
      OneOwner(s, m, n);
    }
  }

  // ---- retention ----

  /** The table still records this body under its key. */
  ghost predicate Remembers(s: Sys, key: string, body: Body) {
    key in s.claims && s.claims[key].body == body
  }

  lemma ForgottenByStep(s: Sys, l: Label, key: string, body: Body)
    requires Inv(s) && Enabled(s, l) && Remembers(s, key, body)
    ensures Remembers(Next(s, l), key, body) || key in Next(s, l).evicted || body.expiresAt <= Next(s, l).now
  {
    assert ClaimOk(s, key);
  }

  lemma {:induction false} ForgottenOnlyWhenExpired(run: Run, i: nat, j: nat, key: string, body: Body)
    requires IsRun(run) && i <= j < |run.states| && Remembers(run.states[i], key, body)
    ensures || Remembers(run.states[j], key, body)
            || key in run.states[j].evicted
            || body.expiresAt <= run.states[j].now
  {
    if i < j {
      ForgottenOnlyWhenExpired(run, i, j - 1, key, body);
      Grows(run, j - 1, j);
      if Remembers(run.states[j - 1], key, body) {
        RunKeepsInv(run, j - 1);
        assert StepAt(run, j - 1);
        ForgottenByStep(run.states[j - 1], run.labels[j - 1], key, body);
      }
    }
  }

  /**
    Retention covers validity: once a claimed body is off the table, its key never evicted,
    nothing prompts for that body again, whenever its lane was opened or claimed.
   */
  lemma PrunedIsNeverPrompted(run: Run, i: nat, j: nat, k: nat, n: nat, req: Req)
    requires IsRun(run) && i <= j <= k && PromptsAt(run, k, n, req)
    requires Remembers(run.states[i], Key(req), req.body) && Key(req) !in run.states[j].evicted
    ensures Remembers(run.states[j], Key(req), req.body)
  {
    ForgottenOnlyWhenExpired(run, i, j, Key(req), req.body);
    Grows(run, j, k);
    assert StepAt(run, k);
  }

  // ---- bounds ----

  /** The lanes waiting on a prompt. */
  ghost function PromptingLanes(s: Sys): set<nat> {
    set n | n in s.lanes && s.lanes[n].Owner? && s.lanes[n].prompting
  }

  /** A permit is held by exactly one lane or free; prompts and table entries are bounded. */
  lemma WorkIsBounded(run: Run, k: nat)
    requires IsRun(run) && k < |run.states|
    ensures run.states[k].free + |Holding(run.states[k].lanes)| == 8
    ensures |PromptingLanes(run.states[k])| <= 8
    ensures |run.states[k].claims| <= 1024
  {
    RunKeepsInv(run, k);
    Subset(PromptingLanes(run.states[k]), Holding(run.states[k].lanes));
  }

  lemma Subset(a: set<nat>, b: set<nat>)
    requires a <= b
    ensures |a| <= |b|
  {
    assert b == a + (b - a);
  }

  /** While a request is valid and its key unevicted, at most one lane owns it, and the table points at it. */
  lemma OneLiveOwner(run: Run, k: nat, m: nat, n: nat)
    requires IsRun(run) && k < |run.states|
    requires var s := run.states[k];
             m in s.lanes && n in s.lanes && s.lanes[m].Owner? && s.lanes[n].Owner?
             && Key(s.lanes[m].req) == Key(s.lanes[n].req) && Key(s.lanes[m].req) !in s.evicted
             && s.now < s.lanes[m].req.body.expiresAt && s.now < s.lanes[n].req.body.expiresAt
    ensures m == n
    ensures var s := run.states[k];
            Key(s.lanes[m].req) in s.claims && s.claims[Key(s.lanes[m].req)].chan == s.lanes[m].chan
  {
    RunKeepsInv(run, k);
    assert LaneOk(run.states[k], run.states[k].lanes[m]);
    OneOwner(run.states[k], m, n);
  }

  /** One channel never has two waiters. */
  lemma OneWaiter(run: Run, k: nat, m: nat, n: nat)
    requires IsRun(run) && k < |run.states|
    requires var s := run.states[k];
             m in s.lanes && n in s.lanes && s.lanes[m].Waiter? && s.lanes[n].Waiter?
             && s.lanes[m].chan == s.lanes[n].chan
    ensures m == n
  {
    RunKeepsInv(run, k);
    assert m != n ==> Apart(run.states[k], run.states[k].lanes[m], run.states[k].lanes[n]);
  }

  // ---- the claim loop follows deaths ----

  /** How often lane `n` has claimed in the first `k` steps. */
  ghost function Turns(run: Run, k: nat, n: nat): nat
    requires k <= |run.labels|
  {
    if k == 0 then 0
    else Turns(run, k - 1, n) + (if run.labels[k - 1].Claim? && run.labels[k - 1].lane == n then 1 else 0)
  }

  /** How many owners have died without an answer in the first `k` steps. */
  ghost function Deaths(run: Run, k: nat): nat
    requires IsRun(run) && k <= |run.labels|
  {
    if k == 0 then 0 else Deaths(run, k - 1) + (if OwnerDies(run, k - 1) then 1 else 0)
  }

  ghost predicate OwnerDies(run: Run, k: nat)
    requires IsRun(run) && k < |run.labels|
  {
    var l := run.labels[k];
    l.Drop? && l.lane in run.states[k].lanes && run.states[k].lanes[l.lane].Owner?
  }

  ghost function DeadChans(chans: seq<Channel>): set<nat> {
    set c: nat | c < |chans| && chans[c].state == Dead
  }

  lemma {:induction false} DeathsCountDeadChans(run: Run, k: nat)
    requires IsRun(run) && k <= |run.labels|
    ensures Deaths(run, k) == |DeadChans(run.states[k].chans)|
  {
    if k == 0 {
      assert DeadChans(run.states[0].chans) == {};
    } else {
      DeathsCountDeadChans(run, k - 1);
      RunKeepsInv(run, k - 1);
      assert StepAt(run, k - 1);
      DeadStep(run.states[k - 1], run.labels[k - 1]);
    }
  }

  lemma OpenedIsNotDead(chans: seq<Channel>, req: Req)
    ensures DeadChans(chans + [Channel(req, Live)]) == DeadChans(chans)
  {
  }

  lemma LiveEnds(chans: seq<Channel>, c: nat, st: ChanState)
    requires c < |chans| && chans[c].state == Live && st != Live
    ensures |DeadChans(SetState(chans, c, st))| == |DeadChans(chans)| + (if st == Dead then 1 else 0)
  {
    assert DeadChans(SetState(chans, c, st)) == DeadChans(chans) + (if st == Dead then {c} else {});
  }

  /** A channel dies exactly when its owner is dropped, and only once. */
  lemma DeadStep(s: Sys, l: Label)
    requires Inv(s) && Enabled(s, l)
    ensures |DeadChans(Next(s, l).chans)| ==
            |DeadChans(s.chans)| + (if l.Drop? && s.lanes[l.lane].Owner? then 1 else 0)
  {
    if (l.Drop? || l.Record?) && s.lanes[l.lane].Owner? {
      var x := s.lanes[l.lane];
      assert LaneOk(s, x);
      LiveEnds(s.chans, x.chan, if l.Drop? then Dead else Answered(l.outcome));
    } else if l.Claim? {
      OpenedIsNotDead(s.chans, s.lanes[l.lane].req);
    }
  }

  ghost predicate InLoop(s: Sys, n: nat) {
    n in s.lanes && (s.lanes[n].Owner? || s.lanes[n].Waiter?)
  }

  /** How many turns a lane has behind it, as its own state records them. */
  ghost function TurnsIn(s: Sys, n: nat): Option<nat> {
    if InLoop(s, n) then Some(|s.lanes[n].past| + 1)
    else if n !in s.lanes || s.lanes[n].Reserved? || s.lanes[n].Opened? then Some(0)
    else None
  }

  lemma TurnStep(s: Sys, l: Label, n: nat)
    requires Enabled(s, l)
    ensures TurnsIn(Next(s, l), n).Some? ==>
              && TurnsIn(s, n).Some?
              && TurnsIn(Next(s, l), n).value == TurnsIn(s, n).value + (if l.Claim? && l.lane == n then 1 else 0)
  {
  }

  lemma {:induction false} TurnsArePast(run: Run, k: nat, n: nat)
    requires IsRun(run) && k <= |run.labels|
    ensures TurnsIn(run.states[k], n).Some? ==> Turns(run, k, n) == TurnsIn(run.states[k], n).value
  {
    if k > 0 {
      TurnsArePast(run, k - 1, n);
      assert StepAt(run, k - 1);
      TurnStep(run.states[k - 1], run.labels[k - 1], n);
    }
  }

  /** Distinct dead generations number at most the dead channels. */
  lemma {:induction false} PastIsPaid(s: Sys, past: seq<nat>, c: nat, key: string)
    requires PastOk(s, past, c, key)
    ensures |past| <= |DeadChans(s.chans)|
  {
    var seen := set i | 0 <= i < |past| :: past[i];
    Distinct(past);
    Subset(seen, DeadChans(s.chans));
  }

  lemma {:induction false} Distinct(past: seq<nat>)
    requires forall i, j :: 0 <= i < j < |past| ==> past[i] < past[j]
    ensures |set i | 0 <= i < |past| :: past[i]| == |past|
  {
    if past != [] {
      var init, last := past[..|past| - 1], past[|past| - 1];
      Distinct(init);
      var a, b := (set i | 0 <= i < |init| :: init[i]), (set i | 0 <= i < |past| :: past[i]);
      assert last !in a;
      assert b == a + {last} by {
        forall x | x in b ensures x in a + {last} {
          var i :| 0 <= i < |past| && past[i] == x;
          assert i < |init| ==> init[i] == x;
        }
        forall x | x in a ensures x in b {
          var i :| 0 <= i < |init| && init[i] == x;
          assert past[i] == x;
        }
        assert past[|past| - 1] == last;
      }
    }
  }

  /**
    The claim loop does not spin: every turn past a lane's first one is paid for by the
    death of a different owner, so a lane claims at most once more than owners have died.
   */
  lemma TurnsPaidByDeaths(run: Run, k: nat, n: nat)
    requires IsRun(run) && k <= |run.labels| && InLoop(run.states[k], n)
    ensures 1 <= Turns(run, k, n) <= Deaths(run, k) + 1
  {
    TurnsArePast(run, k, n);
    DeathsCountDeadChans(run, k);
    RunKeepsInv(run, k);
    var s := run.states[k];
    assert LaneOk(s, s.lanes[n]);
    PastIsPaid(s, s.lanes[n].past, s.lanes[n].chan, Key(s.lanes[n].req));
  }

  // ---- a waiter's ends ----

  /**
    What a waiter relays is the answer recorded for its own request. An answer of the other
    lane's kind never surfaces: relaying delivers exactly when there was a verdict.
   */
  lemma RelayDeliversTheAnswer(run: Run, k: nat)
    requires IsRun(run) && k < |run.labels| && run.labels[k].Relay?
    ensures var n, s, t := run.labels[k].lane, run.states[k], run.states[k + 1];
            n in s.lanes && s.lanes[n].Waiter? && StateOf(s.chans, s.lanes[n].chan).Answered?
            && var outcome := StateOf(s.chans, s.lanes[n].chan).outcome;
               && Answer(s.lanes[n].req, outcome) in s.answers
               && n in t.lanes && t.lanes[n] == (if outcome.Verdict? then Delivered(s.lanes[n].req, outcome) else Over)
  {
    assert StepAt(run, k);
    RunKeepsInv(run, k);
    var n, s := run.labels[k].lane, run.states[k];
    assert LaneOk(s, s.lanes[n]);
    assert ChanOk(s, s.lanes[n].chan);
  }
}
