// How asks end, and that the Touch ID prompt moves on: who can act in every reachable state.
module TouchIdProgress {
  import opened Prelude
  import opened TouchId
  import opened TouchIdRuns

  /** What an ask's phase, clock, timer and signer say about each other, wrapped numbers or not. */
  predicate Consistent(s: Sys, a: Ask) {
    && (a.phase.Waiting? || a.phase.Polling? ==> a.signer.Idle? && a.timer.Unset?)
    && (a.phase.Signing? ==> !a.signer.Idle?)
    && (a.phase.Settling? ==> a.signer.Returned? && !a.timer.Sleeping?)
    && (a.timer.Woken? || a.expired || a.phase == Done(Expired) ==> a.expiresAt <= s.now)
    && (a.timer.Unset? || a.timer.Sleeping? || a.timer.Aborted? ==> !a.expired)
  }

  lemma ConsistentStep(s: Sys, l: Label, i: nat)
    requires Enabled(s, l) && (i in s.asks ==> Consistent(s, s.asks[i]))
    ensures i in Next(s, l).asks ==> Consistent(Next(s, l), Next(s, l).asks[i])
  {
  }

  lemma {:induction false} RunConsistent(run: Run, k: nat, i: nat)
    requires IsRun(run) && k < |run.states|
    ensures i in run.states[k].asks ==> Consistent(run.states[k], run.states[k].asks[i])
  {
    if k > 0 {
      RunConsistent(run, k - 1, i);
      assert StepAt(run, k - 1);
      ConsistentStep(run.states[k - 1], run.labels[k - 1], i);
    }
  }

  // ---- how an ask ends ----

  /** Nothing expires early: a stored flag or an expired outcome is at or after the request's expiry. */
  lemma ExpiredIsLate(run: Run, k: nat, i: nat)
    requires IsRun(run) && k < |run.states| && i in run.states[k].asks
    ensures FlagStored(run, k, i) || run.states[k].asks[i].phase == Done(Expired) ==>
              run.states[k].asks[i].expiresAt <= run.states[k].now
  {
    RunConsistent(run, k, i);
    AskRemembers(run, k, i);
  }

  lemma {:induction false} AbortedStays(run: Run, j: nat, k: nat, i: nat)
    requires IsRun(run) && j <= k < |run.states| && i in run.states[j].asks && run.states[j].asks[i].timer.Aborted?
    ensures i in run.states[k].asks && run.states[k].asks[i].timer.Aborted?
  {
    if j < k {
      AbortedStays(run, j, k - 1, i);
      assert StepAt(run, k - 1);
      RunConsistent(run, k - 1, i);
    }
  }

  /** A signer that is back while the deadline task still sleeps decides, however late the ask concludes. */
  lemma JoinedInTimeCounts(run: Run, j: nat, c: nat, i: nat)
    requires IsRun(run) && j < c < |run.labels| && run.labels[j] == Join(i) && run.labels[c] == Conclude(i)
    requires i in run.states[j].asks && run.states[j].asks[i].timer.Sleeping?
    ensures Has(run.states[c + 1], i, Done(Approved)) <==> Came(run, c, i, Signature)
    ensures Has(run.states[c + 1], i, Done(Denied)) <==> Came(run, c, i, Dismissed)
    ensures Has(run.states[c + 1], i, Done(Error)) <==> Came(run, c, i, Fault)
  {
    assert StepAt(run, j);
    AbortedStays(run, j + 1, c, i);
    RunConsistent(run, c, i);
    AskRemembers(run, c, i);
    ConcludesWith(run, c, i);
  }

  /** Giving up, concluding and being dropped end the ask and let the next one have the sheet. */
  lemma EndingFreesTheSheet(run: Run, k: nat, i: nat)
    requires IsRun(run) && k < |run.labels|
    requires || run.labels[k] == GiveUp(i) || run.labels[k] == Conclude(i)
             || (run.labels[k] == Drop(i) && !Has(run.states[k], i, Waiting))
    ensures run.states[k + 1].holder.None?
    ensures run.labels[k] == GiveUp(i) ==> Has(run.states[k + 1], i, Done(Expired))
    ensures run.labels[k] == Drop(i) ==> Has(run.states[k + 1], i, Dropped)
    ensures i in run.states[k + 1].asks && (run.states[k + 1].asks[i].phase.Done? || run.states[k + 1].asks[i].phase.Dropped?)
  {
    assert StepAt(run, k);
  }

  lemma EndStays(s: Sys, l: Label, i: nat)
    requires Enabled(s, l) && i in s.asks && (s.asks[i].phase.Done? || s.asks[i].phase.Dropped?)
    ensures i in Next(s, l).asks && Next(s, l).asks[i].phase == s.asks[i].phase
  {
  }

  /** However an ask ended, it stays that way. */
  lemma {:induction false} EndIsFinal(run: Run, j: nat, k: nat, i: nat)
    requires IsRun(run) && j <= k < |run.states| && i in run.states[j].asks
    requires run.states[j].asks[i].phase.Done? || run.states[j].asks[i].phase.Dropped?
    ensures i in run.states[k].asks && run.states[k].asks[i].phase == run.states[j].asks[i].phase
  {
    if j < k {
      EndIsFinal(run, j, k - 1, i);
      assert StepAt(run, k - 1);
      EndStays(run.states[k - 1], run.labels[k - 1], i);
    }
  }

  // ---- nobody is stuck ----

  /**
    An ask can take a step of its own in every reachable state, except while it waits for
    someone else's sheet or for a locked screen with time left. A fingerprint read can always be
    refused, and a signer that has not come up yet can also fail.
   */
  lemma AskCanStep(run: Run, k: nat, i: nat)
    requires IsRun(run) && k < |run.states| && i in run.states[k].asks
    ensures var s := run.states[k]; var a := s.asks[i];
            && (a.phase.Waiting? ==> (Enabled(s, Acquire(i)) <==> s.holder.None?))
            && (a.phase.Polling? ==> (Enabled(s, Begin(i)) || Enabled(s, GiveUp(i)) <==> !s.locked || a.expiresAt <= s.now))
            && (a.phase.Polling? ==> !(Enabled(s, Begin(i)) && Enabled(s, GiveUp(i))))
            && (a.phase.Signing? ==>
                  || (Enabled(s, Arm(i)) && Enabled(s, Fail(i))) || Enabled(s, Respond(i, Dismissed))
                  || Enabled(s, Disarm(i)) || Enabled(s, Join(i)))
            && (a.phase.Settling? ==> Enabled(s, Conclude(i)))
            && (a.phase.Waiting? || a.phase.Polling? || a.phase.Signing? ==> Enabled(s, Drop(i)))
            && (a.timer.Sleeping? ==> (Enabled(s, Wake(i)) <==> a.expiresAt <= s.now))
            && (a.timer.Woken? ==> Enabled(s, Store(i))) && (a.timer.Stored? ==> Enabled(s, Cancel(i)))
  {
    RunConsistent(run, k, i);
  }

  lemma UnknownStep(s: Sys, l: Label, i: nat)
    requires Enabled(s, l) && (i !in s.asks ==> i !in s.invalid && s.canceller.context != Some(i))
    ensures i !in Next(s, l).asks ==> i !in Next(s, l).invalid && Next(s, l).canceller.context != Some(i)
  {
  }

  lemma {:induction false} UnknownHasNoSheet(run: Run, k: nat, i: nat)
    requires IsRun(run) && k < |run.states|
    ensures i !in run.states[k].asks ==> i !in run.states[k].invalid && run.states[k].canceller.context != Some(i)
  {
    if k > 0 {
      UnknownHasNoSheet(run, k - 1, i);
      assert StepAt(run, k - 1);
      UnknownStep(run.states[k - 1], run.labels[k - 1], i);
    }
  }

  function Last(run: Run): Sys
    requires run.states != []
  {
    run.states[|run.states| - 1]
  }

  ghost predicate Extends(longer: Run, run: Run) {
    IsRun(longer) && run.states <= longer.states && run.labels <= longer.labels
  }

  /** One more step. */
  lemma Then(start: Run, run: Run, l: Label) returns (longer: Run)
    requires Extends(run, start) && Enabled(Last(run), l)
    ensures Extends(longer, start) && Last(longer) == Next(Last(run), l)
  {
    longer := Run(run.states + [Next(Last(run), l)], run.labels + [l]);
    forall k: nat | k < |longer.labels|
      ensures StepAt(longer, k)
    {
      if k < |run.labels| {
        assert StepAt(run, k);
      }
    }
  }

  /** From any reachable state with the sheet free, a new request in time has a run that approves it. */
  lemma FreshAskCanBeApproved(run: Run, i: nat, expiresAt: int) returns (longer: Run)
    requires IsRun(run) && Last(run).holder.None? && i !in Last(run).asks && Last(run).now < expiresAt
    ensures Extends(longer, run)
    ensures Has(Last(longer), i, Done(Approved)) && Last(longer).holder.None? && Last(longer).now == Last(run).now
  {
    UnknownHasNoSheet(run, |run.states| - 1, i);
    longer := CanRaise(run, i, expiresAt);
    longer := Then(run, longer, Respond(i, Signature));
    longer := Then(run, longer, Disarm(i));
    longer := Then(run, longer, Join(i));
    longer := Then(run, longer, Conclude(i));
  }

  /** Up to the sheet on screen, unlocking it if need be. */
  lemma CanRaise(run: Run, i: nat, expiresAt: int) returns (longer: Run)
    requires IsRun(run) && Last(run).holder.None? && i !in Last(run).asks && Last(run).now < expiresAt
    requires i !in Last(run).invalid
    ensures Extends(longer, run)
    ensures Has(Last(longer), i, Signing) && Last(longer).asks[i].signer == Showing && !Last(longer).asks[i].expired
    ensures i !in Last(longer).invalid && Last(longer).now == Last(run).now
  {
    longer := Then(run, run, Enter(i, expiresAt));
    longer := Then(run, longer, Acquire(i));
    longer := Then(run, longer, Screen(false));
    longer := Then(run, longer, Begin(i));
    longer := Then(run, longer, Arm(i));
  }

  // ---- dropping a prompt takes its sheet down ----

  /**
    A prompt dropped while its sheet shows takes the sheet down exactly when it was down already
    or no other signer armed or disarmed since it came up.
   */
  lemma DropTakesDownIff(run: Run, a: nat, c: nat, i: nat)
    requires IsRun(run) && a < c < |run.labels| && Bounded(run.states[c])
    requires run.labels[a] == Arm(i) && run.labels[c] == Drop(i)
    requires forall j :: a < j <= c ==> ShowsAt(run, j, i)
    ensures i in run.states[c + 1].invalid <==> i in run.states[c].invalid || forall j :: a < j < c ==> !Disturbs(run, j, i)
  {
    assert StepAt(run, c);
    RunKeepsInv(run, c);
    var s := run.states[c];
    assert AskOk(s, i, s.asks[i]);
    assert ShowsAt(run, c, i);
    assert Number(s.asks[i]) == s.canceller.attempt;
    ContextKeptIff(run, a, c, i);
  }

  lemma {:induction false} CancelledUntilBegin(run: Run, j: nat, k: nat)
    requires IsRun(run) && j <= k < |run.states| && run.states[j].canceller.cancelled
    requires forall m :: j <= m < k ==> !run.labels[m].Begin?
    ensures run.states[k].canceller.cancelled
  {
    if j < k {
      CancelledUntilBegin(run, j, k - 1);
      assert StepAt(run, k - 1);
    }
  }

  /** A prompt dropped before its sheet came up: the sheet comes up invalid unless another attempt has begun. */
  lemma DroppedSheetComesUpInvalid(run: Run, c: nat, a: nat, i: nat)
    requires IsRun(run) && c < a < |run.labels| && Bounded(run.states[c])
    requires run.labels[c] == Drop(i) && Has(run.states[c], i, Signing) && run.labels[a] == Arm(i)
    requires forall m :: c < m < a ==> !run.labels[m].Begin?
    ensures i in run.states[a + 1].invalid
  {
    assert StepAt(run, c) && StepAt(run, a);
    RunKeepsInv(run, c);
    var s := run.states[c];
    assert AskOk(s, i, s.asks[i]);
    CancelledUntilBegin(run, c + 1, a);
  }
}
