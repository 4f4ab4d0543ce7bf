// The run behind the conditions on sheets: an ask dropped while its signer is starting.
module TouchIdDrops {
  import opened Prelude
  import opened TouchId
  import opened TouchIdRuns

  function Last(run: Run): Sys
    requires run.states != []
  {
    run.states[|run.states| - 1]
  }

  lemma Extend(run: Run, l: Label) returns (r: Run)
    requires IsRun(run) && Enabled(Last(run), l)
    ensures IsRun(r) && Last(r) == Next(Last(run), l)
  {
    r := Run(run.states + [Next(Last(run), l)], run.labels + [l]);
    forall k: nat | k < |r.labels|
      ensures StepAt(r, k)
    {
      if k < |run.labels| {
        assert StepAt(run, k);
        assert r.states[k] == run.states[k] && r.states[k + 1] == run.states[k + 1];
        assert r.labels[k] == run.labels[k];
      }
    }
  }

  /** Ask 0 has begun and was dropped before its signer armed; its signer is still on the way. */
  lemma DroppedAsk() returns (r: Run)
    ensures IsRun(r)
    ensures var s := Last(r);
            && s.now == 0 && !s.locked && s.holder == None && s.begins == 1 && s.invalid == {}
            && s.canceller == Canceller(1, None, true)
            && s.asks == map[0 := Ask(10, Dropped, 1, Sleeping, Started, false)]
  {
    r := Run([Sys(0, false, None, 0, Canceller(0, None, false), map[], {})], []);
    r := Extend(r, Enter(0, 10));
    r := Extend(r, Acquire(0));
    r := Extend(r, Begin(0));
    r := Extend(r, Drop(0));
  }

  /** The next ask takes the sheet and shows its own, and then the old signer shows too. */
  lemma TwoSheets() returns (r: Run)
    ensures IsRun(r)
    ensures var s := Last(r);
            && s.now == 0 && s.holder == Some(1) && s.begins == 2 && s.invalid == {}
            && s.canceller == Canceller(2, Some(0), false)
            && s.asks == map[0 := Ask(10, Dropped, 1, Sleeping, Showing, false),
                             1 := Ask(10, Signing, 2, Sleeping, Showing, false)]
  {
    r := DroppedAsk();
    r := Extend(r, Enter(1, 10));
    r := Extend(r, Acquire(1));
    r := Extend(r, Begin(1));
    r := Extend(r, Arm(1));
    r := Extend(r, Arm(0));
  }

  /**
    A run in which an ask is dropped while its signer is starting: two sheets show at once,
    and the live request's deadline then tears down the wrong one, so its own can still sign.
   */
  lemma DropBreaksTheSheetRules() returns (r: Run, k: nat)
    ensures IsRun(r) && k < |r.states| && Bounded(r.states[k]) && Has(r.states[k], 0, Dropped)
    ensures var s := r.states[k];
            && 0 in s.asks && 1 in s.asks && Running(s.asks[0]) && Running(s.asks[1])
            && Has(s, 1, Signing) && s.asks[1].timer.Spent? && s.asks[1].signer.Showing?
            && 1 !in s.invalid && Enabled(s, Respond(1, Signature))
  {
    r := TwoSheets();
    r := Extend(r, Tick(10));
    r := Extend(r, Wake(1));
    r := Extend(r, Store(1));
    r := Extend(r, Cancel(1));
    k := |r.states| - 1;
  }
}
