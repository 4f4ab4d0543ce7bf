// That request admission moves on: which lanes can act in every reachable state.
module AdmissionProgress {
  import opened Admission
  import opened AdmissionRuns

  /** A table with claims has an oldest one. */
  lemma {:induction false} OldestExists(claims: map<string, Seen>, keys: set<string>) returns (victim: string)
    requires keys != {} && keys <= claims.Keys
    ensures victim in keys && forall k :: k in keys ==> claims[victim].seenAt <= claims[k].seenAt
    decreases |keys|
  {
    victim :| victim in keys;
    if keys != {victim} {
      var rest := keys - {victim};
      assert keys == {victim} + rest;
      var other := OldestExists(claims, rest);
      if claims[other].seenAt < claims[victim].seenAt {
        victim := other;
      }
      assert forall k :: k in keys ==> k in rest || claims[victim].seenAt <= claims[k].seenAt;
    }
  }

  /** A full table never stands in the way of a claim: there is always one that can make room. */
  lemma ClaimIsPossible(s: Sys, n: nat) returns (victim: string)
    requires n in s.lanes && Claimable(s.lanes[n], s.chans)
    ensures Enabled(s, Claim(n, victim))
  {
    var claims := Pruned(s.claims, s.now);
    victim := "";
    if Overfull(claims, Key(s.lanes[n].req)) {
      assert claims.Keys != {};
      victim := OldestExists(claims, claims.Keys);
    }
  }

  /** A step of lane `n` itself, short of being dropped. */
  predicate OwnStep(l: Label, n: nat) {
    !l.Tick? && !l.Drop? && l.lane == n
  }

  /** Waiting on a live owner with time left. */
  predicate Waits(s: Sys, x: Lane) {
    x.Waiter? && StateOf(s.chans, x.chan) == Live && s.now < x.req.body.expiresAt
  }

  /** Owning a request that expired before it was prompted for: only dropping it is left. */
  predicate TooLateToPrompt(s: Sys, x: Lane) {
    x.Owner? && !x.prompting && x.req.body.expiresAt <= s.now
  }

  /** Every lane with an opened request can act, except while it waits on a live owner or owns an expired request. */
  lemma LaneCanStep(s: Sys, n: nat)
    requires n in s.lanes && HoldsPermit(s.lanes[n]) && !s.lanes[n].Reserved?
    ensures (exists l :: OwnStep(l, n) && Enabled(s, l)) <==> !Waits(s, s.lanes[n]) && !TooLateToPrompt(s, s.lanes[n])
    ensures Enabled(s, Drop(n))
  {
    var x := s.lanes[n];
    if x.Opened? || (x.Waiter? && StateOf(s.chans, x.chan) == Dead) {
      var victim := ClaimIsPossible(s, n);
      assert OwnStep(Claim(n, victim), n);
    } else if x.Waiter? {
      assert OwnStep(Expire(n), n) && OwnStep(Relay(n), n);
    } else if x.prompting {
      assert OwnStep(Record(n, Unanswered), n) && Enabled(s, Record(n, Unanswered));
    } else {
      assert OwnStep(Prompt(n), n);
    }
  }

  // ---- how a lane ends ----

  /** Delivering, expiring and being dropped end the lane and give its permit back. */
  lemma EndGivesBack(s: Sys, l: Label, n: nat)
    requires Enabled(s, l) && (l == Expire(n) || l == Drop(n) || l == Relay(n) || (l.Record? && l.lane == n))
    ensures n in Next(s, l).lanes && (Next(s, l).lanes[n].Delivered? || Next(s, l).lanes[n] == Over)
    ensures Next(s, l).free == s.free + 1
    ensures l == Expire(n) || l == Drop(n) ==> Next(s, l).lanes[n] == Over
  {
  }

  /** Nobody waits for ever: when its time is up a waiter can leave, with its permit given back. */
  lemma WaitEnds(s: Sys, n: nat)
    requires n in s.lanes && Waits(s, s.lanes[n])
    ensures var later := Next(s, Tick(s.lanes[n].req.body.expiresAt - s.now));
            && Enabled(later, Expire(n)) && Next(later, Expire(n)).lanes[n] == Over
            && Next(later, Expire(n)).free == s.free + 1
  {
    var later := Next(s, Tick(s.lanes[n].req.body.expiresAt - s.now));
    EndGivesBack(later, Expire(n), n);
  }

  /** What a lane ended with is final. */
  lemma {:induction false} EndIsFinal(run: Run, i: nat, j: nat, n: nat)
    requires IsRun(run) && i <= j < |run.states| && n in run.states[i].lanes
    requires run.states[i].lanes[n].Delivered? || run.states[i].lanes[n] == Over
    ensures n in run.states[j].lanes && run.states[j].lanes[n] == run.states[i].lanes[n]
  {
    if i < j {
      EndIsFinal(run, i, j - 1, n);
      assert StepAt(run, j - 1);
    }
  }
}
