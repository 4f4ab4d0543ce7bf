// Facts about whole runs of the Touch ID prompt.
module TouchIdRuns {
  import opened Prelude
  import opened TouchId

  // ---- every step keeps the invariant ----

  lemma SameBegins(asks: map<nat, Ask>, i: nat, a: Ask)
    requires DistinctBegins(asks) && i in asks && a.begun == asks[i].begun
    ensures DistinctBegins(asks[i := a])
  {
  }

  /** The clock, the screen and a new ask. */
  lemma QuietStep(s: Sys, l: Label)
    requires Inv(s) && Enabled(s, l) && (l.Tick? || l.Screen? || l.Enter?)
    ensures Inv(Next(s, l))
  {
    var t := Next(s, l);
    forall j | j in t.asks
      ensures AskOk(t, j, t.asks[j])
    {
      assert j in s.asks ==> AskOk(s, j, s.asks[j]);
    }
  }

  /** A step of one ask keeps what every ask says about itself. */
  ghost predicate Keeps(s: Sys, l: Label, j: nat)
    requires Enabled(s, l)
  {
    j in Next(s, l).asks && AskOk(Next(s, l), j, Next(s, l).asks[j])
  }

  /** What is left to show once every ask is seen to. */
  lemma AllKeep(s: Sys, l: Label)
    requires Inv(s) && Enabled(s, l) && !l.Tick? && !l.Screen? && !l.Enter? && !l.Begin?
    requires forall j :: j in s.asks ==> Keeps(s, l, j)
    ensures Inv(Next(s, l))
  {
    var t := Next(s, l);
    assert t.asks == s.asks[l.i := t.asks[l.i]];
    SameBegins(s.asks, l.i, t.asks[l.i]);
    forall j | j in t.asks ensures AskOk(t, j, t.asks[j]) { assert Keeps(s, l, j); }
  }

  /** Taking the sheet and giving it back unused. */
  lemma SheetKeeps(s: Sys, l: Label, j: nat)
    requires Inv(s) && Enabled(s, l) && (l.Acquire? || l.GiveUp?) && j in s.asks
    ensures Keeps(s, l, j)
  {
    assert AskOk(s, j, s.asks[j]) && AskOk(s, l.i, s.asks[l.i]);
  }

  lemma JoinKeeps(s: Sys, l: Label, j: nat)
    requires Inv(s) && Enabled(s, l) && l.Join? && j in s.asks
    ensures Keeps(s, l, j)
  {
    assert AskOk(s, j, s.asks[j]) && AskOk(s, l.i, s.asks[l.i]);
  }

  lemma ConcludeKeeps(s: Sys, l: Label, j: nat)
    requires Inv(s) && Enabled(s, l) && l.Conclude? && j in s.asks
    ensures Keeps(s, l, j)
  {
    assert AskOk(s, j, s.asks[j]) && AskOk(s, l.i, s.asks[l.i]);
  }

  lemma NextNumber(n: nat)
    ensures (n % MODULUS + 1) % MODULUS == (n + 1) % MODULUS
  {
  }

  lemma BeginStep(s: Sys, l: Label)
    requires Inv(s) && Enabled(s, l) && l.Begin?
    ensures Inv(Next(s, l))
  {
    var t := Next(s, l);
    NextNumber(s.begins);
    forall j | j in t.asks
      ensures AskOk(t, j, t.asks[j])
    {
      assert AskOk(s, j, s.asks[j]) && AskOk(s, l.i, s.asks[l.i]);
    }
    forall i, j | i in t.asks && j in t.asks && i != j && t.asks[i].begun > 0
      ensures t.asks[i].begun != t.asks[j].begun
    {
      assert AskOk(s, i, s.asks[i]) && AskOk(s, j, s.asks[j]);
    }
  }

  /** The deadline task up to the moment it stores the flag. */
  lemma TimerKeeps(s: Sys, l: Label, j: nat)
    requires Inv(s) && Enabled(s, l) && (l.Wake? || l.Store?) && j in s.asks
    ensures Keeps(s, l, j)
  {
    assert AskOk(s, j, s.asks[j]);
  }

  /** A cancellation reaches the attempt it names, or nothing. */
  lemma CancelKeeps(s: Sys, l: Label, j: nat)
    requires Inv(s) && Enabled(s, l) && l.Cancel? && Bounded(s) && j in s.asks
    ensures Keeps(s, l, j)
  {
    assert AskOk(s, l.i, s.asks[l.i]) && AskOk(s, j, s.asks[j]);
    NumbersDistinct(s, s.asks[l.i], s.asks[l.i]);
  }

  lemma SignerKeeps(s: Sys, l: Label, j: nat)
    requires Inv(s) && Enabled(s, l) && (l.Fail? || l.Arm? || l.Respond? || l.Disarm?) && j in s.asks
    ensures Keeps(s, l, j)
  {
    assert AskOk(s, l.i, s.asks[l.i]) && AskOk(s, j, s.asks[j]);
  }

  lemma DropWaitingKeeps(s: Sys, l: Label, j: nat)
    requires Inv(s) && Enabled(s, l) && l.Drop? && !s.asks[l.i].phase.Signing? && j in s.asks
    ensures Keeps(s, l, j)
  {
    assert AskOk(s, j, s.asks[j]) && AskOk(s, l.i, s.asks[l.i]);
  }

  lemma DropSigningKeeps(s: Sys, l: Label, j: nat)
    requires Inv(s) && Enabled(s, l) && l.Drop? && s.asks[l.i].phase.Signing? && j in s.asks
    ensures Keeps(s, l, j)
  {
    assert AskOk(s, j, s.asks[j]) && AskOk(s, l.i, s.asks[l.i]);
  }

  lemma StepKeepsAsk(s: Sys, l: Label, j: nat)
    requires Inv(s) && Enabled(s, l) && Bounded(s) && j in s.asks
    requires !l.Tick? && !l.Screen? && !l.Enter? && !l.Begin?
    ensures Keeps(s, l, j)
  {
    match l
    case Wake(_) => TimerKeeps(s, l, j);
    case Store(_) => TimerKeeps(s, l, j);
    case Cancel(_) => CancelKeeps(s, l, j);
    case Acquire(_) => SheetKeeps(s, l, j);
    case GiveUp(_) => SheetKeeps(s, l, j);
    case Join(_) => JoinKeeps(s, l, j);
    case Conclude(_) => ConcludeKeeps(s, l, j);
    case Drop(i) =>
      if s.asks[i].phase.Signing? {
        DropSigningKeeps(s, l, j);
      } else {
        DropWaitingKeeps(s, l, j);
      }
    case _ => SignerKeeps(s, l, j);
  }

  lemma StepKeepsInv(s: Sys, l: Label)
    requires Inv(s) && Enabled(s, l) && Bounded(s)
    ensures Inv(Next(s, l))
  {
    if l.Tick? || l.Screen? || l.Enter? {
      QuietStep(s, l);
    } else if l.Begin? {
      BeginStep(s, l);
    } else {
      forall j | j in s.asks ensures Keeps(s, l, j) { StepKeepsAsk(s, l, j); }
      AllKeep(s, l);
    }
  }

  // ---- runs ----

  datatype Run = Run(states: seq<Sys>, labels: seq<Label>)

  ghost predicate StepAt(run: Run, k: nat)
    requires |run.states| == |run.labels| + 1 && k < |run.labels|
  {
    Enabled(run.states[k], run.labels[k]) && run.states[k + 1] == Next(run.states[k], run.labels[k])
  }

  ghost predicate IsRun(run: Run) {
    && |run.states| == |run.labels| + 1 && Init(run.states[0])
    && forall k: nat :: k < |run.labels| ==> StepAt(run, k)
  }

  lemma StepGrows(s: Sys, l: Label)
    requires Enabled(s, l)
    ensures s.begins <= Next(s, l).begins && s.invalid <= Next(s, l).invalid
  {
  }

  lemma {:induction false} Grows(run: Run, j: nat, k: nat)
    requires IsRun(run) && j <= k < |run.states|
    ensures run.states[j].begins <= run.states[k].begins && run.states[j].invalid <= run.states[k].invalid
  {
    if j < k {
      Grows(run, j, k - 1);
      assert StepAt(run, k - 1);
      StepGrows(run.states[k - 1], run.labels[k - 1]);
    }
  }

  lemma {:induction false} RunKeepsInv(run: Run, k: nat)
    requires IsRun(run) && k < |run.states| && Bounded(run.states[k])
    ensures Inv(run.states[k])
  {
    if k > 0 {
      Grows(run, k - 1, k);
      RunKeepsInv(run, k - 1);
      assert StepAt(run, k - 1);
      StepKeepsInv(run.states[k - 1], run.labels[k - 1]);
    }
  }

  // ---- what an outcome means ----

  lemma {:induction false} AnswerWasGiven(run: Run, k: nat, i: nat, answer: Answer) returns (j: nat)
    requires IsRun(run) && k < |run.states| && i in run.states[k].asks
    requires run.states[k].asks[i].signer == Answered(answer) || run.states[k].asks[i].signer == Returned(answer)
    requires !answer.Fault?
    ensures j < k && run.labels[j] == Respond(i, answer)
  {
    assert StepAt(run, k - 1);
    if run.labels[k - 1] == Respond(i, answer) {
      j := k - 1;
    } else {
      j := AnswerWasGiven(run, k - 1, i, answer);
    }
  }

  /** The deadline task of ask `i` stored its flag before step `k`. */
  ghost predicate FlagStored(run: Run, k: nat, i: nat) {
    exists j: nat :: j < k && j < |run.labels| && run.labels[j] == Store(i)
  }

  /** The signer of ask `i` came back with this answer before step `k`; it may fail before showing anything. */
  ghost predicate Came(run: Run, k: nat, i: nat, answer: Answer) {
    exists j: nat :: j < k && j < |run.labels|
                     && (run.labels[j] == Respond(i, answer) || (run.labels[j] == Fail(i) && answer == Fault))
  }

  /** No signer runs before an attempt begins. */
  predicate IdleUntilBegun(a: Ask) {
    a.phase.Waiting? || a.phase.Polling? ==> a.signer.Idle?
  }

  /** What the deadline flag and the signer's answer say is what happened, and nothing else happens twice. */
  lemma {:induction false} AskRemembers(run: Run, k: nat, i: nat)
    requires IsRun(run) && k < |run.states|
    ensures i !in run.states[k].asks ==> !FlagStored(run, k, i) && forall a :: !Came(run, k, i, a)
    ensures i in run.states[k].asks ==>
              && IdleUntilBegun(run.states[k].asks[i])
              && (run.states[k].asks[i].expired <==> FlagStored(run, k, i))
              && forall a :: Came(run, k, i, a) <==>
                             run.states[k].asks[i].signer == Answered(a) || run.states[k].asks[i].signer == Returned(a)
  {
    if k > 0 {
      AskRemembers(run, k - 1, i);
      assert StepAt(run, k - 1);
      var l := run.labels[k - 1];
      assert FlagStored(run, k, i) <==> FlagStored(run, k - 1, i) || l == Store(i);
      forall a
        ensures Came(run, k, i, a) <==> Came(run, k - 1, i, a) || l == Respond(i, a) || (l == Fail(i) && a == Fault)
      {
        CameStep(run, k, i, a);
      }
      AskStep(run.states[k - 1], l, i);
    }
  }

  lemma CameStep(run: Run, k: nat, i: nat, a: Answer)
    requires 0 < k <= |run.labels|
    ensures var l := run.labels[k - 1];
            Came(run, k, i, a) <==> Came(run, k - 1, i, a) || l == Respond(i, a) || (l == Fail(i) && a == Fault)
  {
  }

  /** What one step does to the flag and the answer of ask `i`. */
  lemma AskStep(s: Sys, l: Label, i: nat)
    requires Enabled(s, l) && (i in s.asks ==> IdleUntilBegun(s.asks[i]))
    ensures i in s.asks ==> i in Next(s, l).asks
    ensures i in Next(s, l).asks ==> IdleUntilBegun(Next(s, l).asks[i])
    ensures i !in s.asks && i in Next(s, l).asks ==> !Next(s, l).asks[i].expired && Next(s, l).asks[i].signer == Idle
    ensures i !in s.asks ==> l != Store(i) && l != Fail(i) && forall a :: l != Respond(i, a)
    ensures i in s.asks ==>
              && (Next(s, l).asks[i].expired <==> s.asks[i].expired || l == Store(i))
              && forall a :: (Next(s, l).asks[i].signer == Answered(a) || Next(s, l).asks[i].signer == Returned(a)) <==>
                             (s.asks[i].signer == Answered(a) || s.asks[i].signer == Returned(a)
                              || l == Respond(i, a) || (l == Fail(i) && a == Fault))
  {
  }

  /**
    What an ask concludes with, exactly: expired if its deadline flag was stored by then, and
    otherwise what the signer came back with, a signature, a dismissal or a fault.
   */
  lemma ConcludesWith(run: Run, c: nat, i: nat)
    requires IsRun(run) && c < |run.labels| && run.labels[c] == Conclude(i)
    ensures Has(run.states[c + 1], i, Done(Expired)) <==> FlagStored(run, c, i)
    ensures Has(run.states[c + 1], i, Done(Approved)) <==> !FlagStored(run, c, i) && Came(run, c, i, Signature)
    ensures Has(run.states[c + 1], i, Done(Denied)) <==> !FlagStored(run, c, i) && Came(run, c, i, Dismissed)
    ensures Has(run.states[c + 1], i, Done(Error)) <==> !FlagStored(run, c, i) && Came(run, c, i, Fault)
  {
    assert StepAt(run, c);
    AskRemembers(run, c, i);
  }

  /** An ask is done only by concluding, or by giving up at or after its expiry, and stays as it ended. */
  lemma {:induction false} DoneHow(run: Run, k: nat, i: nat) returns (c: nat)
    requires IsRun(run) && k < |run.states| && i in run.states[k].asks && run.states[k].asks[i].phase.Done?
    ensures c < k && Has(run.states[c + 1], i, run.states[k].asks[i].phase)
    ensures || run.labels[c] == Conclude(i)
            || (run.labels[c] == GiveUp(i) && run.states[k].asks[i].phase == Done(Expired)
                && i in run.states[c].asks && run.states[c].asks[i].expiresAt <= run.states[c].now)
  {
    assert k > 0 && StepAt(run, k - 1);
    if i in run.states[k - 1].asks && run.states[k - 1].asks[i].phase.Done? {
      c := DoneHow(run, k - 1, i);
    } else {
      c := k - 1;
    }
  }

  /** An operator's timely answer is the outcome: whoever signs before the flag is stored has approved. */
  lemma TimelyAnswerCounts(run: Run, j: nat, c: nat, i: nat, answer: Answer)
    requires IsRun(run) && j < c < |run.labels| && run.labels[j] == Respond(i, answer) && run.labels[c] == Conclude(i)
    requires !FlagStored(run, c, i)
    ensures Has(run.states[c + 1], i, Done(match answer case Signature => Approved case Dismissed => Denied case Fault => Error))
  {
    assert Came(run, c, i, answer);
    ConcludesWith(run, c, i);
  }

  /**
    A denial is the operator's: they dismissed a sheet that no timer, their own request's
    or another's, had torn down. Likewise an approval is a signature on such a sheet.
   */
  lemma VerdictIsTheOperators(run: Run, k: nat, i: nat)
    requires IsRun(run) && k < |run.states| && Bounded(run.states[k])
    requires Has(run.states[k], i, Done(Denied)) || Has(run.states[k], i, Done(Approved))
    ensures i !in run.states[k].invalid
    ensures exists j: nat :: j < k && i !in run.states[j].invalid
              && run.labels[j] == Respond(i, if Has(run.states[k], i, Done(Denied)) then Dismissed else Signature)
  {
    RunKeepsInv(run, k);
    var s := run.states[k];
    assert AskOk(s, i, s.asks[i]);
    var j := AnswerWasGiven(run, k, i, if Has(s, i, Done(Denied)) then Dismissed else Signature);
    Grows(run, j, k);
  }

  /** A request whose sheet was torn down ends as expired: it publishes nothing. */
  lemma TeardownIsNoVerdict(run: Run, j: nat, k: nat, i: nat)
    requires IsRun(run) && j <= k < |run.states| && Bounded(run.states[k])
    requires i in run.states[j].invalid && i in run.states[k].asks && run.states[k].asks[i].phase.Done?
    ensures run.states[k].asks[i].phase == Done(Expired)
  {
    Grows(run, j, k);
    RunKeepsInv(run, k);
    assert AskOk(run.states[k], i, run.states[k].asks[i]);
  }

  // ---- late timers ----

  /** Cancelling for an attempt that is no longer current changes nothing for the one that is. */
  lemma LateTimerIsHarmless(run: Run, k: nat, current: nat)
    requires IsRun(run) && k < |run.labels| && Bounded(run.states[k])
    requires run.labels[k].Cancel? && run.labels[k].i != current
    requires current in run.states[k].asks && Live(run.states[k].asks[current])
    ensures run.states[k + 1].canceller == run.states[k].canceller
    ensures run.states[k + 1].invalid == run.states[k].invalid
  {
    assert StepAt(run, k);
    RunKeepsInv(run, k);
    var s := run.states[k];
    var i := run.labels[k].i;
    assert AskOk(s, i, s.asks[i]) && AskOk(s, current, s.asks[current]);
    NumbersDistinct(s, s.asks[i], s.asks[current]);
  }

  lemma {:induction false} AttemptCountsBegins(run: Run, k: nat)
    requires IsRun(run) && k < |run.states|
    ensures run.states[k].canceller.attempt == run.states[k].begins % MODULUS
    ensures forall i :: i in run.states[k].asks ==> run.states[k].asks[i].begun <= run.states[k].begins
  {
    if k > 0 {
      AttemptCountsBegins(run, k - 1);
      assert StepAt(run, k - 1);
      NextNumber(run.states[k - 1].begins);
    }
  }

  lemma NumbersCollideIff(a: nat, b: nat)
    requires a <= b
    ensures a % MODULUS == b % MODULUS <==> (b - a) % MODULUS == 0
  {
  }

  /**
    In every run, wrapped or not: a timer's cancellation reaches the current attempt exactly
    when a multiple of 2^64 attempts, none included, has begun since its own.
   */
  lemma TimerReachesCurrentIff(run: Run, k: nat)
    requires IsRun(run) && k < |run.labels| && run.labels[k].Cancel?
    ensures var s, t, i := run.states[k], run.states[k + 1], run.labels[k].i;
            && i in s.asks && s.asks[i].begun <= s.begins
            && if (s.begins - s.asks[i].begun) % MODULUS == 0
               then t.canceller == s.canceller.(cancelled := true)
                    && t.invalid == s.invalid + (if s.canceller.context.Some? then {s.canceller.context.value} else {})
               else t.canceller == s.canceller && t.invalid == s.invalid
  {
    assert StepAt(run, k);
    AttemptCountsBegins(run, k);
    var s := run.states[k];
    NumbersCollideIff(s.asks[run.labels[k].i].begun, s.begins);
  }

  // ---- raising a sheet ----

  /** No signer starts except on an unlocked screen with time left, and it starts once. */
  lemma {:induction false} SheetWasRaised(run: Run, k: nat, i: nat) returns (j: nat)
    requires IsRun(run) && k < |run.states| && i in run.states[k].asks && !run.states[k].asks[i].signer.Idle?
    ensures j < k && run.labels[j] == Begin(i) && i in run.states[j].asks
    ensures !run.states[j].locked && run.states[j].now < run.states[j].asks[i].expiresAt
  {
    assert StepAt(run, k - 1);
    if run.labels[k - 1] == Begin(i) {
      j := k - 1;
    } else {
      j := SheetWasRaised(run, k - 1, i);
    }
  }

  /** No dropped ask has left a signer running behind it. */
  predicate NoOrphan(s: Sys) {
    forall i :: i in s.asks && s.asks[i].phase.Dropped? ==> !Running(s.asks[i])
  }

  /** Whoever is signing is the one holding the sheet. */
  predicate HolderSigns(s: Sys) {
    forall i :: i in s.asks && Running(s.asks[i]) ==> s.holder == Some(i) && s.asks[i].phase.Signing?
  }

  /**
    One sheet at a time, exactly: every running signer is the sheet holder's if and only if
    no dropped ask's signer is still running.
   */
  lemma OneSheetIff(run: Run, k: nat)
    requires IsRun(run) && k < |run.states| && Bounded(run.states[k])
    ensures HolderSigns(run.states[k]) <==> NoOrphan(run.states[k])
    ensures HolderSigns(run.states[k]) ==>
              (forall i, j :: (i in run.states[k].asks && j in run.states[k].asks
                               && Running(run.states[k].asks[i]) && Running(run.states[k].asks[j])) ==> i == j)
  {
    RunKeepsInv(run, k);
    var s := run.states[k];
    forall i | i in s.asks && Running(s.asks[i])
      ensures s.holder == Some(i) && s.asks[i].phase.Signing? <==> !s.asks[i].phase.Dropped?
    {
      assert AskOk(s, i, s.asks[i]);
    }
  }

  // ---- the deadline takes the sheet down ----

  /** A sheet that comes up after its own deadline has cancelled is invalid from the start. */
  lemma LateSheetIsInvalid(run: Run, k: nat)
    requires IsRun(run) && k < |run.labels| && Bounded(run.states[k]) && run.labels[k].Arm?
    requires Has(run.states[k], run.labels[k].i, Signing) && run.states[k].asks[run.labels[k].i].timer.Spent?
    ensures run.labels[k].i in run.states[k + 1].invalid
  {
    assert StepAt(run, k);
    RunKeepsInv(run, k);
    var s, i := run.states[k], run.labels[k].i;
    assert AskOk(s, i, s.asks[i]);
  }

  /** Another signer touches the canceller at step `k`. */
  ghost predicate Disturbs(run: Run, k: nat, i: nat)
    requires k < |run.labels|
  {
    (run.labels[k].Arm? || run.labels[k].Disarm?) && run.labels[k].i != i
  }

  /** Ask `i`'s sheet is up, and nothing but its own deadline may take it down. */
  ghost predicate ShowsAt(run: Run, k: nat, i: nat)
    requires k < |run.states|
  {
    Has(run.states[k], i, Signing) && run.states[k].asks[i].signer.Showing?
  }

  lemma ContextStep(run: Run, k: nat, i: nat)
    requires IsRun(run) && k < |run.labels| && Bounded(run.states[k]) && ShowsAt(run, k, i) && ShowsAt(run, k + 1, i)
    ensures run.states[k + 1].canceller.context == Some(i) <==>
            run.states[k].canceller.context == Some(i) && !Disturbs(run, k, i)
  {
    assert StepAt(run, k);
    RunKeepsInv(run, k);
    var s := run.states[k];
    assert AskOk(s, i, s.asks[i]);
  }

  /** A context stays in the canceller exactly as long as no other signer arms or disarms. */
  lemma {:induction false} ContextKeptIff(run: Run, a: nat, k: nat, i: nat)
    requires IsRun(run) && a < k < |run.states| && Bounded(run.states[k]) && run.labels[a] == Arm(i)
    requires forall j :: a < j <= k ==> ShowsAt(run, j, i)
    ensures run.states[k].canceller.context == Some(i) <==> forall j :: a < j < k ==> !Disturbs(run, j, i)
  {
    if k == a + 1 {
      assert StepAt(run, a);
    } else {
      Grows(run, k - 1, k);
      ContextKeptIff(run, a, k - 1, i);
      ContextStep(run, k - 1, i);
    }
  }

  /**
    The deadline's teardown, exactly: of a sheet put up at step `a` and still showing when
    its timer cancels at step `c`, the sheet is invalidated if and only if no other signer
    armed or disarmed in between. Such a signer belongs to a dropped ask.
   */
  lemma DeadlineTearsDownIff(run: Run, a: nat, c: nat, i: nat)
    requires IsRun(run) && a < c < |run.labels| && Bounded(run.states[c])
    requires run.labels[a] == Arm(i) && run.labels[c] == Cancel(i)
    requires forall j :: a < j <= c ==> ShowsAt(run, j, i)
    ensures i in run.states[c + 1].invalid <==> forall j :: a < j < c ==> !Disturbs(run, j, i)
    ensures i in run.states[c + 1].invalid ==> !Enabled(run.states[c + 1], Respond(i, Signature))
    ensures forall j :: a < j < c && Disturbs(run, j, i) ==> Has(run.states[j], run.labels[j].i, Dropped)
  {
    assert StepAt(run, c);
    RunKeepsInv(run, c);
    var s := run.states[c];
    assert AskOk(s, i, s.asks[i]);
    NumbersDistinct(s, s.asks[i], s.asks[i]);
    assert ShowsAt(run, c, i);
    assert i !in s.invalid && Number(s.asks[i]) == s.canceller.attempt;
    assert i in run.states[c + 1].invalid <==> s.canceller.context == Some(i);
    ContextKeptIff(run, a, c, i);
    forall j | a < j < c && Disturbs(run, j, i)
      ensures Has(run.states[j], run.labels[j].i, Dropped)
    {
      DisturberIsDropped(run, j, c, i);
    }
  }

  lemma DisturberIsDropped(run: Run, j: nat, c: nat, i: nat)
    requires IsRun(run) && j < c < |run.labels| && Bounded(run.states[c])
    requires ShowsAt(run, j, i) && Disturbs(run, j, i)
    ensures Has(run.states[j], run.labels[j].i, Dropped)
  {
    assert StepAt(run, j);
    Grows(run, j, c);
    RunKeepsInv(run, j);
    var s, other := run.states[j], run.labels[j].i;
    assert AskOk(s, i, s.asks[i]) && AskOk(s, other, s.asks[other]);
  }
}
