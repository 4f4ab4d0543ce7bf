// Admission runs built step by step.
module AdmissionScenarios {
  import opened Admission
  import opened AdmissionRuns

  function Last(run: Run): Sys
    requires run.states != []
  {
    run.states[|run.states| - 1]
  }

  lemma Extend(run: Run, l: Label) returns (r: Run)
    requires IsRun(run) && Enabled(Last(run), l)
    ensures IsRun(r) && run.states <= r.states && run.labels <= r.labels
    ensures |r.states| == |run.states| + 1 && Last(r) == Next(Last(run), l)
    ensures r.labels[|run.labels|] == l
  {
    r := Run(run.states + [Next(Last(run), l)], run.labels + [l]);
    forall i: nat | i < |r.labels|
      ensures StepAt(r, i)
    {
      if i < |run.labels| {
        assert StepAt(run, i);
        assert r.states[i] == run.states[i] && r.states[i + 1] == run.states[i + 1];
        assert r.labels[i] == run.labels[i];
      }
    }
  }

  /** A new lane can get a permit and open this request now. */
  predicate MayOpen(s: Sys, n: nat, req: Req) {
    n !in s.lanes && s.free > 0 && ValidId(req.id) && TimelyAt(req.body, s.now)
  }

  function LaneOpens(s: Sys, n: nat, req: Req): Sys
    requires s.free > 0
  {
    s.(free := s.free - 1, lanes := s.lanes[n := Opened(req)])
  }

  lemma OpenLane(run: Run, n: nat, req: Req) returns (r: Run)
    requires IsRun(run) && MayOpen(Last(run), n, req)
    ensures IsRun(r) && run.states <= r.states && run.labels <= r.labels && |r.labels| == |run.labels| + 2
    ensures Last(r) == LaneOpens(Last(run), n, req)
  {
    r := Extend(run, Reserve(n));
    assert Last(r).lanes == Last(run).lanes[n := Reserved];
    r := Extend(r, Open(n, req));
    assert Last(run).lanes[n := Reserved][n := Opened(req)] == Last(run).lanes[n := Opened(req)];
  }
}
