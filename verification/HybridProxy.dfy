/** The proxy's use of the engine for one test case that ran to completion: the
    shared map is decoded over, judged, and put back for AFL++. */
module HybridProxy {
  import opened Coverage
  import opened CoverageLoops
  import opened Hybrid
  import opened HybridRuns
  import opened HybridEngine

  /** `shared` is AFL++'s map, `saved` the copy kept across a sampled pass. What
      a pass decodes into `shared` comes from the test case. */
  method RunTestCase(e: Engine, shared: array<bv8>, saved: array<bv8>, t: TestCase) returns (verdict: Verdict)
    requires e.Valid(shared.Length) && Fits(t, shared.Length) && saved.Length == shared.Length
    requires e.Foreign(shared) && e.Foreign(saved) && shared != saved
    modifies e.Repr, shared, saved
    ensures e.Valid(shared.Length)
    ensures var o := Play(old(e.Abs()), e.hash, t);
            e.Abs() == o.state && verdict == o.verdict && shared[..] == o.shown
  {
    hide AfterPath, AfterConfirm, AfterSample;
    ghost var size := shared.Length;
    Engine.Restore(shared, t.path);
    verdict := e.AfterPath(shared, t.pathOverflow, t.key, size);
    if verdict == Confirm {
      Engine.Restore(shared, t.edge);
      e.AfterConfirm(shared, t.edgeOverflow, size);
    } else if t.sample.Some? {
      CopyMap(saved, shared);
      Engine.Restore(shared, t.sample.value.m);
      e.AfterSample(shared, t.sample.value.overflow, size);
      CopyMap(shared, saved);
    }
  }
}
