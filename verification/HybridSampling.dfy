/** Sampling is a measurement: erasing every sampled pass from a run changes no
    verdict, no map AFL++ is shown and no counter but its own. */
module HybridSampling {
  import opened Common
  import opened Coverage
  import opened Hybrid
  import opened HybridRuns
  import HybridShadow

  function Unsampled(t: TestCase): TestCase { t.(sample := None) }

  function Erased(run: seq<TestCase>): (r: seq<TestCase>)
    ensures |r| == |run| && forall i :: 0 <= i < |run| ==> r[i] == Unsampled(run[i])
  {
    seq(|run|, i requires 0 <= i < |run| => Unsampled(run[i]))
  }

  /** A state without what only sampling writes. */
  function Visible(s: State): State {
    s.(virginMissed := [], samples := SampleStats(0, 0, 0, 0, 0))
  }

  /** Equal up to sampling in, equal up to sampling out. */
  lemma PathIgnoresSamples(s: State, s': State, hash: Map -> Cksum, m: Map, overflowed: bool, key: nat)
    requires Sized(s, |m|) && Sized(s', |m|) && Visible(s) == Visible(s')
    ensures var r, r' := AfterPath(s, hash, m, overflowed, key), AfterPath(s', hash, m, overflowed, key);
            Visible(r.state) == Visible(r'.state) && r.verdict == r'.verdict && r.shown == r'.shown
  {
    hide NewBits, NextInterval, Reached, Sum, Cleared;
  }

  lemma ConfirmIgnoresSamples(s: State, s': State, m: Map, overflowed: bool)
    requires Sized(s, |m|) && Sized(s', |m|) && Visible(s) == Visible(s')
    ensures Visible(AfterConfirm(s, m, overflowed)) == Visible(AfterConfirm(s', m, overflowed))
  {
    hide NewBits, NextInterval, Reached, Sum, Cleared;
  }

  lemma SampleIsInvisible(s: State, m: Map, overflowed: bool)
    requires Sized(s, |m|)
    ensures Visible(AfterSample(s, m, overflowed)) == Visible(s)
  {
  }

  lemma PlayIgnoresSamples(s: State, s': State, hash: Map -> Cksum, t: TestCase)
    requires Sized(s, |t.path|) && Sized(s', |t.path|) && Fits(t, |t.path|)
    requires Visible(s) == Visible(s')
    ensures var o, o' := Play(s, hash, t), Play(s', hash, Unsampled(t));
            Visible(o.state) == Visible(o'.state) && o.verdict == o'.verdict && o.shown == o'.shown
  {
    hide AfterPath, AfterConfirm, AfterSample, Visible;
    PathIgnoresSamples(s, s', hash, t.path, t.pathOverflow, t.key);
    var p, p' := AfterPath(s, hash, t.path, t.pathOverflow, t.key), AfterPath(s', hash, t.path, t.pathOverflow, t.key);
    match p.verdict
    case Confirm => ConfirmIgnoresSamples(p.state, p'.state, t.edge, t.edgeOverflow);
    case Discard =>
      if t.sample.Some? {
        SampleIsInvisible(p.state, t.sample.value.m, t.sample.value.overflow);
      }
  }

  lemma {:induction false} ErasedStateAgrees(size: nat, hash: Map -> Cksum, run: seq<TestCase>)
    requires ValidRun(run, size)
    ensures ValidRun(Erased(run), size)
    ensures Visible(Exec(size, hash, run)) == Visible(Exec(size, hash, Erased(run)))
    decreases |run|
  {
    hide Exec, Last, Play, Visible, Sized;
    if run == [] {
      assert Erased(run) == [];
    } else {
      var n := |run| - 1;
      ErasedStateAgrees(size, hash, run[..n]);
      assert Erased(run)[..n] == Erased(run[..n]);
      PlayedInTurn(size, hash, run, n);
      PlayedInTurn(size, hash, Erased(run), n);
      assert run[..n + 1] == run && Erased(run)[..n + 1] == Erased(run);
      PlayIgnoresSamples(Exec(size, hash, run[..n]), Exec(size, hash, Erased(run[..n])), hash, run[n]);
    }
  }

  /** At every test case of every run, the verdict and the map AFL++ is shown
      are those of the run without any sampling, and so is all other state. */
  lemma SamplingIsNonInterfering(size: nat, hash: Map -> Cksum, run: seq<TestCase>, i: nat)
    requires ValidRun(run, size) && i < |run|
    ensures ValidRun(Erased(run), size)
    ensures var o, o' := Last(size, hash, run[..i + 1]), Last(size, hash, Erased(run)[..i + 1]);
            o.verdict == o'.verdict && o.shown == o'.shown && Visible(o.state) == Visible(o'.state)
  {
    hide Play, Visible;
    ErasedStateAgrees(size, hash, run[..i]);
    assert run[..i + 1][..i] == run[..i];
    assert Erased(run)[..i + 1][..i] == Erased(run[..i]);
    PlayIgnoresSamples(Exec(size, hash, run[..i]), Exec(size, hash, Erased(run[..i])), hash, run[i]);
  }

  // ------------------------------------------------------- missed tuples

  /** Test case `n` was discarded and sampled without overflow, and its sample
      reached position `i`. */
  predicate SampleReached(size: nat, hash: Map -> Cksum, run: seq<TestCase>, n: nat, i: nat)
    requires ValidRun(run, size) && n < |run| && i < size
  {
    && Last(size, hash, run[..n + 1]).verdict == Discard
    && run[n].sample.Some? && !run[n].sample.value.overflow
    && run[n].sample.value.m[i] != 0
  }

  /** The map AFL++ was shown for test case `n` reached position `i`. */
  predicate ShownReached(size: nat, hash: Map -> Cksum, run: seq<TestCase>, n: nat, i: nat)
    requires ValidRun(run, size) && n < |run| && i < size
  {
    Last(size, hash, run[..n + 1]).shown[i] != 0
  }

  lemma ClearedAt(v: bv8, b: bv8)
    ensures Without(v, ClassOf(b)) == VIRGIN <==> v == VIRGIN && b == 0
  {
  }

  lemma PlayReaches(s: State, hash: Map -> Cksum, t: TestCase, i: nat)
    requires Sized(s, |t.path|) && Fits(t, |t.path|) && i < |t.path|
    ensures var o := Play(s, hash, t);
            o.state.virginMissed[i] == VIRGIN <==>
              && s.virginMissed[i] == VIRGIN
              && !(o.verdict == Discard && t.sample.Some? && !t.sample.value.overflow && t.sample.value.m[i] != 0)
  {
    hide NewBits, TickedClock, PurgedAtom, AnswerFor, Remember;
    if t.sample.Some? {
      ClearedAt(s.virginMissed[i], t.sample.value.m[i]);
    }
  }

  lemma MissedStep(size: nat, hash: Map -> Cksum, run: seq<TestCase>, n: nat, i: nat)
    requires ValidRun(run, size) && n < |run| && i < size
    ensures Exec(size, hash, run[..n + 1]).virginMissed[i] == VIRGIN <==>
            Exec(size, hash, run[..n]).virginMissed[i] == VIRGIN && !SampleReached(size, hash, run, n, i)
  {
    hide Exec, Last, Play, Sized;
    PlayedInTurn(size, hash, run, n);
    PlayReaches(Exec(size, hash, run[..n]), hash, run[n], i);
  }

  lemma {:induction false} MissedIsSampled(size: nat, hash: Map -> Cksum, run: seq<TestCase>, n: nat, i: nat)
    requires ValidRun(run, size) && n <= |run| && i < size
    ensures Exec(size, hash, run[..n]).virginMissed[i] == VIRGIN <==>
            forall k: nat :: k < n ==> !SampleReached(size, hash, run, k, i)
  {
    hide Exec, SampleReached;
    if n == 0 {
      assert run[..n] == [];
      StartsFresh(size, hash);
    } else {
      MissedIsSampled(size, hash, run, n - 1, i);
      MissedStep(size, hash, run, n - 1, i);
    }
  }

  lemma ShownStep(size: nat, hash: Map -> Cksum, run: seq<TestCase>, n: nat, i: nat)
    requires ValidRun(run, size) && n < |run| && i < size
    ensures AflVirgin(size, hash, run[..n + 1])[i] == VIRGIN <==>
            AflVirgin(size, hash, run[..n])[i] == VIRGIN && !ShownReached(size, hash, run, n, i)
  {
    hide Exec, Last, ClassOf, Without, Sized;
    assert run[..n + 1][..n] == run[..n];
    ClearedAt(AflVirgin(size, hash, run[..n])[i], Last(size, hash, run[..n + 1]).shown[i]);
  }

  lemma {:induction false} VirginIsNeverShown(size: nat, hash: Map -> Cksum, run: seq<TestCase>, n: nat, i: nat)
    requires ValidRun(run, size) && n <= |run| && i < size
    ensures AflVirgin(size, hash, run[..n])[i] == VIRGIN <==>
            forall k: nat :: k < n ==> !ShownReached(size, hash, run, k, i)
  {
    hide AflVirgin, ShownReached;
    if n == 0 {
      assert run[..n] == [];
      StartsFresh(size, hash);
    } else {
      VirginIsNeverShown(size, hash, run, n - 1, i);
      ShownStep(size, hash, run, n - 1, i);
    }
  }

  /** A position counts as missed after a run exactly when some sampled discard
      reached it and no map AFL++ was shown ever did. */
  lemma MissedIff(size: nat, hash: Map -> Cksum, run: seq<TestCase>, i: nat)
    requires ValidRun(run, size) && i < size
    ensures var s := Exec(size, hash, run);
            Missed(s.virginMissed, s.virginEdge, i) <==>
              && (exists k: nat :: k < |run| && SampleReached(size, hash, run, k, i))
              && (forall k: nat :: k < |run| ==> !ShownReached(size, hash, run, k, i))
  {
    hide Exec, Last;
    assert run[..|run|] == run;
    MissedIsSampled(size, hash, run, |run|, i);
    VirginIsNeverShown(size, hash, run, |run|, i);
    HybridShadow.Shadow(size, hash, run);
  }

  predicate Missed(missed: Map, edge: Map, i: nat)
    requires i < |missed| == |edge|
  {
    missed[i] != VIRGIN && edge[i] == VIRGIN
  }

  /** `count_missed_tuples`. */
  method CountMissed(missed: array<bv8>, edge: array<bv8>) returns (n: nat)
    requires missed.Length == edge.Length
    ensures n == |set i: nat | i < missed.Length && Missed(missed[..], edge[..], i)|
  {
    n := 0;
    ghost var found: set<nat> := {};
    for i := 0 to missed.Length
      invariant found == set k: nat | k < i && Missed(missed[..], edge[..], k)
      invariant n == |found|
    {
      if missed[i] != VIRGIN && edge[i] == VIRGIN {
        n := n + 1;
        found := found + {i};
      }
    }
  }
}
