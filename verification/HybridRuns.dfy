/** Whole runs of the hybrid engine. A test case carries every map the passes
    over it would decode; which of them the engine looks at is its own verdict's
    doing, so any sequence of test cases is a run. */
module HybridRuns {
  import opened Common
  import opened Coverage
  import opened Hybrid

  datatype Sample = Sample(m: Map, overflow: bool)

  datatype TestCase = TestCase(path: Map, pathOverflow: bool, key: nat,
                               edge: Map, edgeOverflow: bool, sample: Option<Sample>)

  predicate Fits(t: TestCase, size: nat) {
    |t.path| == |t.edge| == size && (t.sample.Some? ==> |t.sample.value.m| == size)
  }

  predicate ValidRun(run: seq<TestCase>, size: nat) {
    forall i :: 0 <= i < |run| ==> Fits(run[i], size)
  }

  datatype Outcome = Outcome(state: State, verdict: Verdict, shown: Map)

  /** One test case, as the proxy's main loop drives it: the path pass, then the
      edge pass on a new path, or a sampled edge pass on a discard, after which
      the chosen map is put back. */
  function Play(s: State, hash: Map -> Cksum, t: TestCase): (o: Outcome)
    requires Sized(s, |t.path|) && Fits(t, |t.path|)
    ensures Sized(o.state, |t.path|) && |o.shown| == |t.path|
  {
    var p := AfterPath(s, hash, t.path, t.pathOverflow, t.key);
    match p.verdict
    case Confirm => Outcome(AfterConfirm(p.state, t.edge, t.edgeOverflow), Confirm, t.edge)
    case Discard =>
      Outcome(if t.sample.Some? then AfterSample(p.state, t.sample.value.m, t.sample.value.overflow)
              else p.state, Discard, p.shown)
  }

  /** The state after a run. */
  function Exec(size: nat, hash: Map -> Cksum, run: seq<TestCase>): (s: State)
    requires ValidRun(run, size)
    ensures Sized(s, size)
  {
    if run == [] then Init(size)
    else Play(Exec(size, hash, run[..|run| - 1]), hash, run[|run| - 1]).state
  }

  /** The outcome of a run's last test case. */
  function Last(size: nat, hash: Map -> Cksum, run: seq<TestCase>): (o: Outcome)
    requires ValidRun(run, size) && run != []
    ensures Sized(o.state, size) && |o.shown| == size
  {
    Play(Exec(size, hash, run[..|run| - 1]), hash, run[|run| - 1])
  }

  /** The map AFL++ holds after folding every map it was shown into a fresh
      virgin map: what `virginEdge` is meant to shadow. */
  function AflVirgin(size: nat, hash: Map -> Cksum, run: seq<TestCase>): (v: Map)
    requires ValidRun(run, size)
    ensures |v| == size
  {
    if run == [] then Filled(size, VIRGIN)
    else Cleared(AflVirgin(size, hash, run[..|run| - 1]), Classified(Last(size, hash, run).shown))
  }

  /** What AFL++ makes of the last map it was shown. */
  function AflVerdict(size: nat, hash: Map -> Cksum, run: seq<TestCase>): (n: nat)
    requires ValidRun(run, size) && run != []
  {
    NewBits(AflVirgin(size, hash, run[..|run| - 1]), Classified(Last(size, hash, run).shown))
  }

  lemma StartsFresh(size: nat, hash: Map -> Cksum)
    ensures Exec(size, hash, []) == Init(size)
    ensures AflVirgin(size, hash, []) == Filled(size, VIRGIN)
  {
    hide Play;
  }

  /** Test case `i` of a run is played on the state the ones before it left. */
  lemma PlayedInTurn(size: nat, hash: Map -> Cksum, run: seq<TestCase>, i: nat)
    requires ValidRun(run, size) && i < |run|
    ensures ValidRun(run[..i], size) && Fits(run[i], size)
    ensures Last(size, hash, run[..i + 1]) == Play(Exec(size, hash, run[..i]), hash, run[i])
    ensures Exec(size, hash, run[..i + 1]) == Last(size, hash, run[..i + 1]).state
  {
    hide Play;
    assert run[..i + 1][..i] == run[..i];
  }

  /** Test case `i` of a run was discarded. */
  predicate DiscardedAt(size: nat, hash: Map -> Cksum, run: seq<TestCase>, i: nat)
    requires ValidRun(run, size) && i < |run|
  {
    Last(size, hash, run[..i + 1]).verdict == Discard
  }

  /** The map AFL++ was shown for test case `i` of a run. */
  function ShownAt(size: nat, hash: Map -> Cksum, run: seq<TestCase>, i: nat): Map
    requires ValidRun(run, size) && i < |run|
  {
    Last(size, hash, run[..i + 1]).shown
  }
}
