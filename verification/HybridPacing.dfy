/** The purge heuristic's clock, the engine's counters and the confirm budget,
    over every run. */
module HybridPacing {
  import opened Coverage
  import opened Hybrid
  import opened HybridRuns

  const SHORTEST := 2857

  // --------------------------------------------------------------- pacing

  /** The clock's invariant: never overdue, and every attempt so far waited for
      an interval between the two bounds. */
  ghost predicate Paced(c: Clock) {
    && SHORTEST <= c.interval <= LEVEL4
    && c.purges <= c.attempts
    && 0 <= c.realExecs - c.preRealExecs < c.interval
    && SHORTEST * c.attempts <= c.preRealExecs <= LEVEL4 * c.attempts
  }

  lemma TimesMonotone(x: nat, y: nat, b: nat)
    requires x <= y
    ensures x * b <= y * b
  {
  }

  lemma AtLeastQuotient(a: nat, b: nat, q: nat)
    requires b > 0 && a >= q * b
    ensures a / b >= q
  {
    var d, r := a / b, a % b;
    assert a == d * b + r;
    if d < q {
      TimesMonotone(d + 1, q, b);
      assert false;
    }
  }

  lemma ScaledIntervalBound(base: nat, attempts: nat, purges: nat)
    requires base >= LEVEL1 && purges > 20 && attempts + 1 >= purges
    ensures base * attempts / purges >= SHORTEST
  {
    assert base * attempts >= LEVEL1 * attempts;
    AtLeastQuotient(base * attempts, purges, SHORTEST);
  }

  /** One counted execution: an attempt is made exactly when the interval has
      elapsed, and the clock stays paced. */
  lemma TickKeepsPace(c: Clock, st: Stats, wanted: bool, reached: nat)
    requires Paced(c)
    ensures var r := Ticked(c, st, wanted, reached);
            && Paced(r)
            && r.realExecs == c.realExecs + 1
            && r.attempts == c.attempts + One(r.realExecs == c.preRealExecs + c.interval)
            && r.purges == c.purges + One(r.attempts > c.attempts && wanted)
  {
    if PurgeDue(c) && wanted && c.purges >= 20 {
      ScaledIntervalBound(BaseInterval(st.queued, st.pathExecs), c.attempts, c.purges + 1);
    }
  }

  lemma PlayKeepsPace(s: State, hash: Map -> Cksum, t: TestCase)
    requires Sized(s, |t.path|) && Fits(t, |t.path|) && Paced(s.clock)
    ensures Paced(Play(s, hash, t).state.clock)
  {
    var p := AfterPath(s, hash, t.path, t.pathOverflow, t.key).state;
    TickKeepsPace(s.clock, CountExec(s.stats), PurgeWanted(s), Reached(s.virginEdge));
    TickKeepsPace(p.clock, p.stats, PurgeWanted(p), Reached(p.virginEdge));
  }

  /** Purge pacing over every run. */
  lemma {:induction false} Pacing(size: nat, hash: Map -> Cksum, run: seq<TestCase>)
    requires ValidRun(run, size)
    ensures var c := Exec(size, hash, run).clock;
            && Paced(c)
            && SHORTEST * c.attempts <= c.realExecs < LEVEL4 * (c.attempts + 1)
    decreases |run|
  {
    if run != [] {
      hide Play;
      var before := run[..|run| - 1];
      Pacing(size, hash, before);
      PlayKeepsPace(Exec(size, hash, before), hash, run[|run| - 1]);
    }
  }

  // --------------------------------------------------------- conservation

  ghost predicate Conserved(s: State) {
    var n := s.stats;
    && n.pathExecs == n.filtered + n.oldPath + n.confirmed
    && n.filtered + n.oldPath == n.inputHits + n.cacheHits + n.empty
    && n.queued == n.confirmed
    && n.newTuples <= n.newEdges <= n.confirmed
  }

  lemma PathConserves(s: State, hash: Map -> Cksum, m: Map, overflowed: bool, key: nat)
    requires Sized(s, |m|) && Conserved(s)
    ensures var r := AfterPath(s, hash, m, overflowed, key);
            && Conserved(r.state)
            && r.state.clock.realExecs == s.clock.realExecs + 1
            && r.state.stats.pathExecs == s.stats.pathExecs + 1
            && r.state.stats.confirmed == s.stats.confirmed + One(r.verdict == Confirm)
            && (r.verdict == Confirm ==> r.state.stats.newEdges < r.state.stats.confirmed)
  {
  }

  lemma ConfirmConserves(s: State, m: Map, overflowed: bool)
    requires Sized(s, |m|) && Conserved(s) && s.stats.newEdges < s.stats.confirmed
    ensures var r := AfterConfirm(s, m, overflowed);
            && Conserved(r)
            && r.clock.realExecs == s.clock.realExecs + 1
            && r.stats.pathExecs == s.stats.pathExecs && r.stats.confirmed == s.stats.confirmed
  {
  }

  lemma PlayConserves(s: State, hash: Map -> Cksum, t: TestCase)
    requires Sized(s, |t.path|) && Fits(t, |t.path|)
    requires Conserved(s) && s.clock.realExecs == s.stats.pathExecs + s.stats.confirmed
    ensures var r := Play(s, hash, t).state;
            && Conserved(r)
            && r.clock.realExecs == r.stats.pathExecs + r.stats.confirmed
            && r.stats.pathExecs == s.stats.pathExecs + 1
  {
    hide AfterPath, AfterConfirm;
    PathConserves(s, hash, t.path, t.pathOverflow, t.key);
    var p := AfterPath(s, hash, t.path, t.pathOverflow, t.key);
    if p.verdict == Confirm {
      ConfirmConserves(p.state, t.edge, t.edgeOverflow);
    }
  }

  /** Every execution, discard and confirm is counted exactly once. */
  lemma {:induction false} Conservation(size: nat, hash: Map -> Cksum, run: seq<TestCase>)
    requires ValidRun(run, size)
    ensures var s := Exec(size, hash, run);
            && Conserved(s)
            && s.clock.realExecs == s.stats.pathExecs + s.stats.confirmed
            && s.stats.pathExecs == |run|
    decreases |run|
  {
    if run != [] {
      hide Play;
      var before := run[..|run| - 1];
      Conservation(size, hash, before);
      PlayConserves(Exec(size, hash, before), hash, run[|run| - 1]);
    }
  }

  // --------------------------------------------------------------- budget

  /** The confirms the path map can still pay for: one bit each, and a whole
      map again at every purge. */
  ghost predicate WithinBudget(s: State, size: nat) {
    && s.stats.confirmed + SetBits(s.virginAtom) <= (8 * size) * (1 + s.clock.purges)
    && s.stats.newEdges + SetBits(s.virginEdge) <= 8 * size
    && s.stats.newTuples <= Reached(s.virginEdge)
  }

  lemma PurgeRefills(confirmed: nat, atom: nat, kept: nat, unit: nat, purges: nat)
    requires confirmed + atom <= unit * (1 + purges) && kept <= unit
    ensures confirmed + kept <= unit * (1 + (purges + 1))
  {
    assert unit * (1 + (purges + 1)) == unit * (1 + purges) + unit;
  }

  lemma TickKeepsBudget(s: State, st: Stats, size: nat)
    requires |s.virginAtomReal| == size && WithinBudget(s, size)
    ensures s.stats.confirmed + SetBits(PurgedAtom(s)) <= (8 * size) * (1 + TickedClock(s, st).purges)
  {
    SetBitsBounded(s.virginAtomReal);
    PurgeRefills(s.stats.confirmed, SetBits(s.virginAtom), SetBits(s.virginAtomReal), 8 * size, s.clock.purges);
  }

  lemma PathKeepsBudget(s: State, hash: Map -> Cksum, m: Map, overflowed: bool, key: nat)
    requires Sized(s, |m|) && WithinBudget(s, |m|)
    ensures WithinBudget(AfterPath(s, hash, m, overflowed, key).state, |m|)
  {
    hide BitsOf, Sum, NewBits, TickedClock;
    TickKeepsBudget(s, CountExec(s.stats), |m|);
    ClearingLowersSetBits(PurgedAtom(s), Classified(m));
  }

  lemma ConfirmKeepsBudget(s: State, m: Map, overflowed: bool)
    requires Sized(s, |m|) && WithinBudget(s, |m|)
    ensures WithinBudget(AfterConfirm(s, m, overflowed), |m|)
  {
    hide BitsOf, Sum, NewBits, TickedClock;
    TickKeepsBudget(s, s.stats, |m|);
    ClearingLowersSetBits(s.virginEdge, Classified(m));
    ClearingKeepsReached(s.virginEdge, Classified(m));
  }

  lemma SampleKeepsBudget(s: State, m: Map, overflowed: bool)
    requires Sized(s, |m|) && WithinBudget(s, |m|)
    ensures WithinBudget(AfterSample(s, m, overflowed), |m|)
  {
  }

  /** The confirm budget over every run. */
  lemma {:induction false} Budget(size: nat, hash: Map -> Cksum, run: seq<TestCase>)
    requires ValidRun(run, size)
    ensures WithinBudget(Exec(size, hash, run), size)
    decreases |run|
  {
    if run == [] {
      SetBitsBounded(Filled(size, VIRGIN));
    } else {
      hide AfterPath, AfterConfirm, AfterSample;
      var before, t := run[..|run| - 1], run[|run| - 1];
      Budget(size, hash, before);
      var s := Exec(size, hash, before);
      PathKeepsBudget(s, hash, t.path, t.pathOverflow, t.key);
      var p := AfterPath(s, hash, t.path, t.pathOverflow, t.key);
      if p.verdict == Confirm {
        ConfirmKeepsBudget(p.state, t.edge, t.edgeOverflow);
      } else if t.sample.Some? {
        SampleKeepsBudget(p.state, t.sample.value.m, t.sample.value.overflow);
      }
    }
  }
}
