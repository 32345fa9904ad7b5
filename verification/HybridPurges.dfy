/** When a purge happens, by the positions reached alone: at a due attempt, if the
    positions AFL++ has been shown grew by no more than one percent since the
    last attempt, or if most positions of the path map led to no new edge. */
module HybridPurges {
  import opened Coverage
  import opened Hybrid
  import opened HybridRuns
  import HybridShadow
  import HybridSampling
  import HybridPacing

  /** The positions of a virgin map that have been reached. */
  function Positions(v: Map): set<nat> {
    set i: nat | i < |v| && v[i] != 0xff
  }

  lemma {:induction false} ReachedIsPositions(v: Map)
    ensures Reached(v) == |Positions(v)|
  {
    if v == [] {
      assert Positions(v) == {};
    } else {
      var n := |v| - 1;
      ReachedIsPositions(v[..n]);
      PositionsNext(v);
    }
  }

  lemma PositionsNext(v: Map)
    requires v != []
    ensures var n := |v| - 1;
            n !in Positions(v[..n]) && Positions(v) == Positions(v[..n]) + (if v[n] != 0xff then {n} else {})
  {
    var n := |v| - 1;
    assert forall i: nat :: i < n ==> v[..n][i] == v[i];
  }

  /** The interval has elapsed with the execution now counted. */
  predicate Elapsed(c: Clock) { c.realExecs + 1 >= c.preRealExecs + c.interval }

  /** With `shown` positions reached by now and `before` at the last attempt. */
  predicate Stalls(shown: nat, before: nat) { 100 * shown <= 101 * before }

  /** More than half of the path map's positions led to no new edge. */
  predicate MostlyWasted(s: State) { 2 * |Positions(s.virginAtomReal)| < |Positions(s.virginAtom)| }

  /** The path map after the count of one execution. */
  function PathMapAfter(s: State, shown: nat, before: nat): Map {
    if Elapsed(s.clock) && (Stalls(shown, before) || MostlyWasted(s)) then s.virginAtomReal else s.virginAtom
  }

  lemma PurgeByPositions(s: State)
    ensures PurgedAtom(s) == PathMapAfter(s, |Positions(s.virginEdge)|, s.clock.preVirginBits)
  {
    ReachedIsPositions(s.virginEdge);
    ReachedIsPositions(s.virginAtom);
    ReachedIsPositions(s.virginAtomReal);
    hide Reached, Positions;
  }

  /** Test case `n` made a purge attempt. */
  predicate AttemptsAt(size: nat, hash: Map -> Cksum, run: seq<TestCase>, n: nat)
    requires ValidRun(run, size) && n < |run|
  {
    Exec(size, hash, run[..n]).clock.attempts < Exec(size, hash, run[..n + 1]).clock.attempts
  }

  /** The test case of the latest attempt before test case `n`, or the first. */
  function LastAttempt(size: nat, hash: Map -> Cksum, run: seq<TestCase>, n: nat): (m: nat)
    requires ValidRun(run, size) && n <= |run|
    ensures m <= n
    decreases n
  {
    if n == 0 then 0
    else if AttemptsAt(size, hash, run, n - 1) then n - 1
    else LastAttempt(size, hash, run, n - 1)
  }

  /** Some map AFL++ was shown before test case `n` reached position `i`. */
  ghost predicate EverShown(size: nat, hash: Map -> Cksum, run: seq<TestCase>, n: nat, i: nat)
    requires ValidRun(run, size) && n <= |run| && i < size
  {
    exists k: nat :: k < n && HybridSampling.ShownReached(size, hash, run, k, i)
  }

  /** The positions of every map AFL++ was shown before test case `n`. */
  ghost function ShownPositions(size: nat, hash: Map -> Cksum, run: seq<TestCase>, n: nat): set<nat>
    requires ValidRun(run, size) && n <= |run|
  {
    set i: nat | i < size && EverShown(size, hash, run, n, i)
  }

  lemma EdgeIsShown(size: nat, hash: Map -> Cksum, run: seq<TestCase>, n: nat)
    requires ValidRun(run, size) && n <= |run|
    ensures Positions(Exec(size, hash, run[..n]).virginEdge) == ShownPositions(size, hash, run, n)
  {
    hide Exec, HybridSampling.ShownReached, AflVirgin;
    HybridShadow.Shadow(size, hash, run[..n]);
    forall i: nat | i < size
      ensures i in Positions(Exec(size, hash, run[..n]).virginEdge) <==> i in ShownPositions(size, hash, run, n)
    {
      HybridSampling.VirginIsNeverShown(size, hash, run, n, i);
    }
  }

  /** A tick that attempts notes the positions reached; any other notes nothing. */
  lemma TickNotes(c: Clock, st: Stats, wanted: bool, reached: nat)
    ensures var r := Ticked(c, st, wanted, reached);
            && r.attempts == c.attempts + One(Elapsed(c))
            && r.preVirginBits == if Elapsed(c) then reached else c.preVirginBits
  {
  }

  lemma PlayNotes(s: State, hash: Map -> Cksum, t: TestCase)
    requires Sized(s, |t.path|) && Fits(t, |t.path|)
    ensures var r := Play(s, hash, t).state.clock;
            && r.attempts >= s.clock.attempts
            && r.preVirginBits == if r.attempts > s.clock.attempts then Reached(s.virginEdge) else s.clock.preVirginBits
  {
    hide NewBits, Reached, Ticked, AnswerFor, Remember, PurgeWanted;
    var p := AfterPath(s, hash, t.path, t.pathOverflow, t.key).state;
    TickNotes(s.clock, CountExec(s.stats), PurgeWanted(s), Reached(s.virginEdge));
    TickNotes(p.clock, p.stats, PurgeWanted(p), Reached(p.virginEdge));
  }

  /** What the last attempt noted is how many positions had been shown by then. */
  lemma {:induction false} NotedIsShown(size: nat, hash: Map -> Cksum, run: seq<TestCase>, n: nat)
    requires ValidRun(run, size) && n <= |run|
    ensures Exec(size, hash, run[..n]).clock.preVirginBits ==
            |ShownPositions(size, hash, run, LastAttempt(size, hash, run, n))|
    decreases n
  {
    hide Exec, Play, Last, ShownPositions, Reached, Positions;
    if n == 0 {
      assert run[..0] == [];
      StartsFresh(size, hash);
      NothingShown(size, hash, run);
    } else {
      NotedIsShown(size, hash, run, n - 1);
      PlayedInTurn(size, hash, run, n - 1);
      PlayNotes(Exec(size, hash, run[..n - 1]), hash, run[n - 1]);
      EdgeIsShown(size, hash, run, n - 1);
      ReachedIsPositions(Exec(size, hash, run[..n - 1]).virginEdge);
    }
  }

  lemma NothingShown(size: nat, hash: Map -> Cksum, run: seq<TestCase>)
    requires ValidRun(run, size)
    ensures ShownPositions(size, hash, run, 0) == {}
  {
  }

  /** How many positions AFL++ has been shown before test case `n`, and how many
      it had been shown by the latest attempt. */
  ghost function ShownBy(size: nat, hash: Map -> Cksum, run: seq<TestCase>, n: nat): nat
    requires ValidRun(run, size) && n <= |run|
  {
    |ShownPositions(size, hash, run, n)|
  }

  /** The path pass of every test case of every run: the path map it tests and
      clears is `virginAtomReal` exactly when the interval has elapsed and the
      positions shown to AFL++ grew by at most one percent since the last attempt
      or most of the path map was wasted. */
  lemma PathPassPurges(size: nat, hash: Map -> Cksum, run: seq<TestCase>, n: nat)
    requires ValidRun(run, size) && n < |run|
    ensures var s, t := Exec(size, hash, run[..n]), run[n];
            var shown, before := ShownBy(size, hash, run, n), ShownBy(size, hash, run, LastAttempt(size, hash, run, n));
            var m := PathMapAfter(s, shown, before);
            AfterPath(s, hash, t.path, t.pathOverflow, t.key).state.virginAtom ==
              if Filtered(s.checkUp, s.checkDown, hash(t.path)) then m else Cleared(m, Classified(t.path))
  {
    var s := Exec(size, hash, run[..n]);
    PlayedInTurn(size, hash, run, n);
    NotedIsShown(size, hash, run, n);
    EdgeIsShown(size, hash, run, n);
    PurgeByPositions(s);
    hide Exec, Play, Positions, ShownPositions, PathMapAfter, PurgedAtom, NewBits, TickedClock, LastAttempt;
  }

  /** The verdict on every test case of every run: confirmed exactly when its
      checksum is not filtered and its path has a class virgin in the path map
      after that purge decision. */
  lemma VerdictIff(size: nat, hash: Map -> Cksum, run: seq<TestCase>, n: nat)
    requires ValidRun(run, size) && n < |run|
    ensures var s, t := Exec(size, hash, run[..n]), run[n];
            var shown, before := ShownBy(size, hash, run, n), ShownBy(size, hash, run, LastAttempt(size, hash, run, n));
            DiscardedAt(size, hash, run, n) <==>
              || Filtered(s.checkUp, s.checkDown, hash(t.path))
              || Covers(PathMapAfter(s, shown, before), Classified(t.path))
  {
    var s, t := Exec(size, hash, run[..n]), run[n];
    PlayedInTurn(size, hash, run, n);
    NotedIsShown(size, hash, run, n);
    EdgeIsShown(size, hash, run, n);
    PurgeByPositions(s);
    NoNewBits(PurgedAtom(s), Classified(t.path));
    hide Exec, Positions, ShownPositions, PathMapAfter, PurgedAtom, NewBits, Covers, TickedClock, LastAttempt;
    hide AnswerFor, Remember, AfterConfirm, AfterSample, Classified;
  }

  /** The confirm that follows a new path counts one more execution, by the same
      rule, before anything is cleared for its edges; its last attempt may be its
      own path pass. */
  lemma ConfirmPassPurges(size: nat, hash: Map -> Cksum, run: seq<TestCase>, n: nat)
    requires ValidRun(run, size) && n < |run|
    ensures var s, t := Exec(size, hash, run[..n]), run[n];
            var p := AfterPath(s, hash, t.path, t.pathOverflow, t.key).state;
            var shown := ShownBy(size, hash, run, n);
            var before := if Elapsed(s.clock) then shown
                          else ShownBy(size, hash, run, LastAttempt(size, hash, run, n));
            AfterConfirm(p, t.edge, t.edgeOverflow).virginAtom == PathMapAfter(p, shown, before)
  {
    var s, t := Exec(size, hash, run[..n]), run[n];
    var p := AfterPath(s, hash, t.path, t.pathOverflow, t.key).state;
    PlayedInTurn(size, hash, run, n);
    NotedIsShown(size, hash, run, n);
    EdgeIsShown(size, hash, run, n);
    ReachedIsPositions(s.virginEdge);
    PurgeByPositions(p);
    TickNotes(s.clock, CountExec(s.stats), PurgeWanted(s), Reached(s.virginEdge));
    hide Exec, Play, Positions, ShownPositions, PathMapAfter, PurgedAtom;
    hide NewBits, Ticked, LastAttempt, Reached, PurgeWanted;
  }

  // ------------------------------------------------- the next interval

  /** The base interval by the share of executions that were new paths. */
  function Base(confirmed: nat, execs: nat): nat {
    if 10 * confirmed < execs then 3000
    else if 4 * confirmed < execs then 7500
    else if 2 * confirmed < execs then 15000
    else 30000
  }

  /** `r` is the base times attempts per purge, rounded down and at most 30000. */
  predicate Scaled(r: nat, base: nat, attempts: nat, purges: nat) {
    if base * attempts >= 30000 * purges then r == 30000
    else r * purges <= base * attempts < (r + 1) * purges
  }

  /** The clock `r` after `c` has counted an execution, with `confirmed` new paths
      among `execs` path executions: the interval changes only at a purge, and
      only from the twenty-first on. */
  predicate IntervalRule(c: Clock, r: Clock, confirmed: nat, execs: nat) {
    if r.purges > c.purges && r.purges > 20
    then Scaled(r.interval, Base(confirmed, execs), c.attempts, r.purges)
    else r.interval == c.interval
  }

  lemma TickScales(c: Clock, st: Stats, wanted: bool, reached: nat)
    ensures IntervalRule(c, Ticked(c, st, wanted, reached), st.queued, st.pathExecs)
  {
    RoundedDown(BaseInterval(st.queued, st.pathExecs) * c.attempts, c.purges + 1);
  }

  lemma PathScales(s: State, hash: Map -> Cksum, t: TestCase)
    requires Sized(s, |t.path|) && s.stats.queued == s.stats.confirmed
    ensures var p := AfterPath(s, hash, t.path, t.pathOverflow, t.key).state;
            && IntervalRule(s.clock, p.clock, s.stats.confirmed, s.stats.pathExecs + 1)
            && p.stats.pathExecs == s.stats.pathExecs + 1 && p.stats.queued == p.stats.confirmed
  {
    TickScales(s.clock, CountExec(s.stats), PurgeWanted(s), Reached(s.virginEdge));
    hide Ticked, IntervalRule, PurgeWanted, Reached, NewBits, PurgedAtom, AnswerFor, Remember;
  }

  lemma ConfirmScales(s: State, m: Map, overflowed: bool)
    requires Sized(s, |m|) && s.stats.queued == s.stats.confirmed
    ensures IntervalRule(s.clock, AfterConfirm(s, m, overflowed).clock, s.stats.confirmed, s.stats.pathExecs)
  {
    TickScales(s.clock, s.stats, PurgeWanted(s), Reached(s.virginEdge));
    hide Ticked, IntervalRule, PurgeWanted, Reached, NewBits, PurgedAtom, Remember;
  }

  /** Over every run: in the path pass and in the confirm of test case `n` the
      share is that of the confirms so far, its own included, in `n + 1`
      executions. */
  lemma IntervalInRun(size: nat, hash: Map -> Cksum, run: seq<TestCase>, n: nat)
    requires ValidRun(run, size) && n < |run|
    ensures var s, t := Exec(size, hash, run[..n]), run[n];
            var p := AfterPath(s, hash, t.path, t.pathOverflow, t.key).state;
            && IntervalRule(s.clock, p.clock, s.stats.confirmed, n + 1)
            && IntervalRule(p.clock, AfterConfirm(p, t.edge, t.edgeOverflow).clock, p.stats.confirmed, n + 1)
  {
    var s, t := Exec(size, hash, run[..n]), run[n];
    PlayedInTurn(size, hash, run, n);
    HybridPacing.Conservation(size, hash, run[..n]);
    hide Exec, Play, IntervalRule, AfterPath, AfterConfirm;
    PathScales(s, hash, t);
    ConfirmScales(AfterPath(s, hash, t.path, t.pathOverflow, t.key).state, t.edge, t.edgeOverflow);
  }

  lemma TickKeepsFirst(c: Clock, st: Stats, wanted: bool, reached: nat)
    requires c.purges <= 20 ==> c.interval == 3000
    ensures var r := Ticked(c, st, wanted, reached); r.purges <= 20 ==> r.interval == 3000
  {
  }

  lemma PlayKeepsFirst(s: State, hash: Map -> Cksum, t: TestCase)
    requires Sized(s, |t.path|) && Fits(t, |t.path|) && (s.clock.purges <= 20 ==> s.clock.interval == 3000)
    ensures var c := Play(s, hash, t).state.clock; c.purges <= 20 ==> c.interval == 3000
  {
    var p := AfterPath(s, hash, t.path, t.pathOverflow, t.key).state;
    TickKeepsFirst(s.clock, CountExec(s.stats), PurgeWanted(s), Reached(s.virginEdge));
    TickKeepsFirst(p.clock, p.stats, PurgeWanted(p), Reached(p.virginEdge));
    hide Ticked, PurgeWanted, Reached, NewBits, PurgedAtom, AnswerFor, Remember;
  }

  /** Until the twenty-first purge every attempt waits for 3000 executions. */
  lemma {:induction false} FirstIntervals(size: nat, hash: Map -> Cksum, run: seq<TestCase>)
    requires ValidRun(run, size)
    ensures var c := Exec(size, hash, run).clock; c.purges <= 20 ==> c.interval == 3000
    decreases |run|
  {
    if run != [] {
      hide Play;
      var before := run[..|run| - 1];
      FirstIntervals(size, hash, before);
      PlayKeepsFirst(Exec(size, hash, before), hash, run[|run| - 1]);
    }
  }

  lemma RoundedDown(x: nat, b: nat)
    requires b > 0
    ensures x >= 30000 * b ==> x / b >= 30000
    ensures x < 30000 * b ==> x / b < 30000
    ensures x / b * b <= x < (x / b + 1) * b
  {
    var q, rem := x / b, x % b;
    assert x == q * b + rem;
    if q >= 30000 { TimesUp(30000, q, b); }
    if q < 30000 { TimesUp(q + 1, 30000, b); }
  }

  lemma TimesUp(x: nat, y: nat, b: nat)
    requires x <= y
    ensures x * b <= y * b
  {
  }
}
