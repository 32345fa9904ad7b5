/** The governor, its table and the CPU policy together: at which frequency every
    execution of a session really runs. */
module PinnedSessions {
  import opened Governor
  import opened RetryLoop
  import opened GovernorSessions
  import FreqGovernor
  import FreqTable
  import opened CpuPolicy

  function Indices(attempts: seq<Attempt>): (r: seq<nat>)
    ensures |r| == |attempts| && forall i :: 0 <= i < |r| ==> r[i] == attempts[i].idx
  {
    seq(|attempts|, i requires 0 <= i < |attempts| => attempts[i].idx)
  }

  /** The table indices at which a piece of work executes its children, in order:
      a ramp goes up from the floor and ends with its first overflow. */
  function Executions(g: Gov, w: Work): seq<nat> {
    match w
    case Case(mode, overflows) => Indices(TestCase(g, mode, overflows).0)
    case EdgePass(_, _) => [Apply(g, Addr).0]
    case Ramp(_, rungs) => seq(FreqGovernor.RampLength(Outcomes(g.tableSize, rungs)), i => i)
    case StartFrom(_, _) => []
  }

  function AllExecutions(g: Gov, works: seq<Work>): seq<nat> {
    if works == [] then []
    else
      var before := works[..|works| - 1];
      AllExecutions(g, before) + Executions(Session(g, before), works[|works| - 1])
  }

  predicate InTable(indices: seq<nat>, size: nat) { forall i :: 0 <= i < |indices| ==> indices[i] < size }

  // --------------------------------------------- every index is a rung

  lemma ResultKeepsSize(g: Gov, mode: Mode, overflow: bool)
    ensures OnResult(g, mode, overflow).tableSize == g.tableSize
  {
  }

  lemma ForcingKeepsConsistent(g: Gov, force: bool)
    requires Consistent(g)
    ensures Consistent(g.(forceMin := force))
  {
  }

  lemma ApplyInTable(g: Gov, mode: Mode)
    requires Consistent(g)
    ensures Apply(g, mode).0 < g.tableSize && Consistent(Apply(g, mode).1)
    ensures Apply(g, mode).1.tableSize == g.tableSize
  {
    PositionsInTable(g);
    ForcingKeepsConsistent(g, false);
    hide Sound, WindowLaw;
  }

  lemma {:induction false} AttemptsInTable(g: Gov, mode: Mode, overflows: nat -> bool, k: nat, r: nat, forced: bool)
    requires Consistent(g)
    ensures var (attempts, h) := Attempts(g, mode, overflows, k, r, forced);
            && Consistent(h) && h.tableSize == g.tableSize
            && forall i :: 0 <= i < |attempts| ==> attempts[i].idx < g.tableSize
    decreases MAX_REPETITIONS + 1 - r, !forced
  {
    hide OnResult, Consistent, Apply;
    var (idx, applied) := Apply(g, mode);
    var g' := OnResult(applied, mode, overflows(k));
    ApplyInTable(g, mode);
    ResultKeepsConsistent(applied, mode, overflows(k));
    ResultKeepsSize(applied, mode, overflows(k));
    OneTurn(g, mode, overflows, k, r, forced);
    if ShouldRetry(applied, mode, overflows(k), r) {
      AttemptsInTable(g', mode, overflows, k + 1, r + 1, forced);
    } else if overflows(k) && mode.Addr? && !forced && !AtFloor(g', mode) && r >= MAX_REPETITIONS {
      ForcingKeepsConsistent(g', true);
      AttemptsInTable(ForceMin(g'), mode, overflows, k + 1, r, true);
    }
  }

  lemma {:induction false} RampFits(overflows: seq<bool>)
    ensures FreqGovernor.RampLength(overflows) <= |overflows|
  {
    if overflows != [] && !overflows[0] { RampFits(overflows[1..]); }
  }

  lemma WorkInTable(g: Gov, w: Work)
    requires Consistent(g)
    ensures Consistent(Done(g, w)) && Done(g, w).tableSize == g.tableSize
    ensures InTable(Executions(g, w), g.tableSize)
  {
    match w
    case Case(mode, overflows) =>
      hide Attempts, Consistent;
      AttemptsInTable(g, mode, overflows, 0, 0, false);
    case EdgePass(overflow, _) =>
      hide OnResult, Consistent, Apply;
      ApplyInTable(g, Addr);
      ResultKeepsConsistent(Apply(g, Addr).1, Addr, overflow);
      ResultKeepsSize(Apply(g, Addr).1, Addr, overflow);
    case Ramp(mode, rungs) =>
      var outcomes := Outcomes(g.tableSize, rungs);
      RampFits(outcomes);
      SettledIsLastClean(outcomes);
      hide Settled, Sound, WindowLaw, FreqGovernor.RampLength;
      MoveKeepsConsistent(g, mode, Settled(outcomes));
    case StartFrom(dst, src) =>
      PositionsInTable(g);
      hide Sound, WindowLaw;
      MoveKeepsConsistent(g, dst, g.At(src).idx);
  }

  lemma {:induction false} SessionInTable(g: Gov, works: seq<Work>)
    requires Consistent(g)
    ensures Consistent(Session(g, works)) && Session(g, works).tableSize == g.tableSize
    ensures InTable(AllExecutions(g, works), g.tableSize)
    decreases |works|
  {
    hide Consistent, Done, Executions;
    if works != [] {
      var before := works[..|works| - 1];
      SessionInTable(g, before);
      WorkInTable(Session(g, before), works[|works| - 1]);
    }
  }

  // ------------------------------------------------- what is evidence

  /** The executions of a piece of work that count for a mode, and how many of
      them overflowed: those of a test case in its own mode, confirms and samples
      for the edge pass, none of a ramp. */
  function Evidence(g: Gov, w: Work, mode: Mode): (nat, nat) {
    match w
    case Case(m, overflows) =>
      var attempts := TestCase(g, m, overflows).0;
      if m == mode then (|attempts|, Overflowing(attempts)) else (0, 0)
    case EdgePass(overflow, _) => if mode.Addr? then (1, if overflow then 1 else 0) else (0, 0)
    case Ramp(_, _) => (0, 0)
    case StartFrom(_, _) => (0, 0)
  }

  lemma ResultCounts(g: Gov, m: Mode, overflow: bool, mode: Mode)
    requires g.enabled
    ensures var h := OnResult(g, m, overflow);
            && h.enabled
            && h.At(mode).total == g.At(mode).total + (if m == mode then 1 else 0)
            && h.At(mode).overflowed == g.At(mode).overflowed + (if m == mode && overflow then 1 else 0)
  {
  }

  lemma {:induction false} AttemptsCount(g: Gov, m: Mode, overflows: nat -> bool, k: nat, r: nat, forced: bool,
                                         mode: Mode)
    requires g.enabled
    ensures var (attempts, h) := Attempts(g, m, overflows, k, r, forced);
            && h.enabled
            && h.At(mode).total == g.At(mode).total + (if m == mode then |attempts| else 0)
            && h.At(mode).overflowed == g.At(mode).overflowed + (if m == mode then Overflowing(attempts) else 0)
    decreases MAX_REPETITIONS + 1 - r, !forced
  {
    hide OnResult, Overflowing;
    var (idx, applied) := Apply(g, m);
    var g' := OnResult(applied, m, overflows(k));
    ResultCounts(applied, m, overflows(k), mode);
    OneTurn(g, m, overflows, k, r, forced);
    NothingOverflows();
    OverflowingNext(idx, overflows(k), []);
    assert [Attempt(idx, overflows(k))] + [] == [Attempt(idx, overflows(k))];
    if ShouldRetry(applied, m, overflows(k), r) {
      AttemptsCount(g', m, overflows, k + 1, r + 1, forced, mode);
      OverflowingNext(idx, overflows(k), Attempts(g', m, overflows, k + 1, r + 1, forced).0);
    } else if overflows(k) && m.Addr? && !forced && !AtFloor(g', m) && r >= MAX_REPETITIONS {
      AttemptsCount(ForceMin(g'), m, overflows, k + 1, r, true, mode);
      OverflowingNext(idx, overflows(k), Attempts(ForceMin(g'), m, overflows, k + 1, r, true).0);
    }
  }

  /** Every counted execution is counted once, for its own mode. */
  lemma WorkCounts(g: Gov, w: Work, mode: Mode)
    requires g.enabled
    ensures var h := Done(g, w);
            && h.enabled
            && h.At(mode).total == g.At(mode).total + Evidence(g, w, mode).0
            && h.At(mode).overflowed == g.At(mode).overflowed + Evidence(g, w, mode).1
  {
    match w
    case Case(m, overflows) =>
      hide Attempts;
      AttemptsCount(g, m, overflows, 0, 0, false, mode);
    case EdgePass(overflow, _) =>
      hide OnResult;
      ResultCounts(Apply(g, Addr).1, Addr, overflow, mode);
    case Ramp(_, _) =>
    case StartFrom(_, _) =>
  }

  function AllEvidence(g: Gov, works: seq<Work>, mode: Mode): (nat, nat) {
    if works == [] then (0, 0)
    else
      var before := works[..|works| - 1];
      var (n, o), (m, p) := AllEvidence(g, before, mode), Evidence(Session(g, before), works[|works| - 1], mode);
      (n + m, o + p)
  }

  /** Over every session each mode's counts are those of its own executions. */
  lemma {:induction false} SessionCounts(g: Gov, works: seq<Work>, mode: Mode)
    requires g.enabled
    ensures var h, e := Session(g, works), AllEvidence(g, works, mode);
            && h.enabled
            && h.At(mode).total == g.At(mode).total + e.0 && h.At(mode).overflowed == g.At(mode).overflowed + e.1
    decreases |works|
  {
    hide Done, Evidence;
    if works != [] {
      var before := works[..|works| - 1];
      SessionCounts(g, before, mode);
      WorkCounts(Session(g, before), works[|works| - 1], mode);
    }
  }

  // -------------------------------------------- what is asked of the CPU

  /** Each execution has its frequency set first and the maximum after it. */
  function Settings(indices: seq<nat>, table: seq<nat>, b: Bounds): (cs: seq<Call>)
    requires InTable(indices, |table|)
  {
    if indices == [] then []
    else
      var n := |indices| - 1;
      Settings(indices[..n], table, b) + [SetTo(table[indices[n]]), SetTo(b.hi)]
  }

  /** What the table built from the CPU's frequencies is. */
  predicate TableWithin(table: seq<nat>, b: Bounds) {
    0 < b.lo <= b.hi && forall i :: 0 <= i < |table| ==> b.lo <= table[i] <= b.hi
  }

  predicate AllSettings(cs: seq<Call>, b: Bounds) {
    forall i :: 0 <= i < |cs| ==> InBounds(cs[i], b) && cs[i].SetTo?
  }

  lemma {:induction false} SettingsInBounds(indices: seq<nat>, table: seq<nat>, b: Bounds)
    requires InTable(indices, |table|) && TableWithin(table, b)
    ensures AllSettings(Settings(indices, table, b), b)
    decreases |indices|
  {
    if indices != [] { SettingsInBounds(indices[..|indices| - 1], table, b); }
  }

  /** Over every session, from any usable policy under the userspace governor: no
      write is refused, every execution runs with the policy pinned to the
      frequency of its index, and the proxy's own work after it at the maximum. */
  lemma RunsAtItsFrequency(p: Policy, b: Bounds, restore: seq<Write>, table: seq<nat>,
                           g: Gov, works: seq<Work>, k: nat)
    requires Usable(p, b) && p.governor.Userspace? && TableWithin(table, b)
    requires Consistent(g) && g.tableSize == |table| && k < |AllExecutions(g, works)|
    ensures InTable(AllExecutions(g, works), |table|)
    ensures var runs := AllExecutions(g, works);
            var before := Settings(runs[..k], table, b);
            && Pinned(Calls(Machine(p, 0), b, restore, before + [SetTo(table[runs[k]])]).policy, table[runs[k]])
            && Pinned(Calls(Machine(p, 0), b, restore, before + [SetTo(table[runs[k]]), SetTo(b.hi)]).policy, b.hi)
            && AllAccepted(p, RunWrites(Machine(p, 0), b, restore, Settings(runs, table, b)))
  {
    hide Calls, AllExecutions, RunWrites, AllAccepted, Pinned, Usable, Consistent;
    SessionInTable(g, works);
    var runs := AllExecutions(g, works);
    var before := Settings(runs[..k], table, b);
    SettingsInBounds(runs[..k], table, b);
    SettingsInBounds(runs, table, b);
    hide Settings;
    LastTargetIsPinned(p, b, restore, before + [SetTo(table[runs[k]])]);
    LastTargetIsPinned(p, b, restore, before + [SetTo(table[runs[k]]), SetTo(b.hi)]);
    LastTargetIsPinned(p, b, restore, Settings(runs, table, b));
  }

  /** With the table sorted, no attempt of a precise test case runs faster than an
      earlier one. */
  lemma RetriesSlowDown(g: Gov, overflows: nat -> bool, table: seq<nat>, i: nat, j: nat)
    requires Ready(g) && Consistent(g) && g.tableSize == |table| && FreqTable.Sorted(table)
    requires i < j < |TestCase(g, Addr, overflows).0|
    ensures var attempts := TestCase(g, Addr, overflows).0;
            && attempts[j].idx < attempts[i].idx < |table|
            && table[attempts[j].idx] <= table[attempts[i].idx]
  {
    hide Attempts, Consistent;
    AttemptsInTable(g, Addr, overflows, 0, 0, false);
    RetriesAreBounded(g, overflows);
  }
}
