/** Whole sessions of the proxy, as the governor sees them: test cases in either
    mode, the hidden edge passes of hybrid coverage, and calibration. */
module GovernorSessions {
  import opened Governor
  import opened RetryLoop

  datatype Work =
    | Case(mode: Mode, overflows: nat -> bool)   // a test case with its retries
    | EdgePass(overflow: bool, sample: bool)     // a confirm, or a sample
    | Ramp(mode: Mode, rungs: nat -> bool)
    | StartFrom(dst: Mode, src: Mode)

  /** The outcome of every rung of the table. */
  function Outcomes(tableSize: nat, rungs: nat -> bool): (r: seq<bool>)
    ensures |r| == tableSize && forall i :: 0 <= i < tableSize ==> r[i] == rungs(i)
  {
    seq(tableSize, i requires 0 <= i < tableSize => rungs(i))
  }

  function Done(g: Gov, w: Work): Gov {
    match w
    case Case(mode, overflows) => TestCase(g, mode, overflows).1
    case EdgePass(overflow, _) => OnResult(Apply(g, Addr).1, Addr, overflow)
    case Ramp(mode, rungs) => Calibrated(g, mode, Outcomes(g.tableSize, rungs))
    case StartFrom(dst, src) => CopyStart(g, dst, src)
  }

  function Session(g: Gov, works: seq<Work>): Gov {
    if works == [] then g else Done(Session(g, works[..|works| - 1]), works[|works| - 1])
  }

  /** Whatever a session consists of, no forced run is left pending when its next
      piece of work starts. */
  lemma {:induction false} NoForcedRunLeaks(g: Gov, works: seq<Work>)
    requires Ready(g)
    ensures Ready(Session(g, works))
    decreases |works|
  {
    hide TestCase, Schedule, Calibrated;
    if works != [] {
      var before, last := works[..|works| - 1], works[|works| - 1];
      NoForcedRunLeaks(g, before);
      var h := Session(g, before);
      match last
      case Case(mode, overflows) =>
        if mode.Addr? { PreciseTestCase(h, overflows); } else { PathTestCase(h, overflows); }
      case EdgePass(_, _) =>
      case Ramp(mode, rungs) => CalibratedStaysReady(h, mode, Outcomes(h.tableSize, rungs));
      case StartFrom(_, _) =>
    }
  }

  lemma CalibratedStaysReady(g: Gov, mode: Mode, overflows: seq<bool>)
    requires Ready(g) && |overflows| == g.tableSize
    ensures Ready(Calibrated(g, mode, overflows))
  {
  }

  // ------------------------------------- samples and the path pass

  /** The path pass's search and the shared window: all that decides at which
      frequency a path-mode execution runs. */
  datatype PathView = PathView(atom: Search, interval: nat, tableSize: nat, addrOnly: bool)

  function ViewOf(g: Gov): PathView { PathView(g.atom, g.interval, g.tableSize, g.addrOnly) }

  /** Between pieces of work, with the window as its law has it. */
  ghost predicate Steady(g: Gov) { Ready(g) && WindowLaw(g) }

  lemma AddrResultSparesView(g: Gov, overflow: bool)
    requires g.enabled && WindowLaw(g)
    ensures var h := OnResult(g, Addr, overflow);
            ViewOf(h) == ViewOf(g) && h.enabled && WindowLaw(h) && h.forceMin == g.forceMin
  {
    hide Window;
  }

  lemma {:induction false} AddrCaseSparesView(g: Gov, overflows: nat -> bool, k: nat, r: nat, forced: bool)
    requires g.enabled && WindowLaw(g)
    ensures var h := Attempts(g, Addr, overflows, k, r, forced).1;
            ViewOf(h) == ViewOf(g) && h.enabled && WindowLaw(h)
    decreases MAX_REPETITIONS + 1 - r, !forced
  {
    hide OnResult, Window;
    var applied := Apply(g, Addr).1;
    var g' := OnResult(applied, Addr, overflows(k));
    AddrResultSparesView(applied, overflows(k));
    if ShouldRetry(applied, Addr, overflows(k), r) {
      AddrCaseSparesView(g', overflows, k + 1, r + 1, forced);
    } else if overflows(k) && !forced && !AtFloor(g', Addr) && r >= MAX_REPETITIONS {
      AddrCaseSparesView(ForceMin(g'), overflows, k + 1, r, true);
    }
  }

  /** A path-mode result changes the view by what the view was. */
  lemma AtomResultFollowsView(g: Gov, h: Gov, overflow: bool)
    requires Steady(g) && Steady(h) && ViewOf(g) == ViewOf(h)
    ensures var g', h' := OnResult(g, Atom, overflow), OnResult(h, Atom, overflow);
            ViewOf(g') == ViewOf(h') && WindowLaw(g') && WindowLaw(h')
  {
    hide Window;
  }

  /** Work after start-up: no ramp, and no start copied from the edge pass. */
  predicate Running(w: Work) { w.Case? || w.EdgePass? }

  predicate Sampled(w: Work) { w.EdgePass? && w.sample }

  function Unsampled(works: seq<Work>): seq<Work> {
    if works == [] then []
    else
      var rest := Unsampled(works[..|works| - 1]);
      if Sampled(works[|works| - 1]) then rest else rest + [works[|works| - 1]]
  }

  lemma DoneFollowsView(g: Gov, h: Gov, w: Work)
    requires Steady(g) && Steady(h) && ViewOf(g) == ViewOf(h) && Running(w)
    ensures ViewOf(Done(g, w)) == ViewOf(Done(h, w)) && WindowLaw(Done(g, w)) && WindowLaw(Done(h, w))
  {
    hide Window, OnResult;
    match w
    case EdgePass(overflow, _) => AddrResultSparesView(g, overflow); AddrResultSparesView(h, overflow);
    case Case(mode, overflows) =>
      if mode.Addr? {
        AddrCaseSparesView(g, overflows, 0, 0, false);
        AddrCaseSparesView(h, overflows, 0, 0, false);
      } else {
        AtomResultFollowsView(g, h, overflows(0));
      }
  }

  lemma SampleSparesView(g: Gov, w: Work)
    requires Steady(g) && Sampled(w)
    ensures ViewOf(Done(g, w)) == ViewOf(g) && WindowLaw(Done(g, w))
  {
    AddrResultSparesView(g, w.overflow);
  }

  lemma SessionJoins(g: Gov, works: seq<Work>, w: Work)
    ensures Session(g, works + [w]) == Done(Session(g, works), w)
  {
    assert (works + [w])[..|works|] == works;
  }

  /** Sampled edge passes are evidence for the edge pass alone: erasing them from
      any session leaves the path pass's search and the window as they are. */
  lemma {:induction false} SamplesSpareThePathPass(g: Gov, works: seq<Work>)
    requires Steady(g) && forall i :: 0 <= i < |works| ==> Running(works[i])
    ensures ViewOf(Session(g, works)) == ViewOf(Session(g, Unsampled(works)))
    ensures Steady(Session(g, works)) && Steady(Session(g, Unsampled(works)))
    decreases |works|
  {
    hide Done, ViewOf, WindowLaw, Ready;
    NoForcedRunLeaks(g, works);
    NoForcedRunLeaks(g, Unsampled(works));
    if works != [] {
      var before, w := works[..|works| - 1], works[|works| - 1];
      SamplesSpareThePathPass(g, before);
      var s, t := Session(g, before), Session(g, Unsampled(before));
      if Sampled(w) {
        SampleSparesView(s, w);
      } else {
        DoneFollowsView(s, t, w);
        SessionJoins(g, Unsampled(before), w);
      }
    }
  }
}
