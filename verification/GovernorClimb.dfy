/** How the governor climbs: by exactly one rung for every window of clean
    executions, whose length is a fifth of the mean distance between overflows. */
module GovernorClimb {
  import opened Governor
  import opened RetryLoop
  import opened GovernorSessions

  /** `n` clean results in a row. */
  function Cleans(g: Gov, mode: Mode, n: nat): Gov {
    if n == 0 then g else OnResult(Cleans(g, mode, n - 1), mode, false)
  }

  /** Clean results of this mode leave the window as it is: it is fixed, or no
      path-mode execution has overflowed, or the results are the edge pass's. */
  ghost predicate FixedWindow(g: Gov, mode: Mode) {
    Consistent(g) && (g.addrOnly || g.atom.overflowed == 0 || mode.Addr?)
  }

  function NextRung(idx: nat, tableSize: nat): nat { if idx + 1 < tableSize then idx + 1 else idx }

  lemma OneClean(g: Gov, mode: Mode)
    requires FixedWindow(g, mode)
    ensures var h := OnResult(g, mode, false);
            && FixedWindow(h, mode) && h.interval == g.interval && h.tableSize == g.tableSize
            && h.At(mode).total == g.At(mode).total + 1 && h.At(mode).overflowed == g.At(mode).overflowed
            && (g.At(mode).clean + 1 < g.interval ==>
                  && h.At(mode).clean == g.At(mode).clean + 1
                  && h.At(mode).idx == g.At(mode).idx && h.At(mode).stable == g.At(mode).stable
                  && h.At(mode).idxSum == g.At(mode).idxSum)
            && (g.At(mode).clean + 1 >= g.interval ==>
                  && h.At(mode).clean == 0
                  && h.At(mode).idx == NextRung(g.At(mode).idx, g.tableSize)
                  && h.At(mode).stable == g.At(mode).stable + 1
                  && h.At(mode).idxSum == g.At(mode).idxSum + g.At(mode).idx)
  {
    ResultKeepsConsistent(g, mode, false);
    hide Window, Sound;
  }

  /** Fewer clean results than the window still asks for move nothing. */
  lemma {:induction false} WithinWindow(g: Gov, mode: Mode, n: nat)
    requires FixedWindow(g, mode) && g.At(mode).clean + n < g.interval
    ensures var h := Cleans(g, mode, n);
            && FixedWindow(h, mode) && h.interval == g.interval && h.tableSize == g.tableSize
            && h.At(mode).clean == g.At(mode).clean + n
            && h.At(mode).idx == g.At(mode).idx && h.At(mode).stable == g.At(mode).stable
            && h.At(mode).idxSum == g.At(mode).idxSum
  {
    hide FixedWindow, OnResult;
    if n > 0 {
      WithinWindow(g, mode, n - 1);
      OneClean(Cleans(g, mode, n - 1), mode);
    }
  }

  /** The clean result that completes the window raises the index by one, up to
      the top of the table, and records one stable window at the index it ran. */
  lemma WindowClimbs(g: Gov, mode: Mode)
    requires FixedWindow(g, mode) && g.At(mode).clean < g.interval
    ensures var h := Cleans(g, mode, g.interval - g.At(mode).clean);
            && FixedWindow(h, mode) && h.interval == g.interval && h.tableSize == g.tableSize
            && h.At(mode).clean == 0
            && h.At(mode).idx == NextRung(g.At(mode).idx, g.tableSize)
            && h.At(mode).stable == g.At(mode).stable + 1
            && h.At(mode).idxSum == g.At(mode).idxSum + g.At(mode).idx
  {
    var n := g.interval - g.At(mode).clean - 1;
    WithinWindow(g, mode, n);
    OneClean(Cleans(g, mode, n), mode);
    hide FixedWindow, OnResult;
  }

  lemma StartsPositive(g: Gov, mode: Mode)
    requires FixedWindow(g, mode)
    ensures g.interval > 0 && g.At(mode).idx < g.tableSize
  {
  }

  /** `k` windows of `w` clean results. */
  function CleanWindows(g: Gov, mode: Mode, w: nat, k: nat): Gov
    decreases k
  {
    if k == 0 then g else CleanWindows(Cleans(g, mode, w), mode, w, k - 1)
  }

  /** From the start of a window, `k` whole windows climb `k` rungs, or to the top. */
  lemma {:induction false} WindowsClimb(g: Gov, mode: Mode, k: nat)
    requires FixedWindow(g, mode) && g.At(mode).clean == 0
    ensures var h := CleanWindows(g, mode, g.interval, k);
            && h.At(mode).clean == 0 && h.At(mode).stable == g.At(mode).stable + k
            && h.At(mode).idx == if g.At(mode).idx + k < g.tableSize then g.At(mode).idx + k else g.tableSize - 1
    decreases k
  {
    StartsPositive(g, mode);
    if k > 0 {
      WindowClimbs(g, mode);
      WindowsClimb(Cleans(g, mode, g.interval), mode, k - 1);
      hide FixedWindow, OnResult;
    }
  }

  // ------------------------------------------------- the window's length

  /** Between its bounds the window is a fifth of the executions per overflow,
      rounded down. */
  lemma WindowIsFifth(total: nat, overflowed: nat)
    requires overflowed > 0
    ensures var w := Window(total, overflowed);
            && (total < 5 * overflowed * (MIN_INTERVAL + 1) ==> w == MIN_INTERVAL)
            && (5 * overflowed * MAX_INTERVAL <= total ==> w == MAX_INTERVAL)
            && (5 * overflowed * MIN_INTERVAL <= total < 5 * overflowed * MAX_INTERVAL ==>
                  5 * overflowed * w <= total < 5 * overflowed * (w + 1))
  {
    var q, fi := total / overflowed, total / overflowed / 5;
    var r := total % overflowed;
    assert total == overflowed * q + r;
    FifthOf(total, overflowed, q, r, fi);
    if fi < MIN_INTERVAL { TimesGrows(5 * overflowed, fi + 1, MIN_INTERVAL); }
    if fi > MIN_INTERVAL { TimesGrows(5 * overflowed, MIN_INTERVAL + 1, fi); }
    if fi < MAX_INTERVAL { TimesGrows(5 * overflowed, fi + 1, MAX_INTERVAL); }
  }

  lemma FifthOf(total: nat, overflowed: nat, q: nat, r: nat, fi: nat)
    requires total == overflowed * q + r && r < overflowed && fi == q / 5
    ensures 5 * overflowed * fi <= total < 5 * overflowed * (fi + 1)
  {
    assert q == 5 * fi + q % 5;
    TimesGrows(overflowed, 5 * fi, q);
    TimesGrows(overflowed, q + 1, 5 * fi + 5);
    assert overflowed * (q + 1) == overflowed * q + overflowed;
    assert overflowed * (5 * fi) == 5 * overflowed * fi;
    assert overflowed * (5 * fi + 5) == 5 * overflowed * (fi + 1);
  }

  /** In every run that is not edge-only, once a path-mode execution has overflowed,
      the shared window is that of the path mode's own counts, and the longest
      before; an edge-only run keeps the shortest. */
  lemma WindowFollowsPathMode(tableSize: nat, addrOnly: bool, run: seq<Event>)
    requires tableSize > 0 && FitsAll(run, tableSize)
    ensures var g := Run(Init(tableSize, addrOnly), run);
            && (addrOnly ==> g.interval == 100)
            && (!addrOnly && g.atom.overflowed == 0 ==> g.interval == 1000)
            && var n, o := g.atom.total, g.atom.overflowed;
            (!addrOnly && 0 < o && 500 * o <= n < 5000 * o ==> 5 * o * g.interval <= n < 5 * o * (g.interval + 1))
  {
    InitIsConsistent(tableSize, addrOnly);
    AlwaysConsistent(Init(tableSize, addrOnly), run);
    var g := Run(Init(tableSize, addrOnly), run);
    KeepsKind(Init(tableSize, addrOnly), run);
    hide Run, Window, Sound;
    if g.atom.overflowed > 0 { WindowIsFifth(g.atom.total, g.atom.overflowed); }
  }

  lemma {:induction false} KeepsKind(g: Gov, run: seq<Event>)
    requires FitsAll(run, g.tableSize)
    ensures Run(g, run).addrOnly == g.addrOnly
    decreases |run|
  {
    if run != [] { KeepsKind(g, run[..|run| - 1]); }
  }

  // -------------------------------------------------------------- the start

  /** Without a ramp the first execution of either mode runs at the top. */
  lemma StartsAtTop(tableSize: nat, addrOnly: bool, mode: Mode, overflows: nat -> bool)
    requires tableSize > 0
    ensures var attempts := TestCase(Init(tableSize, addrOnly), mode, overflows).0;
            attempts != [] && attempts[0].idx + 1 == tableSize
  {
    OneTurn(Init(tableSize, addrOnly), mode, overflows, 0, 0, false);
  }


  /** Hybrid coverage ramps the edge pass alone: both modes then start on the last
      rung before the edge pass's first overflow, or on the floor. */
  lemma HybridStart(g: Gov, rungs: nat -> bool, i: nat)
    requires g.enabled && i <= g.tableSize && g.tableSize > 0 && (i < g.tableSize ==> rungs(i))
    requires forall k: nat :: k < i ==> !rungs(k)
    ensures var h := Done(Done(g, Ramp(Addr, rungs)), StartFrom(Atom, Addr));
            h.addr.idx == h.atom.idx == if i == 0 then 0 else i - 1
  {
    var overflows := Outcomes(g.tableSize, rungs);
    SettledAt(overflows, i);
  }

  lemma {:induction false} SettledAt(overflows: seq<bool>, i: nat)
    requires i <= |overflows| && overflows != [] && (i < |overflows| ==> overflows[i])
    requires forall k: nat :: k < i ==> !overflows[k]
    ensures Settled(overflows) == if i == 0 then 0 else i - 1
  {
    if i > 1 { SettledAt(overflows[1..], i - 1); }
  }
}
