/** The overflow-aware frequency governor's search (`src/freq_gov.c`): one
    position per mode in the frequency table, stepped down on an overflow and up
    after a clean window, the window shared by both modes and adapted from the
    path mode's overflow rate. */
module Governor {

  const MIN_INTERVAL := 100
  const MAX_INTERVAL := 1000
  const MAX_REPETITIONS := 3

  datatype Mode = Atom | Addr

  /** Evidence about one mode's position in the table. */
  datatype Search = Search(idx: nat, idxSum: nat, stable: nat, clean: nat, total: nat, overflowed: nat)

  datatype Gov = Gov(tableSize: nat, atom: Search, addr: Search, interval: nat,
                     addrOnly: bool, enabled: bool, forceMin: bool)
  {
    function At(mode: Mode): Search { if mode.Atom? then atom else addr }
    function With(mode: Mode, s: Search): Gov { if mode.Atom? then this.(atom := s) else this.(addr := s) }
  }

  function Init(tableSize: nat, addrOnly: bool): Gov
    requires tableSize > 0
  {
    var s := Search(tableSize - 1, 0, 0, 0, 0, 0);
    Gov(tableSize, s, s, if addrOnly then MIN_INTERVAL else MAX_INTERVAL, addrOnly, true, false)
  }

  /** `AFLCS_FREQ_GOV=0`: initialization leaves before anything is set up. */
  function Disabled(addrOnly: bool): Gov {
    var s := Search(0, 0, 0, 0, 0, 0);
    Gov(0, s, s, MIN_INTERVAL, addrOnly, false, false)
  }

  /** The window for an execution and overflow count. */
  function Window(total: nat, overflowed: nat): (w: nat)
    requires overflowed > 0
    ensures MIN_INTERVAL <= w <= MAX_INTERVAL
  {
    var fi := (total / overflowed) / 5;
    if fi < MIN_INTERVAL then MIN_INTERVAL else if fi > MAX_INTERVAL then MAX_INTERVAL else fi
  }

  function Stepped(s: Search, overflow: bool, interval: nat, tableSize: nat): Search {
    if overflow then
      Search(if s.idx > 0 then s.idx - 1 else s.idx, s.idxSum, s.stable, 0, s.total + 1, s.overflowed + 1)
    else if s.clean + 1 >= interval then
      Search(if s.idx < tableSize - 1 then s.idx + 1 else s.idx, s.idxSum + s.idx, s.stable + 1, 0,
             s.total + 1, s.overflowed)
    else s.(clean := s.clean + 1, total := s.total + 1)
  }

  /** `freq_gov_on_result`. */
  function OnResult(g: Gov, mode: Mode, overflow: bool): Gov {
    if !g.enabled then g
    else
      var g' := g.With(mode, Stepped(g.At(mode), overflow, g.interval, g.tableSize));
      if !g'.addrOnly && g'.atom.overflowed > 0
      then g'.(interval := Window(g'.atom.total, g'.atom.overflowed)) else g'
  }

  /** Where a calibration ramp settles, given which rungs overflow: the last
      clean rung below the first overflow. */
  function Settled(overflows: seq<bool>): (r: nat) {
    if overflows == [] || overflows[0] then 0
    else if |overflows| == 1 || overflows[1] then 0
    else 1 + Settled(overflows[1..])
  }

  /** `freq_gov_calibrate`, one outcome per rung it may reach. */
  function Calibrated(g: Gov, mode: Mode, overflows: seq<bool>): Gov
    requires |overflows| == g.tableSize
  {
    if !g.enabled then g else g.With(mode, g.At(mode).(idx := Settled(overflows)))
  }

  function CopyStart(g: Gov, dst: Mode, src: Mode): Gov {
    g.With(dst, g.At(dst).(idx := g.At(src).idx))
  }

  /** `freq_gov_apply`: the table index pinned, and the governor after it. */
  function Apply(g: Gov, mode: Mode): (nat, Gov) {
    if !g.enabled then (g.At(mode).idx, g)
    else if g.forceMin then (0, g.(forceMin := false))
    else (g.At(mode).idx, g)
  }

  function ForceMin(g: Gov): Gov { g.(forceMin := true) }

  predicate ShouldRetry(g: Gov, mode: Mode, overflow: bool, repetitions: nat) {
    g.enabled && overflow && mode.Addr? && g.addr.idx > 0 && repetitions < MAX_REPETITIONS
  }

  predicate AtFloor(g: Gov, mode: Mode) { !g.enabled || g.At(mode).idx == 0 }

  /** `opt_freq`'s index before its clamp: the mean stable index, rounded. */
  function OptIndex(s: Search): nat
    requires s.stable > 0
  {
    (s.idxSum + s.stable / 2) / s.stable
  }

  // ----------------------------------------------------------- invariants

  datatype Event =
    | Result(mode: Mode, overflow: bool)
    | Calibrate(mode: Mode, overflows: seq<bool>)
    | Copy(dst: Mode, src: Mode)

  predicate Fits(e: Event, g: Gov) { e.Calibrate? ==> |e.overflows| == g.tableSize }

  function Step(g: Gov, e: Event): (r: Gov)
    requires Fits(e, g)
    ensures r.tableSize == g.tableSize
  {
    match e
    case Result(mode, overflow) => OnResult(g, mode, overflow)
    case Calibrate(mode, overflows) => Calibrated(g, mode, overflows)
    case Copy(dst, src) => CopyStart(g, dst, src)
  }

  ghost predicate FitsAll(run: seq<Event>, tableSize: nat) {
    forall i :: 0 <= i < |run| && run[i].Calibrate? ==> |run[i].overflows| == tableSize
  }

  function Run(g: Gov, run: seq<Event>): (r: Gov)
    requires FitsAll(run, g.tableSize)
    ensures r.tableSize == g.tableSize
  {
    if run == [] then g else Step(Run(g, run[..|run| - 1]), run[|run| - 1])
  }

  /** One mode's evidence is consistent: every stable window took at least a
      hundred clean executions, and every index summed is in the table. */
  ghost predicate Sound(s: Search, tableSize: nat) {
    && s.idx < tableSize
    && s.overflowed <= s.total
    && MIN_INTERVAL * s.stable + s.clean <= s.total - s.overflowed
    && s.idxSum <= s.stable * (tableSize - 1)
  }

  ghost predicate WindowLaw(g: Gov) {
    g.interval == if g.addrOnly then MIN_INTERVAL
                  else if g.atom.overflowed == 0 then MAX_INTERVAL
                  else Window(g.atom.total, g.atom.overflowed)
  }

  ghost predicate Consistent(g: Gov) {
    && g.enabled && g.tableSize > 0
    && Sound(g.atom, g.tableSize) && Sound(g.addr, g.tableSize)
    && WindowLaw(g)
    && g.atom.clean < g.interval && g.addr.clean < MAX_INTERVAL
  }

  lemma QuotientGrows(a: nat, d: nat)
    requires d > 0
    ensures a / d <= (a + 1) / d
  {
    var q, r := a / d, a % d;
    assert a == d * q + r;
    if (a + 1) / d < q {
      var q' := (a + 1) / d;
      assert a + 1 == d * q' + (a + 1) % d;
      TimesGrows(d, q' + 1, q);
      assert false;
    }
  }

  lemma TimesGrows(d: nat, x: nat, y: nat)
    requires x <= y
    ensures d * x <= d * y
  {
  }

  lemma WindowGrows(total: nat, overflowed: nat)
    requires overflowed > 0
    ensures Window(total, overflowed) <= Window(total + 1, overflowed)
  {
    QuotientGrows(total, overflowed);
  }

  lemma StepStaysSound(s: Search, overflow: bool, interval: nat, tableSize: nat)
    requires Sound(s, tableSize) && interval >= MIN_INTERVAL
    ensures Sound(Stepped(s, overflow, interval, tableSize), tableSize)
  {
    var n := tableSize - 1;
    assert (s.stable + 1) * n == s.stable * n + n;
  }

  lemma ResultKeepsConsistent(g: Gov, mode: Mode, overflow: bool)
    requires Consistent(g)
    ensures Consistent(OnResult(g, mode, overflow))
  {
    hide Window;
    StepStaysSound(g.At(mode), overflow, g.interval, g.tableSize);
    if g.atom.overflowed > 0 {
      WindowGrows(g.atom.total, g.atom.overflowed);
    }
    assert g.interval <= MAX_INTERVAL;
  }

  lemma PositionsInTable(g: Gov)
    requires Consistent(g)
    ensures g.atom.idx < g.tableSize && g.addr.idx < g.tableSize
  {
  }

  lemma MoveKeepsConsistent(g: Gov, mode: Mode, idx: nat)
    requires Consistent(g) && idx < g.tableSize
    ensures Consistent(g.With(mode, g.At(mode).(idx := idx)))
  {
  }

  /** Every interleaving of results of both modes, ramps and copies keeps the
      governor consistent. */
  lemma {:induction false} AlwaysConsistent(g: Gov, run: seq<Event>)
    requires Consistent(g) && FitsAll(run, g.tableSize)
    ensures Consistent(Run(g, run))
    decreases |run|
  {
    hide OnResult, Settled, Sound, Window, WindowLaw;
    if run != [] {
      var before := run[..|run| - 1];
      AlwaysConsistent(g, before);
      var h := Run(g, before);
      match run[|run| - 1]
      case Result(mode, overflow) => ResultKeepsConsistent(h, mode, overflow);
      case Calibrate(mode, overflows) =>
        SettledIsLastClean(overflows);
        MoveKeepsConsistent(h, mode, Settled(overflows));
      case Copy(dst, src) =>
        assert h.At(src).idx < h.tableSize by { PositionsInTable(h); }
        MoveKeepsConsistent(h, dst, h.At(src).idx);
    }
  }

  lemma InitIsConsistent(tableSize: nat, addrOnly: bool)
    requires tableSize > 0
    ensures Consistent(Init(tableSize, addrOnly))
  {
  }

  /** What a run from start-up guarantees, spelled out. */
  lemma WindowInvariants(tableSize: nat, addrOnly: bool, run: seq<Event>)
    requires tableSize > 0 && FitsAll(run, tableSize)
    ensures var g := Run(Init(tableSize, addrOnly), run);
            && g.atom.idx < tableSize && g.addr.idx < tableSize
            && MIN_INTERVAL <= g.interval <= MAX_INTERVAL
            && g.atom.clean < g.interval && g.addr.clean < MAX_INTERVAL
            && MIN_INTERVAL * g.atom.stable + g.atom.clean <= g.atom.total - g.atom.overflowed
            && MIN_INTERVAL * g.addr.stable + g.addr.clean <= g.addr.total - g.addr.overflowed
  {
    hide Run;
    InitIsConsistent(tableSize, addrOnly);
    AlwaysConsistent(Init(tableSize, addrOnly), run);
  }

  /** `opt_freq` rounds to the nearest index, and its clamp never acts. */
  lemma OptIndexIsRoundedMean(s: Search, tableSize: nat)
    requires Sound(s, tableSize) && s.stable > 0
    ensures OptIndex(s) < tableSize
    ensures 2 * (s.stable * OptIndex(s)) <= 2 * s.idxSum + s.stable
    ensures 2 * s.idxSum <= 2 * (s.stable * OptIndex(s)) + s.stable
  {
    var i, half := OptIndex(s), s.stable / 2;
    var r := (s.idxSum + half) % s.stable;
    assert s.idxSum + half == s.stable * i + r;
    assert s.stable * tableSize == s.stable * (tableSize - 1) + s.stable;
    if i >= tableSize {
      TimesGrows(s.stable, tableSize, i);
      assert false;
    }
  }

  /** A ramp settles on the last rung of its clean prefix. */
  lemma {:induction false} SettledIsLastClean(overflows: seq<bool>)
    requires overflows != []
    ensures Settled(overflows) < |overflows|
    ensures forall i :: 0 <= i < Settled(overflows) ==> !overflows[i]
    ensures overflows[0] ==> Settled(overflows) == 0
    ensures !overflows[0] ==> !overflows[Settled(overflows)]
    ensures !overflows[0] && Settled(overflows) + 1 < |overflows| ==> overflows[Settled(overflows) + 1]
  {
    if |overflows| > 1 && !overflows[0] && !overflows[1] {
      SettledIsLastClean(overflows[1..]);
      var k := Settled(overflows[1..]);
      forall i | 0 <= i < k + 1 ensures !overflows[i] {
        if i > 0 { assert overflows[i] == overflows[1..][i - 1]; }
      }
    }
  }
}
