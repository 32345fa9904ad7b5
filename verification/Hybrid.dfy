/** Stalker's hybrid coverage (`src/hybrid.c`) as a state and its transitions.

    Every input runs once in path mode. A new path is confirmed by an edge pass,
    whose map AFL++ reads; any other input is discarded and AFL++ reads a
    remembered map or an empty one. `HybridEngine` is the array code proved to
    take exactly these transitions; the `Hybrid*` modules prove what they keep
    over whole runs.

    The checksum of a raw path map is an arbitrary function `hash`. The purge
    heuristic's `double` arithmetic is exact here. */
module Hybrid {
  import opened Coverage

  type Cksum = n: nat | n < 0x1_0000_0000

  const CACHE_SLOTS := 256
  const INPUT_SLOTS := 64
  const LEVEL1 := 3000
  const LEVEL2 := 7500
  const LEVEL3 := 15000
  const LEVEL4 := 30000

  /** A slot of a direct-mapped cache. */
  datatype Slot = Vacant | Holds(key: nat, m: Map)

  datatype Verdict = Discard | Confirm

  /** The purge heuristic's clock. */
  datatype Clock = Clock(realExecs: nat, preRealExecs: nat, preVirginBits: nat,
                         interval: nat, attempts: nat, purges: nat)

  datatype Stats = Stats(pathExecs: nat, queued: nat, filtered: nat, oldPath: nat, confirmed: nat,
                         newEdges: nat, newTuples: nat, cacheHits: nat, inputHits: nat, empty: nat)

  datatype SampleStats = SampleStats(sampled: nat, overflow: nat, novel: nat,
                                     novelTuples: nat, novelFiltered: nat)

  /** The path set aside for the confirm that follows it. */
  datatype Kept = Kept(cls: Map, cksum: Cksum, overflow: bool, input: nat)

  datatype State = State(
    virginAtom: Map, virginAtomReal: Map, virginEdge: Map, virginMissed: Map,
    kept: Kept, lastFiltered: bool,
    checkUp: seq<bool>, checkDown: seq<bool>,
    cache: seq<Slot>, inputs: seq<Slot>,
    clock: Clock, stats: Stats, samples: SampleStats)

  function High(c: Cksum): (h: nat) ensures h < 0x1_0000 { c / 0x1_0000 }
  function Low(c: Cksum): (l: nat) ensures l < 0x1_0000 { c % 0x1_0000 }

  function CacheSlot(c: Cksum): (s: nat) ensures s < CACHE_SLOTS { c % CACHE_SLOTS }
  function InputSlot(k: nat): (s: nat) ensures s < INPUT_SLOTS { k % INPUT_SLOTS }

  ghost predicate SlotsSized(slots: seq<Slot>, size: nat) {
    forall i :: 0 <= i < |slots| && slots[i].Holds? ==> |slots[i].m| == size
  }

  /** All maps of one size, all tables of their fixed size. */
  ghost predicate Sized(s: State, size: nat) {
    && |s.virginAtom| == |s.virginAtomReal| == |s.virginEdge| == |s.virginMissed| == |s.kept.cls| == size
    && |s.checkUp| == |s.checkDown| == 0x1_0000
    && |s.cache| == CACHE_SLOTS && |s.inputs| == INPUT_SLOTS
    && SlotsSized(s.cache, size) && SlotsSized(s.inputs, size)
  }

  function Init(size: nat): (s: State)
    ensures Sized(s, size)
  {
    var v := Filled(size, VIRGIN);
    State(v, v, v, v, Kept(Filled(size, 0), 0, false, 0), false,
          seq(0x1_0000, i => false), seq(0x1_0000, i => false),
          seq(CACHE_SLOTS, i => Vacant), seq(INPUT_SLOTS, i => Vacant),
          Clock(0, 0, 0, LEVEL1, 0, 0), Stats(0, 0, 0, 0, 0, 0, 0, 0, 0, 0), SampleStats(0, 0, 0, 0, 0))
  }

  // ---------------------------------------------------------------- purge

  /** The interval has elapsed once this execution is counted. */
  predicate PurgeDue(c: Clock) {
    c.realExecs + 1 - c.preRealExecs >= c.interval
  }

  /** Edge coverage has stalled, or most of the paths seen led nowhere. */
  predicate PurgeWanted(s: State) {
    || 100 * Reached(s.virginEdge) <= 101 * s.clock.preVirginBits
    || Reached(s.virginAtomReal) * 2 < Reached(s.virginAtom)
  }

  /** Counting one more execution purges. */
  predicate Purges(s: State) { PurgeDue(s.clock) && PurgeWanted(s) }

  function BaseInterval(queued: nat, pathExecs: nat): nat {
    if 10 * queued < pathExecs then LEVEL1
    else if 4 * queued < pathExecs then LEVEL2
    else if 2 * queued < pathExecs then LEVEL3
    else LEVEL4
  }

  /** The interval after a purge, `purges` already counting it. */
  function NextInterval(c: Clock, st: Stats, purges: nat): nat
    requires purges > 0
  {
    if purges <= 20 then c.interval
    else
      var scaled := BaseInterval(st.queued, st.pathExecs) * c.attempts / purges;
      if scaled > LEVEL4 then LEVEL4 else scaled
  }

  /** `purge_check`'s effect on the path map: a purge forgets every path that
      led to no new edge. */
  function PurgedAtom(s: State): Map {
    if Purges(s) then s.virginAtomReal else s.virginAtom
  }

  /** `purge_check`'s effect on its clock. */
  function Ticked(c: Clock, st: Stats, wanted: bool, reached: nat): Clock {
    if !PurgeDue(c) then c.(realExecs := c.realExecs + 1)
    else Clock(c.realExecs + 1, c.realExecs + 1, reached,
               if wanted then NextInterval(c, st, c.purges + 1) else c.interval,
               c.attempts + 1, if wanted then c.purges + 1 else c.purges)
  }

  function TickedClock(s: State, st: Stats): Clock {
    Ticked(s.clock, st, PurgeWanted(s), Reached(s.virginEdge))
  }

  // ----------------------------------------------------------- transitions

  /** The slot holds a map for `key`. */
  predicate Hit(slots: seq<Slot>, slot: nat, key: nat)
    requires slot < |slots|
  {
    slots[slot].Holds? && slots[slot].key == key
  }

  predicate Filtered(up: seq<bool>, down: seq<bool>, c: Cksum)
    requires |up| == |down| == 0x1_0000
  {
    up[High(c)] && down[Low(c)]
  }

  /** Remember the map shown for an input, unless one already is. */
  function Remember(inputs: seq<Slot>, key: nat, m: Map): (r: seq<Slot>)
    requires |inputs| == INPUT_SLOTS
    ensures |r| == INPUT_SLOTS
  {
    var slot := InputSlot(key);
    if key == 0 || Hit(inputs, slot, key) then inputs else inputs[slot := Holds(key, m)]
  }

  /** What a discarded input is answered with, and from where. */
  datatype Answer = FromInput(m: Map) | FromCache(m: Map) | Nothing(m: Map)

  function AnswerFor(cache: seq<Slot>, inputs: seq<Slot>, size: nat, c: Cksum, key: nat): (a: Answer)
    requires |cache| == CACHE_SLOTS && |inputs| == INPUT_SLOTS
  {
    var slot, islot := CacheSlot(c), InputSlot(key);
    if key != 0 && Hit(inputs, islot, key) then FromInput(inputs[islot].m)
    else if Hit(cache, slot, c) then FromCache(cache[slot].m)
    else Nothing(Filled(size, 0))
  }

  /** How the path pass classes an execution. */
  datatype Route = FilteredOut | OldPath | NewPath

  function RouteOf(s: State, c: Cksum, cls: Map): Route
    requires Sized(s, |cls|)
  {
    if Filtered(s.checkUp, s.checkDown, c) then FilteredOut
    else if NewBits(PurgedAtom(s), cls) == 0 then OldPath
    else NewPath
  }

  function CountExec(st: Stats): Stats { st.(pathExecs := st.pathExecs + 1) }

  function One(b: bool): nat { if b then 1 else 0 }

  function PathStats(st: Stats, r: Route, a: Answer): Stats {
    Stats(st.pathExecs + 1, st.queued + One(r.NewPath?), st.filtered + One(r.FilteredOut?),
          st.oldPath + One(r.OldPath?), st.confirmed + One(r.NewPath?), st.newEdges, st.newTuples,
          st.cacheHits + One(!r.NewPath? && a.FromCache?),
          st.inputHits + One(!r.NewPath? && a.FromInput?),
          st.empty + One(!r.NewPath? && a.Nothing?))
  }

  datatype PathResult = PathResult(state: State, verdict: Verdict, shown: Map)

  /** `hybrid_after_path`: the verdict, and the map left for AFL++. */
  function AfterPath(s: State, hash: Map -> Cksum, m: Map, overflowed: bool, key: nat): (r: PathResult)
    requires Sized(s, |m|)
    ensures Sized(r.state, |m|) && |r.shown| == |m|
  {
    var c, cls := hash(m), Classified(m);
    var route := RouteOf(s, c, cls);
    var a := AnswerFor(s.cache, s.inputs, |m|, c, key);
    PathResult(
      State(if route.FilteredOut? then PurgedAtom(s) else Cleared(PurgedAtom(s), cls),
            s.virginAtomReal, s.virginEdge, s.virginMissed,
            if route.NewPath? then Kept(cls, c, overflowed, key) else s.kept,
            route.FilteredOut?, s.checkUp, s.checkDown, s.cache,
            if !route.NewPath? && a.FromCache? then Remember(s.inputs, key, a.m) else s.inputs,
            TickedClock(s, CountExec(s.stats)), PathStats(s.stats, route, a), s.samples),
      if route.NewPath? then Confirm else Discard,
      if route.NewPath? then m else a.m)
  }

  function ConfirmStats(st: Stats, bits: nat): Stats {
    st.(newEdges := st.newEdges + One(bits != 0), newTuples := st.newTuples + One(bits == 2))
  }

  /** `hybrid_after_confirm`: the edge pass of the kept path. */
  function AfterConfirm(s: State, m: Map, overflowed: bool): (r: State)
    requires Sized(s, |m|)
    ensures Sized(r, |m|)
  {
    var cls := Classified(m);
    var bits := NewBits(s.virginEdge, cls);
    var c := s.kept.cksum;
    var trusted := !overflowed && !s.kept.overflow;
    State(PurgedAtom(s),
          if bits != 0 then Cleared(s.virginAtomReal, s.kept.cls) else s.virginAtomReal,
          Cleared(s.virginEdge, cls), s.virginMissed, s.kept, s.lastFiltered,
          if bits == 0 then s.checkUp[High(c) := true] else s.checkUp,
          if bits == 0 then s.checkDown[Low(c) := true] else s.checkDown,
          if trusted then s.cache[CacheSlot(c) := Holds(c, m)] else s.cache,
          if trusted then Remember(s.inputs, s.kept.input, m) else s.inputs,
          TickedClock(s, s.stats), ConfirmStats(s.stats, bits), s.samples)
  }

  function SampledStats(n: SampleStats, bits: nat, filtered: bool): SampleStats {
    SampleStats(n.sampled + 1, n.overflow, n.novel + One(bits != 0), n.novelTuples + One(bits == 2),
                n.novelFiltered + One(bits != 0 && filtered))
  }

  /** `hybrid_after_sample`: measure what a discard hid. */
  function AfterSample(s: State, m: Map, overflowed: bool): (r: State)
    requires Sized(s, |m|)
    ensures Sized(r, |m|)
  {
    var cls := Classified(m);
    if overflowed then s.(samples := s.samples.(overflow := s.samples.overflow + 1))
    else s.(virginMissed := Cleared(s.virginMissed, cls),
            samples := SampledStats(s.samples, NewBits(s.virginEdge, cls), s.lastFiltered))
  }
}
