/** The hybrid engine as it runs: maps and tables updated in place. Every method
    is proved to take exactly the transition `Hybrid` gives for it. */
module HybridEngine {
  import opened Coverage
  import opened CoverageLoops
  import opened Hybrid

  /** The state in which a path pass reaches its verdict. */
  ghost function Measured(s: State): State {
    s.(virginAtom := PurgedAtom(s), lastFiltered := false,
       clock := TickedClock(s, CountExec(s.stats)), stats := CountExec(s.stats))
  }

  ghost function Rejected(s: State, a: Answer, key: nat, filtered: bool): State
    requires |s.inputs| == INPUT_SLOTS
  {
    var n := s.stats;
    s.(lastFiltered := s.lastFiltered || filtered,
       inputs := if a.FromCache? then Remember(s.inputs, key, a.m) else s.inputs,
       stats := n.(filtered := n.filtered + One(filtered), oldPath := n.oldPath + One(!filtered),
                   cacheHits := n.cacheHits + One(a.FromCache?), inputHits := n.inputHits + One(a.FromInput?),
                   empty := n.empty + One(a.Nothing?)))
  }

  ghost function KeptAside(s: State, kept: Kept): State {
    s.(kept := kept, stats := s.stats.(queued := s.stats.queued + 1, confirmed := s.stats.confirmed + 1))
  }

  /** The three ways through a path pass, in the order the code takes them. */
  lemma PathRoutes(s: State, hash: Map -> Cksum, m: Map, overflowed: bool, key: nat)
    requires Sized(s, |m|)
    ensures var r := AfterPath(s, hash, m, overflowed, key);
            var p, c, cls := Measured(s), hash(m), Classified(m);
            var a := AnswerFor(s.cache, s.inputs, |m|, c, key);
            var q := p.(virginAtom := Cleared(p.virginAtom, cls));
            if Filtered(s.checkUp, s.checkDown, c) then r == PathResult(Rejected(p, a, key, true), Discard, a.m)
            else if NewBits(p.virginAtom, cls) == 0 then r == PathResult(Rejected(q, a, key, false), Discard, a.m)
            else r == PathResult(KeptAside(q, Kept(cls, c, overflowed, key)), Confirm, m)
  {
    hide NewBits, PurgedAtom, TickedClock, Cleared, Classified, AnswerFor, Remember, Filtered;
  }

  class Engine {
    const hash: Map -> Cksum
    const virginAtom: array<bv8>
    const virginAtomReal: array<bv8>
    const virginEdge: array<bv8>
    const virginMissed: array<bv8>
    const pathCls: array<bv8>
    const pathKept: array<bv8>
    const edgeCls: array<bv8>

    var checkUp: seq<bool>
    var checkDown: seq<bool>
    var cache: seq<Slot>
    var inputs: seq<Slot>
    var keptCksum: Cksum
    var keptOverflow: bool
    var keptInput: nat
    var lastFiltered: bool
    var clock: Clock
    var stats: Stats
    var samples: SampleStats

    /** The engine's arrays never alias each other. */
    ghost predicate Separate() {
      && virginAtom != virginAtomReal && virginAtom != virginEdge && virginAtom != virginMissed
      && virginAtom != pathCls && virginAtom != pathKept && virginAtom != edgeCls
      && virginAtomReal != virginEdge && virginAtomReal != virginMissed
      && virginAtomReal != pathCls && virginAtomReal != pathKept && virginAtomReal != edgeCls
      && virginEdge != virginMissed && virginEdge != pathCls && virginEdge != pathKept && virginEdge != edgeCls
      && virginMissed != pathCls && virginMissed != pathKept && virginMissed != edgeCls
      && pathCls != pathKept && pathCls != edgeCls
      && pathKept != edgeCls
    }

    /** `m` is none of the engine's maps. */
    ghost predicate Foreign(m: array<bv8>) {
      m !in {virginAtom, virginAtomReal, virginEdge, virginMissed, pathCls, pathKept, edgeCls}
    }

    ghost const Repr: set<object> :=
      {this, virginAtom, virginAtomReal, virginEdge, virginMissed, pathCls, pathKept, edgeCls}

    ghost predicate Valid(size: nat)
      reads this
    {
      && Separate()
      && virginAtom.Length == virginAtomReal.Length == virginEdge.Length == virginMissed.Length == size
      && pathCls.Length == pathKept.Length == edgeCls.Length == size
      && |checkUp| == |checkDown| == 0x1_0000
      && |cache| == CACHE_SLOTS && |inputs| == INPUT_SLOTS
      && SlotsSized(cache, size) && SlotsSized(inputs, size)
    }

    ghost function Abs(): State
      reads Repr
    {
      State(virginAtom[..], virginAtomReal[..], virginEdge[..], virginMissed[..],
            Kept(pathKept[..], keptCksum, keptOverflow, keptInput), lastFiltered,
            checkUp, checkDown, cache, inputs, clock, stats, samples)
    }

    constructor (size: nat, hash: Map -> Cksum)
      ensures Valid(size) && fresh(Repr) && this.hash == hash
      ensures Abs() == Init(size)
    {
      this.hash := hash;
      virginAtom := new bv8[size](i => VIRGIN);
      virginAtomReal := new bv8[size](i => VIRGIN);
      virginEdge := new bv8[size](i => VIRGIN);
      virginMissed := new bv8[size](i => VIRGIN);
      pathCls := new bv8[size](i => 0);
      pathKept := new bv8[size](i => 0);
      edgeCls := new bv8[size](i => 0);
      checkUp, checkDown := seq(0x1_0000, i => false), seq(0x1_0000, i => false);
      cache, inputs := seq(CACHE_SLOTS, i => Vacant), seq(INPUT_SLOTS, i => Vacant);
      keptCksum, keptOverflow, keptInput := 0, false, 0;
      lastFiltered := false;
      clock := Clock(0, 0, 0, LEVEL1, 0, 0);
      stats := Stats(0, 0, 0, 0, 0, 0, 0, 0, 0, 0);
      samples := SampleStats(0, 0, 0, 0, 0);
      new;
      hide Filled;
      assert virginAtom[..] == virginAtomReal[..] == virginEdge[..] == virginMissed[..] == Filled(size, VIRGIN);
      assert pathKept[..] == Filled(size, 0);
    }

    method PurgeCheck(ghost size: nat)
      requires Valid(size)
      modifies this`clock, virginAtom
      ensures virginAtom[..] == old(PurgedAtom(Abs()))
      ensures clock == old(TickedClock(Abs(), stats))
    {
      hide Reached;
      clock := clock.(realExecs := clock.realExecs + 1);
      if clock.realExecs - clock.preRealExecs < clock.interval { return; }

      var edge := CountReached(virginEdge);
      var kept := CountReached(virginAtomReal);
      var atom := CountReached(virginAtom);
      if 100 * edge <= 101 * clock.preVirginBits || kept * 2 < atom {
        CopyMap(virginAtom, virginAtomReal);
        var purges := clock.purges + 1;
        var interval := clock.interval;
        if purges > 20 {
          interval := BaseInterval(stats.queued, stats.pathExecs);
          interval := interval * clock.attempts / purges;
          if interval > LEVEL4 { interval := LEVEL4; }
        }
        clock := clock.(purges := purges, interval := interval);
      }
      clock := clock.(preVirginBits := edge, preRealExecs := clock.realExecs, attempts := clock.attempts + 1);
    }

    method RememberInput(key: nat, m: array<bv8>, ghost size: nat)
      requires Valid(size) && m.Length == size
      modifies this`inputs
      ensures Valid(size)
      ensures inputs == Remember(old(inputs), key, m[..])
    {
      var slot := InputSlot(key);
      if key == 0 || (inputs[slot].Holds? && inputs[slot].key == key) { return; }
      inputs := inputs[slot := Holds(key, m[..])];
    }

    /** Answer a discarded input in place of its path map. */
    method AnswerDiscard(m: array<bv8>, cksum: Cksum, key: nat, ghost size: nat)
      requires Valid(size) && m.Length == size && Foreign(m)
      modifies m, this`inputs, this`stats
      ensures Valid(size)
      ensures var a := AnswerFor(old(cache), old(inputs), size, cksum, key);
              && m[..] == a.m
              && Abs() == old(Abs()).(
                   inputs := if a.FromCache? then Remember(old(inputs), key, a.m) else old(inputs),
                   stats := old(stats).(cacheHits := old(stats.cacheHits) + One(a.FromCache?),
                                        inputHits := old(stats.inputHits) + One(a.FromInput?),
                                        empty := old(stats.empty) + One(a.Nothing?)))
    {
      hide CacheSlot, InputSlot, Remember;
      var slot, islot := CacheSlot(cksum), InputSlot(key);
      if key != 0 && inputs[islot].Holds? && inputs[islot].key == key {
        Restore(m, inputs[islot].m);
        stats := stats.(inputHits := stats.inputHits + 1);
      } else if cache[slot].Holds? && cache[slot].key == cksum {
        Restore(m, cache[slot].m);
        RememberInput(key, m, size);
        stats := stats.(cacheHits := stats.cacheHits + 1);
      } else {
        forall i | 0 <= i < m.Length { m[i] := 0; }
        assert m[..] == Filled(size, 0);
        stats := stats.(empty := stats.empty + 1);
      }
    }

    /** `memcpy` of a cached map. */
    static method Restore(m: array<bv8>, from: Map)
      requires m.Length == |from|
      modifies m
      ensures m[..] == from
    {
      forall i | 0 <= i < m.Length { m[i] := from[i]; }
      assert m[..] == from;
    }

    /** Count the execution and classify its path map. */
    method Measure(m: array<bv8>, ghost size: nat) returns (cksum: Cksum)
      requires Valid(size) && m.Length == size && Foreign(m)
      modifies this`clock, this`stats, this`lastFiltered, virginAtom, pathCls
      ensures Valid(size)
      ensures cksum == hash(m[..]) && pathCls[..] == Classified(m[..])
      ensures Abs() == Measured(old(Abs()))
    {
      hide Classified, Reached, NextInterval;
      stats := stats.(pathExecs := stats.pathExecs + 1);
      PurgeCheck(size);
      cksum := hash(m[..]);
      Classify(pathCls, m);
      lastFiltered := false;
    }

    /** Discard an execution, for its checksum or for its old path. */
    method Reject(m: array<bv8>, cksum: Cksum, key: nat, filtered: bool, ghost size: nat)
      requires Valid(size) && m.Length == size && Foreign(m)
      modifies m, this`inputs, this`stats, this`lastFiltered
      ensures Valid(size)
      ensures var a := AnswerFor(old(cache), old(inputs), size, cksum, key);
              m[..] == a.m && Abs() == Rejected(old(Abs()), a, key, filtered)
    {
      hide AnswerFor, Remember;
      if filtered {
        stats := stats.(filtered := stats.filtered + 1);
        lastFiltered := true;
      } else {
        stats := stats.(oldPath := stats.oldPath + 1);
      }
      AnswerDiscard(m, cksum, key, size);
    }

    /** Set a new path aside for its confirm. */
    method KeepPath(cksum: Cksum, overflowed: bool, key: nat, ghost size: nat)
      requires Valid(size)
      modifies this`stats, this`keptCksum, this`keptOverflow, this`keptInput, pathKept
      ensures Valid(size)
      ensures Abs() == KeptAside(old(Abs()), Kept(old(pathCls[..]), cksum, overflowed, key))
    {
      stats := stats.(queued := stats.queued + 1, confirmed := stats.confirmed + 1);
      CopyMap(pathKept, pathCls);
      keptCksum, keptOverflow, keptInput := cksum, overflowed, key;
    }

    /** Whether the path holds bits no path has held before. */
    method PathIsNew(ghost size: nat) returns (isNew: bool)
      requires Valid(size)
      modifies virginAtom
      ensures Valid(size)
      ensures isNew == (NewBits(old(virginAtom[..]), pathCls[..]) != 0)
      ensures Abs() == old(Abs()).(virginAtom := Cleared(old(virginAtom[..]), pathCls[..]))
    {
      hide NewBits, Cleared;
      var bits := HasNewBits(virginAtom, pathCls);
      isNew := bits != 0;
    }

    method AfterPath(m: array<bv8>, overflowed: bool, key: nat, ghost size: nat) returns (verdict: Verdict)
      requires Valid(size) && m.Length == size && Foreign(m)
      modifies Repr, m
      ensures Valid(size)
      ensures var r := Hybrid.AfterPath(old(Abs()), hash, old(m[..]), overflowed, key);
              Abs() == r.state && verdict == r.verdict && m[..] == r.shown
    {
      hide Hybrid.AfterPath, NewBits, Cleared, Classified, AnswerFor, High, Low, Measured, Rejected, KeptAside;
      PathRoutes(Abs(), hash, m[..], overflowed, key);
      var cksum := Measure(m, size);
      if checkUp[High(cksum)] && checkDown[Low(cksum)] {
        Reject(m, cksum, key, true, size);
        return Discard;
      }
      var isNew := PathIsNew(size);
      if !isNew {
        Reject(m, cksum, key, false, size);
        return Discard;
      }
      KeepPath(cksum, overflowed, key, size);
      return Confirm;
    }

    /** Fold the edge pass into the virgin maps and the filter. */
    method JudgeEdges(m: array<bv8>, ghost size: nat)
      requires Valid(size) && m.Length == size && Foreign(m)
      modifies this`stats, this`checkUp, this`checkDown, edgeCls, virginEdge, virginAtomReal
      ensures Valid(size)
      ensures var cls := Classified(m[..]);
              var bits := NewBits(old(virginEdge[..]), cls);
              Abs() == old(Abs()).(
                virginEdge := Cleared(old(virginEdge[..]), cls),
                virginAtomReal := if bits != 0 then Cleared(old(virginAtomReal[..]), pathKept[..])
                                  else old(virginAtomReal[..]),
                checkUp := if bits == 0 then old(checkUp)[High(keptCksum) := true] else old(checkUp),
                checkDown := if bits == 0 then old(checkDown)[Low(keptCksum) := true] else old(checkDown),
                stats := ConfirmStats(old(stats), bits))
    {
      hide NewBits, Cleared, Classified, High, Low;
      Classify(edgeCls, m);
      var bits := HasNewBits(virginEdge, edgeCls);
      if bits != 0 {
        var _ := HasNewBits(virginAtomReal, pathKept);
        stats := stats.(newEdges := stats.newEdges + 1);
        if bits == 2 { stats := stats.(newTuples := stats.newTuples + 1); }
      } else {
        checkUp := checkUp[High(keptCksum) := true];
        checkDown := checkDown[Low(keptCksum) := true];
      }
    }

    method AfterConfirm(m: array<bv8>, overflowed: bool, ghost size: nat)
      requires Valid(size) && m.Length == size && Foreign(m)
      modifies Repr
      ensures Valid(size)
      ensures Abs() == Hybrid.AfterConfirm(old(Abs()), m[..], overflowed)
    {
      hide NewBits, PurgedAtom, TickedClock, Cleared, Classified, Remember, High, Low, CacheSlot, Reached;
      PurgeCheck(size);
      JudgeEdges(m, size);
      if !overflowed && !keptOverflow {
        cache := cache[CacheSlot(keptCksum) := Holds(keptCksum, m[..])];
        RememberInput(keptInput, m, size);
      }
    }

    method AfterSample(m: array<bv8>, overflowed: bool, ghost size: nat)
      requires Valid(size) && m.Length == size && Foreign(m)
      modifies this`samples, edgeCls, virginMissed
      ensures Valid(size)
      ensures Abs() == Hybrid.AfterSample(old(Abs()), m[..], overflowed)
    {
      hide NewBits, Cleared, Classified;
      if overflowed {
        samples := samples.(overflow := samples.overflow + 1);
        return;
      }
      samples := samples.(sampled := samples.sampled + 1);
      Classify(edgeCls, m);
      var bits := PeekNewBits(virginEdge, edgeCls);
      if bits != 0 {
        samples := samples.(novel := samples.novel + 1);
        if bits == 2 { samples := samples.(novelTuples := samples.novelTuples + 1); }
        if lastFiltered { samples := samples.(novelFiltered := samples.novelFiltered + 1); }
      }
      var _ := HasNewBits(virginMissed, edgeCls);
    }
  }
}
