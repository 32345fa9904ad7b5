/** `virginEdge` is AFL++'s own virgin map, whatever is cached, evicted or
    purged, so a discarded input can never show AFL++ a new bit. */
module HybridShadow {
  import opened Coverage
  import opened Hybrid
  import opened HybridRuns

  /** Every map a slot can answer with adds nothing to `v`. */
  ghost predicate SlotsCovered(v: Map, slots: seq<Slot>) {
    forall i :: 0 <= i < |slots| && slots[i].Holds? ==> Covers(v, Classified(slots[i].m))
  }

  ghost predicate AllCovered(s: State) {
    SlotsCovered(s.virginEdge, s.cache) && SlotsCovered(s.virginEdge, s.inputs)
  }

  lemma SlotsStayCovered(v: Map, c: Map, slots: seq<Slot>)
    requires |v| == |c| && SlotsCovered(v, slots)
    ensures SlotsCovered(Cleared(v, c), slots)
  {
    forall i | 0 <= i < |slots| && slots[i].Holds?
      ensures Covers(Cleared(v, c), Classified(slots[i].m))
    {
      CoverageStays(v, c, Classified(slots[i].m));
    }
  }

  lemma AnswerCovered(v: Map, cache: seq<Slot>, inputs: seq<Slot>, c: Cksum, key: nat)
    requires |cache| == CACHE_SLOTS && |inputs| == INPUT_SLOTS
    requires SlotsCovered(v, cache) && SlotsCovered(v, inputs)
    ensures Covers(v, Classified(AnswerFor(cache, inputs, |v|, c, key).m))
  {
    NothingSeenIsCovered(v, Filled(|v|, 0));
  }

  lemma RememberKeepsCoverage(v: Map, inputs: seq<Slot>, key: nat, m: Map)
    requires |inputs| == INPUT_SLOTS && SlotsCovered(v, inputs) && Covers(v, Classified(m))
    ensures SlotsCovered(v, Remember(inputs, key, m))
  {
  }

  lemma PathKeepsCoverage(s: State, hash: Map -> Cksum, m: Map, overflowed: bool, key: nat)
    requires Sized(s, |m|) && AllCovered(s)
    ensures var r := AfterPath(s, hash, m, overflowed, key);
            && r.state.virginEdge == s.virginEdge && AllCovered(r.state)
            && (r.verdict == Discard ==> Covers(s.virginEdge, Classified(r.shown)))
  {
    var a := AnswerFor(s.cache, s.inputs, |m|, hash(m), key);
    AnswerCovered(s.virginEdge, s.cache, s.inputs, hash(m), key);
    RememberKeepsCoverage(s.virginEdge, s.inputs, key, a.m);
  }

  lemma ConfirmKeepsCoverage(s: State, m: Map, overflowed: bool)
    requires Sized(s, |m|) && AllCovered(s)
    ensures var r := AfterConfirm(s, m, overflowed);
            r.virginEdge == Cleared(s.virginEdge, Classified(m)) && AllCovered(r)
  {
    var cls := Classified(m);
    var v := Cleared(s.virginEdge, cls);
    ClearingCovers(s.virginEdge, cls);
    SlotsStayCovered(s.virginEdge, cls, s.cache);
    SlotsStayCovered(s.virginEdge, cls, s.inputs);
    RememberKeepsCoverage(v, s.inputs, s.kept.input, m);
  }

  lemma PlayKeepsCoverage(s: State, hash: Map -> Cksum, t: TestCase)
    requires Sized(s, |t.path|) && Fits(t, |t.path|) && AllCovered(s)
    ensures var o := Play(s, hash, t);
            && o.state.virginEdge == Cleared(s.virginEdge, Classified(o.shown)) && AllCovered(o.state)
            && (o.verdict == Discard ==> NewBits(s.virginEdge, Classified(o.shown)) == 0)
  {
    hide AfterPath, AfterConfirm;
    PathKeepsCoverage(s, hash, t.path, t.pathOverflow, t.key);
    var p := AfterPath(s, hash, t.path, t.pathOverflow, t.key);
    match p.verdict
    case Confirm => ConfirmKeepsCoverage(p.state, t.edge, t.edgeOverflow);
    case Discard => NoNewBits(s.virginEdge, Classified(p.shown));
  }

  lemma PlayCountsNewEdges(s: State, hash: Map -> Cksum, t: TestCase)
    requires Sized(s, |t.path|) && Fits(t, |t.path|)
    ensures var o := Play(s, hash, t);
            var bits := NewBits(s.virginEdge, Classified(o.shown));
            && (o.verdict == Confirm ==> o.state.stats.newEdges == s.stats.newEdges + One(bits != 0))
            && (o.verdict == Confirm ==> o.state.stats.newTuples == s.stats.newTuples + One(bits == 2))
            && (o.verdict == Discard ==> o.state.stats.newEdges == s.stats.newEdges)
            && (o.verdict == Discard ==> o.state.stats.newTuples == s.stats.newTuples)
  {
  }

  /** The shadow is exact after every run. */
  lemma {:induction false} Shadow(size: nat, hash: Map -> Cksum, run: seq<TestCase>)
    requires ValidRun(run, size)
    ensures Exec(size, hash, run).virginEdge == AflVirgin(size, hash, run)
    ensures AllCovered(Exec(size, hash, run))
    decreases |run|
  {
    if run != [] {
      hide Play;
      var before, t := run[..|run| - 1], run[|run| - 1];
      Shadow(size, hash, before);
      PlayKeepsCoverage(Exec(size, hash, before), hash, t);
    }
  }

  /** What each verdict means to AFL++, after every run: a discard shows it
      nothing new, and a confirm is counted as new edges exactly when AFL++ sees
      new bits, as a new tuple exactly when AFL++ sees one. */
  lemma VerdictsAgreeWithAfl(size: nat, hash: Map -> Cksum, run: seq<TestCase>)
    requires ValidRun(run, size) && run != []
    ensures var afl := AflVerdict(size, hash, run);
            var before, now := Exec(size, hash, run[..|run| - 1]).stats, Exec(size, hash, run).stats;
            && (Last(size, hash, run).verdict == Discard ==> afl == 0)
            && now.newEdges == before.newEdges + One(afl != 0)
            && now.newTuples == before.newTuples + One(afl == 2)
  {
    hide Play, NewBits;
    var before, t := run[..|run| - 1], run[|run| - 1];
    Shadow(size, hash, before);
    PlayKeepsCoverage(Exec(size, hash, before), hash, t);
    PlayCountsNewEdges(Exec(size, hash, before), hash, t);
  }
}
