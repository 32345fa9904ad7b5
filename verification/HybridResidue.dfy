/** How far a purge can leave the path map ahead of the paths that led to new
    edges. `purge_check` runs inside a confirm after the path's bits left
    `virginAtom` and before they leave `virginAtomReal`, so containment of one
    map in the other is not an invariant; the residue of one path is. */
module HybridResidue {
  import opened Common
  import opened Coverage
  import opened Hybrid
  import opened HybridRuns

  predicate StraysInByte(a: bv8, k: bv8, b: bv8) { (a & !k) & !b == 0 }

  /** The bits virgin in `atom` but not in `kept` all belong to `bound`. */
  ghost predicate StraysWithin(atom: Map, kept: Map, bound: Map) {
    && |atom| == |kept| == |bound|
    && forall i: nat :: i < |atom| ==> StraysInByte(atom[i], kept[i], bound[i])
  }

  /** The bound on the strays after a test case, given the bound before it. */
  function ResidueAfter(s: State, hash: Map -> Cksum, t: TestCase, bound: Map): (r: Map)
    requires Sized(s, |t.path|) && Fits(t, |t.path|) && |bound| == |t.path|
    ensures |r| == |t.path|
  {
    var p := AfterPath(s, hash, t.path, t.pathOverflow, t.key);
    if p.verdict == Confirm && Purges(p.state) then
      if NewBits(s.virginEdge, Classified(t.edge)) != 0 then Classified(t.path) else Filled(|t.path|, 0)
    else if Purges(s) then Filled(|t.path|, 0)
    else bound
  }

  /** The classified path of the confirm in which the most recent purge fired,
      if that confirm found new edges; empty if the last purge fired elsewhere
      or none ever did. */
  function Residue(size: nat, hash: Map -> Cksum, run: seq<TestCase>): (r: Map)
    requires ValidRun(run, size)
    ensures |r| == size
  {
    if run == [] then Filled(size, 0)
    else
      var before := run[..|run| - 1];
      ResidueAfter(Exec(size, hash, before), hash, run[|run| - 1], Residue(size, hash, before))
  }

  lemma NoStraysInSelf(v: Map, bound: Map)
    requires |v| == |bound|
    ensures StraysWithin(v, v, bound)
  {
    forall i: nat | i < |v| ensures StraysInByte(v[i], v[i], bound[i]) {
      var b := v[i];
      assert b & !b == 0;
    }
  }

  lemma ClearingKeepsStrays(atom: Map, kept: Map, bound: Map, c: Map)
    requires StraysWithin(atom, kept, bound) && |c| == |atom|
    ensures StraysWithin(Cleared(atom, c), kept, bound)
  {
    forall i: nat | i < |atom| ensures StraysInByte(Cleared(atom, c)[i], kept[i], bound[i]) {
      StrayByte(atom[i], kept[i], bound[i], c[i]);
    }
  }

  lemma StrayByte(a: bv8, k: bv8, b: bv8, c: bv8)
    requires StraysInByte(a, k, b)
    ensures StraysInByte(Without(a, c), k, b)
    ensures !Meets(c, a) ==> StraysInByte(a, Without(k, c), b)
  {
  }

  /** Clearing bits from the lower map adds no stray when the upper map has
      already lost them. */
  lemma ClearingBelowKeepsStrays(atom: Map, kept: Map, bound: Map, c: Map)
    requires StraysWithin(atom, kept, bound) && Covers(atom, c)
    ensures StraysWithin(atom, Cleared(kept, c), bound)
  {
    forall i: nat | i < |atom| ensures StraysInByte(atom[i], Cleared(kept, c)[i], bound[i]) {
      assert !Meets(c[i], atom[i]);
      StrayByte(atom[i], kept[i], bound[i], c[i]);
    }
  }

  lemma OwnResidueByte(k: bv8, c: bv8)
    ensures StraysInByte(k, Without(k, c), c)
    ensures Without(k, Without(k, c)) == 0 <==> !Meets(c, k)
  {
  }

  /** A purge between the two clearings leaves exactly the path's own bits. */
  lemma OwnResidue(kept: Map, c: Map)
    requires |kept| == |c|
    ensures StraysWithin(kept, Cleared(kept, c), c)
    ensures Within(kept, Cleared(kept, c)) <==> Covers(kept, c)
  {
    var r := Cleared(kept, c);
    forall i: nat | i < |kept|
      ensures StraysInByte(kept[i], r[i], c[i])
      ensures Without(kept[i], r[i]) == 0 <==> !Meets(c[i], kept[i])
    {
      OwnResidueByte(kept[i], c[i]);
    }
  }

  lemma PathKeepsResidue(s: State, hash: Map -> Cksum, m: Map, overflowed: bool, key: nat, bound: Map)
    requires Sized(s, |m|) && StraysWithin(s.virginAtom, s.virginAtomReal, bound)
    ensures var r := AfterPath(s, hash, m, overflowed, key);
            && StraysWithin(r.state.virginAtom, r.state.virginAtomReal,
                            if Purges(s) then Filled(|m|, 0) else bound)
            && r.state.virginEdge == s.virginEdge
            && (r.verdict == Confirm ==> r.state.kept.cls == Classified(m) && Covers(r.state.virginAtom, Classified(m)))
  {
    var b := if Purges(s) then Filled(|m|, 0) else bound;
    NoStraysInSelf(s.virginAtomReal, b);
    ClearingKeepsStrays(PurgedAtom(s), s.virginAtomReal, b, Classified(m));
    ClearingCovers(PurgedAtom(s), Classified(m));
  }

  lemma ConfirmKeepsResidue(s: State, m: Map, overflowed: bool, bound: Map)
    requires Sized(s, |m|) && StraysWithin(s.virginAtom, s.virginAtomReal, bound)
    requires Covers(s.virginAtom, s.kept.cls)
    ensures var r := AfterConfirm(s, m, overflowed);
            var bits := NewBits(s.virginEdge, Classified(m));
            StraysWithin(r.virginAtom, r.virginAtomReal,
                         if !Purges(s) then bound else if bits != 0 then s.kept.cls else Filled(|m|, 0))
  {
    NoStraysInSelf(s.virginAtomReal, Filled(|m|, 0));
    OwnResidue(s.virginAtomReal, s.kept.cls);
    ClearingBelowKeepsStrays(s.virginAtom, s.virginAtomReal, bound, s.kept.cls);
  }

  /** Between test cases the strays lie inside one path's residue. */
  lemma {:induction false} StraysAreOnePath(size: nat, hash: Map -> Cksum, run: seq<TestCase>)
    requires ValidRun(run, size)
    ensures var s := Exec(size, hash, run);
            StraysWithin(s.virginAtom, s.virginAtomReal, Residue(size, hash, run))
    decreases |run|
  {
    if run == [] {
      NoStraysInSelf(Filled(size, VIRGIN), Filled(size, 0));
    } else {
      var before, t := run[..|run| - 1], run[|run| - 1];
      StraysAreOnePath(size, hash, before);
      PlayKeepsResidue(Exec(size, hash, before), hash, t, Residue(size, hash, before));
    }
  }

  lemma PlayKeepsResidue(s: State, hash: Map -> Cksum, t: TestCase, bound: Map)
    requires Sized(s, |t.path|) && Fits(t, |t.path|) && StraysWithin(s.virginAtom, s.virginAtomReal, bound)
    ensures var r := Play(s, hash, t).state;
            StraysWithin(r.virginAtom, r.virginAtomReal, ResidueAfter(s, hash, t, bound))
  {
    hide AfterPath, AfterConfirm, Purges, NewBits;
    PathKeepsResidue(s, hash, t.path, t.pathOverflow, t.key, bound);
    var p := AfterPath(s, hash, t.path, t.pathOverflow, t.key);
    if p.verdict == Confirm {
      ConfirmKeepsResidue(p.state, t.edge, t.edgeOverflow, if Purges(s) then Filled(|t.path|, 0) else bound);
    }
  }

  // ------------------------------------------- when containment is lost

  lemma NoBoundIsContainment(atom: Map, kept: Map)
    requires |atom| == |kept|
    ensures StraysWithin(atom, kept, Filled(|atom|, 0)) <==> Within(atom, kept)
  {
    var none := Filled(|atom|, 0);
    forall i: nat | i < |atom|
      ensures StraysInByte(atom[i], kept[i], none[i]) <==> Without(atom[i], kept[i]) == 0
    {
      var b := atom[i] & !kept[i];
      assert b & !0 == b;
    }
  }

  /** A test case loses the containment of `virginAtom` in `virginAtomReal` if
      and only if its confirm purges, finds new edges, and follows a path of
      which some bit had led to no new edge before. */
  lemma ContainmentLostIff(s: State, hash: Map -> Cksum, t: TestCase)
    requires Sized(s, |t.path|) && Fits(t, |t.path|) && Within(s.virginAtom, s.virginAtomReal)
    ensures var o := Play(s, hash, t);
            var p := AfterPath(s, hash, t.path, t.pathOverflow, t.key);
            !Within(o.state.virginAtom, o.state.virginAtomReal) <==>
              (&& p.verdict == Confirm && Purges(p.state)
               && NewBits(s.virginEdge, Classified(t.edge)) != 0
               && NewBits(s.virginAtomReal, Classified(t.path)) != 0)
  {
    var none := Filled(|t.path|, 0);
    hide AfterSample, Purges, NewBits;
    NoBoundIsContainment(s.virginAtom, s.virginAtomReal);
    PlayKeepsResidue(s, hash, t, none);
    PathKeepsResidue(s, hash, t.path, t.pathOverflow, t.key, none);
    var r := Play(s, hash, t).state;
    NoBoundIsContainment(r.virginAtom, r.virginAtomReal);
    OwnResidue(s.virginAtomReal, Classified(t.path));
    NoNewBits(s.virginAtomReal, Classified(t.path));
  }

  // ------------------------------------------------------ exact strays

  /** The bits virgin in `virginAtom` but not in `virginAtomReal`. */
  function Strays(s: State): Map
    requires |s.virginAtom| == |s.virginAtomReal|
  {
    Cleared(s.virginAtom, s.virginAtomReal)
  }

  /** The bits the two maps share. */
  function Shared(a: Map, b: Map): (r: Map)
    requires |a| == |b|
    ensures |r| == |a| && forall i :: 0 <= i < |a| ==> r[i] == a[i] & b[i]
  {
    seq(|a|, i requires 0 <= i < |a| => a[i] & b[i])
  }

  lemma StrayByteApart(a: bv8, k: bv8, c: bv8)
    ensures Without(Without(a, c), k) == Without(Without(a, k), c)
  {
  }

  lemma StrayByteBoth(a: bv8, k: bv8, c: bv8)
    ensures Without(Without(a, c), Without(k, c)) == Without(Without(a, k), c)
  {
  }

  lemma StrayByteLeft(k: bv8, c: bv8)
    ensures Without(k, Without(k, c)) == c & k
  {
  }

  lemma StrayByteNone(k: bv8)
    ensures Without(k, k) == 0 && Without(0, k) == 0
  {
  }

  /** How clearing a path from one map or both changes what strays. */
  lemma StrayMaps(atom: Map, kept: Map, c: Map)
    requires |atom| == |kept| == |c|
    ensures Cleared(Cleared(atom, c), kept) == Cleared(Cleared(atom, kept), c)
    ensures Cleared(Cleared(atom, c), Cleared(kept, c)) == Cleared(Cleared(atom, kept), c)
    ensures Cleared(kept, Cleared(kept, c)) == Shared(c, kept)
    ensures Cleared(kept, kept) == Filled(|kept|, 0)
    ensures Cleared(Filled(|kept|, 0), c) == Filled(|kept|, 0)
  {
    forall i: nat | i < |atom|
      ensures Cleared(Cleared(atom, c), kept)[i] == Cleared(Cleared(atom, kept), c)[i]
      ensures Cleared(Cleared(atom, c), Cleared(kept, c))[i] == Cleared(Cleared(atom, kept), c)[i]
      ensures Cleared(kept, Cleared(kept, c))[i] == Shared(c, kept)[i]
      ensures Cleared(kept, kept)[i] == 0 && Cleared(Filled(|kept|, 0), c)[i] == 0
    {
      StrayByteApart(atom[i], kept[i], c[i]);
      StrayByteBoth(atom[i], kept[i], c[i]);
      StrayByteLeft(kept[i], c[i]);
      StrayByteNone(kept[i]);
      StrayByteNone(c[i]);
    }
  }

  /** A confirm of this test case purges. */
  predicate ConfirmPurges(s: State, hash: Map -> Cksum, t: TestCase)
    requires Sized(s, |t.path|) && Fits(t, |t.path|)
  {
    var p := AfterPath(s, hash, t.path, t.pathOverflow, t.key);
    p.verdict == Confirm && Purges(p.state)
  }

  /** The strays after a test case, from any state. */
  function StraysAfter(s: State, hash: Map -> Cksum, t: TestCase): Map
    requires Sized(s, |t.path|) && Fits(t, |t.path|)
  {
    var cls := Classified(t.path);
    if ConfirmPurges(s, hash, t) then
      if NewBits(s.virginEdge, Classified(t.edge)) != 0 then Shared(cls, s.virginAtomReal) else Filled(|t.path|, 0)
    else if Purges(s) then Filled(|t.path|, 0)
    else if Filtered(s.checkUp, s.checkDown, hash(t.path)) then Strays(s)
    else Cleared(Strays(s), cls)
  }

  lemma PathStrays(s: State, hash: Map -> Cksum, m: Map, overflowed: bool, key: nat)
    requires Sized(s, |m|)
    ensures var p := AfterPath(s, hash, m, overflowed, key).state;
            && p.virginAtomReal == s.virginAtomReal && p.virginEdge == s.virginEdge
            && Strays(p) == if Purges(s) then Filled(|m|, 0)
                            else if Filtered(s.checkUp, s.checkDown, hash(m)) then Strays(s)
                            else Cleared(Strays(s), Classified(m))
  {
    StrayMaps(s.virginAtom, s.virginAtomReal, Classified(m));
    StrayMaps(s.virginAtomReal, s.virginAtomReal, Classified(m));
    hide NewBits, TickedClock, Purges, AnswerFor, Remember, Cleared, Classified, Filled, Filtered, Shared;
  }

  lemma PathKeeps(s: State, hash: Map -> Cksum, m: Map, overflowed: bool, key: nat)
    requires Sized(s, |m|) && AfterPath(s, hash, m, overflowed, key).verdict == Confirm
    ensures var p := AfterPath(s, hash, m, overflowed, key).state;
            && p.kept.cls == Classified(m) && p.virginAtom == Cleared(PurgedAtom(s), Classified(m))
            && !Filtered(s.checkUp, s.checkDown, hash(m))
  {
    hide NewBits, TickedClock, PurgedAtom, AnswerFor, Remember, Cleared, Classified;
  }

  /** A confirm of a path whose bits have left the path map. */
  lemma ConfirmStrays(s: State, m: Map, overflowed: bool, v: Map)
    requires Sized(s, |m|) && |v| == |m| && s.virginAtom == Cleared(v, s.kept.cls)
    ensures Strays(AfterConfirm(s, m, overflowed)) ==
            if !Purges(s) then Strays(s)
            else if NewBits(s.virginEdge, Classified(m)) != 0 then Shared(s.kept.cls, s.virginAtomReal)
            else Filled(|m|, 0)
  {
    StrayMaps(v, s.virginAtomReal, s.kept.cls);
    StrayMaps(s.virginAtomReal, s.virginAtomReal, s.kept.cls);
    hide NewBits, TickedClock, Purges, Remember, Cleared, Classified, Filled, Shared, High, Low;
  }

  /** The exact strays after any test case from any state. */
  lemma StraysStep(s: State, hash: Map -> Cksum, t: TestCase)
    requires Sized(s, |t.path|) && Fits(t, |t.path|)
    ensures Strays(Play(s, hash, t).state) == StraysAfter(s, hash, t)
  {
    hide AfterPath, AfterConfirm, Purges, NewBits, Cleared, Classified, Filled, Filtered, Shared, PurgedAtom;
    PathStrays(s, hash, t.path, t.pathOverflow, t.key);
    var p := AfterPath(s, hash, t.path, t.pathOverflow, t.key);
    if p.verdict == Confirm {
      PathKeeps(s, hash, t.path, t.pathOverflow, t.key);
      ConfirmStrays(p.state, t.edge, t.edgeOverflow, PurgedAtom(s));
    }
  }

  /** Test case `n` of the run purges, in either pass. */
  predicate PurgesAt(size: nat, hash: Map -> Cksum, run: seq<TestCase>, n: nat)
    requires ValidRun(run, size) && n < |run|
  {
    var s := Exec(size, hash, run[..n]);
    Purges(s) || ConfirmPurges(s, hash, run[n])
  }

  /** The confirm of test case `n` purges and finds new edges. */
  predicate LosesAt(size: nat, hash: Map -> Cksum, run: seq<TestCase>, n: nat)
    requires ValidRun(run, size) && n < |run|
  {
    var s := Exec(size, hash, run[..n]);
    ConfirmPurges(s, hash, run[n]) && NewBits(s.virginEdge, Classified(run[n].edge)) != 0
  }

  predicate FilteredAt(size: nat, hash: Map -> Cksum, run: seq<TestCase>, n: nat)
    requires ValidRun(run, size) && n < |run|
  {
    var s := Exec(size, hash, run[..n]);
    Filtered(s.checkUp, s.checkDown, hash(run[n].path))
  }

  /** What is left, before test case `n`, of the bits of the path of `m` that had
      led to no new edge before it: each unfiltered path since takes its own. */
  function Fading(size: nat, hash: Map -> Cksum, run: seq<TestCase>, m: nat, n: nat): (r: Map)
    requires ValidRun(run, size) && m < n <= |run|
    ensures |r| == size
    decreases n
  {
    if n == m + 1 then Shared(Classified(run[m].path), Exec(size, hash, run[..m]).virginAtomReal)
    else
      var before := Fading(size, hash, run, m, n - 1);
      if FilteredAt(size, hash, run, n - 1) then before else Cleared(before, Classified(run[n - 1].path))
  }

  /** The purge of test case `m` is the latest before `n`, and lost containment. */
  ghost predicate LostBy(size: nat, hash: Map -> Cksum, run: seq<TestCase>, m: nat, n: nat)
    requires ValidRun(run, size) && n <= |run|
  {
    m < n && LosesAt(size, hash, run, m) && forall k :: m < k < n ==> !PurgesAt(size, hash, run, k)
  }

  /** The exact strays before test case `n`. */
  ghost predicate ExactAt(size: nat, hash: Map -> Cksum, run: seq<TestCase>, n: nat)
    requires ValidRun(run, size) && n <= |run|
  {
    var strays := Strays(Exec(size, hash, run[..n]));
    && (forall m: nat :: LostBy(size, hash, run, m, n) ==> strays == Fading(size, hash, run, m, n))
    && ((forall m: nat :: !LostBy(size, hash, run, m, n)) ==> strays == Filled(size, 0))
  }

  /** One test case's effect on the strays, by the run's own history. */
  lemma StraysInTurn(size: nat, hash: Map -> Cksum, run: seq<TestCase>, n: nat)
    requires ValidRun(run, size) && n < |run|
    ensures var before, now := Strays(Exec(size, hash, run[..n])), Strays(Exec(size, hash, run[..n + 1]));
            var cls := Classified(run[n].path);
            now == if LosesAt(size, hash, run, n) then Shared(cls, Exec(size, hash, run[..n]).virginAtomReal)
                   else if PurgesAt(size, hash, run, n) then Filled(size, 0)
                   else if FilteredAt(size, hash, run, n) then before
                   else Cleared(before, cls)
  {
    hide Exec, Last, Play, Strays, ConfirmPurges, Purges, NewBits, Filtered, Shared, Cleared, Classified;
    PlayedInTurn(size, hash, run, n);
    StraysStep(Exec(size, hash, run[..n]), hash, run[n]);
  }

  lemma NoStraysYet(size: nat, hash: Map -> Cksum)
    ensures Strays(Exec(size, hash, [])) == Filled(size, 0)
  {
    StartsFresh(size, hash);
    StrayMaps(Filled(size, VIRGIN), Filled(size, VIRGIN), Filled(size, VIRGIN));
    hide Cleared, Play;
  }

  lemma LosingPurges(size: nat, hash: Map -> Cksum, run: seq<TestCase>, n: nat)
    requires ValidRun(run, size) && n < |run| && LosesAt(size, hash, run, n)
    ensures PurgesAt(size, hash, run, n)
  {
    hide Exec, ConfirmPurges, Purges, NewBits, Classified;
  }

  lemma LostByLast(size: nat, hash: Map -> Cksum, run: seq<TestCase>, m: nat, n: nat)
    requires ValidRun(run, size) && n < |run|
    ensures LostBy(size, hash, run, m, n + 1) <==>
              if m == n then LosesAt(size, hash, run, n)
              else LostBy(size, hash, run, m, n) && !PurgesAt(size, hash, run, n)
  {
    hide LosesAt, PurgesAt;
  }

  lemma ClearedNothing(size: nat, c: Map)
    requires |c| == size
    ensures Cleared(Filled(size, 0), c) == Filled(size, 0)
  {
    StrayMaps(c, c, c);
    hide Cleared;
  }

  lemma {:induction false} StraysAreExact(size: nat, hash: Map -> Cksum, run: seq<TestCase>, n: nat)
    requires ValidRun(run, size) && n <= |run|
    ensures ExactAt(size, hash, run, n)
    decreases n
  {
    hide Exec, Strays, LosesAt, PurgesAt, FilteredAt, LostBy, Shared, Cleared, Classified;
    if n == 0 {
      assert run[..0] == [];
      NoStraysYet(size, hash);
      forall m: nat ensures !LostBy(size, hash, run, m, 0) { NothingLost(size, hash, run, m); }
    } else {
      var k := n - 1;
      StraysAreExact(size, hash, run, k);
      StraysInTurn(size, hash, run, k);
      forall m: nat ensures LostBy(size, hash, run, m, n) <==>
          if m == k then LosesAt(size, hash, run, k)
          else LostBy(size, hash, run, m, k) && !PurgesAt(size, hash, run, k) {
        LostByLast(size, hash, run, m, k);
      }
      if LosesAt(size, hash, run, k) { LosingPurges(size, hash, run, k); }
      ClearedNothing(size, Classified(run[k].path));
      LostIsEarlier(size, hash, run, k);
      var strays := Strays(Exec(size, hash, run[..n]));
      forall m: nat | LostBy(size, hash, run, m, n) ensures strays == Fading(size, hash, run, m, n) {
        if m != k { assert LostBy(size, hash, run, m, k); }
      }
      if forall m: nat :: !LostBy(size, hash, run, m, n) {
        assert !LostBy(size, hash, run, k, n);
        if !PurgesAt(size, hash, run, k) {
          forall m: nat ensures !LostBy(size, hash, run, m, k) {
            assert !LostBy(size, hash, run, m, n);
          }
        }
      }
    }
  }

  lemma NothingLost(size: nat, hash: Map -> Cksum, run: seq<TestCase>, m: nat)
    requires ValidRun(run, size)
    ensures !LostBy(size, hash, run, m, 0)
  {
  }

  lemma LostIsEarlier(size: nat, hash: Map -> Cksum, run: seq<TestCase>, n: nat)
    requires ValidRun(run, size) && n <= |run|
    ensures forall m: nat :: LostBy(size, hash, run, m, n) ==> m < n
  {
    hide LosesAt, PurgesAt;
  }

  lemma ContainedIffNoStrays(s: State)
    requires |s.virginAtom| == |s.virginAtomReal|
    ensures Within(s.virginAtom, s.virginAtomReal) <==> Strays(s) == Filled(|s.virginAtom|, 0)
  {
    var r := Strays(s);
    if r == Filled(|s.virginAtom|, 0) {
      forall i: nat | i < |s.virginAtom| ensures Without(s.virginAtom[i], s.virginAtomReal[i]) == 0 {
        assert r[i] == 0;
      }
    }
  }

  /** Containment over every run: it fails if and only if the latest purge fired in
      a confirm with new edges and some bit of that confirm's path that had led to
      no new edge before has been on no unfiltered path since. */
  lemma ContainmentIff(size: nat, hash: Map -> Cksum, run: seq<TestCase>)
    requires ValidRun(run, size)
    ensures var s := Exec(size, hash, run);
            !Within(s.virginAtom, s.virginAtomReal) <==>
              exists m: nat :: LostBy(size, hash, run, m, |run|) && Fading(size, hash, run, m, |run|) != Filled(size, 0)
  {
    hide Exec, Strays, LosesAt, PurgesAt, FilteredAt, LostBy, Fading, Within;
    assert run[..|run|] == run;
    StraysAreExact(size, hash, run, |run|);
    ContainedIffNoStrays(Exec(size, hash, run));
    LostIsEarlier(size, hash, run, |run|);
  }

  // ------------------------------------ a run in which containment is lost

  /** A path that leads to no edge, and a second one that does. The two differ in
      their first byte only. */
  function First(size: nat): TestCase
    requires size > 0
  {
    TestCase(Lead(size, 1, 0), false, 0, Filled(size, 0), false, None)
  }

  function Second(size: nat): TestCase
    requires size > 0
  {
    TestCase(Lead(size, 2, 0), false, 0, Lead(size, 1, 0), false, None)
  }

  /** The checksum's low half tells the two paths apart. */
  predicate TellsApart(hash: Map -> Cksum, size: nat)
    requires size > 0
  {
    Low(hash(Lead(size, 1, 0))) != Low(hash(Lead(size, 2, 0)))
  }

  /** One confirm that finds nothing, then `n` re-runs of its path. */
  function Stall(size: nat, n: nat): (run: seq<TestCase>)
    requires size > 0
    ensures ValidRun(run, size) && |run| == n + 1
  {
    if n == 0 then [First(size)] else Stall(size, n - 1) + [First(size)]
  }

  /** The virgin maps while only the first path has been seen. */
  ghost predicate OnlyFirstSeen(s: State, size: nat)
    requires size > 0
  {
    && Sized(s, size)
    && s.virginAtom == Lead(size, 0xfe, VIRGIN)
    && s.virginAtomReal == s.virginEdge == Lead(size, VIRGIN, VIRGIN)
  }

  /** The state while edge coverage stalls. */
  ghost predicate Stalled(s: State, hash: Map -> Cksum, size: nat, execs: nat)
    requires size > 0
  {
    && OnlyFirstSeen(s, size)
    && s.clock == Clock(execs, 0, 0, LEVEL1, 0, 0)
    && Filtered(s.checkUp, s.checkDown, hash(Lead(size, 1, 0)))
    && !s.checkDown[Low(hash(Lead(size, 2, 0)))]
  }

  lemma UnreachedLead(size: nat)
    requires size > 0
    ensures Reached(Lead(size, VIRGIN, VIRGIN)) == 0
  {
    LeadFilled(size, VIRGIN);
    NothingReached(size);
  }

  /** The first path is kept for its confirm. */
  ghost predicate FirstKept(s: State, hash: Map -> Cksum, size: nat)
    requires size > 0
  {
    && OnlyFirstSeen(s, size)
    && s.kept.cls == Lead(size, 1, 0) && s.kept.cksum == hash(Lead(size, 1, 0))
    && s.clock == Clock(1, 0, 0, LEVEL1, 0, 0)
    && !s.checkDown[Low(hash(Lead(size, 2, 0)))]
  }

  lemma FirstIsNew(hash: Map -> Cksum, size: nat)
    requires size > 0
    ensures var p := AfterPath(Init(size), hash, Lead(size, 1, 0), false, 0);
            p.verdict == Confirm && FirstKept(p.state, hash, size)
  {
    LeadFacts(size);
    LeadFilled(size, VIRGIN);
    hide NewBits, Reached, Lead, Filled, Classified, Cleared;
  }

  /** A confirm that finds nothing, between purges. */
  lemma ConfirmFindsNothing(s: State, m: Map)
    requires Sized(s, |m|) && NewBits(s.virginEdge, Classified(m)) == 0 && !PurgeDue(s.clock)
    ensures var r := AfterConfirm(s, m, false);
            && r.virginAtom == s.virginAtom && r.virginAtomReal == s.virginAtomReal && r.virginEdge == s.virginEdge
            && r.clock == s.clock.(realExecs := s.clock.realExecs + 1)
            && r.checkUp == s.checkUp[High(s.kept.cksum) := true]
            && r.checkDown == s.checkDown[Low(s.kept.cksum) := true]
  {
    NoNewBits(s.virginEdge, Classified(m));
    hide NewBits, Classified, Cleared, Reached;
  }

  lemma FirstFindsNothing(s: State, hash: Map -> Cksum, size: nat)
    requires size > 0 && FirstKept(s, hash, size) && TellsApart(hash, size)
    ensures Stalled(AfterConfirm(s, Filled(size, 0), false), hash, size, 2)
  {
    LeadFacts(size);
    hide NewBits, Lead, Filled, Classified, Cleared, AfterConfirm, High, Low;
    ConfirmFindsNothing(s, Filled(size, 0));
  }

  lemma FirstStalls(hash: Map -> Cksum, size: nat)
    requires size > 0 && TellsApart(hash, size)
    ensures Stalled(Play(Init(size), hash, First(size)).state, hash, size, 2)
  {
    hide AfterPath, AfterConfirm, AfterSample, Init, FirstKept, Stalled, Lead;
    FirstIsNew(hash, size);
    FirstFindsNothing(AfterPath(Init(size), hash, Lead(size, 1, 0), false, 0).state, hash, size);
  }

  lemma RerunStalls(s: State, hash: Map -> Cksum, size: nat, execs: nat)
    requires size > 0 && Stalled(s, hash, size, execs) && execs < 2998
    ensures Stalled(Play(s, hash, First(size)).state, hash, size, execs + 1)
  {
    hide NewBits, Reached, AfterConfirm, AfterSample, Lead, Filled, Classified, Cleared;
    assert AfterPath(s, hash, Lead(size, 1, 0), false, 0).verdict == Discard;
  }

  lemma SecondPurges(s: State, hash: Map -> Cksum, size: nat)
    requires size > 0 && Stalled(s, hash, size, 2998)
    ensures var r := Play(s, hash, Second(size)).state;
            !Within(r.virginAtom, r.virginAtomReal)
  {
    LeadFacts(size);
    UnreachedLead(size);
    hide NewBits, Reached, AfterSample, Lead, Filled, Classified, Cleared;
    var p := AfterPath(s, hash, Lead(size, 2, 0), false, 0);
    assert p.verdict == Confirm && Purges(p.state);
    var r := Play(s, hash, Second(size)).state;
    assert r.virginAtom == Lead(size, VIRGIN, VIRGIN) && r.virginAtomReal == Lead(size, 0xfd, VIRGIN);
    assert Without(r.virginAtom[0], r.virginAtomReal[0]) == 2;
  }

  lemma {:induction false} Stalling(hash: Map -> Cksum, size: nat, n: nat)
    requires size > 0 && TellsApart(hash, size) && n <= 2996
    ensures Stalled(Exec(size, hash, Stall(size, n)), hash, size, 2 + n)
  {
    hide Play, Stalled, TellsApart;
    assert n > 0 ==> Stall(size, n)[..n] == Stall(size, n - 1);
    if n == 0 {
      FirstStalls(hash, size);
      assert Stall(size, 0)[..0] == [];
    } else {
      Stalling(hash, size, n - 1);
      RerunStalls(Exec(size, hash, Stall(size, n - 1)), hash, size, 1 + n);
    }
  }

  /** At every map size, a reachable state in which `virginAtom` is not contained
      in `virginAtomReal`, under any checksum that tells the two paths' low halves
      apart: the 3000th execution is the confirm of the second path. */
  lemma ContainmentCanBeLost(hash: Map -> Cksum, size: nat)
    requires size > 0 && TellsApart(hash, size)
    ensures var s := Exec(size, hash, Stall(size, 2996) + [Second(size)]);
            !Within(s.virginAtom, s.virginAtomReal)
  {
    hide Play, Stalled, TellsApart;
    var run := Stall(size, 2996) + [Second(size)];
    Stalling(hash, size, 2996);
    assert run[..|run| - 1] == Stall(size, 2996);
    SecondPurges(Exec(size, hash, Stall(size, 2996)), hash, size);
  }
}
