/** The two direct-mapped caches against the history of the run. */
module HybridCaches {
  import opened Common
  import opened Coverage
  import opened Hybrid
  import opened HybridRuns

  // ----------------------------------------------------------- path cache

  /** Test case `i` was confirmed with neither pass overflowing. */
  predicate TrustedConfirm(size: nat, hash: Map -> Cksum, run: seq<TestCase>, i: nat)
    requires ValidRun(run, size) && i < |run|
  {
    && Last(size, hash, run[..i + 1]).verdict == Confirm
    && !run[i].pathOverflow && !run[i].edgeOverflow
  }

  lemma PlayCaches(s: State, hash: Map -> Cksum, t: TestCase)
    requires Sized(s, |t.path|) && Fits(t, |t.path|)
    ensures var o := Play(s, hash, t);
            var c := hash(t.path);
            if o.verdict == Confirm && !t.pathOverflow && !t.edgeOverflow
            then o.state.cache == s.cache[CacheSlot(c) := Holds(c, t.edge)]
            else o.state.cache == s.cache
  {
    hide NewBits, TickedClock, PurgedAtom, Remember;
  }

  /** The slot after the latest trusted confirm that maps to it. */
  function LatestEntry(size: nat, hash: Map -> Cksum, run: seq<TestCase>, n: nat, slot: nat): Slot
    requires ValidRun(run, size) && n <= |run|
  {
    if n == 0 then Vacant
    else if TrustedConfirm(size, hash, run, n - 1) && CacheSlot(hash(run[n - 1].path)) == slot
    then Holds(hash(run[n - 1].path), run[n - 1].edge)
    else LatestEntry(size, hash, run, n - 1, slot)
  }

  lemma {:induction false} CacheIsLatestEntry(size: nat, hash: Map -> Cksum, run: seq<TestCase>, n: nat, slot: nat)
    requires ValidRun(run, size) && n <= |run| && slot < CACHE_SLOTS
    ensures Exec(size, hash, run[..n]).cache[slot] == LatestEntry(size, hash, run, n, slot)
  {
    hide Exec, Last, Play, CacheSlot;
    if n == 0 {
      assert run[..n] == [];
      StartsFresh(size, hash);
    } else {
      CacheIsLatestEntry(size, hash, run, n - 1, slot);
      PlayedInTurn(size, hash, run, n - 1);
      PlayCaches(Exec(size, hash, run[..n - 1]), hash, run[n - 1]);
    }
  }

  lemma {:induction false} LatestEntryIsLatest(size: nat, hash: Map -> Cksum, run: seq<TestCase>, n: nat, slot: nat)
      returns (i: nat)
    requires ValidRun(run, size) && n <= |run|
    requires LatestEntry(size, hash, run, n, slot).Holds?
    ensures i < n && TrustedConfirm(size, hash, run, i) && CacheSlot(hash(run[i].path)) == slot
    ensures LatestEntry(size, hash, run, n, slot) == Holds(hash(run[i].path), run[i].edge)
    ensures forall j :: i < j < n && TrustedConfirm(size, hash, run, j) ==> CacheSlot(hash(run[j].path)) != slot
  {
    hide TrustedConfirm, CacheSlot;
    if TrustedConfirm(size, hash, run, n - 1) && CacheSlot(hash(run[n - 1].path)) == slot {
      i := n - 1;
    } else {
      i := LatestEntryIsLatest(size, hash, run, n - 1, slot);
    }
  }

  /** A path-cache hit shows the edge map of the latest trusted confirm that had
      this very checksum. */
  lemma CacheHitIsLatestConfirm(size: nat, hash: Map -> Cksum, run: seq<TestCase>, c: Cksum, key: nat)
    requires ValidRun(run, size)
    requires AnswerFor(Exec(size, hash, run).cache, Exec(size, hash, run).inputs, size, c, key).FromCache?
    ensures var shown := AnswerFor(Exec(size, hash, run).cache, Exec(size, hash, run).inputs, size, c, key).m;
            exists i: nat :: i < |run| && TrustedConfirm(size, hash, run, i) && hash(run[i].path) == c &&
                      shown == run[i].edge &&
                      forall j :: i < j < |run| && TrustedConfirm(size, hash, run, j) ==> hash(run[j].path) != c
  {
    hide Exec, TrustedConfirm;
    assert run[..|run|] == run;
    CacheIsLatestEntry(size, hash, run, |run|, CacheSlot(c));
    var i := LatestEntryIsLatest(size, hash, run, |run|, CacheSlot(c));
  }

  // ---------------------------------------------------------- input cache

  /** What test case `t` asks to have remembered for its input. */
  function Request(s: State, hash: Map -> Cksum, t: TestCase): (r: Option<Map>)
    requires Sized(s, |t.path|) && Fits(t, |t.path|)
  {
    var o := Play(s, hash, t);
    if t.key == 0 then None
    else if o.verdict == Confirm then
      if t.pathOverflow || t.edgeOverflow then None else Some(t.edge)
    else
      var a := AnswerFor(s.cache, s.inputs, |t.path|, hash(t.path), t.key);
      if a.FromCache? then Some(a.m) else None
  }

  lemma PlayRemembers(s: State, hash: Map -> Cksum, t: TestCase)
    requires Sized(s, |t.path|) && Fits(t, |t.path|)
    ensures var o, q := Play(s, hash, t), Request(s, hash, t);
            o.state.inputs == if q.Some? then Remember(s.inputs, t.key, q.value) else s.inputs
    ensures var o := Play(s, hash, t);
            o.verdict == Discard ==>
              o.shown == AnswerFor(s.cache, s.inputs, |t.path|, hash(t.path), t.key).m
  {
    hide NewBits, TickedClock, PurgedAtom;
  }

  /** Test case `i` has another input's map remembered in the slot of `key`. */
  predicate Displaces(size: nat, hash: Map -> Cksum, run: seq<TestCase>, i: nat, key: nat)
    requires ValidRun(run, size) && i < |run|
  {
    && run[i].key != key && InputSlot(run[i].key) == InputSlot(key)
    && Request(Exec(size, hash, run[..i]), hash, run[i]).Some?
  }

  /** A remembered map stays until another key displaces it. */
  lemma {:induction false} RememberedStays(size: nat, hash: Map -> Cksum, run: seq<TestCase>, i: nat, j: nat, key: nat)
    requires ValidRun(run, size) && i <= j <= |run|
    requires Hit(Exec(size, hash, run[..i]).inputs, InputSlot(key), key)
    requires forall n :: i <= n < j ==> !Displaces(size, hash, run, n, key)
    ensures Exec(size, hash, run[..j]).inputs[InputSlot(key)] == Exec(size, hash, run[..i]).inputs[InputSlot(key)]
    decreases j - i
  {
    hide Exec, Last, Play, Request, InputSlot;
    if i < j {
      var n := j - 1;
      RememberedStays(size, hash, run, i, n, key);
      PlayedInTurn(size, hash, run, n);
      assert !Displaces(size, hash, run, n, key);
      PlayRemembers(Exec(size, hash, run[..n]), hash, run[n]);
    }
  }

  /** An answered discard leaves its map remembered for its input. */
  lemma AnswerIsRemembered(s: State, hash: Map -> Cksum, t: TestCase)
    requires Sized(s, |t.path|) && Fits(t, |t.path|) && t.key != 0
    requires Play(s, hash, t).verdict == Discard
    requires !AnswerFor(s.cache, s.inputs, |t.path|, hash(t.path), t.key).Nothing?
    ensures Play(s, hash, t).state.inputs[InputSlot(t.key)] == Holds(t.key, Play(s, hash, t).shown)
  {
    hide NewBits, TickedClock, PurgedAtom;
  }

  lemma RememberedIsShown(s: State, hash: Map -> Cksum, t: TestCase, m: Map)
    requires Sized(s, |t.path|) && Fits(t, |t.path|) && t.key != 0
    requires Play(s, hash, t).verdict == Discard
    requires s.inputs[InputSlot(t.key)] == Holds(t.key, m)
    ensures Play(s, hash, t).shown == m
  {
    hide NewBits, TickedClock, PurgedAtom;
  }

  /** What a discard of test case `i` is answered with. */
  function AnswerAt(size: nat, hash: Map -> Cksum, run: seq<TestCase>, i: nat): Answer
    requires ValidRun(run, size) && i < |run|
  {
    var s := Exec(size, hash, run[..i]);
    AnswerFor(s.cache, s.inputs, size, hash(run[i].path), run[i].key)
  }

  /** All discards of one input show one same map: whatever paths two discards
      of a nonzero key take, and whatever is confirmed, purged or evicted in
      between, the second shows what the first was answered with, unless
      another key's map was remembered in their slot. */
  lemma DiscardsAgree(size: nat, hash: Map -> Cksum, run: seq<TestCase>, i: nat, j: nat)
    requires ValidRun(run, size) && i < j < |run| && run[i].key == run[j].key != 0
    requires DiscardedAt(size, hash, run, i) && DiscardedAt(size, hash, run, j)
    requires !AnswerAt(size, hash, run, i).Nothing?
    requires forall n :: i < n < j ==> !Displaces(size, hash, run, n, run[i].key)
    ensures ShownAt(size, hash, run, j) == ShownAt(size, hash, run, i)
  {
    hide Exec, Last, Play, Displaces, AnswerFor, InputSlot;
    PlayedInTurn(size, hash, run, i);
    PlayedInTurn(size, hash, run, j);
    AnswerIsRemembered(Exec(size, hash, run[..i]), hash, run[i]);
    RememberedStays(size, hash, run, i + 1, j, run[i].key);
    RememberedIsShown(Exec(size, hash, run[..j]), hash, run[j], Last(size, hash, run[..i + 1]).shown);
  }

  // --------------------------------------------- discards left unanswered

  lemma NothingIsEmpty(cache: seq<Slot>, inputs: seq<Slot>, size: nat, c: Cksum, key: nat)
    requires |cache| == CACHE_SLOTS && |inputs| == INPUT_SLOTS
    ensures var a := AnswerFor(cache, inputs, size, c, key); a.Nothing? ==> a.m == Filled(size, 0)
  {
  }

  /** What a discard shows is its answer. */
  lemma DiscardShows(size: nat, hash: Map -> Cksum, run: seq<TestCase>, i: nat)
    requires ValidRun(run, size) && i < |run| && DiscardedAt(size, hash, run, i)
    ensures ShownAt(size, hash, run, i) == AnswerAt(size, hash, run, i).m
    ensures AnswerAt(size, hash, run, i).Nothing? ==> AnswerAt(size, hash, run, i).m == Filled(size, 0)
  {
    hide Exec, Last, Play, AnswerFor;
    PlayedInTurn(size, hash, run, i);
    var s := Exec(size, hash, run[..i]);
    PlayRemembers(s, hash, run[i]);
    NothingIsEmpty(s.cache, s.inputs, size, hash(run[i].path), run[i].key);
  }

  /** Test case `n` asks to have a map remembered for `key`. */
  predicate Asks(size: nat, hash: Map -> Cksum, run: seq<TestCase>, n: nat, key: nat)
    requires ValidRun(run, size) && n < |run|
  {
    run[n].key == key && Request(Exec(size, hash, run[..n]), hash, run[n]).Some?
  }

  /** The map it asks to have remembered. */
  function Asked(size: nat, hash: Map -> Cksum, run: seq<TestCase>, n: nat): Map
    requires ValidRun(run, size) && n < |run| && Asks(size, hash, run, n, run[n].key)
  {
    Request(Exec(size, hash, run[..n]), hash, run[n]).value
  }

  /** Nothing between test cases `i` and `n` asks on behalf of `key`. */
  predicate NobodyAsks(size: nat, hash: Map -> Cksum, run: seq<TestCase>, i: nat, n: nat, key: nat)
    requires ValidRun(run, size) && n <= |run|
  {
    forall m :: i < m < n ==> !Asks(size, hash, run, m, key)
  }

  /** Test case `k` is a trusted confirm with the checksum of `j`, and none since
      then has taken its cache slot. */
  predicate CachedFor(size: nat, hash: Map -> Cksum, run: seq<TestCase>, k: nat, j: nat)
    requires ValidRun(run, size) && k < j < |run|
  {
    && TrustedConfirm(size, hash, run, k) && hash(run[k].path) == hash(run[j].path)
    && forall m :: k < m < j && TrustedConfirm(size, hash, run, m) ==>
                   CacheSlot(hash(run[m].path)) != CacheSlot(hash(run[j].path))
  }

  /** No map is remembered for `key` before test case `n`. */
  predicate Unremembered(size: nat, hash: Map -> Cksum, run: seq<TestCase>, n: nat, key: nat)
    requires ValidRun(run, size) && n <= |run|
  {
    !Hit(Exec(size, hash, run[..n]).inputs, InputSlot(key), key)
  }

  lemma InputsAfter(size: nat, hash: Map -> Cksum, run: seq<TestCase>, n: nat)
    requires ValidRun(run, size) && n < |run|
    ensures var s, q := Exec(size, hash, run[..n]), Request(Exec(size, hash, run[..n]), hash, run[n]);
            Exec(size, hash, run[..n + 1]).inputs ==
              if q.Some? then Remember(s.inputs, run[n].key, q.value) else s.inputs
  {
    hide Exec, Last, Play, Request, Remember;
    PlayedInTurn(size, hash, run, n);
    PlayRemembers(Exec(size, hash, run[..n]), hash, run[n]);
  }

  /** A key nobody asks for stays unremembered. */
  lemma {:induction false} StaysUnremembered(size: nat, hash: Map -> Cksum, run: seq<TestCase>,
                                             i: nat, n: nat, key: nat)
    requires ValidRun(run, size) && i < n <= |run| && key != 0
    requires Unremembered(size, hash, run, i + 1, key) && NobodyAsks(size, hash, run, i, n, key)
    ensures Unremembered(size, hash, run, n, key)
  {
    hide Exec, Last, Play, Request;
    if i + 1 < n {
      StaysUnremembered(size, hash, run, i, n - 1, key);
      assert !Asks(size, hash, run, n - 1, key);
      InputsAfter(size, hash, run, n - 1);
    }
  }

  /** The first map asked for is the one remembered. */
  lemma FirstAskIsRemembered(size: nat, hash: Map -> Cksum, run: seq<TestCase>, n: nat, key: nat)
    requires ValidRun(run, size) && n < |run| && key != 0
    requires Unremembered(size, hash, run, n, key) && Asks(size, hash, run, n, key)
    ensures Exec(size, hash, run[..n + 1]).inputs[InputSlot(key)] == Holds(key, Asked(size, hash, run, n))
  {
    hide Exec, Last, Play, Request, InputSlot;
    InputsAfter(size, hash, run, n);
  }

  /** An unanswered discard leaves its key unremembered. */
  lemma UnansweredIsUnremembered(size: nat, hash: Map -> Cksum, run: seq<TestCase>, i: nat)
    requires ValidRun(run, size) && i < |run| && run[i].key != 0
    requires DiscardedAt(size, hash, run, i) && AnswerAt(size, hash, run, i).Nothing?
    ensures Unremembered(size, hash, run, i + 1, run[i].key)
  {
    hide Exec, Last, Play;
    PlayedInTurn(size, hash, run, i);
    InputsAfter(size, hash, run, i);
  }

  /** A discard whose input was first asked for by test case `n` shows the map
      asked for then. */
  lemma ShowsFirstAsked(size: nat, hash: Map -> Cksum, run: seq<TestCase>, n: nat, j: nat)
    requires ValidRun(run, size) && n < j < |run| && run[j].key != 0 && DiscardedAt(size, hash, run, j)
    requires Unremembered(size, hash, run, n, run[j].key) && Asks(size, hash, run, n, run[j].key)
    requires forall m :: n < m < j ==> !Displaces(size, hash, run, m, run[j].key)
    ensures ShownAt(size, hash, run, j) == Asked(size, hash, run, n)
  {
    hide Exec, Last, Play, Request, Asked, Displaces, InputSlot, Unremembered;
    var key := run[j].key;
    FirstAskIsRemembered(size, hash, run, n, key);
    RememberedStays(size, hash, run, n + 1, j, key);
    PlayedInTurn(size, hash, run, j);
    RememberedIsShown(Exec(size, hash, run[..j]), hash, run[j], Asked(size, hash, run, n));
  }

  /** A discard of an unremembered input shows what the path cache holds. */
  lemma ShowsCached(size: nat, hash: Map -> Cksum, run: seq<TestCase>, j: nat)
    requires ValidRun(run, size) && j < |run| && DiscardedAt(size, hash, run, j)
    requires Unremembered(size, hash, run, j, run[j].key)
    ensures var e := LatestEntry(size, hash, run, j, CacheSlot(hash(run[j].path)));
            ShownAt(size, hash, run, j) == if e.Holds? && e.key == hash(run[j].path) then e.m else Filled(size, 0)
  {
    hide Exec, Last, Play, LatestEntry, CacheSlot, InputSlot;
    DiscardShows(size, hash, run, j);
    CacheIsLatestEntry(size, hash, run, j, CacheSlot(hash(run[j].path)));
  }

  /** The path cache holds the map of a trusted confirm exactly while `CachedFor`
      names it. */
  lemma {:induction false} CachedIsLatest(size: nat, hash: Map -> Cksum, run: seq<TestCase>, k: nat, j: nat, n: nat)
    requires ValidRun(run, size) && k < n <= j < |run| && CachedFor(size, hash, run, k, j)
    ensures LatestEntry(size, hash, run, n, CacheSlot(hash(run[j].path))) == Holds(hash(run[j].path), run[k].edge)
  {
    hide TrustedConfirm, CacheSlot;
    if k + 1 < n {
      CachedIsLatest(size, hash, run, k, j, n - 1);
    }
  }

  /** Test case `n` is the first after `i` to ask on behalf of `key`, and not for
      an empty map. */
  predicate FirstAsksForMore(size: nat, hash: Map -> Cksum, run: seq<TestCase>, i: nat, n: nat, key: nat)
    requires ValidRun(run, size) && n < |run|
  {
    && i < n && NobodyAsks(size, hash, run, i, n, key)
    && Asks(size, hash, run, n, key) && Asked(size, hash, run, n) != Filled(size, 0)
  }

  predicate CachedMore(size: nat, hash: Map -> Cksum, run: seq<TestCase>, k: nat, j: nat)
    requires ValidRun(run, size) && k < j < |run|
  {
    CachedFor(size, hash, run, k, j) && run[k].edge != Filled(size, 0)
  }

  /** By test case `j` the history holds a nonempty map for its input that test
      case `i` did not have: the first one asked for in between, or else that of
      the confirm the path cache still holds for its checksum. */
  ghost predicate GainsMap(size: nat, hash: Map -> Cksum, run: seq<TestCase>, i: nat, j: nat)
    requires ValidRun(run, size) && i < j < |run|
  {
    || (exists n :: i < n < j && FirstAsksForMore(size, hash, run, i, n, run[j].key))
    || (&& NobodyAsks(size, hash, run, i, j, run[j].key)
        && exists k: nat :: k < j && CachedMore(size, hash, run, k, j))
  }

  lemma {:induction false} FirstAsk(size: nat, hash: Map -> Cksum, run: seq<TestCase>, i: nat, n: nat, key: nat)
      returns (first: nat)
    requires ValidRun(run, size) && n <= |run| && !NobodyAsks(size, hash, run, i, n, key)
    ensures i < first < n && Asks(size, hash, run, first, key) && NobodyAsks(size, hash, run, i, first, key)
    ensures run[first].key == key
    decreases n
  {
    hide Exec, Request;
    var m :| i < m < n && Asks(size, hash, run, m, key);
    if NobodyAsks(size, hash, run, i, m, key) { first := m; }
    else { first := FirstAsk(size, hash, run, i, m, key); }
  }

  lemma CachedMoreIff(size: nat, hash: Map -> Cksum, run: seq<TestCase>, j: nat)
    requires ValidRun(run, size) && j < |run|
    ensures var c := hash(run[j].path);
            var e := LatestEntry(size, hash, run, j, CacheSlot(c));
            (e.Holds? && e.key == c && e.m != Filled(size, 0)) <==>
              exists k: nat :: k < j && CachedMore(size, hash, run, k, j)
  {
    hide TrustedConfirm, CacheSlot, LatestEntry;
    var c := hash(run[j].path);
    var e := LatestEntry(size, hash, run, j, CacheSlot(c));
    if e.Holds? && e.key == c && e.m != Filled(size, 0) {
      var k := LatestEntryIsLatest(size, hash, run, j, CacheSlot(c));
      assert CachedMore(size, hash, run, k, j);
    }
    if k: nat :| k < j && CachedMore(size, hash, run, k, j) {
      CachedIsLatest(size, hash, run, k, j, j);
    }
  }

  /** After an unanswered discard, a later one of the same input shows something
      exactly when the history gained a map for it in between. */
  lemma UnansweredThenShown(size: nat, hash: Map -> Cksum, run: seq<TestCase>, i: nat, j: nat)
    requires ValidRun(run, size) && i < j < |run| && run[i].key == run[j].key != 0
    requires DiscardedAt(size, hash, run, i) && DiscardedAt(size, hash, run, j)
    requires AnswerAt(size, hash, run, i).Nothing?
    requires forall n :: i < n < j ==> !Displaces(size, hash, run, n, run[i].key)
    ensures ShownAt(size, hash, run, j) != Filled(size, 0) <==> GainsMap(size, hash, run, i, j)
  {
    hide DiscardedAt, ShownAt, AnswerAt, Displaces, Asks, Asked, Unremembered, CachedMore, LatestEntry;
    var key := run[j].key;
    UnansweredIsUnremembered(size, hash, run, i);
    if NobodyAsks(size, hash, run, i, j, key) {
      StaysUnremembered(size, hash, run, i, j, key);
      ShowsCached(size, hash, run, j);
      CachedMoreIff(size, hash, run, j);
    } else {
      var n := FirstAsk(size, hash, run, i, j, key);
      StaysUnremembered(size, hash, run, i, n, key);
      ShowsFirstAsked(size, hash, run, n, j);
      if m :| i < m < j && FirstAsksForMore(size, hash, run, i, m, key) {
        assert m == n;
      }
      assert Asked(size, hash, run, n) != Filled(size, 0) ==> FirstAsksForMore(size, hash, run, i, n, key);
    }
  }

  /** Two discards of one input, with no other input displacing it in between,
      show different maps if and only if the first was answered with nothing and
      the history gained a map for the input before the second. */
  lemma DiscardsAgreeIff(size: nat, hash: Map -> Cksum, run: seq<TestCase>, i: nat, j: nat)
    requires ValidRun(run, size) && i < j < |run| && run[i].key == run[j].key != 0
    requires DiscardedAt(size, hash, run, i) && DiscardedAt(size, hash, run, j)
    requires forall n :: i < n < j ==> !Displaces(size, hash, run, n, run[i].key)
    ensures ShownAt(size, hash, run, j) != ShownAt(size, hash, run, i) <==>
              AnswerAt(size, hash, run, i).Nothing? && GainsMap(size, hash, run, i, j)
  {
    hide ShownAt, DiscardedAt, AnswerAt, Displaces, GainsMap;
    if AnswerAt(size, hash, run, i).Nothing? {
      DiscardShows(size, hash, run, i);
      UnansweredThenShown(size, hash, run, i, j);
    } else {
      DiscardsAgree(size, hash, run, i, j);
    }
  }

  // ------------------------------------------- how long a map is kept

  /** A key nobody ever asked for is not remembered. */
  lemma {:induction false} NeverAsked(size: nat, hash: Map -> Cksum, run: seq<TestCase>, n: nat, key: nat)
    requires ValidRun(run, size) && n <= |run|
    requires forall m: nat :: m < n ==> !Asks(size, hash, run, m, key)
    ensures Unremembered(size, hash, run, n, key)
  {
    hide Exec, Last, Play, Request;
    if n == 0 {
      assert run[..0] == [];
      StartsFresh(size, hash);
    } else {
      NeverAsked(size, hash, run, n - 1, key);
      InputsAfter(size, hash, run, n - 1);
      assert !Asks(size, hash, run, n - 1, key);
    }
  }

  /** The path cache keeps a map until a checksum congruent to its own modulo 256
      is confirmed: a discard of an input nobody asked for shows the edge map of
      the overflow-free confirm of its checksum if none congruent to it came
      since. */
  lemma ConfirmedPathKeepsItsMap(size: nat, hash: Map -> Cksum, run: seq<TestCase>, k: nat, j: nat)
    requires ValidRun(run, size) && k < j < |run| && DiscardedAt(size, hash, run, j)
    requires TrustedConfirm(size, hash, run, k) && hash(run[k].path) == hash(run[j].path)
    requires forall m :: k < m < j && TrustedConfirm(size, hash, run, m) ==>
                         hash(run[m].path) % 256 != hash(run[j].path) % 256
    requires forall m: nat :: m < j ==> !Asks(size, hash, run, m, run[j].key)
    ensures ShownAt(size, hash, run, j) == run[k].edge
  {
    hide DiscardedAt, TrustedConfirm, Asks, ShownAt, LatestEntry, Unremembered;
    NeverAsked(size, hash, run, j, run[j].key);
    assert CachedFor(size, hash, run, k, j);
    CachedIsLatest(size, hash, run, k, j, j);
    ShowsCached(size, hash, run, j);
  }

  lemma TrustedAsks(size: nat, hash: Map -> Cksum, run: seq<TestCase>, n: nat)
    requires ValidRun(run, size) && n < |run| && TrustedConfirm(size, hash, run, n) && run[n].key != 0
    ensures Asks(size, hash, run, n, run[n].key) && Asked(size, hash, run, n) == run[n].edge
  {
    hide Exec, Play;
    PlayedInTurn(size, hash, run, n);
  }

  /** The input cache keeps a map until a key congruent to its own modulo 64 asks
      for one: every later discard of an input shows the edge map of its first
      overflow-free confirm, if nothing was remembered for it before and none
      congruent to it asked since. */
  lemma ConfirmedInputKeepsItsMap(size: nat, hash: Map -> Cksum, run: seq<TestCase>, n: nat, j: nat)
    requires ValidRun(run, size) && n < j < |run| && DiscardedAt(size, hash, run, j)
    requires TrustedConfirm(size, hash, run, n) && run[n].key == run[j].key != 0
    requires forall m: nat :: m < n ==> !Asks(size, hash, run, m, run[j].key)
    requires forall m :: n < m < j && run[m].key != run[j].key && Asks(size, hash, run, m, run[m].key) ==>
                         run[m].key % 64 != run[j].key % 64
    ensures ShownAt(size, hash, run, j) == run[n].edge
  {
    TrustedAsks(size, hash, run, n);
    hide DiscardedAt, TrustedConfirm, ShownAt, Unremembered, Asked, Exec, Request;
    NeverAsked(size, hash, run, n, run[j].key);
    forall m | n < m < j ensures !Displaces(size, hash, run, m, run[j].key) {
      var asks := Asks(size, hash, run, m, run[m].key);
    }
    ShowsFirstAsked(size, hash, run, n, j);
  }

  // The run below: a path confirmed with an overflow, a discard of an input that
  // repeats it, a trusted confirm of that input on another path, and the discard
  // again.

  function Overflowed(size: nat): TestCase
    requires size > 0
  {
    TestCase(Lead(size, 1, 0), false, 0, Lead(size, 1, 0), true, None)
  }

  function Repeated(size: nat): TestCase
    requires size > 0
  {
    TestCase(Lead(size, 1, 0), false, 5, Lead(size, 1, 0), false, None)
  }

  function Another(size: nat): TestCase
    requires size > 0
  {
    TestCase(Lead(size, 2, 0), false, 5, Lead(size, 1, 0), false, None)
  }

  ghost predicate EarlyClock(c: Clock, execs: nat) {
    c.preRealExecs == 0 && c.interval == LEVEL1 && c.realExecs == execs
  }

  /** The first path was confirmed with an overflow, so nothing is remembered. */
  ghost predicate Untrusted(s: State, size: nat, execs: nat)
    requires size > 0
  {
    && Sized(s, size) && EarlyClock(s.clock, execs)
    && s.virginAtom == s.virginEdge == Lead(size, 0xfe, VIRGIN)
    && (forall c: Cksum :: !Filtered(s.checkUp, s.checkDown, c))
    && (forall k :: 0 <= k < CACHE_SLOTS ==> s.cache[k].Vacant?)
    && (forall k :: 0 <= k < INPUT_SLOTS ==> s.inputs[k].Vacant?)
  }

  lemma OverflowIsKept(size: nat, hash: Map -> Cksum)
    requires size > 0
    ensures var p, s := AfterPath(Init(size), hash, Lead(size, 1, 0), false, 0), Init(size);
            && p.verdict == Confirm && Sized(p.state, size) && EarlyClock(p.state.clock, 1)
            && p.state.virginAtom == Lead(size, 0xfe, VIRGIN) && p.state.virginEdge == Lead(size, VIRGIN, VIRGIN)
            && p.state.checkUp == s.checkUp && p.state.checkDown == s.checkDown
            && p.state.cache == s.cache && p.state.inputs == s.inputs
  {
    LeadFacts(size);
    LeadFilled(size, VIRGIN);
    hide NewBits, Reached, Lead, Filled, Classified, Cleared;
  }

  lemma OverflowIsUntrusted(size: nat, hash: Map -> Cksum)
    requires size > 0
    ensures Untrusted(Play(Init(size), hash, Overflowed(size)).state, size, 2)
  {
    OverflowIsKept(size, hash);
    LeadFacts(size);
    hide NewBits, Reached, AfterPath, AfterSample, Lead, Filled, Classified, Cleared;
  }

  lemma NothingIsRemembered(s: State, size: nat, c: Cksum)
    requires size > 0 && Untrusted(s, size, 2)
    ensures AnswerFor(s.cache, s.inputs, size, c, 5) == Nothing(Filled(size, 0))
  {
  }

  lemma RepeatIsOld(s: State, size: nat, hash: Map -> Cksum)
    requires size > 0 && Untrusted(s, size, 2)
    ensures RouteOf(s, hash(Lead(size, 1, 0)), Classified(Lead(size, 1, 0))) == OldPath
    ensures Cleared(PurgedAtom(s), Classified(Lead(size, 1, 0))) == s.virginAtom
    ensures TickedClock(s, CountExec(s.stats)) == s.clock.(realExecs := 3)
  {
    LeadFacts(size);
    hide NewBits, Reached, Lead, Classified, Cleared;
  }

  lemma RepeatIsUnanswered(s: State, size: nat, hash: Map -> Cksum)
    requires size > 0 && Untrusted(s, size, 2)
    ensures var o := Play(s, hash, Repeated(size));
            o.verdict == Discard && o.shown == Filled(size, 0) && Untrusted(o.state, size, 3)
  {
    RepeatIsOld(s, size, hash);
    NothingIsRemembered(s, size, hash(Lead(size, 1, 0)));
    hide RouteOf, AnswerFor, TickedClock, PurgedAtom, AfterConfirm, AfterSample;
    hide NewBits, Reached, Lead, Filled, Classified, Cleared;
    assert AfterPath(s, hash, Lead(size, 1, 0), false, 5).verdict == Discard;
  }

  /** The second confirm left the input's map behind. */
  ghost predicate Remembers(s: State, size: nat)
    requires size > 0
  {
    && Sized(s, size) && EarlyClock(s.clock, 5) && s.virginAtom == Lead(size, 0xfc, VIRGIN)
    && s.inputs[InputSlot(5)] == Holds(5, Lead(size, 1, 0))
  }

  lemma AnotherIsRemembered(s: State, size: nat, hash: Map -> Cksum)
    requires size > 0 && Untrusted(s, size, 3)
    ensures Remembers(Play(s, hash, Another(size)).state, size)
  {
    LeadFacts(size);
    hide NewBits, Reached, AfterSample, Lead, Filled, Classified, Cleared;
    assert AfterPath(s, hash, Lead(size, 2, 0), false, 5).verdict == Confirm;
  }

  lemma RepeatIsAnswered(s: State, size: nat, hash: Map -> Cksum)
    requires size > 0 && Remembers(s, size)
    ensures var o := Play(s, hash, Repeated(size)); o.verdict == Discard && o.shown == Lead(size, 1, 0)
  {
    LeadFacts(size);
    hide NewBits, Reached, AfterConfirm, AfterSample, Lead, Filled, Classified, Cleared;
    assert AfterPath(s, hash, Lead(size, 1, 0), false, 5).verdict == Discard;
  }

  function FourCases(size: nat): (run: seq<TestCase>)
    requires size > 0
    ensures ValidRun(run, size) && |run| == 4
  {
    [Overflowed(size), Repeated(size), Another(size), Repeated(size)]
  }

  /** At every map size and under any checksum: one input, discarded twice with no
      other input in between, is shown an empty map and then one that is not. */
  lemma DiscardsCanDiffer(size: nat, hash: Map -> Cksum)
    requires size > 0
    ensures var run := FourCases(size);
            && run[1] == run[3] && DiscardedAt(size, hash, run, 1) && DiscardedAt(size, hash, run, 3)
            && ShownAt(size, hash, run, 1) == Filled(size, 0) && ShownAt(size, hash, run, 3) == Lead(size, 1, 0)
  {
    hide Exec, Last, Play, Untrusted, Remembers, Overflowed, Repeated, Another, Lead;
    var run := FourCases(size);
    StartsFresh(size, hash);
    assert run[..0] == [];
    PlayedInTurn(size, hash, run, 0);
    OverflowIsUntrusted(size, hash);
    PlayedInTurn(size, hash, run, 1);
    RepeatIsUnanswered(Exec(size, hash, run[..1]), size, hash);
    PlayedInTurn(size, hash, run, 2);
    AnotherIsRemembered(Exec(size, hash, run[..2]), size, hash);
    PlayedInTurn(size, hash, run, 3);
    RepeatIsAnswered(Exec(size, hash, run[..3]), size, hash);
  }
}
