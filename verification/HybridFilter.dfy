/** The checksum filter against the history of the run: it never forgets a
    path that led nowhere, and it filters exactly the checksums whose two halves
    each occur in some marked one. */
module HybridFilter {
  import opened Coverage
  import opened Hybrid
  import opened HybridRuns
  import HybridShadow

  /** The run's last test case was confirmed and showed AFL++ nothing new. */
  predicate LedNowhere(size: nat, hash: Map -> Cksum, run: seq<TestCase>)
    requires ValidRun(run, size) && run != []
  {
    Last(size, hash, run).verdict == Confirm && AflVerdict(size, hash, run) == 0
  }

  /** The checksums of every path that led nowhere. */
  function Marked(size: nat, hash: Map -> Cksum, run: seq<TestCase>): (marks: set<Cksum>)
    requires ValidRun(run, size)
  {
    if run == [] then {}
    else Marked(size, hash, run[..|run| - 1]) +
         (if LedNowhere(size, hash, run) then {hash(run[|run| - 1].path)} else {})
  }

  ghost predicate SomeHigh(marks: set<Cksum>, h: nat) { exists c :: c in marks && High(c) == h }
  ghost predicate SomeLow(marks: set<Cksum>, l: nat) { exists c :: c in marks && Low(c) == l }

  ghost predicate TablesMatch(up: seq<bool>, down: seq<bool>, marks: set<Cksum>) {
    && |up| == |down| == 0x1_0000
    && (forall h: nat :: h < 0x1_0000 ==> (up[h] <==> SomeHigh(marks, h)))
    && (forall l: nat :: l < 0x1_0000 ==> (down[l] <==> SomeLow(marks, l)))
  }

  lemma MarkingMatches(up: seq<bool>, down: seq<bool>, marks: set<Cksum>, c: Cksum)
    requires TablesMatch(up, down, marks)
    ensures TablesMatch(up[High(c) := true], down[Low(c) := true], marks + {c})
  {
    hide High, Low;
    var up', down', marks' := up[High(c) := true], down[Low(c) := true], marks + {c};
    assert c in marks';
    forall h: nat | h < 0x1_0000 ensures up'[h] <==> SomeHigh(marks', h) {
      if SomeHigh(marks, h) {
        var d :| d in marks && High(d) == h;
        assert d in marks' && High(d) == h;
      }
    }
    forall l: nat | l < 0x1_0000 ensures down'[l] <==> SomeLow(marks', l) {
      if SomeLow(marks, l) {
        var d :| d in marks && Low(d) == l;
        assert d in marks' && Low(d) == l;
      }
    }
  }

  /** A test case marks its checksum exactly when its confirm finds nothing. */
  lemma PlayMarks(s: State, hash: Map -> Cksum, t: TestCase)
    requires Sized(s, |t.path|) && Fits(t, |t.path|)
    ensures var o := Play(s, hash, t);
            var c := hash(t.path);
            if o.verdict == Confirm && NewBits(s.virginEdge, Classified(o.shown)) == 0
            then o.state.checkUp == s.checkUp[High(c) := true] && o.state.checkDown == s.checkDown[Low(c) := true]
            else o.state.checkUp == s.checkUp && o.state.checkDown == s.checkDown
  {
    hide NewBits, TickedClock, PurgedAtom;
  }

  /** The last test case marks its checksum exactly when it led nowhere. */
  lemma LastMarks(size: nat, hash: Map -> Cksum, run: seq<TestCase>)
    requires ValidRun(run, size) && run != []
    ensures var s, t := Exec(size, hash, run[..|run| - 1]), Exec(size, hash, run);
            var c := hash(run[|run| - 1].path);
            if LedNowhere(size, hash, run)
            then t.checkUp == s.checkUp[High(c) := true] && t.checkDown == s.checkDown[Low(c) := true]
            else t.checkUp == s.checkUp && t.checkDown == s.checkDown
  {
    var before, t := run[..|run| - 1], run[|run| - 1];
    assert Fits(t, size);
    hide Play, NewBits, Fits, Cleared, High, Low;
    PlayMarks(Exec(size, hash, before), hash, t);
    HybridShadow.Shadow(size, hash, before);
  }

  lemma MarkedUnfolds(size: nat, hash: Map -> Cksum, run: seq<TestCase>)
    requires ValidRun(run, size) && run != []
    ensures var marks := Marked(size, hash, run[..|run| - 1]);
            Marked(size, hash, run) ==
              if LedNowhere(size, hash, run) then marks + {hash(run[|run| - 1].path)} else marks
  {
    hide LedNowhere;
  }

  lemma NothingMarked(size: nat, hash: Map -> Cksum)
    ensures var s := Exec(size, hash, []); TablesMatch(s.checkUp, s.checkDown, Marked(size, hash, []))
  {
    StartsFresh(size, hash);
    hide Play;
  }

  lemma {:induction false} TablesRecordHistory(size: nat, hash: Map -> Cksum, run: seq<TestCase>)
    requires ValidRun(run, size)
    ensures var s := Exec(size, hash, run);
            TablesMatch(s.checkUp, s.checkDown, Marked(size, hash, run))
    decreases |run|
  {
    hide Exec, Marked, LedNowhere, TablesMatch, High, Low;
    if run == [] {
      NothingMarked(size, hash);
    } else {
      var before := run[..|run| - 1];
      var s := Exec(size, hash, before);
      TablesRecordHistory(size, hash, before);
      LastMarks(size, hash, run);
      MarkedUnfolds(size, hash, run);
      MarkingMatches(s.checkUp, s.checkDown, Marked(size, hash, before), hash(run[|run| - 1].path));
    }
  }

  /** After every run, what is filtered is decided by the history alone. */
  lemma FilteredIff(size: nat, hash: Map -> Cksum, run: seq<TestCase>, c: Cksum)
    requires ValidRun(run, size)
    ensures var s := Exec(size, hash, run);
            var marks := Marked(size, hash, run);
            Filtered(s.checkUp, s.checkDown, c) <==>
              && (exists a :: a in marks && a / 0x1_0000 == c / 0x1_0000)
              && (exists b :: b in marks && b % 0x1_0000 == c % 0x1_0000)
  {
    TablesRecordHistory(size, hash, run);
    var marks := Marked(size, hash, run);
    assert SomeHigh(marks, High(c)) <==> exists a :: a in marks && a / 0x1_0000 == c / 0x1_0000;
    assert SomeLow(marks, Low(c)) <==> exists b :: b in marks && b % 0x1_0000 == c % 0x1_0000;
  }

  lemma {:induction false} MarksStay(size: nat, hash: Map -> Cksum, run: seq<TestCase>, i: nat, j: nat)
    requires ValidRun(run, size) && i <= j <= |run|
    ensures Marked(size, hash, run[..i]) <= Marked(size, hash, run[..j])
    decreases j - i
  {
    hide LedNowhere;
    if i < j {
      MarksStay(size, hash, run, i, j - 1);
      assert run[..j][..j - 1] == run[..j - 1];
    }
  }

  lemma FilteredIsDiscarded(s: State, hash: Map -> Cksum, t: TestCase)
    requires Sized(s, |t.path|) && Fits(t, |t.path|)
    requires Filtered(s.checkUp, s.checkDown, hash(t.path))
    ensures Play(s, hash, t).verdict == Discard
  {
    hide NewBits, TickedClock, PurgedAtom;
  }

  /** Test case `i` of a run was confirmed and showed AFL++ nothing new. */
  predicate LedNowhereAt(size: nat, hash: Map -> Cksum, run: seq<TestCase>, i: nat)
    requires ValidRun(run, size) && i < |run|
  {
    LedNowhere(size, hash, run[..i + 1])
  }

  lemma MarkedAt(size: nat, hash: Map -> Cksum, run: seq<TestCase>, i: nat)
    requires ValidRun(run, size) && i < |run| && LedNowhereAt(size, hash, run, i)
    ensures hash(run[i].path) in Marked(size, hash, run[..i + 1])
  {
    hide LedNowhere;
  }

  /** Once a path led nowhere, every later execution with its checksum is
      discarded, through any number of purges. */
  lemma NeverForgets(size: nat, hash: Map -> Cksum, run: seq<TestCase>, i: nat, j: nat)
    requires ValidRun(run, size) && i < j < |run|
    requires LedNowhereAt(size, hash, run, i)
    requires hash(run[j].path) == hash(run[i].path)
    ensures DiscardedAt(size, hash, run, j)
  {
    hide LedNowhereAt, Marked, Exec, Last, Play, Filtered;
    var c := hash(run[i].path);
    MarkedAt(size, hash, run, i);
    MarksStay(size, hash, run, i + 1, j);
    FilteredIff(size, hash, run[..j], c);
    assert c in Marked(size, hash, run[..j]) && c / 0x1_0000 == c / 0x1_0000 && c % 0x1_0000 == c % 0x1_0000;
    PlayedInTurn(size, hash, run, j);
    FilteredIsDiscarded(Exec(size, hash, run[..j]), hash, run[j]);
  }
}
