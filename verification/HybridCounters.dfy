/** What each of the engine's counters counts: the test cases of the run to which
    the event it is named after happened. */
module HybridCounters {
  import opened Common
  import opened Coverage
  import opened Hybrid
  import opened HybridRuns
  import HybridShadow

  datatype Event =
    | WasFiltered        // its checksum was filtered
    | WasOld             // not filtered, and nothing new in the path map
    | WasConfirmed
    | FromItsInput       // discarded, and a map is remembered for its key
    | FromItsPath        // else, and one is cached for its checksum
    | FromNothing        // else
    | WasSampled         // discarded and sampled without overflow
    | SampleOverflowed
    | SampleHadNews      // the sample would have shown AFL++ a new bit
    | SampleHadTuple     // or a new position
    | FilterHadNews      // and the input had been filtered

  function Counter(e: Event, s: State): nat {
    match e
    case WasFiltered => s.stats.filtered
    case WasOld => s.stats.oldPath
    case WasConfirmed => s.stats.confirmed
    case FromItsInput => s.stats.inputHits
    case FromItsPath => s.stats.cacheHits
    case FromNothing => s.stats.empty
    case WasSampled => s.samples.sampled
    case SampleOverflowed => s.samples.overflow
    case SampleHadNews => s.samples.novel
    case SampleHadTuple => s.samples.novelTuples
    case FilterHadNews => s.samples.novelFiltered
  }

  predicate Remembered(slots: seq<Slot>, slot: nat, key: nat)
    requires slot < |slots|
  {
    slots[slot].Holds? && slots[slot].key == key
  }

  /** The event happens to test case `t`, played on `s` while AFL++ holds `afl`. */
  predicate Happens(e: Event, s: State, afl: Map, hash: Map -> Cksum, t: TestCase)
    requires Sized(s, |t.path|) && Fits(t, |t.path|) && |afl| == |t.path|
  {
    var c := hash(t.path);
    var discarded := Play(s, hash, t).verdict == Discard;
    var filtered := s.checkUp[c / 0x1_0000] && s.checkDown[c % 0x1_0000];
    var byInput := t.key != 0 && Remembered(s.inputs, t.key % 64, t.key);
    var byPath := Remembered(s.cache, c % 256, c);
    var sampled := discarded && t.sample.Some? && !t.sample.value.overflow;
    match e
    case WasFiltered => filtered
    case WasOld => discarded && !filtered
    case WasConfirmed => !discarded
    case FromItsInput => discarded && byInput
    case FromItsPath => discarded && !byInput && byPath
    case FromNothing => discarded && !byInput && !byPath
    case WasSampled => sampled
    case SampleOverflowed => discarded && t.sample.Some? && t.sample.value.overflow
    case SampleHadNews => sampled && NewBits(afl, Classified(t.sample.value.m)) != 0
    case SampleHadTuple => sampled && NewBits(afl, Classified(t.sample.value.m)) == 2
    case FilterHadNews => sampled && filtered && NewBits(afl, Classified(t.sample.value.m)) != 0
  }

  /** The verdict, by the filter and the path map. */
  lemma PathCounts(s: State, hash: Map -> Cksum, t: TestCase, e: Event)
    requires Sized(s, |t.path|) && Fits(t, |t.path|)
    requires e.WasFiltered? || e.WasOld? || e.WasConfirmed? || e.FromItsInput? || e.FromItsPath? || e.FromNothing?
    ensures Counter(e, Play(s, hash, t).state) == Counter(e, s) + One(Happens(e, s, s.virginEdge, hash, t))
  {
    hide NewBits, TickedClock, PurgedAtom, Remember, Classified, Cleared;
  }

  lemma SampleCounts(s: State, hash: Map -> Cksum, t: TestCase, e: Event)
    requires Sized(s, |t.path|) && Fits(t, |t.path|)
    requires e.WasSampled? || e.SampleOverflowed? || e.SampleHadNews? || e.SampleHadTuple? || e.FilterHadNews?
    ensures Counter(e, Play(s, hash, t).state) == Counter(e, s) + One(Happens(e, s, s.virginEdge, hash, t))
  {
    hide NewBits, TickedClock, PurgedAtom, Remember, AnswerFor, Classified, Cleared;
  }

  predicate HappensAt(e: Event, size: nat, hash: Map -> Cksum, run: seq<TestCase>, n: nat)
    requires ValidRun(run, size) && n < |run|
  {
    Happens(e, Exec(size, hash, run[..n]), AflVirgin(size, hash, run[..n]), hash, run[n])
  }

  /** The test cases before `n` to which the event happened. */
  function Cases(e: Event, size: nat, hash: Map -> Cksum, run: seq<TestCase>, n: nat): set<nat>
    requires ValidRun(run, size) && n <= |run|
  {
    set k: nat | k < n && HappensAt(e, size, hash, run, k)
  }

  lemma CountStep(e: Event, size: nat, hash: Map -> Cksum, run: seq<TestCase>, n: nat)
    requires ValidRun(run, size) && n < |run|
    ensures Counter(e, Exec(size, hash, run[..n + 1])) ==
            Counter(e, Exec(size, hash, run[..n])) + One(HappensAt(e, size, hash, run, n))
  {
    hide Exec, Last, Play, Counter, AflVirgin, Happens;
    PlayedInTurn(size, hash, run, n);
    HybridShadow.Shadow(size, hash, run[..n]);
    var s := Exec(size, hash, run[..n]);
    if e.WasSampled? || e.SampleOverflowed? || e.SampleHadNews? || e.SampleHadTuple? || e.FilterHadNews? {
      SampleCounts(s, hash, run[n], e);
    } else {
      PathCounts(s, hash, run[n], e);
    }
  }

  lemma CasesNext(e: Event, size: nat, hash: Map -> Cksum, run: seq<TestCase>, n: nat)
    requires ValidRun(run, size) && n < |run|
    ensures n !in Cases(e, size, hash, run, n)
    ensures Cases(e, size, hash, run, n + 1) ==
            Cases(e, size, hash, run, n) + (if HappensAt(e, size, hash, run, n) then {n} else {})
  {
    hide HappensAt;
  }

  lemma NothingCounted(e: Event, size: nat, hash: Map -> Cksum)
    ensures Counter(e, Exec(size, hash, [])) == 0
  {
    StartsFresh(size, hash);
    hide Play;
  }

  /** After every run every counter is the number of test cases its event happened
      to; what a sample would have shown AFL++ is judged by the map AFL++ holds. */
  lemma {:induction false} CountersCount(e: Event, size: nat, hash: Map -> Cksum, run: seq<TestCase>, n: nat)
    requires ValidRun(run, size) && n <= |run|
    ensures Counter(e, Exec(size, hash, run[..n])) == |Cases(e, size, hash, run, n)|
    decreases n
  {
    hide Exec, Counter, HappensAt, Cases;
    if n == 0 {
      assert run[..0] == [];
      NothingCounted(e, size, hash);
      NoCases(e, size, hash, run);
    } else {
      CountersCount(e, size, hash, run, n - 1);
      CountStep(e, size, hash, run, n - 1);
      CasesNext(e, size, hash, run, n - 1);
    }
  }

  lemma NoCases(e: Event, size: nat, hash: Map -> Cksum, run: seq<TestCase>)
    requires ValidRun(run, size)
    ensures Cases(e, size, hash, run, 0) == {}
  {
  }
}
