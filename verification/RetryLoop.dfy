/** The proxy's retry loop over one test case, driven by the governor: hidden
    retries one rung down while the precise pass overflows, then one run pinned
    to the floor. */
module RetryLoop {
  import opened Governor

  datatype Attempt = Attempt(idx: nat, overflow: bool)

  /** The attempts from attempt `k` on, and the governor after them. Whether an
      attempt overflows is up to the execution, `overflows(k)`. */
  function Attempts(g: Gov, mode: Mode, overflows: nat -> bool, k: nat, repetitions: nat, forced: bool)
      : (seq<Attempt>, Gov)
    decreases MAX_REPETITIONS + 1 - repetitions, !forced
  {
    var (idx, applied) := Apply(g, mode);
    var overflow := overflows(k);
    var g' := OnResult(applied, mode, overflow);
    if ShouldRetry(applied, mode, overflow, repetitions) then
      var (rest, h) := Attempts(g', mode, overflows, k + 1, repetitions + 1, forced);
      ([Attempt(idx, overflow)] + rest, h)
    else if overflow && mode.Addr? && !forced && !AtFloor(g', mode) && repetitions >= MAX_REPETITIONS then
      var (rest, h) := Attempts(ForceMin(g'), mode, overflows, k + 1, repetitions, true);
      ([Attempt(idx, overflow)] + rest, h)
    else
      ([Attempt(idx, overflow)], g')
  }

  /** One turn of the loop: the attempt made, and what remains after it. */
  lemma OneTurn(g: Gov, mode: Mode, overflows: nat -> bool, k: nat, repetitions: nat, forced: bool)
    ensures var (idx, applied) := Apply(g, mode);
            var overflow := overflows(k);
            var g' := OnResult(applied, mode, overflow);
            var all := Attempts(g, mode, overflows, k, repetitions, forced);
            var made := [Attempt(idx, overflow)];
            if ShouldRetry(applied, mode, overflow, repetitions) then
              var rest := Attempts(g', mode, overflows, k + 1, repetitions + 1, forced);
              all == (made + rest.0, rest.1)
            else if overflow && mode.Addr? && !forced && !AtFloor(g', mode) && repetitions >= MAX_REPETITIONS then
              var rest := Attempts(ForceMin(g'), mode, overflows, k + 1, repetitions, true);
              all == (made + rest.0, rest.1)
            else all == (made, g')
  {
    hide OnResult, Apply;
  }

  function TestCase(g: Gov, mode: Mode, overflows: nat -> bool): (seq<Attempt>, Gov) {
    Attempts(g, mode, overflows, 0, 0, false)
  }

  /** The indices tried when every attempt overflows, from a starting index. */
  function Schedule(k: nat): (s: seq<nat>) {
    if k == 0 then [0]
    else if k == 1 then [1, 0]
    else if k == 2 then [2, 1, 0]
    else if k == 3 then [3, 2, 1, 0]
    else if k == 4 then [4, 3, 2, 1]
    else [k, k - 1, k - 2, k - 3, 0]
  }

  /** How many attempts of the schedule are made: up to the first clean one. */
  function Cut(n: nat, overflows: nat -> bool, k: nat): (c: nat)
    requires n > 0
    ensures 1 <= c <= n
    decreases n
  {
    if n == 1 || !overflows(k) then 1 else 1 + Cut(n - 1, overflows, k + 1)
  }

  ghost predicate Follows(attempts: seq<Attempt>, schedule: seq<nat>, overflows: nat -> bool, k: nat) {
    && schedule != []
    && |attempts| == Cut(|schedule|, overflows, k)
    && forall i :: 0 <= i < |attempts| ==> attempts[i] == Attempt(schedule[i], overflows(k + i))
  }

  lemma FollowsOn(idx: nat, attempts: seq<Attempt>, schedule: seq<nat>, overflows: nat -> bool, k: nat)
    requires Follows(attempts, schedule, overflows, k + 1) && overflows(k)
    ensures Follows([Attempt(idx, true)] + attempts, [idx] + schedule, overflows, k)
  {
    var all := [Attempt(idx, true)] + attempts;
    forall i | 0 <= i < |all| ensures all[i] == Attempt(([idx] + schedule)[i], overflows(k + i)) {
      if i > 0 { assert all[i] == attempts[i - 1]; }
    }
  }

  /** A governor ready for a precise test case. */
  predicate Ready(g: Gov) { g.enabled && !g.forceMin }

  /** The schedule left after `r` retries, at index `k`. */
  function Remaining(k: nat, r: nat, forced: bool): seq<nat>
    requires r <= MAX_REPETITIONS
    decreases MAX_REPETITIONS - r
  {
    if forced then [0]
    else if r < MAX_REPETITIONS && k > 0 then [k] + Remaining(k - 1, r + 1, false)
    else if k > 1 then [k, 0]
    else [k]
  }

  lemma FullSchedule(k: nat)
    ensures Remaining(k, 0, false) == Schedule(k)
  {
    if k > 0 {
      assert Remaining(k, 0, false) == [k] + Remaining(k - 1, 1, false);
      if k > 1 {
        assert Remaining(k - 1, 1, false) == [k - 1] + Remaining(k - 2, 2, false);
        if k > 2 {
          assert Remaining(k - 2, 2, false) == [k - 2] + Remaining(k - 3, 3, false);
        }
      }
    }
  }

  /** A forced run happens once, with the retries used up. */
  lemma ForcedAttempt(g: Gov, overflows: nat -> bool, k: nat)
    requires g.enabled && g.forceMin
    ensures var r := Attempts(g, Addr, overflows, k, MAX_REPETITIONS, true);
            Follows(r.0, [0], overflows, k) && Ready(r.1)
  {
  }

  lemma {:induction false} AttemptsFollow(g: Gov, overflows: nat -> bool, k: nat, r: nat)
    requires Ready(g) && r <= MAX_REPETITIONS
    ensures var res := Attempts(g, Addr, overflows, k, r, false);
            Follows(res.0, Remaining(g.addr.idx, r, false), overflows, k) && Ready(res.1)
    decreases MAX_REPETITIONS - r
  {
    var idx := g.addr.idx;
    var g' := OnResult(g, Addr, overflows(k));
    if overflows(k) {
      if r < MAX_REPETITIONS && idx > 0 {
        AttemptsFollow(g', overflows, k + 1, r + 1);
        var rest := Attempts(g', Addr, overflows, k + 1, r + 1, false).0;
        FollowsOn(idx, rest, Remaining(idx - 1, r + 1, false), overflows, k);
      } else if idx > 1 {
        ForcedAttempt(ForceMin(g'), overflows, k + 1);
        FollowsOn(idx, Attempts(ForceMin(g'), Addr, overflows, k + 1, r, true).0, [0], overflows, k);
        assert [idx] + [0] == [idx, 0];
      }
    }
  }

  /** The whole behaviour of the loop in the precise mode, for every pattern of
      overflows: the schedule of the starting index, cut at the first clean
      attempt. */
  lemma PreciseTestCase(g: Gov, overflows: nat -> bool)
    requires Ready(g)
    ensures var r := TestCase(g, Addr, overflows);
            Follows(r.0, Schedule(g.addr.idx), overflows, 0) && Ready(r.1)
  {
    AttemptsFollow(g, overflows, 0, 0);
    FullSchedule(g.addr.idx);
  }

  lemma {:induction false} CutAtFirstClean(n: nat, overflows: nat -> bool, k: nat)
    requires n > 0
    ensures forall j: nat :: k <= j < k + Cut(n, overflows, k) - 1 ==> overflows(j)
    ensures Cut(n, overflows, k) < n ==> !overflows(k + Cut(n, overflows, k) - 1)
    decreases n
  {
    if n > 1 && overflows(k) {
      CutAtFirstClean(n - 1, overflows, k + 1);
    }
  }

  lemma ScheduleFalls(k: nat)
    ensures 1 <= |Schedule(k)| <= 5 && Schedule(k)[0] == k
    ensures forall i, j :: 0 <= i < j < |Schedule(k)| ==> Schedule(k)[j] < Schedule(k)[i]
  {
  }

  /** What follows for AFL++'s test case: at most five attempts at strictly
      falling indices, all but the last overflowed, and no forced run pending
      when the next test case starts. */
  lemma RetriesAreBounded(g: Gov, overflows: nat -> bool)
    requires Ready(g)
    ensures var (attempts, h) := TestCase(g, Addr, overflows);
            && 1 <= |attempts| <= 5
            && attempts[0].idx == g.addr.idx
            && (forall i, j :: 0 <= i < j < |attempts| ==> attempts[j].idx < attempts[i].idx)
            && (forall i :: 0 <= i < |attempts| - 1 ==> attempts[i].overflow)
            && (attempts[|attempts| - 1].overflow ==> |attempts| == |Schedule(g.addr.idx)|)
            && !h.forceMin
  {
    hide TestCase, Cut, Schedule;
    PreciseTestCase(g, overflows);
    ScheduleFalls(g.addr.idx);
    CutAtFirstClean(|Schedule(g.addr.idx)|, overflows, 0);
  }

  /** Every attempt overflowing runs the whole schedule: from index 4 the floor
      is never run, because the governor is already there when asked. */
  lemma AllOverflow(g: Gov, overflows: nat -> bool)
    requires Ready(g) && forall k :: overflows(k)
    ensures var attempts := TestCase(g, Addr, overflows).0;
            && |attempts| == |Schedule(g.addr.idx)|
            && forall i :: 0 <= i < |attempts| ==> attempts[i] == Attempt(Schedule(g.addr.idx)[i], true)
  {
    hide TestCase, Cut, Schedule;
    PreciseTestCase(g, overflows);
    CutAtFirstClean(|Schedule(g.addr.idx)|, overflows, 0);
  }

  /** The path mode never retries. */
  lemma PathTestCase(g: Gov, overflows: nat -> bool)
    requires Ready(g)
    ensures var r := TestCase(g, Atom, overflows);
            r.0 == [Attempt(g.atom.idx, overflows(0))] && Ready(r.1)
  {
  }

  /** A disabled governor runs every test case once. */
  lemma DisabledTestCase(g: Gov, mode: Mode, overflows: nat -> bool)
    requires !g.enabled
    ensures var r := TestCase(g, mode, overflows);
            |r.0| == 1 && r.1 == g && AtFloor(g, mode)
  {
  }

  // ------------------------------------------------ where the index ends

  function Overflowing(attempts: seq<Attempt>): nat {
    if attempts == [] then 0
    else (if attempts[0].overflow then 1 else 0) + Overflowing(attempts[1..])
  }

  /** `n` rungs below `idx`, stopping at the floor. */
  function Below(idx: nat, n: nat): nat { if n <= idx then idx - n else 0 }

  lemma OverflowingNext(idx: nat, overflow: bool, rest: seq<Attempt>)
    ensures Overflowing([Attempt(idx, overflow)] + rest) == (if overflow then 1 else 0) + Overflowing(rest)
  {
    assert ([Attempt(idx, overflow)] + rest)[1..] == rest;
  }

  /** One result of an enabled governor whose window is not about to close. */
  lemma OneResult(g: Gov, overflow: bool)
    requires g.enabled && g.interval >= MIN_INTERVAL && (overflow || g.addr.clean == 0)
    ensures var h := OnResult(g, Addr, overflow);
            && h.enabled && h.forceMin == g.forceMin && h.interval >= MIN_INTERVAL
            && h.addr.idx == Below(g.addr.idx, if overflow then 1 else 0)
            && (overflow ==> h.addr.clean == 0)
  {
    hide Window;
  }

  lemma {:induction false} Descends(g: Gov, overflows: nat -> bool, k: nat, r: nat, forced: bool)
    requires g.enabled && g.interval >= MIN_INTERVAL && (overflows(k) || g.addr.clean == 0)
    ensures var (attempts, h) := Attempts(g, Addr, overflows, k, r, forced);
            h.addr.idx == Below(g.addr.idx, Overflowing(attempts))
    decreases MAX_REPETITIONS + 1 - r, !forced
  {
    hide OnResult, Overflowing;
    var (idx, applied) := Apply(g, Addr);
    OneResult(applied, overflows(k));
    OneTurn(g, Addr, overflows, k, r, forced);
    OverflowingNext(idx, overflows(k), []);
    NothingOverflows();
    var g' := OnResult(applied, Addr, overflows(k));
    assert [Attempt(idx, overflows(k))] + [] == [Attempt(idx, overflows(k))];
    if ShouldRetry(applied, Addr, overflows(k), r) {
      Descends(g', overflows, k + 1, r + 1, forced);
      OverflowingNext(idx, overflows(k), Attempts(g', Addr, overflows, k + 1, r + 1, forced).0);
    } else if overflows(k) && !forced && !AtFloor(g', Addr) && r >= MAX_REPETITIONS {
      Descends(ForceMin(g'), overflows, k + 1, r, true);
      OverflowingNext(idx, overflows(k), Attempts(ForceMin(g'), Addr, overflows, k + 1, r, true).0);
    }
  }

  lemma NothingOverflows()
    ensures Overflowing([]) == 0
  {
  }

  /** A test case whose first attempt overflows ends one rung down for each of
      its overflowing attempts, the forced run at the floor included. */
  lemma EveryOverflowCounts(g: Gov, overflows: nat -> bool)
    requires Ready(g) && g.interval >= MIN_INTERVAL && overflows(0)
    ensures var (attempts, h) := TestCase(g, Addr, overflows);
            h.addr.idx == Below(g.addr.idx, Overflowing(attempts))
  {
    Descends(g, overflows, 0, 0, false);
  }

  /** The forced run leaves the index where the retries put it if and only if it
      does not overflow itself: an overflow at the floor is counted against an
      index it did not run at. */
  lemma ForcedRunCountsIff(g: Gov, overflows: nat -> bool)
    requires Ready(g) && g.interval >= MIN_INTERVAL && g.addr.idx >= 5
    requires overflows(0) && overflows(1) && overflows(2) && overflows(3)
    ensures var (attempts, h) := TestCase(g, Addr, overflows);
            && |attempts| == 5 && attempts[4] == Attempt(0, overflows(4))
            && (h.addr.idx == g.addr.idx - 4 <==> !overflows(4))
            && (h.addr.idx == g.addr.idx - 5 <==> overflows(4))
  {
    PreciseTestCase(g, overflows);
    EveryOverflowCounts(g, overflows);
    var attempts := TestCase(g, Addr, overflows).0;
    hide TestCase;
    assert |attempts| == 5;
    FiveAttempts(attempts);
  }

  lemma FiveAttempts(attempts: seq<Attempt>)
    requires |attempts| == 5 && forall i :: 0 <= i < 4 ==> attempts[i].overflow
    ensures Overflowing(attempts) == if attempts[4].overflow then 5 else 4
  {
    assert attempts[1..][1..] == attempts[2..] && attempts[2..][1..] == attempts[3..];
    assert attempts[3..][1..] == attempts[4..] && attempts[4..][1..] == [];
    assert Overflowing(attempts[4..]) == if attempts[4].overflow then 1 else 0;
    assert Overflowing(attempts[2..]) == 2 + Overflowing(attempts[4..]);
  }
}
