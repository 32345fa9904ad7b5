/** The governor's state as it is updated, its calibration ramp and the proxy's
    retry loop, each proved against `Governor` and `RetryLoop`. */
module FreqGovernor {
  import opened Governor
  import opened RetryLoop

  class GovernorState {
    var search: map<Mode, Search>
    var interval: nat
    var forceMinPending: bool
    const tableSize: nat
    const addrOnly: bool
    const enabled: bool

    ghost predicate Valid()
      reads this
    {
      Atom in search && Addr in search && (enabled ==> tableSize > 0)
    }

    ghost function Abs(): Gov
      requires Valid()
      reads this
    {
      Gov(tableSize, search[Atom], search[Addr], interval, addrOnly, enabled, forceMinPending)
    }

    constructor (tableSize: nat, addrOnly: bool, enabled: bool)
      requires enabled <==> tableSize > 0
      ensures Valid() && Abs() == if enabled then Init(tableSize, addrOnly) else Disabled(addrOnly)
    {
      this.tableSize, this.addrOnly, this.enabled := tableSize, addrOnly, enabled;
      var s := Search(if enabled then tableSize - 1 else 0, 0, 0, 0, 0, 0);
      search := map[Atom := s, Addr := s];
      interval := if enabled && !addrOnly then MAX_INTERVAL else MIN_INTERVAL;
      forceMinPending := false;
    }

    method OnResult(mode: Mode, overflow: bool)
      requires Valid()
      modifies this`search, this`interval
      ensures Valid() && Abs() == Governor.OnResult(old(Abs()), mode, overflow)
    {
      if !enabled { return; }
      var s := search[mode];
      s := s.(total := s.total + 1);
      if overflow {
        s := s.(overflowed := s.overflowed + 1);
        if s.idx > 0 { s := s.(idx := s.idx - 1); }
        s := s.(clean := 0);
      } else {
        s := s.(clean := s.clean + 1);
        if s.clean >= interval {
          s := s.(stable := s.stable + 1, idxSum := s.idxSum + s.idx);
          if s.idx < tableSize - 1 { s := s.(idx := s.idx + 1); }
          s := s.(clean := 0);
        }
      }
      assert s == Stepped(search[mode], overflow, interval, tableSize);
      search := search[mode := s];
      var atom := search[Atom];
      if !addrOnly && atom.overflowed > 0 {
        var fi := (atom.total / atom.overflowed) / 5;
        if fi < MIN_INTERVAL { fi := MIN_INTERVAL; }
        else if fi > MAX_INTERVAL { fi := MAX_INTERVAL; }
        interval := fi;
      }
    }

    /** The ramp up from the floor, one execution per rung until the first
        overflow. */
    method Calibrate(mode: Mode, overflows: seq<bool>) returns (runs: nat)
      requires Valid() && |overflows| == tableSize
      modifies this`search
      ensures Valid() && Abs() == Calibrated(old(Abs()), mode, overflows)
      ensures runs == if enabled then RampLength(overflows) else 0
    {
      runs := 0;
      if !enabled { return; }
      search := search[mode := search[mode].(idx := 0)];
      var i := 0;
      ghost var s0 := old(Abs());
      while i < tableSize
        invariant Valid() && i <= tableSize && runs == i
        invariant Abs() == s0.With(mode, s0.At(mode).(idx := if i == 0 then 0 else i - 1))
        invariant forall k :: 0 <= k < i ==> !overflows[k]
      {
        runs := runs + 1;
        if overflows[i] { break; }
        search := search[mode := search[mode].(idx := i)];
        i := i + 1;
      }
      RampSettles(overflows, i);
    }

    method Apply(mode: Mode) returns (idx: nat)
      requires Valid()
      modifies this`forceMinPending
      ensures Valid() && (idx, Abs()) == Governor.Apply(old(Abs()), mode)
    {
      if enabled && forceMinPending {
        forceMinPending := false;
        return 0;
      }
      return search[mode].idx;
    }

    /** One attempt and the decision after it: retry one rung down, force one run
        at the floor, or accept. */
    method OneAttempt(mode: Mode, overflow: bool, repetitions: nat, forced: bool)
        returns (idx: nat, retry: bool, force: bool)
      requires Valid()
      modifies this
      ensures Valid()
      ensures var (i, applied) := Governor.Apply(old(Abs()), mode);
              var g' := Governor.OnResult(applied, mode, overflow);
              && idx == i
              && retry == ShouldRetry(applied, mode, overflow, repetitions)
              && force == (!retry && overflow && mode.Addr? && !forced && !AtFloor(g', mode) &&
                           repetitions >= MAX_REPETITIONS)
              && Abs() == if force then ForceMin(g') else g'
    {
      hide Governor.OnResult, Governor.Apply;
      idx := Apply(mode);
      retry := enabled && overflow && mode.Addr? && search[Addr].idx > 0 && repetitions < MAX_REPETITIONS;
      OnResult(mode, overflow);
      force := !retry && overflow && mode.Addr? && !forced && enabled && search[mode].idx != 0 &&
               repetitions >= MAX_REPETITIONS;
      if force { forceMinPending := true; }
    }

    /** The retry loop of the proxy's main loop over one test case. */
    method RunTestCase(mode: Mode, overflows: nat -> bool) returns (attempts: seq<Attempt>)
      requires Valid()
      modifies this
      ensures Valid() && (attempts, Abs()) == TestCase(old(Abs()), mode, overflows)
    {
      hide Governor.OnResult, Governor.Apply, ForceMin, AtFloor, ShouldRetry, Attempts;
      attempts := [];
      var k, repetitions, forced := 0, 0, false;
      ghost var all := TestCase(Abs(), mode, overflows);
      ghost var rest := all.0;
      while true
        invariant Valid() && repetitions <= MAX_REPETITIONS
        invariant (rest, all.1) == Attempts(Abs(), mode, overflows, k, repetitions, forced)
        invariant all.0 == attempts + rest
        decreases MAX_REPETITIONS - repetitions, !forced
      {
        OneTurn(Abs(), mode, overflows, k, repetitions, forced);
        RetryIsBounded(Governor.Apply(Abs(), mode).1, mode, overflows(k), repetitions);
        ghost var before := attempts;
        var idx, retry, force := OneAttempt(mode, overflows(k), repetitions, forced);
        attempts := attempts + [Attempt(idx, overflows(k))];
        assert before + rest == attempts + rest[1..];
        rest := rest[1..];
        k := k + 1;
        if retry {
          repetitions := repetitions + 1;
        } else if force {
          forced := true;
        } else {
          break;
        }
      }
    }
  }

  lemma RetryIsBounded(g: Gov, mode: Mode, overflow: bool, repetitions: nat)
    ensures ShouldRetry(g, mode, overflow, repetitions) ==> repetitions < MAX_REPETITIONS
  {
  }

  /** Executions a ramp makes: up to and including the first overflow. */
  function RampLength(overflows: seq<bool>): nat {
    if overflows == [] then 0 else if overflows[0] then 1 else 1 + RampLength(overflows[1..])
  }

  lemma {:induction false} RampSettles(overflows: seq<bool>, i: nat)
    requires i <= |overflows|
    requires forall k :: 0 <= k < i ==> !overflows[k]
    requires i < |overflows| ==> overflows[i]
    ensures Settled(overflows) == if i == 0 then 0 else i - 1
    ensures RampLength(overflows) == if i < |overflows| then i + 1 else i
  {
    if i > 0 {
      RampSettles(overflows[1..], i - 1);
    }
  }
}
