/** The CPU frequency policy the governor borrows: a sysfs policy that refuses a
    write leaving its minimum above its maximum, the four writes that pin a
    frequency, and the staged writes that give the policy back. */
module CpuPolicy {
  import opened Common

  datatype Governing = Userspace | Other(name: string)

  /** `speed` is `scaling_setspeed`, meaningful under the userspace governor. */
  datatype Policy = Policy(min: nat, max: nat, governor: Governing, speed: nat)

  datatype Write = MinFreq(f: nat) | MaxFreq(f: nat) | SetGovernor(g: Governing) | SetSpeed(f: nat)

  predicate Accepted(p: Policy, w: Write) {
    match w
    case MinFreq(f) => f <= p.max
    case MaxFreq(f) => p.min <= f
    case SetGovernor(_) => true
    case SetSpeed(_) => p.governor.Userspace?
  }

  /** A refused write changes nothing; the code ignores the error. */
  function Written(p: Policy, w: Write): Policy {
    if !Accepted(p, w) then p
    else match w
      case MinFreq(f) => p.(min := f)
      case MaxFreq(f) => p.(max := f)
      case SetGovernor(g) => p.(governor := g)
      case SetSpeed(f) => p.(speed := f)
  }

  function WrittenAll(p: Policy, ws: seq<Write>): Policy
    decreases ws
  {
    if ws == [] then p else WrittenAll(Written(p, ws[0]), ws[1..])
  }

  ghost predicate AllAccepted(p: Policy, ws: seq<Write>)
    decreases ws
  {
    ws == [] || (Accepted(p, ws[0]) && AllAccepted(Written(p, ws[0]), ws[1..]))
  }

  // -------------------------------------------------------- pinning a rung

  /** Hardware bounds. */
  datatype Bounds = Bounds(lo: nat, hi: nat)

  /** The writes of `set_freq`, in the order that gets them accepted. */
  function PinWrites(b: Bounds, target: nat): seq<Write> {
    [MinFreq(b.lo), MaxFreq(target), MinFreq(target), SetSpeed(target)]
  }

  predicate Pinned(p: Policy, f: nat) {
    p.min == p.max == p.speed == f && p.governor.Userspace?
  }

  lemma {:induction false} FourWrites(p: Policy, a: Write, b: Write, c: Write, d: Write)
    ensures WrittenAll(p, [a, b, c, d]) == Written(Written(Written(Written(p, a), b), c), d)
    ensures AllAccepted(p, [a, b, c, d]) <==>
            Accepted(p, a) && Accepted(Written(p, a), b) && Accepted(Written(Written(p, a), b), c) &&
            Accepted(Written(Written(Written(p, a), b), c), d)
  {
    hide Written, Accepted;
    assert [a, b, c, d][1..] == [b, c, d] && [b, c, d][1..] == [c, d] && [c, d][1..] == [d] && [d][1..] == [];
    var q := Written(p, a);
    assert WrittenAll(p, [a, b, c, d]) == WrittenAll(q, [b, c, d]);
    assert WrittenAll(q, [b, c, d]) == WrittenAll(Written(q, b), [c, d]);
    assert WrittenAll(Written(q, b), [c, d]) == WrittenAll(Written(Written(q, b), c), [d]);
    assert AllAccepted(q, [b, c, d]) <==> Accepted(q, b) && AllAccepted(Written(q, b), [c, d]);
    assert AllAccepted(Written(q, b), [c, d]) <==>
           Accepted(Written(q, b), c) && AllAccepted(Written(Written(q, b), c), [d]);
  }

  /** From any policy no lower than the hardware floor, under the userspace
      governor, all four writes are accepted and pin the target. */
  lemma PinIsAccepted(p: Policy, b: Bounds, target: nat)
    requires b.lo <= p.max && b.lo <= target && p.governor.Userspace?
    ensures AllAccepted(p, PinWrites(b, target))
    ensures Pinned(WrittenAll(p, PinWrites(b, target)), target)
  {
    FourWrites(p, MinFreq(b.lo), MaxFreq(target), MinFreq(target), SetSpeed(target));
  }

  // ----------------------------------------------------------- skipping

  /** The policy, and the last frequency `set_freq` wrote (0 when unknown). */
  datatype Machine = Machine(policy: Policy, lastSet: nat)

  function SetFreq(m: Machine, b: Bounds, target: nat): Machine {
    if target == m.lastSet then m
    else Machine(WrittenAll(m.policy, PinWrites(b, target)), target)
  }

  /** `set_freq` without its skip. */
  function SetFreqAlways(p: Policy, b: Bounds, target: nat): Policy {
    WrittenAll(p, PinWrites(b, target))
  }

  /** What one call of the governor does to the policy: pin a frequency, or give
      the policy back. */
  datatype Call = SetTo(target: nat) | GiveBack

  predicate InBounds(c: Call, b: Bounds) { c.SetTo? ==> 0 < c.target && b.lo <= c.target <= b.hi }

  function Called(m: Machine, b: Bounds, restore: seq<Write>, c: Call): Machine {
    match c
    case SetTo(target) => SetFreq(m, b, target)
    case GiveBack => Machine(WrittenAll(m.policy, restore), 0)
  }

  function CalledAlways(p: Policy, b: Bounds, restore: seq<Write>, c: Call): Policy {
    match c
    case SetTo(target) => SetFreqAlways(p, b, target)
    case GiveBack => WrittenAll(p, restore)
  }

  function Calls(m: Machine, b: Bounds, restore: seq<Write>, cs: seq<Call>): Machine {
    if cs == [] then m else Called(Calls(m, b, restore, cs[..|cs| - 1]), b, restore, cs[|cs| - 1])
  }

  function CallsAlways(p: Policy, b: Bounds, restore: seq<Write>, cs: seq<Call>): Policy {
    if cs == [] then p else CalledAlways(CallsAlways(p, b, restore, cs[..|cs| - 1]), b, restore, cs[|cs| - 1])
  }

  // ------------------------------------------------------------- restore

  /** The policy found at start-up, as the restore operations are staged from. */
  datatype Saved = Saved(min: nat, max: nat, governor: Option<Governing>, speed: nat)

  /** `freq_gov_init`'s staging: values that could not be read are left out. */
  function RestoreWrites(b: Bounds, s: Saved): seq<Write> {
    IfKnown(b.lo != 0, MinFreq(b.lo)) +
    IfKnown(s.max != 0, MaxFreq(s.max)) +
    IfKnown(s.min != 0, MinFreq(s.min)) +
    (if s.governor.Some? then IfKnown(true, SetGovernor(s.governor.value)) else []) +
    IfKnown(s.speed != 0, SetSpeed(s.speed))
  }

  /** Values that could not be read are not restored. */
  function IfKnown(known: bool, w: Write): (ws: seq<Write>)
    ensures |ws| <= 1
  {
    if known then [w] else []
  }

  function Save(p: Policy): Saved {
    Saved(p.min, p.max, Some(p.governor), if p.governor.Userspace? then p.speed else 0)
  }

  /** A readable policy within the hardware bounds. */
  predicate Sane(p: Policy, b: Bounds) {
    0 < b.lo <= p.min <= p.max <= b.hi && (p.governor.Userspace? ==> p.speed != 0)
  }

  /** `p` is the policy `q` as far as it was saved. */
  predicate GivenBack(p: Policy, q: Policy) {
    p.min == q.min && p.max == q.max && p.governor == q.governor && (q.governor.Userspace? ==> p.speed == q.speed)
  }

  /** Whatever was written so far left the floor usable. */
  predicate Usable(p: Policy, b: Bounds) { b.lo <= p.max && p.min <= p.max }

  /** From any usable policy every staged write is accepted, in order, and the
      saved policy is back. */
  lemma RestoreIsAccepted(p: Policy, b: Bounds, q: Policy)
    requires Usable(p, b) && Sane(q, b)
    ensures AllAccepted(p, RestoreWrites(b, Save(q)))
    ensures GivenBack(WrittenAll(p, RestoreWrites(b, Save(q))), q)
    ensures !q.governor.Userspace? ==> WrittenAll(p, RestoreWrites(b, Save(q))).speed == p.speed
  {
    var g := SetGovernor(q.governor);
    var ws := [MinFreq(b.lo), MaxFreq(q.max), MinFreq(q.min), g];
    FourWrites(p, ws[0], ws[1], ws[2], ws[3]);
    if q.governor.Userspace? {
      assert RestoreWrites(b, Save(q)) == ws + [SetSpeed(q.speed)];
      WritesSplit(p, ws, [SetSpeed(q.speed)]);
      assert [SetSpeed(q.speed)][1..] == [];
    } else {
      assert RestoreWrites(b, Save(q)) == ws;
    }
  }

  lemma {:induction false} WritesSplit(p: Policy, a: seq<Write>, c: seq<Write>)
    ensures WrittenAll(p, a + c) == WrittenAll(WrittenAll(p, a), c)
    ensures AllAccepted(p, a + c) <==> AllAccepted(p, a) && AllAccepted(WrittenAll(p, a), c)
    decreases a
  {
    hide Written, Accepted;
    if a == [] {
      assert a + c == c;
    } else {
      assert (a + c)[0] == a[0] && (a + c)[1..] == a[1..] + c;
      WritesSplit(Written(p, a[0]), a[1..], c);
    }
  }

  // --------------------------------------------- runs cut off anywhere

  /** The individual writes one call issues on a machine. */
  function WritesOf(m: Machine, b: Bounds, restore: seq<Write>, c: Call): seq<Write> {
    match c
    case SetTo(target) => if target == m.lastSet then [] else PinWrites(b, target)
    case GiveBack => restore
  }

  /** All individual writes of a run. */
  function RunWrites(m: Machine, b: Bounds, restore: seq<Write>, cs: seq<Call>): seq<Write> {
    if cs == [] then []
    else RunWrites(m, b, restore, cs[..|cs| - 1]) +
         WritesOf(Calls(m, b, restore, cs[..|cs| - 1]), b, restore, cs[|cs| - 1])
  }

  lemma {:induction false} RunWritesAreTheRun(m: Machine, b: Bounds, restore: seq<Write>, cs: seq<Call>)
    ensures Calls(m, b, restore, cs).policy == WrittenAll(m.policy, RunWrites(m, b, restore, cs))
    decreases |cs|
  {
    hide WrittenAll;
    if cs == [] {
      NoWrites(m.policy);
    } else {
      var before, c := cs[..|cs| - 1], cs[|cs| - 1];
      RunWritesAreTheRun(m, b, restore, before);
      var h := Calls(m, b, restore, before);
      WritesSplit(m.policy, RunWrites(m, b, restore, before), WritesOf(h, b, restore, c));
      NoWrites(h.policy);
    }
  }

  lemma NoWrites(p: Policy)
    ensures WrittenAll(p, []) == p
  {
  }

  /** A write that can never make the floor unusable. */
  predicate Harmless(w: Write, b: Bounds) { w.MaxFreq? ==> b.lo <= w.f }

  lemma {:induction false} HarmlessStaysUsable(p: Policy, b: Bounds, ws: seq<Write>)
    requires Usable(p, b) && forall w :: w in ws ==> Harmless(w, b)
    ensures Usable(WrittenAll(p, ws), b)
    decreases ws
  {
    if ws != [] {
      assert Harmless(ws[0], b);
      HarmlessStaysUsable(Written(p, ws[0]), b, ws[1..]);
    }
  }

  lemma {:induction false} RunIsHarmless(m: Machine, b: Bounds, restore: seq<Write>, cs: seq<Call>)
    requires forall w :: w in restore ==> Harmless(w, b)
    requires forall i :: 0 <= i < |cs| ==> InBounds(cs[i], b)
    ensures forall w :: w in RunWrites(m, b, restore, cs) ==> Harmless(w, b)
    decreases |cs|
  {
    hide Calls;
    if cs != [] {
      var c := cs[|cs| - 1];
      RunIsHarmless(m, b, restore, cs[..|cs| - 1]);
      assert InBounds(c, b);
    }
  }

  /** The crash-safe restore: start from any sane policy, take the userspace
      governor, make any calls, and cut the run between any two of its writes,
      including those of an earlier restore. The staged operations are then all
      accepted and the policy found at start-up is back; restoring once more
      changes nothing. */
  lemma RestoreAfterAnyCut(found: Policy, b: Bounds, cs: seq<Call>, cut: nat)
    requires Sane(found, b) && forall i :: 0 <= i < |cs| ==> InBounds(cs[i], b)
    requires var ws := [SetGovernor(Userspace)] +
                       RunWrites(Machine(Written(found, SetGovernor(Userspace)), 0), b,
                                 RestoreWrites(b, Save(found)), cs);
             cut <= |ws|
    ensures var restore := RestoreWrites(b, Save(found));
            var ws := [SetGovernor(Userspace)] +
                      RunWrites(Machine(Written(found, SetGovernor(Userspace)), 0), b, restore, cs);
            var left := WrittenAll(found, ws[..cut]);
            var back := WrittenAll(left, restore);
            && AllAccepted(left, restore) && GivenBack(back, found)
            && AllAccepted(back, restore) && WrittenAll(back, restore) == back
  {
    var restore := RestoreWrites(b, Save(found));
    var runs := RunWrites(Machine(Written(found, SetGovernor(Userspace)), 0), b, restore, cs);
    var ws := [SetGovernor(Userspace)] + runs;
    assert forall w :: w in restore ==> Harmless(w, b);
    RunIsHarmless(Machine(Written(found, SetGovernor(Userspace)), 0), b, restore, cs);
    hide WrittenAll, RunWrites, RestoreWrites;
    forall w | w in ws[..cut] ensures Harmless(w, b) {
      assert w in ws;
      assert w == SetGovernor(Userspace) || w in runs;
    }
    HarmlessStaysUsable(found, b, ws[..cut]);
    var left := WrittenAll(found, ws[..cut]);
    RestoreIsAccepted(left, b, found);
    RestoreIsAccepted(WrittenAll(left, restore), b, found);
  }

  // ----------------------------------------------- skipping is invisible

  lemma PinOutcome(p: Policy, b: Bounds, f: nat)
    requires Usable(p, b) && b.lo <= f
    ensures WrittenAll(p, PinWrites(b, f)) ==
            Policy(f, f, p.governor, if p.governor.Userspace? then f else p.speed)
  {
    FourWrites(p, MinFreq(b.lo), MaxFreq(f), MinFreq(f), SetSpeed(f));
  }

  /** Skipping redundant writes leaves the same policy after every call of every
      run as always writing would. */
  lemma {:induction false} SkippingIsInvisible(p: Policy, b: Bounds, restore: seq<Write>, cs: seq<Call>)
    requires Usable(p, b) && forall w :: w in restore ==> Harmless(w, b)
    requires forall i :: 0 <= i < |cs| ==> InBounds(cs[i], b)
    ensures var m := Calls(Machine(p, 0), b, restore, cs);
            && m.policy == CallsAlways(p, b, restore, cs)
            && Usable(m.policy, b)
            && (m.lastSet != 0 ==> b.lo <= m.lastSet && SetFreqAlways(m.policy, b, m.lastSet) == m.policy)
    decreases |cs|
  {
    hide WrittenAll, PinWrites;
    if cs != [] {
      var before, c := cs[..|cs| - 1], cs[|cs| - 1];
      SkippingIsInvisible(p, b, restore, before);
      var m := Calls(Machine(p, 0), b, restore, before);
      assert InBounds(c, b);
      match c
      case GiveBack => HarmlessStaysUsable(m.policy, b, restore);
      case SetTo(f) =>
        PinOutcome(m.policy, b, f);
        PinOutcome(WrittenAll(m.policy, PinWrites(b, f)), b, f);
    }
  }

  /** How often a run of settings asks for another frequency than the one before. */
  function Changes(cs: seq<Call>): nat
    requires forall i :: 0 <= i < |cs| ==> cs[i].SetTo?
  {
    if cs == [] then 0
    else
      var n := |cs| - 1;
      Changes(cs[..n]) + (if n > 0 && cs[n - 1] == cs[n] then 0 else 1)
  }

  /** And it does skip: a run of settings makes four writes for each change of
      frequency and none for a repetition. */
  lemma {:induction false} WritesPerChange(p: Policy, b: Bounds, restore: seq<Write>, cs: seq<Call>)
    requires forall i :: 0 <= i < |cs| ==> cs[i].SetTo? && cs[i].target > 0
    ensures |RunWrites(Machine(p, 0), b, restore, cs)| == 4 * Changes(cs)
    ensures Calls(Machine(p, 0), b, restore, cs).lastSet == if cs == [] then 0 else cs[|cs| - 1].target
    decreases |cs|
  {
    hide WrittenAll;
    if cs != [] {
      WritesPerChange(p, b, restore, cs[..|cs| - 1]);
    }
  }

  /** While the governor runs, the policy is pinned to the frequency asked for
      last, with no write refused. */
  lemma {:induction false} LastTargetIsPinned(p: Policy, b: Bounds, restore: seq<Write>, cs: seq<Call>)
    requires Usable(p, b) && p.governor.Userspace?
    requires forall i :: 0 <= i < |cs| ==> InBounds(cs[i], b) && cs[i].SetTo?
    ensures var m := Calls(Machine(p, 0), b, restore, cs);
            && Usable(m.policy, b) && m.policy.governor.Userspace?
            && (m.lastSet != 0 ==> Pinned(m.policy, m.lastSet))
            && (cs != [] ==> Pinned(m.policy, cs[|cs| - 1].target))
    ensures AllAccepted(p, RunWrites(Machine(p, 0), b, restore, cs))
    decreases |cs|
  {
    hide WrittenAll, PinWrites, AllAccepted;
    if cs == [] {
      assert AllAccepted(p, []) by { NothingToAccept(p); }
    } else {
      var before, c := cs[..|cs| - 1], cs[|cs| - 1];
      LastTargetIsPinned(p, b, restore, before);
      var m := Calls(Machine(p, 0), b, restore, before);
      assert InBounds(c, b) && c.SetTo?;
      PinIsAccepted(m.policy, b, c.target);
      RunWritesAreTheRun(Machine(p, 0), b, restore, before);
      var ws := RunWrites(Machine(p, 0), b, restore, before);
      WritesSplit(p, ws, WritesOf(m, b, restore, c));
      NothingToAccept(m.policy);
    }
  }

  lemma NothingToAccept(p: Policy)
    ensures AllAccepted(p, [])
  {
  }
}
