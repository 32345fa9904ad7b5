/** The windows that the proxy and the decoder thread open and close between
    them, and what the ETMs therefore hold in each. */
module HandshakeWindows {
  import opened Common
  import opened Handshake
  import EtmWindow
  import HandshakeDrains

  /** The opening (true) or closing (false) that a step makes. */
  function Opens(st: Step): seq<bool> {
    match st
    case P(p) => if p.ArmSinks? then [true] else if p.CloseSinks? then [false] else []
    case D(d) => if d.ReopenSinks? then [true] else if d.CloseForDrain? then [false] else []
    case C(_) => []
  }

  function WindowsOf(run: seq<Step>): seq<bool> {
    if run == [] then [] else Opens(run[0]) + WindowsOf(run[1..])
  }

  /** No step of the run opens a window that is already open. */
  predicate OpensClosed(s: State, run: seq<Step>, canDrain: bool)
    requires Exec(s, run, canDrain).Some?
    decreases run
  {
    run != [] ==>
      && (Opens(run[0]) == [true] ==> !s.open)
      && OpensClosed(Do(s, run[0], canDrain), run[1..], canDrain)
  }

  /** No attempt of the run arms sinks that are still open. */
  predicate ArmsClosed(s: State, run: seq<Step>, canDrain: bool)
    requires Exec(s, run, canDrain).Some?
    decreases run
  {
    run != [] ==>
      && (run[0] == P(ArmSinks) ==> !s.open)
      && ArmsClosed(Do(s, run[0], canDrain), run[1..], canDrain)
  }

  lemma ProxyOpens(s: State, p: ProxyStep)
    requires ProxyCan(s, p)
    ensures ProxyDo(s, p).open == if p.ArmSinks? then true else if p.CloseSinks? then false else s.open
  {
  }

  lemma DecoderOpens(s: State, d: DecoderStep)
    ensures DecoderDo(s, d).open == if d.ReopenSinks? then true else if d.CloseForDrain? then false else s.open
  {
  }

  lemma OpenFollows(s: State, st: Step, canDrain: bool)
    requires Enabled(s, st, canDrain)
    ensures Do(s, st, canDrain).open == if Opens(st) == [] then s.open else Opens(st)[0]
    ensures |Opens(st)| <= 1
  {
    hide ProxyDo, DecoderDo, ChildDo, DecoderCan;
    match st
    case P(p) => ProxyOpens(s, p);
    case D(d) => DecoderOpens(s, d);
    case C(c) => ChildFrame(s, c);
  }

  lemma AlternateStep(before: bool, o: bool, ws: seq<bool>)
    ensures EtmWindow.Alternate([before] + ([o] + ws)) <==> !(before && o) && EtmWindow.Alternate([o] + ws)
  {
    var long, short := [before] + ([o] + ws), [o] + ws;
    assert long[0] == before && long[1] == o;
    assert forall i :: 0 < i < |long| ==> long[i] == short[i - 1];
    if EtmWindow.Alternate(long) {
      forall i | 0 < i < |short| ensures !(short[i - 1] && short[i]) {
        assert short[i - 1] == long[i] && short[i] == long[i + 1];
      }
    }
  }

  lemma {:induction false} AlternateIff(s: State, run: seq<Step>, canDrain: bool)
    requires Exec(s, run, canDrain).Some?
    ensures EtmWindow.Alternate([s.open] + WindowsOf(run)) <==> OpensClosed(s, run, canDrain)
    decreases run
  {
    hide Enabled, Do, Opens, EtmWindow.Alternate;
    if run == [] {
      NothingAlternates(s.open);
    } else {
      var t := Do(s, run[0], canDrain);
      var rest := WindowsOf(run[1..]);
      OpenFollows(s, run[0], canDrain);
      AlternateIff(t, run[1..], canDrain);
      if Opens(run[0]) == [] {
        assert Opens(run[0]) + rest == rest;
      } else {
        assert Opens(run[0]) == [t.open];
        AlternateStep(s.open, t.open, rest);
      }
    }
  }

  lemma NothingAlternates(o: bool)
    ensures EtmWindow.Alternate([o] + WindowsOf([]))
  {
  }

  // ---------------------------------------- who can open an open window

  /** A drain opens what it has closed; without draining no attempt begins
      with the sinks open. */
  ghost predicate WindowLaw(s: State, canDrain: bool) {
    && (s.decoder.DrainFetch? || s.decoder.DrainEnable? ==> !s.open)
    && (!canDrain && (s.proxy.Idle? || s.proxy.Arming?) ==> !s.open)
  }

  ghost predicate AllLaws(s: State, canDrain: bool) {
    Inv(s) && SinkLaw(s) && (!canDrain ==> NeverDrains(s)) && WindowLaw(s, canDrain)
  }

  lemma ProxyWindowStep(s: State, st: ProxyStep, canDrain: bool)
    requires AllLaws(s, canDrain) && ProxyCan(s, st)
    ensures WindowLaw(ProxyDo(s, st), canDrain)
  {
    hide InFlight, SuspendLaw, StopLaw;
  }

  lemma DecoderWindowStep(s: State, st: DecoderStep, canDrain: bool)
    requires AllLaws(s, canDrain) && DecoderCan(s, st, canDrain)
    ensures WindowLaw(DecoderDo(s, st), canDrain)
    ensures st.ReopenSinks? ==> !s.open
  {
    hide InFlight, SuspendLaw, StopLaw;
  }

  lemma LawsStep(s: State, st: Step, canDrain: bool)
    requires AllLaws(s, canDrain) && Enabled(s, st, canDrain)
    ensures AllLaws(Do(s, st, canDrain), canDrain)
    ensures st == D(ReopenSinks) ==> !s.open
    ensures !canDrain && st == P(ArmSinks) ==> !s.open
  {
    StepKeepsInv(s, st, canDrain);
    SinkStep(s, st, canDrain);
    hide Inv, SinkLaw, NeverDrains, ProxyDo, DecoderDo, ChildDo;
    match st
    case P(p) => ProxyWindowStep(s, p, canDrain);
    case D(d) => DecoderWindowStep(s, d, canDrain);
    case C(c) => ChildFrame(s, c);
  }

  lemma {:induction false} OpensClosedIff(s: State, run: seq<Step>, canDrain: bool)
    requires AllLaws(s, canDrain) && Exec(s, run, canDrain).Some?
    ensures OpensClosed(s, run, canDrain) <==> ArmsClosed(s, run, canDrain)
    ensures !canDrain ==> ArmsClosed(s, run, canDrain)
    decreases run
  {
    hide AllLaws, Enabled, Do;
    if run != [] {
      LawsStep(s, run[0], canDrain);
      OpensClosedIff(Do(s, run[0], canDrain), run[1..], canDrain);
    }
  }

  // ------------------------------------------------------------ results

  lemma InitialLaws(canDrain: bool)
    ensures AllLaws(Initial, canDrain)
  {
  }

  /** Every opening follows a closing exactly when no attempt arms sinks that a
      late drain left open; without draining that is always so. */
  lemma WindowsAlternateIff(run: seq<Step>, canDrain: bool)
    requires Exec(Initial, run, canDrain).Some?
    ensures EtmWindow.Alternate(WindowsOf(run)) <==> ArmsClosed(Initial, run, canDrain)
    ensures !canDrain ==> EtmWindow.Alternate(WindowsOf(run))
  {
    hide AllLaws, Exec, OpensClosed, ArmsClosed, WindowsOf;
    InitialLaws(canDrain);
    AlternateIff(Initial, run, canDrain);
    OpensClosedIff(Initial, run, canDrain);
    FirstIsFree(WindowsOf(run));
  }

  lemma FirstIsFree(ws: seq<bool>)
    ensures EtmWindow.Alternate([false] + ws) <==> EtmWindow.Alternate(ws)
  {
    var long := [false] + ws;
    assert forall i :: 0 < i < |long| ==> long[i] == ws[i - 1];
    if EtmWindow.Alternate(long) {
      forall i | 0 < i < |ws| ensures !(ws[i - 1] && ws[i]) {
        assert ws[i - 1] == long[i] && ws[i] == long[i + 1];
      }
    }
  }

  /** Under the PID filter and for every interleaving of the threads in which no
      attempt arms sinks left open, with mode changes anywhere in between:
      whenever a window is open, every comparator holds the current child's
      pid and every mode agrees. Without draining no condition is needed. */
  lemma OpenWindowIsRight(run: seq<Step>, canDrain: bool, calls: seq<EtmWindow.Call>,
                          etms: seq<EtmWindow.Etm>, b: EtmWindow.Build)
    requires Exec(Initial, run, canDrain).Some?
    requires !canDrain || ArmsClosed(Initial, run, canDrain)
    requires EtmWindow.Windows(calls) == WindowsOf(run) && EtmWindow.AllFit(calls)
    requires b.pidFilter && etms != [] && EtmWindow.BitsAre(etms, false)
    requires EtmWindow.LeftOpen(calls)
    ensures var s := EtmWindow.Exec(EtmWindow.Initial(etms), b, calls);
            && EtmWindow.ComparatorsHold(s, EtmWindow.Child(calls))
            && EtmWindow.ModesAgree(s, b, EtmWindow.Requested(calls))
  {
    hide Exec, ArmsClosed, WindowsOf;
    hide EtmWindow.Exec, EtmWindow.Windows, EtmWindow.ComparatorsHold, EtmWindow.ModesAgree;
    WindowsAlternateIff(run, canDrain);
    EtmWindow.AlternatingNeverOverlaps(calls);
    EtmWindow.ComparatorsIff(etms, b, calls);
    EtmWindow.ModesAgreeIff(etms, b);
  }

  // ------------------------------------------ when a window is not right

  /** The last window of the run was armed on sinks that were still open. */
  ghost predicate ArmedOpenLast(run: seq<Step>, canDrain: bool) {
    exists k :: 0 <= k < |run| && ArmsOpenAt(run, k, canDrain) && forall j :: k < j < |run| ==> Opens(run[j]) == []
  }

  predicate ArmsOpenAt(run: seq<Step>, k: nat, canDrain: bool)
    requires k < |run|
  {
    var s := Exec(Initial, run[..k], canDrain);
    run[k] == P(ArmSinks) && s.Some? && s.value.open
  }

  lemma {:induction false} WindowsJoin(a: seq<Step>, st: Step)
    ensures WindowsOf(a + [st]) == WindowsOf(a) + Opens(st)
  {
    hide Opens;
    if a == [] {
      assert a + [st] == [st] && [st][1..] == [];
      assert WindowsOf([]) == [];
      assert WindowsOf([st]) == Opens(st) + WindowsOf([st][1..]);
    } else {
      assert (a + [st])[0] == a[0] && (a + [st])[1..] == a[1..] + [st];
      WindowsJoin(a[1..], st);
      assert WindowsOf(a + [st]) == Opens(a[0]) + (WindowsOf(a[1..]) + Opens(st));
      assert WindowsOf(a) == Opens(a[0]) + WindowsOf(a[1..]);
    }
  }

  lemma StartsClosed(canDrain: bool)
    ensures Exec(Initial, [], canDrain) == Some(Initial) && WindowsOf([]) == []
  {
  }

  /** The sinks are open exactly when the last of the run's windows is. */
  lemma {:induction false} OpenIsLast(run: seq<Step>, canDrain: bool)
    requires Exec(Initial, run, canDrain).Some?
    ensures var s, ws := Exec(Initial, run, canDrain).value, WindowsOf(run);
            s.open <==> ws != [] && ws[|ws| - 1]
    decreases |run|
  {
    StartsClosed(canDrain);
    hide Exec, Do, Enabled, Opens, WindowsOf;
    if run != [] {
      var before, st := run[..|run| - 1], run[|run| - 1];
      assert run == before + [st];
      var s := Before(before, st, canDrain);
      OpenIsLast(before, canDrain);
      OpenFollows(s, st, canDrain);
      WindowsJoin(before, st);
    }
  }

  lemma {:induction false} RunKeepsLaws(s: State, run: seq<Step>, canDrain: bool)
    requires AllLaws(s, canDrain) && Exec(s, run, canDrain).Some?
    ensures AllLaws(Exec(s, run, canDrain).value, canDrain)
    decreases run
  {
    hide AllLaws, Enabled, Do;
    if run != [] {
      LawsStep(s, run[0], canDrain);
      RunKeepsLaws(Do(s, run[0], canDrain), run[1..], canDrain);
    }
  }

  /** Only an attempt that arms open sinks opens a window on top of another. */
  lemma OpensTwice(s: State, st: Step, canDrain: bool)
    requires AllLaws(s, canDrain) && Enabled(s, st, canDrain) && Opens(st) == [true] && s.open
    ensures st == P(ArmSinks)
  {
    hide AllLaws, Enabled;
    LawsStep(s, st, canDrain);
  }

  lemma ArmsOpenBefore(before: seq<Step>, st: Step, k: nat, canDrain: bool)
    requires k < |before|
    ensures ArmsOpenAt(before + [st], k, canDrain) <==> ArmsOpenAt(before, k, canDrain)
  {
    hide Exec;
    assert (before + [st])[..k] == before[..k];
  }

  lemma ArmsOpenNow(before: seq<Step>, st: Step, s: State, canDrain: bool)
    requires Exec(Initial, before, canDrain) == Some(s)
    ensures ArmsOpenAt(before + [st], |before|, canDrain) <==> st == P(ArmSinks) && s.open
  {
    assert (before + [st])[..|before|] == before;
  }

  lemma StaysArmedOpen(before: seq<Step>, st: Step, canDrain: bool)
    requires Opens(st) == [] && ArmedOpenLast(before, canDrain)
    ensures ArmedOpenLast(before + [st], canDrain)
  {
    hide ArmsOpenAt, Opens;
    var run, n := before + [st], |before|;
    var k :| 0 <= k < n && ArmsOpenAt(before, k, canDrain) && forall j :: k < j < n ==> Opens(before[j]) == [];
    ArmsOpenBefore(before, st, k, canDrain);
    assert ArmsOpenAt(run, k, canDrain) && forall j :: k < j < n + 1 ==> Opens(run[j]) == [];
  }

  lemma WasArmedOpen(before: seq<Step>, st: Step, canDrain: bool)
    requires ArmedOpenLast(before + [st], canDrain) && !ArmsOpenAt(before + [st], |before|, canDrain)
    ensures Opens(st) == [] && ArmedOpenLast(before, canDrain)
  {
    hide ArmsOpenAt, Opens;
    var run, n := before + [st], |before|;
    var k :| 0 <= k < n + 1 && ArmsOpenAt(run, k, canDrain) && forall j :: k < j < n + 1 ==> Opens(run[j]) == [];
    ArmsOpenBefore(before, st, k, canDrain);
    assert Opens(run[n]) == [] && ArmsOpenAt(before, k, canDrain);
    assert forall j :: k < j < n ==> Opens(before[j]) == Opens(run[j]);
  }

  lemma ArmedOpenNext(before: seq<Step>, st: Step, s: State, canDrain: bool)
    requires Exec(Initial, before, canDrain) == Some(s)
    ensures ArmedOpenLast(before + [st], canDrain) <==>
              (st == P(ArmSinks) && s.open) || (Opens(st) == [] && ArmedOpenLast(before, canDrain))
  {
    ArmsOpenNow(before, st, s, canDrain);
    if ArmsOpenAt(before + [st], |before|, canDrain) { assert ArmedOpenLast(before + [st], canDrain); }
    hide Exec, ArmsOpenAt, Opens, ArmedOpenLast;
    if Opens(st) == [] && ArmedOpenLast(before, canDrain) { StaysArmedOpen(before, st, canDrain); }
    if ArmedOpenLast(before + [st], canDrain) && !ArmsOpenAt(before + [st], |before|, canDrain) {
      WasArmedOpen(before, st, canDrain);
    }
  }

  lemma NothingOnTop(canDrain: bool)
    ensures !EtmWindow.OnTop(WindowsOf([])) && !ArmedOpenLast([], canDrain)
  {
  }

  lemma OnTopNext(before: seq<Step>, st: Step, s: State, canDrain: bool)
    requires Exec(Initial, before, canDrain) == Some(s) && Enabled(s, st, canDrain)
    ensures EtmWindow.OnTop(WindowsOf(before + [st])) <==>
              (st == P(ArmSinks) && s.open) || (Opens(st) == [] && EtmWindow.OnTop(WindowsOf(before)))
  {
    hide Exec, AllLaws, Enabled, WindowsOf;
    OpenIsLast(before, canDrain);
    WindowsJoin(before, st);
    InitialLaws(canDrain);
    RunKeepsLaws(Initial, before, canDrain);
    if Opens(st) == [true] && s.open { OpensTwice(s, st, canDrain); }
    if Opens(st) == [] { assert WindowsOf(before) + [] == WindowsOf(before); }
  }

  lemma {:induction false} OnTopIff(run: seq<Step>, canDrain: bool)
    requires Exec(Initial, run, canDrain).Some?
    ensures EtmWindow.OnTop(WindowsOf(run)) <==> ArmedOpenLast(run, canDrain)
    decreases |run|
  {
    hide Exec, Do, Enabled, Opens, WindowsOf, ArmedOpenLast, EtmWindow.OnTop;
    if run == [] {
      NothingOnTop(canDrain);
    } else {
      var before, st := run[..|run| - 1], run[|run| - 1];
      assert run == before + [st];
      var s := Before(before, st, canDrain);
      OnTopIff(before, canDrain);
      OnTopNext(before, st, s, canDrain);
      ArmedOpenNext(before, st, s, canDrain);
    }
  }

  /** Under the PID filter, for every interleaving and with mode changes anywhere:
      an open window has every comparator at its child's pid if and only if it
      was not armed on sinks left open with no mode change since. */
  lemma OpenWindowIsRightIff(run: seq<Step>, canDrain: bool, calls: seq<EtmWindow.Call>,
                             etms: seq<EtmWindow.Etm>, b: EtmWindow.Build)
    requires Exec(Initial, run, canDrain).Some?
    requires EtmWindow.Windows(calls) == WindowsOf(run) && EtmWindow.AllFit(calls)
    requires b.pidFilter && etms != [] && EtmWindow.LeftOpen(calls)
    ensures EtmWindow.ComparatorsHold(EtmWindow.Exec(EtmWindow.Initial(etms), b, calls), EtmWindow.Child(calls)) <==>
              !ArmedOpenLast(run, canDrain) || EtmWindow.ModeChangedBefore(calls)
  {
    hide Exec, ArmedOpenLast, WindowsOf, EtmWindow.Exec, EtmWindow.ComparatorsHold;
    OnTopIff(run, canDrain);
    EtmWindow.OverlapsIff(calls);
    EtmWindow.ComparatorsIff(etms, b, calls);
  }

  /** The condition is needed: with draining a second attempt can be about to arm
      sinks that are still open. */
  lemma SinksCanBeArmedOpen() returns (s: State)
    ensures Reachable(s, true) && ProxyCan(s, ArmSinks) && s.open && s.attempt == 2
  {
    s := SinksCanBeLeftOpen();
    s := TakeP(s, true, Begin);
  }

  // ------------------------------------------------ the calls of a run

  /** Attempts begun in a run. */
  function Begun(run: seq<Step>): nat {
    if run == [] then 0
    else Begun(run[..|run| - 1]) + (if run[|run| - 1] == P(Begin) then 1 else 0)
  }

  /** The call a step makes for attempt `n`, whose child is `pids(n)`: the proxy
      passes no pid on to the ETMs, a drain passes the child's. */
  function CallOf(st: Step, n: nat, pids: nat -> nat): seq<EtmWindow.Call> {
    if st == P(ArmSinks) then [EtmWindow.Enable(pids(n), 0, {})]
    else if st == D(ReopenSinks) then [EtmWindow.Enable(pids(n), pids(n), {})]
    else if Opens(st) == [false] then [EtmWindow.Disable(false)]
    else []
  }

  /** The calls the two threads make in a run with no mode change. */
  function CallsOf(run: seq<Step>, pids: nat -> nat): seq<EtmWindow.Call> {
    if run == [] then []
    else CallsOf(run[..|run| - 1], pids) + CallOf(run[|run| - 1], Begun(run), pids)
  }

  lemma CallsJoin(before: seq<Step>, st: Step, pids: nat -> nat)
    ensures CallsOf(before + [st], pids) == CallsOf(before, pids) + CallOf(st, Begun(before + [st]), pids)
    ensures Begun(before + [st]) == Begun(before) + if st == P(Begin) then 1 else 0
  {
    assert (before + [st])[..|before|] == before;
  }

  lemma OneCall(calls: seq<EtmWindow.Call>, st: Step, n: nat, pids: nat -> nat)
    requires pids(n) > 0
    ensures EtmWindow.Windows(calls + CallOf(st, n, pids)) == EtmWindow.Windows(calls) + Opens(st)
    ensures forall c :: c in CallOf(st, n, pids) ==> EtmWindow.Fits(c) && !c.SetBb?
    ensures Opens(st) == [true] ==>
              EtmWindow.Child(calls + CallOf(st, n, pids)) == pids(n) && EtmWindow.LeftOpen(calls + CallOf(st, n, pids))
  {
    var made := CallOf(st, n, pids);
    var all := calls + made;
    if made == [] {
      assert all == calls;
    } else {
      assert all[..|all| - 1] == calls;
    }
  }

  /** They open and close the run's windows, for children with a pid. */
  lemma {:induction false} CallsMakeWindows(run: seq<Step>, pids: nat -> nat)
    requires forall n :: pids(n) > 0
    ensures EtmWindow.Windows(CallsOf(run, pids)) == WindowsOf(run)
    ensures forall c :: c in CallsOf(run, pids) ==> EtmWindow.Fits(c) && !c.SetBb?
    decreases |run|
  {
    hide CallOf, Opens, EtmWindow.Windows, WindowsOf;
    if run == [] {
      NoWindows();
    } else {
      var before, st := run[..|run| - 1], run[|run| - 1];
      assert run == before + [st];
      CallsMakeWindows(before, pids);
      OneCall(CallsOf(before, pids), st, Begun(run), pids);
      WindowsJoin(before, st);
    }
  }

  lemma NoWindows()
    ensures WindowsOf([]) == [] && EtmWindow.Windows([]) == []
  {
  }

  lemma {:induction false} AttemptIsBegun(run: seq<Step>, canDrain: bool)
    requires Exec(Initial, run, canDrain).Some?
    ensures Exec(Initial, run, canDrain).value.attempt == Begun(run)
    decreases |run|
  {
    StartsClosed(canDrain);
    hide Exec, Do, Enabled;
    if run != [] {
      var before, st := run[..|run| - 1], run[|run| - 1];
      assert run == before + [st];
      var s := Before(before, st, canDrain);
      AttemptIsBegun(before, canDrain);
      AttemptStep(s, st, canDrain);
    }
  }

  lemma AttemptStep(s: State, st: Step, canDrain: bool)
    requires Enabled(s, st, canDrain)
    ensures Do(s, st, canDrain).attempt == s.attempt + if st == P(Begin) then 1 else 0
  {
    match st
    case P(p) =>
    case D(d) => HandshakeDrains.DecoderSuspendStep(s, d, canDrain);
    case C(c) => ChildFrame(s, c);
  }

  /** And once it has, the comparators cannot be relied on: whatever pids the
      children have, a run of two attempts after whose calls the second child's
      window is open and some comparator is not at its pid, on every board with
      the PID filter on. */
  lemma ComparatorsCanBeWrong(pids: nat -> nat) returns (run: seq<Step>)
    requires forall n :: pids(n) > 0
    ensures Exec(Initial, run, true).Some? && Exec(Initial, run, true).value.attempt == 2
    ensures var calls := CallsOf(run, pids);
            && EtmWindow.LeftOpen(calls) && EtmWindow.Child(calls) == pids(2)
            && forall etms: seq<EtmWindow.Etm>, b: EtmWindow.Build :: b.pidFilter && etms != [] ==>
                 !EtmWindow.ComparatorsHold(EtmWindow.Exec(EtmWindow.Initial(etms), b, calls), pids(2))
  {
    var s := SinksCanBeArmedOpen();
    var before :| Exec(Initial, before, true) == Some(s);
    run := before + [P(ArmSinks)];
    ExecJoins(Initial, before, [P(ArmSinks)], true);
    assert [P(ArmSinks)][1..] == [];
    assert Exec(s, [P(ArmSinks)], true).Some?;
    hide Exec, ArmedOpenLast, WindowsOf, EtmWindow.Exec, EtmWindow.ComparatorsHold, EtmWindow.Windows;
    ArmedOpenNext(before, P(ArmSinks), s, true);
    AttemptIsBegun(before, true);
    AttemptIsBegun(run, true);
    var calls := CallsOf(run, pids);
    CallsMakeWindows(run, pids);
    CallsJoin(before, P(ArmSinks), pids);
    OneCall(CallsOf(before, pids), P(ArmSinks), 2, pids);
    hide CallsOf, Begun, CallOf;
    EtmWindow.NoModeChange(calls);
    forall etms: seq<EtmWindow.Etm>, b: EtmWindow.Build | b.pidFilter && etms != []
      ensures !EtmWindow.ComparatorsHold(EtmWindow.Exec(EtmWindow.Initial(etms), b, calls), pids(2))
    {
      OpenWindowIsRightIff(run, true, calls, etms, b);
    }
  }
}
