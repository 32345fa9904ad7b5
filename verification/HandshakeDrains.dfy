/** What the suspend flag means to a drain. The flag survives from one attempt to
    the next, so a drain can take a notice that is older than its own SIGSTOP and
    fetch while the child still runs. Here is exactly when. */
module HandshakeDrains {
  import opened Common
  import opened Handshake

  /** The child can execute no further instruction before it is resumed. */
  predicate Halted(c: Child) { c == Stopped(true) || c.Zombie? || c.Reaped? }

  /** The child has not stopped yet. */
  predicate NotStopped(c: Child) { c.Running? || c.StopPending? }

  /** The decoder is about to send a SIGSTOP although a notice is on its way. */
  ghost predicate SendsStale(s: State, st: Step) { st == D(SendStop) && StopNoticed(s) }

  /** The last SIGSTOP of the run was sent with a notice already on its way. */
  ghost predicate StaleAfter(s: State, stale: bool, run: seq<Step>, canDrain: bool)
    requires Exec(s, run, canDrain).Some?
    decreases run
  {
    if run == [] then stale
    else StaleAfter(Do(s, run[0], canDrain), if run[0] == D(SendStop) then StopNoticed(s) else stale,
                    run[1..], canDrain)
  }

  // -------------------------------------------- drains with a fresh notice

  /** A drain under way has its child halted; one that waits will find it so. */
  ghost predicate FreshLaw(s: State) {
    && (s.decoder.WaitSuspend? && StopNoticed(s) ==> Halted(s.child))
    && (Draining(s.decoder) ==> Halted(s.child))
  }

  lemma ProxyKeepsFresh(s: State, st: ProxyStep)
    requires Inv(s) && FreshLaw(s) && ProxyCan(s, st)
    ensures FreshLaw(ProxyDo(s, st))
  {
  }

  lemma DecoderKeepsFresh(s: State, st: DecoderStep, canDrain: bool)
    requires Inv(s) && FreshLaw(s) && DecoderCan(s, st, canDrain) && !SendsStale(s, D(st))
    ensures FreshLaw(DecoderDo(s, st))
  {
    hide InFlight, ExitLaw, StopLaw, StartLaw;
    match st
    case TakeStart => case Enter => case SeeDead => case SeeAlive => case KeepPolling => case SendStop =>
    case TakeSuspend => case CloseForDrain => case FetchDrain => case ReopenSinks => case SendCont =>
    case DecodeDrain => case TakeStop => case FetchFinal => case DecodeFinal => case Publish =>
  }

  lemma ChildKeepsFresh(s: State, st: ChildStep)
    requires Inv(s) && FreshLaw(s) && ChildCan(s, st)
    ensures FreshLaw(ChildDo(s, st))
  {
  }

  lemma StepKeepsFresh(s: State, st: Step, canDrain: bool)
    requires Inv(s) && FreshLaw(s) && Enabled(s, st, canDrain) && !SendsStale(s, st)
    ensures FreshLaw(Do(s, st, canDrain))
  {
    hide Inv, FreshLaw, ProxyDo, DecoderDo, ChildDo;
    match st
    case P(p) => ProxyKeepsFresh(s, p);
    case D(d) => DecoderKeepsFresh(s, d, canDrain);
    case C(c) => ChildKeepsFresh(s, c);
  }

  lemma {:induction false} FreshAfter(s: State, stale: bool, run: seq<Step>, canDrain: bool)
    requires Inv(s) && (!stale ==> FreshLaw(s)) && Exec(s, run, canDrain).Some?
    ensures !StaleAfter(s, stale, run, canDrain) ==> FreshLaw(Exec(s, run, canDrain).value)
    decreases run
  {
    hide Inv, FreshLaw, StopNoticed, Enabled, Do;
    if run != [] {
      var st := run[0];
      StepKeepsInv(s, st, canDrain);
      if st == D(SendStop) { NoDrainYet(s, canDrain); }
      var stale' := if st == D(SendStop) then StopNoticed(s) else stale;
      if !stale' { StepKeepsFresh(s, st, canDrain); }
      FreshAfter(Do(s, st, canDrain), stale', run[1..], canDrain);
    }
  }

  /** Before its SIGSTOP no drain is under way. */
  lemma NoDrainYet(s: State, canDrain: bool)
    requires Enabled(s, D(SendStop), canDrain)
    ensures FreshLaw(s)
  {
  }

  lemma InitialIsFresh()
    ensures Inv(Initial) && FreshLaw(Initial)
  {
  }

  /** In every interleaving, a drain whose SIGSTOP was sent with no notice on its
      way has its child halted from its first step to its last. */
  lemma FreshDrainsAreHalted(run: seq<Step>, canDrain: bool)
    requires Exec(Initial, run, canDrain).Some? && !StaleAfter(Initial, false, run, canDrain)
    ensures var s := Exec(Initial, run, canDrain).value; Draining(s.decoder) ==> Halted(s.child)
  {
    hide Exec, StaleAfter, Inv;
    InitialIsFresh();
    FreshAfter(Initial, false, run, canDrain);
  }

  // -------------------------------------------- drains with a stale notice

  /** A schedule of one drain: the next SIGSTOP is not part of it. */
  predicate OneDrain(run: seq<Step>) {
    forall i :: 0 <= i < |run| ==> run[i] != D(SendStop)
  }

  /** After `run` this drain has fetched and the child has not stopped. */
  predicate FetchesEarly(s: State, run: seq<Step>)
    requires Enabled(s, D(SendStop), true)
  {
    var t := Exec(Do(s, D(SendStop), true), run, true);
    OneDrain(run) && t.Some? && t.value.decoder.DrainEnable? && NotStopped(t.value.child)
  }

  /** The schedule leads from `s` to `t` within one drain. */
  predicate Leads(s: State, run: seq<Step>, t: State) {
    OneDrain(run) && Exec(s, run, true) == Some(t)
  }

  lemma Next(s: State, run: seq<Step>, t: State, st: Step)
    requires Leads(s, run, t) && Enabled(t, st, true) && st != D(SendStop)
    ensures Leads(s, run + [st], Do(t, st, true))
  {
    hide Enabled, Do;
    ExecJoins(s, run, [st], true);
    assert [st][1..] == [];
    assert Exec(t, [st], true) == Some(Do(t, st, true));
  }

  /** A notice on its way to a waiting decoder can arrive before the child stops. */
  lemma NoticeArrives(s: State) returns (run: seq<Step>, t: State)
    requires Inv(s) && s.decoder.WaitSuspend? && s.child.StopPending? && StopNoticed(s)
    ensures Leads(s, run, t) && t.decoder.WaitSuspend? && t.child.StopPending? && t.suspend
  {
    run, t := [], s;
    if s.suspend { return; }
    var q := InFlight(s);
    assert s.proxy.Reading? || s.proxy.GotStop?;
    hide Inv;
    if s.proxy.GotStop? {
      Next(s, run, t, P(SignalSuspend));
      return [P(SignalSuspend)], ProxyDo(s, SignalSuspend);
    }
    if s.pipe == [] {
      assert s.relay == Some(StopStatus);
      Next(s, run, t, C(WriteStatus));
      run, t := run + [C(WriteStatus)], ChildDo(t, WriteStatus);
      assert t.pipe == [StopStatus];
    } else {
      assert s.pipe[0] == q[0];
      OldestIsStop(s);
    }
    Next(s, run, t, P(ReadStatus));
    run, t := run + [P(ReadStatus)], ProxyDo(t, ReadStatus);
    Next(s, run, t, P(SignalSuspend));
    run, t := run + [P(SignalSuspend)], ProxyDo(t, SignalSuspend);
  }

  /** While the child lives, every status on its way is a stop. */
  lemma OldestIsStop(s: State)
    requires Inv(s) && s.pipe != [] && !s.child.Reaped? && !s.child.Parked?
    ensures s.pipe[0].StopStatus?
  {
    var q := InFlight(s);
    assert q[0] == s.pipe[0];
    assert q[|q| - 1].StopStatus?;
  }

  lemma StaleFetchesEarly(s: State) returns (run: seq<Step>)
    requires Inv(s) && Enabled(s, D(SendStop), true) && s.child.Running? && StopNoticed(s)
    ensures FetchesEarly(s, run)
  {
    StepKeepsInv(s, D(SendStop), true);
    var t0 := Do(s, D(SendStop), true);
    assert StopNoticed(t0) && t0.decoder.WaitSuspend? && t0.child.StopPending?;
    hide Inv, StopNoticed;
    var t;
    run, t := NoticeArrives(t0);
    Next(t0, run, t, D(TakeSuspend));
    run, t := run + [D(TakeSuspend)], DecoderDo(t, TakeSuspend);
    Next(t0, run, t, D(CloseForDrain));
    run, t := run + [D(CloseForDrain)], DecoderDo(t, CloseForDrain);
    Next(t0, run, t, D(FetchDrain));
    run, t := run + [D(FetchDrain)], DecoderDo(t, FetchDrain);
  }

  lemma {:induction false} NoStopNoStale(s: State, run: seq<Step>, canDrain: bool)
    requires Exec(s, run, canDrain).Some? && OneDrain(run)
    ensures !StaleAfter(s, false, run, canDrain)
    decreases run
  {
    hide Enabled, Do, StopNoticed;
    if run != [] { NoStopNoStale(Do(s, run[0], canDrain), run[1..], canDrain); }
  }

  /** About to stop a running child, in any reachable state: some schedule has
      this drain fetch before the child stops if and only if a notice is already
      on its way, whether from a stop of the child's own or left from an earlier
      attempt. */
  lemma FetchesEarlyIff(s: State)
    requires Reachable(s, true) && Enabled(s, D(SendStop), true) && s.child.Running?
    ensures (exists run :: FetchesEarly(s, run)) <==> StopNoticed(s)
  {
    ReachableInv(s, true);
    if StopNoticed(s) {
      var run := StaleFetchesEarly(s);
    } else {
      NoDrainYet(s, true);
      StepKeepsInv(s, D(SendStop), true);
      StepKeepsFresh(s, D(SendStop), true);
      var t := Do(s, D(SendStop), true);
      hide Inv, StopNoticed, Do, Enabled;
      forall run ensures !FetchesEarly(s, run) {
        if FetchesEarly(s, run) {
          NoStopNoStale(t, run, true);
          FreshAfter(t, false, run, true);
          assert false;
        }
      }
    }
  }

  // --------------------------------------- what an attempt leaves behind

  /** The exit was signalled and no drain has taken that signal since. */
  ghost predicate LeftUntaken(run: seq<Step>) {
    exists i :: 0 <= i < |run| && run[i] == P(SignalExit) && forall j :: i < j < |run| ==> run[j] != D(TakeSuspend)
  }

  /** The proxy has seen this attempt's child exit, or is done with it. */
  predicate ExitSeen(s: State) {
    s.proxy.Disabling? || s.proxy.Stopping? || s.proxy.Awaiting? || (s.proxy.Idle? && s.attempt > 0)
  }

  lemma LeftUntakenNext(run: seq<Step>, st: Step)
    ensures LeftUntaken(run + [st]) <==>
              st == P(SignalExit) || (st != D(TakeSuspend) && LeftUntaken(run))
  {
    var all, n := run + [st], |run|;
    if st == P(SignalExit) {
      assert all[n] == P(SignalExit);
    } else if st == D(TakeSuspend) {
      assert all[n] == D(TakeSuspend);
    } else {
      if LeftUntaken(run) {
        var i :| 0 <= i < n && run[i] == P(SignalExit) && forall j :: i < j < n ==> run[j] != D(TakeSuspend);
        assert all[i] == P(SignalExit) && forall j :: i < j < n + 1 ==> all[j] != D(TakeSuspend);
      }
      if LeftUntaken(all) {
        var i :| 0 <= i < n + 1 && all[i] == P(SignalExit) && forall j :: i < j < n + 1 ==> all[j] != D(TakeSuspend);
        assert i < n && run[i] == all[i];
        assert forall j :: i < j < n ==> run[j] == all[j];
      }
    }
  }

  /** How one step changes the flag once the exit has been seen. */
  lemma SuspendStep(s: State, st: Step, canDrain: bool)
    requires Enabled(s, st, canDrain)
    ensures var t := Do(s, st, canDrain);
            ExitSeen(t) ==>
              && (ExitSeen(s) || st == P(SignalExit))
              && (t.suspend <==> st == P(SignalExit) || (st != D(TakeSuspend) && s.suspend))
  {
    match st
    case P(p) => ProxySuspendStep(s, p);
    case D(d) => DecoderSuspendStep(s, d, canDrain);
    case C(c) => ChildFrame(s, c);
  }

  lemma ProxySuspendStep(s: State, p: ProxyStep)
    requires ProxyCan(s, p)
    ensures var t := ProxyDo(s, p);
            ExitSeen(t) ==> (ExitSeen(s) || p.SignalExit?) && (t.suspend <==> p.SignalExit? || s.suspend)
  {
  }

  lemma DecoderSuspendStep(s: State, d: DecoderStep, canDrain: bool)
    requires DecoderCan(s, d, canDrain)
    ensures DecoderDo(s, d).proxy == s.proxy && DecoderDo(s, d).attempt == s.attempt
    ensures DecoderDo(s, d).suspend == (s.suspend && !d.TakeSuspend?)
  {
    match d
    case TakeStart => case Enter => case SeeDead => case SeeAlive => case KeepPolling => case SendStop =>
    case TakeSuspend => case CloseForDrain => case FetchDrain => case ReopenSinks => case SendCont =>
    case DecodeDrain => case TakeStop => case FetchFinal => case DecodeFinal => case Publish =>
  }

  lemma {:induction false} SuspendFollowsRun(run: seq<Step>, canDrain: bool)
    requires Exec(Initial, run, canDrain).Some?
    ensures var s := Exec(Initial, run, canDrain).value;
            ExitSeen(s) ==> (s.suspend <==> LeftUntaken(run)) && (!canDrain ==> s.suspend)
    decreases |run|
  {
    if run != [] {
      var before, st := run[..|run| - 1], run[|run| - 1];
      assert run == before + [st];
      var s := Before(before, st, canDrain);
      hide Exec, Do, Enabled, ExitSeen, LeftUntaken, NeverDrains;
      SuspendFollowsRun(before, canDrain);
      SuspendStep(s, st, canDrain);
      LeftUntakenNext(before, st);
      if !canDrain { ReachableSinks(s, canDrain); NobodyTakes(s, st); }
    }
  }

  lemma NobodyTakes(s: State, st: Step)
    requires NeverDrains(s) && Enabled(s, st, false)
    ensures st != D(TakeSuspend)
  {
  }

  /** Between attempts the suspend flag is set if and only if no drain took it
      after the proxy had signalled the last exit; without draining, always. */
  lemma SuspendAtIdleIff(run: seq<Step>, canDrain: bool)
    requires Exec(Initial, run, canDrain).Some?
    requires var s := Exec(Initial, run, canDrain).value; s.proxy.Idle? && s.attempt > 0
    ensures Exec(Initial, run, canDrain).value.suspend <==> LeftUntaken(run)
    ensures !canDrain ==> Exec(Initial, run, canDrain).value.suspend
  {
    hide Exec, LeftUntaken;
    SuspendFollowsRun(run, canDrain);
  }

  /** A flag left set makes the next SIGSTOP stale, however late it is sent. */
  lemma {:induction false} LeftoverIsStale(s: State, run: seq<Step>, canDrain: bool)
    requires s.suspend && Exec(s, run, canDrain).Some?
    requires forall i :: 0 <= i < |run| ==> run[i] != D(TakeSuspend)
    ensures StopNoticed(Exec(s, run, canDrain).value)
    decreases run
  {
    if run != [] {
      KeepsSuspend(s, run[0], canDrain);
      hide Enabled, Do;
      LeftoverIsStale(Do(s, run[0], canDrain), run[1..], canDrain);
    }
  }

  lemma KeepsSuspend(s: State, st: Step, canDrain: bool)
    requires s.suspend && Enabled(s, st, canDrain) && st != D(TakeSuspend)
    ensures Do(s, st, canDrain).suspend
  {
    match st
    case P(p) =>
    case D(d) => DecoderSuspendStep(s, d, canDrain);
    case C(c) => ChildFrame(s, c);
  }

  /** It happens: the first drain of a second attempt fetches before its child
      has stopped. */
  lemma DrainCanFetchEarly() returns (s: State)
    ensures Reachable(s, true) && s.decoder.DrainEnable? && s.child.StopPending?
  {
    hide Reachable;
    s := SuspendCanBeLeftSet(true);
    IdleIsClean(s, true);
    s := TakeP(s, true, Begin);
    s := TakeP(s, true, ArmSinks);
    s := TakeP(s, true, SignalStart);
    s := TakeP(s, true, Resume);
    s := TakeD(s, true, TakeStart);
    s := TakeD(s, true, Enter);
    s := TakeD(s, true, SeeAlive);
    s := TakeD(s, true, SendStop);
    s := TakeD(s, true, TakeSuspend);
    s := TakeD(s, true, CloseForDrain);
    s := TakeD(s, true, FetchDrain);
  }
}
