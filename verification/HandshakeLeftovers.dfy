/** What an attempt leaves behind, decided where the proxy leaves the attempt:
    whether the sinks end up open, and whether the suspend flag ends up set,
    depend only on where the decoder is when the proxy closes the sinks and when
    it signals the exit, whatever the schedule afterwards. */
module HandshakeLeftovers {
  import opened Common
  import opened Handshake

  /** A drain is under way that has not opened the sinks again. */
  predicate Unreopened(d: Decoder) {
    d.WaitSuspend? || d.DrainDisable? || d.DrainFetch? || d.DrainEnable?
  }

  /** The rest of an attempt: no step of the run begins another. */
  predicate SameAttempt(run: seq<Step>) {
    forall i :: 0 <= i < |run| ==> run[i] != P(Begin)
  }

  // ---------------------------------------------------------- the sinks

  predicate AfterClose(p: Proxy) { p.Stopping? || p.Awaiting? || p.Idle? }

  /** The sinks were opened again or will be. */
  predicate Late(s: State) { s.reopened || Unreopened(s.decoder) }

  lemma ProxyKeepsLate(s: State, p: ProxyStep)
    requires AfterClose(s.proxy) && ProxyCan(s, p) && !p.Begin?
    ensures AfterClose(ProxyDo(s, p).proxy) && Late(ProxyDo(s, p)) == Late(s)
  {
    match p
    case Begin => case ArmSinks => case SignalStart => case Resume => case ReadStatus =>
    case SignalSuspend => case SignalExit => case CloseSinks => case SignalStop => case Return =>
  }

  /** The child is gone, so no SIGSTOP starts a new drain. */
  lemma GoneAfterExit(s: State)
    requires Inv(s) && (AfterClose(s.proxy) || s.proxy.Disabling?)
    ensures s.child.Reaped?
  {
  }

  lemma DecoderKeepsLate(s: State, d: DecoderStep, canDrain: bool)
    requires AfterClose(s.proxy) && s.child.Reaped? && DecoderCan(s, d, canDrain)
    requires s.proxy.Idle? ==> s.decoder.WaitStart? && !s.start
    ensures AfterClose(DecoderDo(s, d).proxy) && Late(DecoderDo(s, d)) == Late(s)
  {
    match d
    case TakeStart => case Enter => case SeeDead => case SeeAlive => case KeepPolling => case SendStop =>
    case TakeSuspend => case CloseForDrain => case FetchDrain => case ReopenSinks => case SendCont =>
    case DecodeDrain => case TakeStop => case FetchFinal => case DecodeFinal => case Publish =>
  }

  lemma StepKeepsLate(s: State, st: Step, canDrain: bool)
    requires Inv(s) && AfterClose(s.proxy) && Enabled(s, st, canDrain) && st != P(Begin)
    ensures AfterClose(Do(s, st, canDrain).proxy) && Late(Do(s, st, canDrain)) == Late(s)
  {
    GoneAfterExit(s);
    assert s.proxy.Idle? ==> s.decoder.WaitStart? && !s.start;
    hide Inv, ProxyDo, DecoderDo, ChildDo, Late;
    match st
    case P(p) => ProxyKeepsLate(s, p);
    case D(d) => DecoderKeepsLate(s, d, canDrain);
    case C(c) => ChildFrame(s, c); SameThreads(s, Do(s, st, canDrain));
  }

  lemma SameThreads(s: State, t: State)
    requires t.decoder == s.decoder && t.reopened == s.reopened
    ensures Late(t) == Late(s)
  {
  }

  lemma {:induction false} RunKeepsLate(s: State, run: seq<Step>, canDrain: bool)
    requires Inv(s) && AfterClose(s.proxy) && Exec(s, run, canDrain).Some? && SameAttempt(run)
    ensures Late(Exec(s, run, canDrain).value) == Late(s)
    decreases run
  {
    hide Inv, Enabled, Do, Late, AfterClose;
    if run != [] {
      StepKeepsInv(s, run[0], canDrain);
      StepKeepsLate(s, run[0], canDrain);
      RunKeepsLate(Do(s, run[0], canDrain), run[1..], canDrain);
    }
  }

  lemma ClosesLate(s: State)
    requires SinkLaw(s) && s.proxy.Disabling?
    ensures var t := ProxyDo(s, CloseSinks); AfterClose(t.proxy) && Late(t) == Unreopened(s.decoder)
  {
  }

  lemma LateAtIdle(s: State)
    requires Inv(s) && SinkLaw(s) && s.proxy.Idle?
    ensures Late(s) == s.open
  {
  }

  /** Whatever the schedule after `stop_trace` has closed the sinks, they are open
      between attempts if and only if a drain that had not opened them again was
      under way when it closed them. */
  lemma SinksLeftOpenIff(s: State, run: seq<Step>, canDrain: bool)
    requires Reachable(s, canDrain) && s.proxy.Disabling? && SameAttempt(run)
    requires Exec(ProxyDo(s, CloseSinks), run, canDrain).Some?
    requires Exec(ProxyDo(s, CloseSinks), run, canDrain).value.proxy.Idle?
    ensures Exec(ProxyDo(s, CloseSinks), run, canDrain).value.open <==> Unreopened(s.decoder)
  {
    var t := ProxyDo(s, CloseSinks);
    ReachableInv(s, canDrain);
    ReachableSinks(s, canDrain);
    StepKeepsInv(s, P(CloseSinks), canDrain);
    SinkStep(s, P(CloseSinks), canDrain);
    ClosesLate(s);
    hide Inv, SinkLaw, NeverDrains, Exec, Late, ProxyDo;
    RunKeepsInv(t, run, canDrain);
    SinksFollow(t, run, canDrain);
    RunKeepsLate(t, run, canDrain);
    LateAtIdle(Exec(t, run, canDrain).value);
  }

  // --------------------------------------------------- the suspend flag

  predicate AfterExit(p: Proxy) { p.Disabling? || AfterClose(p) }

  /** The flag was taken by a drain or will be. */
  predicate Taken(s: State) { s.decoder.WaitSuspend? || !s.suspend }

  lemma ProxyKeepsTaken(s: State, p: ProxyStep)
    requires AfterExit(s.proxy) && ProxyCan(s, p) && !p.Begin?
    ensures AfterExit(ProxyDo(s, p).proxy) && Taken(ProxyDo(s, p)) == Taken(s)
  {
    match p
    case Begin => case ArmSinks => case SignalStart => case Resume => case ReadStatus =>
    case SignalSuspend => case SignalExit => case CloseSinks => case SignalStop => case Return =>
  }

  lemma DecoderKeepsTaken(s: State, d: DecoderStep, canDrain: bool)
    requires AfterExit(s.proxy) && s.child.Reaped? && DecoderCan(s, d, canDrain)
    ensures AfterExit(DecoderDo(s, d).proxy) && Taken(DecoderDo(s, d)) == Taken(s)
  {
    match d
    case TakeStart => case Enter => case SeeDead => case SeeAlive => case KeepPolling => case SendStop =>
    case TakeSuspend => case CloseForDrain => case FetchDrain => case ReopenSinks => case SendCont =>
    case DecodeDrain => case TakeStop => case FetchFinal => case DecodeFinal => case Publish =>
  }

  lemma StepKeepsTaken(s: State, st: Step, canDrain: bool)
    requires Inv(s) && AfterExit(s.proxy) && Enabled(s, st, canDrain) && st != P(Begin)
    ensures AfterExit(Do(s, st, canDrain).proxy) && Taken(Do(s, st, canDrain)) == Taken(s)
  {
    GoneAfterExit(s);
    hide Inv, ProxyDo, DecoderDo, ChildDo;
    match st
    case P(p) => ProxyKeepsTaken(s, p);
    case D(d) => DecoderKeepsTaken(s, d, canDrain);
    case C(c) => ChildFrame(s, c);
  }

  lemma {:induction false} RunKeepsTaken(s: State, run: seq<Step>, canDrain: bool)
    requires Inv(s) && AfterExit(s.proxy) && Exec(s, run, canDrain).Some? && SameAttempt(run)
    ensures Taken(Exec(s, run, canDrain).value) == Taken(s)
    decreases run
  {
    hide Inv, Enabled, Do, Taken, AfterExit;
    if run != [] {
      StepKeepsInv(s, run[0], canDrain);
      StepKeepsTaken(s, run[0], canDrain);
      RunKeepsTaken(Do(s, run[0], canDrain), run[1..], canDrain);
    }
  }

  lemma TakenAtIdle(s: State)
    requires Inv(s) && s.proxy.Idle?
    ensures Taken(s) == !s.suspend
  {
  }

  /** Whatever the schedule after the exit is signalled, the suspend flag is still
      set between attempts if and only if no drain was waiting for it then. */
  lemma SuspendLeftSetIff(s: State, run: seq<Step>, canDrain: bool)
    requires Reachable(s, canDrain) && s.proxy.GotExit? && SameAttempt(run)
    requires Exec(ProxyDo(s, SignalExit), run, canDrain).Some?
    requires Exec(ProxyDo(s, SignalExit), run, canDrain).value.proxy.Idle?
    ensures Exec(ProxyDo(s, SignalExit), run, canDrain).value.suspend <==> !s.decoder.WaitSuspend?
  {
    var t := ProxyDo(s, SignalExit);
    ReachableInv(s, canDrain);
    StepKeepsInv(s, P(SignalExit), canDrain);
    assert AfterExit(t.proxy) && Taken(t) == s.decoder.WaitSuspend?;
    hide Inv, Exec, Taken, ProxyDo;
    RunKeepsInv(t, run, canDrain);
    RunKeepsTaken(t, run, canDrain);
    TakenAtIdle(Exec(t, run, canDrain).value);
  }
}
