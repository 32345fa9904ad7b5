/** The handshake between the proxy and the decoder thread over one traced
    child after another, as atomic steps of the two threads, the child and the
    fork server that relays its status.

    Hypotheses: decoding is on, `start_trace` succeeds, no drain takes an error
    exit, the trace does not grow and nobody kills the child before it is first
    resumed, no signal but SIGSTOP stops the child, and `fini_trace` has not been
    called. The drain threshold is arbitrary: a check
    of the write pointer may go either way at any time, unless draining is off
    (`canDrain` false, the threshold the Stalker backend sets). */
module Handshake {
  import opened Common

  /** The proxy, from `start_trace` to the return of `stop_trace`. */
  datatype Proxy =
    | Idle
    | Arming      // not-ready published, sinks still closed
    | Armed       // sinks open, start not signalled
    | Started     // start signalled, child still parked
    | Reading     // waiting for the child's status
    | GotStop     // read a stop, about to signal suspend
    | GotExit     // read the exit, about to signal suspend
    | Disabling   // stop_trace entered
    | Stopping    // sinks closed, about to signal stop
    | Awaiting    // waiting for decoder_ready

  /** The decoder thread. */
  datatype Decoder =
    | WaitStart | Entering
    | Polling       // about to test whether the child exists
    | Checked       // it did; about to look at the write pointer
    | WaitSuspend   // sent SIGSTOP
    | DrainDisable | DrainFetch | DrainEnable | Continuing | DrainDecode
    | WaitStop      // the child is gone
    | FinalFetch | FinalDecode | Publishing

  datatype Child =
    | Parked | Running
    | StopPending               // SIGSTOP sent, not delivered
    | Stopped(reported: bool)   // reported: the fork server has seen this stop
    | Zombie | Reaped

  datatype Status = StopStatus | ExitStatus

  datatype State = State(
    proxy: Proxy, decoder: Decoder, child: Child,
    relay: Option<Status>,   // status the fork server is about to write
    pipe: seq<Status>,       // statuses written and not read
    start: bool, suspend: bool, stop: bool,   // the pending-event flags
    ready: bool,             // decoder_ready
    open: bool,              // the trace sinks are enabled
    attempt: nat,            // attempts begun
    decoded: nat,            // the attempt last fetched and decoded to its end
    fetched: nat,            // the attempt last fetched to its end
    reopened: bool)          // a drain opened the sinks after stop_trace closed them

  /** The decoder thread is about to wait for its first start; `init_trace` cleared
      `decoder_ready` before creating it. */
  const Initial :=
    State(Idle, WaitStart, Reaped, None, [], false, false, false, false, false, 0, 0, 0, false)

  // ---------------------------------------------------------- the proxy

  datatype ProxyStep =
    | Begin | ArmSinks | SignalStart | Resume | ReadStatus | SignalSuspend | SignalExit
    | CloseSinks | SignalStop | Return

  predicate ProxyCan(s: State, st: ProxyStep) {
    match st
    case Begin => s.proxy.Idle?
    case ArmSinks => s.proxy.Arming?
    case SignalStart => s.proxy.Armed?
    case Resume => s.proxy.Started?
    case ReadStatus => s.proxy.Reading? && s.pipe != []
    case SignalSuspend => s.proxy.GotStop?
    case SignalExit => s.proxy.GotExit?
    case CloseSinks => s.proxy.Disabling?
    case SignalStop => s.proxy.Stopping?
    case Return => s.proxy.Awaiting? && s.ready
  }

  function ProxyDo(s: State, st: ProxyStep): State
    requires ProxyCan(s, st)
  {
    match st
    case Begin => s.(proxy := Arming, ready := false, child := Parked, attempt := s.attempt + 1, reopened := false)
    case ArmSinks => s.(proxy := Armed, open := true)
    case SignalStart => s.(proxy := Started, start := true)
    case Resume => s.(proxy := Reading, child := if s.child.Parked? then Running else s.child)
    case ReadStatus => s.(proxy := if s.pipe[0].StopStatus? then GotStop else GotExit, pipe := s.pipe[1..])
    case SignalSuspend => s.(proxy := Reading, suspend := true)
    case SignalExit => s.(proxy := Disabling, suspend := true)
    case CloseSinks => s.(proxy := Stopping, open := false)
    case SignalStop => s.(proxy := Awaiting, stop := true)
    case Return => s.(proxy := Idle)
  }

  // -------------------------------------------------------- the decoder

  datatype DecoderStep =
    | TakeStart | Enter | SeeDead | SeeAlive | KeepPolling | SendStop | TakeSuspend
    | CloseForDrain | FetchDrain | ReopenSinks | SendCont | DecodeDrain
    | TakeStop | FetchFinal | DecodeFinal | Publish

  predicate DecoderCan(s: State, st: DecoderStep, canDrain: bool) {
    match st
    case TakeStart => s.decoder.WaitStart? && s.start
    case Enter => s.decoder.Entering?
    case SeeDead => s.decoder.Polling? && s.child.Reaped?
    case SeeAlive => s.decoder.Polling? && !s.child.Reaped?
    case KeepPolling => s.decoder.Checked?
    case SendStop => s.decoder.Checked? && canDrain && !s.child.Parked?
    case TakeSuspend => s.decoder.WaitSuspend? && s.suspend
    case CloseForDrain => s.decoder.DrainDisable?
    case FetchDrain => s.decoder.DrainFetch?
    case ReopenSinks => s.decoder.DrainEnable?
    case SendCont => s.decoder.Continuing?
    case DecodeDrain => s.decoder.DrainDecode?
    case TakeStop => s.decoder.WaitStop? && s.stop
    case FetchFinal => s.decoder.FinalFetch?
    case DecodeFinal => s.decoder.FinalDecode?
    case Publish => s.decoder.Publishing?
  }

  function DecoderDo(s: State, st: DecoderStep): State {
    match st
    case TakeStart => s.(decoder := Entering, start := false)
    case Enter => s.(decoder := Polling, ready := false)
    case SeeDead => s.(decoder := WaitStop)
    case SeeAlive => s.(decoder := Checked)
    case KeepPolling => s.(decoder := Polling)
    case SendStop =>
      if s.child.Reaped? then s.(decoder := WaitStop)
      else s.(decoder := WaitSuspend, child := if s.child.Running? then StopPending else s.child)
    case TakeSuspend => s.(decoder := DrainDisable, suspend := false)
    case CloseForDrain => s.(decoder := DrainFetch, open := false)
    case FetchDrain => s.(decoder := DrainEnable)
    case ReopenSinks =>
      s.(decoder := Continuing, open := true, reopened := s.reopened || s.proxy.Stopping? || s.proxy.Awaiting?)
    case SendCont =>
      if s.child.Reaped? then s.(decoder := WaitStop)
      else s.(decoder := DrainDecode,
              child := if s.child.StopPending? || s.child.Stopped? then Running else s.child)
    case DecodeDrain => s.(decoder := Polling)
    case TakeStop => s.(decoder := FinalFetch, stop := false)
    case FetchFinal => s.(decoder := FinalDecode, fetched := s.attempt)
    case DecodeFinal => s.(decoder := Publishing, decoded := s.fetched)
    case Publish => s.(decoder := WaitStart, ready := true)
  }

  // ------------------------------------- the child and the fork server

  datatype ChildStep = DeliverStop | StopItself | Die | Observe | WriteStatus

  predicate ChildCan(s: State, st: ChildStep) {
    match st
    case DeliverStop => s.child.StopPending?
    case StopItself => s.child.Running?
    case Die => s.child.Running? || s.child.StopPending? || s.child.Stopped?
    case Observe => s.relay.None? && (s.child == Stopped(false) || s.child.Zombie?)
    case WriteStatus => s.relay.Some?
  }

  function ChildDo(s: State, st: ChildStep): State
    requires ChildCan(s, st)
  {
    match st
    case DeliverStop => s.(child := Stopped(false))
    case StopItself => s.(child := Stopped(false))
    case Die => s.(child := Zombie)
    case Observe =>
      if s.child.Zombie? then s.(child := Reaped, relay := Some(ExitStatus))
      else s.(child := Stopped(true), relay := Some(StopStatus))
    case WriteStatus => s.(relay := None, pipe := s.pipe + [s.relay.value])
  }

  datatype Step = P(p: ProxyStep) | D(d: DecoderStep) | C(c: ChildStep)

  predicate Enabled(s: State, st: Step, canDrain: bool) {
    match st
    case P(p) => ProxyCan(s, p)
    case D(d) => DecoderCan(s, d, canDrain)
    case C(c) => ChildCan(s, c)
  }

  function Do(s: State, st: Step, canDrain: bool): State
    requires Enabled(s, st, canDrain)
  {
    match st
    case P(p) => ProxyDo(s, p)
    case D(d) => DecoderDo(s, d)
    case C(c) => ChildDo(s, c)
  }

  // ------------------------------------------------------------ invariant

  /** The decoder was told of this attempt's start and has not published. */
  predicate Busy(s: State) { s.start || !s.decoder.WaitStart? }

  predicate Draining(d: Decoder) {
    d.DrainDisable? || d.DrainFetch? || d.DrainEnable? || d.Continuing?
  }

  predicate Finishing(d: Decoder) { d.FinalFetch? || d.FinalDecode? || d.Publishing? }

  /** Statuses on their way to the proxy, oldest first. */
  function InFlight(s: State): seq<Status> { s.pipe + (if s.relay.Some? then [s.relay.value] else []) }

  /** The start flag and the decoder's place follow the proxy's. */
  ghost predicate StartLaw(s: State) {
    match s.proxy
    case Idle => !Busy(s) && s.decoded == s.attempt
    case Arming => !Busy(s) && s.decoded + 1 == s.attempt
    case Armed => !Busy(s) && s.decoded + 1 == s.attempt
    case Awaiting => true
    case _ => Busy(s) && s.decoded + 1 == s.attempt
  }

  /** The stop flag is consumed once, by the final fetch. */
  ghost predicate StopLaw(s: State) {
    && (s.stop ==> s.proxy.Awaiting? && Busy(s) && !Finishing(s.decoder))
    && (Finishing(s.decoder) ==> s.proxy.Awaiting? && !s.stop)
    && (s.start ==> s.decoder.WaitStart?)
    && (s.proxy.Awaiting? && !s.stop ==> Finishing(s.decoder) || !Busy(s))
    && (s.proxy.Awaiting? ==> if !Busy(s) then s.decoded == s.attempt && s.ready
                              else s.decoded + 1 == s.attempt || (s.decoder.Publishing? && s.decoded == s.attempt))
    && (s.decoder.FinalDecode? ==> s.fetched == s.attempt)
    && (s.decoder.Publishing? ==> s.decoded == s.attempt)
    && (s.ready ==> s.proxy.Idle? || (s.proxy.Awaiting? && !Busy(s)))
  }

  /** One exit status per attempt, the last one, read before the trace stops. */
  ghost predicate ExitLaw(s: State) {
    var q := InFlight(s);
    && (forall i :: 0 <= i < |q| - 1 ==> q[i].StopStatus?)
    && (match s.proxy
        case Idle => s.child.Reaped? && q == []
        case Arming => s.child.Parked? && q == []
        case Armed => s.child.Parked? && q == []
        case Started => s.child.Parked? && q == []
        case Reading => !s.child.Parked? && (s.child.Reaped? <==> q != [] && q[|q| - 1].ExitStatus?)
        case GotStop => !s.child.Parked? && (s.child.Reaped? <==> q != [] && q[|q| - 1].ExitStatus?)
        case _ => s.child.Reaped? && q == [])
    && (s.decoder.WaitStop? || Finishing(s.decoder) ==> s.child.Reaped?)
    && (Busy(s) && !s.decoder.WaitStart? ==> !s.proxy.Idle? && !s.proxy.Arming? && !s.proxy.Armed?)
  }

  /** A reported stop that no drain has answered is still on its way. */
  ghost predicate StopNoticed(s: State) {
    s.suspend || s.proxy.GotStop? || s.proxy.GotExit? || StopStatus in s.pipe || s.relay == Some(StopStatus)
  }

  /** A decoder waiting for a suspend will get one. */
  ghost predicate SuspendLaw(s: State) {
    && (s.child == Stopped(true) && !Draining(s.decoder) ==> StopNoticed(s))
    && (s.decoder.WaitSuspend? ==>
          || StopNoticed(s) || s.child.StopPending? || s.child == Stopped(false) || s.child.Zombie?
          || (s.child.Reaped? && InFlight(s) != []))
  }

  ghost predicate Inv(s: State) { StartLaw(s) && StopLaw(s) && ExitLaw(s) && SuspendLaw(s) }

  lemma ProxyKeepsFlags(s: State, st: ProxyStep)
    requires Inv(s) && ProxyCan(s, st)
    ensures StartLaw(ProxyDo(s, st)) && StopLaw(ProxyDo(s, st))
  {
    hide SuspendLaw, InFlight;
  }

  lemma DecoderKeepsFlags(s: State, st: DecoderStep, canDrain: bool)
    requires Inv(s) && DecoderCan(s, st, canDrain)
    ensures StartLaw(DecoderDo(s, st)) && StopLaw(DecoderDo(s, st))
  {
    hide SuspendLaw, InFlight;
  }

  /** A step of the child or the fork server touches nothing the threads own. */
  lemma ChildFrame(s: State, st: ChildStep)
    requires ChildCan(s, st)
    ensures var t := ChildDo(s, st);
            && t.proxy == s.proxy && t.decoder == s.decoder && t.attempt == s.attempt
            && t.start == s.start && t.suspend == s.suspend && t.stop == s.stop && t.ready == s.ready
            && t.decoded == s.decoded && t.fetched == s.fetched && t.open == s.open && t.reopened == s.reopened
  {
    match st
    case DeliverStop =>
    case StopItself =>
    case Die =>
    case Observe =>
    case WriteStatus =>
  }

  lemma ChildKeepsFlags(s: State, st: ChildStep)
    requires Inv(s) && ChildCan(s, st)
    ensures StartLaw(ChildDo(s, st)) && StopLaw(ChildDo(s, st))
  {
    hide SuspendLaw, ExitLaw, ChildDo, ChildCan;
    ChildFrame(s, st);
  }

  lemma ProxyInFlight(s: State, st: ProxyStep)
    requires ProxyCan(s, st)
    ensures var q, q' := InFlight(s), InFlight(ProxyDo(s, st));
            if st.ReadStatus? then q == [s.pipe[0]] + q' else q' == q
  {
  }

  lemma DecoderFrame(s: State, st: DecoderStep)
    ensures DecoderDo(s, st).proxy == s.proxy
    ensures DecoderDo(s, st).pipe == s.pipe
    ensures DecoderDo(s, st).relay == s.relay
  {
    match st
    case TakeStart => case Enter => case SeeDead => case SeeAlive => case KeepPolling => case SendStop =>
    case TakeSuspend => case CloseForDrain => case FetchDrain => case ReopenSinks => case SendCont =>
    case DecodeDrain => case TakeStop => case FetchFinal => case DecodeFinal => case Publish =>
  }

  lemma DecoderSparesChild(s: State, st: DecoderStep)
    ensures DecoderDo(s, st).child.Reaped? == s.child.Reaped?
    ensures DecoderDo(s, st).child.Parked? == s.child.Parked?
  {
    match st
    case TakeStart => case Enter => case SeeDead => case SeeAlive => case KeepPolling => case SendStop =>
    case TakeSuspend => case CloseForDrain => case FetchDrain => case ReopenSinks => case SendCont =>
    case DecodeDrain => case TakeStop => case FetchFinal => case DecodeFinal => case Publish =>
  }

  lemma DecoderPlace(s: State, st: DecoderStep, canDrain: bool)
    requires DecoderCan(s, st, canDrain)
    ensures var d := DecoderDo(s, st).decoder;
            d.WaitStop? || Finishing(d) ==> s.child.Reaped? || s.decoder.WaitStop? || Finishing(s.decoder)
    ensures !DecoderDo(s, st).decoder.WaitStart? ==> Busy(s)
  {
  }

  lemma ProxyKeepsExit(s: State, st: ProxyStep)
    requires Inv(s) && ProxyCan(s, st)
    ensures ExitLaw(ProxyDo(s, st))
  {
    hide SuspendLaw, InFlight;
    ProxyInFlight(s, st);
    var q, q' := InFlight(s), InFlight(ProxyDo(s, st));
    if st.ReadStatus? {
      assert q[0] == s.pipe[0];
      assert forall i :: 0 <= i < |q'| ==> q'[i] == q[i + 1];
    }
  }

  lemma DecoderKeepsExit(s: State, st: DecoderStep, canDrain: bool)
    requires Inv(s) && DecoderCan(s, st, canDrain)
    ensures ExitLaw(DecoderDo(s, st))
  {
    DecoderFrame(s, st);
    DecoderSparesChild(s, st);
    DecoderPlace(s, st, canDrain);
    hide SuspendLaw, StopLaw, DecoderDo, DecoderCan, Finishing;
  }

  lemma ChildInFlight(s: State, st: ChildStep)
    requires ChildCan(s, st)
    ensures var q, q' := InFlight(s), InFlight(ChildDo(s, st));
            q' == if st.Observe? then q + [if s.child.Zombie? then ExitStatus else StopStatus] else q
  {
    match st
    case DeliverStop =>
    case StopItself =>
    case Die =>
    case Observe =>
    case WriteStatus =>
  }

  lemma ChildKeepsExit(s: State, st: ChildStep)
    requires Inv(s) && ChildCan(s, st)
    ensures ExitLaw(ChildDo(s, st))
  {
    hide SuspendLaw, StopLaw, InFlight, Finishing;
    ChildFrame(s, st);
    ChildInFlight(s, st);
  }

  lemma ProxyKeepsSuspend(s: State, st: ProxyStep)
    requires Inv(s) && ProxyCan(s, st)
    ensures SuspendLaw(ProxyDo(s, st))
  {
  }

  lemma DecoderKeepsSuspend(s: State, st: DecoderStep, canDrain: bool)
    requires Inv(s) && DecoderCan(s, st, canDrain)
    ensures SuspendLaw(DecoderDo(s, st))
  {
  }

  lemma ChildKeepsSuspend(s: State, st: ChildStep)
    requires Inv(s) && ChildCan(s, st)
    ensures SuspendLaw(ChildDo(s, st))
  {
  }

  /** Every step of every thread keeps the handshake's invariant. */
  lemma StepKeepsInv(s: State, st: Step, canDrain: bool)
    requires Inv(s) && Enabled(s, st, canDrain)
    ensures Inv(Do(s, st, canDrain))
  {
    hide StartLaw, StopLaw, ExitLaw, SuspendLaw, ProxyDo, DecoderDo, ChildDo;
    match st
    case P(p) => ProxyKeepsFlags(s, p); ProxyKeepsExit(s, p); ProxyKeepsSuspend(s, p);
    case D(d) =>
      DecoderKeepsFlags(s, d, canDrain);
      DecoderKeepsExit(s, d, canDrain);
      DecoderKeepsSuspend(s, d, canDrain);
    case C(c) => ChildKeepsFlags(s, c); ChildKeepsExit(s, c); ChildKeepsSuspend(s, c);
  }

  // ------------------------------------------------------- reachable states

  /** The state after an interleaving, if each of its steps could be taken. */
  function Exec(s: State, run: seq<Step>, canDrain: bool): Option<State>
    decreases run
  {
    if run == [] then Some(s)
    else if Enabled(s, run[0], canDrain) then Exec(Do(s, run[0], canDrain), run[1..], canDrain)
    else None
  }

  lemma {:induction false} RunKeepsInv(s: State, run: seq<Step>, canDrain: bool)
    requires Inv(s)
    ensures Exec(s, run, canDrain).Some? ==> Inv(Exec(s, run, canDrain).value)
    decreases run
  {
    hide Inv, Enabled, Do;
    if run != [] && Enabled(s, run[0], canDrain) {
      StepKeepsInv(s, run[0], canDrain);
      RunKeepsInv(Do(s, run[0], canDrain), run[1..], canDrain);
    }
  }

  /** Reachable by some interleaving of any number of attempts. */
  ghost predicate Reachable(s: State, canDrain: bool) {
    exists run :: Exec(Initial, run, canDrain) == Some(s)
  }

  lemma ReachableInv(s: State, canDrain: bool)
    requires Reachable(s, canDrain)
    ensures Inv(s)
  {
    assert Inv(Initial);
    hide Inv;
    var run :| Exec(Initial, run, canDrain) == Some(s);
    RunKeepsInv(Initial, run, canDrain);
  }

  /** `stop_trace` returns only once the final fetch and decode of the very
      attempt it stops are done. */
  lemma StopReturnsAfterDecode(s: State, canDrain: bool)
    requires Reachable(s, canDrain) && ProxyCan(s, Return)
    ensures s.decoded == s.attempt && s.decoder.WaitStart? && !s.start && !s.stop
  {
    ReachableInv(s, canDrain);
  }

  /** Between attempts nothing is pending but possibly a suspend, and the decoder
      is on its way to wait for a start. */
  lemma IdleIsClean(s: State, canDrain: bool)
    requires Reachable(s, canDrain) && s.proxy.Idle?
    ensures !s.start && !s.stop && s.decoder.WaitStart? && s.decoded == s.attempt
    ensures s.child.Reaped? && s.pipe == [] && s.relay.None?
  {
    ReachableInv(s, canDrain);
    assert |InFlight(s)| == |s.pipe| + (if s.relay.Some? then 1 else 0);
  }

  predicate ProxyBlocked(s: State) {
    (s.proxy.Reading? && s.pipe == []) || (s.proxy.Awaiting? && !s.ready)
  }

  predicate DecoderBlocked(s: State) {
    || (s.decoder.WaitStart? && !s.start)
    || (s.decoder.WaitSuspend? && !s.suspend)
    || (s.decoder.WaitStop? && !s.stop)
  }

  /** A status report is on its way whatever the child chooses to do. */
  predicate ReportDue(s: State) {
    s.relay.Some? || s.child.StopPending? || s.child == Stopped(false) || s.child.Zombie?
  }

  /** The two threads never wait for each other: both block only while a report
      of the child's stop or exit is already due, and never once the proxy has
      left its reading loop. */
  lemma NeverBothBlocked(s: State, canDrain: bool)
    requires Reachable(s, canDrain) && ProxyBlocked(s) && DecoderBlocked(s)
    ensures s.proxy.Reading? && ReportDue(s)
  {
    ReachableInv(s, canDrain);
    assert |InFlight(s)| == |s.pipe| + (if s.relay.Some? then 1 else 0);
  }

  // ------------------------------------------------- the stop comes through

  function ProxyRank(p: Proxy): nat {
    match p
    case Idle => 0 case Awaiting => 1 case Stopping => 2 case Disabling => 3 case GotExit => 4
    case Reading => 5 case GotStop => 6 case Started => 6 case Armed => 7 case Arming => 8
  }

  function DecoderRank(d: Decoder, start: bool): nat {
    match d
    case WaitStart => if start then 13 else 0
    case Publishing => 1 case FinalDecode => 2 case FinalFetch => 3 case WaitStop => 4
    case Continuing => 5 case DrainEnable => 6 case DrainFetch => 7 case DrainDisable => 8 case WaitSuspend => 9
    case Polling => 10 case Checked => 11 case DrainDecode => 11 case Entering => 12
  }

  /** Steps left, at most, once the child is gone. */
  function Rank(s: State): nat {
    ProxyRank(s.proxy) + DecoderRank(s.decoder, s.start) + 3 * |s.pipe| + (if s.relay.Some? then 4 else 0)
  }

  lemma ProxyStepCounts(s: State, st: ProxyStep)
    requires s.child.Reaped? && !s.proxy.Idle? && !s.proxy.Armed? && ProxyCan(s, st)
    ensures var t := ProxyDo(s, st);
            Rank(t) < Rank(s) && t.child.Reaped? && t.attempt == s.attempt
  {
  }

  lemma DecoderStepCounts(s: State, st: DecoderStep, canDrain: bool)
    requires s.child.Reaped? && DecoderCan(s, st, canDrain) && (s.start ==> s.decoder.WaitStart?)
    requires s.decoder.Publishing? ==> !s.start
    ensures var t := DecoderDo(s, st);
            Rank(t) < Rank(s) && t.child.Reaped? && t.attempt == s.attempt
  {
  }

  lemma ChildStepCounts(s: State, st: ChildStep)
    requires s.child.Reaped? && ChildCan(s, st)
    ensures var t := ChildDo(s, st);
            Rank(t) < Rank(s) && t.child.Reaped? && t.attempt == s.attempt
  {
  }

  /** With the child gone, every step of any thread brings the return closer. */
  lemma EveryStepCounts(s: State, st: Step, canDrain: bool)
    requires Inv(s) && s.child.Reaped? && !s.proxy.Idle? && Enabled(s, st, canDrain)
    ensures var t := Do(s, st, canDrain);
            Rank(t) < Rank(s) && t.child.Reaped? && t.attempt == s.attempt
  {
    hide Rank, ProxyDo, DecoderDo, ChildDo, InFlight;
    match st
    case P(p) => ProxyStepCounts(s, p);
    case D(d) => DecoderStepCounts(s, d, canDrain);
    case C(c) => ChildStepCounts(s, c);
  }

  /** With the child gone, some thread can always step until `stop_trace`
      returns. */
  lemma NeverStuckOnceGone(s: State, canDrain: bool) returns (st: Step)
    requires Inv(s) && s.child.Reaped? && !s.proxy.Idle?
    ensures Enabled(s, st, canDrain)
  {
    assert |InFlight(s)| == |s.pipe| + (if s.relay.Some? then 1 else 0);
    match s.proxy
    case Idle => assert false;
    case Arming => st := P(ArmSinks);
    case Armed => st := P(SignalStart);
    case Started => st := P(Resume);
    case Reading => st := if s.pipe != [] then P(ReadStatus) else C(WriteStatus);
    case GotStop => st := P(SignalSuspend);
    case GotExit => st := P(SignalExit);
    case Disabling => st := P(CloseSinks);
    case Stopping => st := P(SignalStop);
    case Awaiting =>
      match s.decoder {
        case WaitStart => st := if s.start then D(TakeStart) else P(Return);
        case Entering => st := D(Enter);
        case Polling => st := D(SeeDead);
        case Checked => st := D(KeepPolling);
        case WaitSuspend => st := D(TakeSuspend);
        case DrainDisable => st := D(CloseForDrain);
        case DrainFetch => st := D(FetchDrain);
        case DrainEnable => st := D(ReopenSinks);
        case Continuing => st := D(SendCont);
        case DrainDecode => st := D(DecodeDrain);
        case WaitStop => st := D(TakeStop);
        case FinalFetch => st := D(FetchFinal);
        case FinalDecode => st := D(DecodeFinal);
        case Publishing => st := D(Publish);
      }
  }

  /** Whatever the schedule, once the child is gone the threads cannot take more
      than `Rank` steps without `stop_trace` having returned. */
  lemma {:induction false} ReturnsWithinRank(s: State, run: seq<Step>, canDrain: bool)
    requires Inv(s) && s.child.Reaped? && !s.proxy.Idle? && Exec(s, run, canDrain).Some?
    requires forall i :: 0 <= i < |run| ==>
               Exec(s, run[..i], canDrain).Some? && !Exec(s, run[..i], canDrain).value.proxy.Idle?
    ensures |run| <= Rank(s)
    decreases run
  {
    hide Inv, Enabled, Do, Rank;
    if run != [] {
      var st, rest := run[0], run[1..];
      EveryStepCounts(s, st, canDrain);
      StepKeepsInv(s, st, canDrain);
      var t := Do(s, st, canDrain);
      if rest != [] {
        forall i | 0 <= i < |rest|
          ensures Exec(t, rest[..i], canDrain).Some? && !Exec(t, rest[..i], canDrain).value.proxy.Idle?
        {
          assert run[..i + 1][0] == st && run[..i + 1][1..] == rest[..i];
          assert Exec(s, run[..i + 1], canDrain) == Exec(t, rest[..i], canDrain);
        }
        assert rest[..0] == [] && Exec(t, [], canDrain) == Some(t);
        ReturnsWithinRank(t, rest, canDrain);
      }
    }
  }

  // ------------------------------------------------------ the trace sinks

  /** Without draining the decoder only ever polls. */
  ghost predicate NeverDrains(s: State) {
    && !s.decoder.WaitSuspend? && !Draining(s.decoder) && !s.decoder.DrainDecode?
    && !s.reopened
  }

  /** Once `stop_trace` has closed the sinks they are open exactly if a drain
      opened them again afterwards. */
  ghost predicate SinkLaw(s: State) {
    && (s.proxy.Stopping? || s.proxy.Awaiting? || s.proxy.Idle? ==> (s.open <==> s.reopened))
    && (Draining(s.decoder) ==> !s.proxy.Idle?)
    && (s.reopened ==> s.proxy.Stopping? || s.proxy.Awaiting? || s.proxy.Idle?)
    && (s.reopened ==> s.decoder.Continuing? || s.decoder.WaitStop? || Finishing(s.decoder) || !Busy(s))
  }

  /** A drain that can still open the sinks has not opened them yet. */
  lemma {:induction false} SinksFollow(s: State, run: seq<Step>, canDrain: bool)
    requires Inv(s) && SinkLaw(s) && (!canDrain ==> NeverDrains(s)) && Exec(s, run, canDrain).Some?
    ensures var t := Exec(s, run, canDrain).value;
            SinkLaw(t) && (!canDrain ==> NeverDrains(t))
    decreases run
  {
    hide Inv, SinkLaw, NeverDrains, Enabled, Do;
    if run != [] {
      SinkStep(s, run[0], canDrain);
      StepKeepsInv(s, run[0], canDrain);
      SinksFollow(Do(s, run[0], canDrain), run[1..], canDrain);
    }
  }

  lemma ProxySinkStep(s: State, st: ProxyStep)
    requires Inv(s) && SinkLaw(s) && ProxyCan(s, st)
    ensures SinkLaw(ProxyDo(s, st)) && (NeverDrains(s) ==> NeverDrains(ProxyDo(s, st)))
  {
    hide InFlight, SuspendLaw;
  }

  lemma DecoderSinkStep(s: State, st: DecoderStep, canDrain: bool)
    requires Inv(s) && SinkLaw(s) && DecoderCan(s, st, canDrain)
    ensures SinkLaw(DecoderDo(s, st))
    ensures !canDrain && NeverDrains(s) ==> NeverDrains(DecoderDo(s, st))
  {
    hide InFlight, SuspendLaw;
  }

  lemma SinkStep(s: State, st: Step, canDrain: bool)
    requires Inv(s) && SinkLaw(s) && (!canDrain ==> NeverDrains(s)) && Enabled(s, st, canDrain)
    ensures var t := Do(s, st, canDrain);
            SinkLaw(t) && (!canDrain ==> NeverDrains(t))
  {
    hide Inv, ProxyDo, DecoderDo, ChildDo;
    match st
    case P(p) => ProxySinkStep(s, p);
    case D(d) => DecoderSinkStep(s, d, canDrain);
    case C(c) => ChildFrame(s, c);
  }

  lemma ReachableSinks(s: State, canDrain: bool)
    requires Reachable(s, canDrain)
    ensures SinkLaw(s) && (!canDrain ==> NeverDrains(s))
  {
    assert Inv(Initial) && SinkLaw(Initial) && NeverDrains(Initial);
    hide Inv;
    var run :| Exec(Initial, run, canDrain) == Some(s);
    SinksFollow(Initial, run, canDrain);
  }

  /** Between attempts the sinks are open exactly when a drain cut short by the
      child's death opened them after `stop_trace` had closed them; without
      draining they are always closed. */
  lemma SinksBetweenAttempts(s: State, canDrain: bool)
    requires Reachable(s, canDrain) && s.proxy.Idle?
    ensures s.open <==> s.reopened
    ensures !canDrain ==> !s.open
  {
    ReachableSinks(s, canDrain);
  }

  // ------------------------------------------------ two runs worth knowing

  lemma {:induction false} ExecJoins(s: State, a: seq<Step>, b: seq<Step>, canDrain: bool)
    requires Exec(s, a, canDrain).Some?
    ensures Exec(s, a + b, canDrain) == Exec(Exec(s, a, canDrain).value, b, canDrain)
    decreases a
  {
    hide Enabled, Do;
    if a == [] {
      assert a + b == b;
    } else {
      assert (a + b)[0] == a[0] && (a + b)[1..] == a[1..] + b;
      ExecJoins(Do(s, a[0], canDrain), a[1..], b, canDrain);
    }
  }

  /** The state before the last step of a run. */
  lemma Before(before: seq<Step>, st: Step, canDrain: bool) returns (s: State)
    requires Exec(Initial, before + [st], canDrain).Some?
    ensures Exec(Initial, before, canDrain) == Some(s) && Reachable(s, canDrain) && Enabled(s, st, canDrain)
    ensures Exec(Initial, before + [st], canDrain) == Some(Do(s, st, canDrain))
  {
    hide Enabled, Do;
    PrefixRuns(Initial, before, [st], canDrain);
    s := Exec(Initial, before, canDrain).value;
    ExecJoins(Initial, before, [st], canDrain);
    assert [st][1..] == [];
  }

  lemma {:induction false} PrefixRuns(s: State, a: seq<Step>, b: seq<Step>, canDrain: bool)
    requires Exec(s, a + b, canDrain).Some?
    ensures Exec(s, a, canDrain).Some?
    decreases a
  {
    hide Enabled, Do;
    if a != [] {
      assert (a + b)[0] == a[0] && (a + b)[1..] == a[1..] + b;
      PrefixRuns(Do(s, a[0], canDrain), a[1..], b, canDrain);
    }
  }

  lemma Extend(s: State, canDrain: bool, st: Step)
    requires Reachable(s, canDrain) && Enabled(s, st, canDrain)
    ensures Reachable(Do(s, st, canDrain), canDrain)
  {
    hide Enabled, Do;
    var run :| Exec(Initial, run, canDrain) == Some(s);
    ExecJoins(Initial, run, [st], canDrain);
    assert [st][1..] == [];
    assert Exec(s, [st], canDrain) == Some(Do(s, st, canDrain));
    assert Exec(Initial, run + [st], canDrain) == Some(Do(s, st, canDrain));
  }

  lemma TakeP(s: State, canDrain: bool, p: ProxyStep) returns (t: State)
    requires Reachable(s, canDrain) && ProxyCan(s, p)
    ensures t == ProxyDo(s, p) && Reachable(t, canDrain)
  {
    Extend(s, canDrain, P(p));
    t := Do(s, P(p), canDrain);
  }

  lemma TakeD(s: State, canDrain: bool, d: DecoderStep) returns (t: State)
    requires Reachable(s, canDrain) && DecoderCan(s, d, canDrain)
    ensures t == DecoderDo(s, d) && Reachable(t, canDrain)
  {
    Extend(s, canDrain, D(d));
    t := Do(s, D(d), canDrain);
  }

  lemma TakeC(s: State, canDrain: bool, c: ChildStep) returns (t: State)
    requires Reachable(s, canDrain) && ChildCan(s, c)
    ensures t == ChildDo(s, c) && Reachable(t, canDrain)
  {
    Extend(s, canDrain, C(c));
    t := Do(s, C(c), canDrain);
  }

  /** A first attempt with its child running and the decoder polling. */
  const FIRST_RUNNING := Initial.(proxy := Reading, decoder := Polling, child := Running, open := true, attempt := 1)

  lemma FirstRuns(canDrain: bool)
    ensures Reachable(FIRST_RUNNING, canDrain)
  {
    assert Exec(Initial, [], canDrain) == Some(Initial);
    hide Reachable;
    var s := TakeP(Initial, canDrain, Begin);
    s := TakeP(s, canDrain, ArmSinks);
    s := TakeP(s, canDrain, SignalStart);
    s := TakeP(s, canDrain, Resume);
    s := TakeD(s, canDrain, TakeStart);
    s := TakeD(s, canDrain, Enter);
  }

  /** From a finished drain or none, the final fetch and the return. */
  lemma Finishes(s: State, canDrain: bool) returns (t: State)
    requires Reachable(s, canDrain) && s.proxy.Awaiting? && s.decoder.WaitStop? && s.stop
    ensures Reachable(t, canDrain) && t.proxy.Idle? && t.suspend == s.suspend && t.open == s.open
    ensures t.attempt == s.attempt
  {
    hide Reachable;
    t := TakeD(s, canDrain, TakeStop);
    t := TakeD(t, canDrain, FetchFinal);
    t := TakeD(t, canDrain, DecodeFinal);
    t := TakeD(t, canDrain, Publish);
    t := TakeP(t, canDrain, Return);
  }

  /** The child dies and the proxy stops the trace. */
  lemma Stops(s: State, canDrain: bool) returns (t: State)
    requires Reachable(s, canDrain) && s.proxy.Reading? && s.child.Zombie? && s.pipe == [] && s.relay.None?
    ensures Reachable(t, canDrain)
    ensures t == s.(proxy := Awaiting, child := Reaped, suspend := true, stop := true, open := false)
  {
    hide Reachable;
    t := TakeC(s, canDrain, Observe);
    t := TakeC(t, canDrain, WriteStatus);
    assert t.pipe == [ExitStatus];
    t := TakeP(t, canDrain, ReadStatus);
    assert t.pipe == [];
    t := TakeP(t, canDrain, SignalExit);
    t := TakeP(t, canDrain, CloseSinks);
    t := TakeP(t, canDrain, SignalStop);
  }

  /** The exit callback leaves the suspend flag set across attempts. */
  lemma SuspendCanBeLeftSet(canDrain: bool) returns (s: State)
    ensures Reachable(s, canDrain) && s.proxy.Idle? && s.suspend
  {
    hide Reachable;
    FirstRuns(canDrain);
    s := TakeC(FIRST_RUNNING, canDrain, Die);
    s := Stops(s, canDrain);
    s := TakeD(s, canDrain, SeeDead);
    s := Finishes(s, canDrain);
  }

  /** A drain under way: the stop was reported and consumed. */
  lemma Drains() returns (s: State)
    ensures Reachable(s, true)
    ensures s == FIRST_RUNNING.(decoder := DrainDisable, child := Stopped(true))
  {
    hide Reachable;
    FirstRuns(true);
    s := TakeD(FIRST_RUNNING, true, SeeAlive);
    s := TakeD(s, true, SendStop);
    s := TakeC(s, true, DeliverStop);
    s := TakeC(s, true, Observe);
    s := TakeC(s, true, WriteStatus);
    assert s.pipe == [StopStatus];
    s := TakeP(s, true, ReadStatus);
    assert s.pipe == [];
    s := TakeP(s, true, SignalSuspend);
    s := TakeD(s, true, TakeSuspend);
  }

  /** The rest of a drain whose child is gone and whose sinks are closed. */
  lemma DrainsLate(s: State) returns (t: State)
    requires Reachable(s, true) && s.decoder.DrainDisable? && s.child.Reaped?
    ensures Reachable(t, true) && t.decoder.WaitStop? && t.open
    ensures t.proxy == s.proxy && t.stop == s.stop && t.attempt == s.attempt
  {
    hide Reachable;
    t := TakeD(s, true, CloseForDrain);
    t := TakeD(t, true, FetchDrain);
    t := TakeD(t, true, ReopenSinks);
    t := TakeD(t, true, SendCont);
  }

  /** A child that dies during a drain leaves the sinks open between attempts:
      the drain opens them again after `stop_trace` closed them. */
  lemma SinksCanBeLeftOpen() returns (s: State)
    ensures Reachable(s, true) && s.proxy.Idle? && s.open && s.attempt == 1
  {
    hide Reachable, DecoderDo, ProxyDo;
    s := Drains();
    s := TakeC(s, true, Die);
    s := Stops(s, true);
    s := DrainsLate(s);
    s := Finishes(s, true);
  }
}
