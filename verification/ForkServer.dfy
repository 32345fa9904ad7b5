/** The nested fork-server protocol: AFL++ asks the proxy for an execution and
    reads one pid and one status; the proxy asks the fork server inside the
    target, as often as calibration, retries, a forced-minimum run, a confirm or
    a sample need, over two pipes of its own.

    Which of these executions happen is left open at every decision point.
    Hypotheses: every forked child reaches its SIGSTOP, stays parked until it is
    resumed, and no read or write fails. */
module ForkServer {
  import opened Common

  type Pid = nat

  const SIGSTOP := 19

  /** A `waitpid` status. */
  datatype Status = Exited(code: nat) | Signaled(sig: nat) | StoppedBy(sig: nat)

  /** Both inner loops go on while this is false. */
  predicate Final(st: Status) { !(st.StoppedBy? && st.sig == SIGSTOP) }

  /** Why the proxy runs a child. */
  datatype Role =
    | Main         // an attempt of the main loop, the first or a retry
    | Calibration  // a rung of the frequency ramp
    | Hidden       // a confirm or a sample

  /** Why the proxy asked for a child. */
  datatype Purpose = First | Replacement | For(role: Role)

  datatype Proxy =
    | Idle
    | Asked                         // read AFL++'s request, not forwarded yet
    | AwaitPid(purpose: Purpose)
    | Holding(purpose: Purpose, pid: Pid)     // a parked child
    | Resuming(role: Role, pid: Pid)
    | Watching(role: Role, pid: Pid)          // reading its statuses
    | AfterCalibration
    | AfterMain
    | Ending                        // about to report the status

  datatype Fork =
    | Listening                     // waiting for a request
    | Forked(pid: Pid)              // waiting for the child's SIGSTOP
    | Announcing(pid: Pid)          // about to write its pid
    | Waiting(pid: Pid)
    | Relaying(pid: Pid, st: Status)

  datatype Inner = PidMsg(pid: Pid) | StatusMsg(st: Status)

  /** AFL++ as the reader of the outer pipe: it never expects anything but one
      pid and then one status per request. */
  datatype Afl = Ready | Wants | Runs(pid: Pid) | Confused

  datatype State = State(
    afl: Afl, proxy: Proxy, fork: Fork,
    requests: nat,            // unread requests in the control pipe
    replies: seq<Inner>,      // unread replies in the status pipe
    parked: bool,             // the current child has not been resumed
    nextPid: Pid,
    status: Status,           // the main loop's status variable
    served: nat,              // outer requests answered in full
    // history
    mains: seq<Pid>,          // children the main loop ran for this test case
    finals: map<Pid, Status>, // the final status of every child
    reported: seq<Status>)    // the statuses AFL++ was sent

  const Initial :=
    State(Ready, Idle, Listening, 0, [], false, 1, Exited(0), 0, [], map[], [])

  // ------------------------------------------------------------ the proxy

  datatype ProxyStep =
    | ReadRequest | Forward | ReadPid
    | Calibrate       // ramp on the child just handed over
    | Report          // write its pid to AFL++
    | Run             // resume it without a report
    | Resume | ReadStatus
    | AskRung         // another child for the ramp
    | AskReplacement  // the ramp is over
    | AskRetry        // a retry or the forced-minimum run
    | AskHidden       // a confirm or a sample
    | Accept          // no further execution
    | End             // write the status to AFL++

  predicate ProxyCan(s: State, st: ProxyStep) {
    match st
    case ReadRequest => s.proxy.Idle? && s.afl.Ready?
    case Forward => s.proxy.Asked?
    case ReadPid => s.proxy.AwaitPid? && s.replies != []
    case Calibrate => s.proxy.Holding? && s.proxy.purpose.First?
    case Report => s.proxy.Holding? && (s.proxy.purpose.First? || s.proxy.purpose.Replacement?)
    case Run => s.proxy.Holding? && s.proxy.purpose.For?
    case Resume => s.proxy.Resuming?
    case ReadStatus => s.proxy.Watching? && s.replies != []
    case AskRung => s.proxy.AfterCalibration?
    case AskReplacement => s.proxy.AfterCalibration?
    case AskRetry => s.proxy.AfterMain?
    case AskHidden => s.proxy.AfterMain?
    case Accept => s.proxy.AfterMain?
    case End => s.proxy.Ending?
  }

  function Ask(s: State, purpose: Purpose): State {
    s.(proxy := AwaitPid(purpose), requests := s.requests + 1)
  }

  function StartMain(s: State, pid: Pid): State {
    s.(proxy := Resuming(Main, pid), mains := s.mains + [pid])
  }

  /** Reads take the four bytes as whatever is expected next. */
  function ReadAsPid(m: Inner): Pid { if m.PidMsg? then m.pid else 0 }
  function ReadAsStatus(m: Inner): Status { if m.StatusMsg? then m.st else Exited(0) }

  function AfterRun(role: Role): Proxy {
    match role case Main => AfterMain case Calibration => AfterCalibration case Hidden => Ending
  }

  function ProxyDo(s: State, st: ProxyStep): State
    requires ProxyCan(s, st)
  {
    match st
    case ReadRequest => s.(proxy := Asked, afl := Wants, mains := [])
    case Forward => Ask(s, First)
    case ReadPid => s.(proxy := Holding(s.proxy.purpose, ReadAsPid(s.replies[0])), replies := s.replies[1..])
    case Calibrate => s.(proxy := Resuming(Calibration, s.proxy.pid))
    case Report =>
      StartMain(s.(afl := if s.afl.Wants? then Runs(s.proxy.pid) else Confused), s.proxy.pid)
    case Run =>
      if s.proxy.purpose.role.Main? then StartMain(s, s.proxy.pid)
      else s.(proxy := Resuming(s.proxy.purpose.role, s.proxy.pid))
    case Resume => s.(proxy := Watching(s.proxy.role, s.proxy.pid), parked := false)
    case ReadStatus =>
      var status := ReadAsStatus(s.replies[0]);
      s.(replies := s.replies[1..],
         proxy := if Final(status) then AfterRun(s.proxy.role) else s.proxy,
         status := if Final(status) && s.proxy.role.Main? then status else s.status)
    case AskRung => Ask(s, For(Calibration))
    case AskReplacement => Ask(s, Replacement)
    case AskRetry => Ask(s, For(Main))
    case AskHidden => Ask(s, For(Hidden))
    case Accept => s.(proxy := Ending)
    case End =>
      s.(proxy := Idle, afl := if s.afl.Runs? then Ready else Confused, served := s.served + 1,
         reported := s.reported + [s.status])
  }

  // -------------------------------------------------------- the fork server

  datatype ForkStep = TakeRequest | SeeParked | SendPid | Wait(st: Status) | Relay

  predicate ForkCan(s: State, st: ForkStep) {
    match st
    case TakeRequest => s.fork.Listening? && s.requests > 0
    case SeeParked => s.fork.Forked?
    case SendPid => s.fork.Announcing?
    case Wait(_) => s.fork.Waiting? && !s.parked
    case Relay => s.fork.Relaying?
  }

  function ForkDo(s: State, st: ForkStep): State
    requires ForkCan(s, st)
  {
    match st
    case TakeRequest =>
      s.(fork := Forked(s.nextPid), requests := s.requests - 1, nextPid := s.nextPid + 1, parked := true)
    case SeeParked => s.(fork := Announcing(s.fork.pid))
    case SendPid => s.(fork := Waiting(s.fork.pid), replies := s.replies + [PidMsg(s.fork.pid)])
    case Wait(status) => s.(fork := Relaying(s.fork.pid, status))
    case Relay =>
      s.(fork := if Final(s.fork.st) then Listening else Waiting(s.fork.pid),
         replies := s.replies + [StatusMsg(s.fork.st)],
         finals := if Final(s.fork.st) then s.finals[s.fork.pid := s.fork.st] else s.finals)
  }

  // ------------------------------------------------------------- invariant

  /** Nothing is in progress inside. */
  predicate Quiet(s: State) { s.fork.Listening? && s.requests == 0 && s.replies == [] }

  /** Statuses of a running child that are not its last. */
  ghost predicate Stops(replies: seq<Inner>) {
    forall i :: 0 <= i < |replies| ==> replies[i].StatusMsg? && !Final(replies[i].st)
  }

  /** The current child's unread statuses: stops only while the fork server
      waits on it, and its final status last once the fork server is done. */
  ghost predicate Streaming(s: State, pid: Pid) {
    && s.requests == 0
    && match s.fork
       case Waiting(p) => p == pid && Stops(s.replies)
       case Relaying(p, _) => p == pid && Stops(s.replies)
       case Listening =>
         var n := |s.replies| - 1;
         && s.replies != [] && Stops(s.replies[..n]) && s.replies[n].StatusMsg? && Final(s.replies[n].st)
         && pid in s.finals && s.finals[pid] == s.replies[n].st
       case _ => false
  }

  /** A requested child on its way: still asked for, forked, or announced. */
  ghost predicate Coming(s: State) {
    match s.fork
    case Listening => s.requests == 1 && s.replies == []
    case Forked(_) => s.requests == 0 && s.replies == [] && s.parked
    case Announcing(_) => s.requests == 0 && s.replies == [] && s.parked
    case Waiting(p) => s.requests == 0 && s.replies == [PidMsg(p)] && s.parked
    case Relaying(_, _) => false
  }

  /** The proxy and the fork server are at corresponding points. */
  ghost predicate InStep(s: State) {
    match s.proxy
    case AwaitPid(_) => Coming(s)
    case Holding(_, pid) => s.fork == Waiting(pid) && s.requests == 0 && s.replies == [] && s.parked
    case Resuming(_, pid) => s.fork == Waiting(pid) && s.requests == 0 && s.replies == [] && s.parked
    case Watching(_, pid) => !s.parked && Streaming(s, pid)
    case _ => Quiet(s)
  }

  /** The proxy has told AFL++ the pid. */
  predicate Reported(p: Proxy) {
    match p
    case Idle => false case Asked => false
    case AwaitPid(u) => u.For? && !u.role.Calibration?
    case Holding(u, _) => u.For? && !u.role.Calibration?
    case Resuming(r, _) => !r.Calibration?
    case Watching(r, _) => !r.Calibration?
    case AfterCalibration => false
    case AfterMain => true
    case Ending => true
  }

  /** What AFL++ expects next. */
  ghost predicate OuterLaw(s: State) {
    && (s.afl == if s.proxy.Idle? then Ready
                 else if Reported(s.proxy) && s.mains != [] then Runs(s.mains[0]) else Wants)
    && (s.mains != [] ==> Reported(s.proxy) || s.proxy.Idle?)
    && (Reported(s.proxy) ==> s.mains != [])
  }

  /** The status variable is the final status of the last main attempt. */
  ghost predicate StatusLaw(s: State) {
    && (match s.proxy
        case Resuming(r, pid) => r.Main? ==> s.mains != [] && s.mains[|s.mains| - 1] == pid
        case Watching(r, pid) => r.Main? ==> s.mains != [] && s.mains[|s.mains| - 1] == pid
        case _ => true)
    && (SettledStatus(s.proxy) ==>
          && s.mains != [] && s.mains[|s.mains| - 1] in s.finals
          && s.finals[s.mains[|s.mains| - 1]] == s.status && s.mains[|s.mains| - 1] < s.nextPid)
    && (s.proxy.Holding? ==> s.proxy.pid < s.nextPid)
    && (s.proxy.Resuming? ==> s.proxy.pid < s.nextPid)
    && (s.proxy.Watching? ==> s.proxy.pid < s.nextPid)
    && (s.fork.Forked? || s.fork.Announcing? || s.fork.Waiting? || s.fork.Relaying? ==>
          s.fork.pid < s.nextPid && (SettledStatus(s.proxy) ==> s.fork.pid > s.mains[|s.mains| - 1]))
  }

  /** The main loop has run an attempt to its end for this test case. */
  predicate SettledStatus(p: Proxy) {
    match p
    case AfterMain => true
    case Ending => true
    case AwaitPid(u) => u == For(Hidden)
    case Holding(u, _) => u == For(Hidden)
    case Resuming(r, _) => r.Hidden?
    case Watching(r, _) => r.Hidden?
    case _ => false
  }

  ghost predicate Inv(s: State) { InStep(s) && OuterLaw(s) && StatusLaw(s) && |s.reported| == s.served }

  lemma ProxyKeepsStep(s: State, st: ProxyStep)
    requires Inv(s) && ProxyCan(s, st)
    ensures InStep(ProxyDo(s, st))
  {
  }

  lemma ProxyKeepsOuter(s: State, st: ProxyStep)
    requires Inv(s) && ProxyCan(s, st)
    ensures OuterLaw(ProxyDo(s, st)) && |ProxyDo(s, st).reported| == ProxyDo(s, st).served
  {
  }

  lemma ProxyKeepsStatus(s: State, st: ProxyStep)
    requires Inv(s) && ProxyCan(s, st)
    ensures StatusLaw(ProxyDo(s, st))
  {
  }

  lemma ForkKeepsStep(s: State, st: ForkStep)
    requires Inv(s) && ForkCan(s, st)
    ensures InStep(ForkDo(s, st))
  {
  }

  lemma ForkKeepsRest(s: State, st: ForkStep)
    requires Inv(s) && ForkCan(s, st)
    ensures OuterLaw(ForkDo(s, st)) && StatusLaw(ForkDo(s, st))
  {
  }

  // ------------------------------------------------------------------ runs

  datatype Step = P(p: ProxyStep) | F(f: ForkStep)

  predicate Enabled(s: State, st: Step) {
    match st case P(p) => ProxyCan(s, p) case F(f) => ForkCan(s, f)
  }

  function Do(s: State, st: Step): State
    requires Enabled(s, st)
  {
    match st case P(p) => ProxyDo(s, p) case F(f) => ForkDo(s, f)
  }

  /** The state after an interleaving, if each of its steps could be taken. */
  function Exec(run: seq<Step>): Option<State> {
    if run == [] then Some(Initial)
    else
      var before, st := Exec(run[..|run| - 1]), run[|run| - 1];
      if before.Some? && Enabled(before.value, st) then Some(Do(before.value, st)) else None
  }

  /** Outer requests read in a run. */
  function Requests(run: seq<Step>): nat {
    if run == [] then 0
    else Requests(run[..|run| - 1]) + (if run[|run| - 1] == P(ReadRequest) then 1 else 0)
  }

  lemma StepKeepsInv(s: State, st: Step)
    requires Inv(s) && Enabled(s, st)
    ensures Inv(Do(s, st))
  {
    hide InStep, OuterLaw, StatusLaw, ProxyDo;
    match st
    case P(p) => ProxyKeepsStep(s, p); ProxyKeepsOuter(s, p); ProxyKeepsStatus(s, p);
    case F(f) => ForkKeepsStep(s, f); ForkKeepsRest(s, f);
  }

  /** Test cases answered, plus the one under way. */
  function Accepted(s: State): nat { s.served + if s.proxy.Idle? then 0 else 1 }

  lemma ProxyServes(s: State, st: ProxyStep)
    requires ProxyCan(s, st)
    ensures Accepted(ProxyDo(s, st)) == Accepted(s) + if st.ReadRequest? then 1 else 0
  {
  }

  lemma ForkServes(s: State, st: ForkStep)
    requires ForkCan(s, st)
    ensures Accepted(ForkDo(s, st)) == Accepted(s)
  {
  }

  lemma StepServes(s: State, st: Step)
    requires Enabled(s, st)
    ensures Accepted(Do(s, st)) == Accepted(s) + if st == P(ReadRequest) then 1 else 0
  {
    hide ProxyDo, ForkDo, Accepted;
    match st
    case P(p) => ProxyServes(s, p);
    case F(f) => ForkServes(s, f);
  }

  lemma {:induction false} RunKeepsInv(run: seq<Step>)
    requires Exec(run).Some?
    ensures var s := Exec(run).value;
            Inv(s) && Accepted(s) == Requests(run)
    decreases |run|
  {
    assert Inv(Initial);
    hide Inv, Enabled, Do;
    if run != [] {
      var before := run[..|run| - 1];
      RunKeepsInv(before);
      StepKeepsInv(Exec(before).value, run[|run| - 1]);
      StepServes(Exec(before).value, run[|run| - 1]);
    }
  }

  /** The outer conversation over every run: AFL++ is never sent anything out of
      turn, and between test cases every request has had its pid and its status
      while nothing is left in the inner pipes. */
  lemma OuterLockstep(run: seq<Step>)
    requires Exec(run).Some?
    ensures var s := Exec(run).value;
            && !s.afl.Confused?
            && (s.proxy.Idle? ==> s.afl.Ready? && s.served == |s.reported| == Requests(run) && Quiet(s))
  {
    hide Exec;
    RunKeepsInv(run);
  }

  /** The pid AFL++ holds is the first main attempt's, and the status it is sent
      is the final status of the last one, whatever hidden runs came after. */
  lemma StatusOfLastAttempt(run: seq<Step>)
    requires Exec(run).Some? && Exec(run).value.proxy.Ending?
    ensures var s := Exec(run).value;
            && s.mains != [] && s.afl == Runs(s.mains[0])
            && s.mains[|s.mains| - 1] in s.finals
            && ProxyDo(s, End).reported == s.reported + [s.finals[s.mains[|s.mains| - 1]]]
  {
    hide Exec;
    RunKeepsInv(run);
  }

  /** Both inner loops leave on the same message: when the proxy reads a final
      status, the fork server is listening again and nothing is left to read;
      when it reads any other, both go on with the same child. */
  lemma LoopsLeaveTogether(run: seq<Step>)
    requires Exec(run).Some? && ProxyCan(Exec(run).value, ReadStatus)
    ensures var s := Exec(run).value;
            && s.replies[0].StatusMsg?
            && (Final(s.replies[0].st) ==> Quiet(ProxyDo(s, ReadStatus)) && s.finals.Keys >= {s.proxy.pid})
            && (!Final(s.replies[0].st) ==> ProxyDo(s, ReadStatus).proxy == s.proxy)
            && (Final(s.replies[0].st) <==> s.replies[0].st != StoppedBy(19))
  {
    hide Exec;
    RunKeepsInv(run);
  }

  /** A pid is read where a pid was written, and it is that of a parked child. */
  lemma PidIsAPid(run: seq<Step>)
    requires Exec(run).Some? && ProxyCan(Exec(run).value, ReadPid)
    ensures var s := Exec(run).value;
            s.parked && s.fork.Waiting? && s.replies == [PidMsg(s.fork.pid)]
  {
    hide Exec;
    RunKeepsInv(run);
  }

  /** Neither side ever waits for a message the other will not send. */
  lemma NobodyWaitsInVain(run: seq<Step>) returns (f: ForkStep)
    requires Exec(run).Some?
    requires var s := Exec(run).value; (s.proxy.AwaitPid? || s.proxy.Watching?) && s.replies == []
    ensures ForkCan(Exec(run).value, f)
  {
    hide Exec;
    RunKeepsInv(run);
    match Exec(run).value.fork
    case Listening => f := TakeRequest;
    case Forked(_) => f := SeeParked;
    case Announcing(_) => f := SendPid;
    case Waiting(_) => f := Wait(Exited(0));
    case Relaying(_, _) => f := Relay;
  }

  // ------------------------------------------- which status ends what

  /** An execution is over on an exit, on a death by any signal and on a stop by
      any signal but SIGSTOP, whose number is 19: the fork server listens again
      once it has relayed such a status, and waits on after any other. */
  lemma RelayEndsOn(run: seq<Step>)
    requires Exec(run).Some? && Exec(run).value.fork.Relaying?
    ensures var s := Exec(run).value;
            var t := ForkDo(s, Relay);
            && t.replies == s.replies + [StatusMsg(s.fork.st)]
            && match s.fork.st
               case Exited(_) => t.fork.Listening?
               case Signaled(_) => t.fork.Listening?
               case StoppedBy(sig) => if sig == 19 then t.fork == Waiting(s.fork.pid) else t.fork.Listening?
  {
  }

  /** The same for the proxy, which by then finds nothing left to read. */
  lemma ReadEndsOn(run: seq<Step>)
    requires Exec(run).Some? && ProxyCan(Exec(run).value, ReadStatus)
    ensures var s := Exec(run).value;
            var t := ProxyDo(s, ReadStatus);
            && s.replies[0].StatusMsg?
            && match s.replies[0].st
               case Exited(_) => !t.proxy.Watching? && Quiet(t)
               case Signaled(_) => !t.proxy.Watching? && Quiet(t)
               case StoppedBy(sig) => if sig == 19 then t.proxy == s.proxy else !t.proxy.Watching? && Quiet(t)
  {
    hide Exec;
    RunKeepsInv(run);
  }

  lemma MainEndsWith(s: State, st: Status)
    requires ProxyCan(s, ReadStatus) && s.proxy.role.Main? && s.replies[0] == StatusMsg(st) && st != StoppedBy(19)
    ensures var t := ProxyDo(s, ReadStatus);
            t.proxy.AfterMain? && t.status == st && t.reported == s.reported
  {
  }

  /** The test case goes on without another main attempt. */
  predicate NoMoreMains(run: seq<Step>) {
    forall i :: 0 <= i < |run| ==> run[i] != P(AskRetry) && run[i] != P(End)
  }

  lemma StatusKept(s: State, st: Step)
    requires SettledStatus(s.proxy) && Enabled(s, st) && st != P(AskRetry) && st != P(End)
    ensures var t := Do(s, st);
            SettledStatus(t.proxy) && t.status == s.status && t.reported == s.reported
  {
  }

  lemma ExecNext(run: seq<Step>, st: Step)
    requires Exec(run + [st]).Some?
    ensures Exec(run).Some? && Enabled(Exec(run).value, st)
    ensures Exec(run + [st]) == Some(Do(Exec(run).value, st))
  {
    hide Enabled, Do;
    assert (run + [st])[..|run|] == run;
  }

  lemma {:induction false} StatusKeptOver(run: seq<Step>, more: seq<Step>)
    requires Exec(run + more).Some? && NoMoreMains(more)
    ensures Exec(run).Some?
    ensures SettledStatus(Exec(run).value.proxy) ==>
              && SettledStatus(Exec(run + more).value.proxy)
              && Exec(run + more).value.status == Exec(run).value.status
              && Exec(run + more).value.reported == Exec(run).value.reported
    decreases |more|
  {
    hide Exec, SettledStatus, Enabled, Do;
    if more == [] {
      assert run + more == run;
    } else {
      var n := |more| - 1;
      assert run + more == (run + more[..n]) + [more[n]];
      ExecNext(run + more[..n], more[n]);
      StatusKeptOver(run, more[..n]);
      if SettledStatus(Exec(run).value.proxy) { StatusKept(Exec(run + more[..n]).value, more[n]); }
    }
  }

  /** Whatever ends the last main attempt, an exit, a crash or another stop, is
      what AFL++ is told, whatever confirm or sample runs before the report. */
  lemma LastStatusIsReported(run: seq<Step>, st: Status, more: seq<Step>)
    requires Exec(run).Some? && ProxyCan(Exec(run).value, ReadStatus)
    requires Exec(run).value.proxy.role.Main? && Exec(run).value.replies[0] == StatusMsg(st) && st != StoppedBy(19)
    requires NoMoreMains(more) && Exec(run + [P(ReadStatus)] + more + [P(End)]).Some?
    ensures Exec(run + [P(ReadStatus)] + more + [P(End)]).value.reported == Exec(run).value.reported + [st]
  {
    var read := run + [P(ReadStatus)];
    MainEndsWith(Exec(run).value, st);
    hide Exec;
    ExecNext(read + more, P(End));
    StatusKeptOver(read, more);
    ExecNext(run, P(ReadStatus));
  }

  // ------------------------------------------- the order of executions

  /** How far the proxy is in a test case: ramping or about to, fetching the child
      that replaces the ramp's, running main attempts, running a confirm or a
      sample, reporting. */
  function Stage(p: Proxy): nat {
    match p
    case Idle => 0
    case Asked => 0
    case AfterCalibration => 0
    case AwaitPid(u) => StageOf(u)
    case Holding(u, _) => StageOf(u)
    case Resuming(r, _) => StageOf(For(r))
    case Watching(r, _) => StageOf(For(r))
    case AfterMain => 2
    case Ending => 4
  }

  function StageOf(u: Purpose): nat {
    match u
    case First => 0
    case Replacement => 1
    case For(r) => match r { case Calibration => 0 case Main => 2 case Hidden => 3 }
  }

  lemma StageRises(s: State, st: Step)
    requires Enabled(s, st) && st != P(End)
    ensures Stage(Do(s, st).proxy) >= Stage(s.proxy)
    ensures st == P(AskHidden) ==> Stage(s.proxy) == 2 && Stage(Do(s, st).proxy) == 3
    ensures st == P(AskReplacement) ==> Stage(Do(s, st).proxy) == 1
    ensures st == P(Calibrate) || st == P(AskRung) ==> Stage(s.proxy) == 0
    ensures st == P(AskRetry) || st == P(Report) ==> Stage(s.proxy) <= 2
  {
    match st
    case P(p) =>
    case F(f) => SameProxy(s, f);
  }

  lemma SameProxy(s: State, f: ForkStep)
    requires ForkCan(s, f)
    ensures ForkDo(s, f).proxy == s.proxy
  {
  }

  lemma {:induction false} StagesRise(run: seq<Step>, more: seq<Step>)
    requires Exec(run + more).Some? && forall i :: 0 <= i < |more| ==> more[i] != P(End)
    ensures Exec(run).Some? && Stage(Exec(run + more).value.proxy) >= Stage(Exec(run).value.proxy)
    decreases |more|
  {
    hide Exec, Stage, Enabled, Do;
    if more == [] {
      assert run + more == run;
    } else {
      var n := |more| - 1;
      assert run + more == (run + more[..n]) + [more[n]];
      ExecNext(run + more[..n], more[n]);
      StagesRise(run, more[..n]);
      StageRises(Exec(run + more[..n]).value, more[n]);
    }
  }

  lemma StagesExclude(s: State, first: ProxyStep, t: State, later: ProxyStep)
    requires ProxyCan(s, first) && ProxyCan(t, later) && Stage(t.proxy) >= Stage(ProxyDo(s, first).proxy)
    ensures first.AskReplacement? ==> !later.Calibrate? && !later.AskRung?
    ensures first.AskHidden? ==> !later.AskRetry? && !later.AskHidden? && !later.Calibrate? && !later.Report?
  {
    if !first.End? { StageRises(s, P(first)); }
    if !later.End? { StageRises(t, P(later)); }
    hide Stage, ProxyDo, ProxyCan;
  }

  /** Within a test case, whatever the schedule: no ramp goes on once its
      replacement was asked for, and after a confirm or sample was asked for there
      is no main attempt and no second one of its kind before the report. */
  lemma ExecutionsInOrder(run: seq<Step>, first: ProxyStep, more: seq<Step>, later: ProxyStep)
    requires Exec(run + [P(first)] + more + [P(later)]).Some?
    requires forall i :: 0 <= i < |more| ==> more[i] != P(End)
    ensures first.AskReplacement? ==> !later.Calibrate? && !later.AskRung?
    ensures first.AskHidden? ==> !later.AskRetry? && !later.AskHidden? && !later.Calibrate? && !later.Report?
  {
    hide Exec, Stage, ProxyDo, ProxyCan;
    var asked := run + [P(first)];
    ExecNext(asked + more, P(later));
    StagesRise(asked, more);
    ExecNext(run, P(first));
    StagesExclude(Exec(run).value, first, Exec(asked + more).value, later);
  }
}
