/** Trace windows: the branch-broadcast bit, the context ID comparator and the
    programming mode of every ETM, over any sequence of the calls that open a
    window, close one or select the mode.

    Whether reconfiguring an ETM clears its branch-broadcast bit is left open:
    each call names the ETMs whose bit it clears. A comparator written while
    its ETM is tracing holds nothing that can be relied on. */
module EtmWindow {

  datatype Comparator = Unwritten | Held(pid: nat) | Undefined

  datatype Etm = Etm(bb: bool, cid: Comparator, programming: bool)

  datatype Build = Build(stalker: bool, pidFilter: bool) {
    /** The sinks-only pair also takes the ETMs through programming mode. */
    predicate Cycled() { stalker || pidFilter }
  }

  datatype State = State(
    etms: seq<Etm>,
    currentBb: bool,
    decoderBb: bool,        // Stalker's own copy of the mode
    isFirst: bool,          // the next window reconfigures
    everConfigured: bool,
    tracedPid: nat,
    childPid: nat,
    open: bool)

  function Initial(etms: seq<Etm>): State {
    State(etms, false, false, true, false, 0, 0, false)
  }

  // ------------------------------------------------------------ one ETM

  /** A direct register write. */
  function WriteCid(e: Etm, pid: nat): Etm {
    e.(cid := if e.programming then Held(pid) else Undefined)
  }

  /** `init_etm`: programmable, and the bit perhaps cleared. */
  function InitEtm(e: Etm, wiped: bool): Etm {
    e.(programming := true, bb := e.bb && !wiped)
  }

  /** Writing back a configuration enters programming mode first. */
  function PutCid(e: Etm, pid: nat): Etm {
    var p := e.(programming := true);
    if pid > 0 then WriteCid(p, pid) else p
  }

  function PutBb(e: Etm, mode: bool): Etm {
    e.(programming := true, bb := mode)
  }

  function TraceOn(e: Etm): Etm { e.(programming := false) }

  function TraceOff(e: Etm): Etm { e.(programming := true) }

  // ----------------------------------------------------------- all ETMs

  function Each(es: seq<Etm>, f: (nat, Etm) -> Etm): (r: seq<Etm>)
    ensures |r| == |es| && forall i :: 0 <= i < |es| ==> r[i] == f(i, es[i])
  {
    seq(|es|, i requires 0 <= i < |es| => f(i, es[i]))
  }

  function BbSet(es: seq<Etm>, mode: bool): seq<Etm> {
    Each(es, (i, e) => TraceOn(PutBb(e, mode)))
  }

  function Configured(es: seq<Etm>, wiped: set<nat>, pid: nat): seq<Etm> {
    Each(es, (i, e) => PutCid(InitEtm(e, i in wiped), pid))
  }

  function AllOn(es: seq<Etm>): seq<Etm> {
    Each(es, (i, e) => TraceOn(e))
  }

  function AllOff(es: seq<Etm>): seq<Etm> {
    Each(es, (i, e) => TraceOff(e))
  }

  function Cycle(es: seq<Etm>, b: Build, pid: nat): seq<Etm> {
    if !b.Cycled() then es
    else Each(es, (i, e) => TraceOn(if pid > 0 && b.pidFilter then WriteCid(e, pid) else e))
  }

  // ---------------------------------------------------------- the calls

  datatype Call =
    | Enable(pid: nat, arg: nat, wiped: set<nat>)   // the child, and the pid passed on to the ETMs
    | Disable(all: bool)
    | SetBb(mode: bool)

  predicate Fits(c: Call) { c.Enable? ==> c.pid > 0 }

  function Reconfigured(s: State, b: Build, c: Call): State
    requires c.Enable?
  {
    var toChild := b.stalker || b.pidFilter;
    var es := AllOn(Configured(s.etms, c.wiped, if toChild then c.pid else c.arg));
    s.(etms := if s.currentBb then BbSet(es, true) else es,
       tracedPid := if toChild then c.pid else s.tracedPid,
       childPid := c.pid, isFirst := false, everConfigured := true, open := true)
  }

  function Do(s: State, b: Build, c: Call): State {
    match c
    case Enable(pid, arg, wiped) =>
      if s.isFirst then Reconfigured(s, b, c)
      else s.(etms := Cycle(s.etms, b, pid), tracedPid := pid, childPid := pid, open := true)
    case Disable(all) =>
      s.(etms := if all || b.Cycled() then AllOff(s.etms) else s.etms, open := false)
    case SetBb(mode) =>
      s.(etms := if s.everConfigured then BbSet(s.etms, mode) else s.etms,
         currentBb := mode, isFirst := true,
         decoderBb := if b.stalker then mode else s.decoderBb)
  }

  function Exec(s: State, b: Build, run: seq<Call>): State {
    if run == [] then s else Do(Exec(s, b, run[..|run| - 1]), b, run[|run| - 1])
  }

  // ------------------------------------------- what a run asked for

  /** The mode last selected, the child last started, and whether the last
      window was left open: read off the calls alone. */
  function Requested(run: seq<Call>): bool {
    if run == [] then false
    else
      var c := run[|run| - 1];
      if c.SetBb? then c.mode else Requested(run[..|run| - 1])
  }

  function Child(run: seq<Call>): nat {
    if run == [] then 0
    else
      var c := run[|run| - 1];
      if c.Enable? then c.pid else Child(run[..|run| - 1])
  }

  predicate LeftOpen(run: seq<Call>) {
    run != [] && var c := run[|run| - 1];
    c.Enable? || (c.SetBb? && LeftOpen(run[..|run| - 1]))
  }

  /** The last window was opened straight on top of another one. */
  predicate Overlaps(run: seq<Call>) {
    run != [] && var n := |run| - 1;
    if run[n].Enable? then n > 0 && run[n - 1].Enable? else Overlaps(run[..n])
  }

  predicate AllFit(run: seq<Call>) {
    forall i :: 0 <= i < |run| ==> Fits(run[i])
  }

  predicate BitsAre(es: seq<Etm>, mode: bool) {
    forall i :: 0 <= i < |es| ==> es[i].bb == mode
  }

  predicate ModesAgree(s: State, b: Build, mode: bool) {
    && s.currentBb == mode
    && BitsAre(s.etms, mode)
    && (b.stalker ==> s.decoderBb == mode)
  }

  predicate ComparatorsHold(s: State, pid: nat) {
    forall i :: 0 <= i < |s.etms| ==> s.etms[i].cid == Held(pid)
  }

  // ------------------------------------------------- branch broadcast

  lemma {:induction false} Bookkeeping(etms: seq<Etm>, b: Build, run: seq<Call>)
    ensures var s := Exec(Initial(etms), b, run);
      && s.open == LeftOpen(run)
      && s.childPid == Child(run)
      && s.currentBb == Requested(run)
      && (b.stalker ==> s.decoderBb == Requested(run))
      && (b.stalker || b.pidFilter ==> s.tracedPid == s.childPid)
      && (s.open || !s.isFirst ==> s.everConfigured)
      && |s.etms| == |etms|
  {
    if run != [] { Bookkeeping(etms, b, run[..|run| - 1]); }
  }

  lemma BitsStep(s: State, b: Build, c: Call)
    requires BitsAre(s.etms, s.everConfigured && s.currentBb)
    requires !s.isFirst ==> s.everConfigured
    ensures var t := Do(s, b, c); BitsAre(t.etms, t.everConfigured && t.currentBb)
  {
  }

  lemma {:induction false} BitsFollow(etms: seq<Etm>, b: Build, run: seq<Call>)
    requires BitsAre(etms, false)
    ensures var s := Exec(Initial(etms), b, run);
      BitsAre(s.etms, s.everConfigured && s.currentBb)
  {
    if run != [] {
      var before := run[..|run| - 1];
      BitsFollow(etms, b, before);
      Bookkeeping(etms, b, before);
      hide Do;
      BitsStep(Exec(Initial(etms), b, before), b, run[|run| - 1]);
    }
  }

  /** Whatever was called before and whatever reconfiguring wipes, an open
      window has every bit, the proxy's mode and the decoder's mode at the mode
      last asked for; it is so for every run exactly when the bits start clear. */
  lemma ModesAgreeIff(etms: seq<Etm>, b: Build)
    ensures (forall run :: AllFit(run) && LeftOpen(run)
                ==> ModesAgree(Exec(Initial(etms), b, run), b, Requested(run)))
        <==> BitsAre(etms, false)
  {
    if BitsAre(etms, false) {
      forall run | AllFit(run) && LeftOpen(run)
        ensures ModesAgree(Exec(Initial(etms), b, run), b, Requested(run))
      {
        BitsFollow(etms, b, run);
        Bookkeeping(etms, b, run);
      }
    } else {
      var run := [Enable(1, 1, {})];
      assert run[..0] == [];
      var s := Exec(Initial(etms), b, run);
      assert s == Do(Exec(Initial(etms), b, run[..0]), b, run[0]);
      var k :| 0 <= k < |etms| && etms[k].bb != false;
      assert s.etms[k].bb && !Requested(run);
      assert AllFit(run) && LeftOpen(run) && !ModesAgree(s, b, Requested(run));
    }
  }

  // -------------------------------------------------- the comparators

  /** Closed, and not due for reconfiguration: every ETM is programmable. */
  lemma {:induction false} ClosedIsProgrammable(etms: seq<Etm>, b: Build, run: seq<Call>)
    requires b.stalker || b.pidFilter
    ensures var s := Exec(Initial(etms), b, run);
      && (run != [] && run[|run| - 1].Enable? ==> !s.isFirst && s.open)
      && (!s.isFirst ==>
        && run != [] && !run[|run| - 1].SetBb?
        && forall i :: 0 <= i < |s.etms| ==> s.etms[i].programming == !s.open)
  {
    if run != [] { ClosedIsProgrammable(etms, b, run[..|run| - 1]); }
  }

  // ------------------------------------------------------ is it tracing?

  predicate AllTracing(es: seq<Etm>) { forall i :: 0 <= i < |es| ==> !es[i].programming }

  /** The next opening will reconfigure: nothing was opened since the start or
      since the last mode change. */
  predicate Due(run: seq<Call>) {
    run == [] || var c := run[|run| - 1];
    c.SetBb? || (c.Disable? && Due(run[..|run| - 1]))
  }

  /** The ETMs were all turned off and no reconfiguration is due or was made
      since. */
  predicate TurnedOff(run: seq<Call>) {
    run != [] && var c, before := run[|run| - 1], run[..|run| - 1];
    match c
    case SetBb(_) => false
    case Enable(_, _, _) => TurnedOff(before) && !Due(before)
    case Disable(all) => TurnedOff(before) || (all && !Due(before))
  }

  /** One call, on whether the ETMs trace. */
  lemma TracingStep(s: State, b: Build, c: Call)
    requires s.open ==> s.everConfigured
    requires !s.isFirst ==> s.everConfigured
    ensures var t := Do(s, b, c);
            match c
            case Enable(_, _, _) =>
              if s.isFirst || b.stalker || b.pidFilter then AllTracing(t.etms) else t.etms == s.etms
            case Disable(all) =>
              if all || b.stalker || b.pidFilter then forall i :: 0 <= i < |t.etms| ==> t.etms[i].programming
              else t.etms == s.etms
            case SetBb(_) => s.everConfigured ==> AllTracing(t.etms)
  {
  }

  lemma {:induction false} DueIsFirst(etms: seq<Etm>, b: Build, run: seq<Call>)
    ensures Exec(Initial(etms), b, run).isFirst == Due(run)
  {
    if run != [] { DueIsFirst(etms, b, run[..|run| - 1]); }
  }

  /** In the builds that do not cycle the ETMs. */
  lemma {:induction false} UncycledTracing(etms: seq<Etm>, b: Build, run: seq<Call>)
    requires !b.stalker && !b.pidFilter && etms != []
    ensures var s := Exec(Initial(etms), b, run);
            s.everConfigured && !Due(run) ==> (AllTracing(s.etms) <==> !TurnedOff(run))
    ensures TurnedOff(run) ==> !Due(run)
  {
    if run != [] {
      var before, c := run[..|run| - 1], run[|run| - 1];
      UncycledTracing(etms, b, before);
      Bookkeeping(etms, b, before);
      DueIsFirst(etms, b, before);
      TracingStep(Exec(Initial(etms), b, before), b, c);
      Bookkeeping(etms, b, run);
      hide Do;
      var t := Do(Exec(Initial(etms), b, before), b, c);
      assert Exec(Initial(etms), b, run) == t;
      assert t.etms[0].programming ==> !AllTracing(t.etms);
    }
  }

  /** In every build and after every run, an open window has every ETM tracing if
      and only if the build cycles the ETMs or they were not all turned off since
      the last reconfiguration. */
  lemma {:induction false} OpenWindowTracesIff(etms: seq<Etm>, b: Build, run: seq<Call>)
    requires LeftOpen(run) && etms != []
    ensures AllTracing(Exec(Initial(etms), b, run).etms) <==> b.stalker || b.pidFilter || !TurnedOff(run)
  {
    var before, c := run[..|run| - 1], run[|run| - 1];
    var s := Exec(Initial(etms), b, before);
    Bookkeeping(etms, b, before);
    Bookkeeping(etms, b, run);
    DueIsFirst(etms, b, before);
    TracingStep(s, b, c);
    hide Do;
    assert Exec(Initial(etms), b, run) == Do(s, b, c);
    if !b.stalker && !b.pidFilter { UncycledTracing(etms, b, run); }
  }

  /** So it is whenever the ETMs are never all turned off. */
  lemma {:induction false} NeverTurnedOff(run: seq<Call>)
    requires forall i :: 0 <= i < |run| ==> run[i] != Disable(true)
    ensures !TurnedOff(run)
  {
    if run != [] { NeverTurnedOff(run[..|run| - 1]); }
  }

  /** The pid the last reconfiguration that was given one wrote: the child's under
      Stalker or the filter, else the one passed on; 0 if none was. */
  function ConfiguredFor(b: Build, run: seq<Call>): nat {
    if run == [] then 0
    else
      var before, c := run[..|run| - 1], run[|run| - 1];
      var pid := if c.Enable? && Due(before) then (if b.stalker || b.pidFilter then c.pid else c.arg) else 0;
      if pid > 0 then pid else ConfiguredFor(b, before)
  }

  /** One call without the filter, on the comparators. */
  lemma ConfiguringStep(s: State, b: Build, c: Call)
    requires !b.pidFilter
    ensures var t := Do(s, b, c);
            var pid := if c.Enable? && s.isFirst then (if b.stalker then c.pid else c.arg) else 0;
            |t.etms| == |s.etms| && forall i :: 0 <= i < |s.etms| ==>
              t.etms[i].cid == if pid > 0 then Held(pid) else s.etms[i].cid
  {
  }

  /** Without the PID filter the comparators keep what the last reconfiguration
      wrote, whatever windows are opened and closed since. */
  lemma {:induction false} UnfilteredComparators(etms: seq<Etm>, b: Build, run: seq<Call>)
    requires !b.pidFilter
    ensures var s, pid := Exec(Initial(etms), b, run), ConfiguredFor(b, run);
            |s.etms| == |etms| && forall i :: 0 <= i < |etms| ==>
              s.etms[i].cid == if pid > 0 then Held(pid) else etms[i].cid
  {
    if run != [] {
      var before := run[..|run| - 1];
      hide Do;
      UnfilteredComparators(etms, b, before);
      DueIsFirst(etms, b, before);
      ConfiguringStep(Exec(Initial(etms), b, before), b, run[|run| - 1]);
    }
  }

  // ------------------------------------------- openings and comparators

  lemma SetBbKeepsComparators(s: State, b: Build, mode: bool, pid: nat)
    ensures ComparatorsHold(Do(s, b, SetBb(mode)), pid) <==> ComparatorsHold(s, pid)
  {
    var t := Do(s, b, SetBb(mode));
    assert |t.etms| == |s.etms| && forall i :: 0 <= i < |s.etms| ==> t.etms[i].cid == s.etms[i].cid;
  }

  lemma ReconfiguredHolds(s: State, b: Build, c: Call)
    requires b.pidFilter && c.Enable? && Fits(c)
    ensures ComparatorsHold(Reconfigured(s, b, c), c.pid)
  {
  }

  /** An opening writes the comparators well exactly if it reconfigures or finds
      the window closed. */
  lemma EnableHoldsIff(s: State, b: Build, c: Call)
    requires b.pidFilter && c.Enable? && Fits(c) && s.etms != []
    requires !s.isFirst ==> forall i :: 0 <= i < |s.etms| ==> s.etms[i].programming == !s.open
    ensures ComparatorsHold(Do(s, b, c), c.pid) <==> s.isFirst || !s.open
  {
    ReconfiguredHolds(s, b, c);
    hide Reconfigured;
    if !s.isFirst {
      var t := Do(s, b, c);
      assert t.etms == Cycle(s.etms, b, c.pid);
      assert s.open ==> t.etms[0].cid == Undefined;
    }
  }

  /** Under the PID filter, an open window has every comparator at its child's
      pid, written in programming mode, exactly when it was not opened straight
      on top of another. */
  lemma {:induction false} ComparatorsIff(etms: seq<Etm>, b: Build, run: seq<Call>)
    requires b.pidFilter && AllFit(run) && LeftOpen(run) && etms != []
    ensures ComparatorsHold(Exec(Initial(etms), b, run), Child(run)) <==> !Overlaps(run)
  {
    hide Do, ComparatorsHold;
    var n := |run| - 1;
    var before := run[..n];
    var s := Exec(Initial(etms), b, before);
    Bookkeeping(etms, b, before);
    assert Exec(Initial(etms), b, run) == Do(s, b, run[n]);
    match run[n]
    case SetBb(mode) =>
      ComparatorsIff(etms, b, before);
      SetBbKeepsComparators(s, b, mode, Child(run));
    case Enable(_, _, _) =>
      ClosedIsProgrammable(etms, b, before);
      assert n > 0 ==> before[n - 1] == run[n - 1];
      EnableHoldsIff(s, b, run[n]);
  }

  // ------------------------------------------------------- alternation

  /** The openings and closings of a run, its mode changes left out. */
  function Windows(run: seq<Call>): seq<bool> {
    if run == [] then []
    else
      var c := run[|run| - 1];
      Windows(run[..|run| - 1]) + (if c.SetBb? then [] else [c.Enable?])
  }

  /** No opening follows an opening. */
  predicate Alternate(ws: seq<bool>) {
    forall i :: 0 < i < |ws| ==> !(ws[i - 1] && ws[i])
  }

  lemma {:induction false} AlternatingNeverOverlaps(run: seq<Call>)
    ensures Alternate(Windows(run)) ==> !Overlaps(run)
  {
    if Overlaps(run) {
      var n := |run| - 1;
      var all, before := Windows(run), Windows(run[..n]);
      assert forall i :: 0 <= i < |before| ==> all[i] == before[i];
      if run[n].Enable? {
        assert run[..n][n - 1] == run[n - 1];
        assert all[|before| - 1] && all[|before|];
      } else {
        AlternatingNeverOverlaps(run[..n]);
        var i :| 0 < i < |before| && before[i - 1] && before[i];
        assert all[i - 1] && all[i];
      }
    }
  }

  /** The last opening follows an opening. */
  predicate OnTop(ws: seq<bool>) { |ws| >= 2 && ws[|ws| - 2] && ws[|ws| - 1] }

  /** The call just before the last opening changed the mode. */
  predicate ModeChangedBefore(run: seq<Call>) {
    run != [] && var n := |run| - 1;
    if run[n].Enable? then n > 0 && run[n - 1].SetBb? else ModeChangedBefore(run[..n])
  }

  /** Windows overlap exactly when one opening follows another with no mode
      change in between, which would have had the ETMs reconfigured. */
  lemma {:induction false} OverlapsIff(run: seq<Call>)
    requires LeftOpen(run)
    ensures Overlaps(run) <==> OnTop(Windows(run)) && !ModeChangedBefore(run)
  {
    var n := |run| - 1;
    var before := Windows(run[..n]);
    if run[n].Enable? {
      assert Windows(run) == before + [true];
      if n > 0 {
        assert run[..n][n - 1] == run[n - 1];
        assert !run[n - 1].SetBb? ==> before == Windows(run[..n][..n - 1]) + [run[n - 1].Enable?];
      }
    } else {
      assert Windows(run) == before;
      OverlapsIff(run[..n]);
    }
  }

  lemma {:induction false} NoModeChange(run: seq<Call>)
    requires forall i :: 0 <= i < |run| ==> !run[i].SetBb?
    ensures !ModeChangedBefore(run)
  {
    if run != [] { NoModeChange(run[..|run| - 1]); }
  }
}
