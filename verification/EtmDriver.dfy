/** The register writes behind a trace window, ETM by ETM. */
module EtmDriver {
  import opened EtmWindow

  class Tracer {
    const build: Build
    const etms: array<Etm>
    var currentBb: bool
    var decoderBb: bool
    var isFirst: bool
    var everConfigured: bool
    var tracedPid: nat
    var childPid: nat
    var open: bool

    ghost function Abs(): State
      reads this, etms
    {
      State(etms[..], currentBb, decoderBb, isFirst, everConfigured, tracedPid, childPid, open)
    }

    constructor (build: Build, etms: array<Etm>)
      ensures this.build == build && this.etms == etms
      ensures Abs() == Initial(etms[..])
    {
      this.build := build;
      this.etms := etms;
      currentBb, decoderBb, isFirst, everConfigured := false, false, true, false;
      tracedPid, childPid, open := 0, 0, false;
    }

    method SetEtmBbMode(mode: bool)
      modifies etms
      ensures etms[..] == BbSet(old(etms[..]), mode)
    {
      ghost var was := etms[..];
      for i := 0 to etms.Length
        invariant forall k :: 0 <= k < i ==> etms[k] == BbSet(was, mode)[k]
        invariant forall k :: i <= k < etms.Length ==> etms[k] == was[k]
      {
        etms[i] := PutBb(etms[i], mode);
        etms[i] := TraceOn(etms[i]);
      }
    }

    /** Two passes: make every ETM programmable, then program the filters. */
    method ConfigureTrace(wiped: set<nat>, pid: nat)
      modifies etms
      ensures etms[..] == Configured(old(etms[..]), wiped, pid)
    {
      ghost var was := etms[..];
      for i := 0 to etms.Length
        invariant forall k :: 0 <= k < i ==> etms[k] == InitEtm(was[k], k in wiped)
        invariant forall k :: i <= k < etms.Length ==> etms[k] == was[k]
      {
        etms[i] := InitEtm(etms[i], i in wiped);
      }
      for i := 0 to etms.Length
        invariant forall k :: 0 <= k < i ==> etms[k] == PutCid(InitEtm(was[k], k in wiped), pid)
        invariant forall k :: i <= k < etms.Length ==> etms[k] == InitEtm(was[k], k in wiped)
      {
        etms[i] := PutCid(etms[i], pid);
      }
    }

    method EnableTrace()
      modifies this`open, etms
      ensures open && etms[..] == AllOn(old(etms[..]))
    {
      ghost var was := etms[..];
      open := true;
      for i := 0 to etms.Length
        invariant open
        invariant forall k :: 0 <= k < i ==> etms[k] == AllOn(was)[k]
        invariant forall k :: i <= k < etms.Length ==> etms[k] == was[k]
      {
        etms[i] := TraceOn(etms[i]);
      }
    }

    /** The ETMs are cycled in the same pass that retargets the comparators. */
    method EnableTraceSinksOnly()
      modifies this`open, etms
      ensures open && etms[..] == Cycle(old(etms[..]), build, tracedPid)
    {
      open := true;
      if build.Cycled() {
        ghost var was := etms[..];
        for i := 0 to etms.Length
          invariant open
          invariant forall k :: 0 <= k < i ==> etms[k] == Cycle(was, build, tracedPid)[k]
          invariant forall k :: i <= k < etms.Length ==> etms[k] == was[k]
        {
          if tracedPid > 0 && build.pidFilter {
            etms[i] := WriteCid(etms[i], tracedPid);
          }
          etms[i] := TraceOn(etms[i]);
        }
      }
    }

    method DisableCsTrace(all: bool)
      modifies this`open, etms
      ensures Abs() == Do(old(Abs()), build, Disable(all))
    {
      if all || build.Cycled() {
        ghost var was := etms[..];
        for i := 0 to etms.Length
          invariant forall k :: 0 <= k < i ==> etms[k] == AllOff(was)[k]
          invariant forall k :: i <= k < etms.Length ==> etms[k] == was[k]
        {
          etms[i] := TraceOff(etms[i]);
        }
      }
      open := false;
    }

    method TraceSetBbMode(mode: bool)
      modifies this`currentBb, this`decoderBb, this`isFirst, etms
      ensures Abs() == Do(old(Abs()), build, SetBb(mode))
    {
      if everConfigured { SetEtmBbMode(mode); }
      currentBb := mode;
      isFirst := true;
      if build.stalker { decoderBb := mode; }
    }

    method EnableCsTrace(pid: nat, arg: nat, wiped: set<nat>)
      modifies this`isFirst, this`everConfigured, this`tracedPid, this`childPid, this`open, etms
      ensures Abs() == Do(old(Abs()), build, Enable(pid, arg, wiped))
    {
      childPid := pid;
      if isFirst {
        if !build.stalker && !build.pidFilter {
          ConfigureTrace(wiped, arg);
        } else {
          tracedPid := childPid;
          ConfigureTrace(wiped, childPid);
        }
        EnableTrace();
        isFirst := false;
        everConfigured := true;
        if currentBb { SetEtmBbMode(currentBb); }
      } else {
        tracedPid := childPid;
        EnableTraceSinksOnly();
      }
    }
  }
}
