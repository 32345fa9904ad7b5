/** The governor's writes as they are issued: the redundant-write skip, the
    staging of the restore operations and their replay. */
module CpufreqDriver {
  import opened CpuPolicy

  const RESTORE_OPS := 5

  class Driver {
    const bounds: Bounds
    var policy: Policy
    var lastSetFreq: nat
    var restoreOps: seq<Write>

    ghost function Abs(): Machine
      reads this
    {
      Machine(policy, lastSetFreq)
    }

    /** `freq_gov_init`: stage the restore from the policy found, then take the
        userspace governor. No staged operation is dropped for want of room. */
    constructor (bounds: Bounds, found: Policy)
      ensures this.bounds == bounds
      ensures restoreOps == RestoreWrites(bounds, Save(found)) && |restoreOps| <= RESTORE_OPS
      ensures Abs() == Machine(Written(found, SetGovernor(Userspace)), 0)
    {
      this.bounds := bounds;
      policy := found;
      lastSetFreq := 0;
      restoreOps := [];
      new;
      hide Written, Accepted;
      Stage(Save(found));
      WriteSysfs(SetGovernor(Userspace));
      lastSetFreq := 0;
    }

    /** Values that could not be read are not staged. */
    method Stage(saved: Saved)
      requires restoreOps == []
      modifies this`restoreOps
      ensures restoreOps == RestoreWrites(bounds, saved) && |restoreOps| <= RESTORE_OPS
    {
      hide IfKnown;
      ghost var lo, max, min, speed :=
        IfKnown(bounds.lo != 0, MinFreq(bounds.lo)), IfKnown(saved.max != 0, MaxFreq(saved.max)),
        IfKnown(saved.min != 0, MinFreq(saved.min)), IfKnown(saved.speed != 0, SetSpeed(saved.speed));
      ghost var governor := if saved.governor.Some? then IfKnown(true, SetGovernor(saved.governor.value)) else [];
      StageIf(bounds.lo != 0, MinFreq(bounds.lo));
      assert restoreOps == lo;
      StageIf(saved.max != 0, MaxFreq(saved.max));
      StageIf(saved.min != 0, MinFreq(saved.min));
      assert restoreOps == lo + max + min;
      if saved.governor.Some? { StageIf(true, SetGovernor(saved.governor.value)); }
      assert restoreOps == lo + max + min + governor;
      StageIf(saved.speed != 0, SetSpeed(saved.speed));
    }

    method AddRestoreOp(w: Write)
      modifies this`restoreOps
      ensures restoreOps == if |old(restoreOps)| >= RESTORE_OPS then old(restoreOps) else old(restoreOps) + [w]
    {
      if |restoreOps| >= RESTORE_OPS { return; }
      restoreOps := restoreOps + [w];
    }

    method StageIf(known: bool, w: Write)
      requires |restoreOps| < RESTORE_OPS
      modifies this`restoreOps
      ensures restoreOps == old(restoreOps) + IfKnown(known, w)
    {
      if known { AddRestoreOp(w); }
    }

    /** A refused write is reported and otherwise ignored. */
    method WriteSysfs(w: Write)
      modifies this`policy
      ensures policy == Written(old(policy), w)
    {
      if !Accepted(policy, w) { return; }
      match w
      case MinFreq(f) => policy := policy.(min := f);
      case MaxFreq(f) => policy := policy.(max := f);
      case SetGovernor(g) => policy := policy.(governor := g);
      case SetSpeed(f) => policy := policy.(speed := f);
    }

    method SetFreq(target: nat)
      modifies this`policy, this`lastSetFreq
      ensures Abs() == CpuPolicy.SetFreq(old(Abs()), bounds, target)
    {
      if target == lastSetFreq { return; }
      FourWrites(policy, MinFreq(bounds.lo), MaxFreq(target), MinFreq(target), SetSpeed(target));
      hide WrittenAll;
      WriteSysfs(MinFreq(bounds.lo));
      WriteSysfs(MaxFreq(target));
      WriteSysfs(MinFreq(target));
      WriteSysfs(SetSpeed(target));
      lastSetFreq := target;
    }

    /** Replay the staged operations, on exit, on a signal or from the guard. */
    method RestoreSystem()
      modifies this`policy, this`lastSetFreq
      ensures Abs() == Called(old(Abs()), bounds, restoreOps, GiveBack)
    {
      hide Written;
      ghost var p := policy;
      for i := 0 to |restoreOps|
        invariant policy == WrittenAll(p, restoreOps[..i])
      {
        WritesSplit(p, restoreOps[..i], [restoreOps[i]]);
        assert restoreOps[..i + 1] == restoreOps[..i] + [restoreOps[i]];
        assert [restoreOps[i]][1..] == [];
        WriteSysfs(restoreOps[i]);
      }
      assert restoreOps[..|restoreOps|] == restoreOps;
      lastSetFreq := 0;
    }
  }
}
