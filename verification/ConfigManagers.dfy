/**
 The manager object: the globals of the config manager as fields, and the
 partition engine as methods that update them in place. Each method is proved to
 compute the function of the same name in `Engine`.
 */
module ConfigManagers {
  import opened Wrappers
  import opened Profiles
  import opened Engine
  import Capability
  import Duplicates
  import Recovery

  class ConfigManager {
    const node: NodeConfig
    var selected: string
    var final: FinalStatus
    var reason: Reason
    var gpus: array<GpuStatus>
    var failed: bool
    var stateLabel: StateLabel
    var calls: seq<Call>   // every device-changing call made so far

    constructor (node: NodeConfig)
      ensures this.node == node && fresh(gpus)
      ensures Value() == Manager("", NoFinal, NoReason, [], false, Absent, [])
    {
      this.node := node;
      selected, final, reason, failed, stateLabel, calls := "", NoFinal, NoReason, false, Absent, [];
      gpus := new GpuStatus[0];
    }

    /** The fields as one value. */
    ghost function Value(): Manager
      reads this, gpus
    {
      Manager(selected, final, reason, gpus[..], failed, stateLabel, calls)
    }

    /** The fields together with the locals of the GPU loop. */
    ghost function LoopValue(idx: nat, needed: bool, code: Option<int>, returned: bool): Loop
      reads this, gpus
    {
      Loop(Value(), idx, needed, code, returned)
    }

    method PopulateGPUEventStatus(gpu: nat, req: Group, status: Status, message: Message, idx: nat)
      requires idx < gpus.Length
      modifies gpus
      ensures Value() == Populate(old(Value()), idx, gpu, req, status, message)
    {
      gpus[idx] := GpuStatus(gpu, PartitionType(req), status, message);
    }

    method RejectGpu(gpu: nat, req: Group, message: Message, idx: nat, ghost needed: bool, ghost code: Option<int>)
      requires idx < gpus.Length
      modifies this, gpus
      ensures gpus == old(gpus)
      ensures LoopValue(idx, needed, code, true) == Reject(old(LoopValue(idx, needed, code, false)), gpu, req, message)
    {
      PopulateGPUEventStatus(gpu, req, Failure, message, idx);
      reason := Rejected(message);
      stateLabel := LabelFailure;
    }

    /** Returns the new value of the failure flag; the final status is put back on every path. */
    method RetryMemoryPartitionWithWait(w: Recovery.World, expected: string) returns (stillFailed: bool)
      modifies this`reason, this`final
      ensures stillFailed == !Recovery.Recovers(w, expected)
      ensures final == old(final)
      ensures reason == if w.handled then AwaitingRecovery else old(reason)
    {
      if !w.handled {
        return true;
      }
      reason := AwaitingRecovery;
      var prevFinal := final;
      final := FinalPending;   // only for the notification
      final := prevFinal;
      var success, polls := Recovery.PollMemory(w, expected);
      return !success;
    }

    method MemoryPartition(gpu: nat, req: Group, a: Answer, idx: nat, ghost needed: bool, code0: Option<int>)
      returns (code: Option<int>, returned: bool)
      requires idx < gpus.Length
      modifies this, gpus
      ensures gpus == old(gpus)
      ensures LoopValue(idx, needed, code, returned) ==
                MemoryPhase(node, gpu, req, old(LoopValue(idx, needed, code0, false)), a)
    {
      hide Capability.Supported, Capability.ConvertMemory, Recovery.Recovers;
      code, returned := code0, false;
      if req.memory != a.memory0 {
        var supported := Capability.GetSupportedMemoryPartitionType(a.caps);
        if supported == None {
          RejectGpu(gpu, req, CapsUnavailable, idx, needed, code);
          returned := true;
          return;
        }
        if req.memory !in supported.value {
          RejectGpu(gpu, req, MemoryUnsupported, idx, needed, code);
          returned := true;
          return;
        }
        calls := calls + [SetMemory(gpu, Capability.ConvertMemory(req.memory))];
        if !node.kmm {
          calls := calls + [ReloadDriver];
        }
        if a.setMemory != STATUS_SUCCESS || a.memory1 == a.memory0 {
          code := Some(a.setMemory);
          failed := true;
          if node.named && node.kmm {
            PopulateGPUEventStatus(gpu, req, Pending, Recovering, idx);
            failed := RetryMemoryPartitionWithWait(a.recovery, req.memory);
          }
          if failed {
            stateLabel := LabelFailure;
          }
        }
      }
    }

    method ComputePartition(gpu: nat, req: Group, a: Answer, idx: nat, ghost needed: bool, code0: Option<int>)
      returns (code: Option<int>, returned: bool)
      requires idx < gpus.Length
      modifies this, gpus
      ensures gpus == old(gpus)
      ensures LoopValue(idx, needed, code, returned) ==
                ComputePhase(gpu, req, old(LoopValue(idx, needed, code0, false)), a)
    {
      code, returned := code0, false;
      if req.compute != a.compute1 {
        calls := calls + [SetCompute(gpu, Capability.ConvertCompute(req.compute))];
        if a.setCompute != STATUS_SUCCESS {
          code := Some(a.setCompute);
          if a.setCompute == SETTING_UNAVAILABLE {
            RejectGpu(gpu, req, ComputeUnsupported, idx, needed, code);
            returned := true;
            return;
          }
          stateLabel := LabelFailure;
          failed := true;
        }
      }
    }

    /** The body of the inner loop; the locals of the loop are passed in and out. */
    method VisitGpu(gpu: nat, req: Group, a: Answer, idx0: nat, needed0: bool, code0: Option<int>)
      returns (idx: nat, needed: bool, code: Option<int>, returned: bool)
      requires idx0 < gpus.Length
      modifies this, gpus
      ensures gpus == old(gpus)
      ensures LoopValue(idx, needed, code, returned) ==
                Visit(node, gpu, req, old(LoopValue(idx0, needed0, code0, false)), a)
    {
      hide MemoryPhase, ComputePhase;
      idx, needed, code, returned := idx0, needed0, code0, false;
      if !a.typeKnown {
        RejectGpu(gpu, req, ApiError, idx, needed, code);
        returned := true;
        return;
      }
      if !a.isGpu {
        return;
      }
      if req.compute == a.compute0 && req.memory == a.memory0 {
        PopulateGPUEventStatus(gpu, req, Success, NotRequired, idx);
        idx := idx + 1;
        return;
      }
      needed := true;
      code, returned := MemoryPartition(gpu, req, a, idx, needed, code);
      if returned {
        return;
      }
      code, returned := ComputePartition(gpu, req, a, idx, needed, code);
      if returned {
        return;
      }
      if failed {
        PopulateGPUEventStatus(gpu, req, Failure, StepFailed(code), idx);
        reason := PartitionFailed(code);
      } else {
        PopulateGPUEventStatus(gpu, req, Success, Partitioned, idx);
      }
      idx := idx + 1;
    }

    /** The inner loop: the GPUs of one group, from iteration `t0` of the whole loop on. */
    method VisitGroup(ids: seq<nat>, req: Group, answers: nat -> Answer,
                      t0: nat, idx0: nat, needed0: bool, code0: Option<int>,
                      ghost m: Manager, ghost plan: Plan)
      returns (t: nat, idx: nat, needed: bool, code: Option<int>, returned: bool)
      requires plan.Fits() && plan.usable == ids && plan.node == node
      requires t0 + req.count <= |plan.reqs| && forall k :: t0 <= k < t0 + req.count ==> plan.reqs[k] == req
      requires LoopValue(idx0, needed0, code0, false) == After(m, plan, answers, t0)
      modifies this, gpus
      ensures gpus == old(gpus)
      ensures t0 <= t <= t0 + req.count && (returned || t == t0 + req.count)
      ensures LoopValue(idx, needed, code, returned) == After(m, plan, answers, t)
    {
      hide Visit;
      t, idx, needed, code, returned := t0, idx0, needed0, code0, false;
      for j := 0 to req.count
        invariant t == t0 + j && !returned && gpus == old(gpus)
        invariant LoopValue(idx, needed, code, returned) == After(m, plan, answers, t)
      {
        ghost var before := LoopValue(idx, needed, code, false);
        assert |before.mgr.gpus| == gpus.Length && plan.reqs[t] == req;
        idx, needed, code, returned := VisitGpu(ids[idx], req, answers(t), idx, needed, code);
        t := t + 1;
        assert After(m, plan, answers, t) ==
               Visit(plan.node, plan.usable[before.idx], plan.reqs[t - 1], before, answers(t - 1));
        if returned {
          return;
        }
      }
    }

    /** The outer loop over the groups, after the status array was made and the flag cleared. */
    method VisitGroups(groups: seq<Group>, ids: seq<nat>, answers: nat -> Answer, ghost m: Manager, ghost plan: Plan)
      returns (idx: nat, needed: bool, code: Option<int>, returned: bool)
      requires plan.Fits() && plan.usable == ids && plan.node == node && plan.reqs == Flatten(groups)
      requires LoopValue(0, false, None, false) == Start(m, plan)
      modifies this, gpus
      ensures gpus == old(gpus)
      ensures LoopValue(idx, needed, code, returned) == After(m, plan, answers, |plan.reqs|)
    {
      hide Visit, Flatten;
      idx, needed, code, returned := 0, false, None, false;
      var t := 0;
      FlattenLength(groups);
      for i := 0 to |groups|
        invariant t == Prefix(groups, i) && !returned && gpus == old(gpus)
        invariant t <= |plan.reqs| && LoopValue(idx, needed, code, returned) == After(m, plan, answers, t)
      {
        PrefixMonotone(groups, i + 1, |groups|);
        forall k | t <= k < t + groups[i].count ensures plan.reqs[k] == groups[i] {
          FlattenAt(groups, i, k);
        }
        t, idx, needed, code, returned := VisitGroup(ids, groups[i], answers, t, idx, needed, code, m, plan);
        if returned {
          ReturnedSticks(m, plan, answers, t, |plan.reqs|);
          return;
        }
      }
    }

    method VisitAll(p: Profile, s: Session)
      returns (idx: nat, needed: bool, code: Option<int>, returned: bool)
      requires Validate(p, s.sockets) == Accepted
      modifies this
      ensures fresh(gpus)
      ensures LoopValue(idx, needed, code, returned) == RunLoop(node, old(Value()), p, s)
    {
      ghost var plan := PlanOf(node, p, s.sockets);
      AllocationFits(p, s.sockets);
      var ids := CreateGPUIDList(Skips(p), s.sockets);
      gpus := new GpuStatus[|ids|](_ => BLANK);
      failed := false;
      assert gpus[..] == seq(|plan.usable|, _ => BLANK);
      idx, needed, code, returned := VisitGroups(p.groups, ids, s.answers, old(Value()), plan);
    }

    method AmdSmiHelper(p: Profile, s: Session)
      requires NoPanic(p, s)
      modifies this
      ensures gpus == old(gpus) || fresh(gpus)
      ensures Value() == Helper(node, old(Value()), p, s)
    {
      if s.sockets == 0 {
        reason := NoSockets;
        stateLabel := LabelFailure;
        return;
      }
      var verdict := ValidateProfile(p, s.sockets);
      if verdict != Accepted {
        reason := InvalidProfile(verdict);
        stateLabel := LabelFailure;
        return;
      }
      var idx, needed, code, returned := VisitAll(p, s);
      if returned {
        return;
      }
      if !failed {
        final := FinalSuccess;
        reason := if needed then AllPartitioned else AlreadyConfigured;
        stateLabel := LabelSuccess;
      }
    }

    method PartitionGPU(name: string, file: ConfigFile, initOk: bool, s: Session) returns (err: bool)
      requires Runnable(Value(), name, file, initOk, s)
      modifies this
      ensures gpus == old(gpus) || fresh(gpus)
      ensures Outcome(Value(), err) == PartitionGpu(node, old(Value()), name, file, initOk, s)
    {
      selected := name;
      gpus := new GpuStatus[0];
      final := FinalFailure;
      if file.Missing? {
        reason, stateLabel := ConfigMissing, LabelFailure;
        return false;
      }
      if file.profiles == None {
        reason, stateLabel := InvalidJson, LabelFailure;
        return false;
      }
      var entries := file.profiles.value;
      var duplicates := Duplicates.DetectDuplicateKeys(Duplicates.Names(entries));
      if |duplicates| > 0 {
        reason, stateLabel := DuplicateNames, LabelFailure;
        return false;
      }
      var profiles := Duplicates.LastWins(entries);
      if name !in profiles {
        reason, stateLabel := ProfileMissing, LabelFailure;
        return false;
      }
      if !initOk {
        reason, stateLabel := InitFailed, LabelFailure;
        return false;
      }
      AmdSmiHelper(profiles[name], s);
      return failed;
    }
  }
}
