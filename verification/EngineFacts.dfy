/**
 What one `PartitionGPU` call guarantees whatever AMD SMI answers: the node label,
 the error return, the failure flag, the status array, and the calls it makes.
 */
module EngineFacts {
  import opened Wrappers
  import opened Profiles
  import opened Engine
  import Capability
  import Duplicates
  import Recovery

  // ----- one iteration, told from the raw answers -----

  /** The GPU has the requested pair on entry. */
  predicate Holds(req: Group, a: Answer) {
    a.compute0 == req.compute && a.memory0 == req.memory
  }

  predicate Changes(req: Group, a: Answer) {
    a.typeKnown && a.isGpu && !Holds(req, a)
  }

  /** The memory phase ends the call: the mode is not supported, or nothing is known about it. */
  predicate MemoryRejected(req: Group, a: Answer) {
    req.memory != a.memory0 && req.memory !in Capability.Supported(a.caps)
  }

  predicate MemoryIssued(req: Group, a: Answer) {
    Changes(req, a) && req.memory != a.memory0 && !MemoryRejected(req, a)
  }

  predicate ComputeIssued(req: Group, a: Answer) {
    Changes(req, a) && !MemoryRejected(req, a) && req.compute != a.compute1
  }

  /** The iteration ends the whole call. */
  predicate Rejects(req: Group, a: Answer) {
    || !a.typeKnown
    || (Changes(req, a) && MemoryRejected(req, a))
    || (ComputeIssued(req, a) && a.setCompute == 55)
  }

  /** What an iteration that ends the call reports. */
  function Refusal(req: Group, a: Answer): Message {
    if !a.typeKnown then ApiError
    else if MemoryRejected(req, a) then
      if Capability.Supported(a.caps) == [] then CapsUnavailable else MemoryUnsupported
    else ComputeUnsupported
  }

  /** The set is refused, or the mode read back is the old one. */
  predicate Unmoved(a: Answer) {
    a.setMemory != 0 || a.memory1 == a.memory0
  }

  /** On a named KMM node the driver comes back and some poll reads the requested mode. */
  predicate MadeGood(node: NodeConfig, req: Group, a: Answer) {
    && node.named && node.kmm && a.recovery.handled
    && exists i: nat :: i < Recovery.Polls(a.recovery) && a.recovery.polled(i) == req.memory
  }

  /** A memory or compute step fails and is not made good by a recovery. */
  predicate StepFails(node: NodeConfig, req: Group, a: Answer) {
    || (MemoryIssued(req, a) && Unmoved(a) && !MadeGood(node, req, a))
    || (ComputeIssued(req, a) && a.setCompute != 0 && a.setCompute != 55)
  }

  /** The result of a successful recovery overwrites the flag. */
  predicate Clears(node: NodeConfig, req: Group, a: Answer) {
    MemoryIssued(req, a) && Unmoved(a) && MadeGood(node, req, a)
  }

  /** The status code that is reported with the next failure. */
  function CodeAfter(code: Option<int>, req: Group, a: Answer): Option<int> {
    if ComputeIssued(req, a) && a.setCompute != 0 then Some(a.setCompute)
    else if MemoryIssued(req, a) && Unmoved(a) then Some(a.setMemory)
    else code
  }

  /** The device-changing calls of one iteration. */
  function MemoryCalls(node: NodeConfig, gpu: nat, req: Group, a: Answer): seq<Call> {
    if req.memory == a.memory0 || MemoryRejected(req, a) then []
    else [SetMemory(gpu, Capability.ConvertMemory(req.memory))] + (if node.kmm then [] else [ReloadDriver])
  }

  function ComputeCalls(gpu: nat, req: Group, a: Answer): seq<Call> {
    if req.compute == a.compute1 then [] else [SetCompute(gpu, Capability.ConvertCompute(req.compute))]
  }

  function CallsOf(node: NodeConfig, gpu: nat, req: Group, a: Answer): seq<Call> {
    if !Changes(req, a) then []
    else MemoryCalls(node, gpu, req, a) + (if MemoryRejected(req, a) then [] else ComputeCalls(gpu, req, a))
  }

  /**
   What every part of an iteration keeps, and that a flag or an early return it sets
   comes with the label "failure".
   */
  predicate Keeps(st: Loop, st': Loop) {
    && |st'.mgr.gpus| == |st.mgr.gpus|
    && st'.mgr.final == st.mgr.final && st'.mgr.selected == st.mgr.selected
    && ((st'.mgr.failed && !st.mgr.failed) || st'.returned ==> st'.mgr.stateLabel == LabelFailure)
    && (st.mgr.stateLabel == LabelFailure ==> st'.mgr.stateLabel == LabelFailure)
    && forall p: nat :: p < |st.mgr.gpus| && p != st.idx ==> st'.mgr.gpus[p] == st.mgr.gpus[p]
  }

  lemma MemoryPhaseFacts(node: NodeConfig, gpu: nat, req: Group, st: Loop, a: Answer)
    requires st.idx < |st.mgr.gpus| && !st.returned
    ensures var s := MemoryPhase(node, gpu, req, st, a);
            var bad := req.memory != a.memory0 && !MemoryRejected(req, a) && Unmoved(a);
            && Keeps(st, s) && s.idx == st.idx && s.needed == st.needed
            && s.code == (if bad then Some(a.setMemory) else st.code)
            && s.returned == MemoryRejected(req, a)
            && s.mgr.calls == st.mgr.calls + MemoryCalls(node, gpu, req, a)
            && s.mgr.failed == if bad then !MadeGood(node, req, a) else st.mgr.failed
  {
    hide Capability.Supported, Recovered, MadeGood;
    RecoveredExactly(node, req, a);
  }

  /** The recovery of the engine is the one told from the answers. */
  lemma RecoveredExactly(node: NodeConfig, req: Group, a: Answer)
    ensures Recovered(node, req, a) <==> MadeGood(node, req, a)
  {
  }

  /** A phase that ends the call leaves a failure entry with its message. */
  lemma PhaseRefusals(node: NodeConfig, gpu: nat, req: Group, st: Loop, a: Answer)
    requires st.idx < |st.mgr.gpus| && !st.returned
    ensures var s := MemoryPhase(node, gpu, req, st, a);
            var message := if Capability.Supported(a.caps) == [] then CapsUnavailable else MemoryUnsupported;
            s.returned ==>
              && s.mgr.gpus[st.idx] == GpuStatus(gpu, req.compute + "-" + req.memory, Failure, message)
              && s.mgr.reason == Engine.Rejected(message)
    ensures var s := ComputePhase(gpu, req, st, a);
            s.returned ==>
              && s.mgr.gpus[st.idx] == GpuStatus(gpu, req.compute + "-" + req.memory, Failure, ComputeUnsupported)
              && s.mgr.reason == Engine.Rejected(ComputeUnsupported)
  {
    hide Capability.Supported;
  }

  /**
   During a recovery the entry is "Pending", and the reason says that the driver is
   waited for if it could be unloaded.
   */
  lemma RecoveryReport(node: NodeConfig, gpu: nat, req: Group, st: Loop, a: Answer)
    requires st.idx < |st.mgr.gpus| && !st.returned && node.named && node.kmm
    requires req.memory != a.memory0 && !MemoryRejected(req, a) && Unmoved(a)
    ensures var s := MemoryPhase(node, gpu, req, st, a).mgr;
            && s.gpus[st.idx] == GpuStatus(gpu, req.compute + "-" + req.memory, Pending, Recovering)
            && s.reason == if a.recovery.handled then AwaitingRecovery else st.mgr.reason
  {
    hide Capability.Supported, Recovered;
  }

  lemma ComputePhaseFacts(gpu: nat, req: Group, st: Loop, a: Answer)
    requires st.idx < |st.mgr.gpus| && !st.returned
    ensures var s := ComputePhase(gpu, req, st, a);
            var bad := req.compute != a.compute1 && a.setCompute != 0;
            && Keeps(st, s) && s.idx == st.idx && s.needed == st.needed
            && s.code == (if bad then Some(a.setCompute) else st.code)
            && s.returned == (bad && a.setCompute == 55)
            && s.mgr.calls == st.mgr.calls + ComputeCalls(gpu, req, a)
            && s.mgr.failed == (st.mgr.failed || (bad && a.setCompute != 55))
  {
  }

  lemma RecordFacts(gpu: nat, req: Group, st: Loop)
    requires st.idx < |st.mgr.gpus| && !st.returned
    ensures var s := Record(gpu, req, st);
            && Keeps(st, s) && s.idx == st.idx + 1 && s.needed == st.needed && !s.returned
            && s.mgr.calls == st.mgr.calls && s.mgr.failed == st.mgr.failed
            && s.code == st.code
            && s.mgr.gpus[st.idx] == VisitedEntry(gpu, req, st.mgr.failed, st.code)
            && (st.mgr.failed ==> s.mgr.reason == PartitionFailed(st.code))
  {
  }

  /** The status entry of a GPU whose iteration goes through all steps. */
  function VisitedEntry(gpu: nat, req: Group, failed: bool, code: Option<int>): GpuStatus {
    if failed then GpuStatus(gpu, req.compute + "-" + req.memory, Failure, StepFailed(code))
    else GpuStatus(gpu, req.compute + "-" + req.memory, Success, Partitioned)
  }

  /** The status entry an iteration on a GPU leaves; one that ends the call reports a failure. */
  function EntryFor(gpu: nat, req: Group, a: Answer, failed: bool, code: Option<int>): GpuStatus {
    if Rejects(req, a) then GpuStatus(gpu, req.compute + "-" + req.memory, Failure, Refusal(req, a))
    else if Holds(req, a) then GpuStatus(gpu, req.compute + "-" + req.memory, Success, NotRequired)
    else VisitedEntry(gpu, req, failed, code)
  }

  lemma VisitFacts(node: NodeConfig, gpu: nat, req: Group, st: Loop, a: Answer)
    requires st.idx < |st.mgr.gpus| && !st.returned
    ensures var s := Visit(node, gpu, req, st, a);
            && Keeps(st, s)
            && s.returned == Rejects(req, a)
            && s.mgr.failed == (StepFails(node, req, a) || (st.mgr.failed && !Clears(node, req, a)))
            && s.idx == (if a.isGpu && !Rejects(req, a) then st.idx + 1 else st.idx)
            && s.needed == (st.needed || Changes(req, a))
            && s.mgr.calls == st.mgr.calls + CallsOf(node, gpu, req, a)
            && s.code == CodeAfter(st.code, req, a)
            && (Rejects(req, a) || a.isGpu ==> s.mgr.gpus[st.idx] == EntryFor(gpu, req, a, s.mgr.failed, s.code))
            && (Rejects(req, a) ==> s.mgr.reason == Engine.Rejected(Refusal(req, a)))
            && (!Rejects(req, a) && !Changes(req, a) ==> s.mgr.reason == st.mgr.reason)
            && (!Rejects(req, a) && Changes(req, a) && s.mgr.failed ==> s.mgr.reason == PartitionFailed(s.code))
            && (!a.isGpu && a.typeKnown ==> s == st)
  {
    hide MemoryPhase, ComputePhase, Record;
    if Changes(req, a) {
      var s0 := st.(needed := true);
      var s1 := MemoryPhase(node, gpu, req, s0, a);
      MemoryPhaseFacts(node, gpu, req, s0, a);
      PhaseRefusals(node, gpu, req, s0, a);
      if !s1.returned {
        var s2 := ComputePhase(gpu, req, s1, a);
        ComputePhaseFacts(gpu, req, s1, a);
        PhaseRefusals(node, gpu, req, s1, a);
        if !s2.returned {
          RecordFacts(gpu, req, s2);
        }
      }
    }
  }

  lemma AfterStart(m: Manager, plan: Plan, answers: nat -> Answer)
    requires plan.Fits()
    ensures After(m, plan, answers, 0) == Start(m, plan)
  {
  }

  lemma AfterStep(m: Manager, plan: Plan, answers: nat -> Answer, t: nat)
    requires plan.Fits() && 0 < t <= |plan.reqs|
    ensures var st := After(m, plan, answers, t - 1);
            After(m, plan, answers, t) ==
            if st.returned then st else Visit(plan.node, plan.usable[st.idx], plan.reqs[t - 1], st, answers(t - 1))
  {
  }

  // ----- the node label -----

  lemma {:induction false} LoopLabel(m: Manager, plan: Plan, answers: nat -> Answer, t: nat)
    requires plan.Fits() && t <= |plan.reqs|
    ensures After(m, plan, answers, t).mgr.final == m.final && After(m, plan, answers, t).mgr.selected == m.selected
    ensures After(m, plan, answers, t).mgr.failed || After(m, plan, answers, t).returned ==>
              After(m, plan, answers, t).mgr.stateLabel == LabelFailure
  {
    hide Visit;
    if t > 0 {
      var st := After(m, plan, answers, t - 1);
      LoopLabel(m, plan, answers, t - 1);
      if !st.returned {
        VisitFacts(plan.node, plan.usable[st.idx], plan.reqs[t - 1], st, answers(t - 1));
      }
    }
  }

  /**
   After every call, over all early returns, the label is settled, and it says
   "success" exactly when the final status does; an error never leaves "success".
   */
  lemma LabelMatchesFinal(node: NodeConfig, m: Manager, name: string, file: ConfigFile, initOk: bool, s: Session)
    requires Runnable(m, name, file, initOk, s)
    ensures var out := PartitionGpu(node, m, name, file, initOk, s);
            && (out.mgr.stateLabel == LabelSuccess || out.mgr.stateLabel == LabelFailure)
            && (out.mgr.final == FinalSuccess || out.mgr.final == FinalFailure)
            && (out.mgr.stateLabel == LabelSuccess <==> out.mgr.final == FinalSuccess)
            && (out.err ==> out.mgr.stateLabel == LabelFailure)
  {
    var prep := Prepare(m, name, file, initOk);
    if prep.Opened? {
      HelperLabel(node, prep.mgr, prep.profile, s);
    }
  }

  lemma HelperLabel(node: NodeConfig, m: Manager, p: Profile, s: Session)
    requires NoPanic(p, s) && m.final == FinalFailure
    ensures var out := Helper(node, m, p, s);
            && (out.stateLabel == LabelSuccess || out.stateLabel == LabelFailure)
            && (out.final == FinalSuccess || out.final == FinalFailure)
            && (out.stateLabel == LabelSuccess <==> out.final == FinalSuccess)
            && (out.failed && Validate(p, s.sockets) == Accepted ==> out.stateLabel == LabelFailure)
            && (Validate(p, s.sockets) != Accepted ==> out.stateLabel == LabelFailure)
            && (m.final == FinalFailure && out.failed ==> out.stateLabel == LabelFailure)
            && out.selected == m.selected
  {
    if s.sockets != 0 && Validate(p, s.sockets) == Accepted {
      AllocationFits(p, s.sockets);
      var plan := PlanOf(node, p, s.sockets);
      LoopLabel(m, plan, s.answers, |plan.reqs|);
    }
  }

  // ----- the failure flag -----

  /** Iteration `q` is reached. */
  predicate Reached(m: Manager, plan: Plan, answers: nat -> Answer, q: nat)
    requires plan.Fits()
  {
    q < |plan.reqs| && !After(m, plan, answers, q).returned
  }

  /** Iteration `q` is reached before `t`, fails, and no later recovery before `t` overwrites the flag. */
  ghost predicate OpenFailure(m: Manager, plan: Plan, answers: nat -> Answer, t: nat, q: nat)
    requires plan.Fits() && t <= |plan.reqs|
  {
    && q < t
    && Reached(m, plan, answers, q)
    && StepFails(plan.node, plan.reqs[q], answers(q))
    && forall r: nat :: q < r < t && Reached(m, plan, answers, r) ==> !Clears(plan.node, plan.reqs[r], answers(r))
  }

  ghost predicate AnyOpenFailure(m: Manager, plan: Plan, answers: nat -> Answer, t: nat)
    requires plan.Fits() && t <= |plan.reqs|
  {
    exists q: nat :: OpenFailure(m, plan, answers, t, q)
  }

  /**
   The flag is true exactly when some step failed since the last successful
   recovery. Without KMM recovery nothing clears it (see StatusExact).
   */
  lemma {:induction false} FlagExact(m: Manager, plan: Plan, answers: nat -> Answer, t: nat)
    requires plan.Fits() && t <= |plan.reqs|
    ensures After(m, plan, answers, t).mgr.failed <==> AnyOpenFailure(m, plan, answers, t)
  {
    hide Visit, StepFails, Clears, OpenFailure, AnyOpenFailure;
    if t > 0 {
      FlagExact(m, plan, answers, t - 1);
      var st := After(m, plan, answers, t - 1);
      if st.returned {
        assert After(m, plan, answers, t) == st;
      } else {
        VisitFacts(plan.node, plan.usable[st.idx], plan.reqs[t - 1], st, answers(t - 1));
      }
      OpenFailureStep(m, plan, answers, t - 1);
    } else {
      NoFailureAtStart(m, plan, answers);
    }
  }

  lemma NoFailureAtStart(m: Manager, plan: Plan, answers: nat -> Answer)
    requires plan.Fits()
    ensures !AnyOpenFailure(m, plan, answers, 0)
  {
  }

  /** How the open failures change in iteration `t`. */
  lemma OpenFailureStep(m: Manager, plan: Plan, answers: nat -> Answer, t: nat)
    requires plan.Fits() && t < |plan.reqs|
    ensures AnyOpenFailure(m, plan, answers, t + 1) <==>
              if Reached(m, plan, answers, t) then
                StepFails(plan.node, plan.reqs[t], answers(t)) ||
                (AnyOpenFailure(m, plan, answers, t) && !Clears(plan.node, plan.reqs[t], answers(t)))
              else AnyOpenFailure(m, plan, answers, t)
  {
    hide After, StepFails, Clears;
    var u := t + 1;
    assert forall q: nat :: OpenFailure(m, plan, answers, u, q) <==>
      if q == t then Reached(m, plan, answers, t) && StepFails(plan.node, plan.reqs[t], answers(t))
      else OpenFailure(m, plan, answers, t, q) &&
           (Reached(m, plan, answers, t) ==> !Clears(plan.node, plan.reqs[t], answers(t)));
    if Reached(m, plan, answers, t) && StepFails(plan.node, plan.reqs[t], answers(t)) {
      assert OpenFailure(m, plan, answers, u, t);
    } else if AnyOpenFailure(m, plan, answers, t) {
      var q: nat :| OpenFailure(m, plan, answers, t, q);
      assert OpenFailure(m, plan, answers, u, q) <==>
        (Reached(m, plan, answers, t) ==> !Clears(plan.node, plan.reqs[t], answers(t)));
    }
  }

  // ----- before the helper -----

  /**
   A call gets as far as the helper exactly when the file exists and decodes, no
   profile name repeats, AMD SMI opens, and the file has an entry of the wanted
   name; the profile is then that one entry's.
   */
  lemma PrepareExact(m: Manager, name: string, file: ConfigFile, initOk: bool)
    ensures Prepare(m, name, file, initOk).Opened? <==>
              && file.Present? && file.profiles.Some? && initOk
              && Distinct(Duplicates.Names(file.profiles.value))
              && name in Duplicates.Names(file.profiles.value)
    ensures Prepare(m, name, file, initOk).Opened? ==>
              forall i :: 0 <= i < |file.profiles.value| && file.profiles.value[i].0 == name ==>
                Prepare(m, name, file, initOk).profile == file.profiles.value[i].1
    ensures Prepare(m, name, file, initOk).mgr.failed == m.failed && Prepare(m, name, file, initOk).mgr.calls == m.calls
  {
    if file.Present? && file.profiles.Some? {
      var entries := file.profiles.value;
      Duplicates.RepeatedExact(Duplicates.Names(entries));
      Duplicates.LastWinsKeys(entries, name);
      if Duplicates.Repeated(Duplicates.Names(entries)) == [] {
        forall i: nat | i < |entries| && entries[i].0 == name
          ensures name in Duplicates.LastWins(entries) && Duplicates.LastWins(entries)[name] == entries[i].1
        {
          Duplicates.LastWinsUnique(entries, i);
        }
      }
    }
  }

  // ----- the error return -----

  /** The call reaches the helper but is turned away before the flag is reset. */
  predicate RejectedEarly(m: Manager, name: string, file: ConfigFile, initOk: bool, s: Session) {
    var prep := Prepare(m, name, file, initOk);
    prep.Opened? && (s.sockets == 0 || Validate(prep.profile, s.sockets) != Accepted)
  }

  /** The call runs the GPU loop. */
  predicate RunsLoop(m: Manager, name: string, file: ConfigFile, initOk: bool, s: Session) {
    var prep := Prepare(m, name, file, initOk);
    prep.Opened? && s.sockets != 0 && Validate(prep.profile, s.sockets) == Accepted
  }

  /**
   When a call is retried: never if it stops before the helper; if it is turned
   away before line 528, exactly when the flag was left true by an earlier call;
   otherwise exactly when a step failed since the last recovery.
   */
  lemma RetryExactly(node: NodeConfig, m: Manager, name: string, file: ConfigFile, initOk: bool, s: Session)
    requires Runnable(m, name, file, initOk, s)
    ensures var out := PartitionGpu(node, m, name, file, initOk, s);
            var prep := Prepare(m, name, file, initOk);
            if RejectedEarly(m, name, file, initOk, s) then out.err == m.failed && out.mgr.failed == m.failed
            else if RunsLoop(m, name, file, initOk, s) then
              var plan := PlanOf(node, prep.profile, s.sockets);
              && plan.Fits()
              && (out.err <==> AnyOpenFailure(prep.mgr, plan, s.answers, |plan.reqs|))
            else !out.err && out.mgr.failed == m.failed
  {
    var prep := Prepare(m, name, file, initOk);
    if RunsLoop(m, name, file, initOk, s) {
      AllocationFits(prep.profile, s.sockets);
      var plan := PlanOf(node, prep.profile, s.sockets);
      FlagExact(prep.mgr, plan, s.answers, |plan.reqs|);
    }
  }

  /** No memory or compute step fails in an iteration that the call reaches. */
  ghost predicate NoStepFails(node: NodeConfig, m: Manager, p: Profile, s: Session)
    requires Validate(p, s.sockets) == Accepted
  {
    AllocationFits(p, s.sockets);
    var plan := PlanOf(node, p, s.sockets);
    forall q: nat :: Reached(m, plan, s.answers, q) ==> !StepFails(node, plan.reqs[q], s.answers(q))
  }

  /**
   From a cleared flag, a rejection with no failed step before it is final: it is
   not retried.
   */
  lemma PermanentRejection(node: NodeConfig, m: Manager, name: string, file: ConfigFile, initOk: bool, s: Session)
    requires Runnable(m, name, file, initOk, s) && !m.failed
    requires RunsLoop(m, name, file, initOk, s) ==>
               var prep := Prepare(m, name, file, initOk);
               NoStepFails(node, prep.mgr, prep.profile, s)
    ensures !PartitionGpu(node, m, name, file, initOk, s).err
    ensures !PartitionGpu(node, m, name, file, initOk, s).mgr.failed
  {
    hide Prepare, Helper, Validate, After, StepFails;
    RetryExactly(node, m, name, file, initOk, s);
  }

  /** Without recovery and from a cleared flag, a call is retried exactly when a step it reached failed. */
  lemma RetriedExactlyOnFailure(node: NodeConfig, m: Manager, name: string, file: ConfigFile, initOk: bool, s: Session)
    requires Runnable(m, name, file, initOk, s) && !m.failed && !TriesRecovery(node)
    ensures PartitionGpu(node, m, name, file, initOk, s).err <==>
              && RunsLoop(m, name, file, initOk, s)
              && var prep := Prepare(m, name, file, initOk);
                 !NoStepFails(node, prep.mgr, prep.profile, s)
  {
    hide Prepare, Helper, Validate, After, StepFails;
    RetryExactly(node, m, name, file, initOk, s);
    if RunsLoop(m, name, file, initOk, s) {
      var prep := Prepare(m, name, file, initOk);
      var plan := PlanOf(node, prep.profile, s.sockets);
      AllocationFits(prep.profile, s.sockets);
      if !NoStepFails(node, prep.mgr, prep.profile, s) {
        var q: nat :| Reached(prep.mgr, plan, s.answers, q) && StepFails(node, plan.reqs[q], s.answers(q));
        assert OpenFailure(prep.mgr, plan, s.answers, |plan.reqs|, q);
      }
    }
  }

  // ----- the index and the status array -----

  /** The index counts the iterations exactly when every processor met so far is a GPU. */
  lemma {:induction false} IndexCounts(m: Manager, plan: Plan, answers: nat -> Answer, t: nat)
    requires plan.Fits() && t <= |plan.reqs|
    requires !After(m, plan, answers, t).returned
    ensures After(m, plan, answers, t).idx == t <==> forall q: nat :: q < t ==> answers(q).isGpu
  {
    hide Visit;
    if t > 0 {
      var st := After(m, plan, answers, t - 1);
      IndexCounts(m, plan, answers, t - 1);
      VisitFacts(plan.node, plan.usable[st.idx], plan.reqs[t - 1], st, answers(t - 1));
    }
  }

  /** Position `p` or an earlier one has a failing step. */
  ghost predicate FailedBy(plan: Plan, answers: nat -> Answer, p: nat) {
    exists q: nat :: q <= p && q < |plan.reqs| && StepFails(plan.node, plan.reqs[q], answers(q))
  }

  lemma {:induction false} OpenFailuresOffRecovery(m: Manager, plan: Plan, answers: nat -> Answer, t: nat)
    requires plan.Fits() && 0 < t <= |plan.reqs| && !TriesRecovery(plan.node)
    requires !After(m, plan, answers, t).returned
    ensures After(m, plan, answers, t).mgr.failed <==> FailedBy(plan, answers, t - 1)
  {
    FlagExact(m, plan, answers, t);
    if FailedBy(plan, answers, t - 1) {
      var q: nat :| q <= t - 1 && StepFails(plan.node, plan.reqs[q], answers(q));
      if After(m, plan, answers, q).returned {
        ReturnedSticks(m, plan, answers, q, t);
      }
      assert OpenFailure(m, plan, answers, t, q);
    }
  }

  /**
   The status array in closed form, without KMM recovery and with the loop not left early: a
   position is "Success" exactly when its GPU already matched when it was reached
   or no step failed up to and including it; the flag tells whether any failed.
   */
  lemma {:induction false} StatusExact(m: Manager, plan: Plan, answers: nat -> Answer, t: nat, p: nat)
    requires plan.Fits() && p < t <= |plan.reqs| && !TriesRecovery(plan.node)
    requires !After(m, plan, answers, t).returned
    requires forall q: nat :: q < t ==> answers(q).isGpu
    ensures var g := After(m, plan, answers, t).mgr.gpus[p];
            && g.gpu == plan.usable[p]
            && g.partitionType == plan.reqs[p].compute + "-" + plan.reqs[p].memory
            && (g.status ==
                if Holds(plan.reqs[p], answers(p)) || !FailedBy(plan, answers, p) then Success else Failure)
            && (g.message == NotRequired <==> Holds(plan.reqs[p], answers(p)))
    ensures After(m, plan, answers, t).mgr.failed <==> FailedBy(plan, answers, t - 1)
  {
    hide Visit, StepFails, Rejects;
    var st := After(m, plan, answers, t - 1);
    IndexCounts(m, plan, answers, t - 1);
    OpenFailuresOffRecovery(m, plan, answers, t);
    VisitFacts(plan.node, plan.usable[st.idx], plan.reqs[t - 1], st, answers(t - 1));
    if p < t - 1 {
      StatusExact(m, plan, answers, t - 1, p);
    }
  }

  /** The shape around the first failing position `f`. */
  lemma StatusShape(m: Manager, plan: Plan, answers: nat -> Answer, f: nat, p: nat)
    requires plan.Fits() && p < |plan.reqs| && f < |plan.reqs| && !TriesRecovery(plan.node)
    requires !After(m, plan, answers, |plan.reqs|).returned
    requires forall q: nat :: q < |plan.reqs| ==> answers(q).isGpu
    requires StepFails(plan.node, plan.reqs[f], answers(f))
    requires forall q: nat :: q < f ==> !StepFails(plan.node, plan.reqs[q], answers(q))
    ensures var st := After(m, plan, answers, |plan.reqs|);
            && st.mgr.failed
            && (p < f ==> st.mgr.gpus[p].status == Success)
            && (p == f ==> st.mgr.gpus[p].status == Failure)
            && (p > f ==> st.mgr.gpus[p].status == if Holds(plan.reqs[p], answers(p)) then Success else Failure)
  {
    StatusExact(m, plan, answers, |plan.reqs|, p);
    assert FailedBy(plan, answers, |plan.reqs| - 1);
    if p >= f {
      assert FailedBy(plan, answers, p);
    }
  }

  /** Unless the loop was left early, the written entries are exactly those below the index. */
  lemma {:induction false} WrittenBelowIndex(m: Manager, plan: Plan, answers: nat -> Answer, t: nat, p: nat)
    requires plan.Fits() && t <= |plan.reqs| && p < |plan.usable|
    requires !After(m, plan, answers, t).returned
    ensures p < After(m, plan, answers, t).idx ==>
              || After(m, plan, answers, t).mgr.gpus[p].status == Success
              || After(m, plan, answers, t).mgr.gpus[p].status == Failure
    ensures p >= After(m, plan, answers, t).idx ==>
              After(m, plan, answers, t).mgr.gpus[p] == GpuStatus(0, "", Unset, NoMessage)
  {
    hide Visit;
    if t > 0 {
      var st := After(m, plan, answers, t - 1);
      WrittenBelowIndex(m, plan, answers, t - 1, p);
      VisitFacts(plan.node, plan.usable[st.idx], plan.reqs[t - 1], st, answers(t - 1));
    }
  }

  // ----- the stuck index -----

  datatype Kind = Unreadable | Gpu | OtherProcessor

  function KindOf(a: Answer): Kind {
    if !a.typeKnown then Unreadable else if a.isGpu then Gpu else OtherProcessor
  }

  /** Each socket reports the same processor type whenever it is asked. */
  ghost predicate StableKinds(m: Manager, plan: Plan, answers: nat -> Answer, kind: nat -> Kind)
    requires plan.Fits()
  {
    forall q: nat {:trigger kind(plan.usable[After(m, plan, answers, q).idx])} :: Reached(m, plan, answers, q) ==>
      KindOf(answers(q)) == kind(plan.usable[After(m, plan, answers, q).idx])
  }

  /**
   Once the loop meets a first processor that is not a GPU, the rest of the loop
   changes nothing: no index, no status entry, no device.
   */
  lemma {:induction false} IndexStuck(m: Manager, plan: Plan, answers: nat -> Answer, kind: nat -> Kind, e: nat, t: nat)
    requires plan.Fits() && e < t <= |plan.reqs|
    requires StableKinds(m, plan, answers, kind)
    requires Reached(m, plan, answers, e) && KindOf(answers(e)) == OtherProcessor
    ensures After(m, plan, answers, t) == After(m, plan, answers, e)
  {
    hide Visit, After;
    if t > e + 1 {
      IndexStuck(m, plan, answers, kind, e, t - 1);
    }
    var st, a := After(m, plan, answers, t - 1), answers(t - 1);
    assert Reached(m, plan, answers, t - 1);
    AfterStep(m, plan, answers, t);
    VisitFacts(plan.node, plan.usable[st.idx], plan.reqs[t - 1], st, a);
    assert KindOf(a) == kind(plan.usable[st.idx]) == OtherProcessor;
  }

  /**
   So a node whose first usable socket starts with a processor that is not a GPU
   is labelled "success" with no GPU touched and no status entry written.
   */
  lemma NonGpuReportsSuccess(node: NodeConfig, m: Manager, p: Profile, s: Session, kind: nat -> Kind)
    requires s.sockets != 0 && Validate(p, s.sockets) == Accepted && Flatten(p.groups) != []
    requires (AllocationFits(p, s.sockets); StableKinds(m, PlanOf(node, p, s.sockets), s.answers, kind))
    requires KindOf(s.answers(0)) == OtherProcessor
    ensures var out := Helper(node, m, p, s);
            && out.stateLabel == LabelSuccess && out.final == FinalSuccess && out.reason == AlreadyConfigured
            && out.calls == m.calls
            && forall g <- out.gpus :: g == BLANK
  {
    AllocationFits(p, s.sockets);
    var plan := PlanOf(node, p, s.sockets);
    assert !After(m, plan, s.answers, 0).returned;
    IndexStuck(m, plan, s.answers, kind, 0, |plan.reqs|);
  }

  // ----- the calls -----

  /** A call on behalf of iteration `q`: on its usable GPU, to a mode that is valid and, for memory, supported. */
  ghost predicate Sanctioned(m: Manager, plan: Plan, answers: nat -> Answer, q: nat, c: Call)
    requires plan.Fits() && q < |plan.reqs|
  {
    var gpu := plan.usable[After(m, plan, answers, q).idx];
    match c
    case ReloadDriver => !plan.node.kmm
    case SetMemory(g, mode) =>
      && g == gpu
      && Capability.MemoryName(mode) == plan.reqs[q].memory
      && plan.reqs[q].memory in Capability.Supported(answers(q).caps)
    case SetCompute(g, mode) =>
      && g == gpu
      && Capability.ComputeName(mode) == plan.reqs[q].compute
  }

  /** `c` was made in one of the first `t` iterations. */
  ghost predicate SanctionedBefore(m: Manager, plan: Plan, answers: nat -> Answer, t: nat, c: Call)
    requires plan.Fits() && t <= |plan.reqs|
  {
    exists q: nat :: q < t && Sanctioned(m, plan, answers, q, c)
  }

  lemma {:induction false} CallsSanctioned(m: Manager, plan: Plan, answers: nat -> Answer, t: nat)
    requires plan.Fits() && t <= |plan.reqs|
    requires forall g <- plan.reqs :: ValidTypes(g)
    ensures m.calls <= After(m, plan, answers, t).mgr.calls
    ensures forall k :: |m.calls| <= k < |After(m, plan, answers, t).mgr.calls| ==>
              SanctionedBefore(m, plan, answers, t, After(m, plan, answers, t).mgr.calls[k])
  {
    hide Visit, CallsOf;
    if t > 0 {
      CallsSanctioned(m, plan, answers, t - 1);
      var st, st' := After(m, plan, answers, t - 1), After(m, plan, answers, t);
      if !st.returned {
        VisitFacts(plan.node, plan.usable[st.idx], plan.reqs[t - 1], st, answers(t - 1));
        CallsOfSanctioned(m, plan, answers, t - 1);
      }
      var made := st'.mgr.calls;
      forall k | |m.calls| <= k < |made| ensures SanctionedBefore(m, plan, answers, t, made[k]) {
        if k < |st.mgr.calls| {
          assert made[k] == st.mgr.calls[k];
          assert SanctionedBefore(m, plan, answers, t - 1, made[k]);
        } else {
          assert made[k] in CallsOf(plan.node, plan.usable[st.idx], plan.reqs[t - 1], answers(t - 1));
          assert Sanctioned(m, plan, answers, t - 1, made[k]);
        }
      }
    }
  }

  lemma CallsOfSanctioned(m: Manager, plan: Plan, answers: nat -> Answer, q: nat)
    requires plan.Fits() && q < |plan.reqs| && ValidTypes(plan.reqs[q])
    ensures forall c <- CallsOf(plan.node, plan.usable[After(m, plan, answers, q).idx], plan.reqs[q], answers(q)) ::
              Sanctioned(m, plan, answers, q, c)
  {
    hide After, ValidTypes, Capability.Supported, Capability.ConvertMemory, Capability.ConvertCompute,
         Capability.MemoryName, Capability.ComputeName;
    ConvertersValid(plan.reqs[q]);
  }

  lemma ConvertersValid(req: Group)
    requires ValidTypes(req)
    ensures Capability.MemoryName(Capability.ConvertMemory(req.memory)) == req.memory
    ensures Capability.ComputeName(Capability.ConvertCompute(req.compute)) == req.compute
  {
    Capability.ConvertersExact(req);
  }

  /** A reload only off KMM; a set only on a GPU of the node that is not skipped, to a documented mode. */
  predicate SafeCall(node: NodeConfig, p: Profile, sockets: nat, c: Call) {
    match c
    case ReloadDriver => !node.kmm
    case SetMemory(gpu, mode) => gpu < sockets && gpu !in Skips(p) && Capability.MemoryName(mode) in VALID_MEMORY
    case SetCompute(gpu, mode) => gpu < sockets && gpu !in Skips(p) && Capability.ComputeName(mode) in VALID_COMPUTE
  }

  /**
   No set call ever targets a skipped socket, and every mode that is set is one
   of the documented modes: the default branches of the converters are not used.
   */
  lemma SkippedGpusUntouched(node: NodeConfig, m: Manager, p: Profile, s: Session, k: nat)
    requires NoPanic(p, s)
    requires |m.calls| <= k < |Helper(node, m, p, s).calls|
    ensures SafeCall(node, p, s.sockets, Helper(node, m, p, s).calls[k])
  {
    hide Visit, After, Sanctioned, UsableGpus, Flatten, Validate;
    var plan := PlanOf(node, p, s.sockets);
    AllocationFits(p, s.sockets);
    CallsSanctionedByPlan(node, m, p, s, k);
    var c := Helper(node, m, p, s).calls[k];
    var q: nat :| q < |plan.reqs| && Sanctioned(m, plan, s.answers, q, c);
    SanctionedIsSafe(m, plan, s.answers, p, s.sockets, q, c);
  }

  lemma CallsSanctionedByPlan(node: NodeConfig, m: Manager, p: Profile, s: Session, k: nat)
    requires NoPanic(p, s)
    requires |m.calls| <= k < |Helper(node, m, p, s).calls|
    ensures s.sockets != 0 && Validate(p, s.sockets) == Accepted
    ensures (AllocationFits(p, s.sockets);
             var plan := PlanOf(node, p, s.sockets);
             SanctionedBefore(m, plan, s.answers, |plan.reqs|, Helper(node, m, p, s).calls[k]))
  {
    hide Visit, Sanctioned, UsableGpus, Flatten;
    var plan := PlanOf(node, p, s.sockets);
    AllocationFits(p, s.sockets);
    ValidRequests(p, s.sockets);
    CallsSanctioned(m, plan, s.answers, |plan.reqs|);
  }

  lemma ValidRequests(p: Profile, total: nat)
    requires Validate(p, total) == Accepted
    ensures forall g <- Flatten(p.groups) :: ValidTypes(g)
  {
    ValidateExact(p, total);
    forall g | g in Flatten(p.groups) ensures ValidTypes(g) {
      var j :| 0 <= j < |Flatten(p.groups)| && Flatten(p.groups)[j] == g;
      var i := FlattenMember(p.groups, j);
    }
  }

  lemma SanctionedIsSafe(m: Manager, plan: Plan, answers: nat -> Answer, p: Profile, sockets: nat, q: nat, c: Call)
    requires Validate(p, sockets) == Accepted && plan == PlanOf(plan.node, p, sockets) && plan.Fits()
    requires q < |plan.reqs| && Sanctioned(m, plan, answers, q, c)
    ensures SafeCall(plan.node, p, sockets, c)
  {
    hide After, Capability.MemoryName, Capability.ComputeName, Capability.Supported, UsableGpus, Flatten, Validate;
    ValidRequests(p, sockets);
    UsableIsComplement(Skips(p), sockets);
    var gpu, req := plan.usable[After(m, plan, answers, q).idx], plan.reqs[q];
    assert gpu in plan.usable && req in plan.reqs;
  }

  // ----- where the flag misleads -----

  ghost predicate NoFailureEntry(m: Manager) {
    forall g <- m.gpus :: g.status != Failure
  }

  lemma {:induction false} NoFailureSoFar(m: Manager, plan: Plan, answers: nat -> Answer, t: nat, p: nat)
    requires plan.Fits() && t <= |plan.reqs| && p < |plan.usable| && !TriesRecovery(plan.node)
    requires !After(m, plan, answers, t).returned && !After(m, plan, answers, t).mgr.failed
    ensures After(m, plan, answers, t).mgr.gpus[p].status != Failure
  {
    hide Visit;
    if t > 0 {
      var st := After(m, plan, answers, t - 1);
      VisitFacts(plan.node, plan.usable[st.idx], plan.reqs[t - 1], st, answers(t - 1));
      NoFailureSoFar(m, plan, answers, t - 1, p);
    }
  }

  /** Without KMM recovery the label "success" means that no status entry says "Failure". */
  lemma SuccessIsHonest(node: NodeConfig, m: Manager, p: Profile, s: Session)
    requires NoPanic(p, s) && !TriesRecovery(node) && m.final == FinalFailure
    requires Helper(node, m, p, s).stateLabel == LabelSuccess && s.sockets != 0
    ensures NoFailureEntry(Helper(node, m, p, s))
  {
    HelperLabel(node, m, p, s);
    AllocationFits(p, s.sockets);
    var plan := PlanOf(node, p, s.sockets);
    var st := After(m, plan, s.answers, |plan.reqs|);
    LoopLabel(m, plan, s.answers, |plan.reqs|);
    forall g | g in st.mgr.gpus ensures g.status != Failure {
      var k :| 0 <= k < |st.mgr.gpus| && st.mgr.gpus[k] == g;
      NoFailureSoFar(m, plan, s.answers, |plan.reqs|, k);
    }
  }

  /** Every session on this node that ends with the label "success" has no entry "Failure". */
  ghost predicate HonestNode(node: NodeConfig) {
    forall m: Manager, p: Profile, s: Session ::
      NoPanic(p, s) && m.final == FinalFailure && s.sockets != 0 && Helper(node, m, p, s).stateLabel == LabelSuccess ==>
        NoFailureEntry(Helper(node, m, p, s))
  }

  /** The nodes on which a recovery can hide another GPU's failure are exactly those that try recovery. */
  lemma RecoveryMasksFailureExactly(node: NodeConfig)
    ensures HonestNode(node) <==> !(node.named && node.kmm)
  {
    if TriesRecovery(node) {
      var m, p, s := RecoveryMasksFailure(node);
      assert !HonestNode(node);
    } else {
      forall m: Manager, p: Profile, s: Session |
        NoPanic(p, s) && m.final == FinalFailure && s.sockets != 0 && Helper(node, m, p, s).stateLabel == LabelSuccess
        ensures NoFailureEntry(Helper(node, m, p, s))
      {
        SuccessIsHonest(node, m, p, s);
      }
    }
  }

  /**
   GPU 0 refuses its compute mode; GPU 1 refuses its memory mode and is recovered.
   The recovery overwrites the flag, and the call ends with the label "success".
   */
  lemma RecoveryMasksFailure(node: NodeConfig) returns (m: Manager, p: Profile, s: Session)
    requires TriesRecovery(node)
    ensures NoPanic(p, s) && m.final == FinalFailure && s.sockets != 0
    ensures Helper(node, m, p, s).stateLabel == LabelSuccess && !NoFailureEntry(Helper(node, m, p, s))
  {
    hide Visit, Capability.Supported, Recovery.Recovers, StepFails, Clears, Rejects, CallsOf;
    var g := Group("CPX", "NPS4", 2);
    var caps := Capability.Config(0xF, 1);
    var world := Recovery.World(true, _ => "NPS4", _ => 0, 0);
    var a0 := Answer(true, true, "SPX", "NPS4", caps, 0, "NPS4", world, "SPX", 30);
    var a1 := Answer(true, true, "CPX", "NPS1", caps, 30, "NPS1", world, "CPX", 0);
    m := Manager("", FinalFailure, NoReason, [], false, InProgress, []);
    p := Profile(None, [g]);
    s := Session(2, i => if i == 0 then a0 else a1);
    TwoGpuProfile(g);
    var plan := PlanOf(node, p, 2);
    var s0 := After(m, plan, s.answers, 0);
    var s1 := After(m, plan, s.answers, 1);
    MaskingAnswers(node, g, caps, world, a0, a1);
    AfterStep(m, plan, s.answers, 1);
    VisitFacts(node, 0, g, s0, a0);
    AfterStep(m, plan, s.answers, 2);
    VisitFacts(node, 1, g, s1, a1);
    var out := Helper(node, m, p, s);
    assert out == Conclude(After(m, plan, s.answers, 2));
    assert out.gpus[0] in out.gpus;
  }

  lemma MaskingAnswers(node: NodeConfig, g: Group, caps: Capability.Config, world: Recovery.World,
                       a0: Answer, a1: Answer)
    requires TriesRecovery(node) && g == Group("CPX", "NPS4", 2)
    requires caps == Capability.Config(0xF, 1) && world.handled && world.polled(0) == "NPS4"
    requires a0 == Answer(true, true, "SPX", "NPS4", caps, 0, "NPS4", world, "SPX", 30)
    requires a1 == Answer(true, true, "CPX", "NPS1", caps, 30, "NPS1", world, "CPX", 0)
    ensures !Holds(g, a0) && !Rejects(g, a0) && StepFails(node, g, a0)
    ensures !Rejects(g, a1) && !StepFails(node, g, a1) && Clears(node, g, a1)
  {
    hide Capability.Supported, Recovery.Polls;
    Capability.SupportedExact(0xF, 1);
    Recovery.FirstPoll(world);
    assert Recovery.Recovers(world, "NPS4");
  }

  lemma TwoGpuProfile(g: Group)
    requires g.count == 2 && ValidTypes(g)
    ensures Validate(Profile(None, [g]), 2) == Accepted
    ensures Flatten([g]) == [g, g] && UsableGpus([], 2) == [0, 1]
  {
    assert [g][..0] == [];
    assert Prefix([g], 1) == Prefix([g], 0) + 2;
    GroupVerdictExact([g], 0);
    assert UsableGpus([], 1) == [0];
  }
}
