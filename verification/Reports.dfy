/**
 What a call reports in the end, told from the raw answers: the status entries,
 the reason, the final status, the label and the error return.
 */
module Reports {
  import opened Wrappers
  import opened Profiles
  import opened Engine
  import opened EngineFacts
  import Capability
  import Duplicates

  // ----- calls that do not get to the loop -----

  /** A call that stops before the helper: everything it reports, and which reason comes first. */
  lemma StoppedReport(node: NodeConfig, m: Manager, name: string, file: ConfigFile, initOk: bool, s: Session)
    requires Prepare(m, name, file, initOk).Stopped?
    ensures var out := PartitionGpu(node, m, name, file, initOk, s);
            !out.err && out.mgr == Manager(name, FinalFailure, out.mgr.reason, [], m.failed, LabelFailure, m.calls)
    ensures var reason := PartitionGpu(node, m, name, file, initOk, s).mgr.reason;
            if file.Missing? then reason == ConfigMissing
            else if file.profiles == None then reason == InvalidJson
            else if !Distinct(Duplicates.Names(file.profiles.value)) then reason == DuplicateNames
            else if name !in Duplicates.Names(file.profiles.value) then reason == ProfileMissing
            else reason == InitFailed && !initOk
  {
    if file.Present? && file.profiles.Some? {
      Duplicates.RepeatedExact(Duplicates.Names(file.profiles.value));
      Duplicates.LastWinsKeys(file.profiles.value, name);
    }
  }

  /** A call turned away by the helper before line 528 keeps the flag and reports no GPU. */
  lemma EarlyReport(node: NodeConfig, m: Manager, name: string, file: ConfigFile, initOk: bool, s: Session)
    requires Runnable(m, name, file, initOk, s) && RejectedEarly(m, name, file, initOk, s)
    ensures var p := Prepare(m, name, file, initOk).profile;
            var reason := if s.sockets == 0 then NoSockets else InvalidProfile(Validate(p, s.sockets));
            PartitionGpu(node, m, name, file, initOk, s) ==
            Outcome(Manager(name, FinalFailure, reason, [], m.failed, LabelFailure, m.calls), m.failed)
  {
    hide Validate, Duplicates.Repeated, Duplicates.LastWins;
  }

  // ----- entries stay -----

  lemma {:induction false} IndexGrows(m: Manager, plan: Plan, answers: nat -> Answer, t: nat, u: nat)
    requires plan.Fits() && t <= u <= |plan.reqs|
    ensures After(m, plan, answers, t).idx <= After(m, plan, answers, u).idx
  {
    hide Visit, After;
    if t < u {
      IndexGrows(m, plan, answers, t, u - 1);
      AfterStep(m, plan, answers, u);
      var st := After(m, plan, answers, u - 1);
      if !st.returned {
        VisitFacts(plan.node, plan.usable[st.idx], plan.reqs[u - 1], st, answers(u - 1));
      }
    }
  }

  /** The entry of an iteration on a GPU, once written, is what the call reports in the end. */
  lemma {:induction false} EntryStays(m: Manager, plan: Plan, answers: nat -> Answer, q: nat, t: nat)
    requires plan.Fits() && q < t <= |plan.reqs| && Reached(m, plan, answers, q) && answers(q).isGpu
    ensures var p := After(m, plan, answers, q).idx;
            After(m, plan, answers, t).mgr.gpus[p] == After(m, plan, answers, q + 1).mgr.gpus[p]
  {
    hide Visit, After, Rejects, EntryFor;
    if t > q + 1 {
      EntryStays(m, plan, answers, q, t - 1);
      AfterStep(m, plan, answers, t);
      var st0, st := After(m, plan, answers, q), After(m, plan, answers, t - 1);
      if !st.returned {
        VisitFacts(plan.node, plan.usable[st.idx], plan.reqs[t - 1], st, answers(t - 1));
        AfterStep(m, plan, answers, q + 1);
        VisitFacts(plan.node, plan.usable[st0.idx], plan.reqs[q], st0, answers(q));
        if Rejects(plan.reqs[q], answers(q)) {
          ReturnedSticks(m, plan, answers, q + 1, t - 1);
        }
        IndexGrows(m, plan, answers, q + 1, t - 1);
      }
    }
  }

  // ----- a loop that is left early -----

  /** The iteration at which a loop was left: the first reached one that ends the call. */
  lemma {:induction false} LeftAt(m: Manager, plan: Plan, answers: nat -> Answer, t: nat) returns (q: nat)
    requires plan.Fits() && t <= |plan.reqs| && After(m, plan, answers, t).returned
    ensures q < t && Reached(m, plan, answers, q) && Rejects(plan.reqs[q], answers(q))
    ensures After(m, plan, answers, t) == After(m, plan, answers, q + 1)
  {
    hide Visit, After, Rejects;
    AfterStart(m, plan, answers);
    q := t - 1;
    AfterStep(m, plan, answers, t);
    var st := After(m, plan, answers, q);
    if st.returned {
      q := LeftAt(m, plan, answers, q);
    } else {
      VisitFacts(plan.node, plan.usable[st.idx], plan.reqs[q], st, answers(q));
    }
  }

  /** A loop is left early exactly when an iteration it reaches ends the call. */
  lemma LeftExactly(m: Manager, plan: Plan, answers: nat -> Answer, t: nat)
    requires plan.Fits() && t <= |plan.reqs|
    ensures After(m, plan, answers, t).returned <==>
            exists q: nat :: q < t && Reached(m, plan, answers, q) && Rejects(plan.reqs[q], answers(q))
  {
    hide Visit, After, Rejects;
    if After(m, plan, answers, t).returned {
      var q := LeftAt(m, plan, answers, t);
    }
    forall q: nat | q < t && Reached(m, plan, answers, q) && Rejects(plan.reqs[q], answers(q))
      ensures After(m, plan, answers, t).returned
    {
      var st := After(m, plan, answers, q);
      AfterStep(m, plan, answers, q + 1);
      VisitFacts(plan.node, plan.usable[st.idx], plan.reqs[q], st, answers(q));
      ReturnedSticks(m, plan, answers, q + 1, t);
    }
  }

  /** Why an iteration ends the call, and with which message. */
  ghost predicate RefusedWith(req: Group, a: Answer, message: Message) {
    if !a.typeKnown then message == ApiError
    else
      && a.isGpu && (a.compute0 != req.compute || a.memory0 != req.memory)
      && if a.memory0 != req.memory && Capability.Supported(a.caps) == [] then message == CapsUnavailable
         else if a.memory0 != req.memory && req.memory !in Capability.Supported(a.caps) then
           message == MemoryUnsupported
         else message == ComputeUnsupported && a.compute1 != req.compute && a.setCompute == 55
  }

  /**
   A loop that was left early: the GPU at the index is reported with its requested
   pair, "Failure" and the message of what stopped the call; the entries below are
   those of the iterations before, and the entries above are blank.
   */
  lemma LeftEarlyReport(m: Manager, plan: Plan, answers: nat -> Answer, t: nat) returns (q: nat, message: Message)
    requires plan.Fits() && t <= |plan.reqs| && After(m, plan, answers, t).returned
    ensures q < t && Reached(m, plan, answers, q)
    ensures Rejects(plan.reqs[q], answers(q)) && RefusedWith(plan.reqs[q], answers(q), message)
    ensures var before, st := After(m, plan, answers, q), After(m, plan, answers, t);
            var g, req := plan.usable[st.idx], plan.reqs[q];
            && st.idx == before.idx
            && st.mgr.gpus[st.idx] == GpuStatus(g, req.compute + "-" + req.memory, Failure, message)
            && (forall p :: 0 <= p < st.idx ==> st.mgr.gpus[p] == before.mgr.gpus[p])
            && (forall p :: st.idx < p < |plan.usable| ==> st.mgr.gpus[p] == GpuStatus(0, "", Unset, NoMessage))
            && st.mgr.reason == Engine.Rejected(message) && st.mgr.stateLabel == LabelFailure
  {
    hide Visit, After;
    q := LeftAt(m, plan, answers, t);
    var before := After(m, plan, answers, q);
    AfterStep(m, plan, answers, q + 1);
    VisitFacts(plan.node, plan.usable[before.idx], plan.reqs[q], before, answers(q));
    message := Refusal(plan.reqs[q], answers(q));
    forall p: nat | before.idx < p < |plan.usable| ensures before.mgr.gpus[p] == GpuStatus(0, "", Unset, NoMessage) {
      WrittenBelowIndex(m, plan, answers, q, p);
    }
  }

  /**
   The whole status array of a call that was left early, without recovery and with
   a GPU on every socket looked at: closed form up to the iteration that ended it.
   */
  lemma LeftEarlyShape(m: Manager, plan: Plan, answers: nat -> Answer, p: nat) returns (q: nat)
    requires plan.Fits() && p < |plan.usable| && !(plan.node.named && plan.node.kmm)
    requires After(m, plan, answers, |plan.reqs|).returned
    requires forall k: nat :: Reached(m, plan, answers, k) && answers(k).typeKnown ==> answers(k).isGpu
    ensures Reached(m, plan, answers, q) && Rejects(plan.reqs[q], answers(q))
    ensures var g := After(m, plan, answers, |plan.reqs|).mgr.gpus[p];
            if p < q then
              g.gpu == plan.usable[p] &&
              g.status == if Holds(plan.reqs[p], answers(p)) || !FailedBy(plan, answers, p) then Success else Failure
            else if p == q then g.gpu == plan.usable[p] && g.status == Failure
            else g == GpuStatus(0, "", Unset, NoMessage)
  {
    hide Visit, After, Rejects, StepFails;
    var message;
    q, message := LeftEarlyReport(m, plan, answers, |plan.reqs|);
    forall k: nat | k < q ensures Reached(m, plan, answers, k) && answers(k).isGpu {
      ReachedBefore(m, plan, answers, k, q);
    }
    IndexCounts(m, plan, answers, q);
    if p < q {
      StatusExact(m, plan, answers, q, p);
    }
  }

  /** Iterations before a reached one are reached and know their processor. */
  lemma ReachedBefore(m: Manager, plan: Plan, answers: nat -> Answer, k: nat, q: nat)
    requires plan.Fits() && k < q && Reached(m, plan, answers, q)
    ensures Reached(m, plan, answers, k) && !Rejects(plan.reqs[k], answers(k)) && answers(k).typeKnown
  {
    hide Visit, After;
    if After(m, plan, answers, k).returned {
      ReturnedSticks(m, plan, answers, k, q);
    }
    if Rejects(plan.reqs[k], answers(k)) {
      LeftExactly(m, plan, answers, q);
    }
  }

  // ----- failing steps -----

  /** The memory mode is set in this iteration. */
  ghost predicate SetsMemory(req: Group, a: Answer) {
    a.typeKnown && a.isGpu && req.memory != a.memory0 && req.memory in Capability.Supported(a.caps)
  }

  /** The compute mode is set in this iteration. */
  ghost predicate SetsCompute(req: Group, a: Answer) {
    && a.typeKnown && a.isGpu && (req.compute != a.compute0 || req.memory != a.memory0)
    && (req.memory == a.memory0 || req.memory in Capability.Supported(a.caps))
    && req.compute != a.compute1
  }

  /**
   The memory step, on a node without recovery and with no trouble in the compute
   step: a status other than 0 or an unchanged mode read back raises the flag and
   makes the entry a failure; otherwise the flag stays, and the entry follows it.
   */
  lemma MemoryStepReport(m: Manager, plan: Plan, answers: nat -> Answer, q: nat)
    requires plan.Fits() && Reached(m, plan, answers, q) && !(plan.node.named && plan.node.kmm)
    requires SetsMemory(plan.reqs[q], answers(q))
    requires SetsCompute(plan.reqs[q], answers(q)) ==> answers(q).setCompute == 0
    ensures var st, st', a := After(m, plan, answers, q), After(m, plan, answers, q + 1), answers(q);
            var bad := a.setMemory != 0 || a.memory1 == a.memory0;
            && !st'.returned && st'.idx == st.idx + 1
            && (st'.mgr.failed <==> st.mgr.failed || bad)
            && st'.mgr.gpus[st.idx].status == (if st.mgr.failed || bad then Failure else Success)
            && (bad ==> st'.mgr.gpus[st.idx].message == StepFailed(Some(a.setMemory)))
            && (bad ==> st'.mgr.stateLabel == LabelFailure)
  {
    hide Visit, After, SetsMemory, SetsCompute, Capability.Supported;
    var st := After(m, plan, answers, q);
    AfterStep(m, plan, answers, q + 1);
    VisitFacts(plan.node, plan.usable[st.idx], plan.reqs[q], st, answers(q));
    LoopLabel(m, plan, answers, q + 1);
    SetsAreIssued(plan.reqs[q], answers(q));
    MemoryStepFacts(plan.node, plan.reqs[q], answers(q), st.code);
  }

  lemma SetsAreIssued(req: Group, a: Answer)
    ensures SetsMemory(req, a) <==> MemoryIssued(req, a)
    ensures SetsCompute(req, a) <==> ComputeIssued(req, a)
  {
    hide Capability.Supported;
  }

  lemma MemoryStepFacts(node: NodeConfig, req: Group, a: Answer, code: Option<int>)
    requires MemoryIssued(req, a) && (ComputeIssued(req, a) ==> a.setCompute == 0) && !(node.named && node.kmm)
    ensures !Rejects(req, a) && a.isGpu && !Holds(req, a) && !Clears(node, req, a)
    ensures StepFails(node, req, a) <==> a.setMemory != 0 || a.memory1 == a.memory0
    ensures StepFails(node, req, a) ==> CodeAfter(code, req, a) == Some(a.setMemory)
  {
    hide Capability.Supported;
  }

  /**
   Some reached memory set is refused or moves nothing, or some reached compute set
   fails with a status other than 55.
   */
  ghost predicate SomeSetFails(m: Manager, plan: Plan, answers: nat -> Answer)
    requires plan.Fits()
  {
    exists q: nat :: Reached(m, plan, answers, q) && SetFails(plan.reqs[q], answers(q))
  }

  ghost predicate SetFails(req: Group, a: Answer) {
    || (SetsMemory(req, a) && (a.setMemory != 0 || a.memory1 == a.memory0))
    || (SetsCompute(req, a) && a.setCompute != 0 && a.setCompute != 55)
  }

  /**
   The error return of a call that gets to the loop on a node without recovery, told
   from the answers; with it go the flag, the label "failure" and the final status.
   */
  lemma ErrorExactly(node: NodeConfig, m: Manager, name: string, file: ConfigFile, initOk: bool, s: Session)
    requires Runnable(m, name, file, initOk, s) && RunsLoop(m, name, file, initOk, s) && !(node.named && node.kmm)
    ensures var out, prep := PartitionGpu(node, m, name, file, initOk, s), Prepare(m, name, file, initOk);
            var plan := PlanOf(node, prep.profile, s.sockets);
            && plan.Fits()
            && (out.err <==> SomeSetFails(prep.mgr, plan, s.answers))
            && out.mgr.failed == out.err
            && (out.err ==> out.mgr.stateLabel == LabelFailure && out.mgr.final == FinalFailure)
  {
    hide Prepare, Helper, Validate, After, StepFails, SetFails, Clears;
    RetryExactly(node, m, name, file, initOk, s);
    LabelMatchesFinal(node, m, name, file, initOk, s);
    if PartitionGpu(node, m, name, file, initOk, s).err {
      FailureLabel(node, m, name, file, initOk, s);
    }
    var prep := Prepare(m, name, file, initOk);
    var plan := PlanOf(node, prep.profile, s.sockets);
    AllocationFits(prep.profile, s.sockets);
    forall q: nat | Reached(prep.mgr, plan, s.answers, q)
      ensures StepFails(node, plan.reqs[q], s.answers(q)) <==> SetFails(plan.reqs[q], s.answers(q))
      ensures !Clears(node, plan.reqs[q], s.answers(q))
    {
      SameFailures(node, plan.reqs[q], s.answers(q));
    }
    if SomeSetFails(prep.mgr, plan, s.answers) {
      var q: nat :| Reached(prep.mgr, plan, s.answers, q) && SetFails(plan.reqs[q], s.answers(q));
      assert OpenFailure(prep.mgr, plan, s.answers, |plan.reqs|, q);
    }
  }

  lemma SameFailures(node: NodeConfig, req: Group, a: Answer)
    requires !(node.named && node.kmm)
    ensures StepFails(node, req, a) <==> SetFails(req, a)
    ensures !Clears(node, req, a)
  {
    hide Capability.Supported;
  }

  /** A call that returns an error reports a failure. */
  lemma FailureLabel(node: NodeConfig, m: Manager, name: string, file: ConfigFile, initOk: bool, s: Session)
    requires Runnable(m, name, file, initOk, s) && PartitionGpu(node, m, name, file, initOk, s).err
    ensures var out := PartitionGpu(node, m, name, file, initOk, s).mgr;
            out.failed && out.stateLabel == LabelFailure && out.final == FinalFailure
  {
    hide Helper, Duplicates.Repeated, Duplicates.LastWins;
    var prep := Prepare(m, name, file, initOk);
    HelperLabel(node, prep.mgr, prep.profile, s);
  }

  /** In such a call the entry of a GPU whose memory set fails is a failure in the end. */
  lemma MemoryFailureReported(node: NodeConfig, m: Manager, name: string, file: ConfigFile, initOk: bool, s: Session,
                              plan: Plan, q: nat)
    requires Runnable(m, name, file, initOk, s) && RunsLoop(m, name, file, initOk, s) && !(node.named && node.kmm)
    requires plan == PlanOf(node, Prepare(m, name, file, initOk).profile, s.sockets) && plan.Fits()
    requires Reached(Prepare(m, name, file, initOk).mgr, plan, s.answers, q) && SetsMemory(plan.reqs[q], s.answers(q))
    requires s.answers(q).setMemory != 0 || s.answers(q).memory1 == s.answers(q).memory0
    ensures var out := PartitionGpu(node, m, name, file, initOk, s);
            var p := After(Prepare(m, name, file, initOk).mgr, plan, s.answers, q).idx;
            && out.err && out.mgr.failed && out.mgr.stateLabel == LabelFailure && out.mgr.final == FinalFailure
            && p < |out.mgr.gpus| && out.mgr.gpus[p].gpu == plan.usable[p] && out.mgr.gpus[p].status == Failure
  {
    hide Prepare, Validate, After, Visit, Helper, SetsMemory, SetsCompute, StepFails, Rejects;
    var m0 := Prepare(m, name, file, initOk).mgr;
    ErrorExactly(node, m, name, file, initOk, s);
    assert SetFails(plan.reqs[q], s.answers(q));
    FailureEntry(m0, plan, s.answers, q);
    LoopGpus(node, m, name, file, initOk, s);
  }

  /** The entries reported are those at the end of the loop. */
  lemma LoopGpus(node: NodeConfig, m: Manager, name: string, file: ConfigFile, initOk: bool, s: Session)
    requires Runnable(m, name, file, initOk, s) && RunsLoop(m, name, file, initOk, s)
    ensures var prep := Prepare(m, name, file, initOk);
            var plan := PlanOf(node, prep.profile, s.sockets);
            && plan.Fits()
            && PartitionGpu(node, m, name, file, initOk, s).mgr.gpus ==
               After(prep.mgr, plan, s.answers, |plan.reqs|).mgr.gpus
  {
    hide Prepare, Validate, After;
    AllocationFits(Prepare(m, name, file, initOk).profile, s.sockets);
  }

  lemma FailureEntry(m: Manager, plan: Plan, answers: nat -> Answer, q: nat)
    requires plan.Fits() && Reached(m, plan, answers, q) && !(plan.node.named && plan.node.kmm)
    requires SetsMemory(plan.reqs[q], answers(q))
    requires answers(q).setMemory != 0 || answers(q).memory1 == answers(q).memory0
    ensures var p, st := After(m, plan, answers, q).idx, After(m, plan, answers, |plan.reqs|);
            p < |plan.usable| && st.mgr.gpus[p].gpu == plan.usable[p] && st.mgr.gpus[p].status == Failure
  {
    hide After, Visit, SetsMemory, SetsCompute, StepFails, Rejects, Clears;
    var st, a := After(m, plan, answers, q), answers(q);
    AfterStep(m, plan, answers, q + 1);
    VisitFacts(plan.node, plan.usable[st.idx], plan.reqs[q], st, a);
    SetFailsFacts(plan.node, plan.reqs[q], a);
    EntryStays(m, plan, answers, q, |plan.reqs|);
  }

  lemma SetFailsFacts(node: NodeConfig, req: Group, a: Answer)
    requires SetsMemory(req, a) && (a.setMemory != 0 || a.memory1 == a.memory0) && !(node.named && node.kmm)
    ensures a.isGpu && !Holds(req, a) && StepFails(node, req, a)
  {
    hide Capability.Supported;
  }

  // ----- the reason of a loop run to its end -----

  /** A failure is reported with the status of the last step that failed. */
  lemma {:induction false} FailureReason(m: Manager, plan: Plan, answers: nat -> Answer, t: nat) returns (q: nat)
    requires plan.Fits() && t <= |plan.reqs|
    requires !After(m, plan, answers, t).returned && After(m, plan, answers, t).mgr.failed
    ensures q < t && Reached(m, plan, answers, q) && StepFails(plan.node, plan.reqs[q], answers(q))
    ensures forall r: nat :: q < r < t ==> !StepFails(plan.node, plan.reqs[r], answers(r))
    ensures var st := After(m, plan, answers, t);
            st.code == CodeAfter(None, plan.reqs[q], answers(q)) && st.mgr.reason == PartitionFailed(st.code)
  {
    hide Visit, After, StepFails, Clears, Rejects, CodeAfter, EntryFor;
    AfterStart(m, plan, answers);
    AfterStep(m, plan, answers, t);
    var st := After(m, plan, answers, t - 1);
    VisitFacts(plan.node, plan.usable[st.idx], plan.reqs[t - 1], st, answers(t - 1));
    CodeOfStep(plan.node, plan.reqs[t - 1], answers(t - 1), st.code);
    if StepFails(plan.node, plan.reqs[t - 1], answers(t - 1)) {
      q := t - 1;
    } else {
      q := FailureReason(m, plan, answers, t - 1);
    }
  }

  /** A failing step sets the code; one that neither fails nor is made good keeps it. */
  lemma CodeOfStep(node: NodeConfig, req: Group, a: Answer, code: Option<int>)
    requires !Rejects(req, a)
    ensures StepFails(node, req, a) ==> Changes(req, a) && CodeAfter(code, req, a) == CodeAfter(None, req, a)
    ensures !StepFails(node, req, a) && !Clears(node, req, a) ==> CodeAfter(code, req, a) == code
  {
    hide Capability.Supported;
  }

  /**
   Success: exactly when the loop runs, no reached iteration ends the call, and no
   failure is left open. The reason tells whether any GPU had to be changed.
   */
  lemma SuccessExactly(node: NodeConfig, m: Manager, name: string, file: ConfigFile, initOk: bool, s: Session)
    requires Runnable(m, name, file, initOk, s)
    ensures var out := PartitionGpu(node, m, name, file, initOk, s).mgr;
            out.final == FinalSuccess <==>
              && RunsLoop(m, name, file, initOk, s)
              && var prep := Prepare(m, name, file, initOk);
                 var plan := PlanOf(node, prep.profile, s.sockets);
                 && plan.Fits()
                 && (forall q: nat :: Reached(prep.mgr, plan, s.answers, q) ==> !Rejects(plan.reqs[q], s.answers(q)))
                 && !AnyOpenFailure(prep.mgr, plan, s.answers, |plan.reqs|)
    ensures var out := PartitionGpu(node, m, name, file, initOk, s).mgr;
            out.final == FinalSuccess ==>
              var plan := PlanOf(node, Prepare(m, name, file, initOk).profile, s.sockets);
              out.reason == if SomeChange(plan, s.answers, |plan.reqs|) then AllPartitioned else AlreadyConfigured
  {
    hide Prepare, Validate, After, Rejects, OpenFailure;
    LabelMatchesFinal(node, m, name, file, initOk, s);
    PrepareFinal(m, name, file, initOk);
    if RunsLoop(m, name, file, initOk, s) {
      var prep := Prepare(m, name, file, initOk);
      var plan := PlanOf(node, prep.profile, s.sockets);
      AllocationFits(prep.profile, s.sockets);
      LeftExactly(prep.mgr, plan, s.answers, |plan.reqs|);
      FlagExact(prep.mgr, plan, s.answers, |plan.reqs|);
      LoopLabel(prep.mgr, plan, s.answers, |plan.reqs|);
      if !After(prep.mgr, plan, s.answers, |plan.reqs|).returned {
        NeededExactly(prep.mgr, plan, s.answers, |plan.reqs|);
      }
    }
  }

  lemma PrepareFinal(m: Manager, name: string, file: ConfigFile, initOk: bool)
    ensures Prepare(m, name, file, initOk).mgr.final == FinalFailure
  {
  }

  ghost predicate SomeChange(plan: Plan, answers: nat -> Answer, t: nat) {
    exists q: nat :: q < t && q < |plan.reqs| && Changes(plan.reqs[q], answers(q))
  }

  lemma {:induction false} NeededExactly(m: Manager, plan: Plan, answers: nat -> Answer, t: nat)
    requires plan.Fits() && t <= |plan.reqs| && !After(m, plan, answers, t).returned
    ensures After(m, plan, answers, t).needed <==> SomeChange(plan, answers, t)
  {
    hide Visit, After, Changes;
    AfterStart(m, plan, answers);
    if t > 0 {
      AfterStep(m, plan, answers, t);
      var st := After(m, plan, answers, t - 1);
      NeededExactly(m, plan, answers, t - 1);
      VisitFacts(plan.node, plan.usable[st.idx], plan.reqs[t - 1], st, answers(t - 1));
      assert SomeChange(plan, answers, t) <==>
             SomeChange(plan, answers, t - 1) || Changes(plan.reqs[t - 1], answers(t - 1));
    }
  }
}
