/**
 End-to-end correctness of a partition run on a hive: a memory set followed by a
 driver reload changes the memory mode of every GPU and may reset every compute
 mode, while a compute set changes its own GPU only.
 */
module Hives {
  import opened Profiles
  import opened Engine
  import opened EngineFacts
  import Capability
  import Recovery

  /** The modes all GPUs of the node really are in. */
  datatype Hive = Hive(memory: seq<string>, compute: seq<string>)

  /** The hive around one iteration of the GPU loop. */
  datatype Moment = Moment(before: Hive, middle: Hive, after: Hive)

  ghost predicate Sized(h: Hive, n: nat) {
    |h.memory| == n && |h.compute| == n
  }

  /**
   After a memory set and a reload every GPU has one mode, the old or the requested
   one; compute modes are arbitrary.
   */
  ghost predicate MemoryEffect(h: Hive, gpu: nat, mode: string, h': Hive, n: nat)
    requires gpu < n && Sized(h, n)
  {
    && Sized(h', n)
    && (h'.memory[gpu] == h.memory[gpu] || h'.memory[gpu] == mode)
    && forall k :: 0 <= k < n ==> h'.memory[k] == h'.memory[gpu]
  }

  /** A successful compute set takes effect on its own GPU; no compute set touches another GPU or a memory mode. */
  ghost predicate ComputeEffect(h: Hive, gpu: nat, mode: string, status: int, h': Hive, n: nat)
    requires gpu < n && Sized(h, n)
  {
    && Sized(h', n)
    && h'.memory == h.memory
    && (status == STATUS_SUCCESS ==> h'.compute[gpu] == mode)
    && forall k :: 0 <= k < n && k != gpu ==> h'.compute[k] == h.compute[k]
  }

  /** The answers of one iteration come from the hive, and its calls act on the hive. */
  ghost predicate Consistent(req: Group, gpu: nat, a: Answer, w: Moment, n: nat) {
    && gpu < n && Sized(w.before, n) && Sized(w.middle, n) && Sized(w.after, n)
    && a.memory0 == w.before.memory[gpu] && a.compute0 == w.before.compute[gpu]
    && (if MemoryIssued(req, a) then
          && MemoryEffect(w.before, gpu, Capability.MemoryName(Capability.ConvertMemory(req.memory)), w.middle, n)
          && a.memory1 == w.middle.memory[gpu]
        else w.middle == w.before)
    && a.compute1 == w.middle.compute[gpu]
    && (if ComputeIssued(req, a) then
          var mode := Capability.ComputeName(Capability.ConvertCompute(req.compute));
          ComputeEffect(w.middle, gpu, mode, a.setCompute, w.after, n)
        else w.after == w.middle)
  }

  /**
   A run of the loop on a hive of `n` GPUs that starts in `h0`; `world(t)` is the hive
   around iteration `t`, which changes nothing if an early return came before it.
   */
  ghost predicate HiveRun(m: Manager, plan: Plan, answers: nat -> Answer, world: nat -> Moment, h0: Hive, n: nat)
    requires plan.Fits()
  {
    && Sized(h0, n) && world(0).before == h0
    && (forall t: nat, u: nat :: t < |plan.reqs| && u == t + 1 ==> world(u).before == world(t).after)
    && (forall t: nat {:trigger world(t)} :: Reached(m, plan, answers, t) ==>
          Consistent(plan.reqs[t], plan.usable[After(m, plan, answers, t).idx], answers(t), world(t), n))
    && forall t: nat {:trigger world(t)} :: t < |plan.reqs| && !Reached(m, plan, answers, t) ==>
         world(t).after == world(t).before
  }

  ghost predicate AllGpus(plan: Plan, answers: nat -> Answer) {
    forall t: nat :: t < |plan.reqs| ==> answers(t).isGpu
  }

  /** What validation guarantees about a plan: common memory mode `mode`, valid types, distinct GPUs of the node. */
  ghost predicate Sound(plan: Plan, mode: string, n: nat) {
    && plan.Fits() && Distinct(plan.usable)
    && (forall k :: 0 <= k < |plan.usable| ==> plan.usable[k] < n)
    && (forall k :: 0 <= k < |plan.reqs| ==> ValidTypes(plan.reqs[k]) && plan.reqs[k].memory == mode)
  }

  /** The memory mode all requests of a sound plan share. */
  function CommonMode(plan: Plan): string {
    if plan.reqs == [] then "" else plan.reqs[0].memory
  }

  lemma PlanIsSound(node: NodeConfig, p: Profile, sockets: nat)
    requires Validate(p, sockets) == Accepted
    ensures var plan := PlanOf(node, p, sockets); Sound(plan, CommonMode(plan), sockets)
  {
    hide Validate, ValidTypes, Flatten;
    var plan := PlanOf(node, p, sockets);
    AllocationFits(p, sockets);
    AllocationBijective(p, sockets);
    ValidateExact(p, sockets);
    UsableIsComplement(Skips(p), sockets);
    forall k | 0 <= k < |plan.usable| ensures plan.usable[k] < sockets {
      assert plan.usable[k] in plan.usable;
    }
    forall k | 0 <= k < |plan.reqs| ensures ValidTypes(plan.reqs[k]) && plan.reqs[k].memory == plan.reqs[0].memory {
      var i := FlattenMember(p.groups, k);
      var i0 := FlattenMember(p.groups, 0);
      assert p.groups[i] in p.groups && p.groups[i0] in p.groups;
    }
  }

  /** The first `t` assigned GPUs hold the compute mode requested for them. */
  ghost predicate ComputeSet(plan: Plan, h: Hive, n: nat, t: nat)
    requires plan.Fits() && t <= |plan.reqs| && Sized(h, n) && forall k :: 0 <= k < |plan.usable| ==> plan.usable[k] < n
  {
    forall k :: 0 <= k < t ==> h.compute[plan.usable[k]] == plan.reqs[k].compute
  }

  ghost predicate MemorySet(plan: Plan, h: Hive, n: nat, mode: string)
    requires plan.Fits() && Sized(h, n) && forall k :: 0 <= k < |plan.usable| ==> plan.usable[k] < n
  {
    forall k :: 0 <= k < |plan.reqs| ==> h.memory[plan.usable[k]] == mode
  }

  /** Every assigned GPU holds its requested pair. */
  ghost predicate Configured(plan: Plan, h: Hive, n: nat) {
    && plan.Fits() && Sized(h, n)
    && forall k :: 0 <= k < |plan.reqs| ==>
         && plan.usable[k] < n
         && h.compute[plan.usable[k]] == plan.reqs[k].compute
         && h.memory[plan.usable[k]] == plan.reqs[k].memory
  }

  /**
   Only the first processed GPU can switch memory: either it needs the switch
   itself, or every assigned GPU already has the requested memory mode.
   */
  ghost predicate OnlyFirstSwitches(plan: Plan, h: Hive, n: nat, mode: string)
    requires plan.Fits() && Sized(h, n) && forall k :: 0 <= k < |plan.usable| ==> plan.usable[k] < n
  {
    plan.reqs != [] && h.memory[plan.usable[0]] == mode ==> MemorySet(plan, h, n, mode)
  }

  /** What an iteration without a failing step does to the hive. */
  lemma MomentProgress(node: NodeConfig, req: Group, gpu: nat, a: Answer, w: Moment, n: nat)
    requires Consistent(req, gpu, a, w, n) && ValidTypes(req)
    requires !TriesRecovery(node) && a.isGpu && !Rejects(req, a) && !StepFails(node, req, a)
    ensures w.after.compute[gpu] == req.compute
    ensures if w.before.memory[gpu] == req.memory
            then
              && w.after.memory == w.before.memory
              && forall k :: 0 <= k < n && k != gpu ==> w.after.compute[k] == w.before.compute[k]
            else forall k :: 0 <= k < n ==> w.after.memory[k] == req.memory
  {
    hide Capability.Supported, Capability.MemoryName, Capability.ComputeName,
         Capability.ConvertMemory, Capability.ConvertCompute, ValidTypes;
    ConvertersValid(req);
  }

  /**
   The invariant of a run in which nothing failed so far: after the first
   iteration all assigned GPUs have the common memory mode, so no later iteration
   switches memory, and the compute modes set so far stay.
   */
  lemma {:induction false} RunProgress(m: Manager, plan: Plan, answers: nat -> Answer, world: nat -> Moment,
                                       h0: Hive, n: nat, mode: string, t: nat)
    requires Sound(plan, mode, n) && !TriesRecovery(plan.node) && AllGpus(plan, answers)
    requires HiveRun(m, plan, answers, world, h0, n) && OnlyFirstSwitches(plan, h0, n, mode)
    requires t <= |plan.reqs| && !After(m, plan, answers, t).returned && !After(m, plan, answers, t).mgr.failed
    ensures Sized(world(t).before, n) && ComputeSet(plan, world(t).before, n, t)
    ensures t > 0 ==> MemorySet(plan, world(t).before, n, mode)
  {
    hide After, Consistent, StepFails, Rejects, ValidTypes, Reached, HiveRun;
    HiveStart(m, plan, answers, world, h0, n);
    if t > 0 {
      var u := t - 1;
      CleanStep(m, plan, answers, t);
      RunProgress(m, plan, answers, world, h0, n, mode, u);
      IndexCounts(m, plan, answers, u);
      HiveStep(m, plan, answers, world, h0, n, u);
      ConsistentSizes(plan.reqs[u], plan.usable[u], answers(u), world(u), n);
      MomentProgress(plan.node, plan.reqs[u], plan.usable[u], answers(u), world(u), n);
    }
  }

  /** A loop that is clean after `t` iterations was clean before the last of them, which did not fail. */
  lemma CleanStep(m: Manager, plan: Plan, answers: nat -> Answer, t: nat)
    requires plan.Fits() && 0 < t <= |plan.reqs| && !TriesRecovery(plan.node)
    requires !After(m, plan, answers, t).returned && !After(m, plan, answers, t).mgr.failed
    ensures Reached(m, plan, answers, t - 1)
    ensures !After(m, plan, answers, t - 1).returned && !After(m, plan, answers, t - 1).mgr.failed
    ensures !Rejects(plan.reqs[t - 1], answers(t - 1)) && !StepFails(plan.node, plan.reqs[t - 1], answers(t - 1))
  {
    hide Visit, After, StepFails, Rejects, EntryFor, CodeAfter, CallsOf, Changes, Unmoved, MemoryIssued;
    var st := After(m, plan, answers, t - 1);
    AfterStep(m, plan, answers, t);
    if !st.returned {
      VisitFacts(plan.node, plan.usable[st.idx], plan.reqs[t - 1], st, answers(t - 1));
    }
    assert !Clears(plan.node, plan.reqs[t - 1], answers(t - 1));
  }

  lemma HiveStart(m: Manager, plan: Plan, answers: nat -> Answer, world: nat -> Moment, h0: Hive, n: nat)
    requires plan.Fits() && HiveRun(m, plan, answers, world, h0, n)
    ensures Sized(h0, n) && world(0).before == h0
  {
    hide After, Consistent, Reached;
  }

  /** What a hive run says of a reached iteration. */
  lemma HiveStep(m: Manager, plan: Plan, answers: nat -> Answer, world: nat -> Moment, h0: Hive, n: nat, t: nat)
    requires plan.Fits() && HiveRun(m, plan, answers, world, h0, n) && Reached(m, plan, answers, t)
    ensures t < |plan.reqs| && world(t + 1).before == world(t).after
    ensures Consistent(plan.reqs[t], plan.usable[After(m, plan, answers, t).idx], answers(t), world(t), n)
  {
    hide After, Consistent;
  }

  lemma ConsistentSizes(req: Group, gpu: nat, a: Answer, w: Moment, n: nat)
    requires Consistent(req, gpu, a, w, n)
    ensures gpu < n && Sized(w.before, n) && Sized(w.after, n)
  {
  }

  /** A loop that reaches its end with no failure leaves every assigned GPU configured. */
  lemma CleanRunConfigures(m: Manager, plan: Plan, answers: nat -> Answer, world: nat -> Moment, h0: Hive, n: nat)
    requires Sound(plan, CommonMode(plan), n) && !TriesRecovery(plan.node) && AllGpus(plan, answers)
    requires HiveRun(m, plan, answers, world, h0, n) && OnlyFirstSwitches(plan, h0, n, CommonMode(plan))
    requires !After(m, plan, answers, |plan.reqs|).returned && !After(m, plan, answers, |plan.reqs|).mgr.failed
    ensures Configured(plan, world(|plan.reqs|).before, n)
  {
    hide After, Visit, Consistent;
    RunProgress(m, plan, answers, world, h0, n, CommonMode(plan), |plan.reqs|);
  }

  ghost predicate Uniform(h: Hive, n: nat)
    requires Sized(h, n)
  {
    forall i, j :: 0 <= i < n && 0 <= j < n ==> h.memory[i] == h.memory[j]
  }

  lemma UniformSwitchesFirst(plan: Plan, h: Hive, n: nat)
    requires Sound(plan, CommonMode(plan), n) && Sized(h, n) && Uniform(h, n)
    ensures OnlyFirstSwitches(plan, h, n, CommonMode(plan))
  {
  }

  lemma SuccessMeansCleanRun(m: Manager, p: Profile, s: Session, plan: Plan)
    requires plan == PlanOf(plan.node, p, s.sockets) && plan.Fits()
    requires NoPanic(p, s) && m.final == FinalFailure && Helper(plan.node, m, p, s).stateLabel == LabelSuccess
    ensures s.sockets != 0 && Validate(p, s.sockets) == Accepted
    ensures !After(m, plan, s.answers, |plan.reqs|).returned && !After(m, plan, s.answers, |plan.reqs|).mgr.failed
  {
    hide Visit, Validate;
    HelperLabel(plan.node, m, p, s);
    LoopLabel(m, plan, s.answers, |plan.reqs|);
  }

  /**
   End-to-end correctness: off KMM, with a GPU as first processor of every socket
   used and a hive whose memory mode is uniform at the start, a run that ends with
   the label "success" leaves every assigned GPU with its requested pair.
   */
  lemma EndToEnd(m: Manager, p: Profile, s: Session, plan: Plan, world: nat -> Moment, h0: Hive)
    requires plan == PlanOf(plan.node, p, s.sockets) && plan.Fits()
    requires NoPanic(p, s) && m.final == FinalFailure && !plan.node.kmm
    requires AllGpus(plan, s.answers) && HiveRun(m, plan, s.answers, world, h0, s.sockets)
    requires Uniform(h0, s.sockets)
    requires Helper(plan.node, m, p, s).stateLabel == LabelSuccess
    ensures Configured(plan, world(|plan.reqs|).before, s.sockets)
  {
    hide After, Visit, Validate, Consistent, Flatten, UsableGpus, Helper;
    SuccessMeansCleanRun(m, p, s, plan);
    PlanIsSound(plan.node, p, s.sockets);
    UniformSwitchesFirst(plan, h0, s.sockets);
    CleanRunConfigures(m, plan, s.answers, world, h0, s.sockets);
  }

  // ----- many attempts -----

  /** A hive with one memory mode keeps one, whichever steps fail and wherever the loop is left. */
  lemma {:induction false} UniformKept(m: Manager, plan: Plan, answers: nat -> Answer, world: nat -> Moment,
                                       h0: Hive, n: nat, t: nat)
    requires plan.Fits() && HiveRun(m, plan, answers, world, h0, n) && Uniform(h0, n) && t <= |plan.reqs|
    ensures Sized(world(t).before, n) && Uniform(world(t).before, n)
  {
    hide After, Consistent, Reached;
    if t > 0 {
      UniformKept(m, plan, answers, world, h0, n, t - 1);
      assert world(t).before == world(t - 1).after;
      if Reached(m, plan, answers, t - 1) {
        ReachedIsIteration(m, plan, answers, t - 1);
        var gpu := plan.usable[After(m, plan, answers, t - 1).idx];
        ConsistentUniform(plan.reqs[t - 1], gpu, answers(t - 1), world(t - 1), n);
      }
    }
  }

  lemma ReachedIsIteration(m: Manager, plan: Plan, answers: nat -> Answer, q: nat)
    requires plan.Fits() && Reached(m, plan, answers, q)
    ensures q < |plan.reqs| && After(m, plan, answers, q).idx < |plan.usable|
  {
  }

  lemma ConsistentUniform(req: Group, gpu: nat, a: Answer, w: Moment, n: nat)
    requires Consistent(req, gpu, a, w, n) && Uniform(w.before, n)
    ensures Sized(w.after, n) && Uniform(w.after, n)
  {
    hide MemoryIssued, ComputeIssued, Capability.MemoryName, Capability.ComputeName,
         Capability.ConvertMemory, Capability.ConvertCompute;
  }

  /** One call of `PartitionGPU`: what it starts from, what it meets, and the hive around its iterations. */
  datatype Attempt = Attempt(
    mgr: Manager,
    name: string,
    file: ConfigFile,
    initOk: bool,
    session: Session,
    world: nat -> Moment)
  {
    predicate Possible() {
      Runnable(mgr, name, file, initOk, session)
    }

    predicate Loops() {
      RunsLoop(mgr, name, file, initOk, session)
    }

    function Start(): Manager {
      Prepare(mgr, name, file, initOk).mgr
    }

    function Result(node: NodeConfig): Manager
      requires Possible()
    {
      PartitionGpu(node, mgr, name, file, initOk, session).mgr
    }

    /** The plan of an attempt that runs the GPU loop. */
    function Plan(node: NodeConfig): (plan: Plan)
      requires Loops()
      ensures plan.Fits()
    {
      var p := Prepare(mgr, name, file, initOk).profile;
      AllocationFits(p, session.sockets);
      PlanOf(node, p, session.sockets)
    }
  }

  /** The attempt takes the hive from `h` to `h'`; one that does not get to the loop leaves it alone. */
  ghost predicate Takes(node: NodeConfig, a: Attempt, h: Hive, h': Hive, n: nat) {
    && a.Possible()
    && if a.Loops() then
         var plan := a.Plan(node);
         && a.session.sockets == n
         && HiveRun(a.Start(), plan, a.session.answers, a.world, h, n)
         && h' == a.world(|plan.reqs|).before
       else h' == h
  }

  /** Attempts one after the other, each on the hive that the one before left behind. */
  ghost predicate AttemptsOn(node: NodeConfig, attempts: seq<Attempt>, hives: seq<Hive>, n: nat) {
    && |hives| == |attempts| + 1
    && forall i :: 0 <= i < |attempts| ==> Takes(node, attempts[i], hives[i], hives[i + 1], n)
  }

  lemma {:induction false} AttemptsKeepUniform(node: NodeConfig, attempts: seq<Attempt>, hives: seq<Hive>,
                                               n: nat, i: nat)
    requires AttemptsOn(node, attempts, hives, n) && Sized(hives[0], n) && Uniform(hives[0], n) && i <= |attempts|
    ensures Sized(hives[i], n) && Uniform(hives[i], n)
  {
    hide HiveRun;
    if i > 0 {
      AttemptsKeepUniform(node, attempts, hives, n, i - 1);
      var a := attempts[i - 1];
      assert Takes(node, a, hives[i - 1], hives[i], n);
      if a.Loops() {
        var plan := a.Plan(node);
        UniformKept(a.Start(), plan, a.session.answers, a.world, hives[i - 1], n, |plan.reqs|);
      }
    }
  }

  /**
   End-to-end correctness over retries: off KMM and from a uniform hive, after any
   attempts, failed or not and of any profiles, an attempt that ends with the label
   "success" has run its loop and leaves every GPU assigned by it with its requested
   pair, provided it met a GPU as first processor of every socket used.
   */
  lemma EndToEndOverAttempts(node: NodeConfig, attempts: seq<Attempt>, hives: seq<Hive>, n: nat, i: nat)
    requires AttemptsOn(node, attempts, hives, n) && Sized(hives[0], n) && Uniform(hives[0], n) && !node.kmm
    requires i < |attempts| && attempts[i].Possible()
    requires attempts[i].Loops() ==> AllGpus(attempts[i].Plan(node), attempts[i].session.answers)
    requires attempts[i].Result(node).stateLabel == LabelSuccess
    ensures attempts[i].Loops() && Configured(attempts[i].Plan(node), hives[i + 1], n)
  {
    hide After, Visit, Validate, HiveRun, Uniform, AllGpus, Flatten, UsableGpus, Configured, Helper, Prepare;
    var a := attempts[i];
    assert Takes(node, a, hives[i], hives[i + 1], n);
    AttemptsKeepUniform(node, attempts, hives, n, i);
    SuccessRunsLoop(node, a);
    var prep := Prepare(a.mgr, a.name, a.file, a.initOk);
    EndToEnd(prep.mgr, prep.profile, a.session, a.Plan(node), a.world, hives[i]);
  }

  /** Only the GPU loop can end with the label "success". */
  lemma SuccessRunsLoop(node: NodeConfig, a: Attempt)
    requires a.Possible() && a.Result(node).stateLabel == LabelSuccess
    ensures a.Loops() && a.Start().final == FinalFailure
    ensures var prep := Prepare(a.mgr, a.name, a.file, a.initOk);
            NoPanic(prep.profile, a.session) && a.Result(node) == Helper(node, prep.mgr, prep.profile, a.session)
  {
    hide After, Visit, Validate;
  }

  // ----- a second run -----

  ghost predicate AllReadable(plan: Plan, answers: nat -> Answer) {
    forall t: nat :: t < |plan.reqs| ==> answers(t).typeKnown
  }

  /** A visit to a GPU that matches already writes its entry and nothing else. */
  lemma MatchIsQuiet(node: NodeConfig, gpu: nat, req: Group, st: Loop, a: Answer)
    requires st.idx < |st.mgr.gpus| && a.typeKnown && a.isGpu && Matches(req, a)
    ensures Visit(node, gpu, req, st, a) ==
            st.(mgr := Populate(st.mgr, st.idx, gpu, req, Success, NotRequired), idx := st.idx + 1)
    ensures !Changes(req, a)
  {
  }

  /** On a configured hive the loop only looks. */
  lemma {:induction false} ConfiguredIsQuiet(m: Manager, plan: Plan, answers: nat -> Answer, world: nat -> Moment,
                                             h: Hive, n: nat, t: nat)
    requires plan.Fits() && Configured(plan, h, n) && AllGpus(plan, answers) && AllReadable(plan, answers)
    requires HiveRun(m, plan, answers, world, h, n) && t <= |plan.reqs|
    ensures var st := After(m, plan, answers, t);
            && !st.returned && !st.needed && !st.mgr.failed && st.idx == t && st.mgr.calls == m.calls
            && world(t).before == h
            && forall k :: 0 <= k < t ==>
                 st.mgr.gpus[k] ==
                 GpuStatus(plan.usable[k], plan.reqs[k].compute + "-" + plan.reqs[k].memory, Success, NotRequired)
  {
    hide After, Visit, CallsOf;
    AfterStart(m, plan, answers);
    if t > 0 {
      ConfiguredIsQuiet(m, plan, answers, world, h, n, t - 1);
      assert Reached(m, plan, answers, t - 1);
      AfterStep(m, plan, answers, t);
      MatchIsQuiet(plan.node, plan.usable[t - 1], plan.reqs[t - 1], After(m, plan, answers, t - 1), answers(t - 1));
      assert world(t).before == world(t - 1).after;
    }
  }

  /**
   Idempotence: after a successful run, a second run of the same profile on the
   same hive issues no set call and no reload, reports "not required" for every
   assigned GPU, and ends with the label "success" again.
   */
  lemma SecondRunChangesNothing(p: Profile, plan: Plan, m1: Manager, s1: Session, world1: nat -> Moment, h0: Hive,
                                m2: Manager, s2: Session, world2: nat -> Moment)
    requires plan == PlanOf(plan.node, p, s1.sockets) && plan.Fits() && s2.sockets == s1.sockets
    requires NoPanic(p, s1) && m1.final == FinalFailure && !plan.node.kmm
    requires AllGpus(plan, s1.answers) && HiveRun(m1, plan, s1.answers, world1, h0, s1.sockets)
    requires Uniform(h0, s1.sockets)
    requires Helper(plan.node, m1, p, s1).stateLabel == LabelSuccess
    requires AllGpus(plan, s2.answers) && AllReadable(plan, s2.answers)
    requires HiveRun(m2, plan, s2.answers, world2, world1(|plan.reqs|).before, s2.sockets)
    ensures var out := Helper(plan.node, m2, p, s2);
            && out.calls == m2.calls
            && out.stateLabel == LabelSuccess && out.final == FinalSuccess
            && out.reason == AlreadyConfigured && !out.failed
            && |out.gpus| == |plan.usable|
            && forall k :: 0 <= k < |plan.reqs| ==>
                 out.gpus[k] ==
                 GpuStatus(plan.usable[k], plan.reqs[k].compute + "-" + plan.reqs[k].memory, Success, NotRequired)
    ensures world2(|plan.reqs|).before == world1(|plan.reqs|).before
  {
    hide After, Visit, Validate, Consistent, Flatten, UsableGpus;
    EndToEnd(m1, p, s1, plan, world1, h0);
    SuccessMeansCleanRun(m1, p, s1, plan);
    ConfiguredIsQuiet(m2, plan, s2.answers, world2, world1(|plan.reqs|).before, s2.sockets, |plan.reqs|);
  }

  // ----- exactly which hives are safe -----

  /** Every clean run from `h0` configures all assigned GPUs. */
  ghost predicate AlwaysConfigures(plan: Plan, h0: Hive, n: nat)
    requires plan.Fits()
  {
    forall m: Manager, answers: nat -> Answer, world: nat -> Moment ::
      && AllGpus(plan, answers)
      && HiveRun(m, plan, answers, world, h0, n)
      && !After(m, plan, answers, |plan.reqs|).returned
      && !After(m, plan, answers, |plan.reqs|).mgr.failed
      ==> Configured(plan, world(|plan.reqs|).before, n)
  }

  /** A valid compute mode other than the one requested for the first GPU. */
  function ResetMode(plan: Plan): (mode: string)
    ensures mode in VALID_COMPUTE && (plan.reqs != [] ==> mode != plan.reqs[0].compute)
  {
    if plan.reqs != [] && plan.reqs[0].compute == "SPX" then "CPX" else "SPX"
  }

  /** A hive that obeys every call and puts all GPUs into the compute mode `reset` on a reload. */
  function Obey(req: Group, gpu: nat, h: Hive, n: nat, reset: string): Moment
    requires gpu < n == |h.memory| == |h.compute|
  {
    var middle := if h.memory[gpu] == req.memory then h else Hive(seq(n, _ => req.memory), seq(n, _ => reset));
    var after :=
      if middle.compute[gpu] == req.compute then middle
      else middle.(compute := middle.compute[gpu := req.compute]);
    Moment(h, middle, after)
  }

  function ObeyAnswer(req: Group, gpu: nat, h: Hive, n: nat, reset: string): Answer
    requires gpu < n == |h.memory| == |h.compute|
  {
    var w := Obey(req, gpu, h, n, reset);
    Answer(true, true, h.compute[gpu], h.memory[gpu], Capability.Config(0xF, 0), STATUS_SUCCESS,
           w.middle.memory[gpu], Recovery.IDLE, w.middle.compute[gpu], STATUS_SUCCESS)
  }

  /** The hive after `t` iterations of such a run. */
  function Obeyed(plan: Plan, h0: Hive, n: nat, t: nat): (h: Hive)
    requires plan.Fits() && t <= |plan.reqs| && |h0.memory| == |h0.compute| == n
    requires forall k :: 0 <= k < |plan.usable| ==> plan.usable[k] < n
    ensures |h.memory| == |h.compute| == n
  {
    if t == 0 then h0
    else Obey(plan.reqs[t - 1], plan.usable[t - 1], Obeyed(plan, h0, n, t - 1), n, ResetMode(plan)).after
  }

  lemma AllModesSupported(mode: string)
    requires mode in VALID_MEMORY
    ensures mode in Capability.Supported(Capability.Config(0xF, 0))
  {
    hide Capability.Supported;
    Capability.SupportedExact(0xF, 0);
  }

  /** One obeyed iteration is consistent with the hive and has no failing step. */
  lemma ObeyConsistent(node: NodeConfig, req: Group, gpu: nat, h: Hive, n: nat, reset: string)
    requires gpu < n == |h.memory| == |h.compute| && ValidTypes(req)
    ensures var a := ObeyAnswer(req, gpu, h, n, reset);
            && Consistent(req, gpu, a, Obey(req, gpu, h, n, reset), n)
            && !Rejects(req, a) && !StepFails(node, req, a)
  {
    hide Capability.Supported, Capability.MemoryName, Capability.ComputeName,
         Capability.ConvertMemory, Capability.ConvertCompute;
    ConvertersValid(req);
    AllModesSupported(req.memory);
  }

  /** The answers and the moments of the whole obeyed run. */
  function AnswerAt(plan: Plan, h0: Hive, n: nat, t: nat): Answer
    requires plan.Fits() && |h0.memory| == |h0.compute| == n
    requires forall k :: 0 <= k < |plan.usable| ==> plan.usable[k] < n
  {
    if t < |plan.reqs| then ObeyAnswer(plan.reqs[t], plan.usable[t], Obeyed(plan, h0, n, t), n, ResetMode(plan))
    else Answer(true, true, "", "", Capability.Unavailable, 0, "", Recovery.IDLE, "", 0)
  }

  function MomentAt(plan: Plan, h0: Hive, n: nat, t: nat): (w: Moment)
    requires plan.Fits() && |h0.memory| == |h0.compute| == n
    requires forall k :: 0 <= k < |plan.usable| ==> plan.usable[k] < n
    ensures t <= |plan.reqs| ==> w.before == Obeyed(plan, h0, n, t)
    ensures t < |plan.reqs| ==> w.after == Obeyed(plan, h0, n, t + 1)
  {
    if t < |plan.reqs| then Obey(plan.reqs[t], plan.usable[t], Obeyed(plan, h0, n, t), n, ResetMode(plan))
    else var h := Obeyed(plan, h0, n, |plan.reqs|); Moment(h, h, h)
  }

  lemma {:induction false} ObeyedRun(m: Manager, plan: Plan, answers: nat -> Answer, h0: Hive, n: nat, t: nat)
    requires Sound(plan, CommonMode(plan), n) && |h0.memory| == |h0.compute| == n && t <= |plan.reqs|
    requires forall k: nat :: answers(k) == AnswerAt(plan, h0, n, k)
    ensures var st := After(m, plan, answers, t);
            && !st.returned && !st.mgr.failed && st.idx == t
            && forall p :: 0 <= p < t ==> st.mgr.gpus[p].status == Success
  {
    hide Visit, StepFails, Rejects, Obey, ObeyAnswer, Obeyed, Consistent, ValidTypes, After;
    if t == 0 {
      AfterStart(m, plan, answers);
    } else {
      ObeyedRun(m, plan, answers, h0, n, t - 1);
      AfterStep(m, plan, answers, t);
      ObeyConsistent(plan.node, plan.reqs[t - 1], plan.usable[t - 1], Obeyed(plan, h0, n, t - 1), n, ResetMode(plan));
      AnswerIsGpu(plan, h0, n, t - 1);
      VisitFacts(plan.node, plan.usable[t - 1], plan.reqs[t - 1], After(m, plan, answers, t - 1), answers(t - 1));
    }
  }

  lemma AnswerIsGpu(plan: Plan, h0: Hive, n: nat, t: nat)
    requires plan.Fits() && |h0.memory| == |h0.compute| == n
    requires forall k :: 0 <= k < |plan.usable| ==> plan.usable[k] < n
    ensures AnswerAt(plan, h0, n, t).isGpu && AnswerAt(plan, h0, n, t).typeKnown
  {
  }

  /** From the first GPU that needs a memory switch on, GPU 0 stays in the mode of the reset. */
  lemma {:induction false} ObeyedForgets(plan: Plan, h0: Hive, n: nat, j: nat, t: nat)
    requires Sound(plan, CommonMode(plan), n) && |h0.memory| == |h0.compute| == n && j < |plan.reqs| && t <= |plan.reqs|
    requires h0.memory[plan.usable[0]] == CommonMode(plan) && h0.memory[plan.usable[j]] != CommonMode(plan)
    requires forall k :: 0 <= k < j ==> h0.memory[plan.usable[k]] == CommonMode(plan)
    ensures t <= j ==> Obeyed(plan, h0, n, t).memory == h0.memory
    ensures t > j ==> Obeyed(plan, h0, n, t).compute[plan.usable[0]] == ResetMode(plan)
  {
    hide ValidTypes, Obey, ResetMode;
    if t > 0 {
      ObeyedForgets(plan, h0, n, j, t - 1);
      ObeyEffect(plan.reqs[t - 1], plan.usable[t - 1], Obeyed(plan, h0, n, t - 1), n, ResetMode(plan));
      assert t > 1 ==> plan.usable[t - 1] != plan.usable[0];
    }
  }

  /** What one obeyed iteration does to the other GPUs. */
  lemma ObeyEffect(req: Group, gpu: nat, h: Hive, n: nat, reset: string)
    requires gpu < n == |h.memory| == |h.compute|
    ensures var h' := Obey(req, gpu, h, n, reset).after;
            && |h'.compute| == n
            && (h.memory[gpu] == req.memory ==> h'.memory == h.memory)
            && forall k :: 0 <= k < n && k != gpu ==>
                 h'.compute[k] == if h.memory[gpu] == req.memory then h.compute[k] else reset
  {
  }

  lemma ObeyedHiveRun(m: Manager, plan: Plan, answers: nat -> Answer, world: nat -> Moment, h0: Hive, n: nat)
    requires Sound(plan, CommonMode(plan), n) && |h0.memory| == |h0.compute| == n
    requires forall k: nat :: answers(k) == AnswerAt(plan, h0, n, k)
    requires forall k: nat :: world(k) == MomentAt(plan, h0, n, k)
    ensures HiveRun(m, plan, answers, world, h0, n) && AllGpus(plan, answers)
  {
    hide After, Consistent, AnswerAt, Reached;
    forall t: nat | t < |plan.reqs|
      ensures Reached(m, plan, answers, t) && answers(t).isGpu && world(t + 1).before == world(t).after
      ensures Consistent(plan.reqs[t], plan.usable[After(m, plan, answers, t).idx], answers(t), world(t), n)
    {
      ObeyedMoment(m, plan, answers, world, h0, n, t);
    }
    forall t: nat | Reached(m, plan, answers, t) ensures t < |plan.reqs| {
      ReachedIsIteration(m, plan, answers, t);
    }
    assert world(0).before == Obeyed(plan, h0, n, 0) == h0;
  }

  lemma ObeyedMoment(m: Manager, plan: Plan, answers: nat -> Answer, world: nat -> Moment, h0: Hive, n: nat, t: nat)
    requires Sound(plan, CommonMode(plan), n) && |h0.memory| == |h0.compute| == n && t < |plan.reqs|
    requires forall k: nat :: answers(k) == AnswerAt(plan, h0, n, k)
    requires forall k: nat :: world(k) == MomentAt(plan, h0, n, k)
    ensures Reached(m, plan, answers, t) && answers(t).isGpu && world(t + 1).before == world(t).after
    ensures Consistent(plan.reqs[t], plan.usable[After(m, plan, answers, t).idx], answers(t), world(t), n)
  {
    hide After, Visit, Consistent, Obey, ObeyAnswer, ValidTypes;
    ObeyedRun(m, plan, answers, h0, n, t);
    ObeyConsistent(plan.node, plan.reqs[t], plan.usable[t], Obeyed(plan, h0, n, t), n, ResetMode(plan));
    AnswerIsGpu(plan, h0, n, t);
  }

  /**
   Some clean run from a hive that needs a later switch ends with the first GPU in
   a valid compute mode it was not asked for, while its entry says "Success".
   */
  lemma SwitchLaterBreaks(plan: Plan, h0: Hive, n: nat)
    returns (m: Manager, answers: nat -> Answer, world: nat -> Moment)
    requires Sound(plan, CommonMode(plan), n) && Sized(h0, n) && !OnlyFirstSwitches(plan, h0, n, CommonMode(plan))
    ensures AllGpus(plan, answers) && HiveRun(m, plan, answers, world, h0, n)
    ensures var st := After(m, plan, answers, |plan.reqs|);
            && !st.returned && !st.mgr.failed && Conclude(st).stateLabel == LabelSuccess
            && plan.reqs != [] && st.mgr.gpus[0].status == Success
    ensures var h := world(|plan.reqs|).before;
            && Sized(h, n)
            && h.compute[plan.usable[0]] in VALID_COMPUTE
            && h.compute[plan.usable[0]] != plan.reqs[0].compute
  {
    hide After, Visit, Obeyed, Obey, ObeyAnswer, ValidTypes, HiveRun, AllGpus;
    var j := FirstSwitch(plan, h0, n);
    m := Manager("", FinalFailure, NoReason, [], false, InProgress, []);
    answers := (t: nat) => AnswerAt(plan, h0, n, t);
    world := (t: nat) => MomentAt(plan, h0, n, t);
    ObeyedHiveRun(m, plan, answers, world, h0, n);
    ObeyedRun(m, plan, answers, h0, n, |plan.reqs|);
    ObeyedForgets(plan, h0, n, j, |plan.reqs|);
    assert world(|plan.reqs|).before.compute[plan.usable[0]] == ResetMode(plan);
  }

  lemma FirstSwitch(plan: Plan, h: Hive, n: nat) returns (j: nat)
    requires Sound(plan, CommonMode(plan), n) && Sized(h, n) && !OnlyFirstSwitches(plan, h, n, CommonMode(plan))
    ensures 0 < j < |plan.reqs| && h.memory[plan.usable[j]] != CommonMode(plan)
    ensures forall k :: 0 <= k < j ==> h.memory[plan.usable[k]] == CommonMode(plan)
  {
    assert !MemorySet(plan, h, n, CommonMode(plan));
    var k: nat :| k < |plan.reqs| && h.memory[plan.usable[k]] != CommonMode(plan);
    j := 0;
    while h.memory[plan.usable[j]] == CommonMode(plan)
      invariant j <= k
      invariant forall i :: 0 <= i < j ==> h.memory[plan.usable[i]] == CommonMode(plan)
      decreases k - j
    {
      j := j + 1;
    }
  }

  /**
   A plan is safe on a hive exactly when only its first GPU can switch memory: a
   GPU that already matched loses its compute mode when a later GPU reloads the
   driver (see SwitchLaterBreaks).
   */
  lemma EndToEndExactly(plan: Plan, h0: Hive, n: nat)
    requires Sound(plan, CommonMode(plan), n) && Sized(h0, n) && !plan.node.kmm
    ensures AlwaysConfigures(plan, h0, n) <==> OnlyFirstSwitches(plan, h0, n, CommonMode(plan))
  {
    hide After, Visit, Consistent;
    if OnlyFirstSwitches(plan, h0, n, CommonMode(plan)) {
      forall m: Manager, answers: nat -> Answer, world: nat -> Moment |
        && AllGpus(plan, answers)
        && HiveRun(m, plan, answers, world, h0, n)
        && !After(m, plan, answers, |plan.reqs|).returned
        && !After(m, plan, answers, |plan.reqs|).mgr.failed
        ensures Configured(plan, world(|plan.reqs|).before, n)
      {
        CleanRunConfigures(m, plan, answers, world, h0, n);
      }
    } else {
      var m, answers, world := SwitchLaterBreaks(plan, h0, n);
      assert !Configured(plan, world(|plan.reqs|).before, n);
    }
  }
}
