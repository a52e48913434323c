/**
 The partition engine as a function of its environment: what one `PartitionGPU`
 call does to the manager's state, given everything AMD SMI answers during it.
 */
module Engine {
  import opened Wrappers
  import opened Profiles
  import Capability
  import Duplicates
  import Recovery

  /** KMM_DRIVER_ENABLED, and whether the node name is known. */
  datatype NodeConfig = NodeConfig(kmm: bool, named: bool)

  // ----- the manager's state -----

  datatype Message =
    | NoMessage
    | NotRequired
    | Partitioned
    | ApiError
    | CapsUnavailable
    | MemoryUnsupported
    | ComputeUnsupported
    | Recovering
    | StepFailed(code: Option<int>)

  datatype Status = Unset | Success | Failure | Pending

  datatype GpuStatus = GpuStatus(gpu: nat, partitionType: string, status: Status, message: Message)

  /** An entry of a freshly made status array. */
  const BLANK := GpuStatus(0, "", Unset, NoMessage)

  datatype FinalStatus = NoFinal | FinalPending | FinalSuccess | FinalFailure | FinalRetrying

  datatype Reason =
    | NoReason
    | ConfigMissing
    | InvalidJson
    | DuplicateNames
    | ProfileMissing
    | InitFailed
    | NoSockets
    | InvalidProfile(verdict: Verdict)
    | Rejected(message: Message)
    | AwaitingRecovery
    | PartitionFailed(code: Option<int>)
    | AllPartitioned
    | AlreadyConfigured
    | Retrying

  /** The node label dcm.amd.com/gpu-config-profile-state. */
  datatype StateLabel = Absent | InProgress | LabelSuccess | LabelFailure

  /** AMD SMI calls that change devices. */
  datatype Call = SetMemory(gpu: nat, mode: int) | ReloadDriver | SetCompute(gpu: nat, mode: int)

  datatype Manager = Manager(
    selected: string,
    final: FinalStatus,
    reason: Reason,
    gpus: seq<GpuStatus>,
    failed: bool,
    stateLabel: StateLabel,
    calls: seq<Call>)

  // ----- the environment -----

  const STATUS_SUCCESS := 0
  const SETTING_UNAVAILABLE := 55

  /** Everything AMD SMI answers during one iteration of the GPU loop. */
  datatype Answer = Answer(
    typeKnown: bool,            // amdsmi_get_processor_type succeeded
    isGpu: bool,                // ... and reported an AMD GPU
    compute0: string,           // compute mode on entry
    memory0: string,            // memory mode on entry
    caps: Capability.Config,    // memory partition capabilities
    setMemory: int,             // status of the memory set
    memory1: string,            // memory mode read back
    recovery: Recovery.World,   // what a KMM recovery would meet
    compute1: string,           // compute mode read after the memory phase
    setCompute: int)            // status of the compute set

  /** One AMD SMI session: the number of sockets and the answers, by iteration. */
  datatype Session = Session(sockets: nat, answers: nat -> Answer)

  /** The config file, decoded: None where the JSON does not fit the wanted type. */
  datatype ConfigFile =
    | Missing
    | Present(profiles: Option<seq<(string, Profile)>>, services: Option<seq<string>>)

  // ----- one iteration of the GPU loop -----

  datatype Loop = Loop(
    mgr: Manager,
    idx: nat,
    needed: bool,
    code: Option<int>,
    returned: bool)

  predicate Matches(req: Group, a: Answer) {
    req.compute == a.compute0 && req.memory == a.memory0
  }

  function PartitionType(req: Group): string {
    req.compute + "-" + req.memory
  }

  function Populate(m: Manager, idx: nat, gpu: nat, req: Group, status: Status, message: Message): Manager
    requires idx < |m.gpus|
  {
    m.(gpus := m.gpus[idx := GpuStatus(gpu, PartitionType(req), status, message)])
  }

  /** An early return: this GPU fails with `message` and nothing further is tried. */
  function Reject(st: Loop, gpu: nat, req: Group, message: Message): Loop
    requires st.idx < |st.mgr.gpus|
  {
    var entered := Populate(st.mgr, st.idx, gpu, req, Failure, message);
    st.(mgr := entered.(reason := Rejected(message), stateLabel := LabelFailure), returned := true)
  }

  predicate MemoryStepFails(a: Answer) {
    a.setMemory != STATUS_SUCCESS || a.memory1 == a.memory0
  }

  /** Whether a failed memory set is followed by a recovery attempt on this node. */
  predicate TriesRecovery(node: NodeConfig) {
    node.named && node.kmm
  }

  predicate Recovered(node: NodeConfig, req: Group, a: Answer) {
    TriesRecovery(node) && Recovery.Recovers(a.recovery, req.memory)
  }

  /** A failed memory set, with the recovery that KMM nodes attempt. */
  function AfterMemoryFailure(node: NodeConfig, gpu: nat, req: Group, st: Loop, a: Answer): Loop
    requires st.idx < |st.mgr.gpus|
  {
    var pending := if TriesRecovery(node) then Populate(st.mgr, st.idx, gpu, req, Pending, Recovering) else st.mgr;
    var waited := if TriesRecovery(node) && a.recovery.handled then pending.(reason := AwaitingRecovery) else pending;
    var mgr :=
      if Recovered(node, req, a) then waited.(failed := false)
      else waited.(failed := true, stateLabel := LabelFailure);
    st.(mgr := mgr, code := Some(a.setMemory))
  }

  function MemoryPhase(node: NodeConfig, gpu: nat, req: Group, st: Loop, a: Answer): Loop
    requires st.idx < |st.mgr.gpus|
  {
    if req.memory == a.memory0 then st
    else if Capability.Supported(a.caps) == [] then Reject(st, gpu, req, CapsUnavailable)
    else if req.memory !in Capability.Supported(a.caps) then Reject(st, gpu, req, MemoryUnsupported)
    else
      var set1 := st.mgr.calls + [SetMemory(gpu, Capability.ConvertMemory(req.memory))];
      var issued := st.(mgr := st.mgr.(calls := if node.kmm then set1 else set1 + [ReloadDriver]));
      if MemoryStepFails(a) then AfterMemoryFailure(node, gpu, req, issued, a) else issued
  }

  function ComputePhase(gpu: nat, req: Group, st: Loop, a: Answer): Loop
    requires st.idx < |st.mgr.gpus|
  {
    if req.compute == a.compute1 then st
    else
      var set1 := st.mgr.calls + [SetCompute(gpu, Capability.ConvertCompute(req.compute))];
      var issued := st.(mgr := st.mgr.(calls := set1));
      if a.setCompute == STATUS_SUCCESS then issued
      else if a.setCompute == SETTING_UNAVAILABLE then
        Reject(issued.(code := Some(a.setCompute)), gpu, req, ComputeUnsupported)
      else issued.(code := Some(a.setCompute), mgr := issued.mgr.(stateLabel := LabelFailure, failed := true))
  }

  function Record(gpu: nat, req: Group, st: Loop): Loop
    requires st.idx < |st.mgr.gpus|
  {
    var mgr :=
      if st.mgr.failed then
        Populate(st.mgr, st.idx, gpu, req, Failure, StepFailed(st.code)).(reason := PartitionFailed(st.code))
      else Populate(st.mgr, st.idx, gpu, req, Success, Partitioned);
    st.(mgr := mgr, idx := st.idx + 1)
  }

  /** The whole body of the inner loop for the GPU `gpu` at status position `st.idx`. */
  function Visit(node: NodeConfig, gpu: nat, req: Group, st: Loop, a: Answer): (st': Loop)
    requires st.idx < |st.mgr.gpus|
    ensures |st'.mgr.gpus| == |st.mgr.gpus| && st'.idx <= st.idx + 1
  {
    if !a.typeKnown then Reject(st, gpu, req, ApiError)
    else if !a.isGpu then st
    else if Matches(req, a) then
      st.(mgr := Populate(st.mgr, st.idx, gpu, req, Success, NotRequired), idx := st.idx + 1)
    else
      var s1 := MemoryPhase(node, gpu, req, st.(needed := true), a);
      if s1.returned then s1
      else
        var s2 := ComputePhase(gpu, req, s1, a);
        if s2.returned then s2 else Record(gpu, req, s2)
  }

  // ----- the whole loop -----

  /** The work list of an accepted profile: `reqs[k]` is requested for GPU `usable[k]`. */
  datatype Plan = Plan(node: NodeConfig, reqs: seq<Group>, usable: seq<nat>) {
    predicate Fits() { |reqs| <= |usable| }
  }

  function PlanOf(node: NodeConfig, p: Profile, sockets: nat): Plan {
    Plan(node, Flatten(p.groups), UsableGpus(Skips(p), sockets))
  }

  /** Line 526-528: a fresh status array and a cleared flag. */
  function Start(m: Manager, plan: Plan): Loop {
    Loop(m.(gpus := seq(|plan.usable|, _ => BLANK), failed := false), 0, false, None, false)
  }

  /** The state after the first `t` iterations; an early return ends the loop. */
  function After(m: Manager, plan: Plan, answers: nat -> Answer, t: nat): (st: Loop)
    requires plan.Fits() && t <= |plan.reqs|
    ensures st.idx <= t && |st.mgr.gpus| == |plan.usable|
  {
    if t == 0 then Start(m, plan)
    else
      var st := After(m, plan, answers, t - 1);
      if st.returned then st
      else Visit(plan.node, plan.usable[st.idx], plan.reqs[t - 1], st, answers(t - 1))
  }

  /** Nothing happens after an early return. */
  lemma {:induction false} ReturnedSticks(m: Manager, plan: Plan, answers: nat -> Answer, t: nat, u: nat)
    requires plan.Fits() && t <= u <= |plan.reqs|
    requires After(m, plan, answers, t).returned
    ensures After(m, plan, answers, u) == After(m, plan, answers, t)
  {
    hide Visit;
    if t < u {
      ReturnedSticks(m, plan, answers, t, u - 1);
    }
  }

  function Conclude(st: Loop): Manager {
    if st.returned || st.mgr.failed then st.mgr
    else st.mgr.(final := FinalSuccess,
                 reason := if st.needed then AllPartitioned else AlreadyConfigured,
                 stateLabel := LabelSuccess)
  }

  /** A session in which the helper does not index an empty group list. */
  predicate NoPanic(p: Profile, s: Session) {
    s.sockets == 0 || HasFirstGroup(p, s.sockets)
  }

  /** The loop of the helper on an accepted profile, run to its end. */
  function RunLoop(node: NodeConfig, m: Manager, p: Profile, s: Session): Loop
    requires Validate(p, s.sockets) == Accepted
  {
    AllocationFits(p, s.sockets);
    var plan := PlanOf(node, p, s.sockets);
    After(m, plan, s.answers, |plan.reqs|)
  }

  function Helper(node: NodeConfig, m: Manager, p: Profile, s: Session): Manager
    requires NoPanic(p, s)
  {
    if s.sockets == 0 then m.(reason := NoSockets, stateLabel := LabelFailure)
    else
      var v := Validate(p, s.sockets);
      if v != Accepted then m.(reason := InvalidProfile(v), stateLabel := LabelFailure)
      else Conclude(RunLoop(node, m, p, s))
  }

  // ----- PartitionGPU -----

  datatype Prepared = Stopped(mgr: Manager) | Opened(mgr: Manager, profile: Profile)

  function Stop(m: Manager, reason: Reason): Prepared {
    Stopped(m.(reason := reason, stateLabel := LabelFailure))
  }

  /** Everything before the helper: reading the config file and opening AMD SMI. */
  function Prepare(m: Manager, name: string, file: ConfigFile, initOk: bool): Prepared {
    var m0 := m.(selected := name, gpus := [], final := FinalFailure);
    match file
    case Missing => Stop(m0, ConfigMissing)
    case Present(None, _) => Stop(m0, InvalidJson)
    case Present(Some(entries), _) =>
      if Duplicates.Repeated(Duplicates.Names(entries)) != [] then Stop(m0, DuplicateNames)
      else
        var profiles := Duplicates.LastWins(entries);
        if name !in profiles then Stop(m0, ProfileMissing)
        else if !initOk then Stop(m0, InitFailed)
        else Opened(m0, profiles[name])
  }

  /** The state after one `PartitionGPU` call, and whether it returned an error. */
  datatype Outcome = Outcome(mgr: Manager, err: bool)

  predicate Runnable(m: Manager, name: string, file: ConfigFile, initOk: bool, s: Session) {
    var prep := Prepare(m, name, file, initOk);
    prep.Opened? ==> NoPanic(prep.profile, s)
  }

  function PartitionGpu(node: NodeConfig, m: Manager, name: string, file: ConfigFile, initOk: bool, s: Session): Outcome
    requires Runnable(m, name, file, initOk, s)
  {
    match Prepare(m, name, file, initOk)
    case Stopped(mgr) => Outcome(mgr, false)
    case Opened(mgr, profile) =>
      var done := Helper(node, mgr, profile, s);
      Outcome(done, done.failed)
  }
}
