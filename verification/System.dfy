/**
 The retry and cancel protocol as interleaved steps of the watchers that trigger,
 the one worker, the runs it spawns, the clock, and the outside world. The steps of
 a run use the engine and the service handlers of the other modules.
 */
module System {
  import opened Wrappers
  import opened Profiles
  import opened Engine
  import S = Services

  const RETRY_WINDOW := 1800   // 30 minutes
  const RETRY_WAIT := 60       // 1 minute
  const STATUS_DELAY := 10     // every status query sleeps this long

  // ----- state -----

  /** How a run ended. */
  datatype Ending = Cancelled | BadConfig | Completed | Expired

  /** Where a run is in `RetryPartition`. */
  datatype Pc =
    | Begin                                   // about to set the label "in-progress"
    | Load                                    // about to compute the expiry and read the service list
    | Head                                    // at the head of the retry loop
    | Stopping(k: nat, since: nat)            // stopping service k, its status query began at `since`
    | Calling                                 // about to call PartitionGPU
    | Inside(profile: Profile)                // in the helper, with an AMD SMI session open
    | Waiting(since: nat)                     // in the one-minute wait
    | Starting(k: nat, ending: Ending)        // restarting service k
    | Done(ending: Ending)

  /** A run; the last four fields only record history. */
  datatype Run = Run(
    profile: string,
    cancelled: bool,
    pc: Pc,
    services: seq<string>,
    begun: nat,
    attempts: nat,
    spawnVersion: nat,
    readVersion: Option<nat>,
    cancelledPastHead: bool,
    late: nat)

  datatype Worker =
    | Idle                      // blocked on the channel
    | Holding(profile: string)  // received a request
    | Draining(profile: string) // cancelled the current run, in wg.Wait()
    | Ready(profile: string)    // about to spawn

  /** A trigger: its profile, the file version then, the runs spawned before it, whether the slot took it. */
  datatype Trigger = Trigger(profile: string, version: nat, runsBefore: nat, accepted: bool)

  datatype State = State(
    node: NodeConfig,
    slot: Option<string>,        // retryCh
    worker: Worker,
    cancelTarget: Option<nat>,   // the run cancelFunc cancels
    wg: int,                     // the wait group
    runs: seq<Run>,              // every run ever spawned, in order
    clock: nat,                  // seconds
    mgr: Manager,
    host: S.Host,
    base: Option<S.Units>,       // history: the units at the first stop since the last cleanup
    sessionsOpened: nat,         // AMD SMI sessions opened and closed so far
    sessionsClosed: nat,
    file: ConfigFile,
    version: nat,                // counts the edits of the file
    triggers: seq<Trigger>)      // history

  function Init(node: NodeConfig, units: S.Units, file: ConfigFile): State {
    State(node, None, Idle, None, 0, [], 0, Manager("", NoFinal, NoReason, [], false, Absent, []),
          S.Host(map[], units), None, 0, 0, file, 0, [])
  }

  // ----- events -----

  datatype Event =
    // the outside world
    | Request(profile: string)                       // TriggerRetryLoop
    | EditFile(file: ConfigFile)
    | Tick(seconds: nat)
    | ChangeUnits(units: S.Units)
    // the worker
    | Receive
    | Check
    | WaitDone
    | Spawn
    // run `id`
    | SetLabel(id: nat)
    | LoadConfig(id: nat)
    | CheckHead(id: nat)
    | StopStep(id: nat, answer: S.UnitAnswer)
    | Enter(id: nat, initOk: bool)
    | Leave(id: nat, session: Session)
    | WaitElapsed(id: nat)
    | WaitCancelled(id: nat)
    | StartStep(id: nat, answer: S.UnitAnswer)
    | Finish(id: nat)

  predicate IsRunEvent(e: Event) {
    !(e.Request? || e.EditFile? || e.Tick? || e.ChangeUnits? || e.Receive? || e.Check? || e.WaitDone? || e.Spawn?)
  }

  /** A run that computed its expiry and did not check it yet: no time passes here. */
  predicate Fresh(r: Run) {
    r.pc.Head? && r.attempts == 0
  }

  predicate RunEnabled(s: State, r: Run, e: Event)
    requires IsRunEvent(e)
  {
    match e
    case SetLabel(_) => r.pc.Begin?
    case LoadConfig(_) => r.pc.Load?
    case CheckHead(_) => r.pc.Head?
    case StopStep(_, _) => r.pc.Stopping? && r.pc.k < |r.services| && s.clock >= r.pc.since + STATUS_DELAY
    case Enter(_, _) => r.pc.Calling?
    case Leave(_, session) => r.pc.Inside? && NoPanic(r.pc.profile, session)
    case WaitElapsed(_) => r.pc.Waiting? && s.clock >= r.pc.since + RETRY_WAIT
    case WaitCancelled(_) => r.pc.Waiting? && r.cancelled
    case StartStep(_, _) => r.pc.Starting? && r.pc.k < |r.services|
    case Finish(_) => r.pc.Starting? && r.pc.k == |r.services|
  }

  predicate Enabled(s: State, e: Event) {
    match e
    case Request(_) => true
    case EditFile(_) => true
    case ChangeUnits(_) => true
    case Tick(_) => forall r <- s.runs :: !Fresh(r)
    case Receive => s.worker.Idle? && s.slot.Some?
    case Check => s.worker.Holding? && (s.cancelTarget.Some? ==> s.cancelTarget.value < |s.runs|)
    case WaitDone => s.worker.Draining? && s.wg == 0
    case Spawn => s.worker.Ready?
    case _ => e.id < |s.runs| && RunEnabled(s, s.runs[e.id], e)
  }

  // ----- steps of the worker and the watchers -----

  /** A send that does not block: a full slot drops the request. */
  function Send(s: State, profile: string): State {
    s.(slot := if s.slot.None? then Some(profile) else s.slot,
       triggers := s.triggers + [Trigger(profile, s.version, |s.runs|, s.slot.None?)])
  }

  function PastHead(pc: Pc): bool {
    pc.Stopping? || pc.Calling?
  }

  function Cancel(r: Run): Run {
    if r.cancelled then r else r.(cancelled := true, cancelledPastHead := PastHead(r.pc))
  }

  function CheckWorker(s: State): State
    requires Enabled(s, Check)
  {
    match s.cancelTarget
    case None => s.(worker := Ready(s.worker.profile))
    case Some(id) => s.(worker := Draining(s.worker.profile), runs := s.runs[id := Cancel(s.runs[id])])
  }

  function NewRun(s: State, profile: string): Run {
    Run(profile, false, Begin, [], 0, 0, s.version, None, false, 0)
  }

  function SpawnRun(s: State): State
    requires s.worker.Ready?
  {
    s.(worker := Idle, cancelTarget := Some(|s.runs|), wg := s.wg + 1, runs := s.runs + [NewRun(s, s.worker.profile)])
  }

  // ----- steps of a run -----

  /** The state and the run after one of its own steps, before the run is put back. */
  datatype Stepped = Stepped(s: State, r: Run)

  /** `defer wg.Done()` */
  function End(s: State, r: Run, ending: Ending): Stepped {
    Stepped(s.(wg := s.wg - 1), r.(pc := Done(ending)))
  }

  function NextStop(r: Run, k: nat, clock: nat): Pc {
    if k == |r.services| then Calling else Stopping(k, clock)
  }

  function LoadStep(s: State, r: Run): Stepped {
    var r' := r.(begun := s.clock);
    if s.file.Missing? || s.file.services.None? then
      End(s.(mgr := s.mgr.(reason := InvalidJson, stateLabel := LabelFailure)), r', BadConfig)
    else Stepped(s, r'.(services := s.file.services.value, pc := Head))
  }

  function HeadStep(s: State, r: Run): Stepped {
    if r.cancelled then End(s, r, Cancelled)
    else if s.clock > r.begun + RETRY_WINDOW then Stepped(s, r.(pc := Starting(0, Expired)))
    else Stepped(s, r.(pc := NextStop(r, 0, s.clock)))
  }

  function StopServiceStep(s: State, r: Run, a: S.UnitAnswer): Stepped
    requires r.pc.Stopping? && r.pc.k < |r.services|
  {
    var base := if s.host.db == map[] then Some(s.host.units) else s.base;
    Stepped(s.(host := S.StopOne(s.host, r.services[r.pc.k], a), base := base),
            r.(pc := NextStop(r, r.pc.k + 1, s.clock)))
  }

  function EnterStep(s: State, r: Run, initOk: bool): Stepped {
    var r' := r.(attempts := r.attempts + 1,
                 readVersion := Some(s.version),
                 late := if r.cancelled then r.late + 1 else r.late);
    match Prepare(s.mgr, r.profile, s.file, initOk)
    case Stopped(m) => Stepped(s.(mgr := m), r'.(pc := Starting(0, Completed)))
    case Opened(m, p) => Stepped(s.(mgr := m, sessionsOpened := s.sessionsOpened + 1), r'.(pc := Inside(p)))
  }

  function LeaveStep(s: State, r: Run, session: Session): Stepped
    requires r.pc.Inside? && NoPanic(r.pc.profile, session)
  {
    var m := Helper(s.node, s.mgr, r.pc.profile, session);
    var s' := s.(sessionsClosed := s.sessionsClosed + 1);
    if m.failed then
      var m' := if r.attempts == 1 then m.(final := FinalRetrying, reason := Retrying) else m;
      Stepped(s'.(mgr := m'), r.(pc := Waiting(s.clock)))
    else Stepped(s'.(mgr := m), r.(pc := Starting(0, Completed)))
  }

  function RunStep(s: State, r: Run, e: Event): Stepped
    requires IsRunEvent(e) && RunEnabled(s, r, e)
  {
    match e
    case SetLabel(_) => Stepped(s.(mgr := s.mgr.(stateLabel := InProgress)), r.(pc := Load))
    case LoadConfig(_) => LoadStep(s, r)
    case CheckHead(_) => HeadStep(s, r)
    case StopStep(_, a) => StopServiceStep(s, r, a)
    case Enter(_, initOk) => EnterStep(s, r, initOk)
    case Leave(_, session) => LeaveStep(s, r, session)
    case WaitElapsed(_) => Stepped(s, r.(pc := Head))
    case WaitCancelled(_) => End(s, r, Cancelled)
    case StartStep(_, a) =>
      Stepped(s.(host := S.StartOne(s.host, r.services[r.pc.k], a)), r.(pc := Starting(r.pc.k + 1, r.pc.ending)))
    case Finish(_) => End(s.(host := S.Cleanup(s.host), base := None), r, r.pc.ending)
  }

  function Apply(s: State, e: Event): State
    requires Enabled(s, e)
  {
    match e
    case Request(profile) => Send(s, profile)
    case EditFile(file) => s.(file := file, version := s.version + 1)
    case Tick(seconds) => s.(clock := s.clock + seconds)
    case ChangeUnits(units) => s.(host := s.host.(units := units))
    case Receive => s.(slot := None, worker := Holding(s.slot.value))
    case Check => CheckWorker(s)
    case WaitDone => s.(worker := Ready(s.worker.profile))
    case Spawn => SpawnRun(s)
    case _ =>
      var stepped := RunStep(s, s.runs[e.id], e);
      stepped.s.(runs := s.runs[e.id := stepped.r])
  }

  // ----- whole runs of the system -----

  predicate Legal(s: State, events: seq<Event>)
    decreases |events|
  {
    events == [] || (Enabled(s, events[0]) && Legal(Apply(s, events[0]), events[1..]))
  }

  function Exec(s: State, events: seq<Event>): State
    requires Legal(s, events)
    decreases |events|
  {
    if events == [] then s else Exec(Apply(s, events[0]), events[1..])
  }

  /** `s` is the state after some finite interleaving from a start of the program. */
  ghost predicate Reachable(s: State) {
    exists node: NodeConfig, units: S.Units, file: ConfigFile, events: seq<Event> ::
      Legal(Init(node, units, file), events) && s == Exec(Init(node, units, file), events)
  }

  lemma {:induction false} ExecAppend(s: State, events: seq<Event>, e: Event)
    requires Legal(s, events) && Enabled(Exec(s, events), e)
    ensures Legal(s, events + [e]) && Exec(s, events + [e]) == Apply(Exec(s, events), e)
    decreases |events|
  {
    hide Apply, Enabled;
    if events == [] {
      assert events + [e] == [e] && [e][1..] == [];
    } else {
      ExecAppend(Apply(s, events[0]), events[1..], e);
      assert (events + [e])[1..] == events[1..] + [e];
    }
  }

  lemma InitReachable(node: NodeConfig, units: S.Units, file: ConfigFile)
    ensures Reachable(Init(node, units, file))
  {
    var s := Init(node, units, file);
    assert Legal(s, []) && s == Exec(s, []);
  }

  lemma StepReachable(s: State, e: Event)
    requires Reachable(s) && Enabled(s, e)
    ensures Reachable(Apply(s, e))
  {
    hide Apply, Enabled;
    var node, units, file, events :|
      Legal(Init(node, units, file), events) && s == Exec(Init(node, units, file), events);
    ExecAppend(Init(node, units, file), events, e);
  }

  /** The current run, if any: the last one spawned. */
  function Last(s: State): Run
    requires s.runs != []
  {
    s.runs[|s.runs| - 1]
  }

  predicate Live(r: Run) {
    !r.pc.Done?
  }

  /** No request is buffered or held by the worker, and no run is live. */
  predicate Quiescent(s: State) {
    s.slot.None? && s.worker.Idle? && forall r <- s.runs :: !Live(r)
  }
}
