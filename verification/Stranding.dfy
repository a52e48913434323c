/**
 Two concrete interleavings that leave a service stopped: a run that stops on an
 unreadable config file, and a run that finishes with a list which no longer names
 a service stopped by a cancelled run.
 */
module Stranding {
  import opened Wrappers
  import opened Engine
  import opened System
  import opened Settling
  import opened Restoration
  import opened Witnesses
  import opened S = Services

  const UNIT := "agent.service"
  const RUNNING: Units := map[UNIT := ACTIVE]
  const FILE := Present(Some([("p", ONE_GPU)]), Some([UNIT]))
  const RECORDED := map[UNIT := ServicePreState(UNIT, ACTIVE)]

  /** The host once the service was recorded and stopped. */
  predicate StoppedHost(h: Host) {
    h.db == RECORDED && h.units == RUNNING[UNIT := "inactive"]
  }

  lemma UnitIsNormal()
    ensures Normal(UNIT) == UNIT
  {
    assert UNIT[|UNIT| - |SUFFIX|..] == SUFFIX;
  }

  /** From the start to the first run. */
  lemma FirstRun(node: NodeConfig) returns (s: State)
    ensures CalmlyReachable(s, None)
    ensures s == Init(node, RUNNING, FILE).(
                   worker := Idle, cancelTarget := Some(0), wg := 1,
                   runs := [Run("p", false, Begin, [], 0, 0, 0, None, false, 0)],
                   triggers := [Trigger("p", 0, 0, true)])
  {
    hide CalmlyReachable, RunStep, RunEnabled;
    var s0 := Init(node, RUNNING, FILE);
    InitCalm(node, RUNNING, FILE);
    var s1 := Apply(s0, Request("p"));
    CalmStep(s0, Request("p"));
    var s2 := Apply(s1, Receive);
    CalmStep(s1, Receive);
    var s3 := Apply(s2, Check);
    CalmStep(s2, Check);
    s := Apply(s3, Spawn);
    CalmStep(s3, Spawn);
  }

  /** To the point where the service list was read and the first head check is due. */
  lemma ToHead(s: State) returns (s': State)
    requires CalmlyReachable(s, None) && |s.runs| == 1 && s.runs[0].pc.Begin? && s.file == FILE
    ensures CalmlyReachable(s', None)
    ensures s' == s.(mgr := s'.mgr, runs := [s.runs[0].(pc := Head, begun := s.clock, services := [UNIT])])
  {
    hide CalmlyReachable, Prepare, Helper, StopOne, StartOne;
    var s1 := Apply(s, SetLabel(0));
    CalmStep(s, SetLabel(0));
    s' := Apply(s1, LoadConfig(0));
    CalmStep(s1, LoadConfig(0));
  }

  /** The service is recorded and stopped. */
  lemma ToCalling(s: State) returns (s': State)
    requires CalmlyReachable(s, None) && |s.runs| == 1 && s.runs[0].services == [UNIT] && s.runs[0].pc.Head?
    requires !s.runs[0].cancelled && s.clock == s.runs[0].begun && s.host == Host(map[], RUNNING)
    ensures CalmlyReachable(s', None) && StoppedHost(s'.host) && s'.base == Some(RUNNING)
    ensures s' == s.(host := s'.host, base := s'.base, clock := s.clock + 10, runs := [s.runs[0].(pc := Calling)])
  {
    hide CalmlyReachable, Prepare, Helper, StartOne, Normal;
    UnitIsNormal();
    var s1 := Apply(s, CheckHead(0));
    CalmStep(s, CheckHead(0));
    var s2 := Apply(s1, Tick(10));
    CalmStep(s1, Tick(10));
    var stop := UnitAnswer(ACTIVE, true, true, "inactive");
    assert s2.runs[0].services[0] == UNIT && StatusOf(RUNNING, UNIT) == ACTIVE;
    s' := Apply(s2, StopStep(0, stop));
    CalmStep(s2, StopStep(0, stop));
  }

  /** The attempt fails and the run waits. */
  lemma ToWaiting(s: State) returns (s': State)
    requires CalmlyReachable(s, None) && |s.runs| == 1 && s.runs[0].pc.Calling? && s.runs[0].profile == "p"
    requires s.file == FILE
    ensures CalmlyReachable(s', None) && |s'.runs| == 1 && s'.runs[0].pc.Waiting?
    ensures s'.runs[0].cancelled == s.runs[0].cancelled
    ensures s'.host == s.host && s'.base == s.base && s'.worker == s.worker && s'.slot == s.slot
    ensures s'.cancelTarget == s.cancelTarget && s'.wg == s.wg
  {
    hide CalmlyReachable, Prepare, Helper, StopOne, StartOne;
    OneEntry(s.mgr, ONE_GPU, s.file);
    var s1 := Apply(s, Enter(0, true));
    CalmStep(s, Enter(0, true));
    var p, session := RefusedCompute(s.node, s1.mgr);
    s' := Apply(s1, Leave(0, session));
    CalmStep(s1, Leave(0, session));
  }

  /** A new request cancels the run, which ends in its wait. */
  lemma ToReady(s: State) returns (s': State)
    requires CalmlyReachable(s, None) && |s.runs| == 1 && s.runs[0].pc.Waiting? && s.slot.None? && s.worker.Idle?
    requires s.cancelTarget == Some(0) && s.wg == 1
    ensures CalmlyReachable(s', None) && |s'.runs| == 1 && s'.runs[0].pc.Done? && s'.worker.Ready? && s'.slot.None?
    ensures s'.host == s.host && s'.base == s.base
  {
    hide CalmlyReachable, Prepare, Helper, StopOne, StartOne;
    var s1 := Apply(s, Request("p"));
    CalmStep(s, Request("p"));
    var s2 := Apply(s1, Receive);
    CalmStep(s1, Receive);
    var s3 := Apply(s2, Check);
    CalmStep(s2, Check);
    var s4 := Apply(s3, WaitCancelled(0));
    CalmStep(s3, WaitCancelled(0));
    s' := Apply(s4, WaitDone);
    CalmStep(s4, WaitDone);
  }

  /** The file becomes unreadable and the next run stops on it. */
  lemma ToRest(s: State) returns (s': State)
    requires CalmlyReachable(s, None) && |s.runs| == 1 && s.runs[0].pc.Done? && s.worker.Ready? && s.slot.None?
    ensures CalmlyReachable(s', None) && Quiescent(s') && s'.runs != [] && Last(s').pc == Done(BadConfig)
    ensures s'.host == s.host && s'.base == s.base
  {
    hide CalmlyReachable, Prepare, Helper, StopOne, StartOne;
    var s1 := Apply(s, EditFile(Missing));
    CalmStep(s, EditFile(Missing));
    var s2 := Apply(s1, Spawn);
    CalmStep(s1, Spawn);
    var s3 := Apply(s2, SetLabel(1));
    CalmStep(s2, SetLabel(1));
    s' := Apply(s3, LoadConfig(1));
    CalmStep(s3, LoadConfig(1));
  }

  /**
   The system can come to rest with a service stopped that was active at the first
   stop, even though every status query was true and every stop and start effective.
   */
  lemma ServiceStranded(node: NodeConfig) returns (s: State)
    ensures CalmlyReachable(s, None) && Quiescent(s)
    ensures s.base.Some? && Active(s.base.value, UNIT) && !Active(s.host.units, UNIT)
  {
    hide CalmlyReachable, Quiescent;
    s := FirstRun(node);
    s := ToHead(s);
    s := ToCalling(s);
    s := ToWaiting(s);
    s := ToReady(s);
    s := ToRest(s);
  }

  // ----- a shorter list -----

  /** The file is edited and the next run reads the list without the service. */
  lemma ToSecondHead(s: State) returns (s': State)
    requires CalmlyReachable(s, None) && |s.runs| == 1 && s.runs[0].pc.Done? && s.worker.Ready?
    ensures CalmlyReachable(s', None) && |s'.runs| == 2 && s'.file == EMPTY_FILE
    ensures s'.runs[1].pc.Head? && !s'.runs[1].cancelled && s'.runs[1].services == [] && s'.runs[1].begun == s'.clock
    ensures s'.host == s.host && s'.base == s.base
  {
    hide CalmlyReachable, Prepare, Helper, StopOne, StartOne;
    var s1 := Apply(s, EditFile(EMPTY_FILE));
    CalmStep(s, EditFile(EMPTY_FILE));
    var s2 := Apply(s1, Spawn);
    CalmStep(s1, Spawn);
    var s3 := Apply(s2, SetLabel(1));
    CalmStep(s2, SetLabel(1));
    s' := Apply(s3, LoadConfig(1));
    CalmStep(s3, LoadConfig(1));
  }

  /** The second run completes up to its last step. */
  lemma ToFinish(s: State) returns (s': State)
    requires CalmlyReachable(s, None) && |s.runs| == 2 && s.file == EMPTY_FILE
    requires s.runs[1].pc.Head? && !s.runs[1].cancelled && s.runs[1].services == [] && s.runs[1].begun == s.clock
    ensures CalmlyReachable(s', None) && |s'.runs| == 2 && s'.runs[1].pc == Starting(0, Completed)
    ensures s'.runs[1].services == []
    ensures s'.host == s.host && s'.base == s.base
  {
    hide CalmlyReachable, Prepare, Helper, StopOne, StartOne;
    var s1 := Apply(s, CheckHead(1));
    CalmStep(s, CheckHead(1));
    NoProfiles(s1.mgr, s1.runs[1].profile);
    s' := Apply(s1, Enter(1, true));
    CalmStep(s1, Enter(1, true));
  }

  /**
   The system can reach a state in which a run finishes with a list that does not
   cover the records: the service active at the first stop stays down, and its
   record is gone.
   */
  lemma ServiceDroppedFromList(node: NodeConfig) returns (s: State)
    ensures CalmlyReachable(s, None) && Enabled(s, Finish(1)) && s.runs[1].pc.ending == Completed
    ensures !CoversRecords(s.host, s.runs[1].services)
    ensures s.base.Some? && Active(s.base.value, UNIT)
    ensures !Active(Apply(s, Finish(1)).host.units, UNIT) && Apply(s, Finish(1)).host.db == map[]
  {
    hide CalmlyReachable, Quiescent;
    s := FirstRun(node);
    s := ToHead(s);
    s := ToCalling(s);
    s := ToWaiting(s);
    s := ToReady(s);
    s := ToSecondHead(s);
    s := ToFinish(s);
    assert Recorded(s.host.db, UNIT) == ACTIVE && !Listed([], 0, UNIT);
  }
}
