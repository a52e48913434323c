/**
 The state label and the config file at rest: what holds whenever the system is
 quiescent.
 */
module Settling {
  import opened Wrappers
  import opened Engine
  import opened EngineFacts
  import opened System
  import opened Serialisation
  import opened Timing
  import opened Witnesses
  import Duplicates
  import S = Services

  /** Label and final status agree on the outcome. */
  predicate Agreed(m: Manager) {
    || (m.stateLabel == LabelSuccess && m.final == FinalSuccess)
    || (m.stateLabel == LabelFailure && m.final != FinalSuccess)
  }

  /** Both report a failure. */
  predicate Failed(m: Manager) {
    m.stateLabel == LabelFailure && m.final != FinalSuccess
  }

  /** The report between attempts: "in-progress" before the first, the failure of the last one after it. */
  predicate Between(m: Manager, attempts: nat) {
    if attempts == 0 then m.stateLabel == InProgress
    else if attempts == 1 then m.stateLabel == LabelFailure && m.final == FinalRetrying && m.reason == Retrying
    else m.stateLabel == LabelFailure && m.final == FinalFailure
  }

  /** Label and final status around the current run. */
  predicate LabelOk(m: Manager, r: Run) {
    && (r.attempts > 0 ==> m.selected == r.profile)
    && match r.pc
       case Begin => true
       case Inside(_) => m.final == FinalFailure && m.stateLabel == if r.attempts <= 1 then InProgress else LabelFailure
       case Starting(_, ending) => if ending.Completed? then Agreed(m) else Failed(m)
       case Done(Completed) => Agreed(m)
       case Done(Expired) => Failed(m)
       case Done(BadConfig) => m.stateLabel == LabelFailure && m.reason == InvalidJson
       case _ => Between(m, r.attempts)
  }

  ghost predicate Labelled(s: State) {
    s.runs != [] ==> LabelOk(s.mgr, Last(s))
  }

  lemma PrepareLabel(m: Manager, name: string, file: ConfigFile, initOk: bool)
    ensures var prep := Prepare(m, name, file, initOk);
            && prep.mgr.final == FinalFailure && prep.mgr.selected == name
            && prep.mgr.stateLabel == if prep.Stopped? then LabelFailure else m.stateLabel
  {
  }

  lemma RunStepLabel(s: State, r: Run, e: Event)
    requires IsRunEvent(e) && RunEnabled(s, r, e) && Bounded(r) && OnTime(s.clock, r) && LabelOk(s.mgr, r)
    ensures LabelOk(RunStep(s, r, e).s.mgr, RunStep(s, r, e).r)
  {
    hide Helper, Prepare, S.StopOne, S.StartOne, Total;
    if e.Enter? {
      PrepareLabel(s.mgr, r.profile, s.file, e.initOk);
    } else if e.Leave? {
      HelperLabel(s.node, s.mgr, r.pc.profile, e.session);
    }
  }

  lemma LabelKept(s: State, e: Event)
    requires Inv(s) && AllOnTime(s) && Labelled(s) && Enabled(s, e)
    ensures Labelled(Apply(s, e))
  {
    hide RunStep, RunEnabled, OnTime, Bounded;
    if IsRunEvent(e) {
      OnlyLastMoves(s, e);
      assert Last(s) in s.runs;
      RunStepLabel(s, Last(s), e);
    }
  }

  lemma {:induction false} ExecLabelled(s: State, events: seq<Event>)
    requires Inv(s) && AllOnTime(s) && Labelled(s) && Legal(s, events)
    ensures Labelled(Exec(s, events))
    decreases |events|
  {
    hide Apply, Enabled, Inv, AllOnTime, Labelled;
    if events != [] {
      StepKeeps(s, events[0]);
      OnTimeKept(s, events[0]);
      LabelKept(s, events[0]);
      ExecLabelled(Apply(s, events[0]), events[1..]);
    }
  }

  lemma ReachableLabelled(s: State)
    requires Reachable(s)
    ensures Labelled(s)
  {
    hide Apply, Enabled;
    var node, units, file, events :|
      Legal(Init(node, units, file), events) && s == Exec(Init(node, units, file), events);
    ExecLabelled(Init(node, units, file), events);
  }

  /**
   The label settles: whenever no run is live and no request is buffered or held
   by the worker, and at least one request was handled, the label is "success" or
   "failure". It is "failure" if the last run expired or stopped on an unreadable
   file, and except in the latter case it is "success" exactly when the final
   status is.
   */
  lemma LabelSettles(s: State)
    requires Reachable(s) && Quiescent(s) && s.runs != []
    ensures s.mgr.stateLabel == LabelSuccess || s.mgr.stateLabel == LabelFailure
    ensures Last(s).pc.Done?
    ensures Last(s).pc.ending.Expired? || Last(s).pc.ending.BadConfig? ==> s.mgr.stateLabel == LabelFailure
    ensures Last(s).pc.ending.BadConfig? ==> s.mgr.reason == InvalidJson
    ensures !Last(s).pc.ending.BadConfig? ==> (s.mgr.stateLabel == LabelSuccess <==> s.mgr.final == FinalSuccess)
  {
    ReachableLabelled(s);
    ReachableOnTime(s);
    ReachableInv(s);
    assert Last(s) in s.runs;
  }

  /**
   No lost change of the config file: when the system is quiescent, every trigger,
   even a dropped one, was followed by the spawn of the last run. That run was not
   cancelled, and unless it stopped on an unreadable file it read the file as it
   was at the trigger or later.
   */
  lemma NoLostChange(s: State, k: nat)
    requires Reachable(s) && Quiescent(s) && k < |s.triggers|
    ensures s.runs != [] && s.triggers[k].runsBefore < |s.runs|
    ensures Last(s).pc.Done? && Last(s).pc.ending != Cancelled
    ensures Last(s).pc.ending != BadConfig ==>
              Last(s).readVersion.Some? && s.triggers[k].version <= Last(s).readVersion.value
  {
    ReachableInv(s);
    ReachableOnTime(s);
    assert Remembered(s, s.triggers[k]);
    assert Last(s) in s.runs;
  }

  /**
   The same is false of the profile a dropped trigger carries: two requests in a
   row, and the system comes to rest without any run of the second profile.
   */
  lemma DroppedProfileIsLost(node: NodeConfig, units: S.Units, first: string, second: string) returns (s: State)
    requires first != second
    ensures Reachable(s) && Quiescent(s)
    ensures exists tr <- s.triggers :: tr.profile == second && !tr.accepted && forall r <- s.runs :: r.profile != second
  {
    hide Reachable, RunStep;
    var s0 := Init(node, units, EMPTY_FILE);
    InitReachable(node, units, EMPTY_FILE);
    var s1 := Apply(s0, Request(first));
    StepReachable(s0, Request(first));
    var s2 := Apply(s1, Request(second));
    StepReachable(s1, Request(second));
    var s3 := Apply(s2, Receive);
    StepReachable(s2, Receive);
    var s4 := Apply(s3, Check);
    StepReachable(s3, Check);
    var s5 := Apply(s4, Spawn);
    StepReachable(s4, Spawn);
    s := IdleRun(s5);
    assert s.triggers[1] in s.triggers && s.triggers[1].profile == second;
  }

  /** A config file without profiles and without services. */
  const EMPTY_FILE := Present(Some([]), Some([]))

  /** A fresh run on such a file finds no profile and completes in one attempt. */
  lemma IdleRun(s: State) returns (s': State)
    requires Reachable(s) && |s.runs| == 1 && s.runs[0].pc.Begin? && !s.runs[0].cancelled && s.runs[0].attempts == 0
    requires s.file == EMPTY_FILE
    ensures Reachable(s') && |s'.runs| == 1 && s'.runs[0].pc == Done(Completed)
    ensures s'.runs[0].profile == s.runs[0].profile
    ensures s'.slot == s.slot && s'.worker == s.worker && s'.triggers == s.triggers
  {
    hide Reachable, Helper, S.StopOne, S.StartOne, Prepare;
    var s1 := Apply(s, SetLabel(0));
    StepReachable(s, SetLabel(0));
    var s2 := Apply(s1, LoadConfig(0));
    StepReachable(s1, LoadConfig(0));
    s' := IdleAttempt(s2);
  }

  lemma IdleAttempt(s: State) returns (s': State)
    requires Reachable(s) && |s.runs| == 1 && s.runs[0].pc.Head? && !s.runs[0].cancelled
    requires s.file == EMPTY_FILE && s.runs[0].services == [] && s.clock == s.runs[0].begun
    ensures Reachable(s') && |s'.runs| == 1 && s'.runs[0].pc == Done(Completed)
    ensures s'.runs[0].profile == s.runs[0].profile
    ensures s'.slot == s.slot && s'.worker == s.worker && s'.triggers == s.triggers
  {
    hide Reachable, Helper, S.StopOne, S.StartOne, Prepare;
    var s3 := Apply(s, CheckHead(0));
    StepReachable(s, CheckHead(0));
    NoProfiles(s3.mgr, s3.runs[0].profile);
    var s4 := Apply(s3, Enter(0, true));
    StepReachable(s3, Enter(0, true));
    s' := Apply(s4, Finish(0));
    StepReachable(s4, Finish(0));
  }

  lemma NoProfiles(m: Manager, name: string)
    ensures Prepare(m, name, EMPTY_FILE, true).Stopped?
  {
  }

  /**
   What is reported while a run is under way: "in-progress" until the first attempt
   has an outcome, after a failed attempt the label "failure" with the final status
   "retrying" (the first time) or "Failure"; and from the first attempt on the
   selected profile is that of the run.
   */
  lemma ReportUnderWay(s: State)
    requires Reachable(s) && s.runs != [] && !Last(s).pc.Begin? && !Last(s).pc.Starting? && !Last(s).pc.Done?
    ensures Last(s).attempts > 0 ==> s.mgr.selected == Last(s).profile
    ensures Last(s).attempts == 0 ==> s.mgr.stateLabel == InProgress
    ensures Last(s).attempts == 1 ==>
              if Last(s).pc.Inside? then s.mgr.stateLabel == InProgress && s.mgr.final == FinalFailure
              else s.mgr.stateLabel == LabelFailure && s.mgr.final == FinalRetrying && s.mgr.reason == Retrying
    ensures Last(s).attempts > 1 ==> s.mgr.stateLabel == LabelFailure && s.mgr.final == FinalFailure
  {
    ReachableLabelled(s);
    ReachableOnTime(s);
    assert Last(s) in s.runs;
  }

  /**
   An attempt looks up the profile of its own run in the file as it is now: it gets
   into the helper exactly with the one entry of that name, and completes otherwise.
   */
  lemma AttemptUsesOwnProfile(s: State, id: nat, initOk: bool)
    requires Enabled(s, Enter(id, initOk))
    ensures var r, r' := s.runs[id], Apply(s, Enter(id, initOk)).runs[id];
            && Apply(s, Enter(id, initOk)).mgr.selected == r.profile
            && r'.attempts == r.attempts + 1
            && (r'.pc.Inside? || r'.pc == Starting(0, Completed))
            && (r'.pc.Inside? <==> initOk && HasOneEntry(s.file, r.profile))
            && (r'.pc.Inside? ==> (r.profile, r'.pc.profile) in s.file.profiles.value)
  {
    hide Duplicates.LastWins, Duplicates.Repeated, Prepare;
    var name := s.runs[id].profile;
    PrepareExact(s.mgr, name, s.file, initOk);
    PrepareLabel(s.mgr, name, s.file, initOk);
    if Prepare(s.mgr, name, s.file, initOk).Opened? {
      var entries := s.file.profiles.value;
      var i :| 0 <= i < |entries| && Duplicates.Names(entries)[i] == name;
      assert entries[i] == (name, Prepare(s.mgr, name, s.file, initOk).profile);
    }
  }

  /** The file decodes, no two entries have the same name, and one has this name. */
  ghost predicate HasOneEntry(file: ConfigFile, name: string) {
    && file.Present? && file.profiles.Some?
    && var entries := file.profiles.value;
       && (forall i, j :: 0 <= i < j < |entries| ==> entries[i].0 != entries[j].0)
       && exists i: nat :: i < |entries| && entries[i].0 == name
  }

  // ----- a final status left over -----

  const ONE_FILE := Present(Some([("p", ONE_GPU)]), Some([]))

  /** From a start to the first run. */
  lemma FirstSpawn(node: NodeConfig, units: S.Units, file: ConfigFile) returns (s: State)
    ensures Reachable(s) && s.node == node && s.file == file && s.slot.None? && s.worker.Idle?
    ensures s.cancelTarget == Some(0) && s.wg == 1
    ensures |s.runs| == 1 && s.runs[0].pc.Begin? && s.runs[0].profile == "p" && !s.runs[0].cancelled
    ensures s.runs[0].attempts == 0
  {
    hide Reachable, RunStep;
    var s0 := Init(node, units, file);
    InitReachable(node, units, file);
    var s1 := Apply(s0, Request("p"));
    StepReachable(s0, Request("p"));
    var s2 := Apply(s1, Receive);
    StepReachable(s1, Receive);
    var s3 := Apply(s2, Check);
    StepReachable(s2, Check);
    s := Apply(s3, Spawn);
    StepReachable(s3, Spawn);
  }

  /** The first run is about to call `PartitionGPU`. */
  lemma FirstCall(s: State) returns (s': State)
    requires Reachable(s) && s.file == ONE_FILE && |s.runs| == 1
    requires s.runs[0].pc.Begin? && s.runs[0].profile == "p" && !s.runs[0].cancelled
    ensures Reachable(s') && s' == s.(mgr := s'.mgr, runs := s'.runs)
    ensures |s'.runs| == 1 && s'.runs[0].pc.Calling? && s'.runs[0].profile == "p" && s'.runs[0].services == []
  {
    hide Reachable, Helper, Prepare, S.StopOne, S.StartOne;
    var s1 := Apply(s, SetLabel(0));
    StepReachable(s, SetLabel(0));
    var s2 := Apply(s1, LoadConfig(0));
    StepReachable(s1, LoadConfig(0));
    s' := Apply(s2, CheckHead(0));
    StepReachable(s2, CheckHead(0));
  }

  /** The call finds its GPU configured already, and the run completes. */
  lemma FirstSuccess(s: State) returns (s': State)
    requires Reachable(s) && s.file == ONE_FILE && |s.runs| == 1
    requires s.runs[0].pc.Calling? && s.runs[0].profile == "p" && s.runs[0].services == []
    ensures Reachable(s') && |s'.runs| == 1 && s'.runs[0].pc == Done(Completed) && s'.mgr.final == FinalSuccess
    ensures s'.slot == s.slot && s'.worker == s.worker && s'.cancelTarget == s.cancelTarget && s'.wg == s.wg - 1
  {
    hide Reachable, Helper, Prepare, S.StopOne, S.StartOne;
    OneEntry(s.mgr, ONE_GPU, s.file);
    var s1 := Apply(s, Enter(0, true));
    StepReachable(s, Enter(0, true));
    var session := AlreadyMatching(s1.node, s1.mgr);
    var s2 := Apply(s1, Leave(0, session));
    StepReachable(s1, Leave(0, session));
    s' := FirstFinish(s2);
  }

  lemma FirstFinish(s: State) returns (s': State)
    requires Reachable(s) && |s.runs| == 1 && s.runs[0].pc == Starting(0, Completed) && s.runs[0].services == []
    ensures Reachable(s') && |s'.runs| == 1 && s'.runs[0].pc == Done(Completed) && s'.mgr == s.mgr
    ensures s'.slot == s.slot && s'.worker == s.worker && s'.cancelTarget == s.cancelTarget && s'.wg == s.wg - 1
  {
    hide Reachable;
    s' := Apply(s, Finish(0));
    StepReachable(s, Finish(0));
  }

  /** The file becomes unreadable, and a second run stops on it. */
  lemma SecondStops(s: State) returns (s': State)
    requires Reachable(s) && |s.runs| == 1 && s.runs[0].pc.Done? && s.slot.None? && s.worker.Idle?
    requires s.cancelTarget == Some(0) && s.wg == 0
    ensures Reachable(s') && Quiescent(s') && |s'.runs| == 2 && Last(s').pc == Done(BadConfig)
    ensures s'.mgr.stateLabel == LabelFailure && s'.mgr.final == s.mgr.final
  {
    hide Reachable, Helper, Prepare, S.StopOne, S.StartOne;
    var s1 := Apply(s, EditFile(Missing));
    StepReachable(s, EditFile(Missing));
    var s2 := Apply(s1, Request("p"));
    StepReachable(s1, Request("p"));
    var s3 := Apply(s2, Receive);
    StepReachable(s2, Receive);
    var s4 := Apply(s3, Check);
    StepReachable(s3, Check);
    var s5 := Apply(s4, WaitDone);
    StepReachable(s4, WaitDone);
    s' := SpawnAndStop(s5);
  }

  lemma SpawnAndStop(s: State) returns (s': State)
    requires Reachable(s) && |s.runs| == 1 && s.runs[0].pc.Done? && s.slot.None? && s.worker.Ready? && s.file == Missing
    ensures Reachable(s') && Quiescent(s') && |s'.runs| == 2 && Last(s').pc == Done(BadConfig)
    ensures s'.mgr.stateLabel == LabelFailure && s'.mgr.final == s.mgr.final
  {
    hide Reachable, Helper, Prepare, S.StopOne, S.StartOne;
    var s1 := Apply(s, Spawn);
    StepReachable(s, Spawn);
    var s2 := Apply(s1, SetLabel(1));
    StepReachable(s1, SetLabel(1));
    s' := Apply(s2, LoadConfig(1));
    StepReachable(s2, LoadConfig(1));
  }

  /**
   A run that stops on an unreadable file sets the label but not the final status:
   the system can rest with the label "failure" and the final status "Success".
   */
  lemma FinalStatusLeftOver(node: NodeConfig, units: S.Units) returns (s: State)
    ensures Reachable(s) && Quiescent(s) && s.runs != [] && Last(s).pc == Done(BadConfig)
    ensures s.mgr.stateLabel == LabelFailure && s.mgr.final == FinalSuccess
  {
    hide Reachable, Quiescent;
    s := FirstSpawn(node, units, ONE_FILE);
    s := FirstCall(s);
    s := FirstSuccess(s);
    s := SecondStops(s);
  }
}
