/**
 Service restoration over whole system runs, with any number of retries and
 cancelled runs: which services run again when a run finishes, and when some stay
 stopped.
 */
module Restoration {
  import opened Wrappers
  import opened Engine
  import opened System
  import opened Serialisation
  import opened Timing
  import opened S = Services

  // ----- calm runs of the system -----

  /** The file carries this service list, or none that can be read. */
  predicate Carries(file: ConfigFile, list: seq<string>) {
    file.Missing? || file.services.None? || file.services == Some(list)
  }

  /**
   Status queries tell the truth, stops and starts take effect, nobody else
   changes units; with a fixed list the file keeps carrying it.
   */
  predicate CalmEvent(s: State, e: Event, fixed: Option<seq<string>>)
    requires Enabled(s, e)
  {
    match e
    case StopStep(id, a) => Stops(s.host.units, s.runs[id].services[s.runs[id].pc.k], a)
    case StartStep(id, a) => Starts(s.host.units, s.runs[id].services[s.runs[id].pc.k], a)
    case ChangeUnits(_) => false
    case EditFile(file) => fixed.Some? ==> Carries(file, fixed.value)
    case _ => true
  }

  predicate Calm(s: State, events: seq<Event>, fixed: Option<seq<string>>)
    requires Legal(s, events)
    decreases |events|
  {
    events == [] || (CalmEvent(s, events[0], fixed) && Calm(Apply(s, events[0]), events[1..], fixed))
  }

  /** `s` is the state after some calm interleaving from a start of the program. */
  ghost predicate CalmlyReachable(s: State, fixed: Option<seq<string>>) {
    exists node: NodeConfig, units: Units, file: ConfigFile, events: seq<Event> ::
      && (fixed.Some? ==> Carries(file, fixed.value))
      && Legal(Init(node, units, file), events)
      && Calm(Init(node, units, file), events, fixed)
      && s == Exec(Init(node, units, file), events)
  }

  // ----- the invariant -----

  /** The records belong to the state of the units at the first stop since the last cleanup. */
  ghost predicate Based(h: Host, base: Option<Units>) {
    match base
    case None => h.db == map[]
    case Some(b) => h.db != map[] && Tracks(b, h)
  }

  /** Where the recorded services are, given what the current run is doing. */
  ghost predicate Quiesced(h: Host, r: Run) {
    match r.pc
    case Starting(k, _) => k <= |r.services| && RestartedUpTo(h, r.services, k)
    case Done(ending) => AllStopped(h) && (ending.Completed? || ending.Expired? ==> h.db == map[])
    case _ => AllStopped(h)
  }

  /** With a fixed list, the current run uses it and every record is on it. */
  ghost predicate OnList(h: Host, r: Run, list: seq<string>) {
    && (!r.pc.Begin? && !r.pc.Load? && !r.pc.Done? ==> r.services == list)
    && RecordsOnList(h, list)
  }

  ghost predicate RecordsOnList(h: Host, list: seq<string>) {
    forall u :: u in h.db ==> Listed(list, |list|, u)
  }

  ghost predicate HostOk(h: Host, base: Option<Units>, r: Run, fixed: Option<seq<string>>) {
    Based(h, base) && Quiesced(h, r) && (fixed.Some? ==> OnList(h, r, fixed.value))
  }

  ghost predicate Restoring(s: State, fixed: Option<seq<string>>) {
    && (fixed.Some? ==> Carries(s.file, fixed.value))
    && if s.runs == [] then s.host.db == map[] && s.base == None else HostOk(s.host, s.base, Last(s), fixed)
  }

  lemma NoneRestarted(h: Host, services: seq<string>)
    requires AllStopped(h)
    ensures RestartedUpTo(h, services, 0)
  {
  }

  lemma StopStepOk(s: State, r: Run, a: S.UnitAnswer, fixed: Option<seq<string>>)
    requires r.pc.Stopping? && r.pc.k < |r.services| && Stops(s.host.units, r.services[r.pc.k], a)
    requires HostOk(s.host, s.base, r, fixed)
    ensures var st := StopServiceStep(s, r, a); HostOk(st.s.host, st.s.base, st.r, fixed)
  {
    hide Tracks, AllStopped, Stops, StopOne, Listed, Normal;
    var base := if s.host.db == map[] then s.host.units else s.base.value;
    if s.host.db == map[] {
      NothingRecorded(base);
      assert s.host == Host(map[], base);
    }
    var svc := r.services[r.pc.k];
    StopOneKeeps(base, s.host, svc, a);
    assert Normal(svc) in StopOne(s.host, svc, a).db;
    assert Listed(r.services, |r.services|, Normal(svc)) by { ListedAt(r.services, r.pc.k); }
  }

  lemma ListedAt(services: seq<string>, k: nat)
    requires k < |services|
    ensures Listed(services, |services|, Normal(services[k]))
  {
  }

  lemma StartStepOk(h: Host, base: Option<Units>, r: Run, a: S.UnitAnswer, fixed: Option<seq<string>>)
    requires r.pc.Starting? && r.pc.k < |r.services| && Starts(h.units, r.services[r.pc.k], a)
    requires HostOk(h, base, r, fixed)
    ensures HostOk(StartOne(h, r.services[r.pc.k], a), base, r.(pc := Starting(r.pc.k + 1, r.pc.ending)), fixed)
  {
    hide Tracks, RestartedUpTo, Starts, StartOne, Listed;
    match base
    case Some(b) => StartOneKeeps(b, h, r.services, r.pc.k, a);
    case None =>
      StartNothing(h, r.services[r.pc.k], a);
      NothingRestarted(h, r.services, r.pc.k + 1);
  }

  lemma StartNothing(h: Host, svc: string, a: S.UnitAnswer)
    requires h.db == map[]
    ensures StartOne(h, svc, a) == h
  {
  }

  lemma NothingRestarted(h: Host, services: seq<string>, k: nat)
    requires h.db == map[] && k <= |services|
    ensures RestartedUpTo(h, services, k) && AllStopped(h)
  {
  }

  lemma RunStepOk(s: State, r: Run, e: Event, fixed: Option<seq<string>>)
    requires IsRunEvent(e) && RunEnabled(s, r, e) && Bounded(r) && OnTime(s.clock, r)
    requires e.StopStep? ==> Stops(s.host.units, r.services[r.pc.k], e.answer)
    requires e.StartStep? ==> Starts(s.host.units, r.services[r.pc.k], e.answer)
    requires HostOk(s.host, s.base, r, fixed) && (fixed.Some? ==> Carries(s.file, fixed.value))
    ensures var st := RunStep(s, r, e); HostOk(st.s.host, st.s.base, st.r, fixed) && st.s.file == s.file
  {
    hide Helper, Prepare, StopOne, StartOne, Tracks, AllStopped, RestartedUpTo, Listed, Stops, Starts, Total, Within;
    if e.StopStep? {
      StopStepOk(s, r, e.answer, fixed);
    } else if e.StartStep? {
      StartStepOk(s.host, s.base, r, e.answer, fixed);
    } else if e.Finish? {
      NothingRestarted(Cleanup(s.host), [], 0);
    } else if AllStopped(s.host) {
      NoneRestarted(s.host, r.services);
      NoneRestarted(s.host, RunStep(s, r, e).r.services);
    }
  }

  lemma RestoringKept(s: State, e: Event, fixed: Option<seq<string>>)
    requires Inv(s) && AllOnTime(s) && Restoring(s, fixed) && Enabled(s, e) && CalmEvent(s, e, fixed)
    ensures Restoring(Apply(s, e), fixed)
  {
    hide RunStep, OnTime, Bounded, Based, AllStopped, RestartedUpTo, RecordsOnList, Stops, Starts;
    if IsRunEvent(e) {
      OnlyLastMoves(s, e);
      assert Last(s) in s.runs;
      RunStepOk(s, Last(s), e, fixed);
      RunStepFrame(s, Last(s), e);
    } else if e.Spawn? && s.runs == [] {
      NothingRestarted(s.host, [], 0);
      NoRecordsOnList(s.host, fixed);
      assert Based(s.host, s.base) by { FreshBased(s.host); }
    }
  }

  lemma FreshBased(h: Host)
    requires h.db == map[]
    ensures Based(h, None)
  {
  }

  lemma NoRecordsOnList(h: Host, fixed: Option<seq<string>>)
    requires h.db == map[]
    ensures fixed.Some? ==> RecordsOnList(h, fixed.value)
  {
  }

  lemma {:induction false} ExecRestoring(s: State, events: seq<Event>, fixed: Option<seq<string>>)
    requires Inv(s) && AllOnTime(s) && Restoring(s, fixed) && Legal(s, events) && Calm(s, events, fixed)
    ensures Restoring(Exec(s, events), fixed)
    decreases |events|
  {
    hide Apply, Enabled, Inv, AllOnTime, Restoring, CalmEvent;
    if events != [] {
      StepKeeps(s, events[0]);
      OnTimeKept(s, events[0]);
      RestoringKept(s, events[0], fixed);
      ExecRestoring(Apply(s, events[0]), events[1..], fixed);
    }
  }

  lemma CalmlyRestoring(s: State, fixed: Option<seq<string>>)
    requires CalmlyReachable(s, fixed)
    ensures Reachable(s) && Inv(s) && AllOnTime(s) && Restoring(s, fixed)
  {
    hide Apply, Enabled, CalmEvent;
    var node, units, file, events :|
      && (fixed.Some? ==> Carries(file, fixed.value))
      && Legal(Init(node, units, file), events)
      && Calm(Init(node, units, file), events, fixed)
      && s == Exec(Init(node, units, file), events);
    ReachableInv(s);
    ReachableOnTime(s);
    ExecRestoring(Init(node, units, file), events, fixed);
  }

  // ----- the theorems -----

  /**
   Throughout: every record is the status its unit had at the first stop since the
   last cleanup, and units without a record of "active" are as they were then.
   */
  lemma RecordsAreFirstStatus(s: State, fixed: Option<seq<string>>, u: string)
    requires CalmlyReachable(s, fixed)
    ensures match s.base
            case None => s.host.db == map[]
            case Some(b) =>
              && (u in s.host.db ==> s.host.db[u] == ServicePreState(u, StatusOf(b, u)))
              && (Recorded(s.host.db, u) != ACTIVE ==> StatusOf(s.host.units, u) == StatusOf(b, u))
  {
    CalmlyRestoring(s, fixed);
  }

  /** A record is never overwritten, and only the end of a restart removes it. */
  lemma RecordsSurvive(s: State, e: Event, u: string)
    requires Enabled(s, e) && !e.Finish? && u in s.host.db
    ensures u in Apply(s, e).host.db && Apply(s, e).host.db[u] == s.host.db[u]
  {
    hide Helper, Prepare, Normal;
    if e.StopStep? {
      RecordsKept(s.host, s.runs[e.id].services[s.runs[e.id].pc.k], e.answer, u);
    } else if e.StartStep? {
      RecordsKept(s.host, s.runs[e.id].services[s.runs[e.id].pc.k], e.answer, u);
    }
  }

  /**
   Restoration, for any number of retries and cancelled runs before: when a run
   finishes by success or expiry, the map of records is empty, units never recorded
   as active are untouched, and exactly the units active at the first stop run
   again if and only if the list of this run covers every recorded active unit.
   */
  lemma FinishRestoresExactly(s: State, id: nat)
    requires CalmlyReachable(s, None) && Enabled(s, Finish(id))
    ensures var s' := Apply(s, Finish(id));
            && s'.host.db == map[] && s'.base == None && s'.host.units == s.host.units
            && match s.base
               case None => s.host.db == map[]
               case Some(b) =>
                 && (SameActive(b, s'.host.units) <==> CoversRecords(s.host, s.runs[id].services))
                 && forall u :: Recorded(s.host.db, u) != ACTIVE ==> StatusOf(s'.host.units, u) == StatusOf(b, u)
  {
    hide Tracks, RestartedUpTo, CoversRecords, SameActive, Helper, Prepare;
    CalmlyRestoring(s, None);
    OnlyLastMoves(s, Finish(id));
    if s.base.Some? {
      RestoresExactly(s.base.value, s.host, s.runs[id].services);
    }
  }

  /** With an unchanged service list the condition always holds: everything is put back. */
  lemma FinishRestores(s: State, id: nat, list: seq<string>)
    requires CalmlyReachable(s, Some(list)) && Enabled(s, Finish(id)) && s.base.Some?
    ensures SameActive(s.base.value, Apply(s, Finish(id)).host.units)
    ensures forall u :: !Listed(list, |list|, u) ==>
              StatusOf(Apply(s, Finish(id)).host.units, u) == StatusOf(s.base.value, u)
    ensures Apply(s, Finish(id)).host.db == map[]
  {
    hide Tracks, RestartedUpTo, CoversRecords, SameActive, Listed, Helper, Prepare;
    CalmlyRestoring(s, Some(list));
    OnlyLastMoves(s, Finish(id));
    RestoresExactly(s.base.value, s.host, list);
    OnlyListedCovers(s.host, list);
  }

  /**
   At rest, every record has been cleaned up unless the last run stopped on an
   unreadable config file. In that case no restart happened: every unit recorded
   as active is down, so the services are back exactly when none was active.
   */
  lemma RestingServices(s: State, fixed: Option<seq<string>>)
    requires CalmlyReachable(s, fixed) && Quiescent(s) && s.runs != []
    ensures Last(s).pc == Done(BadConfig) || (s.host.db == map[] && s.base == None)
    ensures s.base.Some? ==>
              (SameActive(s.base.value, s.host.units) <==> forall u :: Recorded(s.host.db, u) != ACTIVE)
  {
    hide Helper, Prepare;
    CalmlyRestoring(s, fixed);
    assert Last(s) in s.runs;
    if s.base.Some? {
      StoppedIsDown(s.base.value, s.host);
    }
  }

  lemma StoppedIsDown(base: Units, h: Host)
    requires Tracks(base, h) && AllStopped(h)
    ensures SameActive(base, h.units) <==> forall u :: Recorded(h.db, u) != ACTIVE
  {
    if u :| Recorded(h.db, u) == ACTIVE {
      assert u in h.db && Active(base, u) && !Active(h.units, u);
    } else {
      forall u ensures Active(h.units, u) <==> Active(base, u) {
        assert Recorded(h.db, u) != ACTIVE;
      }
    }
  }

  // ----- what an attempt finds -----

  /** The units of the first `k` services are recorded. */
  ghost predicate RecordedUpTo(h: Host, services: seq<string>, k: nat)
    requires k <= |services|
  {
    forall i :: 0 <= i < k ==> Normal(services[i]) in h.db
  }

  ghost predicate Recording(h: Host, r: Run) {
    match r.pc
    case Stopping(k, _) => k <= |r.services| && RecordedUpTo(h, r.services, k)
    case Calling => RecordedUpTo(h, r.services, |r.services|)
    case Inside(_) => RecordedUpTo(h, r.services, |r.services|)
    case _ => true
  }

  ghost predicate Recorders(s: State) {
    s.runs != [] ==> Recording(s.host, Last(s))
  }

  lemma RunStepRecording(s: State, r: Run, e: Event)
    requires IsRunEvent(e) && RunEnabled(s, r, e) && Recording(s.host, r)
    ensures Recording(RunStep(s, r, e).s.host, RunStep(s, r, e).r)
  {
    hide Helper, Prepare, Normal;
  }

  lemma RecordingKept(s: State, e: Event)
    requires Inv(s) && Recorders(s) && Enabled(s, e)
    ensures Recorders(Apply(s, e))
  {
    hide RunStep, RunEnabled, RecordedUpTo, Bounded, Reads;
    if IsRunEvent(e) {
      OnlyLastMoves(s, e);
      assert Last(s) in s.runs;
      RunStepRecording(s, Last(s), e);
      RunStepFrame(s, Last(s), e);
    } else if e.ChangeUnits? {
      OnlyUnits(s, e.units);
    }
  }

  lemma OnlyUnits(s: State, units: Units)
    requires Recorders(s)
    ensures Recorders(Apply(s, ChangeUnits(units)))
  {
  }

  lemma {:induction false} ExecRecording(s: State, events: seq<Event>)
    requires Inv(s) && Recorders(s) && Legal(s, events)
    ensures Recorders(Exec(s, events))
    decreases |events|
  {
    hide Apply, Enabled, Inv, Recorders;
    if events != [] {
      StepKeeps(s, events[0]);
      RecordingKept(s, events[0]);
      ExecRecording(Apply(s, events[0]), events[1..]);
    }
  }

  lemma ReachableRecording(s: State)
    requires Reachable(s)
    ensures Recorders(s)
  {
    hide Apply, Enabled;
    var node, units, file, events :|
      Legal(Init(node, units, file), events) && s == Exec(Init(node, units, file), events);
    ExecRecording(Init(node, units, file), events);
  }

  /**
   The devices are quiet when they are partitioned: in a calm run, whenever a run is
   about to call `PartitionGPU` or inside it, the unit of every configured service is
   recorded and down.
   */
  lemma AttemptFindsServicesDown(s: State, fixed: Option<seq<string>>, i: nat, unit: string)
    requires CalmlyReachable(s, fixed) && s.runs != [] && (Last(s).pc.Calling? || Last(s).pc.Inside?)
    requires i < |Last(s).services| && UnitOf(Last(s).services[i], unit)
    ensures unit in s.host.db && Down(s.host, unit)
  {
    hide Normal, UnitOf;
    CalmlyRestoring(s, fixed);
    ReachableRecording(s);
    NormalIsUnit(Last(s).services[i], unit);
    var base := s.base.value;
    assert s.host.db[unit] == ServicePreState(unit, StatusOf(base, unit));
    assert !Active(s.host.units, unit) by {
      if Recorded(s.host.db, unit) != ACTIVE {
        assert StatusOf(s.host.units, unit) == StatusOf(base, unit);
      }
    }
  }

  // ----- calm runs step by step -----

  lemma InitCalm(node: NodeConfig, units: Units, file: ConfigFile)
    ensures CalmlyReachable(Init(node, units, file), None)
  {
    var s := Init(node, units, file);
    assert Legal(s, []) && Calm(s, [], None) && s == Exec(s, []);
  }

  lemma {:induction false} CalmAppend(s: State, events: seq<Event>, e: Event)
    requires Legal(s, events) && Calm(s, events, None) && Enabled(Exec(s, events), e)
    requires CalmEvent(Exec(s, events), e, None)
    ensures Legal(s, events + [e]) && Calm(s, events + [e], None) && Exec(s, events + [e]) == Apply(Exec(s, events), e)
    decreases |events|
  {
    hide Apply, Enabled, CalmEvent;
    if events == [] {
      assert events + [e] == [e] && [e][1..] == [];
    } else {
      CalmAppend(Apply(s, events[0]), events[1..], e);
      assert (events + [e])[1..] == events[1..] + [e];
    }
  }

  lemma CalmStep(s: State, e: Event)
    requires CalmlyReachable(s, None) && Enabled(s, e) && CalmEvent(s, e, None)
    ensures CalmlyReachable(Apply(s, e), None)
  {
    hide Apply, Enabled, CalmEvent;
    var node, units, file, events :|
      && Legal(Init(node, units, file), events)
      && Calm(Init(node, units, file), events, None)
      && s == Exec(Init(node, units, file), events);
    CalmAppend(Init(node, units, file), events, e);
  }
}
