/**
 Stopping the configured systemd services before a partition attempt and putting
 them back afterwards, over the map of recorded pre-states.
 */
module Services {
  const ACTIVE := "active"
  const NOT_LOADED := "not-loaded"
  const SUFFIX := ".service"

  datatype ServicePreState = ServicePreState(name: string, state: string)

  /** The state of every loaded unit; a unit that is absent is not loaded. */
  type Units = map<string, string>

  /** The recorded pre-states and the units of the host. */
  datatype Host = Host(db: map<string, ServicePreState>, units: Units)

  predicate HasSuffix(s: string, suffix: string) {
    |s| >= |suffix| && s[|s| - |suffix|..] == suffix
  }

  /** The unit name of a configured service. */
  function Normal(svc: string): string {
    if HasSuffix(svc, SUFFIX) then svc else svc + SUFFIX
  }

  function StatusOf(units: Units, unit: string): string {
    if unit in units then units[unit] else NOT_LOADED
  }

  predicate Active(units: Units, unit: string) {
    StatusOf(units, unit) == ACTIVE
  }

  /**
   What systemd answers while one service is handled: the reported status (empty
   on an error), whether the unit is loaded, whether the call to stop or start it is
   accepted, and the state of the unit after that call.
   */
  datatype UnitAnswer = UnitAnswer(status: string, loaded: bool, accepted: bool, after: string)

  // ----- one service -----

  function RecordOnce(db: map<string, ServicePreState>, unit: string, status: string): map<string, ServicePreState> {
    if unit in db then db else db[unit := ServicePreState(unit, status)]
  }

  function StopOne(h: Host, svc: string, a: UnitAnswer): Host {
    var unit := Normal(svc);
    var db := RecordOnce(h.db, unit, a.status);
    if a.status != ACTIVE || !a.loaded then Host(db, h.units)
    else Host(db, h.units[unit := a.after])
  }

  /** The recorded state; the zero value when nothing is recorded. */
  function Recorded(db: map<string, ServicePreState>, unit: string): string {
    if unit in db then db[unit].state else ""
  }

  function StartOne(h: Host, svc: string, a: UnitAnswer): Host {
    var unit := Normal(svc);
    if Recorded(h.db, unit) != ACTIVE then h
    else if a.loaded && a.status == ACTIVE then h
    else h.(units := h.units[unit := a.after])
  }

  // ----- all services -----

  /** The host after the first `k` services were stopped. */
  function StopAll(h: Host, services: seq<string>, answers: nat -> UnitAnswer, k: nat): Host
    requires k <= |services|
  {
    if k == 0 then h else StopOne(StopAll(h, services, answers, k - 1), services[k - 1], answers(k - 1))
  }

  function StartAll(h: Host, services: seq<string>, answers: nat -> UnitAnswer, k: nat): Host
    requires k <= |services|
  {
    if k == 0 then h else StartOne(StartAll(h, services, answers, k - 1), services[k - 1], answers(k - 1))
  }

  lemma StopAllStep(h: Host, services: seq<string>, answers: nat -> UnitAnswer)
    ensures StopAll(h, services, answers, 0) == h
    ensures forall k: nat :: k < |services| ==>
              StopAll(h, services, answers, k + 1) == StopOne(StopAll(h, services, answers, k), services[k], answers(k))
  {
  }

  lemma StartAllStep(h: Host, services: seq<string>, answers: nat -> UnitAnswer)
    ensures StartAll(h, services, answers, 0) == h
    ensures forall k: nat :: k < |services| ==>
              StartAll(h, services, answers, k + 1) ==
              StartOne(StartAll(h, services, answers, k), services[k], answers(k))
  {
  }

  function Cleanup(h: Host): Host {
    h.(db := map[])
  }

  class ServiceManager {
    var preStateDB: map<string, ServicePreState>
    var units: Units

    constructor (units: Units)
      ensures Value() == Host(map[], units)
    {
      preStateDB := map[];
      this.units := units;
    }

    function Value(): Host
      reads this
    {
      Host(preStateDB, units)
    }

    /** `StopService`: false when the unit does not exist or the call fails. */
    method StopService(unit: string, a: UnitAnswer) returns (ok: bool)
      modifies this`units
      ensures ok == (a.loaded && a.accepted)
      ensures units == if a.loaded then old(units)[unit := a.after] else old(units)
    {
      if !a.loaded {
        return false;
      }
      ok := ControlService(unit, a);
    }

    /** `StartService`: false when the unit is active already or the call fails. */
    method StartService(unit: string, a: UnitAnswer) returns (ok: bool)
      modifies this`units
      ensures ok == (!(a.loaded && a.status == ACTIVE) && a.accepted)
      ensures units == if a.loaded && a.status == ACTIVE then old(units) else old(units)[unit := a.after]
    {
      if a.loaded && a.status == ACTIVE {
        return false;
      }
      ok := ControlService(unit, a);
    }

    /** The call to systemd; a call that fails may have changed the unit too. */
    method ControlService(unit: string, a: UnitAnswer) returns (ok: bool)
      modifies this`units
      ensures ok == a.accepted && units == old(units)[unit := a.after]
    {
      units := units[unit := a.after];
      return a.accepted;
    }

    method CleanupPreState()
      modifies this`preStateDB
      ensures Value() == Cleanup(old(Value()))
    {
      preStateDB := map[];
    }

    method StopServiceHandler(services: seq<string>, answers: nat -> UnitAnswer)
      modifies this
      ensures Value() == StopAll(old(Value()), services, answers, |services|)
    {
      hide StopAll, HasSuffix;
      StopAllStep(old(Value()), services, answers);
      for k := 0 to |services|
        invariant Value() == StopAll(old(Value()), services, answers, k)
      {
        var svc := services[k];
        if !HasSuffix(svc, SUFFIX) {
          svc := svc + SUFFIX;
        }
        assert svc == Normal(services[k]);
        var currStatus := answers(k).status;
        if svc !in preStateDB {
          preStateDB := preStateDB[svc := ServicePreState(svc, currStatus)];
        }
        if currStatus != ACTIVE {
          continue;
        }
        var stopped := StopService(svc, answers(k));
      }
    }

    method StartServiceHandler(services: seq<string>, answers: nat -> UnitAnswer)
      modifies this
      ensures Value() == Cleanup(StartAll(old(Value()), services, answers, |services|))
    {
      hide StartAll, HasSuffix;
      StartAllStep(old(Value()), services, answers);
      for k := 0 to |services|
        invariant Value() == StartAll(old(Value()), services, answers, k)
      {
        var svc := services[k];
        if !HasSuffix(svc, SUFFIX) {
          svc := svc + SUFFIX;
        }
        assert svc == Normal(services[k]);
        if svc !in preStateDB || preStateDB[svc].state != ACTIVE {
          continue;
        }
        var started := StartService(svc, answers(k));
      }
      CleanupPreState();
    }
  }

  // ----- what the recorded states mean -----

  /** The answers tell the truth about the unit. */
  predicate Truthful(units: Units, unit: string, a: UnitAnswer) {
    && a.status == StatusOf(units, unit)
    && a.loaded == (a.status != NOT_LOADED)
  }

  /** A truthful answer to a stop request that takes effect. */
  predicate Stops(units: Units, svc: string, a: UnitAnswer) {
    Truthful(units, Normal(svc), a) && a.after != ACTIVE
  }

  predicate Starts(units: Units, svc: string, a: UnitAnswer) {
    Truthful(units, Normal(svc), a) && a.after == ACTIVE
  }

  /** The unit names of the first `k` services. */
  ghost predicate Listed(services: seq<string>, k: nat, unit: string)
    requires k <= |services|
  {
    exists i: nat :: i < k && Normal(services[i]) == unit
  }

  /**
   `base` is the state of the host at the first stop since the last cleanup: every
   record is the state the unit had then, and only recorded active units differ
   from it now.
   */
  ghost predicate Tracks(base: Units, h: Host) {
    && (forall u :: u in h.db ==> h.db[u] == ServicePreState(u, StatusOf(base, u)))
    && (forall u :: Recorded(h.db, u) != ACTIVE ==> StatusOf(h.units, u) == StatusOf(base, u))
  }

  /** Exactly the recorded active units among the first `k` services run. */
  ghost predicate RestartedUpTo(h: Host, services: seq<string>, k: nat)
    requires k <= |services|
  {
    forall u :: Recorded(h.db, u) == ACTIVE ==> (Active(h.units, u) <==> Listed(services, k, u))
  }

  ghost predicate AllStopped(h: Host) {
    forall u :: Recorded(h.db, u) == ACTIVE ==> !Active(h.units, u)
  }

  lemma StopOneKeeps(base: Units, h: Host, svc: string, a: UnitAnswer)
    requires Tracks(base, h) && AllStopped(h) && Stops(h.units, svc, a)
    ensures Tracks(base, StopOne(h, svc, a)) && AllStopped(StopOne(h, svc, a))
    ensures forall u :: u in StopOne(h, svc, a).db <==> u in h.db || u == Normal(svc)
  {
    hide Normal;
    var unit, h' := Normal(svc), StopOne(h, svc, a);
    assert unit !in h.db ==> StatusOf(h.units, unit) == StatusOf(base, unit) by {
      assert Recorded(h.db, unit) == "" <== unit !in h.db;
    }
    forall u
      ensures u in h'.db ==> h'.db[u] == ServicePreState(u, StatusOf(base, u))
      ensures if Recorded(h'.db, u) == ACTIVE then !Active(h'.units, u) else StatusOf(h'.units, u) == StatusOf(base, u)
    {
      if u != unit {
        assert Recorded(h'.db, u) == Recorded(h.db, u) && StatusOf(h'.units, u) == StatusOf(h.units, u);
      } else if u in h.db {
        assert Recorded(h'.db, u) == Recorded(h.db, u);
      }
    }
  }

  lemma ListedStep(services: seq<string>, k: nat, u: string)
    requires k < |services|
    ensures Listed(services, k + 1, u) <==> Listed(services, k, u) || Normal(services[k]) == u
  {
    if Listed(services, k, u) {
      var i: nat :| i < k && Normal(services[i]) == u;
      assert i < k + 1;
    }
  }

  lemma StartOneKeeps(base: Units, h: Host, services: seq<string>, k: nat, a: UnitAnswer)
    requires k < |services| && Tracks(base, h) && RestartedUpTo(h, services, k) && Starts(h.units, services[k], a)
    ensures Tracks(base, StartOne(h, services[k], a)) && RestartedUpTo(StartOne(h, services[k], a), services, k + 1)
    ensures StartOne(h, services[k], a).db == h.db
  {
    hide Normal, Listed;
    forall u ensures Listed(services, k + 1, u) <==> Listed(services, k, u) || Normal(services[k]) == u {
      ListedStep(services, k, u);
    }
  }

  /** A record, once made, is never overwritten by stopping or starting. */
  lemma RecordsKept(h: Host, svc: string, a: UnitAnswer, u: string)
    requires u in h.db
    ensures u in StopOne(h, svc, a).db && StopOne(h, svc, a).db[u] == h.db[u]
    ensures StartOne(h, svc, a).db == h.db
  {
  }

  /** Every recorded active unit is on the list of the run that restarts services. */
  ghost predicate CoversRecords(h: Host, services: seq<string>) {
    forall u :: Recorded(h.db, u) == ACTIVE ==> Listed(services, |services|, u)
  }

  ghost predicate SameActive(base: Units, units: Units) {
    forall u :: Active(units, u) <==> Active(base, u)
  }

  /**
   Restarting puts back exactly the services that were active at the first stop,
   if and only if every recorded active unit is on the current list; and no other
   unit is touched.
   */
  lemma RestoresExactly(base: Units, h: Host, services: seq<string>)
    requires Tracks(base, h) && RestartedUpTo(h, services, |services|)
    ensures SameActive(base, h.units) <==> CoversRecords(h, services)
    ensures forall u :: Recorded(h.db, u) != ACTIVE ==> StatusOf(h.units, u) == StatusOf(base, u)
  {
    if SameActive(base, h.units) {
      forall u | Recorded(h.db, u) == ACTIVE ensures Listed(services, |services|, u) {
        assert u in h.db && Active(base, u);
      }
    } else if CoversRecords(h, services) {
      forall u ensures Active(h.units, u) <==> Active(base, u) {
        if Recorded(h.db, u) == ACTIVE {
          assert u in h.db;
        }
      }
    }
  }

  // ----- whole handlers -----

  /** Truthful and effective answers along a whole `StopServiceHandler` call. */
  ghost predicate StopsAll(h: Host, services: seq<string>, answers: nat -> UnitAnswer) {
    forall k: nat {:trigger Stops(StopAll(h, services, answers, k).units, services[k], answers(k))} ::
      k < |services| ==> Stops(StopAll(h, services, answers, k).units, services[k], answers(k))
  }

  ghost predicate StartsAll(h: Host, services: seq<string>, answers: nat -> UnitAnswer) {
    forall k: nat {:trigger Starts(StartAll(h, services, answers, k).units, services[k], answers(k))} ::
      k < |services| ==> Starts(StartAll(h, services, answers, k).units, services[k], answers(k))
  }

  lemma {:induction false} StopAllKeeps(base: Units, h: Host, services: seq<string>, answers: nat -> UnitAnswer, k: nat)
    requires k <= |services| && Tracks(base, h) && AllStopped(h) && StopsAll(h, services, answers)
    ensures Tracks(base, StopAll(h, services, answers, k)) && AllStopped(StopAll(h, services, answers, k))
    ensures forall u :: u in StopAll(h, services, answers, k).db <==> u in h.db || Listed(services, k, u)
  {
    hide StopAll, StopOne, Tracks, AllStopped, Normal, Stops;
    StopAllStep(h, services, answers);
    if k > 0 {
      StopAllKeeps(base, h, services, answers, k - 1);
      StopOneKeeps(base, StopAll(h, services, answers, k - 1), services[k - 1], answers(k - 1));
      forall u ensures Listed(services, k, u) <==> Listed(services, k - 1, u) || Normal(services[k - 1]) == u {
        ListedStep(services, k - 1, u);
      }
    }
  }

  lemma {:induction false} StartAllKeeps(base: Units, h: Host, services: seq<string>,
                                         answers: nat -> UnitAnswer, k: nat)
    requires k <= |services| && Tracks(base, h) && AllStopped(h) && StartsAll(h, services, answers)
    ensures Tracks(base, StartAll(h, services, answers, k))
    ensures RestartedUpTo(StartAll(h, services, answers, k), services, k)
    ensures StartAll(h, services, answers, k).db == h.db
  {
    hide StartAll, StartOne, Tracks, Normal, Starts;
    StartAllStep(h, services, answers);
    if k > 0 {
      StartAllKeeps(base, h, services, answers, k - 1);
      StartOneKeeps(base, StartAll(h, services, answers, k - 1), services, k - 1, answers(k - 1));
    }
  }

  /**
   Round trip: stopping the services of a list on a host without records and then
   starting those of the same list leaves exactly the same units active, and an
   empty map of records.
   */
  lemma StopThenStart(units: Units, services: seq<string>, stops: nat -> UnitAnswer, starts: nat -> UnitAnswer)
    requires var h0 := Host(map[], units);
             && StopsAll(h0, services, stops)
             && StartsAll(StopAll(h0, services, stops, |services|), services, starts)
    ensures var h1 := StopAll(Host(map[], units), services, stops, |services|);
            var h2 := Cleanup(StartAll(h1, services, starts, |services|));
            SameActive(units, h2.units) && h2.db == map[]
  {
    hide StopAll, StartAll, Tracks, AllStopped, RestartedUpTo, SameActive, CoversRecords, Listed, Stops, Starts;
    var h0 := Host(map[], units);
    var h1 := StopAll(h0, services, stops, |services|);
    NothingRecorded(units);
    StopAllKeeps(units, h0, services, stops, |services|);
    StartAllKeeps(units, h1, services, starts, |services|);
    var h2 := StartAll(h1, services, starts, |services|);
    RestoresExactly(units, h2, services);
    OnlyListedCovers(h2, services);
  }

  lemma NothingRecorded(units: Units)
    ensures Tracks(units, Host(map[], units)) && AllStopped(Host(map[], units))
  {
  }

  lemma OnlyListedCovers(h: Host, services: seq<string>)
    requires forall u :: u in h.db ==> Listed(services, |services|, u)
    ensures CoversRecords(h, services)
  {
    hide Listed;
  }

  // ----- configured names and unit names -----

  /** `unit` is the unit of the configured name: the suffix is appended unless it is there. */
  predicate UnitOf(name: string, unit: string) {
    if |name| >= 8 && name[|name| - 8..] == ".service" then unit == name else unit == name + ".service"
  }

  /** No configured name among the first `k` has this unit. */
  ghost predicate NotConfigured(services: seq<string>, k: nat, unit: string)
    requires k <= |services|
  {
    forall i :: 0 <= i < k ==> !UnitOf(services[i], unit)
  }

  ghost predicate Untouched(h: Host, h': Host, unit: string) {
    && (unit in h'.db <==> unit in h.db) && (unit in h.db ==> h'.db[unit] == h.db[unit])
    && (unit in h'.units <==> unit in h.units) && (unit in h.units ==> h'.units[unit] == h.units[unit])
  }

  predicate Down(h: Host, unit: string) {
    unit in h.units ==> h.units[unit] != "active"
  }

  lemma NormalIsUnit(name: string, unit: string)
    ensures UnitOf(name, unit) <==> unit == Normal(name)
  {
  }

  /**
   Stopping acts on the units of the configured names and on no others: the name
   itself if it ends in ".service", and the name with ".service" appended if not.
   With truthful answers and effective stops each of these units is recorded and
   down afterwards.
   */
  lemma {:induction false} StopHandlesConfigured(h: Host, services: seq<string>, answers: nat -> UnitAnswer, k: nat)
    requires k <= |services|
    ensures forall unit :: NotConfigured(services, k, unit) ==> Untouched(h, StopAll(h, services, answers, k), unit)
    ensures StopsAll(h, services, answers) ==>
              forall i, unit :: 0 <= i < k && UnitOf(services[i], unit) ==>
                unit in StopAll(h, services, answers, k).db && Down(StopAll(h, services, answers, k), unit)
  {
    hide Normal, UnitOf, StopOne, Stops, StopsAll, Down, Untouched;
    if k == 0 {
      forall unit ensures Untouched(h, h, unit) {
        UntouchedHere(h, unit);
      }
    } else {
      var h0, svc, a := StopAll(h, services, answers, k - 1), services[k - 1], answers(k - 1);
      var h' := StopAll(h, services, answers, k);
      StopHandlesConfigured(h, services, answers, k - 1);
      if StopsAll(h, services, answers) {
        assert Stops(h0.units, svc, a) by { StopAt(h, services, answers, k - 1); }
      }
      forall unit | NotConfigured(services, k, unit) ensures Untouched(h, h', unit) {
        StopOneHandles(h0, svc, a, unit);
        assert NotConfigured(services, k - 1, unit);
        UntouchedOn(h, h0, h', unit);
      }
      forall i, unit | 0 <= i < k && UnitOf(services[i], unit) && StopsAll(h, services, answers)
        ensures unit in h'.db && Down(h', unit)
      {
        StopOneHandles(h0, svc, a, unit);
      }
    }
  }

  lemma UntouchedHere(h: Host, unit: string)
    ensures Untouched(h, h, unit)
  {
  }

  lemma UntouchedOn(h: Host, h1: Host, h2: Host, unit: string)
    requires Untouched(h, h1, unit) && Untouched(h1, h2, unit)
    ensures Untouched(h, h2, unit)
  {
  }

  lemma StopAt(h: Host, services: seq<string>, answers: nat -> UnitAnswer, k: nat)
    requires StopsAll(h, services, answers) && k < |services|
    ensures Stops(StopAll(h, services, answers, k).units, services[k], answers(k))
  {
  }

  lemma StartAt(h: Host, services: seq<string>, answers: nat -> UnitAnswer, k: nat)
    requires StartsAll(h, services, answers) && k < |services|
    ensures Starts(StartAll(h, services, answers, k).units, services[k], answers(k))
  {
  }

  /** One stop: its own unit is recorded and down, any other is untouched. */
  lemma StopOneHandles(h: Host, svc: string, a: UnitAnswer, unit: string)
    ensures !UnitOf(svc, unit) ==> Untouched(h, StopOne(h, svc, a), unit)
    ensures unit in h.db || UnitOf(svc, unit) ==> unit in StopOne(h, svc, a).db
    ensures Stops(h.units, svc, a) && (Down(h, unit) || UnitOf(svc, unit)) ==> Down(StopOne(h, svc, a), unit)
  {
    hide Normal, UnitOf;
    NormalIsUnit(svc, unit);
  }

  lemma StartOneHandles(h: Host, svc: string, a: UnitAnswer, unit: string)
    ensures !UnitOf(svc, unit) || !WasActive(h, unit) ==>
              Untouched(h, StartOne(h, svc, a), unit)
    ensures StartOne(h, svc, a).db == h.db
    ensures Starts(h.units, svc, a) && WasActive(h, unit) && (Up(h, unit) || UnitOf(svc, unit)) ==>
              Up(StartOne(h, svc, a), unit)
  {
    hide Normal, UnitOf;
    NormalIsUnit(svc, unit);
  }

  /** The unit is recorded as active. */
  predicate WasActive(h: Host, unit: string) {
    unit in h.db && h.db[unit].state == "active"
  }

  predicate Up(h: Host, unit: string) {
    unit in h.units && h.units[unit] == "active"
  }

  /**
   Starting acts on the units of the configured names that are recorded as "active"
   and on no others; with truthful answers and effective starts each of these is
   active afterwards.
   */
  lemma {:induction false} StartHandlesConfigured(h: Host, services: seq<string>, answers: nat -> UnitAnswer, k: nat)
    requires k <= |services|
    ensures StartAll(h, services, answers, k).db == h.db
    ensures forall unit :: NotConfigured(services, k, unit) || !WasActive(h, unit) ==>
              Untouched(h, StartAll(h, services, answers, k), unit)
    ensures StartsAll(h, services, answers) ==>
              forall i, unit :: 0 <= i < k && UnitOf(services[i], unit) && WasActive(h, unit) ==>
                Up(StartAll(h, services, answers, k), unit)
  {
    hide Normal, UnitOf, StartOne, Starts, StartsAll, Up, Untouched;
    if k == 0 {
      forall unit ensures Untouched(h, h, unit) {
        UntouchedHere(h, unit);
      }
    } else {
      var h0, svc, a := StartAll(h, services, answers, k - 1), services[k - 1], answers(k - 1);
      var h' := StartAll(h, services, answers, k);
      StartHandlesConfigured(h, services, answers, k - 1);
      StartOneHandles(h0, svc, a, svc);
      if StartsAll(h, services, answers) {
        assert Starts(h0.units, svc, a) by { StartAt(h, services, answers, k - 1); }
      }
      forall unit | NotConfigured(services, k, unit) || !WasActive(h, unit)
        ensures Untouched(h, h', unit)
      {
        StartOneHandles(h0, svc, a, unit);
        assert NotConfigured(services, k, unit) ==> NotConfigured(services, k - 1, unit);
        UntouchedOn(h, h0, h', unit);
      }
      forall i, unit |
        && 0 <= i < k && UnitOf(services[i], unit) && WasActive(h, unit)
        && StartsAll(h, services, answers)
        ensures Up(h', unit)
      {
        StartOneHandles(h0, svc, a, unit);
      }
    }
  }
}
