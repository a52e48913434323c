/**
 What becomes of the profiles that requests carry: accepted requests are run one
 after the other in order, dropped ones start no run, and exactly when a
 request is sure to be followed by a run of its profile.
 */
module Requests {
  import opened Wrappers
  import opened Engine
  import opened System
  import opened Serialisation
  import opened Timing
  import Capability
  import Recovery
  import S = Services

  // ----- accepted requests, in order -----

  /** The profiles of the triggers whose request the slot took. */
  function Accepted(triggers: seq<Trigger>): seq<string> {
    if triggers == [] then []
    else
      var last := triggers[|triggers| - 1];
      Accepted(triggers[..|triggers| - 1]) + (if last.accepted then [last.profile] else [])
  }

  function ProfilesOf(runs: seq<Run>): seq<string> {
    seq(|runs|, i requires 0 <= i < |runs| => runs[i].profile)
  }

  function Held(worker: Worker): seq<string> {
    if worker.Idle? then [] else [worker.profile]
  }

  function Buffered(slot: Option<string>): seq<string> {
    match slot
    case None => []
    case Some(profile) => [profile]
  }

  /** Accepted requests are neither lost nor duplicated nor reordered. */
  ghost predicate InOrder(s: State) {
    Accepted(s.triggers) == ProfilesOf(s.runs) + Held(s.worker) + Buffered(s.slot)
  }

  lemma RunStepProfile(s: State, r: Run, e: Event)
    requires IsRunEvent(e) && RunEnabled(s, r, e)
    ensures var st := RunStep(s, r, e);
            && st.r.profile == r.profile && st.s.runs == s.runs
            && st.s.slot == s.slot && st.s.worker == s.worker && st.s.triggers == s.triggers
  {
    hide Helper, Prepare, S.StopOne, S.StartOne;
  }

  lemma InOrderKept(s: State, e: Event)
    requires InOrder(s) && Enabled(s, e)
    ensures InOrder(Apply(s, e)) && s.triggers <= Apply(s, e).triggers
  {
    hide RunStep, RunEnabled, Accepted;
    var s' := Apply(s, e);
    if IsRunEvent(e) {
      RunStepProfile(s, s.runs[e.id], e);
      assert ProfilesOf(s'.runs) == ProfilesOf(s.runs);
    } else if e.Request? {
      AcceptedAppend(s.triggers, s'.triggers[|s.triggers|]);
    } else if e.Check? {
      assert ProfilesOf(s'.runs) == ProfilesOf(s.runs);
    } else if e.Spawn? {
      assert ProfilesOf(s'.runs) == ProfilesOf(s.runs) + Held(s.worker);
    }
  }

  lemma AcceptedAppend(triggers: seq<Trigger>, tr: Trigger)
    ensures Accepted(triggers + [tr]) == Accepted(triggers) + if tr.accepted then [tr.profile] else []
  {
    assert (triggers + [tr])[..|triggers|] == triggers;
  }

  lemma {:induction false} ExecInOrder(s: State, events: seq<Event>)
    requires InOrder(s) && Legal(s, events)
    ensures InOrder(Exec(s, events)) && s.triggers <= Exec(s, events).triggers
    decreases |events|
  {
    hide Apply, Enabled, InOrder;
    if events != [] {
      InOrderKept(s, events[0]);
      ExecInOrder(Apply(s, events[0]), events[1..]);
    }
  }

  /** In every reachable state the accepted requests are the runs spawned, then the one held, then the one buffered. */
  lemma AcceptedInOrder(s: State)
    requires Reachable(s)
    ensures Accepted(s.triggers) == ProfilesOf(s.runs) + Held(s.worker) + Buffered(s.slot)
  {
    hide Apply, Enabled;
    var node, units, file, events :|
      Legal(Init(node, units, file), events) && s == Exec(Init(node, units, file), events);
    ExecInOrder(Init(node, units, file), events);
  }

  /**
   At rest the runs are exactly the accepted requests, one run each, in order; the
   last run, which nobody cancelled, is of the profile accepted last.
   */
  lemma AcceptedAllRun(s: State)
    requires Reachable(s) && Quiescent(s)
    ensures ProfilesOf(s.runs) == Accepted(s.triggers)
    ensures s.runs != [] ==>
              && Last(s).profile == Accepted(s.triggers)[|s.runs| - 1]
              && !Last(s).cancelled && Last(s).pc.Done? && Last(s).pc.ending != Cancelled
  {
    AcceptedInOrder(s);
    ReachableInv(s);
    if s.runs != [] {
      assert Last(s) in s.runs;
      assert ProfilesOf(s.runs)[|s.runs| - 1] == Last(s).profile;
    }
  }

  lemma {:induction false} AcceptedMonotone(a: seq<Trigger>, b: seq<Trigger>)
    requires a <= b
    ensures Accepted(a) <= Accepted(b)
  {
    if a == b {
    } else {
      var front := b[..|b| - 1];
      assert a <= front;
      AcceptedMonotone(a, front);
    }
  }

  // ----- from every state the system can come to rest -----

  /** Some interleaving leads from `s` to `s'`. */
  ghost predicate Leads(s: State, s': State) {
    exists events: seq<Event> :: Legal(s, events) && s' == Exec(s, events)
  }

  lemma LeadsHere(s: State)
    ensures Leads(s, s)
  {
    assert Legal(s, []) && s == Exec(s, []);
  }

  lemma LeadsStep(s: State, e: Event)
    requires Enabled(s, e)
    ensures Leads(s, Apply(s, e))
  {
    hide Apply, Enabled;
    var s' := Apply(s, e);
    assert [e][1..] == [] && Legal(s', []) && Exec(s', []) == s';
    assert Legal(s, [e]) && s' == Exec(s, [e]);
  }

  lemma {:induction false} ExecConcat(s: State, a: seq<Event>, b: seq<Event>)
    requires Legal(s, a) && Legal(Exec(s, a), b)
    ensures Legal(s, a + b) && Exec(s, a + b) == Exec(Exec(s, a), b)
    decreases |a|
  {
    hide Apply, Enabled;
    if a == [] {
      assert a + b == b;
    } else {
      assert (a + b)[0] == a[0] && (a + b)[1..] == a[1..] + b;
      ExecConcat(Apply(s, a[0]), a[1..], b);
    }
  }

  lemma LeadsOn(s: State, s1: State, s2: State)
    requires Leads(s, s1) && Leads(s1, s2)
    ensures Leads(s, s2)
  {
    hide Legal, Exec;
    var a :| Legal(s, a) && s1 == Exec(s, a);
    var b :| Legal(s1, b) && s2 == Exec(s1, b);
    ExecConcat(s, a, b);
  }

  ghost predicate Good(s: State) {
    Inv(s) && AllOnTime(s)
  }

  /** Only the clock and the current run move on the way from `s` to `s'`. */
  ghost predicate Drains(s: State, s': State) {
    && Leads(s, s') && Good(s')
    && s'.slot == s.slot && s'.worker == s.worker && s'.triggers == s.triggers && |s'.runs| == |s.runs|
  }

  lemma DrainsOn(s: State, s1: State, s2: State)
    requires Drains(s, s1) && Drains(s1, s2)
    ensures Drains(s, s2)
  {
    hide Leads, Good;
    LeadsOn(s, s1, s2);
  }

  /** One step of the current run. */
  lemma RunMove(s: State, e: Event) returns (s': State)
    requires Good(s) && IsRunEvent(e) && Enabled(s, e)
    ensures s.runs != [] && RunEnabled(s, Last(s), e)
    ensures Drains(s, s') && s'.runs != [] && Last(s') == RunStep(s, Last(s), e).r
  {
    hide RunStep, RunEnabled, OnTime, Bounded, Reads, Leads;
    OnlyLastMoves(s, e);
    RunStepProfile(s, Last(s), e);
    StepKeeps(s, e);
    OnTimeKept(s, e);
    LeadsStep(s, e);
    s' := Apply(s, e);
  }

  /** Time passes while the current run sleeps. */
  lemma Sleeps(s: State, seconds: nat) returns (s': State)
    requires Good(s) && s.runs != [] && Live(Last(s)) && !Last(s).pc.Head?
    ensures Drains(s, s') && s'.runs == s.runs && s'.clock == s.clock + seconds
  {
    hide OnTime, Bounded, Reads, Leads;
    var e := Tick(seconds);
    StepKeeps(s, e);
    OnTimeKept(s, e);
    LeadsStep(s, e);
    s' := Apply(s, e);
  }

  /** How far a run is from its end when AMD SMI no longer opens. */
  function Stage(r: Run): nat {
    match r.pc
    case Begin => 2
    case Load => 1
    case _ => 0
  }

  function Distance(r: Run): nat {
    var n := |r.services|;
    match r.pc
    case Inside(_) => 2 * n + 6
    case Waiting(_) => 2 * n + 5
    case Head => 2 * n + 4
    case Stopping(k, _) => if k < n then 2 * n + 3 - k else 0
    case Calling => n + 2
    case Starting(k, _) => if k <= n then n + 1 - k else 0
    case _ => 0
  }

  lemma NoSession(m: Manager, name: string, file: ConfigFile)
    ensures Prepare(m, name, file, false).Stopped?
  {
  }

  const NO_UNIT := S.UnitAnswer("", false, false, "")
  const NO_ANSWER := Engine.Answer(false, false, "", "", Capability.Unavailable, 0, "", Recovery.IDLE, "", 0)

  ghost predicate Closer(r': Run, r: Run) {
    Stage(r') < Stage(r) || (Stage(r') == Stage(r) && Distance(r') < Distance(r))
  }

  /** The next step of the run on the shortest way to its end. */
  function NextEvent(r: Run, id: nat): Event
    requires Live(r)
  {
    match r.pc
    case Begin => SetLabel(id)
    case Load => LoadConfig(id)
    case Head => CheckHead(id)
    case Stopping(_, _) => StopStep(id, NO_UNIT)
    case Calling => Enter(id, false)
    case Inside(_) => Leave(id, Session(0, _ => NO_ANSWER))
    case Waiting(_) => WaitElapsed(id)
    case Starting(k, _) => if k < |r.services| then StartStep(id, NO_UNIT) else Finish(id)
  }

  lemma NextEventCloser(s: State, r: Run, id: nat)
    requires Live(r) && RunEnabled(s, r, NextEvent(r, id))
    ensures Closer(RunStep(s, r, NextEvent(r, id)).r, r)
  {
    hide Helper, Prepare, S.StopOne, S.StartOne;
    if r.pc.Calling? {
      NoSession(s.mgr, r.profile, s.file);
    }
  }

  /** It is possible, if need be after the run has slept. */
  lemma NextEventEnabled(s: State, r: Run, id: nat)
    requires Live(r) && OnTime(s.clock, r)
    requires r.pc.Stopping? ==> s.clock >= r.pc.since + STATUS_DELAY
    requires r.pc.Waiting? ==> s.clock >= r.pc.since + RETRY_WAIT
    ensures IsRunEvent(NextEvent(r, id)) && NextEvent(r, id).id == id && RunEnabled(s, r, NextEvent(r, id))
  {
    hide Total, Within;
  }

  /** The current run gets closer to its end. */
  lemma NextMove(s: State) returns (s': State)
    requires Good(s) && s.runs != [] && Live(Last(s))
    ensures Drains(s, s') && s'.runs != [] && Closer(Last(s'), Last(s))
  {
    hide Leads, Inv, RunStep, RunEnabled, NextEvent, Closer, Total, Within;
    var r, id := Last(s), |s.runs| - 1;
    assert OnTime(s.clock, r) by { assert r in s.runs; }
    LeadsHere(s);
    var s1 := s;
    if r.pc.Stopping? || r.pc.Waiting? {
      s1 := Sleeps(s, RETRY_WAIT);
    }
    assert OnTime(s1.clock, r) by { assert r in s1.runs; }
    NextEventEnabled(s1, r, id);
    NextEventCloser(s1, r, id);
    s' := RunMove(s1, NextEvent(r, id));
    DrainsOn(s, s1, s');
  }

  /** The current run can end before anything else happens. */
  lemma {:induction false} RunCanEnd(s: State) returns (s': State)
    requires Good(s)
    ensures Drains(s, s') && (s'.runs != [] ==> !Live(Last(s')))
    decreases if s.runs == [] then 0 else Stage(Last(s)), if s.runs == [] then 0 else Distance(Last(s))
  {
    hide Good, Leads, Stage, Distance;
    if s.runs == [] || !Live(Last(s)) {
      LeadsHere(s);
      s' := s;
    } else {
      var s1 := NextMove(s);
      s' := RunCanEnd(s1);
      DrainsOn(s, s1, s');
    }
  }

  /** The steps the worker still makes for the requests it holds or finds buffered. */
  function Backlog(s: State): nat {
    (if s.slot.Some? then 4 else 0) +
    match s.worker
    case Idle => 0
    case Ready(_) => 1
    case Draining(_) => 2
    case Holding(_) => 3
  }

  /** With no run live the worker is never stuck. */
  lemma WorkerMove(s: State) returns (e: Event)
    requires Good(s) && (s.runs != [] ==> !Live(Last(s))) && Backlog(s) > 0
    ensures Enabled(s, e) && Backlog(Apply(s, e)) < Backlog(s)
    ensures Good(Apply(s, e)) && Leads(s, Apply(s, e)) && Apply(s, e).triggers == s.triggers
  {
    hide Leads, OnTime, Bounded, Reads;
    e := match s.worker
      case Idle => Receive
      case Holding(_) => Check
      case Draining(_) => WaitDone
      case Ready(_) => Spawn;
    StepKeeps(s, e);
    OnTimeKept(s, e);
    LeadsStep(s, e);
  }

  /** From every state the system can come to rest without any further request. */
  lemma {:induction false} CanRest(s: State) returns (s': State)
    requires Good(s)
    ensures Leads(s, s') && Quiescent(s') && s'.triggers == s.triggers
    decreases Backlog(s)
  {
    hide Leads, OnTime, Bounded, Reads;
    s' := RunCanEnd(s);
    if Backlog(s') > 0 {
      var s1 := s';
      var e := WorkerMove(s1);
      LeadsOn(s, s1, Apply(s1, e));
      s' := CanRest(Apply(s1, e));
      LeadsOn(s, Apply(s1, e), s');
    }
  }

  // ----- when a request is sure to be run -----

  /** A run of `p` among those spawned from position `n` on. */
  ghost predicate RunFrom(runs: seq<Run>, n: nat, p: string) {
    exists i: nat :: n <= i < |runs| && runs[i].profile == p
  }

  /** However the system goes on after a request of `p` in `s`: once at rest it has run `p` since. */
  ghost predicate SureToRun(s: State, p: string) {
    var requested := Apply(s, Request(p));
    forall s': State :: Leads(requested, s') && Quiescent(s') ==> RunFrom(s'.runs, |s.runs|, p)
  }

  /** What a caller can see before the request: room in the slot, or `p` on its way already. */
  predicate OnItsWay(s: State, p: string) {
    || s.slot.None?
    || s.slot.value == p
    || (!s.worker.Idle? && s.worker.profile == p)
  }

  /** The profiles of the runs spawned after `s` begin with what was held and buffered in `s`. */
  lemma PendingRuns(s: State, s': State)
    requires Reachable(s) && Leads(s, s') && Quiescent(s')
    ensures ProfilesOf(s.runs) + Held(s.worker) + Buffered(s.slot) <= ProfilesOf(s'.runs)
    ensures s'.triggers == s.triggers ==> ProfilesOf(s.runs) + Held(s.worker) + Buffered(s.slot) == ProfilesOf(s'.runs)
  {
    AcceptedInOrder(s);
    var events :| Legal(s, events) && s' == Exec(s, events);
    ExecInOrder(s, events);
    AcceptedMonotone(s.triggers, s'.triggers);
  }

  /**
   Exactly when a request is sure to be followed by a run of its profile: when the
   slot is empty, or the profile is the one buffered or held by the worker already.
   */
  lemma RequestRunExactly(s: State, p: string)
    requires Reachable(s)
    ensures SureToRun(s, p) <==> OnItsWay(s, p)
  {
    hide Reachable, Leads, Quiescent;
    var requested := Apply(s, Request(p));
    StepReachable(s, Request(p));
    var pending := Held(requested.worker) + Buffered(requested.slot);
    assert OnItsWay(s, p) <==> p in pending;
    if p in pending {
      forall s': State | Leads(requested, s') && Quiescent(s') ensures RunFrom(s'.runs, |s.runs|, p) {
        PendingRuns(requested, s');
        var k :| 0 <= k < |pending| && pending[k] == p;
        assert ProfilesOf(s'.runs)[|s.runs| + k] == p;
      }
    } else {
      ReachableInv(requested);
      ReachableOnTime(requested);
      var s' := CanRest(requested);
      PendingRuns(requested, s');
      forall i: nat | |s.runs| <= i < |s'.runs| ensures s'.runs[i].profile != p {
        assert ProfilesOf(s'.runs)[i] == pending[i - |s.runs|];
      }
      assert !RunFrom(s'.runs, |s.runs|, p);
    }
  }
}
