/**
 How long a run goes on: it gives up only after 30 minutes, every passed head check
 leads to an attempt, the bound on the attempts is reached, and a cancel leaves room
 for one attempt at most.
 */
module Persistence {
  import opened Wrappers
  import opened Engine
  import opened System
  import opened Serialisation
  import opened Timing
  import opened Settling
  import opened Witnesses
  import S = Services

  // ----- giving up -----

  /** A run that gave up did so after the window. */
  predicate GaveUpLate(clock: nat, r: Run) {
    (r.pc.Starting? && r.pc.ending.Expired?) || r.pc == Done(Expired) ==> clock > r.begun + 1800
  }

  ghost predicate AllGaveUpLate(s: State) {
    forall r <- s.runs :: GaveUpLate(s.clock, r)
  }

  lemma RunStepGaveUp(s: State, r: Run, e: Event)
    requires IsRunEvent(e) && RunEnabled(s, r, e) && GaveUpLate(s.clock, r)
    ensures GaveUpLate(s.clock, RunStep(s, r, e).r)
    ensures RunStep(s, r, e).s.clock == s.clock && RunStep(s, r, e).s.runs == s.runs
  {
    hide Helper, Prepare, S.StopOne, S.StartOne;
  }

  lemma GaveUpKept(s: State, e: Event)
    requires AllGaveUpLate(s) && Enabled(s, e)
    ensures AllGaveUpLate(Apply(s, e))
  {
    hide RunStep, RunEnabled;
    var s' := Apply(s, e);
    if IsRunEvent(e) {
      assert s.runs[e.id] in s.runs;
      RunStepGaveUp(s, s.runs[e.id], e);
    }
    forall r | r in s'.runs ensures GaveUpLate(s'.clock, r) {
      if e.Check? && r !in s.runs {
        assert s.runs[s.cancelTarget.value] in s.runs;
      }
    }
  }

  lemma {:induction false} ExecGaveUp(s: State, events: seq<Event>)
    requires AllGaveUpLate(s) && Legal(s, events)
    ensures AllGaveUpLate(Exec(s, events))
    decreases |events|
  {
    hide Apply, Enabled, AllGaveUpLate;
    if events != [] {
      GaveUpKept(s, events[0]);
      ExecGaveUp(Apply(s, events[0]), events[1..]);
    }
  }

  /**
   In every reachable state a run that is giving up, or has given up, is past its
   window of 30 minutes. As no time passes in the head check, this is so at once.
   */
  lemma GivesUpOnlyAfterWindow(s: State, i: nat)
    requires Reachable(s) && i < |s.runs|
    requires (s.runs[i].pc.Starting? && s.runs[i].pc.ending == Expired) || s.runs[i].pc == Done(Expired)
    ensures s.clock > s.runs[i].begun + 1800
  {
    hide Apply, Enabled;
    var node, units, file, events :|
      Legal(Init(node, units, file), events) && s == Exec(Init(node, units, file), events);
    ExecGaveUp(Init(node, units, file), events);
    assert s.runs[i] in s.runs;
  }

  /** The three ways out of the head of the loop. */
  lemma HeadDecides(s: State, id: nat)
    requires Enabled(s, CheckHead(id))
    ensures var r, r' := s.runs[id], Apply(s, CheckHead(id)).runs[id];
            if r.cancelled then r'.pc == Done(Cancelled)
            else if s.clock > r.begun + 1800 then r'.pc == Starting(0, Expired)
            else if r.services == [] then r'.pc == Calling
            else r'.pc == Stopping(0, s.clock)
  {
  }

  // ----- a passed head check leads to an attempt -----

  /** The run is on its way to an attempt. */
  predicate OnTheWay(r: Run) {
    r.pc.Stopping? || r.pc.Calling?
  }

  lemma WayStep(s: State, e: Event, id: nat)
    requires Enabled(s, e) && id < |s.runs|
    ensures id < |Apply(s, e).runs|
    ensures var r, r' := s.runs[id], Apply(s, e).runs[id];
            r'.attempts >= r.attempts && (OnTheWay(r) ==> OnTheWay(r') || r'.attempts == r.attempts + 1)
  {
    hide Helper, Prepare, S.StopOne, S.StartOne;
  }

  /**
   Nothing keeps a run that passed its head check from another attempt: before that
   it neither ends nor restarts services.
   */
  lemma {:induction false} PassedHeadAttempts(s: State, events: seq<Event>, id: nat, before: nat)
    requires Legal(s, events) && id < |s.runs|
    requires s.runs[id].attempts > before || (s.runs[id].attempts == before && OnTheWay(s.runs[id]))
    ensures id < |Exec(s, events).runs|
    ensures var r := Exec(s, events).runs[id];
            r.attempts > before || (r.attempts == before && (r.pc.Stopping? || r.pc.Calling?))
    decreases |events|
  {
    hide Apply, Enabled;
    if events != [] {
      WayStep(s, events[0], id);
      PassedHeadAttempts(Apply(s, events[0]), events[1..], id, before);
    }
  }

  /**
   A run at the head that is not cancelled and within its window makes another
   attempt: after the head check every interleaving has it on its way to the
   attempt, or past it.
   */
  lemma RetriesWithinWindow(s: State, id: nat, events: seq<Event>)
    requires Enabled(s, CheckHead(id)) && !s.runs[id].cancelled && s.clock <= s.runs[id].begun + 1800
    requires Legal(Apply(s, CheckHead(id)), events)
    ensures id < |Exec(Apply(s, CheckHead(id)), events).runs|
    ensures var r := Exec(Apply(s, CheckHead(id)), events).runs[id];
            r.attempts > s.runs[id].attempts || (r.attempts == s.runs[id].attempts && (r.pc.Stopping? || r.pc.Calling?))
  {
    var before := s.runs[id].attempts;
    AttemptsAtHead(s, id);
    HeadDecides(s, id);
    hide Enabled, Apply;
    PassedHeadAttempts(Apply(s, CheckHead(id)), events, id, before);
  }

  // ----- the bound on the attempts is reached -----

  /** A file whose only profile fails on the node of `RefusedCompute`. */
  function FailingFile(services: seq<string>): ConfigFile {
    Present(Some([("p", ONE_GPU)]), Some(services))
  }

  /** The first run is alone, was not cancelled, and works on such a file. */
  ghost predicate Alone(s: State, services: seq<string>) {
    && Reachable(s) && |s.runs| == 1 && s.file == FailingFile(services)
    && !s.runs[0].cancelled && s.runs[0].profile == "p" && s.runs[0].services == services
    && s.runs[0].begun <= s.clock
  }

  lemma RunAlone(s: State, services: seq<string>, e: Event) returns (s': State)
    requires Alone(s, services) && IsRunEvent(e) && Enabled(s, e) && !e.LoadConfig?
    ensures Alone(s', services) && s'.clock == s.clock && s'.node == s.node && s'.runs[0].begun == s.runs[0].begun
    ensures s'.runs[0] == RunStep(s, s.runs[0], e).r && s'.mgr == RunStep(s, s.runs[0], e).s.mgr
  {
    hide Reachable, Helper, Prepare, S.StopOne, S.StartOne;
    StepReachable(s, e);
    s' := Apply(s, e);
  }

  lemma SleepAlone(s: State, services: seq<string>, seconds: nat) returns (s': State)
    requires Alone(s, services) && !s.runs[0].pc.Head?
    ensures Alone(s', services) && s' == s.(clock := s.clock + seconds)
  {
    hide Reachable;
    assert Enabled(s, Tick(seconds));
    StepReachable(s, Tick(seconds));
    s' := Apply(s, Tick(seconds));
  }

  lemma AloneAtHead(node: NodeConfig, units: S.Units, services: seq<string>) returns (s: State)
    ensures Alone(s, services) && s.runs[0].pc == Head && s.runs[0].attempts == 0 && s.clock == s.runs[0].begun
  {
    hide Reachable, Helper, Prepare, S.StopOne, S.StartOne;
    var s0 := FirstSpawn(node, units, FailingFile(services));
    var s1 := Apply(s0, SetLabel(0));
    StepReachable(s0, SetLabel(0));
    s := Apply(s1, LoadConfig(0));
    StepReachable(s1, LoadConfig(0));
  }

  /** Ten seconds for each service that is left. */
  lemma {:induction false} StopAlone(s: State, services: seq<string>) returns (s': State)
    requires Alone(s, services)
    requires s.runs[0].pc.Calling? ||
             (s.runs[0].pc.Stopping? && s.runs[0].pc.k < |services| && s.runs[0].pc.since == s.clock)
    ensures Alone(s', services) && s'.runs[0].pc == Calling
    ensures s'.runs[0].attempts == s.runs[0].attempts && s'.runs[0].begun == s.runs[0].begun
    ensures s'.clock == s.clock + if s.runs[0].pc.Calling? then 0 else 10 * (|services| - s.runs[0].pc.k)
    decreases if s.runs[0].pc.Stopping? then |services| - s.runs[0].pc.k else 0
  {
    hide Reachable, Helper, Prepare, S.StopOne, S.StartOne;
    if s.runs[0].pc.Calling? {
      s' := s;
    } else {
      var s1 := SleepAlone(s, services, 10);
      var s2 := RunAlone(s1, services, StopStep(0, S.UnitAnswer("", false, false, "")));
      s' := StopAlone(s2, services);
    }
  }

  /** The attempt gets into the helper. */
  lemma EnterAlone(s: State, services: seq<string>) returns (s': State)
    requires Alone(s, services) && s.runs[0].pc == Calling
    ensures Alone(s', services) && s'.runs[0].pc == Inside(ONE_GPU) && s'.clock == s.clock
    ensures s'.runs[0].attempts == s.runs[0].attempts + 1 && s'.runs[0].begun == s.runs[0].begun
  {
    hide Reachable, Helper, Prepare, S.StopOne, S.StartOne;
    OneEntry(s.mgr, ONE_GPU, s.file);
    s' := RunAlone(s, services, Enter(0, true));
  }

  /** It fails, and the run waits a minute. */
  lemma FailAlone(s: State, services: seq<string>) returns (s': State)
    requires Alone(s, services) && s.runs[0].pc == Inside(ONE_GPU)
    ensures Alone(s', services) && s'.runs[0].pc == Head && s'.clock == s.clock + 60
    ensures s'.runs[0].attempts == s.runs[0].attempts && s'.runs[0].begun == s.runs[0].begun
  {
    hide Reachable, Helper, Prepare, S.StopOne, S.StartOne;
    var p, session := RefusedCompute(s.node, s.mgr);
    var s1 := RunAlone(s, services, Leave(0, session));
    var s2 := SleepAlone(s1, services, 60);
    s' := RunAlone(s2, services, WaitElapsed(0));
  }

  /** One turn of the loop takes a minute and ten seconds a service. */
  lemma TurnAlone(s: State, services: seq<string>) returns (s': State)
    requires Alone(s, services) && s.runs[0].pc == Head && s.clock <= s.runs[0].begun + 1800
    ensures Alone(s', services) && s'.runs[0].pc == Head
    ensures s'.clock == s.clock + 60 + 10 * |services|
    ensures s'.runs[0].attempts == s.runs[0].attempts + 1 && s'.runs[0].begun == s.runs[0].begun
  {
    hide Reachable, Helper, Prepare, S.StopOne, S.StartOne;
    HeadDecides(s, 0);
    var s1 := RunAlone(s, services, CheckHead(0));
    var s2 := StopAlone(s1, services);
    var s3 := EnterAlone(s2, services);
    s' := FailAlone(s3, services);
  }

  lemma {:induction false} TurnsAlone(s: State, services: seq<string>) returns (s': State)
    requires Alone(s, services) && s.runs[0].pc == Head
    requires s.clock == s.runs[0].begun + Total(s.runs[0].attempts, 60 + 10 * |services|)
    requires s.runs[0].attempts > 0 ==> Total(s.runs[0].attempts - 1, 60 + 10 * |services|) <= 1800
    ensures Alone(s', services) && s'.runs[0].pc == Head && s'.clock > s'.runs[0].begun + 1800
    ensures s'.runs[0].attempts > 0
    ensures Total(s'.runs[0].attempts - 1, 60 + 10 * |services|) <= 1800
    ensures Total(s'.runs[0].attempts, 60 + 10 * |services|) > 1800
    decreases s.runs[0].begun + 1800 - s.clock
  {
    hide Reachable;
    if s.clock > s.runs[0].begun + 1800 {
      s' := s;
    } else {
      var s1 := TurnAlone(s, services);
      s' := TurnsAlone(s1, services);
    }
  }

  lemma QuotientExact(times: nat, amount: nat, limit: nat)
    requires amount > 0 && times > 0 && Total(times - 1, amount) <= limit < Total(times, amount)
    ensures times == limit / amount + 1
  {
    TotalIsProduct(times - 1, amount);
    TotalIsProduct(times, amount);
    QuotientBound(times - 1, amount, limit);
    assert limit / amount * amount <= limit;
    if limit / amount >= times {
      ProductMonotone(times, limit / amount, amount);
    }
  }

  /**
   The bound on the attempts is reached: on every node and for every list of
   services there is an interleaving in which a run whose attempts all fail makes
   exactly floor(1800 / (60 + 10 n)) + 1 of them, and then expires.
   */
  lemma BoundIsReached(node: NodeConfig, units: S.Units, services: seq<string>) returns (s: State)
    ensures Reachable(s) && |s.runs| == 1 && s.runs[0].services == services
    ensures s.runs[0].attempts == 1800 / (60 + 10 * |services|) + 1
    ensures s.runs[0].pc == Starting(0, Expired)
  {
    hide Reachable, RunStep;
    var s0 := AloneAtHead(node, units, services);
    var s1 := TurnsAlone(s0, services);
    QuotientExact(s1.runs[0].attempts, 60 + 10 * |services|, 1800);
    HeadDecides(s1, 0);
    AttemptsAtHead(s1, 0);
    s := Apply(s1, CheckHead(0));
    StepReachable(s1, CheckHead(0));
  }

  lemma AttemptsAtHead(s: State, id: nat)
    requires Enabled(s, CheckHead(id))
    ensures var s' := Apply(s, CheckHead(id));
            && |s'.runs| == |s.runs|
            && s'.runs[id].attempts == s.runs[id].attempts && s'.runs[id].services == s.runs[id].services
  {
  }

  // ----- after a cancel -----

  lemma CancelledStep(s: State, e: Event)
    requires Inv(s) && s.runs != [] && Last(s).cancelled && Enabled(s, e) && !e.Spawn?
    ensures var s' := Apply(s, e);
            && |s'.runs| == |s.runs| && Last(s').cancelled
            && Last(s').attempts <= Last(s).attempts + 1
            && (!OnTheWay(Last(s)) ==> !OnTheWay(Last(s')) && Last(s').attempts == Last(s).attempts)
            && (Last(s').attempts > Last(s).attempts ==> !OnTheWay(Last(s')))
  {
    hide Helper, Prepare, S.StopOne, S.StartOne, Bounded, Reads, Remembered;
    if IsRunEvent(e) {
      OnlyLastMoves(s, e);
    }
  }

  lemma {:induction false} CancelledExec(s: State, events: seq<Event>)
    requires Inv(s) && s.runs != [] && Last(s).cancelled && Legal(s, events) && Spawn !in events
    ensures var s' := Exec(s, events);
            && |s'.runs| == |s.runs| && Last(s').cancelled
            && Last(s').attempts <= Last(s).attempts + if OnTheWay(Last(s)) then 1 else 0
    decreases |events|
  {
    hide Apply, Enabled, Inv, OnTheWay;
    if events != [] {
      assert events[0] in events;
      StepKeeps(s, events[0]);
      CancelledStep(s, events[0]);
      CancelledExec(Apply(s, events[0]), events[1..]);
    }
  }

  /**
   Bounded cancellation over every interleaving until the next spawn: a run that is
   cancelled while it stops services or is about to call makes at most one more
   attempt, and a run cancelled anywhere else makes none.
   */
  lemma AttemptsAfterCancel(s: State, events: seq<Event>)
    requires Reachable(s) && Enabled(s, Check) && s.runs != []
    requires Legal(Apply(s, Check), events) && Spawn !in events
    ensures Exec(Apply(s, Check), events).runs != []
    ensures var r, r' := Last(s), Last(Exec(Apply(s, Check), events));
            r'.attempts <= r.attempts + if r.pc.Stopping? || r.pc.Calling? then 1 else 0
  {
    hide Apply, Enabled, Inv;
    ReachableInv(s);
    CancelOnlyMarks(s);
    StepKeeps(s, Check);
    CancelledExec(Apply(s, Check), events);
  }
}
