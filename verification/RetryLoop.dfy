/**
 `RetryPartition` as the structured loop it is: every statement is one step of the
 run in `System`, and between any two of them the rest of the system may act. The
 loop terminates, and it leads from a reachable state to a reachable state.
 */
module RetryLoop {
  import opened Profiles
  import opened Engine
  import opened System
  import opened Serialisation
  import opened Timing
  import opened Persistence
  import S = Services

  /** What the run meets, by the number of statements executed so far. */
  datatype World = World(
    others: nat -> seq<Event>,               // what the rest of the system does then
    stops: nat -> S.UnitAnswer,
    starts: nat -> S.UnitAnswer,
    initOk: nat -> bool,
    sessions: (nat, Profile) -> Session,
    naps: nat -> nat,                        // how long a wait has lasted when a cancel could be noticed
    timerWins: nat -> bool)                  // which branch of the wait is taken when both are ready

  /** A world in which the helper never indexes an empty group list. */
  ghost predicate NeverPanics(w: World) {
    forall k: nat, p: Profile :: NoPanic(p, w.sessions(k, p))
  }

  predicate Foreign(e: Event, id: nat) {
    !IsRunEvent(e) || e.id != id
  }

  /** Those of `events` that are possible when their turn comes happen; the others do not. */
  function Play(s: State, events: seq<Event>, id: nat): State
    decreases |events|
  {
    if events == [] then s
    else if Foreign(events[0], id) && Enabled(s, events[0]) then Play(Apply(s, events[0]), events[1..], id)
    else Play(s, events[1..], id)
  }

  /** The rest of the system can cancel a run, but not move it. */
  predicate Untouched(r: Run, r': Run) {
    r' == r || r' == Cancel(r)
  }

  lemma ForeignKeeps(s: State, e: Event, id: nat)
    requires Reachable(s) && id < |s.runs| && Foreign(e, id) && Enabled(s, e)
    ensures id < |Apply(s, e).runs| && Untouched(s.runs[id], Apply(s, e).runs[id])
    ensures s.clock <= Apply(s, e).clock
  {
    hide RunStep, RunEnabled, Bounded, Reads, OnTime;
    ReachableInv(s);
    ReachableOnTime(s);
    if IsRunEvent(e) {
      assert s.runs[e.id] in s.runs;
      RunStepFrame(s, s.runs[e.id], e);
      RunStepOnTime(s, s.runs[e.id], e);
    }
  }

  lemma {:induction false} PlayKeeps(s: State, events: seq<Event>, id: nat)
    requires Reachable(s) && id < |s.runs|
    ensures Reachable(Play(s, events, id)) && id < |Play(s, events, id).runs|
    ensures Untouched(s.runs[id], Play(s, events, id).runs[id]) && s.clock <= Play(s, events, id).clock
    decreases |events|
  {
    hide Reachable, Apply, Enabled;
    if events != [] {
      var e := events[0];
      if Foreign(e, id) && Enabled(s, e) {
        ForeignKeeps(s, e, id);
        StepReachable(s, e);
        PlayKeeps(Apply(s, e), events[1..], id);
      } else {
        PlayKeeps(s, events[1..], id);
      }
    }
  }

  class Controller {
    var s: State

    constructor (node: NodeConfig, units: S.Units, file: ConfigFile)
      ensures s == Init(node, units, file) && Reachable(s)
    {
      s := Init(node, units, file);
      InitReachable(node, units, file);
    }

    /** One statement of run `id`, after which the others get their turn. */
    method Do(id: nat, e: Event, others: seq<Event>)
      requires Reachable(s) && IsRunEvent(e) && e.id == id && Enabled(s, e)
      modifies this
      ensures Reachable(s) && id < |s.runs|
      ensures Untouched(RunStep(old(s), old(s).runs[id], e).r, s.runs[id]) && s.clock >= old(s.clock)
    {
      hide Reachable, RunStep, RunEnabled;
      NoTimePasses(s, s.runs[id], e);
      StepReachable(s, e);
      s := Apply(s, e);
      PlayKeeps(s, others, id);
      s := Play(s, others, id);
    }

    /** Time passes while the run sleeps, and the others get their turn. */
    method Sleep(id: nat, seconds: nat, others: seq<Event>)
      requires Reachable(s) && id < |s.runs| && Live(s.runs[id]) && !s.runs[id].pc.Head?
      modifies this
      ensures Reachable(s) && id < |s.runs| && Untouched(old(s).runs[id], s.runs[id])
      ensures s.clock >= old(s.clock) + seconds
    {
      hide Reachable;
      assert Enabled(s, Tick(seconds)) by { NobodyFresh(s, id); }
      StepReachable(s, Tick(seconds));
      s := Apply(s, Tick(seconds));
      PlayKeeps(s, others, id);
      s := Play(s, others, id);
    }

    /** `StopServiceHandler`, interleaved. */
    method StopServices(id: nat, w: World, k0: nat) returns (k: nat)
      requires Reachable(s) && id < |s.runs|
      requires s.runs[id].pc.Calling? || (s.runs[id].pc.Stopping? && s.runs[id].pc.k == 0)
      modifies this
      ensures Reachable(s) && id < |s.runs| && s.runs[id].pc.Calling?
      ensures s.runs[id].attempts == old(s).runs[id].attempts && s.runs[id].services == old(s).runs[id].services
    {
      hide Reachable, OnTime, S.StopOne, S.StartOne, Helper, Prepare;
      k := k0;
      while s.runs[id].pc.Stopping?
        invariant Reachable(s) && id < |s.runs|
        invariant s.runs[id].pc.Calling? || s.runs[id].pc.Stopping?
        invariant s.runs[id].attempts == old(s).runs[id].attempts && s.runs[id].services == old(s).runs[id].services
        decreases if s.runs[id].pc.Stopping? then |s.runs[id].services| - s.runs[id].pc.k + 1 else 0
      {
        StoppingInRange(s, id);
        Sleep(id, STATUS_DELAY, w.others(k));
        Do(id, StopStep(id, w.stops(k)), w.others(k + 1));
        k := k + 2;
      }
    }

    /** `StartServiceHandler`, interleaved, and the end of the run. */
    method StartServices(id: nat, w: World, k0: nat)
      requires Reachable(s) && id < |s.runs| && s.runs[id].pc.Starting? && s.runs[id].pc.k == 0
      modifies this
      ensures Reachable(s) && id < |s.runs| && s.runs[id].pc == Done(old(s).runs[id].pc.ending)
      ensures s.runs[id].attempts == old(s).runs[id].attempts && s.runs[id].services == old(s).runs[id].services
    {
      hide Reachable, OnTime, S.StopOne, S.StartOne, Helper, Prepare;
      var k := k0;
      while s.runs[id].pc.k < |s.runs[id].services|
        invariant Reachable(s) && id < |s.runs|
        invariant s.runs[id].pc.Starting? && s.runs[id].pc.k <= |s.runs[id].services|
        invariant s.runs[id].pc.ending == old(s).runs[id].pc.ending
        invariant s.runs[id].attempts == old(s).runs[id].attempts && s.runs[id].services == old(s).runs[id].services
        decreases |s.runs[id].services| - s.runs[id].pc.k
      {
        Do(id, StartStep(id, w.starts(k)), w.others(k));
        k := k + 1;
      }
      Do(id, Finish(id), w.others(k));
    }

    /** The call of `PartitionGPU`; afterwards the run waits or restarts services. */
    method Attempt(id: nat, w: World, k: nat)
      requires Reachable(s) && id < |s.runs| && s.runs[id].pc.Calling? && NeverPanics(w)
      modifies this
      ensures Reachable(s) && id < |s.runs|
      ensures s.runs[id].pc.Waiting? || s.runs[id].pc == Starting(0, Completed)
      ensures s.runs[id].attempts == old(s).runs[id].attempts + 1 && s.runs[id].services == old(s).runs[id].services
    {
      hide Reachable, OnTime, S.StopOne, S.StartOne, Helper, Prepare;
      Do(id, Enter(id, w.initOk(k)), w.others(k));
      if s.runs[id].pc.Inside? {
        Do(id, Leave(id, w.sessions(k, s.runs[id].pc.profile)), w.others(k + 1));
      }
    }

    /** One turn of the retry loop: the run ends, or it is back at the head one attempt later. */
    method RetryOnce(id: nat, w: World, k0: nat) returns (k: nat)
      requires Reachable(s) && id < |s.runs| && s.runs[id].pc.Head? && NeverPanics(w)
      modifies this
      ensures Reachable(s) && id < |s.runs| && (s.runs[id].pc.Done? || s.runs[id].pc.Head?)
      ensures s.runs[id].pc.Head? ==>
                s.runs[id].attempts == old(s).runs[id].attempts + 1 && s.runs[id].services == old(s).runs[id].services
    {
      hide Reachable, OnTime, S.StopOne, S.StartOne, Helper, Prepare;
      k := k0 + 1;
      Do(id, CheckHead(id), w.others(k0));
      if s.runs[id].pc.Done? {
        return;                         // cancelled
      }
      if s.runs[id].pc.Starting? {
        StartServices(id, w, k);        // expired
        return;
      }
      k := StopServices(id, w, k);
      Attempt(id, w, k);
      k := k + 2;
      if s.runs[id].pc.Starting? {
        StartServices(id, w, k);        // no error
        return;
      }
      WaitToRetry(id, w, k);
      k := k + 3;
    }

    /**
     The one-minute wait, which a cancellation may end instead. After a nap of any
     length in which the others act, and let more time pass if they like, a cancel
     ends the wait at once; otherwise the run sleeps what is left of the minute.
     */
    method WaitToRetry(id: nat, w: World, k: nat)
      requires Reachable(s) && id < |s.runs| && s.runs[id].pc.Waiting?
      modifies this
      ensures Reachable(s) && id < |s.runs| && (s.runs[id].pc == Done(Cancelled) || s.runs[id].pc.Head?)
      ensures s.runs[id].pc.Done? ==> s.runs[id].cancelled
      ensures s.runs[id].pc.Head? ==> s.clock >= old(s).runs[id].pc.since + RETRY_WAIT
      ensures s.runs[id].attempts == old(s).runs[id].attempts && s.runs[id].services == old(s).runs[id].services
    {
      hide Reachable, OnTime, S.StopOne, S.StartOne, Helper, Prepare;
      var since := s.runs[id].pc.since;
      WaitingSince(s, id);
      Sleep(id, w.naps(k), w.others(k));
      if s.runs[id].cancelled && (s.clock < since + RETRY_WAIT || !w.timerWins(k)) {
        Do(id, WaitCancelled(id), w.others(k + 1));
        return;
      }
      var left := since + RETRY_WAIT - s.clock;
      if left > 0 {
        Sleep(id, left, w.others(k + 1));
      }
      if s.runs[id].cancelled && !w.timerWins(k + 1) {
        Do(id, WaitCancelled(id), w.others(k + 2));
      } else {
        Do(id, WaitElapsed(id), w.others(k + 2));
      }
    }

    /**
     The whole run: from any reachable state it ends, whatever the rest of the
     system does meanwhile, after at most the allowed number of attempts.
     */
    method RetryPartition(id: nat, w: World)
      requires Reachable(s) && id < |s.runs| && s.runs[id].pc.Begin? && NeverPanics(w)
      modifies this
      ensures Reachable(s) && id < |s.runs| && s.runs[id].pc.Done?
      ensures s.runs[id].attempts <= MaxAttempts(|s.runs[id].services|)
      ensures match s.runs[id].pc.ending
              case Cancelled => s.runs[id].cancelled
              case BadConfig => s.runs[id].attempts == 0
              case Completed => s.runs[id].attempts > 0
              case Expired => s.runs[id].attempts > 0 && s.clock > s.runs[id].begun + 1800
    {
      hide Reachable, OnTime, S.StopOne, S.StartOne, Helper, Prepare, MaxAttempts;
      Do(id, SetLabel(id), w.others(0));
      Do(id, LoadConfig(id), w.others(1));
      AttemptsBounded(s, id);
      var k := 2;
      while !s.runs[id].pc.Done?
        invariant Reachable(s) && id < |s.runs| && (s.runs[id].pc.Head? || s.runs[id].pc.Done?)
        invariant s.runs[id].attempts <= MaxAttempts(|s.runs[id].services|)
        decreases if s.runs[id].pc.Head? then MaxAttempts(|s.runs[id].services|) - s.runs[id].attempts + 1 else 0
      {
        k := RetryOnce(id, w, k);
        AttemptsBounded(s, id);
      }
      EndingExplained(s, id);
    }
  }

  lemma NoTimePasses(s: State, r: Run, e: Event)
    requires IsRunEvent(e) && RunEnabled(s, r, e)
    ensures RunStep(s, r, e).s.clock == s.clock
  {
    hide Helper, Prepare, S.StopOne, S.StartOne;
  }

  lemma NobodyFresh(s: State, id: nat)
    requires Reachable(s) && id < |s.runs| && Live(s.runs[id]) && !s.runs[id].pc.Head?
    ensures forall r <- s.runs :: !Fresh(r)
  {
    ReachableInv(s);
  }

  lemma StoppingInRange(s: State, id: nat)
    requires Reachable(s) && id < |s.runs| && s.runs[id].pc.Stopping?
    ensures s.runs[id].pc.k < |s.runs[id].services| && s.runs[id].pc.since <= s.clock
  {
    ReachableOnTime(s);
    assert s.runs[id] in s.runs;
  }

  lemma AttemptsBounded(s: State, id: nat)
    requires Reachable(s) && id < |s.runs|
    ensures s.runs[id].attempts <= MaxAttempts(|s.runs[id].services|)
  {
    ReachableOnTime(s);
    assert s.runs[id] in s.runs;
    AttemptBound(s, id);
  }

  /** Why a run ended. */
  lemma EndingExplained(s: State, id: nat)
    requires Reachable(s) && id < |s.runs| && s.runs[id].pc.Done?
    ensures match s.runs[id].pc.ending
            case Cancelled => s.runs[id].cancelled
            case BadConfig => s.runs[id].attempts == 0
            case Completed => s.runs[id].attempts > 0
            case Expired => s.runs[id].attempts > 0 && s.clock > s.runs[id].begun + 1800
  {
    ReachableInv(s);
    ReachableOnTime(s);
    assert s.runs[id] in s.runs;
    if s.runs[id].pc.ending.Expired? {
      GivesUpOnlyAfterWindow(s, id);
    }
  }

  lemma WaitingSince(s: State, id: nat)
    requires Reachable(s) && id < |s.runs| && s.runs[id].pc.Waiting?
    ensures s.runs[id].pc.since <= s.clock
  {
    ReachableOnTime(s);
    assert s.runs[id] in s.runs;
  }
}
