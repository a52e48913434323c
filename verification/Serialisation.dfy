/**
 What every interleaving keeps: at most one live run, a balanced wait group and
 balanced AMD SMI sessions, bounded effects of a cancellation, and no trigger
 forgotten.
 */
module Serialisation {
  import opened Wrappers
  import opened Engine
  import opened System
  import S = Services

  // ----- the invariants -----

  ghost predicate Serial(s: State) {
    && (forall i :: 0 <= i < |s.runs| - 1 ==> !Live(s.runs[i]))
    && s.wg == (if s.runs != [] && Live(Last(s)) then 1 else 0)
    && s.cancelTarget == (if s.runs == [] then None else Some(|s.runs| - 1))
    && (s.worker.Draining? ==> s.runs != [] && Last(s).cancelled)
    && (s.worker.Ready? ==> s.wg == 0)
    && (s.runs != [] && Last(s).cancelled ==> s.worker.Draining? || s.worker.Ready?)
    && s.sessionsOpened == s.sessionsClosed + (if s.runs != [] && Last(s).pc.Inside? then 1 else 0)
  }

  /** A cancelled run starts at most one more attempt, and only if the cancel came after its head check. */
  predicate Bounded(r: Run) {
    && (r.late == 0 || (r.late == 1 && r.cancelledPastHead))
    && (!r.cancelled ==> r.late == 0 && !r.cancelledPastHead)
    && (r.cancelled && PastHead(r.pc) ==> r.cancelledPastHead && r.late == 0)
    && (r.pc == Done(Cancelled) ==> r.cancelled)
    && (r.pc.Starting? ==> r.pc.ending.Completed? || r.pc.ending.Expired?)
    && r.late <= r.attempts
  }

  /** The versions a run saw are not older than the version it was spawned at. */
  predicate Reads(version: nat, r: Run) {
    && r.spawnVersion <= version
    && (r.attempts > 0 ==> r.readVersion.Some? && r.spawnVersion <= r.readVersion.value <= version)
  }

  /** No run spawned since the trigger only while the request is still on its way. */
  ghost predicate Remembered(s: State, tr: Trigger) {
    && tr.version <= s.version && tr.runsBefore <= |s.runs|
    && (|s.runs| > tr.runsBefore || s.slot.Some? || !s.worker.Idle?)
    && forall i :: tr.runsBefore <= i < |s.runs| ==> tr.version <= s.runs[i].spawnVersion
  }

  ghost predicate Inv(s: State) {
    && Serial(s)
    && (forall r <- s.runs :: Bounded(r) && Reads(s.version, r))
    && (forall tr <- s.triggers :: Remembered(s, tr))
  }

  // ----- one step -----

  /** What a step of a run keeps. */
  lemma RunStepFrame(s: State, r: Run, e: Event)
    requires IsRunEvent(e) && RunEnabled(s, r, e) && Bounded(r) && Reads(s.version, r)
    ensures var st := RunStep(s, r, e);
            && st.s.slot == s.slot && st.s.worker == s.worker && st.s.cancelTarget == s.cancelTarget
            && st.s.runs == s.runs && st.s.version == s.version && st.s.triggers == s.triggers
            && st.s.wg == (if Live(st.r) then s.wg else s.wg - 1)
            && st.r.cancelled == r.cancelled && st.r.spawnVersion == r.spawnVersion
            && Live(r) && Bounded(st.r) && Reads(s.version, st.r)
            && st.s.sessionsOpened == s.sessionsOpened + (if st.r.pc.Inside? then 1 else 0)
            && st.s.sessionsClosed == s.sessionsClosed + (if r.pc.Inside? then 1 else 0)
  {
    hide Helper, Prepare, S.StopOne, S.StartOne;
  }

  lemma OnlyLastMoves(s: State, e: Event)
    requires Serial(s) && IsRunEvent(e) && Enabled(s, e)
    ensures e.id == |s.runs| - 1
  {
  }

  lemma RunEventKeeps(s: State, e: Event)
    requires Inv(s) && IsRunEvent(e) && Enabled(s, e)
    ensures Inv(Apply(s, e))
  {
    hide RunStep, RunEnabled, Bounded, Reads;
    OnlyLastMoves(s, e);
    RunStepFrame(s, s.runs[e.id], e);
    var s' := Apply(s, e);
    forall r | r in s'.runs ensures Bounded(r) && Reads(s'.version, r) {
      assert r == s'.runs[e.id] || r in s.runs;
    }
    forall tr | tr in s'.triggers ensures Remembered(s', tr) {
      assert Remembered(s, tr);
    }
  }

  lemma WorldKeeps(s: State, e: Event)
    requires Inv(s) && Enabled(s, e)
    requires e.Request? || e.EditFile? || e.Tick? || e.ChangeUnits?
    ensures Inv(Apply(s, e))
  {
    var s' := Apply(s, e);
    forall tr | tr in s'.triggers ensures Remembered(s', tr) {
      if tr in s.triggers {
        assert Remembered(s, tr);
      }
    }
  }

  lemma CheckKeeps(s: State)
    requires Inv(s) && Enabled(s, Check)
    ensures Inv(Apply(s, Check))
  {
    var s' := Apply(s, Check);
    forall r | r in s'.runs ensures Bounded(r) && Reads(s'.version, r) {
      if r !in s.runs {
        assert r == Cancel(Last(s)) && Last(s) in s.runs;
      }
    }
    forall tr | tr in s'.triggers ensures Remembered(s', tr) {
      assert Remembered(s, tr);
    }
  }

  lemma SpawnKeeps(s: State)
    requires Inv(s) && Enabled(s, Spawn)
    ensures Inv(Apply(s, Spawn))
  {
    var s' := Apply(s, Spawn);
    assert forall i :: 0 <= i < |s.runs| ==> s'.runs[i] == s.runs[i] && !Live(s.runs[i]);
    forall tr | tr in s'.triggers ensures Remembered(s', tr) {
      assert Remembered(s, tr);
    }
  }

  lemma QueueKeeps(s: State, e: Event)
    requires Inv(s) && Enabled(s, e)
    requires e.Receive? || e.WaitDone?
    ensures Inv(Apply(s, e))
  {
    forall tr | tr in s.triggers ensures Remembered(Apply(s, e), tr) {
      assert Remembered(s, tr);
    }
  }

  lemma StepKeeps(s: State, e: Event)
    requires Inv(s) && Enabled(s, e)
    ensures Inv(Apply(s, e))
  {
    hide Apply, Inv, Enabled;
    match e
    case Request(_) => WorldKeeps(s, e);
    case EditFile(_) => WorldKeeps(s, e);
    case Tick(_) => WorldKeeps(s, e);
    case ChangeUnits(_) => WorldKeeps(s, e);
    case Receive => QueueKeeps(s, e);
    case Check => CheckKeeps(s);
    case WaitDone => QueueKeeps(s, e);
    case Spawn => SpawnKeeps(s);
    case _ => RunEventKeeps(s, e);
  }

  lemma {:induction false} ExecKeeps(s: State, events: seq<Event>)
    requires Inv(s) && Legal(s, events)
    ensures Inv(Exec(s, events))
    decreases |events|
  {
    hide Apply, Enabled, Inv;
    if events != [] {
      StepKeeps(s, events[0]);
      ExecKeeps(Apply(s, events[0]), events[1..]);
    }
  }

  lemma ReachableInv(s: State)
    requires Reachable(s)
    ensures Inv(s)
  {
    hide Apply, Enabled;
    var node, units, file, events :|
      Legal(Init(node, units, file), events) && s == Exec(Init(node, units, file), events);
    ExecKeeps(Init(node, units, file), events);
  }

  // ----- the theorems -----

  /** The number of live runs. */
  function LiveCount(runs: seq<Run>): nat {
    if runs == [] then 0
    else LiveCount(runs[..|runs| - 1]) + (if Live(runs[|runs| - 1]) then 1 else 0)
  }

  lemma {:induction false} NoneLive(runs: seq<Run>)
    requires forall r <- runs :: !Live(r)
    ensures LiveCount(runs) == 0
  {
    if runs != [] {
      NoneLive(runs[..|runs| - 1]);
    }
  }

  /**
   Serialisation, for every interleaving: the wait group counts the live runs,
   there is at most one, so attempts never overlap, and AMD SMI sessions are
   balanced with at most one open, exactly while the one run is in the helper.
   */
  lemma AtMostOneRun(s: State, i: nat, j: nat)
    requires Reachable(s)
    ensures s.wg == LiveCount(s.runs) && 0 <= s.wg <= 1
    ensures (i < |s.runs| && j < |s.runs| && Live(s.runs[i]) && Live(s.runs[j]) ==> i == j)
    ensures s.sessionsClosed <= s.sessionsOpened <= s.sessionsClosed + 1
    ensures (s.sessionsOpened > s.sessionsClosed <==> exists r <- s.runs :: r.pc.Inside?)
  {
    ReachableInv(s);
    if s.runs != [] {
      var front := s.runs[..|s.runs| - 1];
      forall r | r in front ensures !Live(r) {
        var k :| 0 <= k < |front| && front[k] == r;
        assert s.runs[k] == r;
      }
      NoneLive(front);
      forall r | r in s.runs && r.pc.Inside? ensures r == Last(s) {
        var k :| 0 <= k < |s.runs| && s.runs[k] == r;
      }
      assert Last(s) in s.runs;
    }
  }

  /** Bounded cancellation: no run ever starts two attempts after it was cancelled. */
  lemma AtMostOneLateAttempt(s: State, i: nat)
    requires Reachable(s) && i < |s.runs|
    ensures var r := s.runs[i];
            r.late <= 1 && (r.late == 1 ==> r.cancelled && r.cancelledPastHead)
  {
    ReachableInv(s);
    assert s.runs[i] in s.runs;
  }

  /**
   A cancel changes nothing but the mark on the run: a started attempt goes on, and
   the records of services stay.
   */
  lemma CancelOnlyMarks(s: State)
    requires Inv(s) && Enabled(s, Check) && s.runs != []
    ensures var s' := Apply(s, Check);
            && s'.host == s.host && s'.mgr == s.mgr && s'.base == s.base
            && |s'.runs| == |s.runs|
            && Last(s').pc == Last(s).pc && Last(s').attempts == Last(s).attempts && Last(s').cancelled
            && forall i :: 0 <= i < |s.runs| - 1 ==> s'.runs[i] == s.runs[i]
  {
  }

  /** The current run was cancelled at the head or in the wait, or has ended for that reason. */
  ghost predicate Cancelling(s: State) {
    && s.runs != [] && Last(s).cancelled
    && (Last(s).pc.Head? || Last(s).pc.Waiting? || Last(s).pc == Done(Cancelled))
  }

  lemma CancellingKept(s: State, e: Event)
    requires Inv(s) && Cancelling(s) && Enabled(s, e) && !e.Spawn?
    ensures var s' := Apply(s, e);
            && Cancelling(s') && s'.host.db == s.host.db && s'.base == s.base
            && |s'.runs| == |s.runs| && Last(s').attempts == Last(s).attempts
            && (IsRunEvent(e) ==> s'.host == s.host)
            && (e.WaitCancelled? || e.CheckHead? ==> Last(s').pc == Done(Cancelled))
  {
    hide Helper, Prepare, S.StopOne, S.StartOne, Bounded, Reads, Remembered;
    if IsRunEvent(e) {
      OnlyLastMoves(s, e);
    }
  }

  lemma {:induction false} CancellingLasts(s: State, events: seq<Event>)
    requires Inv(s) && Cancelling(s) && Legal(s, events) && Spawn !in events
    ensures var s' := Exec(s, events);
            && Cancelling(s') && s'.host.db == s.host.db && s'.base == s.base
            && |s'.runs| == |s.runs| && Last(s').attempts == Last(s).attempts
    decreases |events|
  {
    hide Apply, Enabled, Inv, Cancelling;
    if events != [] {
      assert events[0] in events;
      StepKeeps(s, events[0]);
      CancellingKept(s, events[0]);
      CancellingLasts(Apply(s, events[0]), events[1..]);
    }
  }

  /**
   A run that is cancelled at the head or in its wait makes no further attempt and
   leaves the records of services alone, whatever happens until the next run; if it
   ends, it ends cancelled.
   */
  lemma CancelledRunEndsQuietly(s: State, events: seq<Event>)
    requires Reachable(s) && Enabled(s, Check) && s.runs != [] && (Last(s).pc.Head? || Last(s).pc.Waiting?)
    requires Legal(Apply(s, Check), events) && Spawn !in events
    ensures var s' := Exec(Apply(s, Check), events);
            && |s'.runs| == |s.runs| && Last(s').cancelled
            && (Last(s').pc.Head? || Last(s').pc.Waiting? || Last(s').pc == Done(Cancelled))
            && Last(s').attempts == Last(s).attempts
            && s'.host.db == s.host.db && s'.base == s.base
  {
    hide Apply, Enabled, Inv;
    ReachableInv(s);
    CancelOnlyMarks(s);
    StepKeeps(s, Check);
    CancellingLasts(Apply(s, Check), events);
  }
}
