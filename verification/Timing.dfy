/**
 Time in a run: the bound on its attempts from the 30-minute expiry, the one-minute
 wait and the 10-second status query per service; and its termination.
 */
module Timing {
  import opened Engine
  import opened System
  import opened Serialisation
  import S = Services

  /** The least time from one head check to the next with `n` services. */
  function Period(n: nat): nat {
    RETRY_WAIT + STATUS_DELAY * n
  }

  /** `times * amount`, by repeated addition. */
  function Total(times: nat, amount: nat): nat {
    if times == 0 then 0 else Total(times - 1, amount) + amount
  }

  lemma {:induction false} TotalIsProduct(times: nat, amount: nat)
    ensures Total(times, amount) == times * amount
  {
    if times > 0 {
      TotalIsProduct(times - 1, amount);
      assert times * amount == (times - 1) * amount + amount;
    }
  }

  /** The attempts made so far fit in the window. */
  predicate Within(attempts: nat, n: nat) {
    attempts > 0 ==> Total(attempts - 1, Period(n)) <= RETRY_WINDOW
  }

  predicate OnTime(clock: nat, r: Run) {
    var n := |r.services|;
    var spent := r.begun + Total(r.attempts, Period(n));
    match r.pc
    case Begin => r.attempts == 0
    case Load => r.attempts == 0
    case Head => Within(r.attempts, n) && spent <= clock && (r.attempts == 0 ==> clock == r.begun)
    case Stopping(k, since) =>
      Total(r.attempts, Period(n)) <= RETRY_WINDOW && k < n && spent + STATUS_DELAY * k <= since <= clock
    case Calling => Total(r.attempts, Period(n)) <= RETRY_WINDOW && spent + STATUS_DELAY * n <= clock
    case Inside(_) => r.attempts > 0 && Within(r.attempts, n) && spent <= clock + RETRY_WAIT
    case Waiting(since) => r.attempts > 0 && Within(r.attempts, n) && spent <= since + RETRY_WAIT && since <= clock
    case Starting(k, _) => k <= n && r.attempts > 0 && Within(r.attempts, n)
    case Done(ending) =>
      && Within(r.attempts, n)
      && (ending.Completed? || ending.Expired? ==> r.attempts > 0)
      && (ending.BadConfig? ==> r.attempts == 0)
  }

  ghost predicate AllOnTime(s: State) {
    forall r <- s.runs :: OnTime(s.clock, r)
  }

  lemma RunStepOnTime(s: State, r: Run, e: Event)
    requires IsRunEvent(e) && RunEnabled(s, r, e) && Bounded(r) && OnTime(s.clock, r)
    ensures RunStep(s, r, e).s.clock == s.clock && OnTime(s.clock, RunStep(s, r, e).r)
    ensures RunStep(s, r, e).s.runs == s.runs
  {
    hide Helper, Prepare, S.StopOne, S.StartOne;
  }

  lemma OnTimeKept(s: State, e: Event)
    requires Inv(s) && AllOnTime(s) && Enabled(s, e)
    ensures AllOnTime(Apply(s, e))
  {
    hide RunStep, RunEnabled, OnTime;
    var s' := Apply(s, e);
    if IsRunEvent(e) {
      assert s.runs[e.id] in s.runs;
      RunStepOnTime(s, s.runs[e.id], e);
    }
    forall r | r in s'.runs ensures OnTime(s'.clock, r) {
      if r in s.runs {
        LaterOnTime(s.clock, s'.clock, r);
      } else if e.Check? {
        CancelOnTime(s.clock, Last(s));
      } else if e.Spawn? {
        NewRunOnTime(s, s.worker.profile);
      }
    }
  }

  lemma LaterOnTime(clock: nat, later: nat, r: Run)
    requires OnTime(clock, r) && clock <= later && (Fresh(r) ==> later == clock)
    ensures OnTime(later, r)
  {
  }

  lemma CancelOnTime(clock: nat, r: Run)
    requires OnTime(clock, r)
    ensures OnTime(clock, Cancel(r))
  {
  }

  lemma NewRunOnTime(s: State, profile: string)
    ensures OnTime(s.clock, NewRun(s, profile))
  {
  }

  lemma {:induction false} ExecOnTime(s: State, events: seq<Event>)
    requires Inv(s) && AllOnTime(s) && Legal(s, events)
    ensures AllOnTime(Exec(s, events))
    decreases |events|
  {
    hide Apply, Enabled, Inv, AllOnTime;
    if events != [] {
      OnTimeKept(s, events[0]);
      StepKeeps(s, events[0]);
      ExecOnTime(Apply(s, events[0]), events[1..]);
    }
  }

  lemma ReachableOnTime(s: State)
    requires Reachable(s)
    ensures AllOnTime(s)
  {
    hide Apply, Enabled;
    var node, units, file, events :|
      Legal(Init(node, units, file), events) && s == Exec(Init(node, units, file), events);
    ExecOnTime(Init(node, units, file), events);
  }

  /** The most attempts a run over `n` services can make. */
  function MaxAttempts(n: nat): nat {
    RETRY_WINDOW / Period(n) + 1
  }

  lemma WithinBound(attempts: nat, n: nat)
    requires Within(attempts, n)
    ensures attempts <= MaxAttempts(n)
  {
    if attempts > 0 {
      TotalIsProduct(attempts - 1, Period(n));
      QuotientBound(attempts - 1, Period(n), RETRY_WINDOW);
    }
  }

  lemma QuotientBound(times: nat, amount: nat, limit: nat)
    requires amount > 0 && times * amount <= limit
    ensures times <= limit / amount
  {
    var q := limit / amount;
    assert limit < (q + 1) * amount;
    if q + 1 <= times {
      ProductMonotone(q + 1, times, amount);
    }
  }

  lemma ProductMonotone(a: nat, b: nat, amount: nat)
    requires a <= b
    ensures a * amount <= b * amount
  {
  }

  /** Attempt bound, for every interleaving: at most floor(1800 / (60 + 10 n)) + 1 attempts. */
  lemma AttemptBound(s: State, i: nat)
    requires Reachable(s) && i < |s.runs|
    ensures s.runs[i].attempts <= 1800 / (60 + 10 * |s.runs[i].services|) + 1
  {
    var r := s.runs[i];
    assert r in s.runs;
    ReachableOnTime(s);
    WithinBound(r.attempts, |r.services|);
  }

  // ----- termination of a run -----

  /** An upper bound on the steps a run that has read its service list still makes. */
  function StepsLeft(r: Run): nat
    requires r.attempts <= MaxAttempts(|r.services|) && (r.pc.Stopping? || r.pc.Starting? ==> r.pc.k <= |r.services|)
  {
    var n := |r.services|;
    Total(MaxAttempts(n) - r.attempts, n + 5) +
    match r.pc
    case Inside(_) => n + 4
    case Waiting(_) => n + 3
    case Head => n + 2
    case Stopping(k, _) => n - k
    case Starting(k, _) => n - k + 1
    case _ => 0
  }

  /** Every step a run makes after reading its service list uses up one of them. */
  lemma RunTerminates(s: State, r: Run, e: Event)
    requires IsRunEvent(e) && RunEnabled(s, r, e) && Bounded(r) && OnTime(s.clock, r)
    requires !r.pc.Begin? && !r.pc.Load?
    ensures r.attempts <= MaxAttempts(|r.services|)
    ensures var r' := RunStep(s, r, e).r;
            && r'.attempts <= MaxAttempts(|r'.services|)
            && (r'.pc.Stopping? || r'.pc.Starting? ==> r'.pc.k <= |r'.services|)
            && StepsLeft(r') < StepsLeft(r)
  {
    hide Helper, Prepare, S.StopOne, S.StartOne, Within, MaxAttempts;
    var r' := RunStep(s, r, e).r;
    RunStepOnTime(s, r, e);
    OnTimeBound(s.clock, r);
    OnTimeBound(s.clock, r');
  }

  lemma OnTimeBound(clock: nat, r: Run)
    requires OnTime(clock, r)
    ensures r.attempts <= MaxAttempts(|r.services|)
  {
    hide Total, MaxAttempts;
    if r.pc.Begin? || r.pc.Load? {
      WithinBound(0, |r.services|);
    } else {
      assert Within(r.attempts, |r.services|) by { TotalGrows(r.attempts, Period(|r.services|)); }
      WithinBound(r.attempts, |r.services|);
    }
  }

  lemma TotalGrows(times: nat, amount: nat)
    ensures times > 0 ==> Total(times - 1, amount) <= Total(times, amount)
  {
  }
}
