/**
 The wait for the kernel-module manager to bring the driver back: the memory
 mode is polled at the ticks of a 5-second ticker until it matches or the
 5-minute timeout wins.
 */
module Recovery {
  const TIMEOUT := 300
  const INTERVAL := 5

  /**
   The outside world during one recovery: whether unloading the driver and
   deleting the NodeModulesConfig worked, what each poll reads and how many seconds
   that takes, and how many polls prefer a ready tick to a timeout that is ready too.
   */
  datatype World = World(handled: bool, polled: nat -> string, took: nat -> nat, patience: nat)

  /** A world in which no recovery is attempted with success. */
  const IDLE := World(false, _ => "", _ => 0, 0)

  function Max(a: nat, b: nat): nat {
    if a < b then b else a
  }

  /** The next tick after one was taken at `now`: the ticker keeps at most one tick and drops the rest. */
  function NextTick(now: nat): nat {
    INTERVAL * (now / INTERVAL + 1)
  }

  /** When poll `i` begins, if the timeout has not won before. */
  function PollTime(w: World, i: nat): (at: nat)
    ensures at >= INTERVAL * (i + 1)
  {
    if i == 0 then INTERVAL
    else
      var before := PollTime(w, i - 1);
      Max(before + w.took(i - 1), NextTick(before))
  }

  /** When the loop is free for poll `i`, and when a tick is there for it. */
  function FreeTime(w: World, i: nat): nat {
    if i == 0 then 0 else PollTime(w, i - 1) + w.took(i - 1)
  }

  function TickTime(w: World, i: nat): nat {
    if i == 0 then INTERVAL else NextTick(PollTime(w, i - 1))
  }

  predicate TickWins(w: World, i: nat) {
    PollTime(w, i) < TIMEOUT || (TickTime(w, i) <= Max(FreeTime(w, i), TIMEOUT) && i < w.patience)
  }

  /** The number of polls from poll `i` on that begin before the timeout wins. */
  function PollsFrom(w: World, i: nat): (n: nat)
    ensures n >= i && !TickWins(w, n)
    ensures forall k :: i <= k < n ==> TickWins(w, k)
    decreases TIMEOUT + w.patience - i
  {
    if TickWins(w, i) then PollsFrom(w, i + 1) else i
  }

  function Polls(w: World): nat {
    PollsFrom(w, 0)
  }

  predicate Recovers(w: World, expected: string) {
    w.handled && exists i: nat :: i < Polls(w) && w.polled(i) == expected
  }

  lemma FirstRound(w: World)
    ensures FreeTime(w, 0) == 0 && TickTime(w, 0) == INTERVAL
  {
  }

  lemma NextRound(w: World, i: nat)
    ensures PollTime(w, i) == Max(FreeTime(w, i), TickTime(w, i))
    ensures FreeTime(w, i + 1) == PollTime(w, i) + w.took(i) && TickTime(w, i + 1) == NextTick(PollTime(w, i))
    ensures PollsFrom(w, i) == if TickWins(w, i) then PollsFrom(w, i + 1) else i
  {
  }

  /** Polls until a match or the timeout; `polls` reads were made. */
  method PollMemory(w: World, expected: string) returns (success: bool, polls: nat)
    requires w.handled
    ensures success <==> Recovers(w, expected)
    ensures success ==> 0 < polls <= Polls(w) && w.polled(polls - 1) == expected
    ensures !success ==> polls == Polls(w)
    ensures forall i: nat :: i + 1 < polls ==> w.polled(i) != expected
  {
    hide PollTime, FreeTime, TickTime, PollsFrom;
    FirstRound(w);
    success, polls := false, 0;
    var timeoutHit := false;
    var now, tick := 0, INTERVAL;
    while true
      invariant !success && !timeoutHit && Polls(w) == PollsFrom(w, polls)
      invariant now == FreeTime(w, polls) && tick == TickTime(w, polls)
      invariant forall i: nat :: i < polls ==> w.polled(i) != expected
      decreases Polls(w) - polls
    {
      NextRound(w, polls);
      var at := Max(now, tick);
      if at < TIMEOUT || (tick <= Max(now, TIMEOUT) && polls < w.patience) {
        success := w.polled(polls) == expected;
        now, tick := at + w.took(polls), NextTick(at);
        polls := polls + 1;
      } else {
        timeoutHit := true;
      }
      if success || timeoutHit {
        break;
      }
    }
  }

  /**
   Poll `i + 1` begins as soon as poll `i` is over and the ticker has fired since poll
   `i` began: at once after a slow read, at the next multiple of 5 seconds otherwise.
   */
  lemma NextPollTime(w: World, i: nat)
    ensures PollTime(w, 0) == 5
    ensures var t, u := PollTime(w, i), PollTime(w, i + 1);
            && u >= t + w.took(i) && Fires(t, u)
            && forall v: nat :: t + w.took(i) <= v < u ==> !Fires(t, v)
  {
    var t, u := PollTime(w, i), PollTime(w, i + 1);
    assert t < FireTime(t / 5 + 1) <= u;
  }

  /** The ticker fires every 5 seconds. */
  function FireTime(k: nat): nat {
    5 * k
  }

  /** It fires after `t` and not after `u`. */
  ghost predicate Fires(t: nat, u: nat) {
    exists k: nat :: t < FireTime(k) <= u
  }

  /** Polls begin before 5 minutes have passed, except those in which a ready tick is preferred to the timeout. */
  lemma PollsInTime(w: World)
    ensures forall i: nat :: i < Polls(w) ==> PollTime(w, i) < 300 || i < w.patience
    ensures PollTime(w, Polls(w)) >= 300
  {
    forall i: nat | i < Polls(w) ensures PollTime(w, i) < 300 || i < w.patience {
      assert TickWins(w, i);
    }
  }

  /** The first poll always takes place. */
  lemma FirstPoll(w: World)
    ensures Polls(w) > 0
  {
  }

  /** With reads faster than the ticker there is one poll a tick: 59, or 60 if the last tick beats the timeout. */
  lemma PollsOfFastReads(w: World)
    requires forall i: nat :: w.took(i) < 5
    ensures Polls(w) == if w.patience < 60 then 59 else 60
  {
    var n := TIMEOUT / INTERVAL;
    forall i: nat ensures PollTime(w, i) == INTERVAL * (i + 1) {
      OnePollATick(w, i);
    }
    assert forall i: nat :: i < n - 1 ==> TickWins(w, i);
    assert TickWins(w, n - 1) <==> n <= w.patience;
    assert !TickWins(w, n);
  }

  lemma {:induction false} OnePollATick(w: World, i: nat)
    requires forall k: nat :: w.took(k) < INTERVAL
    ensures PollTime(w, i) == INTERVAL * (i + 1)
  {
    if i > 0 {
      OnePollATick(w, i - 1);
    }
  }
}
