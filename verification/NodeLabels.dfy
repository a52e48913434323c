/**
 The read-modify-write of a node label: at most ten rounds of fetch, edit and
 update, against other writers. An update is a compare-and-swap on the resource
 version (Kubernetes API conventions, section "Concurrency Control and Consistency").
 */
module NodeLabels {
  type Labels = map<string, string>

  const RETRIES := 10

  /** A committed write of the node's labels. */
  datatype Commit = Commit(mine: bool, before: Labels, after: Labels)

  /** The node as the API server stores it, with the history of its label writes. */
  datatype Server = Server(labels: Labels, version: nat, log: seq<Commit>)

  /**
   What happens around one round: the writes of others before the fetch and
   between fetch and update, and whether the two calls fail on their own account.
   */
  datatype Round = Round(beforeGet: seq<Labels>, getFails: bool, beforeUpdate: seq<Labels>, updateFails: bool)

  function Write(s: Server, mine: bool, after: Labels): Server {
    Server(after, s.version + 1, s.log + [Commit(mine, s.labels, after)])
  }

  /** Writes of other clients, one after the other. */
  function Others(s: Server, writes: seq<Labels>): Server
    decreases |writes|
  {
    if writes == [] then s else Others(Write(s, false, writes[0]), writes[1..])
  }

  /** The server after an update of `labels` fetched at `version`, and whether it was accepted. */
  function Update(s: Server, version: nat, labels: Labels, fails: bool): (Server, bool) {
    if fails || version != s.version then (s, false) else (Write(s, true, labels), true)
  }

  /** The edit of a round; the update is skipped when there is nothing to delete. */
  datatype Edit = Add(key: string, value: string) | Delete(key: string)

  function Apply(e: Edit, labels: Labels): Labels {
    match e
    case Add(key, value) => labels[key := value]
    case Delete(key) => labels - {key}
  }

  predicate NothingToDo(e: Edit, labels: Labels) {
    e.Delete? && e.key !in labels
  }

  /** The rounds from `i` on: the server afterwards, and whether nil is returned. */
  function Rounds(s: Server, e: Edit, script: nat -> Round, i: nat): (Server, bool)
    requires i <= RETRIES
    decreases RETRIES - i
  {
    if i == RETRIES then (s, false)
    else
      var r := script(i);
      var s1 := Others(s, r.beforeGet);
      if r.getFails then Rounds(s1, e, script, i + 1)
      else if NothingToDo(e, s1.labels) then (s1, true)
      else
        var (s2, ok) := Update(Others(s1, r.beforeUpdate), s1.version, Apply(e, s1.labels), r.updateFails);
        if ok then (s2, true) else Rounds(s2, e, script, i + 1)
  }

  /** The API server and the client's two label operations. */
  class K8sClient {
    var labels: Labels
    var version: nat
    var log: seq<Commit>   // every label write so far

    constructor (labels: Labels)
      ensures Value() == Server(labels, 0, [])
    {
      this.labels := labels;
      version, log := 0, [];
    }

    function Value(): Server
      reads this
    {
      Server(labels, version, log)
    }

    method WriteLabels(mine: bool, after: Labels)
      modifies this
      ensures Value() == Write(old(Value()), mine, after)
    {
      log := log + [Commit(mine, labels, after)];
      labels := after;
      version := version + 1;
    }

    /** Other clients get their turn. */
    method Interfere(writes: seq<Labels>)
      modifies this
      ensures Value() == Others(old(Value()), writes)
    {
      for k := 0 to |writes|
        invariant Others(old(Value()), writes) == Others(Value(), writes[k..])
      {
        WriteLabels(false, writes[k]);
      }
    }

    method UpdateNode(fetched: nat, edited: Labels, fails: bool) returns (ok: bool)
      modifies this
      ensures (Value(), ok) == Update(old(Value()), fetched, edited, fails)
    {
      ok := !fails && fetched == version;
      if ok {
        WriteLabels(true, edited);
      }
    }

    method AddNodeLabel(key: string, value: string, script: nat -> Round) returns (ok: bool)
      modifies this
      ensures (Value(), ok) == Rounds(old(Value()), Add(key, value), script, 0)
    {
      for i := 0 to RETRIES
        invariant Rounds(old(Value()), Add(key, value), script, 0) == Rounds(Value(), Add(key, value), script, i)
      {
        var round := script(i);
        Interfere(round.beforeGet);
        if round.getFails {
          continue;
        }
        var fetched, node := version, labels;
        node := node[key := value];
        Interfere(round.beforeUpdate);
        ok := UpdateNode(fetched, node, round.updateFails);
        if ok {
          return;
        }
      }
      return false;
    }

    method DeleteNodeLabel(key: string, script: nat -> Round) returns (ok: bool)
      modifies this
      ensures (Value(), ok) == Rounds(old(Value()), Delete(key), script, 0)
    {
      for i := 0 to RETRIES
        invariant Rounds(old(Value()), Delete(key), script, 0) == Rounds(Value(), Delete(key), script, i)
      {
        var round := script(i);
        Interfere(round.beforeGet);
        if round.getFails {
          continue;
        }
        var fetched, node := version, labels;
        if key !in node {
          return true;
        }
        node := node - {key};
        Interfere(round.beforeUpdate);
        ok := UpdateNode(fetched, node, round.updateFails);
        if ok {
          return;
        }
      }
      return false;
    }
  }

  // ----- the history of writes -----

  /** The log explains the labels: each write starts from what the previous one left. */
  ghost predicate Chained(s: Server, start: Labels) {
    && (s.log != [] ==> s.log[0].before == start)
    && (forall k :: 0 < k < |s.log| ==> s.log[k].before == s.log[k - 1].after)
    && s.labels == (if s.log == [] then start else s.log[|s.log| - 1].after)
  }

  /** `s'` comes from `s` by writes of others only. */
  ghost predicate OnlyOthers(s: Server, s': Server) {
    && s.log <= s'.log
    && s'.version - s.version == |s'.log| - |s.log|
    && forall k :: |s.log| <= k < |s'.log| ==> !s'.log[k].mine
  }

  lemma WriteChained(s: Server, mine: bool, after: Labels, start: Labels)
    requires Chained(s, start)
    ensures Chained(Write(s, mine, after), start)
  {
    var log := Write(s, mine, after).log;
    forall k | 0 < k < |log| ensures log[k].before == log[k - 1].after {
      assert log[k - 1] == s.log[k - 1];
    }
  }

  lemma OnlyOthersTransitive(s: Server, s1: Server, s2: Server)
    requires OnlyOthers(s, s1) && OnlyOthers(s1, s2)
    ensures OnlyOthers(s, s2)
  {
    assert forall k :: |s.log| <= k < |s1.log| ==> s2.log[k] == s1.log[k];
  }

  lemma {:induction false} OthersFacts(s: Server, writes: seq<Labels>, start: Labels)
    requires Chained(s, start)
    ensures Chained(Others(s, writes), start) && OnlyOthers(s, Others(s, writes))
    ensures Others(s, writes).version == s.version + |writes|
    decreases |writes|
  {
    hide Chained;
    if writes != [] {
      var s1 := Write(s, false, writes[0]);
      WriteChained(s, false, writes[0], start);
      OthersFacts(s1, writes[1..], start);
      OnlyOthersTransitive(s, s1, Others(s, writes));
    }
  }

  /** Nothing was written by others when the version did not move: the edit applies to the current labels. */
  lemma UnchangedVersion(s: Server, writes: seq<Labels>, start: Labels)
    requires Chained(s, start) && Others(s, writes).version == s.version
    ensures Others(s, writes) == s
  {
    OthersFacts(s, writes, start);
  }

  /** Exactly one write is ours, it is the last one, and it changes the labels just before it by the edit. */
  ghost predicate CommittedOnce(s: Server, s': Server, e: Edit) {
    && |s.log| < |s'.log| && s.log <= s'.log
    && (forall k :: |s.log| <= k < |s'.log| - 1 ==> !s'.log[k].mine)
    && s'.log[|s'.log| - 1].mine
    && OnlyKey(s'.log[|s'.log| - 1], e)
    && s'.labels == s'.log[|s'.log| - 1].after
  }

  /** The write changes the key of the edit as the edit says, and no other key. */
  ghost predicate OnlyKey(c: Commit, e: Edit) {
    && (forall k :: k != e.key ==> (k in c.after <==> k in c.before) && (k in c.before ==> c.after[k] == c.before[k]))
    && (e.Add? ==> e.key in c.after && c.after[e.key] == e.value)
    && (e.Delete? ==> e.key !in c.after)
  }

  lemma OthersThenCommit(s: Server, s1: Server, s2: Server, e: Edit)
    requires OnlyOthers(s, s1) && CommittedOnce(s1, s2, e)
    ensures CommittedOnce(s, s2, e)
  {
    assert forall k :: |s.log| <= k < |s1.log| ==> s2.log[k] == s1.log[k];
  }

  lemma CommitNow(s: Server, e: Edit, start: Labels)
    requires Chained(s, start)
    ensures CommittedOnce(s, Write(s, true, Apply(e, s.labels)), e)
    ensures Chained(Write(s, true, Apply(e, s.labels)), start)
  {
    WriteChained(s, true, Apply(e, s.labels), start);
  }

  /** What the rounds did: one commit of ours, nothing to delete, or nothing of ours. */
  ghost predicate Outcome(s: Server, s': Server, e: Edit, ok: bool) {
    if ok then CommittedOnce(s, s', e) || (OnlyOthers(s, s') && NothingToDo(e, s'.labels)) else OnlyOthers(s, s')
  }

  lemma OthersThenOutcome(s: Server, s1: Server, s2: Server, e: Edit, ok: bool)
    requires OnlyOthers(s, s1) && Outcome(s1, s2, e, ok)
    ensures Outcome(s, s2, e, ok)
  {
    hide CommittedOnce, OnlyOthers;
    if OnlyOthers(s1, s2) {
      OnlyOthersTransitive(s, s1, s2);
    }
    if CommittedOnce(s1, s2, e) {
      OthersThenCommit(s, s1, s2, e);
    }
  }

  /** A round that gets its update through. */
  predicate GoesThrough(r: Round) {
    !r.getFails && !r.updateFails && r.beforeUpdate == []
  }

  /**
   The outcome of the rounds: nil means exactly one commit, or that there was
   nothing to delete; an error means that nothing of ours was committed.
   */
  lemma {:induction false} RoundsFacts(s: Server, e: Edit, script: nat -> Round, i: nat, start: Labels)
    requires i <= RETRIES && Chained(s, start)
    ensures Chained(Rounds(s, e, script, i).0, start)
    ensures Outcome(s, Rounds(s, e, script, i).0, e, Rounds(s, e, script, i).1)
    decreases RETRIES - i, 1
  {
    hide Chained, CommittedOnce, Others, NothingToDo;
    if i == RETRIES {
      NothingHappened(s);
    } else {
      var r := script(i);
      var s1 := Others(s, r.beforeGet);
      OthersFacts(s, r.beforeGet, start);
      var (s', ok) := Rounds(s, e, script, i);
      assert Chained(s', start) && Outcome(s1, s', e, ok) by {
        if r.getFails {
          RoundsFacts(s1, e, script, i + 1, start);
        } else if NothingToDo(e, s1.labels) {
          NothingHappened(s1);
        } else {
          UpdateFacts(s1, e, script, i, start);
        }
      }
      OthersThenOutcome(s, s1, s', e, ok);
    }
  }

  lemma NothingHappened(s: Server)
    ensures OnlyOthers(s, s)
  {
  }

  /** A round from its fetch on, when there is something to do. */
  lemma {:induction false} UpdateFacts(s1: Server, e: Edit, script: nat -> Round, i: nat, start: Labels)
    requires i < RETRIES && Chained(s1, start)
    ensures var s2 := Others(s1, script(i).beforeUpdate);
            var (s3, done) := Update(s2, s1.version, Apply(e, s1.labels), script(i).updateFails);
            var (s', ok) := if done then (s3, true) else Rounds(s3, e, script, i + 1);
            Chained(s', start) && Outcome(s1, s', e, ok)
    decreases RETRIES - i, 0
  {
    hide Chained, CommittedOnce, Others, OnlyOthers, Rounds;
    var r := script(i);
    var s2 := Others(s1, r.beforeUpdate);
    OthersFacts(s1, r.beforeUpdate, start);
    if r.updateFails || s2.version != s1.version {
      RoundsFacts(s2, e, script, i + 1, start);
      OthersThenOutcome(s1, s2, Rounds(s2, e, script, i + 1).0, e, Rounds(s2, e, script, i + 1).1);
    } else {
      UnchangedVersion(s1, r.beforeUpdate, start);
      CommitNow(s1, e, start);
    }
  }

  /**
   `AddNodeLabel` is an atomic map update: in every interleaving it returns nil
   exactly when one of the ten rounds goes through; then it committed once, and the
   committed labels are the labels just before with only its key changed.
   */
  lemma AddIsAtomic(s: Server, key: string, value: string, script: nat -> Round, start: Labels)
    requires Chained(s, start)
    ensures var (s', ok) := Rounds(s, Add(key, value), script, 0);
            && (ok <==> exists i: nat :: i < 10 && GoesThrough(script(i)))
            && (ok ==> CommittedOnce(s, s', Add(key, value)) && key in s'.labels && s'.labels[key] == value)
            && (!ok ==> OnlyOthers(s, s'))
            && Chained(s', start)
  {
    RoundsFacts(s, Add(key, value), script, 0, start);
    NilExactly(s, Add(key, value), script, 0, start);
    assert forall i: nat :: Settles(s, Add(key, value), script, i) <==> GoesThrough(script(i));
  }

  /** The server when round `i` fetches, if no earlier round wrote anything. */
  function Fetched(s: Server, script: nat -> Round, i: nat): Server
    decreases i, 1
  {
    Others(Before(s, script, i), script(i).beforeGet)
  }

  function Before(s: Server, script: nat -> Round, i: nat): Server
    decreases i, 0
  {
    if i == 0 then s
    else if script(i - 1).getFails then Fetched(s, script, i - 1)
    else Others(Fetched(s, script, i - 1), script(i - 1).beforeUpdate)
  }

  /** Round `i` ends the call: it fetches, and finds nothing to do or gets its update through. */
  predicate Settles(s: Server, e: Edit, script: nat -> Round, i: nat) {
    !script(i).getFails && (NothingToDo(e, Fetched(s, script, i).labels) || GoesThrough(script(i)))
  }

  ghost predicate SomeRoundSettles(s: Server, e: Edit, script: nat -> Round, i: nat) {
    exists j: nat :: i <= j < RETRIES && Settles(s, e, script, j)
  }

  /** From round `i` on nil is returned exactly when one of the rounds left ends the call. */
  lemma {:induction false} NilExactly(s: Server, e: Edit, script: nat -> Round, i: nat, start: Labels)
    requires i <= RETRIES && Chained(Before(s, script, i), start)
    ensures Rounds(Before(s, script, i), e, script, i).1 <==> SomeRoundSettles(s, e, script, i)
    decreases RETRIES - i
  {
    hide Chained, Others, OnlyOthers, SomeRoundSettles, NothingToDo;
    NextRound(s, e, script, i);
    if i < RETRIES {
      var r := script(i);
      var s0, s1 := Before(s, script, i), Fetched(s, script, i);
      OthersFacts(s0, r.beforeGet, start);
      OthersFacts(s1, r.beforeUpdate, start);
      NilExactly(s, e, script, i + 1, start);
    }
  }

  lemma NextRound(s: Server, e: Edit, script: nat -> Round, i: nat)
    ensures i >= RETRIES ==> !SomeRoundSettles(s, e, script, i)
    ensures i < RETRIES ==>
              (SomeRoundSettles(s, e, script, i) <==> Settles(s, e, script, i) || SomeRoundSettles(s, e, script, i + 1))
  {
    hide Settles;
    if i < RETRIES && SomeRoundSettles(s, e, script, i) && !Settles(s, e, script, i) {
      var j: nat :| i <= j < RETRIES && Settles(s, e, script, j);
      assert i + 1 <= j;
    }
  }

  /**
   `DeleteNodeLabel` removes only its key, or finds it absent and writes nothing. It
   returns nil exactly when one of the ten rounds fetches and either finds the key
   absent or goes through.
   */
  lemma DeleteIsAtomic(s: Server, key: string, script: nat -> Round, start: Labels)
    requires Chained(s, start)
    ensures var (s', ok) := Rounds(s, Delete(key), script, 0);
            && (ok <==> exists i: nat :: i < 10 && !script(i).getFails &&
                          (key !in Fetched(s, script, i).labels || GoesThrough(script(i))))
            && (ok ==> key !in s'.labels)
            && (ok ==> CommittedOnce(s, s', Delete(key)) || OnlyOthers(s, s'))
            && (!ok ==> OnlyOthers(s, s'))
            && Chained(s', start)
  {
    RoundsFacts(s, Delete(key), script, 0, start);
    NilExactly(s, Delete(key), script, 0, start);
    assert forall i: nat :: Settles(s, Delete(key), script, i) <==>
             !script(i).getFails && (key !in Fetched(s, script, i).labels || GoesThrough(script(i)));
  }
}
