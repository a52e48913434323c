/**
 The duplicate-name check over the profile names of the config file, and the
 map the JSON decoder builds from the same entries, where the last entry of a
 name wins.
 */
module Duplicates {
  import opened Profiles

  /** The keys that occurred before, in the order in which they occur again. */
  function Repeated(keys: seq<string>): seq<string> {
    if keys == [] then []
    else
      var front, last := keys[..|keys| - 1], keys[|keys| - 1];
      Repeated(front) + (if last in front then [last] else [])
  }

  method DetectDuplicateKeys(keys: seq<string>) returns (duplicates: seq<string>)
    ensures duplicates == Repeated(keys)
  {
    var seen: map<string, bool> := map[];
    duplicates := [];
    for i := 0 to |keys|
      invariant seen.Keys == set k | k in keys[..i]
      invariant forall k <- seen :: seen[k]
      invariant duplicates == Repeated(keys[..i])
    {
      var key := keys[i];
      assert keys[..i + 1][..i] == keys[..i];
      if key in seen && seen[key] {
        duplicates := duplicates + [key];
      }
      seen := seen[key := true];
    }
    assert keys[..|keys|] == keys;
  }

  /** Each key is reported one time fewer than it occurs. */
  lemma {:induction false} RepeatedCount(keys: seq<string>, k: string)
    ensures multiset(Repeated(keys))[k] == if k in keys then multiset(keys)[k] - 1 else 0
  {
    if keys != [] {
      var front, last := keys[..|keys| - 1], keys[|keys| - 1];
      RepeatedCount(front, k);
      assert keys == front + [last];
    }
  }

  /** The check fails exactly when some key repeats. */
  lemma {:induction false} RepeatedExact(keys: seq<string>)
    ensures Repeated(keys) == [] <==> Distinct(keys)
  {
    if keys != [] {
      var front, last := keys[..|keys| - 1], keys[|keys| - 1];
      RepeatedExact(front);
      if last in front {
        var i :| 0 <= i < |front| && front[i] == last;
        assert keys[i] == keys[|front|];
      } else {
        assert forall i :: 0 <= i < |front| ==> keys[i] == front[i] && front[i] in front;
      }
    }
  }

  function Names<V>(entries: seq<(string, V)>): (names: seq<string>)
    ensures |names| == |entries|
    ensures forall i :: 0 <= i < |entries| ==> names[i] == entries[i].0
  {
    seq(|entries|, i requires 0 <= i < |entries| => entries[i].0)
  }

  function LastWins<V>(entries: seq<(string, V)>): map<string, V> {
    if entries == [] then map[]
    else
      var last := entries[|entries| - 1];
      LastWins(entries[..|entries| - 1])[last.0 := last.1]
  }

  /** The decoded map has the names of the file as its keys. */
  lemma {:induction false} LastWinsKeys<V>(entries: seq<(string, V)>, name: string)
    ensures name in LastWins(entries) <==> name in Names(entries)
  {
    if entries != [] {
      var front, last := entries[..|entries| - 1], entries[|entries| - 1];
      LastWinsKeys(front, name);
      assert Names(entries) == Names(front) + [last.0];
    }
  }

  /** When no duplicate is reported, looking a name up gives its one entry in the file. */
  lemma {:induction false} LastWinsUnique<V>(entries: seq<(string, V)>, i: nat)
    requires Repeated(Names(entries)) == [] && i < |entries|
    ensures entries[i].0 in LastWins(entries) && LastWins(entries)[entries[i].0] == entries[i].1
  {
    var front, last := entries[..|entries| - 1], entries[|entries| - 1];
    if i < |front| {
      assert Names(front) == Names(entries)[..|entries| - 1];
      LastWinsUnique(front, i);
      RepeatedExact(Names(entries));
      assert Names(entries)[i] != Names(entries)[|front|];
    }
  }
}
