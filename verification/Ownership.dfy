/** Exclusive holding of named resources by the members of a list, and counting the members that hold one. */
module Ownership {
  import opened Wrappers

  /** `taken` is exactly the set of keys that are held, and no key is held twice. */
  ghost predicate Exclusive<T>(key: T -> Option<string>, holders: seq<T>, taken: set<string>) {
    && (forall i :: 0 <= i < |holders| && key(holders[i]).Some? ==> key(holders[i]).value in taken)
    && (forall k :: k in taken ==> exists i :: 0 <= i < |holders| && key(holders[i]) == Some(k))
    && (forall i, j :: 0 <= i < j < |holders| && key(holders[i]).Some? ==> key(holders[i]) != key(holders[j]))
  }

  /** One key was taken that was free, or given back, or nothing changed. */
  predicate KeyChange(before: Option<string>, after: Option<string>, taken: set<string>, taken': set<string>) {
    match (before, after)
    case (None, Some(k)) => k !in taken && taken' == taken + {k}
    case (Some(k), None) => taken' == taken - {k}
    case (a, b) => a == b && taken' == taken
  }

  lemma NobodyHolds<T>(key: T -> Option<string>, holders: seq<T>, taken: set<string>)
    requires Exclusive(key, holders, taken)
    requires forall i :: 0 <= i < |holders| ==> key(holders[i]).None?
    ensures taken == {}
  {
  }

  lemma HeldOnce<T>(key: T -> Option<string>, holders: seq<T>, taken: set<string>, i: nat, j: nat)
    requires Exclusive(key, holders, taken) && i < j < |holders|
    ensures key(holders[i]).Some? ==> key(holders[i]) != key(holders[j])
  {
  }

  lemma ExclusiveUpdate<T>(key: T -> Option<string>, holders: seq<T>, taken: set<string>, i: nat, h: T, taken': set<string>)
    requires Exclusive(key, holders, taken) && i < |holders|
    requires KeyChange(key(holders[i]), key(h), taken, taken')
    ensures Exclusive(key, holders[i := h], taken')
  {
    var holders' := holders[i := h];
    forall k | k in taken'
      ensures exists j :: 0 <= j < |holders'| && key(holders'[j]) == Some(k)
    {
      if key(h) == Some(k) {
        assert key(holders'[i]) == Some(k);
      } else {
        var j :| 0 <= j < |holders| && key(holders[j]) == Some(k);
        assert key(holders'[j]) == Some(k);
      }
    }
  }

  function Count<T>(holds: T -> bool, holders: seq<T>): nat {
    if holders == [] then 0
    else Count(holds, holders[..|holders| - 1]) + (if holds(holders[|holders| - 1]) then 1 else 0)
  }

  lemma {:induction false} CountUpdate<T>(holds: T -> bool, holders: seq<T>, i: nat, h: T)
    requires i < |holders|
    ensures Count(holds, holders[i := h]) == Count(holds, holders) - (if holds(holders[i]) then 1 else 0) + (if holds(h) then 1 else 0)
  {
    var n := |holders| - 1;
    if i == n {
      assert holders[i := h][..n] == holders[..n];
    } else {
      assert holders[i := h][..n] == holders[..n][i := h];
      CountUpdate(holds, holders[..n], i, h);
    }
  }

  lemma {:induction false} HolderCounts<T>(holds: T -> bool, holders: seq<T>, i: nat)
    requires i < |holders| && holds(holders[i])
    ensures Count(holds, holders) > 0
  {
    if i < |holders| - 1 {
      HolderCounts(holds, holders[..|holders| - 1], i);
    }
  }

  lemma {:induction false} NoHolderNoCount<T>(holds: T -> bool, holders: seq<T>)
    requires forall i :: 0 <= i < |holders| ==> !holds(holders[i])
    ensures Count(holds, holders) == 0
  {
    if holders != [] {
      NoHolderNoCount(holds, holders[..|holders| - 1]);
    }
  }

  function Total<T>(rank: T -> nat, items: seq<T>): nat {
    if items == [] then 0 else Total(rank, items[..|items| - 1]) + rank(items[|items| - 1])
  }

  lemma {:induction false} TotalUpdate<T>(rank: T -> nat, items: seq<T>, i: nat, item: T)
    requires i < |items|
    ensures Total(rank, items[i := item]) == Total(rank, items) - rank(items[i]) + rank(item)
  {
    var n := |items| - 1;
    if i == n {
      assert items[i := item][..n] == items[..n];
    } else {
      assert items[i := item][..n] == items[..n][i := item];
      TotalUpdate(rank, items[..n], i, item);
    }
  }
}
