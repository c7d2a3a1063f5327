/** Stamped maps as least-recently-used lists: the representation both caches of pkg/agent/filesystem/cache.go share. */
module Recency {
  import opened Files

  /** A cache entry with its expiry time and the sequence number of its last use. */
  datatype Stamped<+V> = Stamped(value: V, expires: int, stamp: nat)

  /** Sequence numbers are distinct and none is beyond the counter. */
  ghost predicate Ranked<K, V>(entries: map<K, Stamped<V>>, sequence: nat) {
    && (forall k :: k in entries ==> entries[k].stamp <= sequence)
    && (forall j, k :: j in entries && k in entries && j != k ==> entries[j].stamp != entries[k].stamp)
  }

  /** The list names the keys of the map, from least to most recently used. */
  ghost predicate Lists<K, V>(order: seq<K>, entries: map<K, Stamped<V>>) {
    && (forall i :: 0 <= i < |order| ==> order[i] in entries)
    && (forall k :: k in entries ==> k in order)
    && (forall i, j :: 0 <= i < j < |order| ==> entries[order[i]].stamp < entries[order[j]].stamp)
  }

  /** A list without some of its members. */
  ghost function Without<K>(order: seq<K>, gone: set<K>): seq<K> {
    if order == [] then []
    else
      var front := Without(order[..|order| - 1], gone);
      if order[|order| - 1] in gone then front else front + [order[|order| - 1]]
  }

  /** The textbook step: a used key moves to the end of the list. */
  ghost function Used<K>(order: seq<K>, k: K): seq<K> {
    Without(order, {k}) + [k]
  }

  /** The textbook bound: only the most recent `capacity` members stay. */
  ghost function Capped<K>(order: seq<K>, capacity: nat): seq<K> {
    if |order| <= capacity then order else order[|order| - capacity..]
  }

  /** The most recent ones stay, as many as there is room for, in their order. */
  lemma CappedExactly<K>(order: seq<K>, capacity: nat)
    ensures |Capped(order, capacity)| == if |order| <= capacity then |order| else capacity
    ensures forall i :: 0 <= i < |Capped(order, capacity)| ==>
              Capped(order, capacity)[i] == order[|order| - |Capped(order, capacity)| + i]
  {
  }

  lemma WithoutMembers<K>(order: seq<K>, gone: set<K>, k: K)
    ensures k in Without(order, gone) <==> k in order && k !in gone
  {
  }

  /** Deleting keys deletes them from the list and moves nothing else. */
  lemma {:induction false} ListsRemove<K, V>(order: seq<K>, entries: map<K, Stamped<V>>, gone: set<K>)
    requires Lists(order, entries)
    ensures Lists(Without(order, gone), entries - gone)
  {
    var rest := entries - gone;
    forall k ensures k in Without(order, gone) <==> k in rest {
      WithoutMembers(order, gone, k);
    }
    WithoutAscends(order, entries, gone);
  }

  lemma {:induction false} WithoutAscends<K, V>(order: seq<K>, entries: map<K, Stamped<V>>, gone: set<K>)
    requires forall i :: 0 <= i < |order| ==> order[i] in entries
    requires forall i, j :: 0 <= i < j < |order| ==> entries[order[i]].stamp < entries[order[j]].stamp
    ensures forall i :: 0 <= i < |Without(order, gone)| ==> Without(order, gone)[i] in order
    ensures forall i, j :: 0 <= i < j < |Without(order, gone)| ==>
              entries[Without(order, gone)[i]].stamp < entries[Without(order, gone)[j]].stamp
  {
    if order != [] {
      var front := order[..|order| - 1];
      WithoutAscends(front, entries, gone);
      assert order == front + [order[|order| - 1]];
    }
  }

  /** Storing a new key with a new sequence number puts it at the most recent end. */
  lemma ListsAppend<K, V>(order: seq<K>, entries: map<K, Stamped<V>>, sequence: nat, k: K, entry: Stamped<V>)
    requires Lists(order, entries) && Ranked(entries, sequence) && k !in entries && sequence < entry.stamp
    ensures Lists(order + [k], entries[k := entry])
  {
  }

  /** Storing or touching a key moves it to the most recent end. */
  lemma ListsUse<K, V>(order: seq<K>, entries: map<K, Stamped<V>>, sequence: nat, k: K, entry: Stamped<V>)
    requires Lists(order, entries) && Ranked(entries, sequence) && entry.stamp == sequence + 1
    ensures Ranked(entries[k := entry], sequence + 1)
    ensures Lists(Used(order, k), entries[k := entry])
  {
    ListsRemove(order, entries, {k});
    ListsAppend(Without(order, {k}), entries - {k}, sequence, k, entry);
    assert (entries - {k})[k := entry] == entries[k := entry];
  }

  /** The least recently used key. */
  ghost predicate IsOldest<K, V>(entries: map<K, Stamped<V>>, k: K) {
    k in entries && forall j :: j in entries ==> entries[k].stamp <= entries[j].stamp
  }

  /** Evicting the least recently used key drops the head of the list. */
  lemma ListsEvict<K, V>(order: seq<K>, entries: map<K, Stamped<V>>, k: K)
    requires Lists(order, entries) && IsOldest(entries, k)
    ensures order != [] && order[0] == k && Lists(order[1..], entries - {k})
  {
  }

  lemma ListsLength<K, V>(order: seq<K>, entries: map<K, Stamped<V>>)
    requires Lists(order, entries)
    ensures |order| == |entries|
  {
    if order == [] {
      assert entries == map[];
    } else {
      assert IsOldest(entries, order[0]) by {
        forall j | j in entries ensures entries[order[0]].stamp <= entries[j].stamp {
          var n :| 0 <= n < |order| && order[n] == j;
        }
      }
      ListsEvict(order, entries, order[0]);
      ListsLength(order[1..], entries - {order[0]});
      assert (entries - {order[0]}).Keys == entries.Keys - {order[0]};
    }
  }

  /** There is only one such list. */
  lemma {:induction false} ListsUnique<K, V>(a: seq<K>, b: seq<K>, entries: map<K, Stamped<V>>)
    requires Lists(a, entries) && Lists(b, entries)
    ensures a == b
  {
    if a == [] || b == [] {
      ListsLength(a, entries);
      ListsLength(b, entries);
    } else {
      assert IsOldest(entries, a[0]) by {
        forall j | j in entries ensures entries[a[0]].stamp <= entries[j].stamp {
          var n :| 0 <= n < |a| && a[n] == j;
        }
      }
      ListsEvict(a, entries, a[0]);
      ListsEvict(b, entries, a[0]);
      ListsUnique(a[1..], b[1..], entries - {a[0]});
    }
  }

  /** evictOldestLocked: a scan of the map, in any order, for the smallest sequence number. */
  method EvictOldest<K(==), V>(entries: map<K, Stamped<V>>) returns (rest: map<K, Stamped<V>>, oldest: K)
    requires entries != map[]
    ensures IsOldest(entries, oldest) && rest == entries - {oldest}
  {
    var best :| best in entries.Keys;
    var unseen := entries.Keys - {best};
    while unseen != {}
      invariant unseen <= entries.Keys && best in entries
      invariant forall k :: k in entries && k !in unseen ==> entries[best].stamp <= entries[k].stamp
    {
      var k :| k in unseen;
      if entries[k].stamp < entries[best].stamp {
        best := k;
      }
      unseen := unseen - {k};
    }
    rest := entries - {best};
    oldest := best;
  }

  /** A smaller map with some of the same entries. */
  ghost predicate Within<K, V>(rest: map<K, Stamped<V>>, entries: map<K, Stamped<V>>) {
    forall k :: k in rest ==> k in entries && rest[k] == entries[k]
  }

  lemma WithinRanked<K, V>(rest: map<K, Stamped<V>>, entries: map<K, Stamped<V>>, sequence: nat)
    requires Within(rest, entries) && Ranked(entries, sequence)
    ensures Ranked(rest, sequence)
  {
  }

  /** The eviction loop: it ends, and keeps exactly the most recently used entries. */
  method EvictDown<K(==), V>(entries: map<K, Stamped<V>>, capacity: nat, ghost order: seq<K>)
    returns (rest: map<K, Stamped<V>>)
    requires Lists(order, entries)
    ensures Lists(Capped(order, capacity), rest) && |rest| == if |entries| <= capacity then |entries| else capacity
    ensures Within(rest, entries)
  {
    rest := entries;
    ghost var gone := 0;
    ListsLength(order, entries);
    assert order[0..] == order;
    while |rest| > capacity
      invariant 0 <= gone <= |order| && |rest| == |order| - gone && (gone == 0 || |rest| >= capacity)
      invariant Lists(order[gone..], rest)
      invariant Within(rest, entries)
    {
      ghost var before := rest;
      ghost var oldest;
      rest, oldest := EvictOldest(rest);
      EvictStep(order[gone..], before, oldest);
      assert order[gone..][1..] == order[gone + 1..];
      gone := gone + 1;
    }
  }

  /** What an eviction drops was used before everything it keeps. */
  lemma EvictedOlder<K, V>(order: seq<K>, entries: map<K, Stamped<V>>, capacity: nat, rest: map<K, Stamped<V>>,
                           j: K, k: K)
    requires Lists(order, entries) && Lists(Capped(order, capacity), rest) && Within(rest, entries)
    requires j in rest && k in entries && k !in rest
    ensures entries[k].stamp < entries[j].stamp
  {
    hide Lists, Within, Capped;
    CappedExactly(order, capacity);
    var kept := Capped(order, capacity);
    var a := Place(kept, rest, j);
    var b := Place(order, entries, k);
    Ascending(kept, rest);
    Ascending(order, entries);
    assert forall c :: |order| - |kept| <= c < |order| ==> order[c] == kept[c - (|order| - |kept|)];
    assert order[|order| - |kept| + a] == j;
  }

  lemma Place<K, V>(order: seq<K>, entries: map<K, Stamped<V>>, k: K) returns (i: nat)
    requires Lists(order, entries) && k in entries
    ensures i < |order| && order[i] == k
  {
    i :| 0 <= i < |order| && order[i] == k;
  }

  lemma Ascending<K, V>(order: seq<K>, entries: map<K, Stamped<V>>)
    requires Lists(order, entries)
    ensures forall i :: 0 <= i < |order| ==> order[i] in entries
    ensures forall i, j :: 0 <= i < j < |order| ==> entries[order[i]].stamp < entries[order[j]].stamp
  {
  }

  /** The key used last survives an eviction whenever the cache can hold anything. */
  lemma UsedSurvives<K, V>(order: seq<K>, k: K, capacity: nat, rest: map<K, Stamped<V>>)
    requires Lists(Capped(Used(order, k), capacity), rest) && capacity >= 1
    ensures k in rest
  {
    var kept := Capped(Used(order, k), capacity);
    assert kept[|kept| - 1] == k;
  }

  lemma EvictStep<K, V>(order: seq<K>, entries: map<K, Stamped<V>>, k: K)
    requires Lists(order, entries) && IsOldest(entries, k)
    ensures order != [] && Lists(order[1..], entries - {k})
    ensures |entries - {k}| == |entries| - 1 && Within(entries - {k}, entries)
  {
    ListsEvict(order, entries, k);
    assert (entries - {k}).Keys == entries.Keys - {k};
  }
}
