/** What a rename does to a table keyed by paths, in whatever order its entries are walked. */
module Renaming {
  import opened Paths

  /** The paths a rename may have in mind. */
  predicate Renamable(from: string, to: string) {
    from != "" && to != "" && (Apart(from, to) || from == to)
  }

  /** The entry that ends up at k comes from under `from`, out of a set of keys that have been dealt with. */
  predicate Arrives(keys: set<string>, from: string, to: string, k: string) {
    Covers(to, k) && Rebase(k, to, from) in keys && Covers(from, Rebase(k, to, from))
  }

  /** The table when the entries under `from` with keys in `done` have been moved to `to`, over whatever was there. */
  function Moved<V>(table: map<string, V>, done: set<string>, from: string, to: string): map<string, V>
    requires done <= table.Keys
  {
    var candidates := table.Keys + set k | k in done && Covers(from, k) :: Rebase(k, from, to);
    map k | k in candidates && (Arrives(done, from, to, k) || (k in table && !(k in done && Covers(from, k)))) ::
      if Arrives(done, from, to, k) then table[Rebase(k, to, from)] else table[k]
  }

  /** The whole subtree moved. */
  function Renamed<V>(table: map<string, V>, from: string, to: string): map<string, V> {
    Moved(table, table.Keys, from, to)
  }

  predicate Inside(from: string, to: string, k: string) {
    Covers(from, k) || Covers(to, k)
  }

  /** A set of paths after a rename. */
  function KeysMoved(keys: set<string>, from: string, to: string): set<string> {
    if from == to then keys
    else (set k | k in keys && !Inside(from, to, k)) + (set k | k in keys && Covers(from, k) :: Rebase(k, from, to))
  }

  /** Where an entry that was at k is when the keys in `done` have been dealt with. */
  function PathNow(done: set<string>, from: string, to: string, k: string): string {
    if k in done && Covers(from, k) then Rebase(k, from, to) else k
  }

  lemma MovedKeys<V>(table: map<string, V>, done: set<string>, from: string, to: string, k: string)
    requires done <= table.Keys && Renamable(from, to)
    ensures k in Moved(table, done, from, to) <==>
              Arrives(done, from, to, k) || (k in table && !(k in done && Covers(from, k)))
    ensures k in Moved(table, done, from, to) ==>
              Moved(table, done, from, to)[k] ==
              if Arrives(done, from, to, k) then table[Rebase(k, to, from)] else table[k]
  {
    if Arrives(done, from, to, k) {
      RebaseBack(k, to, from);
    }
  }

  lemma ArrivesNext(done: set<string>, from: string, to: string, c: string, k: string)
    requires Renamable(from, to)
    ensures Covers(from, c) ==>
              (Arrives(done + {c}, from, to, k) <==> Arrives(done, from, to, k) || k == Rebase(c, from, to))
    ensures !Covers(from, c) ==> (Arrives(done + {c}, from, to, k) <==> Arrives(done, from, to, k))
  {
    if Covers(from, c) {
      RebaseBack(c, from, to);
    }
    if Covers(to, k) {
      RebaseBack(k, to, from);
    }
  }

  /** One turn of the loop of renameNodes, on the table alone. */
  function Next<V>(table: map<string, V>, from: string, to: string, c: string): map<string, V>
    requires c in table
  {
    if Covers(from, c) then (table - {c})[Rebase(c, from, to) := table[c]] else table
  }

  /** Dealing with one more key is what the loop body does. */
  lemma MovedNext<V>(table: map<string, V>, done: set<string>, from: string, to: string, c: string)
    requires done <= table.Keys && Renamable(from, to) && c in table && c !in done
    ensures c in Moved(table, done, from, to) && (Covers(from, c) ==> Moved(table, done, from, to)[c] == table[c])
    ensures Moved(table, done + {c}, from, to) == Next(Moved(table, done, from, to), from, to, c)
  {
    hide Moved, Arrives;
    var before, after := Moved(table, done, from, to), Moved(table, done + {c}, from, to);
    MovedKeys(table, done, from, to, c);
    if Covers(from, c) {
      NotArrived(done, from, to, c);
    }
    forall k ensures (k in after <==> k in Next(before, from, to, c))
                  && (k in after ==> after[k] == Next(before, from, to, c)[k])
    {
      MovedKeys(table, done, from, to, k);
      MovedKeys(table, done + {c}, from, to, k);
      ArrivesNext(done, from, to, c, k);
      if Covers(from, c) {
        RebaseBack(c, from, to);
      }
    }
    assert after == Next(before, from, to, c);
  }

  lemma NotArrived(done: set<string>, from: string, to: string, c: string)
    requires Renamable(from, to) && Covers(from, c) && c !in done
    ensures !Arrives(done, from, to, c)
  {
    if Covers(to, c) && from != to {
      Comparable(from, to, c);
    }
    if from == to {
      CoversLength(from, c);
      assert Rebase(c, to, from) == c;
    }
  }

  /** A key that the walk itself has inserted is outside the subtree that is being moved. */
  lemma InsertedOutside<V>(table: map<string, V>, done: set<string>, from: string, to: string, c: string)
    requires done <= table.Keys && Renamable(from, to) && c in Moved(table, done, from, to) && c !in table
    ensures !Covers(from, c)
  {
  }

  lemma MovedBounds<V>(table: map<string, V>, from: string, to: string)
    requires Renamable(from, to)
    ensures Moved(table, {}, from, to) == table
    ensures from == to ==> Renamed(table, from, to) == table
  {
    hide Moved;
    forall k ensures k in Moved(table, {}, from, to) <==> k in table
             ensures k in table ==> Moved(table, {}, from, to)[k] == table[k]
             ensures from == to ==> (k in Renamed(table, from, to) <==> k in table)
             ensures from == to && k in table ==> Renamed(table, from, to)[k] == table[k]
    {
      MovedKeys(table, {}, from, to, k);
      MovedKeys(table, table.Keys, from, to, k);
      if from == to && Covers(from, k) {
        CoversLength(from, k);
        assert Rebase(k, to, from) == k;
      }
    }
  }

  /** What a rename does, path by path. */
  lemma RenamedShape<V>(table: map<string, V>, from: string, to: string, k: string)
    requires Apart(from, to)
    ensures Covers(from, k) ==> k !in Renamed(table, from, to)
    ensures !Covers(from, k) && !Covers(to, k) ==>
              && (k in Renamed(table, from, to) <==> k in table)
              && (k in table ==> Renamed(table, from, to)[k] == table[k])
    ensures Covers(to, k) ==>
              var source := Rebase(k, to, from);
              && (k in Renamed(table, from, to) <==> source in table || k in table)
              && (source in table ==> Renamed(table, from, to)[k] == table[source])
              && (source !in table && k in table ==> Renamed(table, from, to)[k] == table[k])
  {
    hide Moved;
    MovedKeys(table, table.Keys, from, to, k);
    if Covers(to, k) {
      RebaseBack(k, to, from);
      if Covers(from, k) {
        Comparable(from, to, k);
      }
    }
  }

  /** The same for a set of paths, of which nothing is left at the new path but what came there. */
  lemma KeysMovedShape(keys: set<string>, from: string, to: string, k: string)
    requires Renamable(from, to)
    ensures from == to ==> KeysMoved(keys, from, to) == keys
    ensures from != to && Covers(from, k) ==> k !in KeysMoved(keys, from, to)
    ensures !Inside(from, to, k) ==> (k in KeysMoved(keys, from, to) <==> k in keys)
    ensures from != to && Covers(to, k) ==> (k in KeysMoved(keys, from, to) <==> Rebase(k, to, from) in keys)
  {
    if from != to {
      if Covers(to, k) {
        RebaseBack(k, to, from);
        if Covers(from, k) {
          Comparable(from, to, k);
        }
      }
      forall j | j in keys && Covers(from, j) ensures Covers(to, Rebase(j, from, to)) {
        RebaseBack(j, from, to);
      }
      forall j | j in keys && Covers(from, j) && Rebase(j, from, to) == k ensures Rebase(k, to, from) == j {
        RebaseBack(j, from, to);
      }
    }
  }
}
