/** The block read cache of pkg/agent/filesystem/cache.go: its three locked sections as state changes, and the class. */
module BlockCache {
  import opened Files
  import opened Paths
  import opened Recency

  datatype Key = Key(path: string, offset: nat)

  datatype LoadResult = Loaded(data: seq<Byte>) | LoadFailed

  type Entries = map<Key, Stamped<seq<Byte>>>

  /**
   * A flight is a pointer in the source; here it is a number, and `finished` holds what its `done` channel announces.
   */
  datatype State = State(
    entries: Entries,
    flights: map<Key, nat>,
    generations: map<string, nat>,
    sequence: nat,
    nextFlight: nat,
    finished: map<nat, LoadResult>)

  /** What the first locked section of `load` decides: answer, wait for a running flight, or load. */
  datatype Answer = Hit(data: seq<Byte>) | Join(flight: nat) | Start(flight: nat, generation: nat)

  function Generation(s: State, path: string): nat {
    if path in s.generations then s.generations[path] else 0
  }

  /** The first locked section of `load`. */
  function Lookup(s: State, key: Key, now: int): (State, Answer) {
    if key in s.entries && now < s.entries[key].expires then
      var entry := s.entries[key];
      (s.(sequence := s.sequence + 1, entries := s.entries[key := entry.(stamp := s.sequence + 1)]), Hit(entry.value))
    else
      var kept := s.(entries := s.entries - {key});
      if key in s.flights then (kept, Join(s.flights[key]))
      else
        (kept.(flights := s.flights[key := s.nextFlight], nextFlight := s.nextFlight + 1),
         Start(s.nextFlight, Generation(s, key.path)))
  }

  /** Whether the second locked section stores what was loaded: only if nothing was invalidated meanwhile. */
  predicate Keeps(s: State, key: Key, generation: nat, result: LoadResult) {
    result.Loaded? && Generation(s, key.path) == generation
  }

  /** The second locked section of `load`, before eviction. */
  function Land(s: State, key: Key, flight: nat, generation: nat, result: LoadResult, expires: int): State {
    var landed := s.(flights := s.flights - {key}, finished := s.finished[flight := result]);
    if Keeps(s, key, generation, result) then
      landed.(sequence := s.sequence + 1,
              entries := s.entries[key := Stamped(result.data, expires, s.sequence + 1)])
    else landed
  }

  /** The paths of running flights at or below a path. */
  function FlightPaths(flights: map<Key, nat>, path: string): set<string> {
    set key | key in flights && Covers(path, key.path) :: key.path
  }

  /** The keys of the stored blocks at or below a path. */
  function Below(entries: Entries, path: string): set<Key> {
    set key | key in entries && Covers(path, key.path)
  }

  /** Every generation in a set of paths goes up by one; the others stay. */
  function Bumped(generations: map<string, nat>, paths: set<string>): map<string, nat> {
    map p | p in generations.Keys + paths ::
      (if p in generations then generations[p] else 0) + if p in paths then 1 else 0
  }

  /** `invalidate`: bump the generation of the path and of every flight below it, drop the entries of the subtree. */
  function Invalidate(s: State, path: string): State {
    s.(generations := Bumped(s.generations, FlightPaths(s.flights, path) + {path}),
       entries := s.entries - Below(s.entries, path))
  }

  /** The loop over the set of flight paths: each generation is bumped once, in whatever order the set is walked. */
  method BumpEach(generations: map<string, nat>, path: string, below: set<string>) returns (r: map<string, nat>)
    ensures r == Bumped(generations, below + {path})
  {
    r := generations[path := (if path in generations then generations[path] else 0) + 1];
    var unseen := below;
    ghost var seen := {path};
    while unseen != {}
      invariant unseen <= below && seen == (below - unseen) + {path}
      invariant path !in unseen || path in seen
      invariant r == Bumped(generations, seen)
    {
      var p :| p in unseen;
      if p != path {
        r := r[p := (if p in r then r[p] else 0) + 1];
      }
      unseen := unseen - {p};
      seen := seen + {p};
    }
    assert seen == below + {path};
  }

  class ReadBlockCache {
    var entries: Entries
    var flights: map<Key, nat>
    var generations: map<string, nat>
    var sequence: nat
    var nextFlight: nat
    var finished: map<nat, LoadResult>
    const capacity: nat
    const ttl: int
    /** The textbook LRU list this cache must agree with. */
    ghost var order: seq<Key>

    ghost predicate Valid()
      reads this
    {
      Ranked(entries, sequence) && Lists(order, entries) && |entries| <= capacity
    }

    ghost function Value(): State
      reads this
    {
      State(entries, flights, generations, sequence, nextFlight, finished)
    }

    constructor (capacity: nat, ttl: int)
      ensures Valid() && this.capacity == capacity && this.ttl == ttl && order == []
      ensures Value() == State(map[], map[], map[], 0, 0, map[])
    {
      this.capacity, this.ttl := capacity, ttl;
      entries, flights, generations, sequence, nextFlight, finished, order := map[], map[], map[], 0, 0, map[], [];
    }

    /** The first locked section of `load`. */
    method Look(key: Key, now: int) returns (answer: Answer)
      requires Valid()
      modifies this
      ensures Valid()
      ensures (Value(), answer) == Lookup(old(Value()), key, now)
      ensures order == if answer.Hit? then Used(old(order), key) else Without(old(order), {key})
    {
      hide *;
      Parts();
      LookupParts(Value(), key, now);
      if key in entries {
        var entry := entries[key];
        if now < entry.expires {
          Touch(key);
          Parts();
          return Hit(entry.value);
        }
      }
      Drop({key});
      if key in flights {
        Parts();
        return Join(flights[key]);
      }
      var generation := if key.path in generations then generations[key.path] else 0;
      answer := Start(nextFlight, generation);
      flights := flights[key := nextFlight];
      nextFlight := nextFlight + 1;
      Parts();
    }

    method Touch(key: Key)
      requires Ranked(entries, sequence) && Lists(order, entries) && key in entries
      modifies this`entries, this`sequence, this`order
      ensures Ranked(entries, sequence) && Lists(order, entries) && |entries| == |old(entries)|
      ensures sequence == old(sequence) + 1 && entries == old(entries)[key := old(entries)[key].(stamp := sequence)]
      ensures order == Used(old(order), key)
    {
      hide *;
      var entry := entries[key].(stamp := sequence + 1);
      ListsUse(order, entries, sequence, key, entry);
      Touched(entries, key, entry);
      sequence, entries, order := sequence + 1, entries[key := entry], Used(order, key);
    }

    method Drop(gone: set<Key>)
      requires Ranked(entries, sequence) && Lists(order, entries)
      modifies this`entries, this`order
      ensures Ranked(entries, sequence) && Lists(order, entries) && |entries| <= |old(entries)|
      ensures entries == old(entries) - gone && order == Without(old(order), gone)
    {
      hide *;
      ListsRemove(order, entries, gone);
      FewerEntries(entries, gone);
      entries, order := entries - gone, Without(order, gone);
    }

    lemma Parts()
      ensures Valid() <==> Ranked(entries, sequence) && Lists(order, entries) && |entries| <= capacity
      ensures Value() == State(entries, flights, generations, sequence, nextFlight, finished)
    {
    }

    /** The second locked section of `load`. */
    method Finish(key: Key, flight: nat, generation: nat, result: LoadResult, now: int)
      requires Valid()
      modifies this
      ensures Valid()
      ensures var landed := Land(old(Value()), key, flight, generation, result, now + ttl);
              Value() == landed.(entries := entries) && Within(entries, landed.entries)
      ensures if Keeps(old(Value()), key, generation, result)
              then order == Capped(Used(old(order), key), capacity) && (capacity >= 1 ==> key in entries)
              else entries == old(entries) && order == old(order)
    {
      hide *;
      Parts();
      LandParts(Value(), key, flight, generation, result, now + ttl);
      flights := flights - {key};
      finished := finished[flight := result];
      var current := if key.path in generations then generations[key.path] else 0;
      if result.Loaded? && current == generation {
        Store(key, result.data, now);
      }
      Parts();
    }

    /** The new block becomes the most recently used, then the oldest ones go until the cache fits. */
    method Store(key: Key, data: seq<Byte>, now: int)
      requires Ranked(entries, sequence) && Lists(order, entries)
      modifies this`entries, this`sequence, this`order
      ensures Ranked(entries, sequence) && Lists(order, entries) && |entries| <= capacity
      ensures sequence == old(sequence) + 1
      ensures Within(entries, old(entries)[key := Stamped(data, now + ttl, sequence)])
      ensures order == Capped(Used(old(order), key), capacity) && (capacity >= 1 ==> key in entries)
    {
      hide *;
      var stored := entries[key := Stamped(data, now + ttl, sequence + 1)];
      ListsUse(order, entries, sequence, key, Stamped(data, now + ttl, sequence + 1));
      var rest := EvictDown(stored, capacity, Used(order, key));
      WithinRanked(rest, stored, sequence + 1);
      if capacity >= 1 {
        UsedSurvives(order, key, capacity, rest);
      }
      sequence := sequence + 1;
      order := Capped(Used(order, key), capacity);
      entries := rest;
    }

    /** `invalidate`: the path, the flights below it, and the stored blocks of the subtree. */
    method InvalidatePath(path: string)
      requires Valid()
      modifies this
      ensures Valid()
      ensures Value() == Invalidate(old(Value()), path)
      ensures order == Without(old(order), Below(old(entries), path))
    {
      hide Lists, Ranked, Without, Covers, Bumped;
      generations := BumpEach(generations, path, FlightPaths(flights, path));
      Drop(Below(entries, path));
    }
  }

  /**
   * An invalidation drops the stored blocks of the path and of what lies below it, and no other; and it outdates the
   * path itself and whatever is being loaded below it, and nothing else.
   */
  lemma InvalidateExactly(s: State, path: string, key: Key)
    ensures var after := Invalidate(s, path);
            && (key in after.entries <==> key in s.entries && key.path != path && !PathPrefix(key.path, path))
            && (key in after.entries ==> after.entries[key] == s.entries[key])
            && after.flights == s.flights && after.finished == s.finished
            && Generation(after, key.path) ==
               Generation(s, key.path)
               + if key.path == path || (exists k :: k in s.flights && k.path == key.path && PathPrefix(k.path, path))
                 then 1 else 0
  {
    assert key.path in FlightPaths(s.flights, path) <==>
        exists k :: k in s.flights && k.path == key.path && Covers(path, k.path);
  }

  lemma LookupParts(s: State, key: Key, now: int)
    ensures Lookup(s, key, now) ==
              if key in s.entries && now < s.entries[key].expires then
                (s.(sequence := s.sequence + 1, entries := s.entries[key := s.entries[key].(stamp := s.sequence + 1)]),
                    Hit(s.entries[key].value))
              else if key in s.flights then (s.(entries := s.entries - {key}), Join(s.flights[key]))
              else (s.(entries := s.entries - {key}, flights := s.flights[key := s.nextFlight],
                       nextFlight := s.nextFlight + 1),
                    Start(s.nextFlight, if key.path in s.generations then s.generations[key.path] else 0))
  {
  }

  lemma LandParts(s: State, key: Key, flight: nat, generation: nat, result: LoadResult, expires: int)
    ensures Keeps(s, key, generation, result) <==>
              result.Loaded? && generation == if key.path in s.generations then s.generations[key.path] else 0
    ensures var landed := Land(s, key, flight, generation, result, expires);
            var keeps := Keeps(s, key, generation, result);
            && landed ==
                State(landed.entries, s.flights - {key}, s.generations, s.sequence + (if keeps then 1 else 0),
                    s.nextFlight,
                               s.finished[flight := result])
            && landed.entries ==
                (if keeps then s.entries[key := Stamped(result.data, expires, s.sequence + 1)] else s.entries)
    ensures Within(s.entries, s.entries)
  {
  }

  lemma FewerEntries(entries: Entries, gone: set<Key>)
    ensures |entries - gone| <= |entries|
    ensures forall sequence :: Ranked(entries, sequence) ==> Ranked(entries - gone, sequence)
  {
  }

  lemma Touched(entries: Entries, key: Key, entry: Stamped<seq<Byte>>)
    requires key in entries
    ensures |entries[key := entry]| == |entries|
  {
  }
}
