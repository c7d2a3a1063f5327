/**
 * Every interleaving of loads, invalidations and provider changes on the block read cache.
 * Each step is one locked section of pkg/agent/filesystem/cache.go, or something the provider does in between.
 */
module BlockProtocol {
  import opened Files
  import opened Paths
  import opened Recency
  import opened BlockCache

  type Thread = nat

  /** A thread between the two locked sections of `load`. */
  datatype Loader = Loader(key: Key, flight: nat, generation: nat, started: nat, fetched: Option<LoadResult>)

  datatype System = System(
    cache: State,
    /** The provider's files, and the changes whose invalidation has not happened yet. */
    files: map<string, seq<Byte>>,
    awaiting: set<string>,
    loaders: map<Thread, Loader>,
    waiters: map<Thread, nat>,
    /** What each call of `load` returned last. */
    returned: map<Thread, LoadResult>,
    /** Time of the next step, last invalidation of each path, and the start of the load behind each stored block. */
    clock: nat,
    invalidated: map<string, nat>,
    origin: map<Key, nat>)

  datatype Event =
    | Begin(thread: Thread, key: Key, now: int)
    | Fetch(thread: Thread, ok: bool)
    | Complete(thread: Thread, expires: int, entries: Entries)
    | Wake(thread: Thread)
    | Cancel(thread: Thread)
    | Change(path: string, files: map<string, seq<Byte>>)
    | Invalidation(path: string)

  function Content(files: map<string, seq<Byte>>, path: string): seq<Byte> {
    if path in files then files[path] else []
  }

  function Current(s: System, key: Key): seq<Byte> {
    BlockOf(Content(s.files, key.path), key.offset)
  }

  predicate Idle(s: System, t: Thread) {
    t !in s.loaders && t !in s.waiters
  }

  /** `load` up to the end of its first locked section. */
  function AfterBegin(s: System, t: Thread, key: Key, now: int): System {
    var (cache, answer) := Lookup(s.cache, key, now);
    match answer
    case Hit(data) => s.(cache := cache, returned := s.returned[t := Loaded(data)])
    case Join(flight) => s.(cache := cache, waiters := s.waiters[t := flight])
    case Start(flight, generation) =>
      s.(cache := cache, loaders := s.loaders[t := Loader(key, flight, generation, s.clock, None)])
  }

  /** The second locked section; the eviction it ends with may drop any stored blocks. */
  function AfterComplete(s: System, t: Thread, expires: int, entries: Entries): System
    requires t in s.loaders && s.loaders[t].fetched.Some?
  {
    var l := s.loaders[t];
    var landed := Land(s.cache, l.key, l.flight, l.generation, l.fetched.value, expires);
    s.(cache := landed.(entries := entries),
       loaders := s.loaders - {t},
       returned := s.returned[t := l.fetched.value],
       origin := if Keeps(s.cache, l.key, l.generation, l.fetched.value)
                 then s.origin[l.key := l.started] else s.origin)
  }

  ghost predicate Acts(s: System, e: Event, s': System) {
    match e
    case Begin(t, key, now) => Idle(s, t) && s' == AfterBegin(s, t, key, now)
    case Fetch(t, ok) =>
      && t in s.loaders && s.loaders[t].fetched.None?
      && var result := if ok then Loaded(Current(s, s.loaders[t].key)) else LoadFailed;
         s' == s.(loaders := s.loaders[t := s.loaders[t].(fetched := Some(result))])
    case Complete(t, expires, entries) =>
      && t in s.loaders && s.loaders[t].fetched.Some?
      && s' == AfterComplete(s, t, expires, entries)
      && Within(entries, Land(s.cache, s.loaders[t].key, s.loaders[t].flight, s.loaders[t].generation,
                              s.loaders[t].fetched.value, expires).entries)
    case Wake(t) =>
      && t in s.waiters && s.waiters[t] in s.cache.finished
      && s' == s.(waiters := s.waiters - {t}, returned := s.returned[t := s.cache.finished[s.waiters[t]]])
    case Cancel(t) =>
      && t in s.waiters
      && s' == s.(waiters := s.waiters - {t}, returned := s.returned[t := LoadFailed])
    case Change(path, files) =>
      && (forall p :: !Covers(path, p) ==> Content(files, p) == Content(s.files, p))
      && s' == s.(files := files, awaiting := s.awaiting + {path})
    case Invalidation(path) =>
      s' == s.(cache := Invalidate(s.cache, path),
               awaiting := (set a | a in s.awaiting && !Covers(path, a)),
               invalidated := s.invalidated[path := s.clock])
  }

  /** One step of the system; every step takes one tick. */
  ghost predicate Next(s: System, e: Event, s': System) {
    s'.clock == s.clock + 1 && Acts(s, e, s'.(clock := s.clock))
  }

  ghost predicate Initial(s: System) {
    && s.cache == State(map[], map[], map[], 0, 0, map[])
    && s.loaders == map[] && s.waiters == map[] && s.awaiting == {} && s.invalidated == map[] && s.origin == map[]
  }

  /** A run: every state follows from the one before by one of the events. */
  ghost predicate Run(states: seq<System>, events: seq<Event>) {
    && |states| == |events| + 1 && Initial(states[0])
    && forall i :: 0 <= i < |events| ==> Next(states[i], events[i], states[i + 1])
  }

  /** Flights and loaders pair off: one running loader for each flight, and no other. */
  ghost predicate Paired(flights: map<Key, nat>, nextFlight: nat, finished: map<nat, LoadResult>,
                         loaders: map<Thread, Loader>) {
    && (forall t :: t in loaders ==> loaders[t].key in flights && flights[loaders[t].key] == loaders[t].flight)
    && (forall t, u :: t in loaders && u in loaders && loaders[t].key == loaders[u].key ==> t == u)
    && (forall key :: key in flights ==> Carried(loaders, key))
    && (forall j, k :: j in flights && k in flights && flights[j] == flights[k] ==> j == k)
    && (forall key :: key in flights ==> flights[key] < nextFlight && flights[key] !in finished)
    && (forall f :: f in finished ==> f < nextFlight)
  }

  ghost predicate Carried(loaders: map<Thread, Loader>, key: Key) {
    exists t :: t in loaders && loaders[t].key == key
  }

  /** Nobody waits in vain: a waiter's flight has landed or has a loader. */
  ghost predicate Served(waiters: map<Thread, nat>, flights: map<Key, nat>, finished: map<nat, LoadResult>) {
    forall t :: t in waiters ==> waiters[t] in finished || Flying(flights, waiters[t])
  }

  ghost predicate Flying(flights: map<Key, nat>, flight: nat) {
    exists key :: key in flights && flights[key] == flight
  }

  /** Later than every invalidation of the path or of an ancestor. */
  ghost predicate After(invalidated: map<string, nat>, clock: nat, time: nat, path: string) {
    time < clock && forall p :: p in invalidated && Covers(p, path) ==> invalidated[p] < time
  }

  /** Every stored block comes from a load that started after the last invalidation of its path or an ancestor. */
  ghost predicate FreshEntries(entries: Entries, origin: map<Key, nat>, invalidated: map<string, nat>, clock: nat) {
    forall key :: key in entries ==> key in origin && After(invalidated, clock, origin[key], key.path)
  }

  ghost predicate UpToDate(cache: State, l: Loader) {
    l.generation == Generation(cache, l.key.path)
  }

  /** So does every block that would still be stored. */
  ghost predicate FreshLoaders(loaders: map<Thread, Loader>, cache: State, invalidated: map<string, nat>, clock: nat) {
    && (forall p :: p in invalidated ==> invalidated[p] < clock)
    && (forall t :: t in loaders ==>
          && loaders[t].generation <= Generation(cache, loaders[t].key.path)
          && (UpToDate(cache, loaders[t]) ==> After(invalidated, clock, loaders[t].started, loaders[t].key.path)))
  }

  /** The data is the current block, or a change that covers it still awaits its invalidation. */
  ghost predicate Agrees(files: map<string, seq<Byte>>, awaiting: set<string>, key: Key, data: seq<Byte>) {
    data == BlockOf(Content(files, key.path), key.offset) || exists a :: a in awaiting && Covers(a, key.path)
  }

  ghost predicate CoherentEntries(entries: Entries, files: map<string, seq<Byte>>, awaiting: set<string>) {
    forall key :: key in entries ==> Agrees(files, awaiting, key, entries[key].value)
  }

  ghost predicate CoherentLoaders(loaders: map<Thread, Loader>, cache: State, files: map<string, seq<Byte>>,
                                  awaiting: set<string>) {
    forall t :: t in loaders && UpToDate(cache, loaders[t]) && loaders[t].fetched.Some? ==>
      loaders[t].fetched.value.Loaded? ==> Agrees(files, awaiting, loaders[t].key, loaders[t].fetched.value.data)
  }

  ghost predicate Invariant(s: System) {
    && Paired(s.cache.flights, s.cache.nextFlight, s.cache.finished, s.loaders)
    && Served(s.waiters, s.cache.flights, s.cache.finished)
    && FreshEntries(s.cache.entries, s.origin, s.invalidated, s.clock)
    && FreshLoaders(s.loaders, s.cache, s.invalidated, s.clock)
    && CoherentEntries(s.cache.entries, s.files, s.awaiting)
    && CoherentLoaders(s.loaders, s.cache, s.files, s.awaiting)
  }

  lemma PairedStart(flights: map<Key, nat>, next: nat, finished: map<nat, LoadResult>, loaders: map<Thread, Loader>,
                    t: Thread, l: Loader)
    requires Paired(flights, next, finished, loaders) && l.key !in flights && t !in loaders && l.flight == next
    ensures Paired(flights[l.key := next], next + 1, finished, loaders[t := l])
  {
    var longer := loaders[t := l];
    forall key | key in flights[l.key := next] ensures Carried(longer, key) {
      if key == l.key {
        assert longer[t].key == key;
      } else {
        var u :| u in loaders && loaders[u].key == key;
        assert longer[u].key == key;
      }
    }
  }

  lemma PairedFetch(flights: map<Key, nat>, next: nat, finished: map<nat, LoadResult>, loaders: map<Thread, Loader>,
                    t: Thread, result: LoadResult)
    requires Paired(flights, next, finished, loaders) && t in loaders
    ensures Paired(flights, next, finished, loaders[t := loaders[t].(fetched := Some(result))])
  {
    var same := loaders[t := loaders[t].(fetched := Some(result))];
    forall key | key in flights ensures Carried(same, key) {
      var u :| u in loaders && loaders[u].key == key;
      assert same[u].key == key;
    }
  }

  lemma PairedComplete(flights: map<Key, nat>, next: nat, finished: map<nat, LoadResult>, loaders: map<Thread, Loader>,
                       t: Thread, result: LoadResult)
    requires Paired(flights, next, finished, loaders) && t in loaders
    ensures Paired(flights - {loaders[t].key}, next, finished[loaders[t].flight := result], loaders - {t})
  {
    var fewer := loaders - {t};
    forall key | key in flights - {loaders[t].key} ensures Carried(fewer, key) {
      var u :| u in loaders && loaders[u].key == key;
      assert fewer[u].key == key;
    }
  }

  lemma ServedKept(waiters: map<Thread, nat>, flights: map<Key, nat>, finished: map<nat, LoadResult>,
                   flights': map<Key, nat>, finished': map<nat, LoadResult>)
    requires Served(waiters, flights, finished)
    requires forall f :: f in finished ==> f in finished'
    requires forall key :: key in flights ==>
              flights[key] in finished' || (key in flights' && flights'[key] == flights[key])
    ensures Served(waiters, flights', finished')
  {
  }

  /** An invalidation outdates every load that is running at or below the path, and no other. */
  lemma GenerationAfter(cache: State, path: string, key: Key)
    requires key in cache.flights
    ensures Generation(Invalidate(cache, path), key.path)
         == Generation(cache, key.path) + if Covers(path, key.path) then 1 else 0
  {
  }

  lemma FreshInvalidation(s: System, path: string)
    requires Invariant(s)
    ensures FreshEntries(Invalidate(s.cache, path).entries, s.origin, s.invalidated[path := s.clock], s.clock + 1)
    ensures FreshLoaders(s.loaders, Invalidate(s.cache, path), s.invalidated[path := s.clock], s.clock + 1)
  {
    hide Paired, Served, FreshEntries, FreshLoaders, CoherentEntries, CoherentLoaders;
    EntriesInvalidated(s.cache, s.origin, s.invalidated, s.clock, path);
    LoadersInvalidated(s, path);
  }

  lemma EntriesInvalidated(cache: State, origin: map<Key, nat>, invalidated: map<string, nat>, clock: nat, path: string)
    requires FreshEntries(cache.entries, origin, invalidated, clock)
    ensures FreshEntries(Invalidate(cache, path).entries, origin, invalidated[path := clock], clock + 1)
  {
  }

  lemma LoadersInvalidated(s: System, path: string)
    requires Paired(s.cache.flights, s.cache.nextFlight, s.cache.finished, s.loaders)
    requires FreshLoaders(s.loaders, s.cache, s.invalidated, s.clock)
    ensures FreshLoaders(s.loaders, Invalidate(s.cache, path), s.invalidated[path := s.clock], s.clock + 1)
  {
    hide Invalidate, Generation, Covers;
    var cache := Invalidate(s.cache, path);
    forall t | t in s.loaders
      ensures s.loaders[t].generation <= Generation(cache, s.loaders[t].key.path)
      ensures UpToDate(cache, s.loaders[t]) ==> UpToDate(s.cache, s.loaders[t]) && !Covers(path, s.loaders[t].key.path)
    {
      GenerationAfter(s.cache, path, s.loaders[t].key);
    }
  }

  lemma CoherentInvalidation(s: System, path: string)
    requires Invariant(s)
    ensures var awaiting := set a | a in s.awaiting && !Covers(path, a);
            && CoherentEntries(Invalidate(s.cache, path).entries, s.files, awaiting)
            && CoherentLoaders(s.loaders, Invalidate(s.cache, path), s.files, awaiting)
  {
    var awaiting := set a | a in s.awaiting && !Covers(path, a);
    forall key, data | Agrees(s.files, s.awaiting, key, data) && !Covers(path, key.path)
      ensures Agrees(s.files, awaiting, key, data)
    {
      if data != BlockOf(Content(s.files, key.path), key.offset) {
        var a :| a in s.awaiting && Covers(a, key.path);
        if Covers(path, a) {
          CoversTransitive(path, a, key.path);
        }
        assert a in awaiting;
      }
    }
    forall t | t in s.loaders && UpToDate(Invalidate(s.cache, path), s.loaders[t])
      ensures UpToDate(s.cache, s.loaders[t]) && !Covers(path, s.loaders[t].key.path)
    {
      GenerationAfter(s.cache, path, s.loaders[t].key);
    }
  }

  lemma CoherentChange(s: System, path: string, files: map<string, seq<Byte>>)
    requires Invariant(s)
    requires forall p :: !Covers(path, p) ==> Content(files, p) == Content(s.files, p)
    ensures CoherentEntries(s.cache.entries, files, s.awaiting + {path})
    ensures CoherentLoaders(s.loaders, s.cache, files, s.awaiting + {path})
  {
  }

  lemma FreshLater(entries: Entries, entries': Entries, origin: map<Key, nat>, invalidated: map<string, nat>,
                   clock: nat)
    requires FreshEntries(entries, origin, invalidated, clock) && entries'.Keys <= entries.Keys
    ensures FreshEntries(entries', origin, invalidated, clock + 1)
  {
  }

  lemma CoherentFewer(entries: Entries, entries': Entries, files: map<string, seq<Byte>>, awaiting: set<string>)
    requires CoherentEntries(entries, files, awaiting)
    requires forall key :: key in entries' ==> key in entries && entries'[key].value == entries[key].value
    ensures CoherentEntries(entries', files, awaiting)
  {
  }

  /** The loaders' part of the invariant: it depends on the cache through its generations only. */
  ghost predicate Loading(s: System, loaders: map<Thread, Loader>, cache: State, clock: nat) {
    FreshLoaders(loaders, cache, s.invalidated, clock) && CoherentLoaders(loaders, cache, s.files, s.awaiting)
  }

  lemma LoadingLater(s: System, cache: State)
    requires Loading(s, s.loaders, s.cache, s.clock) && cache.generations == s.cache.generations
    ensures Loading(s, s.loaders, cache, s.clock + 1)
  {
  }

  lemma LoadingStart(s: System, cache: State, t: Thread, l: Loader)
    requires Loading(s, s.loaders, s.cache, s.clock) && cache.generations == s.cache.generations
    requires l.started == s.clock && UpToDate(s.cache, l) && l.fetched.None?
    ensures Loading(s, s.loaders[t := l], cache, s.clock + 1)
  {
  }

  lemma LoadingFetch(s: System, t: Thread, ok: bool)
    requires Loading(s, s.loaders, s.cache, s.clock) && t in s.loaders
    ensures var result := if ok then Loaded(Current(s, s.loaders[t].key)) else LoadFailed;
            Loading(s, s.loaders[t := s.loaders[t].(fetched := Some(result))], s.cache, s.clock + 1)
  {
  }

  lemma LoadingComplete(s: System, cache: State, t: Thread)
    requires Loading(s, s.loaders, s.cache, s.clock) && t in s.loaders && cache.generations == s.cache.generations
    ensures Loading(s, s.loaders - {t}, cache, s.clock + 1)
  {
  }

  /** A block is stored with the start of its own load as origin, and only if nothing outdated it. */
  lemma StoredByComplete(s: System, t: Thread, expires: int)
    requires Invariant(s) && t in s.loaders && s.loaders[t].fetched.Some?
    ensures var l := s.loaders[t];
            var landed := Land(s.cache, l.key, l.flight, l.generation, l.fetched.value, expires);
            && FreshEntries(landed.entries, AfterComplete(s, t, expires, landed.entries).origin, s.invalidated, s.clock)
            && CoherentEntries(landed.entries, s.files, s.awaiting)
  {
  }

  lemma LookupEffects(c: State, key: Key, now: int)
    ensures var (c', answer) := Lookup(c, key, now);
            && c'.generations == c.generations && c'.finished == c.finished
            && c'.entries.Keys <= c.entries.Keys
            && (forall k :: k in c'.entries ==> c'.entries[k].value == c.entries[k].value)
            && match answer
               case Hit(data) => c'.flights == c.flights && c'.nextFlight == c.nextFlight
               case Join(flight) =>
                 && c'.flights == c.flights && c'.nextFlight == c.nextFlight
                 && key in c.flights && flight == c.flights[key]
               case Start(flight, generation) =>
                 && key !in c.flights && c'.flights == c.flights[key := flight] && c'.nextFlight == c.nextFlight + 1
                 && flight == c.nextFlight && generation == Generation(c, key.path)
  {
  }

  lemma BeginStep(s: System, t: Thread, key: Key, now: int, s': System)
    requires Invariant(s) && Next(s, Begin(t, key, now), s')
    ensures Invariant(s')
  {
    hide Lookup, Generation, Paired, Served, FreshEntries, FreshLoaders, CoherentEntries, CoherentLoaders;
    LookupEffects(s.cache, key, now);
    var (cache, answer) := Lookup(s.cache, key, now);
    var flights, finished := s.cache.flights, s.cache.finished;
    FreshLater(s.cache.entries, cache.entries, s.origin, s.invalidated, s.clock);
    CoherentFewer(s.cache.entries, cache.entries, s.files, s.awaiting);
    match answer
    case Hit(data) => LoadingLater(s, cache);
    case Join(flight) =>
      LoadingLater(s, cache);
      ServedJoin(s.waiters, flights, finished, t, key);
    case Start(flight, generation) =>
      LoadingStart(s, cache, t, s'.loaders[t]);
      PairedStart(flights, s.cache.nextFlight, finished, s.loaders, t, s'.loaders[t]);
      ServedKept(s.waiters, flights, finished, cache.flights, finished);
  }

  lemma ServedJoin(waiters: map<Thread, nat>, flights: map<Key, nat>, finished: map<nat, LoadResult>, t: Thread,
                   key: Key)
    requires Served(waiters, flights, finished) && key in flights
    ensures Served(waiters[t := flights[key]], flights, finished)
  {
  }

  lemma ServedLeave(waiters: map<Thread, nat>, flights: map<Key, nat>, finished: map<nat, LoadResult>, t: Thread)
    requires Served(waiters, flights, finished)
    ensures Served(waiters - {t}, flights, finished)
  {
  }

  lemma CompleteStep(s: System, t: Thread, expires: int, entries: Entries, s': System)
    requires Invariant(s) && Next(s, Complete(t, expires, entries), s')
    ensures Invariant(s')
  {
    hide Paired, Served, FreshEntries, FreshLoaders, CoherentEntries, CoherentLoaders, Land, Keeps;
    var l := s.loaders[t];
    var landed := Land(s.cache, l.key, l.flight, l.generation, l.fetched.value, expires);
    LandEffects(s.cache, l, expires);
    StoredByComplete(s, t, expires);
    FreshLater(landed.entries, entries, s'.origin, s.invalidated, s.clock);
    CoherentFewer(landed.entries, entries, s.files, s.awaiting);
    LoadingComplete(s, s'.cache, t);
    PairedComplete(s.cache.flights, s.cache.nextFlight, s.cache.finished, s.loaders, t, l.fetched.value);
    FlightsAfter(s.cache.flights, s.cache.nextFlight, s.cache.finished, s.loaders, t, l.fetched.value);
    ServedKept(s.waiters, s.cache.flights, s.cache.finished, s'.cache.flights, s'.cache.finished);
  }

  lemma FlightsAfter(flights: map<Key, nat>, next: nat, finished: map<nat, LoadResult>, loaders: map<Thread, Loader>,
                     t: Thread, result: LoadResult)
    requires Paired(flights, next, finished, loaders) && t in loaders
    ensures forall key :: key in flights ==>
              || flights[key] in finished[loaders[t].flight := result]
              || (key in flights - {loaders[t].key} && (flights - {loaders[t].key})[key] == flights[key])
  {
  }

  /** Every step keeps the invariant. */
  lemma Step(s: System, e: Event, s': System)
    requires Invariant(s) && Next(s, e, s')
    ensures Invariant(s')
  {
    hide Paired, Served, FreshEntries, FreshLoaders, CoherentEntries, CoherentLoaders;
    match e
    case Begin(t, key, now) => BeginStep(s, t, key, now, s');
    case Fetch(t, ok) =>
      LoadingFetch(s, t, ok);
      FreshLater(s.cache.entries, s.cache.entries, s.origin, s.invalidated, s.clock);
      PairedFetch(s.cache.flights, s.cache.nextFlight, s.cache.finished, s.loaders, t, s'.loaders[t].fetched.value);
    case Complete(t, expires, entries) => CompleteStep(s, t, expires, entries, s');
    case Wake(t) =>
      Passing(s);
      ServedLeave(s.waiters, s.cache.flights, s.cache.finished, t);
    case Cancel(t) =>
      Passing(s);
      ServedLeave(s.waiters, s.cache.flights, s.cache.finished, t);
    case Change(path, files) =>
      Passing(s);
      CoherentChange(s, path, files);
    case Invalidation(path) =>
      FreshInvalidation(s, path);
      CoherentInvalidation(s, path);
  }

  lemma Passing(s: System)
    requires Invariant(s)
    ensures FreshEntries(s.cache.entries, s.origin, s.invalidated, s.clock + 1)
    ensures Loading(s, s.loaders, s.cache, s.clock + 1)
  {
  }

  /** Every reachable state satisfies the invariant. */
  lemma {:induction false} RunInvariant(states: seq<System>, events: seq<Event>, i: nat)
    requires Run(states, events) && i < |states|
    ensures Invariant(states[i])
  {
    if i > 0 {
      RunInvariant(states, events, i - 1);
      Step(states[i - 1], events[i - 1], states[i]);
    }
  }

  /** In every interleaving, at most one loader runs for a block, and every flight has its loader. */
  lemma OneLoaderPerBlock(states: seq<System>, events: seq<Event>, i: nat, t: Thread, u: Thread)
    requires Run(states, events) && i < |states|
    requires t in states[i].loaders && u in states[i].loaders && states[i].loaders[t].key == states[i].loaders[u].key
    ensures t == u
  {
    RunInvariant(states, events, i);
  }

  /**
   * When no change that covers it awaits its invalidation, a stored block is the current block of the provider's file.
   */
  lemma StoredIsCurrent(states: seq<System>, events: seq<Event>, i: nat, key: Key)
    requires Run(states, events) && i < |states|
    requires key in states[i].cache.entries && forall a :: a in states[i].awaiting ==> !Covers(a, key.path)
    ensures states[i].cache.entries[key].value == Current(states[i], key)
  {
    RunInvariant(states, events, i);
  }

  lemma InvalidatedStep(s: System, e: Event, s': System)
    requires Invariant(s) && Next(s, e, s')
    ensures s'.clock == s.clock + 1
    ensures forall p :: p in s.invalidated ==> p in s'.invalidated && s.invalidated[p] <= s'.invalidated[p]
    ensures e.Invalidation? ==> e.path in s'.invalidated && s'.invalidated[e.path] == s.clock
  {
    hide Invariant, Lookup, Land, Invalidate, Within, BlockOf, Content, Covers, Keeps;
    InvalidatedBefore(s);
  }

  lemma InvalidatedBefore(s: System)
    requires Invariant(s)
    ensures forall p :: p in s.invalidated ==> s.invalidated[p] < s.clock
  {
  }

  lemma LandedStep(s: System, e: Event, s': System, flight: nat)
    requires Invariant(s) && Next(s, e, s') && flight in s.cache.finished
    ensures flight in s'.cache.finished && s'.cache.finished[flight] == s.cache.finished[flight]
  {
    hide Invariant, Within, Land, Invalidate, AfterBegin, AfterComplete, BlockOf, Content, Covers;
    match e
    case Begin(t, key, now) => FinishedByBegin(s, t, key, now);
    case Complete(t, expires, entries) =>
      NotLandedYet(s, t);
      FinishedByComplete(s, t, expires, entries);
    case Invalidation(path) => InvalidateEffects(s.cache, path);
    case _ =>
  }

  lemma FinishedByBegin(s: System, t: Thread, key: Key, now: int)
    ensures AfterBegin(s, t, key, now).cache.finished == s.cache.finished
  {
    hide Lookup;
    LookupEffects(s.cache, key, now);
  }

  lemma FinishedByComplete(s: System, t: Thread, expires: int, entries: Entries)
    requires t in s.loaders && s.loaders[t].fetched.Some?
    ensures AfterComplete(s, t, expires, entries).cache.finished ==
              s.cache.finished[s.loaders[t].flight := s.loaders[t].fetched.value]
  {
  }

  lemma LandEffects(c: State, l: Loader, expires: int)
    requires l.fetched.Some?
    ensures var landed := Land(c, l.key, l.flight, l.generation, l.fetched.value, expires);
            && landed.finished == c.finished[l.flight := l.fetched.value] && landed.flights == c.flights - {l.key}
            && landed.nextFlight == c.nextFlight && landed.generations == c.generations
  {
  }

  lemma InvalidateEffects(c: State, path: string)
    ensures Invalidate(c, path).finished == c.finished
  {
  }

  lemma NotLandedYet(s: System, t: Thread)
    requires Invariant(s) && t in s.loaders
    ensures s.loaders[t].flight !in s.cache.finished
  {
  }

  lemma {:induction false} InvalidatedSince(states: seq<System>, events: seq<Event>, k: nat, i: nat)
    requires Run(states, events) && k < i < |states| && events[k].Invalidation?
    ensures events[k].path in states[i].invalidated && states[k].clock <= states[i].invalidated[events[k].path]
    ensures states[k].clock < states[i].clock
  {
    hide Invariant, Next;
    RunInvariant(states, events, i - 1);
    InvalidatedStep(states[i - 1], events[i - 1], states[i]);
    if k < i - 1 {
      InvalidatedSince(states, events, k, i - 1);
    }
  }

  /**
   * A stored block was loaded by a `load` that began after every invalidation of its path or an ancestor, and is what
   * the provider had when it fetched.
   */
  lemma StoredAfterInvalidations(states: seq<System>, events: seq<Event>, k: nat, i: nat, key: Key)
    returns (b: nat, f: nat)
    requires Run(states, events) && k < i < |states|
    requires events[k].Invalidation? && Covers(events[k].path, key.path) && key in states[i].cache.entries
    ensures k < b < f < i && events[b].Begin? && events[b].key == key
    ensures events[f].Fetch? && events[f].ok && events[f].thread == events[b].thread
    ensures states[i].cache.entries[key].value == BlockOf(Content(states[f].files, key.path), key.offset)
  {
    hide Next, BlockOf, Content;
    b, f := StoredWasFetched(states, events, i, key);
    OriginLater(states, events, k, i, key);
    if b <= k {
      ClockGrows(states, events, b, k);
    }
  }

  lemma OriginLater(states: seq<System>, events: seq<Event>, k: nat, i: nat, key: Key)
    requires Run(states, events) && k < i < |states|
    requires events[k].Invalidation? && Covers(events[k].path, key.path) && key in states[i].cache.entries
    ensures key in states[i].origin && states[k].clock < states[i].origin[key]
  {
    RunInvariant(states, events, i);
    InvalidatedSince(states, events, k, i);
  }

  lemma {:induction false} ClockGrows(states: seq<System>, events: seq<Event>, b: nat, k: nat)
    requires Run(states, events) && b <= k < |states|
    ensures states[b].clock <= states[k].clock
  {
    if b < k {
      ClockGrows(states, events, b, k - 1);
      assert Next(states[k - 1], events[k - 1], states[k]);
    }
  }

  /** A flight lands once: its result never changes afterwards. */
  lemma {:induction false} LandsOnce(states: seq<System>, events: seq<Event>, i: nat, j: nat, flight: nat)
    requires Run(states, events) && i <= j < |states| && flight in states[i].cache.finished
    ensures flight in states[j].cache.finished && states[j].cache.finished[flight] == states[i].cache.finished[flight]
  {
    hide Invariant, Next;
    if i < j {
      LandsOnce(states, events, i, j - 1, flight);
      RunInvariant(states, events, j - 1);
      LandedStep(states[j - 1], events[j - 1], states[j], flight);
    }
  }

  /** Only its creator lands a flight, and a waiter that is not cancelled returns what the creator returned. */
  lemma WaiterGetsResult(states: seq<System>, events: seq<Event>, i: nat, j: nat)
    requires Run(states, events) && i < |events| && j < |events|
    requires events[i].Complete? && events[i].thread in states[i].loaders
    requires events[j].Wake? && events[j].thread in states[j].waiters
    requires states[j].waiters[events[j].thread] == states[i].loaders[events[i].thread].flight
    ensures i < j
    ensures states[j + 1].returned[events[j].thread] == states[i + 1].returned[events[i].thread]
  {
    hide Invariant, Within, Lookup, Invalidate, Keeps;
    var flight := states[i].loaders[events[i].thread].flight;
    assert Next(states[i], events[i], states[i + 1]) && Next(states[j], events[j], states[j + 1]);
    RunInvariant(states, events, i);
    NotLandedYet(states[i], events[i].thread);
    if j <= i {
      LandsOnce(states, events, j, i, flight);
      assert false;
    }
    LandsOnce(states, events, i + 1, j, flight);
  }

  /** A `load` that neither loads nor waits: it returns the block that is stored and has not expired, as it is. */
  lemma HitReturns(states: seq<System>, events: seq<Event>, i: nat)
    requires Run(states, events) && i < |events| && events[i].Begin?
    ensures var e := events[i];
            var stored := states[i].cache.entries;
            e.thread !in states[i + 1].loaders && e.thread !in states[i + 1].waiters <==>
              e.key in stored && e.now < stored[e.key].expires
    ensures var e := events[i];
            var stored := states[i].cache.entries;
            e.key in stored && e.now < stored[e.key].expires ==>
              && e.thread in states[i + 1].returned
              && states[i + 1].returned[e.thread] == Loaded(stored[e.key].value)
              && ((forall a :: a in states[i].awaiting ==> !Covers(a, e.key.path)) ==>
                    states[i + 1].returned[e.thread] == Loaded(Current(states[i], e.key)))
  {
    hide Invariant, BlockOf, Covers;
    assert Next(states[i], events[i], states[i + 1]);
    var e := events[i];
    if e.key in states[i].cache.entries && forall a :: a in states[i].awaiting ==> !Covers(a, e.key.path) {
      StoredIsCurrent(states, events, i, e.key);
    }
  }

  /** A loader is new, or it was there before; if it was, only its own fetch can have changed it. */
  lemma LoaderStep(s: System, e: Event, s': System, t: Thread)
    requires Next(s, e, s') && t in s'.loaders
    ensures if t !in s.loaders
            then
              && e.Begin? && e.thread == t && s'.loaders[t].key == e.key
              && s'.loaders[t].fetched.None? && s'.loaders[t].started == s.clock
            else
              || s'.loaders[t] == s.loaders[t]
              || (e.Fetch? && e.thread == t && s'.loaders[t].key == s.loaders[t].key
                  && s'.loaders[t].started == s.loaders[t].started
                  && s'.loaders[t].fetched ==
                     Some(if e.ok then Loaded(BlockOf(Content(s.files, s.loaders[t].key.path), s.loaders[t].key.offset))
                          else LoadFailed))
  {
    hide BlockOf, Covers, Invalidate, Land, Within, Keeps, Content, Lookup, AfterBegin;
    if e.Begin? {
      BeginLoaders(s, e.thread, e.key, e.now);
    }
  }

  lemma BeginLoaders(s: System, t: Thread, key: Key, now: int)
    ensures var s' := AfterBegin(s, t, key, now);
            && (s'.loaders == s.loaders
                || (t in s'.loaders && s'.loaders == s.loaders[t := s'.loaders[t]]
                    && s'.loaders[t].key == key && s'.loaders[t].fetched.None? && s'.loaders[t].started == s.clock))
            && (s'.waiters == s.waiters
                || (key in s.cache.flights && s'.waiters == s.waiters[t := s.cache.flights[key]]))
            && s'.cache.finished == s.cache.finished && s'.origin == s.origin
            && (forall k :: k in s.cache.flights ==>
                k in s'.cache.flights && s'.cache.flights[k] == s.cache.flights[k])
            && (forall k :: k in s'.cache.entries ==>
                k in s.cache.entries && s'.cache.entries[k].value == s.cache.entries[k].value)
  {
    hide Lookup;
    LookupEffects(s.cache, key, now);
  }

  /** Behind every loader is the call that began it, and behind what it holds the provider's block when it fetched. */
  lemma {:induction false} LoaderFrom(states: seq<System>, events: seq<Event>, i: nat, t: Thread)
    returns (b: nat, f: nat)
    requires Run(states, events) && i < |states| && t in states[i].loaders
    ensures b < i && events[b].Begin? && events[b].thread == t && events[b].key == states[i].loaders[t].key
    ensures states[i].loaders[t].started == states[b].clock
    ensures forall j :: b < j <= i ==> t in states[j].loaders
    ensures states[i].loaders[t].fetched.Some? ==>
              && b < f < i && events[f].Fetch? && events[f].thread == t
              && states[i].loaders[t].fetched.value ==
                 if events[f].ok
                 then Loaded(BlockOf(Content(states[f].files, events[b].key.path), events[b].key.offset))
                 else LoadFailed
  {
    hide Next, BlockOf, Content;
    LoaderFirst(states, events, i, t);
    LoaderStep(states[i - 1], events[i - 1], states[i], t);
    if t !in states[i - 1].loaders {
      b, f := i - 1, 0;
    } else {
      b, f := LoaderFrom(states, events, i - 1, t);
      if states[i].loaders[t] != states[i - 1].loaders[t] {
        f := i - 1;
      }
    }
  }

  lemma LoaderFirst(states: seq<System>, events: seq<Event>, i: nat, t: Thread)
    requires Run(states, events) && i < |states| && t in states[i].loaders
    ensures i > 0 && Next(states[i - 1], events[i - 1], states[i])
  {
  }

  /** Every load that is completed returns the provider's block as it was when it fetched, or the failure of that. */
  lemma CompleteReturns(states: seq<System>, events: seq<Event>, i: nat) returns (b: nat, f: nat)
    requires Run(states, events) && i < |events| && events[i].Complete?
    ensures b < f < i && events[b].Begin? && events[f].Fetch?
    ensures events[b].thread == events[f].thread == events[i].thread
    ensures forall j :: b < j <= i ==> events[i].thread in states[j].loaders
    ensures events[i].thread in states[i + 1].returned
    ensures states[i + 1].returned[events[i].thread] ==
              if events[f].ok
              then Loaded(BlockOf(Content(states[f].files, events[b].key.path), events[b].key.offset))
              else LoadFailed
  {
    hide BlockOf, Content, Land, Keeps, Within;
    assert Next(states[i], events[i], states[i + 1]);
    b, f := LoaderFrom(states, events, i, events[i].thread);
  }

  /** A block is stored as it was, from the same load. */
  predicate KeptEntry(s: System, s': System, key: Key)
    requires key in s'.cache.entries
  {
    && key in s.cache.entries && s'.cache.entries[key].value == s.cache.entries[key].value
    && (key in s.origin ==> key in s'.origin && s'.origin[key] == s.origin[key])
  }

  /** A stored block was there before, or its loader has just completed. */
  lemma EntryStep(s: System, e: Event, s': System, key: Key)
    requires Next(s, e, s') && key in s'.cache.entries
    ensures || KeptEntry(s, s', key)
            || (e.Complete? && e.thread in s.loaders && s.loaders[e.thread].key == key
                && s.loaders[e.thread].fetched == Some(Loaded(s'.cache.entries[key].value))
                && key in s'.origin && s'.origin[key] == s.loaders[e.thread].started)
  {
    hide BlockOf, Covers, Content, AfterBegin, Land, Within, Invalidate, Keeps;
    match e
    case Begin(t, k, now) => BeginLoaders(s, t, k, now);
    case Complete(t, expires, entries) => LandedEntry(s, t, expires, entries, key);
    case Invalidation(path) => InvalidateExactly(s.cache, path, key);
    case _ =>
  }

  lemma LandedEntry(s: System, t: Thread, expires: int, entries: Entries, key: Key)
    requires t in s.loaders && s.loaders[t].fetched.Some? && key in entries
    requires Within(entries, Land(s.cache, s.loaders[t].key, s.loaders[t].flight, s.loaders[t].generation,
                                  s.loaders[t].fetched.value, expires).entries)
    ensures var l := s.loaders[t];
            var origin := AfterComplete(s, t, expires, entries).origin;
            || (key in s.cache.entries && entries[key].value == s.cache.entries[key].value
                && (key in s.origin ==> key in origin && origin[key] == s.origin[key]))
            || (l.key == key && l.fetched == Some(Loaded(entries[key].value))
                && key in origin && origin[key] == l.started)
  {
  }

  /** Whatever is stored for a block is what some load of that very block fetched, after it began. */
  lemma {:induction false} StoredWasFetched(states: seq<System>, events: seq<Event>, i: nat, key: Key)
    returns (b: nat, f: nat)
    requires Run(states, events) && i < |states| && key in states[i].cache.entries
    ensures b < f < i && events[b].Begin? && events[b].key == key
    ensures events[f].Fetch? && events[f].ok && events[f].thread == events[b].thread
    ensures states[i].cache.entries[key].value == BlockOf(Content(states[f].files, key.path), key.offset)
    ensures key in states[i].origin && states[i].origin[key] == states[b].clock
  {
    hide Next, BlockOf, Content;
    EntryFirst(states, events, i, key);
    EntryStep(states[i - 1], events[i - 1], states[i], key);
    if KeptEntry(states[i - 1], states[i], key) {
      b, f := StoredWasFetched(states, events, i - 1, key);
    } else {
      b, f := LoaderFrom(states, events, i - 1, events[i - 1].thread);
    }
  }

  lemma EntryFirst(states: seq<System>, events: seq<Event>, i: nat, key: Key)
    requires Run(states, events) && i < |states| && key in states[i].cache.entries
    ensures i > 0 && Next(states[i - 1], events[i - 1], states[i])
  {
  }

  /** A flight stays with its block until its loader completes, and then has the loader's result. */
  lemma FlightStep(s: System, e: Event, s': System, key: Key)
    requires Invariant(s) && Next(s, e, s') && key in s.cache.flights
    ensures || (key in s'.cache.flights && s'.cache.flights[key] == s.cache.flights[key])
            || (e.Complete? && e.thread in s.loaders && s.loaders[e.thread].key == key
                && s.loaders[e.thread].fetched.Some? && s.cache.flights[key] in s'.cache.finished
                && s'.cache.finished[s.cache.flights[key]] == s.loaders[e.thread].fetched.value)
  {
    hide BlockOf, Covers, Content, Within, Invariant, AfterBegin, Land, Invalidate, Keeps;
    match e
    case Begin(t, k, now) => BeginLoaders(s, t, k, now);
    case Complete(t, expires, entries) =>
      LandEffects(s.cache, s.loaders[t], expires);
      LoaderFlight(s, t);
    case Invalidation(path) => InvalidateExactly(s.cache, path, key);
    case _ =>
  }

  lemma LoaderFlight(s: System, t: Thread)
    requires Invariant(s) && t in s.loaders
    ensures s.loaders[t].key in s.cache.flights && s.cache.flights[s.loaders[t].key] == s.loaders[t].flight
  {
  }

  lemma {:induction false} FlightLands(states: seq<System>, events: seq<Event>, b: nat, i: nat, key: Key)
    returns (c: nat)
    requires Run(states, events) && b <= i < |states| && key in states[b].cache.flights
    requires states[b].cache.flights[key] in states[i].cache.finished
    ensures b <= c < i && events[c].Complete? && events[c].thread in states[c].loaders
    ensures states[c].loaders[events[c].thread].key == key
    ensures states[c].loaders[events[c].thread].fetched ==
              Some(states[i].cache.finished[states[b].cache.flights[key]])
    decreases i - b
  {
    hide Next, Invariant;
    RunInvariant(states, events, b);
    NotFinished(states[b], key);
    assert Next(states[b], events[b], states[b + 1]);
    FlightStep(states[b], events[b], states[b + 1], key);
    if key in states[b + 1].cache.flights && states[b + 1].cache.flights[key] == states[b].cache.flights[key] {
      c := FlightLands(states, events, b + 1, i, key);
    } else {
      c := b;
      LandsOnce(states, events, b + 1, i, states[b].cache.flights[key]);
    }
  }

  lemma NotFinished(s: System, key: Key)
    requires Invariant(s) && key in s.cache.flights
    ensures s.cache.flights[key] !in s.cache.finished
  {
  }

  /** A waiter waits for the flight of the block it asked for. */
  lemma WaiterStep(s: System, e: Event, s': System, t: Thread)
    requires Next(s, e, s') && t in s'.waiters
    ensures || (t in s.waiters && s'.waiters[t] == s.waiters[t])
            || (e.Begin? && e.thread == t && e.key in s.cache.flights && s'.waiters[t] == s.cache.flights[e.key])
  {
    hide BlockOf, Covers, Content, Within, Land, Keeps, Invalidate, AfterBegin;
    if e.Begin? {
      BeginLoaders(s, e.thread, e.key, e.now);
    }
  }

  lemma {:induction false} WaiterFrom(states: seq<System>, events: seq<Event>, i: nat, t: Thread) returns (b: nat)
    requires Run(states, events) && i < |states| && t in states[i].waiters
    ensures b < i && events[b].Begin? && events[b].thread == t && events[b].key in states[b].cache.flights
    ensures states[i].waiters[t] == states[b].cache.flights[events[b].key]
    ensures forall j :: b < j <= i ==> t in states[j].waiters
  {
    hide Next;
    WaiterFirst(states, events, i, t);
    WaiterStep(states[i - 1], events[i - 1], states[i], t);
    if t in states[i - 1].waiters && states[i].waiters[t] == states[i - 1].waiters[t] {
      b := WaiterFrom(states, events, i - 1, t);
    } else {
      b := i - 1;
    }
  }

  lemma WaiterFirst(states: seq<System>, events: seq<Event>, i: nat, t: Thread)
    requires Run(states, events) && i < |states| && t in states[i].waiters
    ensures i > 0 && Next(states[i - 1], events[i - 1], states[i])
  {
  }

  /** A waiter that is woken returns what was fetched for the block that it asked for itself, or that failure. */
  lemma WakeReturns(states: seq<System>, events: seq<Event>, i: nat) returns (b: nat, f: nat)
    requires Run(states, events) && i < |events| && events[i].Wake?
    ensures b < i && f < i && events[b].Begin? && events[b].thread == events[i].thread && events[f].Fetch?
    ensures forall j :: b < j <= i ==> events[i].thread in states[j].waiters
    ensures events[i].thread in states[i + 1].returned
    ensures states[i + 1].returned[events[i].thread] ==
              if events[f].ok
              then Loaded(BlockOf(Content(states[f].files, events[b].key.path), events[b].key.offset))
              else LoadFailed
  {
    hide BlockOf, Content, Invariant;
    assert Next(states[i], events[i], states[i + 1]);
    b := WaiterFrom(states, events, i, events[i].thread);
    var c := FlightLands(states, events, b, i, events[b].key);
    var start;
    start, f := LoaderFrom(states, events, c, events[c].thread);
  }

  /** The same may be said of a thread before and after a step: it was told nothing. */
  predicate NotTold(s: System, s': System, t: Thread) {
    (t in s'.returned <==> t in s.returned) && (t in s.returned ==> s'.returned[t] == s.returned[t])
  }

  lemma ToldByBegin(s: System, t: Thread, key: Key, now: int, u: Thread)
    requires Idle(s, t)
    ensures var s' := AfterBegin(s, t, key, now);
            u != t || t in s'.loaders || t in s'.waiters ==> NotTold(s, s', u)
  {
    hide Lookup;
    match Lookup(s.cache, key, now).1
    case Hit(data) =>
    case Join(flight) =>
    case Start(flight, generation) =>
  }

  lemma ToldByStep(s: System, e: Event, s': System, t: Thread)
    requires Next(s, e, s')
    ensures e.Cancel? && e.thread == t ==> t in s'.returned && s'.returned[t] == LoadFailed
    ensures e.Change? || e.Invalidation? || e.Fetch? || e.thread != t ==> NotTold(s, s', t)
    ensures e.Begin? && (t in s'.loaders || t in s'.waiters) ==> NotTold(s, s', t)
  {
    hide BlockOf, Content, Covers, Within, Land, Keeps, Invalidate, AfterBegin;
    if e.Begin? {
      ToldByBegin(s, e.thread, e.key, e.now, t);
    }
  }

  /** Nothing else is ever returned: a waiter that is cancelled fails, and no other step answers anybody. */
  lemma NobodyElseReturns(states: seq<System>, events: seq<Event>, i: nat, t: Thread)
    requires Run(states, events) && i < |events|
    ensures events[i].Cancel? && events[i].thread == t ==>
              t in states[i + 1].returned && states[i + 1].returned[t] == LoadFailed
    ensures events[i].Change? || events[i].Invalidation? || events[i].Fetch? || events[i].thread != t ==>
              NotTold(states[i], states[i + 1], t)
    ensures events[i].Begin? && (t in states[i + 1].loaders || t in states[i + 1].waiters) ==>
              NotTold(states[i], states[i + 1], t)
  {
    hide Next, NotTold;
    assert Next(states[i], events[i], states[i + 1]);
    ToldByStep(states[i], events[i], states[i + 1], t);
  }
}
