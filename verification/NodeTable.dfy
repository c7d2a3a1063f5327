/**
 * The nodes of a mount and the table that finds them: node, Forget, renameNodes, removeNodes, Rename
 * (pkg/agent/filesystem/nodes_linux.go).
 */
module NodeTable {
  import opened Files
  import opened Overlay
  import opened Paths
  import opened Renaming
  import opened Provider
  import opened RemoteNode
  import opened MountView
  import Meta = MetadataCache
  import Blocks = BlockCache

  lemma ProperParts(path: string)
    ensures Proper(path) ==> Parent(path) != "."
  {
  }

  /** invalidateChange on the old path, updateChangedAttr on the new one. */
  method ForgetBoth(fs: RemoteFS, from: string, to: string, attr: Option<Meta.FileAttr>, now: int)
    requires fs.cache.Valid() && fs.dataCache.Valid() && Proper(from) && Proper(to)
    modifies fs.cache, fs.dataCache
    ensures fs.cache.Valid() && fs.dataCache.Valid() && fs.dataCache.flights == old(fs.dataCache.flights)
    ensures Unremembered(fs.cache.entries, fs.dataCache.entries, from, to)
    ensures Calm(old(fs.cache.entries), old(fs.dataCache.entries), from, to, fs.cache.entries, fs.dataCache.entries)
    ensures !Denies(fs.cache.entries, to)
    ensures forall size :: Reports(fs.cache.entries, to, size) ==> attr.Some? && size == attr.value.size
  {
    hide *;
    ghost var entries, blocks := fs.cache.entries, fs.dataCache.Value();
    CacheKeyed(fs.cache);
    StateParts(fs.dataCache);
    ProperParts(from);
    ProperParts(to);
    fs.InvalidateChange(from);
    ghost var first, fewer := fs.cache.entries, fs.dataCache.entries;
    StepIsSwept(entries, from, first);
    fs.UpdateChangedAttr(to, attr, now);
    StateParts(fs.dataCache);
    RenameForgets(entries, blocks, from, to, attr, fs.cache.entries);
    CalmTwice(entries, blocks.entries, first, fewer, fs.cache.entries, fs.dataCache.entries, from, to);
  }

  lemma RemoveEffect(files: map<string, File>, dirs: set<string>, path: string, outcome: Outcome)
    ensures TakesEffect(outcome.fate) <==> outcome.fate.Succeed? || outcome.fate.FailReply?
    ensures Removable(files.Keys, dirs, path) ==> path != ""
  {
  }

  lemma SubtreeDropped(entries: Meta.Entries, s: Blocks.State, path: string)
    requires Meta.WellKeyed(entries) && Proper(path)
    ensures forall k :: Covers(path, k) ==>
              NoBlocks(Blocks.Invalidate(s, path).entries, k) && Meta.Silent(Meta.Swept(entries, path), k)
  {
    hide Meta.Swept, Meta.Silent, Meta.WellKeyed, Covers, NoBlocks, Blocks.Invalidate;
    forall k | Covers(path, k)
      ensures NoBlocks(Blocks.Invalidate(s, path).entries, k) && Meta.Silent(Meta.Swept(entries, path), k)
    {
      InvalidateDrops(s, path, k);
      Meta.ChangeSilences(entries, path, k);
    }
  }

  lemma RenameEffect(files: map<string, File>, dirs: set<string>, from: string, to: string, outcome: Outcome)
    ensures TakesEffect(outcome.fate) <==> outcome.fate.Succeed? || outcome.fate.FailReply?
    ensures Movable(files.Keys, dirs, from, to) ==> Renamable(from, to)
    ensures Movable(files.Keys, dirs, from, to) && from == to ==>
              Renamed(files, from, to) == files && KeysMoved(dirs, from, to) == dirs
    ensures Movable(files.Keys, dirs, from, to) ==>
              StandingOf(Renamed(files, from, to).Keys, KeysMoved(dirs, from, to), to) != Absent
  {
    hide Moved;
    if Movable(files.Keys, dirs, from, to) {
      MovedBounds(files, from, to);
      MovedThere(files, dirs, from, to);
    }
  }

  lemma CreateEffect(outcome: Outcome)
    ensures TakesEffect(outcome.fate) <==> outcome.fate.Succeed? || outcome.fate.FailReply?
  {
  }

  lemma CreatedThere(v: View, v': View, path: string, directory: bool, file: File)
    requires Creatable(v.files.Keys, v.dirs, path) && file.content == []
    requires v'.files == (if !directory then v.files[path := file] else v.files)
    requires v'.dirs == DirsWith(v.dirs, path, directory) && v'.pending == v.pending
    ensures Created(v, v', path, directory) && (directory ==> path !in v'.files)
    ensures StandingOf(v'.files.Keys, v'.dirs, path) != Absent
  {
  }

  lemma MakeForgets(entries: Meta.Entries, s: Blocks.State, path: string, attr: Meta.FileAttr, after: Meta.Entries)
    requires Meta.WellKeyed(entries) && Proper(path)
    requires Meta.Step(Meta.Swept(entries, path), Meta.PutAttr(path, attr), after)
    ensures forall k :: Covers(path, k) ==>
              NoBlocks(Blocks.Invalidate(s, path).entries, k) && (k != path ==> Meta.Silent(after, k))
  {
    hide Meta.Swept, Meta.Silent, Meta.Step, Blocks.Invalidate, Covers, Meta.WellKeyed, NoBlocks, Proper;
    SubtreeDropped(entries, s, path);
    forall k | Covers(path, k) && k != path ensures Meta.Silent(after, k) {
      Meta.SilentStep(Meta.Swept(entries, path), Meta.PutAttr(path, attr), after, k);
    }
  }

  lemma MakeParts(v: View, v': View, path: string, directory: bool)
    ensures MakeDone(v, v', path, directory) <==> Grown(v, v', path, directory) && Cleared(v, v', path)
    ensures MakeUnanswered(v, v', path, directory) <==>
              && Grown(v, v', path, directory)
              && (forall k :: PathCoherent(v, k) ==> PathCoherent(v', k))
              && (forall k :: k != path && PathKnown(v, k) ==> PathKnown(v', k))
  {
  }

  lemma PendingBefore(v: View, a: View, from: string, to: string)
    requires a.pending == v.pending[from := map[]]
    ensures PendingOf(a, to) != map[] ==> PendingOf(v, to) != map[]
  {
  }

  lemma PendingNow(pending: map<string, Pending>, v: View, path: string)
    ensures v.pending == pending[path := map[]] ==> PendingOf(v, path) == map[]
  {
  }

  lemma SettlesKept(v: View, b: View, k: string)
    requires Settles(v, b)
    ensures (PathCoherent(v, k) ==> PathCoherent(b, k)) && (PathKnown(v, k) ==> PathKnown(b, k))
    ensures Found(b, k) == Found(v, k)
  {
  }

  lemma NoBlocksUnspoilt(entries: Blocks.Entries, path: string, length: nat)
    ensures NoBlocks(entries, path) ==> !Spoils(entries, path, length, 0)
  {
  }

  lemma KeysWithout(files: map<string, File>, path: string)
    ensures (files - {path}).Keys == files.Keys - {path}
  {
  }

  lemma LookKeeps(v: View, v': View)
    requires v' == v.(cache := v'.cache) && Meta.Step(v.cache, Meta.Look, v'.cache)
    ensures forall k :: Found(v', k) == Found(v, k)
    ensures forall k :: (PathCoherent(v, k) ==> PathCoherent(v', k)) && (PathKnown(v, k) ==> PathKnown(v', k))
  {
    hide Found, PathCoherent, PathKnown, Reports, Denies;
    forall k
      ensures Found(v', k) == Found(v, k)
      ensures (PathCoherent(v, k) ==> PathCoherent(v', k)) && (PathKnown(v, k) ==> PathKnown(v', k))
    {
      LookNoNews(v, v', k);
      SamePath(v, v', k);
    }
  }

  lemma LookNoNews(v: View, v': View, k: string)
    requires v' == v.(cache := v'.cache) && Meta.Step(v.cache, Meta.Look, v'.cache)
    ensures NoNews(v.cache, v.blocks, k, v'.cache, v'.blocks)
  {
  }

  lemma ListingKept(v: View, v': View, dir: string, listing: seq<Meta.DirEntry>)
    requires v' == v.(cache := v'.cache) && Meta.Step(v.cache, Meta.PutDir(dir, listing), v'.cache)
    requires Current(listing, dir, v.files, v.dirs)
    ensures forall k :: Found(v', k) == Found(v, k)
    ensures forall k :: (PathCoherent(v, k) ==> PathCoherent(v', k)) && (PathKnown(v, k) ==> PathKnown(v', k))
  {
    hide Found, PathCoherent, PathKnown, Current, Meta.Step;
    forall k
      ensures Found(v', k) == Found(v, k)
      ensures (PathCoherent(v, k) ==> PathCoherent(v', k)) && (PathKnown(v, k) ==> PathKnown(v', k))
    {
      ListingKeeps(v, v', dir, listing, k);
    }
  }

  /** A listing is right about every path of its directory that was known. */
  ghost predicate Shown(v: View, dir: string, entries: seq<Meta.DirEntry>) {
    forall k :: Proper(k) && k != "" && Parent(k) == dir && PathKnown(v, k) ==> ShownIn(v, entries, k)
  }

  lemma FreshListing(v: View, dir: string, listing: seq<Meta.DirEntry>)
    requires Current(listing, dir, v.files, v.dirs) && forall k :: Sound(PendingOf(v, k))
    ensures Shown(v, dir, listing)
  {
    hide Current, ShownIn, PathKnown, Sound, Proper;
    forall k | Proper(k) && k != "" && Parent(k) == dir && PathKnown(v, k) ensures ShownIn(v, listing, k) {
      FreshShown(v, dir, listing, k);
    }
  }

  lemma CachedListing(v: View, dir: string, listing: seq<Meta.DirEntry>, now: int)
    requires Meta.ListingAnswer(v.cache, dir, now) == Some(listing)
    requires Meta.WellKeyed(v.cache) && forall k :: Sound(PendingOf(v, k))
    ensures Shown(v, dir, listing) && listing != []
  {
    hide ShownIn, PathKnown, Sound, Proper, Meta.WellKeyed, Meta.KeyOf, ParentAndName;
    forall k | Proper(k) && k != "" && Parent(k) == dir && PathKnown(v, k) ensures ShownIn(v, listing, k) {
      CachedShown(v, dir, listing, k);
    }
  }

  lemma FlushedTwice(pending: map<string, Pending>, path: string)
    ensures pending[path := map[]][path := map[]] == pending[path := map[]]
  {
  }

  /** The blocks pending in a set of nodes. */
  ghost function Total(nodes: set<Node>): nat
    reads set n | n in nodes :: n`writeBlocks
  {
    if nodes == {} then 0
    else
      var n :| n in nodes;
      |n.writeBlocks| + Total(nodes - {n})
  }

  lemma TotalWith(nodes: set<Node>, n: Node)
    requires n in nodes
    ensures Total(nodes) == |n.writeBlocks| + Total(nodes - {n})
  {
    var m :| m in nodes && Total(nodes) == |m.writeBlocks| + Total(nodes - {m});
    if m != n {
      TotalWith(nodes - {m}, n);
      TotalWith(nodes - {n}, m);
      assert nodes - {m} - {n} == nodes - {n} - {m};
    }
  }

  class Mount {
    const fs: RemoteFS
    var nodes: map<string, Node>
    /** Every node ever created; those that left the table may still be open. */
    ghost var all: set<Node>

    constructor (fs: RemoteFS)
      requires fs.budget.held == 0 && fs.cache.Valid() && fs.dataCache.Valid() && fs.dataCache.flights == map[]
      ensures Valid() && this.fs == fs && nodes == map[] && all == {}
    {
      this.fs, this.nodes, this.all := fs, map[], {};
    }

    /** A node is found under the path it carries, so it is in the table at most once. */
    ghost predicate Indexed()
      reads this, set n | n in all :: n`path
    {
      forall k :: k in nodes ==> nodes[k] in all && nodes[k].path == k
    }

    /** The budget is exactly what the nodes hold, and no node holds more than its share. */
    ghost predicate Held()
      reads this`all, all, fs.budget
    {
      && fs.budget.held == Total(all) <= MAX_TOTAL_BLOCKS
      && forall n :: n in all ==>
          n.fs == fs && n.Buffered() && (n.writeMtime.Some? ==> n.writeBlocks != map[]) && Proper(n.path)
    }

    /** Sound caches, and no load under way. */
    ghost predicate Quiet()
      reads fs.cache, fs.dataCache
    {
      fs.cache.Valid() && fs.dataCache.Valid() && fs.dataCache.flights == map[]
    }

    ghost predicate Valid()
      reads this, all, fs.budget, fs.cache, fs.dataCache
    {
      Indexed() && Held() && Quiet()
    }

    lemma NewNode(n: Node)
      requires n.writeBlocks == map[]
      ensures n.Buffered()
    {
    }

    lemma NodeValid(n: Node)
      requires Valid() && n in all
      ensures n.Valid() && n.fs == fs && Proper(n.path) && Total(all) == |n.writeBlocks| + Total(all - {n})
    {
      TotalWith(all, n);
    }

    /** node: the node at a path, created on first use. */
    method NodeAt(path: string) returns (n: Node)
      requires Valid() && Proper(path)
      modifies this
      ensures Valid() && path in nodes && n == nodes[path]
      ensures path in old(nodes) ==> nodes == old(nodes) && all == old(all)
      ensures path !in old(nodes) ==>
                fresh(n) && n.writeBlocks == map[] && nodes == old(nodes)[path := n] && all == old(all) + {n}
    {
      hide *;
      ValidParts();
      if path in nodes {
        return nodes[path];
      }
      n := new Node(fs, path);
      label Created:
      nodes := nodes[path := n];
      all := all + {n};
      Joined@Created(n);
      ValidParts();
    }

    lemma ValidParts()
      ensures Valid() <==> Indexed() && Held() && Quiet()
      ensures Indexed() ==> forall k :: k in nodes ==> nodes[k] in all && nodes[k].path == k
    {
    }

    twostate lemma Joined(n: Node)
      requires old(Indexed()) && old(Held()) && n !in old(all) && allocated(n)
      requires n.fs == fs && n.writeBlocks == map[] && n.writeMtime.None? && Proper(n.path)
      requires nodes == old(nodes)[n.path := n] && all == old(all) + {n}
      requires (forall m :: m in old(all) ==> unchanged(m)) && unchanged(fs.budget)
      ensures Indexed() && Held()
    {
      hide Proper, Total, Node.Buffered;
      NewNode(n);
      TotalWith(all, n);
      assert all - {n} == old(all);
    }

    /**
     * Forget: only the node that is in the table under its path leaves it, whatever it has pending. Its blocks and
     * their units of the budget stay with it, so unsent writes are no longer found at the path.
     */
    method Forget(n: Node)
      requires Valid() && n in all
      modifies this`nodes
      ensures Valid()
      ensures nodes == if n.path in old(nodes) && old(nodes)[n.path] == n then old(nodes) - {n.path} else old(nodes)
      ensures forall k :: k in nodes ==> nodes[k] != n
      ensures n.path in old(nodes) && old(nodes)[n.path] == n ==>
                && Seen() == old(Seen()).(pending := old(PendingAt()) - {n.path})
                && old(PendingOf(Seen(), n.path)) == n.writeBlocks
    {
      hide Held, Quiet;
      if n.path in nodes && nodes[n.path] == n {
        nodes := nodes - {n.path};
      }
    }

    /** removeNodes: the table loses the subtree and nothing else. */
    method RemoveNodes(path: string)
      requires Indexed() && path != ""
      modifies this`nodes
      ensures Indexed() && nodes == map k | k in old(nodes) && !Covers(path, k) :: old(nodes)[k]
    {
      hide Covers;
      var unseen := nodes.Keys;
      while unseen != {}
        invariant unseen <= old(nodes).Keys
        invariant nodes == map k | k in old(nodes) && (k in unseen || !Covers(path, k)) :: old(nodes)[k]
      {
        var k :| k in unseen;
        if k == path || path + "/" <= k {
          nodes := nodes - {k};
        }
        PrefixIsCovers(path, k);
        unseen := unseen - {k};
      }
    }

    /**
     * renameNodes. The loop walks the table while it changes it: keys come in any order, and a key inserted on the way
     * may or may not be met. The result is the same for all of them.
     */
    method RenameNodes(from: string, to: string)
      requires Indexed() && Renamable(from, to)
      modifies this`nodes, set k | k in nodes :: nodes[k]`path
      ensures Indexed() && nodes == Renamed(old(nodes), from, to)
      ensures forall k :: k in old(nodes) ==> old(nodes)[k].path == PathNow(old(nodes).Keys, from, to, k)
    {
      hide *;
      ghost var table := nodes;
      ValidParts();
      var start := nodes.Keys;
      var unseen, inserted := start, {};
      WalkStarts(from, to);
      while unseen != {} || inserted != {}
        invariant Underway(table, start, unseen, inserted, from, to)
        decreases |unseen|, |inserted|
      {
        unseen, inserted := Turn(start, unseen, inserted, from, to, table);
      }
      WalkEnds(table, start, from, to);
    }

    /** Where the walk stands: keys of the original table not met yet, and keys it has inserted itself. */
    ghost predicate Underway(table: map<string, Node>, start: set<string>, unseen: set<string>, inserted: set<string>,
                             from: string, to: string)
      reads this`nodes, set k | k in table :: table[k]`path
    {
      && unseen <= start && start == table.Keys && inserted !! start && inserted <= nodes.Keys
      && Walking(table, start - unseen, from, to)
    }

    /** One turn: any key that is left; an inserted one may be met or not. */
    method Turn(start: set<string>, unseen: set<string>, inserted: set<string>, from: string, to: string,
                ghost table: map<string, Node>)
      returns (unseen': set<string>, inserted': set<string>)
      requires Underway(table, start, unseen, inserted, from, to) && (unseen != {} || inserted != {})
      modifies this`nodes, set k | k in table :: table[k]`path
      ensures Underway(table, start, unseen', inserted', from, to)
      ensures |unseen'| < |unseen| || (unseen' == unseen && |inserted'| < |inserted|)
    {
      hide Walking;
      var c :| c in unseen || c in inserted;
      var meet: bool := *;
      Visited(start, unseen, c);
      inserted' := inserted;
      if c in unseen || meet {
        inserted' := Visit(c, start, inserted, from, to, table, start - unseen);
      }
      unseen', inserted' := unseen - {c}, inserted' - {c};
      Fewer(unseen, inserted, c);
    }

    /** Part of the way through renameNodes: the keys in `done` have been dealt with. */
    ghost predicate Walking(table: map<string, Node>, done: set<string>, from: string, to: string)
      reads this`nodes, set k | k in table :: table[k]`path
    {
      && Renamable(from, to) && done <= table.Keys && nodes == Moved(table, done, from, to)
      && (forall k :: k in table ==> table[k].path == PathNow(done, from, to, k))
      && (forall j, k :: j in table && k in table && table[j] == table[k] ==> j == k)
    }

    lemma WalkStarts(from: string, to: string)
      requires Indexed() && Renamable(from, to)
      ensures Underway(nodes, nodes.Keys, nodes.Keys, {}, from, to)
    {
      assert nodes.Keys - nodes.Keys == {};
    }

    lemma WalkEnds(table: map<string, Node>, start: set<string>, from: string, to: string)
      requires Underway(table, start, {}, {}, from, to) && forall k :: k in table ==> table[k] in all
      ensures Indexed() && nodes == Renamed(table, from, to)
      ensures forall k :: k in table ==> table[k].path == PathNow(table.Keys, from, to, k)
    {
      assert start - {} == table.Keys;
    }

    /** One turn of the loop: a key of the original table is dealt with, an inserted one is left alone. */
    method Visit(c: string, start: set<string>, inserted: set<string>, from: string, to: string,
                 ghost table: map<string, Node>, ghost done: set<string>) returns (r: set<string>)
      requires Walking(table, done, from, to) && start == table.Keys && c !in done && c in nodes.Keys + start
      requires inserted !! start && inserted <= nodes.Keys
      modifies this`nodes, set k | k in table :: table[k]`path
      ensures Walking(table, if c in start then done + {c} else done, from, to)
      ensures r !! start && inserted - {c} <= r && r <= nodes.Keys + {c} && (c !in start ==> r == inserted)
    {
      hide Moved, Covers, Apart;
      PrefixIsCovers(from, c);
      if c in start {
        MovedNext(table, done, from, to, c);
      } else {
        InsertedOutside(table, done, from, to, c);
      }
      r := inserted;
      if c == from || from + "/" <= c {
        var updated := MoveNode(c, nodes[c], from, to);
        if updated !in start {
          r := r + {updated};
        }
      }
    }

    /** What is pending, by path. */
    ghost function PendingAt(): map<string, Pending>
      reads this`nodes, set j | j in nodes :: nodes[j]`writeBlocks
    {
      map k | k in nodes :: nodes[k].writeBlocks
    }

    /** The mount as a value. */
    ghost function Seen(): View
      reads this`nodes, set j | j in nodes :: nodes[j]`writeBlocks
      reads fs.provider`files, fs.provider`dirs, fs.cache`entries, fs.dataCache`entries
    {
      View(fs.provider.files, fs.provider.dirs, PendingAt(), fs.cache.entries, fs.dataCache.entries)
    }

    /** Any operation on one node keeps the whole mount in order, the budget above all. */
    twostate lemma Operated(n: Node)
      requires old(Valid()) && n in all && n.fs == fs && nodes == old(nodes) && all == old(all) && n.Valid()
      requires old(Total(all) == |n.writeBlocks| + Total(all - {n}))
      requires n.path == old(n.path) && fs.budget.held - |n.writeBlocks| == old(fs.budget.held - |n.writeBlocks|)
      requires forall m :: m in all && m != n ==> unchanged(m)
      ensures Valid()
    {
      hide Held, Quiet, Node.Valid, Total, Node.Buffered, Node.Settled;
      HeldKept(n);
      QuietAt(n);
    }

    lemma QuietAt(n: Node)
      requires n.Valid() && n.fs == fs
      ensures Quiet()
    {
    }

    twostate lemma HeldKept(n: Node)
      requires old(Held()) && n in all && all == old(all) && n.Valid()
      requires old(Total(all) == |n.writeBlocks| + Total(all - {n}))
      requires n.path == old(n.path) && fs.budget.held - |n.writeBlocks| == old(fs.budget.held - |n.writeBlocks|)
      requires forall m :: m in all && m != n ==> unchanged(m)
      ensures Held()
    {
      hide Total, Node.Buffered, Proper, Node.Settled;
      TotalWith(all, n);
    }

    /** An operation on one node leaves the other paths as they are. */
    twostate lemma OthersSame(n: Node)
      requires OnlyChanges(old(fs.provider.files), fs.provider.files, n.path) && n.path == old(n.path)
      requires fs.provider.dirs == old(fs.provider.dirs)
      requires Aside(old(fs.cache.entries), old(fs.dataCache.entries), n.path, fs.cache.entries, fs.dataCache.entries)
      requires nodes == old(nodes) && all == old(all) && old(Indexed())
      requires forall m :: m in all && m != n ==> m.writeBlocks == old(m.writeBlocks)
      ensures forall k :: k != n.path ==> Found(Seen(), k) == old(Found(Seen(), k))
      ensures forall k :: k != n.path ==> (old(PathCoherent(Seen(), k)) ==> PathCoherent(Seen(), k))
      ensures forall k :: k != n.path ==> (old(PathKnown(Seen(), k)) ==> PathKnown(Seen(), k))
      ensures forall k :: k != n.path ==> PendingOf(Seen(), k) == old(PendingOf(Seen(), k))
    {
      hide PathCoherent, PathKnown, Found, Aside, OnlyChanges;
      forall k | k != n.path
        ensures Found(Seen(), k) == old(Found(Seen(), k))
        ensures old(PathCoherent(Seen(), k)) ==> PathCoherent(Seen(), k)
        ensures old(PathKnown(Seen(), k)) ==> PathKnown(Seen(), k)
        ensures PendingOf(Seen(), k) == old(PendingOf(Seen(), k))
      {
        MountView.OthersKept(old(Seen()), Seen(), n.path, k);
      }
    }

    /** What a node in the table can rely on is what its path can. */
    lemma NodeRelies(n: Node)
      requires n.fs == fs && n.Buffered() && Proper(n.path) && n.path in nodes && nodes[n.path] == n
      ensures n.Coherent() <==> PathCoherent(Seen(), n.path)
      ensures n.SizeKnown() <==> PathKnown(Seen(), n.path)
      ensures Found(Seen(), n.path) == n.File() && PendingOf(Seen(), n.path) == n.writeBlocks
      ensures Seen().files == fs.provider.files && StandsAt(Seen(), n.path) == n.Stands()
    {
      hide Logical, Reports, Denies, End, Proper;
    }

    /** Flush or Release of a node in the table. */
    method Flush(n: Node, now: int) returns (ok: bool)
      requires Valid() && n in all && n.path in nodes && nodes[n.path] == n
      modifies n`writeBlocks, n`writeMtime, fs.budget, fs.cache, fs.dataCache
      modifies fs.provider`files, fs.provider`script, fs.provider`writes
      ensures Valid() && Settles(old(Seen()), Seen())
      ensures (ok ==> PendingAt() == old(PendingAt())[n.path := map[]]) && (!ok ==> old(n.writeBlocks) != map[])
      ensures OnlyChanges(old(fs.provider.files), fs.provider.files, n.path)
      ensures old(n.writeBlocks) == map[] ==>
                fs.cache.entries == old(fs.cache.entries) && fs.dataCache.entries == old(fs.dataCache.entries)
      ensures ok && old(n.writeBlocks) != map[] ==>
                && NoBlocks(fs.dataCache.entries, n.path)
                && (fs.cache.capacity >= 1 ==> Reports(fs.cache.entries, n.path, |old(Found(Seen(), n.path))|))
      ensures Faults(fs.provider.script) + (if ok || n.path !in fs.provider.files then 0 else 1)
                <= Faults(old(fs.provider.script))
    {
      hide *;
      label Start:
      ValidParts();
      SeenParts();
      NodeValid(n);
      n.ValidParts();
      NodeRelies(n);
      ok := n.FlushPending(now);
      SeenParts();
      n.ValidParts();
      Operated@Start(n);
      OthersSame@Start(n);
      NodeRelies(n);
      SameKeys(old(fs.provider.files), fs.provider.files, n.path);
      FlushSettles(old(Seen()), Seen(), n.path);
      RefreshedBlocks(n);
      if ok {
        PendingFlushed@Start(n);
      }
    }

    lemma RefreshedBlocks(n: Node)
      ensures n.Refreshed() ==> NoBlocks(n.fs.dataCache.entries, n.path)
    {
    }

    /** How Rename and Remove begin: the node at a path, without anything pending. */
    method FlushAt(path: string, now: int) returns (ok: bool)
      requires Valid() && Proper(path)
      modifies this, all, fs.budget, fs.cache, fs.dataCache
      modifies fs.provider`files, fs.provider`script, fs.provider`writes
      ensures Valid() && Settles(old(Seen()), Seen()) && all >= old(all) && fresh(all - old(all))
      ensures OnlyChanges(old(fs.provider.files), fs.provider.files, path)
      ensures ok ==> PendingAt() == old(PendingAt())[path := map[]]
      ensures !ok ==> old(PendingOf(Seen(), path)) != map[]
      ensures old(PendingOf(Seen(), path)) == map[] ==>
                fs.cache.entries == old(fs.cache.entries) && fs.dataCache.entries == old(fs.dataCache.entries)
      ensures ok && old(PendingOf(Seen(), path)) != map[] ==>
                && NoBlocks(fs.dataCache.entries, path)
                && (fs.cache.capacity >= 1 ==> Reports(fs.cache.entries, path, |old(Found(Seen(), path))|))
      ensures Faults(fs.provider.script) + (if ok || path !in fs.provider.files then 0 else 1)
                <= Faults(old(fs.provider.script))
    {
      hide *;
      var n := Reach(path);
      SettlesTrans(old(Seen()), Seen());
      ok := Flush(n, now);
    }

    /** The node at a path, looked up or created: nobody finds anything else than before. */
    method Reach(path: string) returns (n: Node)
      requires Valid() && Proper(path)
      modifies this
      ensures Valid() && n in all && n.path == path && path in nodes && nodes[path] == n
      ensures all >= old(all) && fresh(all - old(all)) && Settles(old(Seen()), Seen())
      ensures PendingAt()[path := map[]] == old(PendingAt())[path := map[]]
      ensures PendingOf(Seen(), path) == old(PendingOf(Seen(), path)) == n.writeBlocks
      ensures Found(Seen(), path) == old(Found(Seen(), path))
    {
      hide *;
      label Start:
      ValidParts();
      n := NodeAt(path);
      ValidParts();
      NodeAdded@Start(path);
      FlushedTwice(old(PendingAt()), path);
      NodeValid(n);
      n.ValidParts();
      NodeRelies(n);
    }

    twostate lemma NodeAdded(path: string)
      requires path in nodes && (forall k :: k in old(nodes) ==> k in nodes && nodes[k] == old(nodes)[k])
      requires forall k :: k in old(nodes) ==> nodes[k].writeBlocks == old(nodes[k].writeBlocks)
      requires nodes.Keys == old(nodes).Keys + {path} && (path !in old(nodes) ==> nodes[path].writeBlocks == map[])
      requires fs.provider.files == old(fs.provider.files) && fs.provider.dirs == old(fs.provider.dirs)
      requires fs.cache.entries == old(fs.cache.entries) && fs.dataCache.entries == old(fs.dataCache.entries)
      ensures PendingAt() == if path in old(nodes) then old(PendingAt()) else old(PendingAt())[path := map[]]
      ensures Settles(old(Seen()), Seen()) && PendingOf(Seen(), path) == old(PendingOf(Seen(), path))
      ensures Found(Seen(), path) == old(Found(Seen(), path))
    {
      hide Settles, Found;
      SettlesSame(old(Seen()), Seen());
      SettlesTrans(old(Seen()), Seen());
    }

    twostate lemma PendingFlushed(n: Node)
      requires nodes == old(nodes) && n.path in nodes && nodes[n.path] == n && n.writeBlocks == map[]
      requires forall k :: k in nodes && nodes[k] != n ==> nodes[k].writeBlocks == old(nodes[k].writeBlocks)
      requires forall j, k :: j in nodes && k in nodes && nodes[j] == nodes[k] ==> j == k
      ensures PendingAt() == old(PendingAt())[n.path := map[]]
    {
    }

    /** renameNodes on a mount in order: the pending writes move with their nodes. */
    method MoveTable(from: string, to: string)
      requires Valid() && Renamable(from, to) && Proper(to)
      modifies this`nodes, set k | k in nodes :: nodes[k]`path
      ensures Valid() && nodes == Renamed(old(nodes), from, to) && PendingAt() == Renamed(old(PendingAt()), from, to)
    {
      hide *;
      label Start:
      ValidParts();
      RenameNodes(from, to);
      HeldMoved@Start((from, to));
      PendingMoved@Start((from, to));
      ValidParts();
    }

    twostate lemma HeldMoved(move: (string, string))
      requires old(Held()) && old(Indexed()) && Renamable(move.0, move.1) && Proper(move.1) && all == old(all)
      requires unchanged(fs.budget)
      requires forall n :: n in all ==> n.writeBlocks == old(n.writeBlocks)
      requires forall n :: n in all ==> n.writeMtime == old(n.writeMtime)
      requires forall k :: k in old(nodes) ==> old(nodes)[k].path == PathNow(old(nodes).Keys, move.0, move.1, k)
      requires forall n :: n in all && (forall k :: k in old(nodes) ==> old(nodes)[k] != n) ==> n.path == old(n.path)
      ensures Held()
    {
      hide Proper, Total, Node.Buffered, Covers, Rebase;
      var (from, to) := move;
      forall n | n in all ensures Proper(n.path) {
        if k :| k in old(nodes) && old(nodes)[k] == n {
          if Covers(from, k) {
            RebaseProper(k, from, to);
          }
        }
      }
    }

    twostate lemma PendingMoved(move: (string, string))
      requires Renamable(move.0, move.1) && nodes == Renamed(old(nodes), move.0, move.1)
      requires forall k :: k in old(nodes) ==> old(nodes)[k].writeBlocks == old(nodes[k].writeBlocks)
      ensures PendingAt() == Renamed(old(PendingAt()), move.0, move.1)
    {
    }

    /**
     * Rename. When it comes through, every file at or below the old path is found at the new one, unsent writes
     * included, and nothing is cached any more about either subtree but the attributes that came with the reply.
     * Without a reply the files have moved and the nodes have not, and both caches are as the flushes left them.
     */
    method Rename(from: string, to: string, now: int) returns (ok: bool, ghost course: Course, ghost flushed: View)
      requires Valid() && Proper(from) && Proper(to)
      modifies this, all, fs.provider, fs.budget, fs.cache, fs.dataCache
      ensures Valid() && all >= old(all) && fresh(all - old(all)) && (ok <==> course == Through)
      ensures course == Refused || course == Faulty ==> Settles(old(Seen()), Seen())
      ensures course == Refused ==>
                || !Movable(old(fs.provider.files).Keys, old(fs.provider.dirs), from, to)
                || (from !in old(fs.provider.files) && old(PendingOf(Seen(), from)) != map[])
                || (to !in old(fs.provider.files) && old(PendingOf(Seen(), to)) != map[])
      ensures course == Through || course == Unanswered ==>
                Movable(old(fs.provider.files).Keys, old(fs.provider.dirs), from, to)
      ensures !ok && old(PendingOf(Seen(), from)) == map[] && old(PendingOf(Seen(), to)) == map[] ==>
                fs.cache.entries == old(fs.cache.entries) && fs.dataCache.entries == old(fs.dataCache.entries)
      ensures course == Through ==> RenameDone(old(Seen()), Seen(), from, to)
      ensures course == Through ==> Unremembered(fs.cache.entries, fs.dataCache.entries, from, to)
      ensures course == Unanswered ==> from != to && RenameLost(old(Seen()), flushed, Seen(), from, to)
      ensures Faults(fs.provider.script) + (if course == Through || course == Refused then 0 else 1)
                <= Faults(old(fs.provider.script))
    {
      hide *;
      SeenParts();
      SettlesTrans(Seen(), Seen());
      ok := FlushAt(from, now);
      SettlesTrans(old(Seen()), Seen());
      flushed := Seen();
      if !ok {
        SeenParts();
        course := if from in fs.provider.files then Faulty else Refused;
        return;
      }
      SeenParts();
      ghost var a := Seen();
      PendingBefore(old(Seen()), a, from, to);
      ok := FlushAt(to, now);
      SettlesTrans(old(Seen()), Seen());
      SeenParts();
      if !ok {
        course := if to in fs.provider.files then Faulty else Refused;
        return;
      }
      flushed := Seen();
      BothFlushed(old(Seen()), a, flushed, from, to);
      ValidParts();
      ok, course := SendRename(from, to, now, old(Seen()));
    }

    /** The rename request, and what follows it. */
    method SendRename(from: string, to: string, now: int, ghost v: View) returns (ok: bool, ghost course: Course)
      requires Valid() && Proper(from) && Proper(to) && Settles(v, Seen()) && FlushedBoth(v, Seen(), from, to)
      modifies this`nodes, set k | k in nodes :: nodes[k]`path, fs.provider, fs.cache, fs.dataCache
      ensures Valid() && (ok <==> course == Through)
      ensures course == Refused || course == Faulty ==> Settles(v, Seen())
      ensures course == Refused ==> !Movable(v.files.Keys, v.dirs, from, to)
      ensures course == Through || course == Unanswered ==> Movable(v.files.Keys, v.dirs, from, to)
      ensures course == Through ==> RenameDone(v, Seen(), from, to)
      ensures course == Through ==> Unremembered(fs.cache.entries, fs.dataCache.entries, from, to)
      ensures course == Unanswered ==> from != to && RenameLost(v, old(Seen()), Seen(), from, to)
      ensures !ok ==> fs.cache.entries == old(fs.cache.entries) && fs.dataCache.entries == old(fs.dataCache.entries)
      ensures Faults(fs.provider.script) + (if course == Through || course == Refused then 0 else 1)
                <= Faults(old(fs.provider.script))
    {
      hide *;
      SeenParts();
      ValidParts();
      SettlesTrans(v, Seen());
      ghost var b := Seen();
      var attr, outcome := fs.provider.Rename(from, to);
      ok := attr.Some?;
      RenameEffect(b.files, b.dirs, from, to, outcome);
      AttrTells(fs.provider.files, fs.provider.dirs, to);
      course := if ok then Through
                else if !Movable(b.files.Keys, b.dirs, from, to) then Refused
                else if outcome.fate.FailReply? && from != to then Unanswered else Faulty;
      if ok {
        FinishRename(from, to, attr, now);
        SeenParts();
        RenameThrough(v, b, Seen(), from, to, attr);
      } else {
        SeenParts();
        if course == Unanswered {
          RenameUnanswered(v, b, Seen(), from, to);
        }
      }
    }

    /** What is pending is well-formed, for every path. */
    lemma PendingSound()
      requires Valid()
      ensures PendingAt().Keys == nodes.Keys && forall k :: k in PendingAt() ==> Sound(PendingAt()[k])
    {
    }

    lemma SeenParts()
      ensures Seen() == View(fs.provider.files, fs.provider.dirs, PendingAt(), fs.cache.entries, fs.dataCache.entries)
    {
    }

    /** The second half of Rename: what follows the provider's reply. */
    method FinishRename(from: string, to: string, attr: Option<Meta.FileAttr>, now: int)
      requires Valid() && Renamable(from, to) && Proper(from) && Proper(to)
      modifies this`nodes, set k | k in nodes :: nodes[k]`path, fs.cache, fs.dataCache
      ensures Valid() && PendingAt() == Renamed(old(PendingAt()), from, to)
      ensures Unremembered(fs.cache.entries, fs.dataCache.entries, from, to)
      ensures Calm(old(fs.cache.entries), old(fs.dataCache.entries), from, to, fs.cache.entries, fs.dataCache.entries)
      ensures !Denies(fs.cache.entries, to)
      ensures forall size :: Reports(fs.cache.entries, to, size) ==> attr.Some? && size == attr.value.size
    {
      hide *;
      MoveTable(from, to);
      ValidParts();
      QuietParts();
      ForgetBoth(fs, from, to, attr, now);
      QuietParts();
      ValidParts();
    }

    lemma QuietParts()
      ensures Quiet() <==> fs.cache.Valid() && fs.dataCache.Valid() && fs.dataCache.flights == map[]
    {
    }

    /**
     * Remove. When it comes through, nothing is found, pending or cached at the path or below it. Without a reply the
     * file is gone and the caches are not: stored blocks are still right exactly if they hold nothing, what is known
     * about the size exactly if none is cached. A path that does not exist is refused, and then nothing is forgotten.
     */
    method Remove(path: string, now: int) returns (ok: bool, ghost course: Course)
      requires Valid() && Proper(path)
      modifies this, all, fs.provider, fs.budget, fs.cache, fs.dataCache
      ensures Valid() && all >= old(all) && fresh(all - old(all)) && (ok <==> course == Through)
      ensures course == Refused || course == Faulty ==> Settles(old(Seen()), Seen())
      ensures course == Refused ==>
                || !Removable(old(fs.provider.files).Keys, old(fs.provider.dirs), path)
                || (path !in old(fs.provider.files) && old(PendingOf(Seen(), path)) != map[])
      ensures course == Through || course == Unanswered ==>
                Removable(old(fs.provider.files).Keys, old(fs.provider.dirs), path)
      ensures !ok && old(PendingOf(Seen(), path)) == map[] ==>
                fs.cache.entries == old(fs.cache.entries) && fs.dataCache.entries == old(fs.dataCache.entries)
      ensures course == Through ==> RemoveDone(old(Seen()), Seen(), path)
      ensures course == Unanswered ==> RemoveUnanswered(old(Seen()), Seen(), path)
      ensures course == Unanswered && old(PathCoherent(Seen(), path)) ==>
                (PathCoherent(Seen(), path) <==>
                 || old(PendingOf(Seen(), path)) != map[]
                 || !Spoils(old(fs.dataCache.entries), path, |old(Found(Seen(), path))|, 0))
      ensures course == Unanswered ==>
                (PathKnown(Seen(), path) <==>
                 Unreported(old(fs.cache.entries), path, old(PendingOf(Seen(), path)) != map[], fs.cache.capacity))
      ensures Faults(fs.provider.script) + (if course == Through || course == Refused then 0 else 1)
                <= Faults(old(fs.provider.script))
    {
      hide *;
      SeenParts();
      ok := FlushAt(path, now);
      SettlesTrans(old(Seen()), Seen());
      SeenParts();
      if !ok {
        course := if path in fs.provider.files then Faulty else Refused;
        return;
      }
      ValidParts();
      QuietParts();
      PendingNow(old(PendingAt()), Seen(), path);
      SettlesKept(old(Seen()), Seen(), path);
      CapacityReports(fs.cache, path, old(fs.cache.entries), old(PendingOf(Seen(), path)) != map[],
          |old(Found(Seen(), path))|);
      NoBlocksUnspoilt(fs.dataCache.entries, path, |old(Found(Seen(), path))|);
      ok, course := SendRemove(path, old(Seen()));
    }

    /** The remove request, and what follows it. */
    method SendRemove(path: string, ghost v: View) returns (ok: bool, ghost course: Course)
      requires Valid() && Proper(path) && Settles(v, Seen()) && PendingAt() == v.pending[path := map[]]
      modifies this`nodes, fs.provider, fs.cache, fs.dataCache
      ensures Valid() && (ok <==> course == Through)
      ensures course == Refused || course == Faulty ==> Settles(v, Seen())
      ensures course == Refused ==> !Removable(v.files.Keys, v.dirs, path)
      ensures course == Through || course == Unanswered ==> Removable(v.files.Keys, v.dirs, path)
      ensures course == Through ==> RemoveDone(v, Seen(), path)
      ensures course == Unanswered ==> RemoveUnanswered(v, Seen(), path)
      ensures course == Unanswered && old(PathCoherent(Seen(), path)) ==>
                (PathCoherent(Seen(), path) <==> !Spoils(old(fs.dataCache.entries), path, |Found(v, path)|, 0))
      ensures course == Unanswered ==>
                (PathKnown(Seen(), path) <==> forall n: nat :: !Reports(old(fs.cache.entries), path, n))
      ensures !ok ==> fs.cache.entries == old(fs.cache.entries) && fs.dataCache.entries == old(fs.dataCache.entries)
      ensures Faults(fs.provider.script) + (if course == Through || course == Refused then 0 else 1)
                <= Faults(old(fs.provider.script))
    {
      hide *;
      SeenParts();
      SettlesTrans(v, Seen());
      ghost var b := Seen();
      PendingNow(v.pending, b, path);
      ghost var outcome;
      ok, outcome := fs.provider.Remove(path);
      RemoveEffect(b.files, b.dirs, path, outcome);
      course := if ok then Through
                else if !Removable(b.files.Keys, b.dirs, path) then Refused
                else if outcome.fate.FailReply? then Unanswered else Faulty;
      if ok {
        FinishRemove(path);
        SeenParts();
        RemoveFinished(b, Seen(), path);
        KeysWithout(b.files, path);
        RemoveThrough(v, b, Seen(), path);
      } else {
        SeenParts();
        if course == Unanswered {
          RemoveLost(b, Seen(), path);
          RemoveLeaves(v, b, Seen(), path);
        }
      }
    }

    /** removeNodes and invalidateChange. */
    method FinishRemove(path: string)
      requires Valid() && Proper(path) && path != ""
      modifies this`nodes, fs.cache, fs.dataCache
      ensures Valid() && PendingAt() == map k | k in old(PendingAt()) && !Covers(path, k) :: old(PendingAt())[k]
      ensures Aside(old(fs.cache.entries), old(fs.dataCache.entries), path, fs.cache.entries, fs.dataCache.entries)
      ensures forall k :: Covers(path, k) ==> NoBlocks(fs.dataCache.entries, k) && Meta.Silent(fs.cache.entries, k)
    {
      hide *;
      label Start:
      ValidParts();
      RemoveNodes(path);
      PendingRemoved@Start(path);
      QuietParts();
      ProperParts(path);
      CacheKeyed(fs.cache);
      ghost var entries, blocks := fs.cache.entries, fs.dataCache.Value();
      fs.InvalidateChange(path);
      StateParts(fs.dataCache);
      StepIsSwept(entries, path, fs.cache.entries);
      SubtreeDropped(entries, blocks, path);
      QuietParts();
      ValidParts();
    }

    twostate lemma PendingRemoved(path: string)
      requires nodes == map k | k in old(nodes) && !Covers(path, k) :: old(nodes)[k]
      requires forall k :: k in old(nodes) ==> old(nodes)[k].writeBlocks == old(nodes[k].writeBlocks)
      ensures PendingAt() == map k | k in old(PendingAt()) && !Covers(path, k) :: old(PendingAt())[k]
    {
      hide Covers;
    }

    /**
     * Create and Mkdir; the node of a new file is looked up before the call, that of a new directory after it. Without
     * a reply the path exists, and what is known about it is right exactly if nothing cached denies it.
     */
    method Make(path: string, directory: bool, mode: nat, now: int) returns (ok: bool, ghost course: Course)
      requires Valid() && Proper(path)
      modifies this, fs.provider, fs.cache, fs.dataCache
      ensures Valid() && all >= old(all) && fresh(all - old(all)) && (ok <==> course == Through)
      ensures course == Refused || course == Faulty ==> Settles(old(Seen()), Seen())
      ensures course == Refused ==> !Creatable(old(fs.provider.files).Keys, old(fs.provider.dirs), path)
      ensures course == Through || course == Unanswered ==>
                Creatable(old(fs.provider.files).Keys, old(fs.provider.dirs), path)
      ensures course == Through ==> MakeDone(old(Seen()), Seen(), path, directory)
      ensures course == Unanswered ==> MakeUnanswered(old(Seen()), Seen(), path, directory)
      ensures course == Unanswered && old(PathKnown(Seen(), path)) ==>
                (PathKnown(Seen(), path) <==> !Denies(old(fs.cache.entries), path))
      ensures !ok ==> fs.cache.entries == old(fs.cache.entries) && fs.dataCache.entries == old(fs.dataCache.entries)
      ensures Faults(fs.provider.script) + (if course == Through || course == Refused then 0 else 1)
                <= Faults(old(fs.provider.script))
    {
      hide *;
      SeenParts();
      SettlesTrans(Seen(), Seen());
      if !directory {
        var child := Reach(path);
      }
      SettlesKept(old(Seen()), Seen(), path);
      SettlesTrans(old(Seen()), Seen());
      MakeSettles(old(Seen()), Seen(), path, directory);
      ok, course := SendMake(path, directory, mode, now);
      if ok && directory {
        MakeSettles(old(Seen()), Seen(), path, directory);
        var child := Reach(path);
      }
    }

    /** The request, and what follows it. */
    method SendMake(path: string, directory: bool, mode: nat, now: int) returns (ok: bool, ghost course: Course)
      requires Valid() && Proper(path)
      modifies fs.provider, fs.cache, fs.dataCache
      ensures Valid() && (ok <==> course == Through)
      ensures course == Refused || course == Faulty ==> Seen() == old(Seen())
      ensures course == Refused ==> !Creatable(old(fs.provider.files).Keys, old(fs.provider.dirs), path)
      ensures course == Through || course == Unanswered ==>
                Creatable(old(fs.provider.files).Keys, old(fs.provider.dirs), path)
      ensures course == Through ==> MakeDone(old(Seen()), Seen(), path, directory)
      ensures course == Unanswered ==> MakeUnanswered(old(Seen()), Seen(), path, directory)
      ensures course == Unanswered && old(PathKnown(Seen(), path)) ==>
                (PathKnown(Seen(), path) <==> !Denies(old(fs.cache.entries), path))
      ensures !ok ==> fs.cache.entries == old(fs.cache.entries) && fs.dataCache.entries == old(fs.dataCache.entries)
      ensures Faults(fs.provider.script) + (if course == Through || course == Refused then 0 else 1)
                <= Faults(old(fs.provider.script))
    {
      hide *;
      ghost var v := Seen();
      SeenParts();
      ValidParts();
      QuietParts();
      PendingSoundAt();
      ProperParts(path);
      CacheKeyed(fs.cache);
      ghost var entries, blocks := fs.cache.entries, fs.dataCache.Value();
      var attr, outcome := fs.provider.Create(path, directory, mode);
      ok := attr.Some?;
      CreateEffect(outcome);
      course := if ok then Through
                else if !Creatable(v.files.Keys, v.dirs, path) then Refused
                else if outcome.fate.FailReply? then Unanswered else Faulty;
      AttrTells(fs.provider.files, fs.provider.dirs, path);
      if ok {
        fs.UpdateChangedAttr(path, attr, now);
        StateParts(fs.dataCache);
        MakeForgets(entries, blocks, path, attr.value, fs.cache.entries);
      }
      SeenParts();
      if ok {
        CreatedThere(v, Seen(), path, directory, File([], [], outcome.now, mode));
        MakeFinished(v, Seen(), path, directory);
        MakeParts(v, Seen(), path, directory);
      } else if course == Unanswered {
        CreatedThere(v, Seen(), path, directory, File([], [], outcome.now, mode));
        MakeLost(v, Seen(), path, directory);
        MakeParts(v, Seen(), path, directory);
      }
      QuietParts();
      ValidParts();
    }

    /**
     * ReadDirAll of a directory: from the cache, or from the provider and then cached whole. It shows what exists among
     * the paths that are known, files under their sizes.
     */
    method List(dir: string, now: int) returns (listing: Option<seq<Meta.DirEntry>>)
      requires Valid()
      modifies fs.provider`script, fs.cache
      ensures Valid() && Seen() == old(Seen()).(cache := fs.cache.entries)
      ensures forall k :: Found(Seen(), k) == old(Found(Seen(), k))
      ensures forall k :: old(PathCoherent(Seen(), k)) ==> PathCoherent(Seen(), k)
      ensures forall k :: old(PathKnown(Seen(), k)) ==> PathKnown(Seen(), k)
      ensures listing.Some? ==> Shown(old(Seen()), dir, listing.value)
      ensures listing.Some? ==> IsDir(fs.provider.dirs, dir) || listing.value != []
      ensures Faults(fs.provider.script) + (if listing.Some? || !IsDir(fs.provider.dirs, dir) then 0 else 1)
                <= Faults(old(fs.provider.script))
    {
      hide *;
      ghost var v := Seen();
      SeenParts();
      ValidParts();
      QuietParts();
      PendingSoundAt();
      CacheKeyed(fs.cache);
      listing := fs.cache.GetDir(dir, now);
      ghost var looked := v.(cache := fs.cache.entries);
      LookKeeps(v, looked);
      if listing.Some? {
        CachedListing(v, dir, listing.value, now);
      } else {
        listing := fs.provider.ReadDir(dir);
        if listing.Some? {
          fs.cache.PutDirOf(dir, listing.value, now);
          FreshListing(v, dir, listing.value);
          ListingKept(looked, looked.(cache := fs.cache.entries), dir, listing.value);
        }
      }
      QuietParts();
      ValidParts();
      SeenParts();
    }

    lemma PendingSoundAt()
      requires Valid()
      ensures forall k :: Sound(PendingOf(Seen(), k))
    {
      hide Sound;
      NothingPending([]);
      PendingSound();
    }

    /** The loop body, for a key that lies at or below the old path. */
    method MoveNode(c: string, node: Node, from: string, to: string) returns (updated: string)
      requires c in nodes && nodes[c] == node && |from| <= |c|
      modifies this`nodes, node`path
      ensures updated == Rebase(c, from, to) && nodes == (old(nodes) - {c})[updated := node] && node.path == updated
    {
      updated := to + c[|from|..];
      nodes := nodes - {c};
      node.path := updated;
      nodes := nodes[updated := node];
    }
  }

  lemma Fewer(unseen: set<string>, inserted: set<string>, c: string)
    ensures c in unseen ==> |unseen - {c}| < |unseen|
    ensures c !in unseen ==> unseen - {c} == unseen
    ensures c in inserted ==> |inserted - {c}| < |inserted|
  {
  }

  lemma Visited(start: set<string>, unseen: set<string>, c: string)
    requires unseen <= start
    ensures start - (unseen - {c}) == if c in start then start - unseen + {c} else start - unseen
  {
  }

  /** The test that renameNodes and removeNodes spell out is the one of the caches. */
  lemma PrefixIsCovers(path: string, k: string)
    requires path != ""
    ensures k == path || path + "/" <= k <==> Covers(path, k)
  {
  }
}
