/**
 * A mount as a value: the provider's files and directories, what is pending by path, and both caches; and what renames
 * and removals make of it.
 */
module MountView {
  import opened Files
  import opened Overlay
  import opened Paths
  import opened Renaming
  import opened Provider
  import opened RemoteNode
  import Meta = MetadataCache
  import Blocks = BlockCache

  datatype View = View(
    files: map<string, File>,
    dirs: set<string>,
    pending: map<string, Pending>,
    cache: Meta.Entries,
    blocks: Blocks.Entries)

  function PendingOf(v: View, k: string): Pending {
    if k in v.pending then v.pending[k] else map[]
  }

  /** A file with pending blocks laid over it. */
  ghost function Over(file: seq<Byte>, pending: Pending): seq<Byte> {
    if Sound(pending) then Logical(file, pending) else []
  }

  lemma OverNothing(file: seq<Byte>)
    ensures Over(file, map[]) == file
  {
    NothingPending(file);
  }

  /** What is found at a path: the provider's file under whatever is pending in the node at that path. */
  ghost function Found(v: View, k: string): seq<Byte> {
    Over(Content(v.files, k), PendingOf(v, k))
  }

  /** Stored blocks of a path are current while nothing is pending for it, and there are none while something is. */
  ghost predicate PathCoherent(v: View, k: string) {
    if PendingOf(v, k) == map[] then BlocksAgree(v.blocks, k, Content(v.files, k)) else NoBlocks(v.blocks, k)
  }

  /** What the provider has at a path. */
  function StandsAt(v: View, k: string): Standing {
    StandingOf(v.files.Keys, v.dirs, k)
  }

  /**
   * Whatever size is cached for a file, with what is pending it is the length that is found; and the cache knows what
   * exists.
   */
  ghost predicate PathKnown(v: View, k: string) {
    Proper(k) && Sound(PendingOf(v, k)) ==>
      Knows(v.cache, k, Fact(StandsAt(v, k), |Found(v, k)|), End(PendingOf(v, k)))
  }

  /** What could be relied on before can be relied on afterwards. */
  ghost predicate Kept(v: View, v': View) {
    forall k :: (PathCoherent(v, k) ==> PathCoherent(v', k)) && (PathKnown(v, k) ==> PathKnown(v', k))
  }

  /** The same for a rename, after which everything about the two subtrees can be relied on. */
  ghost predicate Renewed(v: View, v': View, from: string, to: string) {
    forall k ::
      && (Inside(from, to, k) || PathCoherent(v, k) ==> PathCoherent(v', k))
      && (Inside(from, to, k) || PathKnown(v, k) ==> PathKnown(v', k))
  }

  /** The same for a removal. */
  ghost predicate Cleared(v: View, v': View, path: string) {
    forall k ::
      && (Covers(path, k) || PathCoherent(v, k) ==> PathCoherent(v', k))
      && (Covers(path, k) || PathKnown(v, k) ==> PathKnown(v', k))
  }

  lemma KeptTrans(a: View, b: View)
    ensures Kept(a, a)
    ensures Kept(a, b) ==> forall c :: Kept(b, c) ==> Kept(a, c)
    ensures Kept(a, b) ==> forall c, from, to :: Renewed(b, c, from, to) ==> Renewed(a, c, from, to)
    ensures Kept(a, b) ==> forall c, path :: Cleared(b, c, path) ==> Cleared(a, c, path)
  {
    hide PathCoherent, PathKnown, Inside, Covers;
  }

  /** What is cached about a path only shrinks. */
  ghost predicate NoNews(cache: Meta.Entries, blocks: Blocks.Entries, k: string, cache': Meta.Entries,
                         blocks': Blocks.Entries) {
    && (forall key :: key in blocks' && key.path == k ==> key in blocks && blocks'[key].value == blocks[key].value)
    && (forall size: nat :: Reports(cache', k, size) ==> Reports(cache, k, size))
    && (Denies(cache', k) ==> Denies(cache, k))
  }

  /** Everything that decides what can be relied on at a path: if none of it gets worse, nothing is lost. */
  lemma SamePath(v: View, v': View, k: string)
    requires Content(v'.files, k) == Content(v.files, k) && StandsAt(v', k) == StandsAt(v, k)
    requires PendingOf(v', k) == PendingOf(v, k)
    requires NoNews(v.cache, v.blocks, k, v'.cache, v'.blocks)
    ensures Found(v', k) == Found(v, k)
    ensures (PathCoherent(v, k) ==> PathCoherent(v', k)) && (PathKnown(v, k) ==> PathKnown(v', k))
  {
    hide Reports, Denies, Logical, Sound, End;
  }

  lemma AsideAt(v: View, v': View, path: string, k: string)
    requires Aside(v.cache, v.blocks, path, v'.cache, v'.blocks) && k != path
    ensures NoNews(v.cache, v.blocks, k, v'.cache, v'.blocks)
  {
    hide Reports, Denies;
  }

  /** An operation on one path leaves the others as they are. */
  lemma OthersKept(v: View, v': View, path: string, k: string)
    requires OnlyChanges(v.files, v'.files, path) && v'.dirs == v.dirs
    requires Aside(v.cache, v.blocks, path, v'.cache, v'.blocks)
    requires k != path && PendingOf(v', k) == PendingOf(v, k)
    ensures PathCoherent(v, k) ==> PathCoherent(v', k)
    ensures PathKnown(v, k) ==> PathKnown(v', k)
    ensures Found(v', k) == Found(v, k)
  {
    hide Aside, PathCoherent, PathKnown, Found;
    AsideAt(v, v', path, k);
    SamePath(v, v', k);
  }

  /** The unsent writes below the new path that no node from below the old path replaces. */
  function InTheWay(pending: map<string, Pending>, from: string, to: string): map<string, Pending> {
    map k | k in pending && PathPrefix(k, to) && pending[k] != map[] && Rebase(k, to, from) !in pending :: pending[k]
  }

  /** What a rename that came through leaves to be found. */
  ghost predicate Carried(v: View, v': View, from: string, to: string) {
    forall k ::
      Found(v', k) ==
        if Covers(from, k) then []
        else if Covers(to, k) then
          if k in InTheWay(v.pending, from, to) then Over(Found(v, Rebase(k, to, from)), v.pending[k])
          else Found(v, Rebase(k, to, from))
        else Found(v, k)
  }

  /** A rename at the provider and in the table carries every file along, with what is pending for it. */
  lemma RenameCarries(v: View, v': View, from: string, to: string)
    requires Apart(from, to) && Movable(v.files.Keys, v.dirs, from, to)
    requires to in v.pending && v.pending[to] == map[]
    requires v'.files == Renamed(v.files, from, to) && v'.pending == Renamed(v.pending, from, to)
    ensures Carried(v, v', from, to)
  {
    hide Renamed, Over;
    forall k ensures Found(v', k) ==
        if Covers(from, k) then []
        else if Covers(to, k) then
          if k in InTheWay(v.pending, from, to) then Over(Found(v, Rebase(k, to, from)), v.pending[k])
          else Found(v, Rebase(k, to, from))
        else Found(v, k)
    {
      RenamedShape(v.files, from, to, k);
      RenamedShape(v.pending, from, to, k);
      OverNothing([]);
      if Covers(to, k) {
        RebaseBack(k, to, from);
        OverNothing(Content(v.files, Rebase(k, to, from)));
        if Covers(from, k) {
          Comparable(from, to, k);
        }
      }
    }
  }

  /** What is left unsent once the nodes at both paths of a rename have been flushed. */
  function Left(v: View, from: string, to: string, k: string): Pending {
    if k == from || k == to then map[] else PendingOf(v, k)
  }

  /** What of a file below the old path the provider has. */
  ghost function SentPart(v: View, from: string, k: string): seq<Byte> {
    if k == from then Found(v, k) else Content(v.files, k)
  }

  /**
   * What a rename whose reply is lost leaves to be found: the provider has moved the files, the nodes have stayed, so
   * below the old path unsent writes stand alone, and below the new path files lack them.
   */
  ghost predicate Stranded(v: View, v': View, from: string, to: string) {
    forall k ::
      Found(v', k) ==
        if Covers(from, k) then Over([], Left(v, from, to, k))
        else if Covers(to, k) then Over(SentPart(v, from, Rebase(k, to, from)), Left(v, from, to, k))
        else Found(v, k)
  }

  /** Views that differ in the content of two paths at most, and in what is pending for them. */
  ghost predicate FlushedBoth(v: View, b: View, from: string, to: string) {
    && (forall k :: k != from && k != to ==> Content(b.files, k) == Content(v.files, k))
    && b.pending == v.pending[from := map[]][to := map[]] && b.files.Keys == v.files.Keys && b.dirs == v.dirs
  }

  lemma RenameStrands(v: View, b: View, v': View, from: string, to: string)
    requires Apart(from, to) && Movable(b.files.Keys, b.dirs, from, to) && FlushedBoth(v, b, from, to)
    requires forall k :: Found(b, k) == Found(v, k)
    requires v' == b.(files := Renamed(b.files, from, to), dirs := KeysMoved(b.dirs, from, to))
    ensures Stranded(v, v', from, to)
  {
    hide Renamed, Over;
    forall k ensures Found(v', k) ==
        if Covers(from, k) then Over([], Left(v, from, to, k))
        else if Covers(to, k) then Over(SentPart(v, from, Rebase(k, to, from)), Left(v, from, to, k))
        else Found(v, k)
    {
      assert Found(b, k) == Found(v, k);
      RenamedShape(b.files, from, to, k);
      if Covers(to, k) {
        RebaseBack(k, to, from);
        assert Found(b, from) == Found(v, from);
        OverNothing(Content(b.files, from));
        if Covers(from, k) {
          Comparable(from, to, k);
        }
        if Covers(to, Rebase(k, to, from)) {
          Comparable(from, to, Rebase(k, to, from));
        }
      }
    }
  }

  /**
   * No block of either subtree is stored, and no lookup in them is answered, but for the attributes of the new path.
   */
  ghost predicate Unremembered(entries: Meta.Entries, blocks: Blocks.Entries, from: string, to: string) {
    forall k :: Inside(from, to, k) ==> NoBlocks(blocks, k) && (k != to ==> Meta.Silent(entries, k))
  }

  lemma InvalidateDrops(s: Blocks.State, path: string, k: string)
    ensures Covers(path, k) || NoBlocks(s.entries, k) ==> NoBlocks(Blocks.Invalidate(s, path).entries, k)
  {
  }

  lemma RenameForgets(entries: Meta.Entries, blocks: Blocks.State, from: string, to: string,
                      attr: Option<Meta.FileAttr>, after: Meta.Entries)
    requires Meta.WellKeyed(entries) && Proper(from) && Proper(to)
    requires if attr.None? then after == Meta.Swept(Meta.Swept(entries, from), to)
             else Meta.Step(Meta.Swept(Meta.Swept(entries, from), to), Meta.PutAttr(to, attr.value), after)
    ensures Unremembered(after, Blocks.Invalidate(Blocks.Invalidate(blocks, from), to).entries, from, to)
  {
    hide Meta.Swept, Meta.Silent, Blocks.Invalidate, Covers, Meta.WellKeyed, NoBlocks;
    var first, second := Meta.Swept(entries, from), Meta.Swept(Meta.Swept(entries, from), to);
    Meta.WellKeyedStep(entries, Meta.Change(from), first);
    forall k | Covers(from, k) || Covers(to, k)
      ensures NoBlocks(Blocks.Invalidate(Blocks.Invalidate(blocks, from), to).entries, k)
      ensures k != to ==> Meta.Silent(after, k)
    {
      InvalidateDrops(blocks, from, k);
      InvalidateDrops(Blocks.Invalidate(blocks, from), to, k);
      if Covers(to, k) {
        Meta.ChangeSilences(first, to, k);
      } else {
        Meta.ChangeSilences(entries, from, k);
        Meta.SilentStep(first, Meta.Change(to), second, k);
      }
      if k != to && attr.Some? {
        Meta.SilentStep(second, Meta.PutAttr(to, attr.value), after, k);
      }
    }
  }

  lemma SilentKnows(cache: Meta.Entries, k: string)
    ensures Meta.Silent(cache, k) ==> !Denies(cache, k) && forall size: nat :: !Reports(cache, k, size)
  {
  }

  lemma RenamedBoth(v: View, v': View, from: string, to: string, k: string)
    requires Renamable(from, to) && v'.files == Renamed(v.files, from, to) && !Inside(from, to, k)
    requires v'.dirs == KeysMoved(v.dirs, from, to)
    requires v'.pending == Renamed(v.pending, from, to) || v'.pending == v.pending
    ensures PendingOf(v', k) == PendingOf(v, k) && Content(v'.files, k) == Content(v.files, k)
    ensures StandsAt(v', k) == StandsAt(v, k)
  {
    hide Renamed, KeysMoved;
    KeysMovedShape(v.dirs, from, to, k);
    if from == to {
      MovedBounds(v.files, from, to);
      MovedBounds(v.pending, from, to);
    } else {
      RenamedShape(v.files, from, to, k);
      RenamedShape(v.pending, from, to, k);
    }
  }

  lemma PendingAtTarget(v: View, v': View, from: string, to: string)
    requires Renamable(from, to) && v'.pending == Renamed(v.pending, from, to)
    requires from in v.pending && v.pending[from] == map[]
    ensures PendingOf(v', to) == map[]
  {
    hide Renamed;
    if from == to {
      MovedBounds(v.pending, from, to);
    } else {
      RenamedShape(v.pending, from, to, to);
      assert Rebase(to, to, from) == from;
    }
  }

  /** What is cached about paths other than the two of a rename only shrinks. */
  ghost predicate Calm(cache: Meta.Entries, blocks: Blocks.Entries, from: string, to: string,
                       cache': Meta.Entries, blocks': Blocks.Entries) {
    forall k :: k != from && k != to ==> NoNews(cache, blocks, k, cache', blocks')
  }

  lemma CalmTwice(a: Meta.Entries, b: Blocks.Entries, c: Meta.Entries, d: Blocks.Entries, e: Meta.Entries,
                  f: Blocks.Entries, from: string, to: string)
    requires Aside(a, b, from, c, d) && Aside(c, d, to, e, f)
    ensures Calm(a, b, from, to, e, f)
  {
    hide Reports, Denies;
  }

  /** After a rename everything cached about the two subtrees can be relied on, and the rest as before. */
  lemma RenameRenews(v: View, v': View, from: string, to: string)
    requires Renamable(from, to) && v'.files == Renamed(v.files, from, to) && v'.pending == Renamed(v.pending, from, to)
    requires v'.dirs == KeysMoved(v.dirs, from, to)
    requires from in v.pending && v.pending[from] == map[]
    requires Unremembered(v'.cache, v'.blocks, from, to) && Calm(v.cache, v.blocks, from, to, v'.cache, v'.blocks)
    requires !Denies(v'.cache, to)
    requires forall size: nat :: Reports(v'.cache, to, size) ==> Tells(FactOf(v'.files, v'.dirs, to), size)
    ensures Renewed(v, v', from, to)
  {
    hide Renamed, KeysMoved, Logical, Sound, Reports, Denies, Renamable, Proper;
    PendingAtTarget(v, v', from, to);
    NothingPending(Content(v'.files, to));
    forall k
      ensures Inside(from, to, k) || PathCoherent(v, k) ==> PathCoherent(v', k)
      ensures Inside(from, to, k) || PathKnown(v, k) ==> PathKnown(v', k)
    {
      if Inside(from, to, k) {
        SilentKnows(v'.cache, k);
        NoBlocksAgree(v'.blocks, k, Content(v'.files, k));
      } else {
        RenamedBoth(v, v', from, to, k);
        SamePath(v, v', k);
      }
    }
  }

  /** After a lost rename, what is cached about paths outside both subtrees is as reliable as before. */
  lemma StrandedKeeps(v: View, v': View, from: string, to: string, k: string)
    requires Renamable(from, to) && !Inside(from, to, k)
    requires v' == v.(files := Renamed(v.files, from, to), dirs := KeysMoved(v.dirs, from, to))
    ensures (PathCoherent(v, k) ==> PathCoherent(v', k)) && (PathKnown(v, k) ==> PathKnown(v', k))
  {
    hide Renamed, KeysMoved, PathCoherent, PathKnown, Reports, Denies;
    RenamedBoth(v, v', from, to, k);
    SamePath(v, v', k);
  }

  /** The names of files after a rename. */
  lemma RenamedKeys(files: map<string, File>, dirs: set<string>, from: string, to: string)
    requires Movable(files.Keys, dirs, from, to)
    ensures Renamed(files, from, to).Keys == KeysMoved(files.Keys, from, to)
  {
    hide Renamed;
    if from == to {
      MovedBounds(files, from, to);
    } else {
      forall k ensures k in Renamed(files, from, to) <==> k in KeysMoved(files.Keys, from, to) {
        RenamedShape(files, from, to, k);
        if Covers(to, k) {
          RebaseBack(k, to, from);
          if k in files && k == to {
            assert Rebase(to, to, from) == from;
          }
        }
        if j :| j in files && Covers(from, j) && k == Rebase(j, from, to) {
          RebaseBack(j, from, to);
          if Covers(from, k) {
            Comparable(from, to, k);
          }
        }
      }
    }
  }

  lemma KeysMovedProper(keys: set<string>, from: string, to: string)
    requires Renamable(from, to) && Proper(to) && forall k :: k in keys ==> Proper(k) && k != ""
    ensures forall k :: k in KeysMoved(keys, from, to) ==> Proper(k) && k != ""
  {
    forall j | j in keys && Covers(from, j) ensures Proper(Rebase(j, from, to)) && Rebase(j, from, to) != "" {
      RebaseProper(j, from, to);
    }
  }

  /** Writes are pending only for files that the provider has, or at one of some other paths. */
  ghost predicate Backed(v: View, unbacked: iset<string>) {
    forall k :: PendingOf(v, k) != map[] ==> k in v.files || k in unbacked
  }

  /** Where writes may be pending without a file once a rename came through: they move, or stay in the way. */
  ghost function MovedUnbacked(unbacked: iset<string>, from: string, to: string): iset<string> {
    if from == to then unbacked
    else
      iset k | (!Inside(from, to, k) && k in unbacked)
            || (Covers(to, k) && (k in unbacked || Rebase(k, to, from) in unbacked))
  }

  lemma RenameBacked(v: View, v': View, from: string, to: string, unbacked: iset<string>)
    requires Movable(v.files.Keys, v.dirs, from, to) && v'.files == Renamed(v.files, from, to)
    requires v'.pending == Renamed(v.pending, from, to)
    requires Backed(v, unbacked) && to in v.pending && v.pending[to] == map[]
    ensures Backed(v', MovedUnbacked(unbacked, from, to))
    ensures from != to ==> forall k :: k in InTheWay(v.pending, from, to) ==> k in unbacked
  {
    hide Renamed;
    if from == to {
      MovedBounds(v.files, from, to);
      MovedBounds(v.pending, from, to);
    } else {
      forall k | k in v.pending && v.pending[k] != map[] ensures PendingOf(v, k) != map[] {
      }
      forall k | PendingOf(v', k) != map[] ensures k in v'.files || k in MovedUnbacked(unbacked, from, to) {
        RenamedShape(v.files, from, to, k);
        RenamedShape(v.pending, from, to, k);
        if Covers(to, k) && Rebase(k, to, from) in v.pending {
          assert PendingOf(v, Rebase(k, to, from)) != map[];
        } else {
          assert PendingOf(v, k) != map[];
        }
      }
    }
  }

  /**
   * What is found once a file is gone at the provider and in the table: nothing at its path or below, the rest as
   * before.
   */
  ghost predicate Emptied(v: View, v': View, path: string) {
    forall k :: Found(v', k) == if Covers(path, k) then [] else Found(v, k)
  }

  /** A removal that came through, with table and caches brought up to date. */
  lemma RemoveFinished(v: View, v': View, path: string)
    requires Removable(v.files.Keys, v.dirs, path) && v'.files == v.files - {path} && v'.dirs == v.dirs - {path}
    requires v'.pending == map k | k in v.pending && !Covers(path, k) :: v.pending[k]
    requires Aside(v.cache, v.blocks, path, v'.cache, v'.blocks)
    requires forall k :: Covers(path, k) ==> NoBlocks(v'.blocks, k) && Meta.Silent(v'.cache, k)
    ensures Emptied(v, v', path) && Cleared(v, v', path)
    ensures forall k :: PendingOf(v', k) == if Covers(path, k) then map[] else PendingOf(v, k)
  {
    hide Reports, Denies, Logical, Sound, Aside, Meta.Silent, Proper;
    forall k
      ensures Found(v', k) == if Covers(path, k) then [] else Found(v, k)
      ensures Covers(path, k) || PathCoherent(v, k) ==> PathCoherent(v', k)
      ensures Covers(path, k) || PathKnown(v, k) ==> PathKnown(v', k)
    {
      if Covers(path, k) {
        OverNothing([]);
        SilentKnows(v'.cache, k);
        NoBlocksAgree(v'.blocks, k, []);
      } else {
        AsideAt(v, v', path, k);
        SamePath(v, v', k);
      }
    }
  }

  /** What a removal whose reply is lost leaves: the file is gone, and what is cached about it may not be. */
  ghost predicate LeftBehind(v: View, v': View, path: string) {
    && (forall k :: Found(v', k) == if k == path then [] else Found(v, k))
    && (forall k :: k != path ==>
        (PathCoherent(v, k) ==> PathCoherent(v', k)) && (PathKnown(v, k) ==> PathKnown(v', k)))
  }

  /**
   * A removal whose reply is lost, on a path without pending writes. The stored blocks are still right exactly if they
   * hold nothing, what is known about the size exactly if none is cached.
   */
  lemma RemoveLost(v: View, v': View, path: string)
    requires v' == v.(files := v.files - {path}, dirs := v.dirs - {path})
    requires PendingOf(v, path) == map[] && Proper(path) && path != ""
    ensures LeftBehind(v, v', path)
    ensures PathCoherent(v, path) ==> (PathCoherent(v', path) <==> !Spoils(v.blocks, path, |Found(v, path)|, 0))
    ensures PathKnown(v', path) <==> forall size: nat :: !Reports(v.cache, path, size)
  {
    hide Reports, Denies, Logical, Sound, BlocksAgree, Spoils, Over, LeftBehind;
    LostOthers(v, v', path);
    OverNothing(Content(v.files, path));
    NothingPending([]);
    CutSpoils(v.blocks, path, Content(v.files, path), 0);
    assert Truncate(Content(v.files, path), 0) == [];
  }

  lemma LostOthers(v: View, v': View, path: string)
    requires v' == v.(files := v.files - {path}, dirs := v.dirs - {path}) && PendingOf(v, path) == map[]
    ensures LeftBehind(v, v', path)
  {
    hide PathCoherent, PathKnown, Over;
    OverNothing([]);
    forall k | k != path
      ensures Found(v', k) == Found(v, k)
      ensures (PathCoherent(v, k) ==> PathCoherent(v', k)) && (PathKnown(v, k) ==> PathKnown(v', k))
    {
      SamePath(v, v', k);
    }
  }

  /** A file or directory has come into being; nobody finds other contents than before. */
  ghost predicate Grown(v: View, v': View, path: string, directory: bool) {
    && v'.files.Keys == FilesWith(v.files.Keys, path, directory) && v'.dirs == DirsWith(v.dirs, path, directory)
    && (forall k :: Found(v', k) == Found(v, k))
    && (forall k :: PendingOf(v', k) != map[] ==> PendingOf(v, k) != map[])
  }

  /** The provider's side of a creation. */
  ghost predicate Created(v: View, v': View, path: string, directory: bool) {
    && Creatable(v.files.Keys, v.dirs, path) && v'.pending == v.pending
    && v'.dirs == DirsWith(v.dirs, path, directory)
    && (if directory then v'.files == v.files
        else path in v'.files && v'.files == v.files[path := v'.files[path]] && v'.files[path].content == [])
  }

  lemma CreatedGrows(v: View, v': View, path: string, directory: bool)
    requires Created(v, v', path, directory)
    ensures Grown(v, v', path, directory)
    ensures forall k :: Content(v'.files, k) == Content(v.files, k)
    ensures forall k :: k != path ==> StandsAt(v', k) == StandsAt(v, k)
    ensures StandsAt(v, path) == Absent && StandsAt(v', path) == if directory then Directory else Regular
  {
    hide Over;
    assert v'.files.Keys == FilesWith(v.files.Keys, path, directory);
  }

  /** A creation that came through, with the caches brought up to date. */
  lemma MakeFinished(v: View, v': View, path: string, directory: bool)
    requires Created(v, v', path, directory) && Aside(v.cache, v.blocks, path, v'.cache, v'.blocks)
    requires forall k :: Covers(path, k) ==> NoBlocks(v'.blocks, k) && (k != path ==> Meta.Silent(v'.cache, k))
    requires !Denies(v'.cache, path)
    requires forall size: nat :: Reports(v'.cache, path, size) ==> Tells(FactOf(v'.files, v'.dirs, path), size)
    ensures Grown(v, v', path, directory) && Cleared(v, v', path)
  {
    hide Reports, Denies, Aside, Meta.Silent, Proper, Created, Grown, Found, PathKnown, PathCoherent;
    CreatedGrows(v, v', path, directory);
    forall k
      ensures Covers(path, k) || PathCoherent(v, k) ==> PathCoherent(v', k)
      ensures Covers(path, k) || PathKnown(v, k) ==> PathKnown(v', k)
    {
      if k == path {
        LearnedAlone(v', k);
      } else if Covers(path, k) {
        SilentKnows(v'.cache, k);
        LearnedAlone(v', k);
      } else {
        AsideAt(v, v', path, k);
        SamePending(v, v', path, directory);
        SamePath(v, v', k);
      }
    }
  }

  lemma SamePending(v: View, v': View, path: string, directory: bool)
    requires Created(v, v', path, directory)
    ensures forall k :: PendingOf(v', k) == PendingOf(v, k)
  {
  }

  /** What a fresh answer says of a path without stored blocks is right. */
  lemma LearnedAlone(v: View, k: string)
    requires NoBlocks(v.blocks, k) && !Denies(v.cache, k)
    requires forall size: nat :: Reports(v.cache, k, size) ==> Tells(FactOf(v.files, v.dirs, k), size)
    ensures PathCoherent(v, k) && PathKnown(v, k)
  {
    hide Reports, Denies, Sound, Logical;
    if Sound(PendingOf(v, k)) {
      LogicalLength(Content(v.files, k), PendingOf(v, k));
    }
    NoBlocksAgree(v.blocks, k, Content(v.files, k));
  }

  /**
   * A creation whose reply is lost: what is known about the path is still right exactly if nothing cached denies it,
   * and everything else is as reliable as before.
   */
  lemma MakeLost(v: View, v': View, path: string, directory: bool)
    requires Created(v, v', path, directory) && v' == v.(files := v'.files, dirs := v'.dirs)
    requires Proper(path) && Sound(PendingOf(v, path))
    ensures Grown(v, v', path, directory)
    ensures forall k :: PathCoherent(v, k) ==> PathCoherent(v', k)
    ensures forall k :: k != path && PathKnown(v, k) ==> PathKnown(v', k)
    ensures PathKnown(v, path) ==> (PathKnown(v', path) <==> !Denies(v.cache, path))
  {
    hide Reports, Denies, Sound, Logical, Created, Grown, Over, BlocksAgree, NoBlocks, Proper, StandsAt;
    CreatedGrows(v, v', path, directory);
  }

  /** Forgetting a node: its unsent writes are no longer found, and its path falls back to the provider's file. */
  lemma ForgetFalls(v: View, v': View, path: string)
    requires v' == v.(pending := v.pending - {path})
    ensures forall k :: Found(v', k) == if k == path then Content(v.files, k) else Found(v, k)
    ensures forall k :: PathCoherent(v, k) ==> PathCoherent(v', k)
    ensures forall k :: k != path || PendingOf(v, path) == map[] ==> (PathKnown(v, k) ==> PathKnown(v', k))
    ensures forall k :: PendingOf(v', k) == if k == path then map[] else PendingOf(v, k)
  {
    hide Reports, Denies, Logical, Sound, End, BlocksAgree;
    OverNothing(Content(v.files, path));
    NoBlocksAgree(v.blocks, path, Content(v.files, path));
  }

  /** Nothing is lost in this exactly if every unsent byte is already in the provider's file. */
  lemma ForgetHarmless(v: View, path: string)
    requires Sound(PendingOf(v, path))
    ensures Content(v.files, path) == Found(v, path) <==> Redundant(Content(v.files, path), PendingOf(v, path))
  {
    OverlayRedundant(Content(v.files, path), PendingOf(v, path));
  }

  lemma SameKeys(before: map<string, File>, after: map<string, File>, path: string)
    requires OnlyChanges(before, after, path)
    ensures after.Keys == before.Keys
    ensures forall k :: k != path ==> Content(after, k) == Content(before, k)
  {
  }

  /** A listing that the provider has just sent: it is right for every path of the directory, and touches no other. */
  lemma ListingKeeps(v: View, v': View, dir: string, listing: seq<Meta.DirEntry>, k: string)
    requires v' == v.(cache := v'.cache) && Meta.Step(v.cache, Meta.PutDir(dir, listing), v'.cache)
    requires Current(listing, dir, v.files, v.dirs)
    ensures Found(v', k) == Found(v, k) && (PathCoherent(v, k) ==> PathCoherent(v', k))
    ensures PathKnown(v, k) ==> PathKnown(v', k)
  {
    hide Logical, Sound, BlocksAgree, NoBlocks, Reports, Denies, PathKnown;
    if Proper(k) {
      ChildOfParent(k);
      ListingNews(v.cache, dir, listing, v'.cache, k, v.files, v.dirs);
      LearnedKeeps(v, v', k);
    } else {
      ImproperKnown(v', k);
    }
  }

  lemma ImproperKnown(v: View, k: string)
    ensures !Proper(k) ==> PathKnown(v, k)
  {
  }

  lemma ListingNews(before: Meta.Entries, dir: string, listing: seq<Meta.DirEntry>, after: Meta.Entries, k: string,
                    files: map<string, File>, dirs: set<string>)
    requires Meta.Step(before, Meta.PutDir(dir, listing), after) && Current(listing, dir, files, dirs)
    requires k == Child(Parent(k), ParentAndName(k).1)
    ensures Learned(before, k, FactOf(files, dirs, k), after)
  {
    hide *;
    if k != "" && Parent(k) == dir {
      CurrentThere(listing, k, files, dirs);
      ListingReports(before, k, listing, FactOf(files, dirs, k), after);
    } else {
      ListingElsewhere(before, dir, listing, after, k, files, dirs);
    }
  }

  lemma CurrentThere(listing: seq<Meta.DirEntry>, k: string, files: map<string, File>, dirs: set<string>)
    requires Current(listing, Parent(k), files, dirs) && k != "" && k == Child(Parent(k), ParentAndName(k).1)
    ensures CurrentIn(listing, ParentAndName(k).1, FactOf(files, dirs, k))
  {
    forall i | 0 <= i < |listing| && listing[i].name == ParentAndName(k).1
      ensures Tells(FactOf(files, dirs, k), listing[i].attr.size)
    {
      assert Accurate(listing[i], Parent(k), files, dirs);
    }
  }

  lemma ListingElsewhere(before: Meta.Entries, dir: string, listing: seq<Meta.DirEntry>, after: Meta.Entries, k: string,
                         files: map<string, File>, dirs: set<string>)
    requires Meta.Step(before, Meta.PutDir(dir, listing), after) && Current(listing, dir, files, dirs)
    requires k == "" || Parent(k) != dir
    ensures Learned(before, k, FactOf(files, dirs, k), after)
  {
    hide Current, Meta.IndexAttrs, Meta.IndexLinks, Tells, FactOf, Meta.KeyOf, ParentAndName;
    RootIsParent();
    if k == "" && dir == "" {
      RootTells(listing, files, dirs);
    }
    OtherKeys(dir, k);
  }

  lemma RootIsParent()
    ensures ParentAndName("") == ("", "")
  {
  }

  lemma OtherKeys(dir: string, k: string)
    ensures Meta.KeyOf(Meta.Attr, k) != Meta.KeyOf(Meta.Dir, dir)
    ensures Meta.KeyOf(Meta.Missing, k) != Meta.KeyOf(Meta.Dir, dir)
    ensures Parent(k) != dir ==> Meta.KeyOf(Meta.Dir, Parent(k)) != Meta.KeyOf(Meta.Dir, dir)
  {
    Meta.KeysDiffer(Meta.Attr, k, Meta.Dir, dir);
    Meta.KeysDiffer(Meta.Missing, k, Meta.Dir, dir);
    if Meta.KeyOf(Meta.Dir, Parent(k)) == Meta.KeyOf(Meta.Dir, dir) {
      Meta.KeyInjective(Meta.Dir, Parent(k), Meta.Dir, dir);
    }
  }

  lemma RootTells(listing: seq<Meta.DirEntry>, files: map<string, File>, dirs: set<string>)
    requires Current(listing, "", files, dirs)
    ensures "" in Meta.IndexAttrs(listing) ==> Tells(FactOf(files, dirs, ""), Meta.IndexAttrs(listing)[""].size)
  {
    Indexed(listing, "");
    if "" in Meta.IndexAttrs(listing) {
      var i :| 0 <= i < |listing| && HasAttr(listing[i], "", Meta.IndexAttrs(listing)[""]);
      assert Accurate(listing[i], "", files, dirs);
    }
  }

  lemma LearnedKeeps(v: View, v': View, k: string)
    requires v' == v.(cache := v'.cache) && Learned(v.cache, k, FactOf(v.files, v.dirs, k), v'.cache)
    ensures PathKnown(v, k) ==> PathKnown(v', k)
  {
    hide Reports, Denies;
  }

  /** A listing is right about a path of its directory: shown if and only if it exists, and a file under its size. */
  ghost predicate ShownIn(v: View, entries: seq<Meta.DirEntry>, k: string) {
    var name, attrs := ParentAndName(k).1, Meta.IndexAttrs(entries);
    && (name in attrs <==> StandsAt(v, k) != Absent)
    && (name in attrs && Sound(PendingOf(v, k)) ==>
          Tells(Fact(StandsAt(v, k), |Found(v, k)|), Max(attrs[name].size, End(PendingOf(v, k)))))
  }

  /** A listing that the provider has just sent is right about all paths of the directory. */
  lemma FreshShown(v: View, dir: string, listing: seq<Meta.DirEntry>, k: string)
    requires Current(listing, dir, v.files, v.dirs) && Sound(PendingOf(v, k))
    requires Proper(k) && k != "" && Parent(k) == dir
    ensures ShownIn(v, listing, k)
  {
    hide Logical, Sound;
    var name := ParentAndName(k).1;
    ChildOfParent(k);
    Indexed(listing, name);
    if name in Meta.IndexAttrs(listing) {
      var i :| 0 <= i < |listing| && HasAttr(listing[i], name, Meta.IndexAttrs(listing)[name]);
      assert Accurate(listing[i], dir, v.files, v.dirs);
      LogicalLength(Content(v.files, k), PendingOf(v, k));
    }
  }

  lemma LogicalLength(file: seq<Byte>, pending: Pending)
    requires Sound(pending)
    ensures |Over(file, pending)| == Max(|file|, End(pending))
  {
  }

  /** A cached listing is right about the paths that are known. */
  lemma CachedShown(v: View, dir: string, listing: seq<Meta.DirEntry>, k: string)
    requires Meta.WellKeyed(v.cache) && Meta.KeyOf(Meta.Dir, dir) in v.cache
    requires v.cache[Meta.KeyOf(Meta.Dir, dir)].value.dir == listing
    requires Proper(k) && k != "" && Parent(k) == dir && Sound(PendingOf(v, k)) && PathKnown(v, k)
    ensures ShownIn(v, listing, k)
  {
    hide Logical, Sound;
    Meta.KeyedPath(v.cache, Meta.Dir, dir);
    var name := ParentAndName(k).1;
    if name in Meta.IndexAttrs(listing) {
      assert Reports(v.cache, k, Meta.IndexAttrs(listing)[name].size);
    } else {
      assert Denies(v.cache, k);
    }
  }

  /** A flush, wherever it stops: everybody finds what was there, and can rely on what could be relied on. */
  ghost predicate Settles(v: View, v': View) {
    && Kept(v, v') && v'.files.Keys == v.files.Keys && v'.dirs == v.dirs
    && (forall k :: Found(v', k) == Found(v, k))
    && (forall k :: PendingOf(v', k) != map[] ==> PendingOf(v, k) != map[])
  }

  lemma SettlesTrans(a: View, b: View)
    ensures Settles(a, a)
    ensures Settles(a, b) ==> forall c :: Settles(b, c) ==> Settles(a, c)
    ensures Settles(a, b) ==> Kept(a, b) && a.files.Keys == b.files.Keys && a.dirs == b.dirs
    ensures Settles(a, b) ==> forall k :: Found(b, k) == Found(a, k)
    ensures Settles(a, b) ==> forall unbacked :: Backed(a, unbacked) ==> Backed(b, unbacked)
  {
    hide PathCoherent, PathKnown, Found;
  }

  lemma FlushSettles(v: View, v': View, path: string)
    requires forall k :: k != path ==>
              (PathCoherent(v, k) ==> PathCoherent(v', k)) && (PathKnown(v, k) ==> PathKnown(v', k))
    requires forall k :: k != path ==> PendingOf(v', k) == PendingOf(v, k) && Found(v', k) == Found(v, k)
    requires (PathCoherent(v, path) ==> PathCoherent(v', path)) && (PathKnown(v, path) ==> PathKnown(v', path))
    requires Found(v', path) == Found(v, path) && (PendingOf(v', path) != map[] ==> PendingOf(v, path) != map[])
    requires v'.files.Keys == v.files.Keys && v'.dirs == v.dirs
    ensures Settles(v, v')
  {
    hide PathCoherent, PathKnown, Found;
  }

  /** Views with the same files and caches, and the same pending for every path. */
  lemma SettlesSame(v: View, v': View)
    requires v' == v.(pending := v'.pending) && forall k :: PendingOf(v', k) == PendingOf(v, k)
    ensures Settles(v, v')
  {
    hide Reports, Denies, Sound, BlocksAgree, NoBlocks, Over;
  }

  /** What became of a rename or removal: it came through, was refused, failed, or was carried out without a reply. */
  datatype Course = Through | Refused | Faulty | Unanswered

  lemma BothFlushed(v: View, a: View, b: View, from: string, to: string)
    requires OnlyChanges(v.files, a.files, from) && OnlyChanges(a.files, b.files, to)
    requires a.pending == v.pending[from := map[]] && b.pending == a.pending[to := map[]] && b.dirs == a.dirs == v.dirs
    ensures FlushedBoth(v, b, from, to)
  {
  }

  /** Everything a rename that came through guarantees. */
  ghost predicate RenameDone(v: View, v': View, from: string, to: string) {
    && v'.files.Keys == KeysMoved(v.files.Keys, from, to) && v'.dirs == KeysMoved(v.dirs, from, to)
    && Renewed(v, v', from, to)
    && (if from == to then forall k :: Found(v', k) == Found(v, k) else Apart(from, to) && Carried(v, v', from, to))
    && forall unbacked :: Backed(v, unbacked) ==>
         && Backed(v', MovedUnbacked(unbacked, from, to))
         && (from != to ==> forall k :: k in InTheWay(v.pending, from, to) ==> k in unbacked)
  }

  lemma RenameThrough(v: View, b: View, v': View, from: string, to: string, attr: Option<Meta.FileAttr>)
    requires Settles(v, b) && FlushedBoth(v, b, from, to) && Movable(b.files.Keys, b.dirs, from, to)
    requires v'.files == Renamed(b.files, from, to) && v'.pending == Renamed(b.pending, from, to)
    requires v'.dirs == KeysMoved(b.dirs, from, to)
    requires Unremembered(v'.cache, v'.blocks, from, to) && Calm(b.cache, b.blocks, from, to, v'.cache, v'.blocks)
    requires !Denies(v'.cache, to)
    requires forall size :: Reports(v'.cache, to, size) ==> attr.Some? && size == attr.value.size
    requires attr.Some? ==> Tells(FactOf(v'.files, v'.dirs, to), attr.value.size)
    ensures RenameDone(v, v', from, to)
  {
    hide Renamed, Unremembered, Calm, Renewed, Reports, Denies, Backed, Kept, Carried, Found, MovedUnbacked, KeysMoved;
    SettlesTrans(v, b);
    KeptTrans(v, b);
    RenamedKeys(b.files, b.dirs, from, to);
    RenameRenews(b, v', from, to);
    forall unbacked | Backed(v, unbacked)
      ensures Backed(v', MovedUnbacked(unbacked, from, to))
      ensures from != to ==> forall k :: k in InTheWay(v.pending, from, to) ==> k in unbacked
    {
      RenameBacked(b, v', from, to, unbacked);
      if from != to {
        SameInTheWay(v.pending, b.pending, from, to);
      }
    }
    if from == to {
      SameView(b, v', from);
    } else {
      RenameCarries(b, v', from, to);
      SameInTheWay(v.pending, b.pending, from, to);
      CarriedSame(v, b, v', from, to);
    }
  }

  lemma SameInTheWay(pending: map<string, Pending>, left: map<string, Pending>, from: string, to: string)
    requires Apart(from, to) && left == pending[from := map[]][to := map[]]
    ensures InTheWay(left, from, to) == InTheWay(pending, from, to)
  {
    forall k | PathPrefix(k, to) ensures k != from && Rebase(k, to, from) != from && Rebase(k, to, from) != to {
      RebaseBack(k, to, from);
      if Rebase(k, to, from) == to {
        Comparable(from, to, to);
      }
    }
  }

  lemma CarriedSame(v: View, b: View, v': View, from: string, to: string)
    requires Carried(b, v', from, to) && InTheWay(b.pending, from, to) == InTheWay(v.pending, from, to)
    requires forall k :: Found(b, k) == Found(v, k)
    ensures Carried(v, v', from, to)
  {
    hide Found, Over;
    var way := InTheWay(v.pending, from, to);
    assert forall k :: k in way ==> way[k] == v.pending[k] == b.pending[k];
  }

  lemma SameView(b: View, v': View, path: string)
    requires Renamable(path, path) && v'.files == Renamed(b.files, path, path)
    requires v'.pending == Renamed(b.pending, path, path)
    ensures forall k :: Found(v', k) == Found(b, k)
  {
    MovedBounds(b.files, path, path);
    MovedBounds(b.pending, path, path);
  }

  /** Two files agree on every stored block of a path. */
  ghost predicate SameBlocks(entries: Blocks.Entries, path: string, file: seq<Byte>, other: seq<Byte>) {
    forall key :: key in entries && key.path == path ==> BlockOf(file, key.offset) == BlockOf(other, key.offset)
  }

  /** What is cached about a path is still right when the source comes to be there: it does not deny or misreport it. */
  ghost predicate StillKnown(b: View, k: string, source: string) {
    match StandsAt(b, source)
    case Absent => true
    case _ =>
      match StandsAt(b, k)
      case Absent => !Denies(b.cache, k)
      case Directory => true
      case Regular =>
        |Content(b.files, k)| == |Content(b.files, source)| || forall size: nat :: !Reports(b.cache, k, size)
  }

  /** What a rename without a reply makes of what is cached at or below the old path, where nothing is left. */
  ghost predicate LeftCached(b: View, v': View, k: string) {
    && (PathCoherent(b, k) ==>
          (PathCoherent(v', k) <==> PendingOf(b, k) != map[] || !Spoils(b.blocks, k, |Content(b.files, k)|, 0)))
    && (Proper(k) && Sound(PendingOf(b, k)) ==>
          (PathKnown(v', k) <==> forall size: nat :: !Reports(b.cache, k, size)))
  }

  /** The same at or below the new one, where the source has come. */
  ghost predicate ComeCached(b: View, v': View, k: string, source: string) {
    && (PathCoherent(b, k) ==>
          (PathCoherent(v', k) <==>
           PendingOf(b, k) != map[] || SameBlocks(b.blocks, k, Content(b.files, k), Content(b.files, source))))
    && (Proper(k) && Sound(PendingOf(b, k)) && PathKnown(b, k) ==> (PathKnown(v', k) <==> StillKnown(b, k, source)))
  }

  ghost predicate LostCaches(b: View, v': View, from: string, to: string) {
    && (forall k :: Covers(from, k) ==> LeftCached(b, v', k))
    && (forall k :: Covers(to, k) ==> ComeCached(b, v', k, Rebase(k, to, from)))
  }

  /** A rename without a reply: exactly which cached facts about the two subtrees are still right. */
  lemma RenameLostCaches(b: View, v': View, from: string, to: string)
    requires Apart(from, to) && Movable(b.files.Keys, b.dirs, from, to) && PendingOf(b, to) == map[]
    requires v' == b.(files := Renamed(b.files, from, to), dirs := KeysMoved(b.dirs, from, to))
    ensures LostCaches(b, v', from, to)
  {
    hide Apart, Movable, PendingOf, Renamed, KeysMoved, LeftCached, ComeCached;
    forall k | Covers(from, k) ensures LeftCached(b, v', k) {
      NothingLeft(b, v', from, to, k);
      LeftCachedAt(b, v', k);
    }
    forall k | Covers(to, k) ensures ComeCached(b, v', k, Rebase(k, to, from)) {
      SourceComes(b, v', from, to, k);
      ComeCachedAt(b, v', k, Rebase(k, to, from));
    }
  }

  lemma NothingLeft(b: View, v': View, from: string, to: string, k: string)
    requires Apart(from, to) && Movable(b.files.Keys, b.dirs, from, to) && Covers(from, k)
    requires v' == b.(files := Renamed(b.files, from, to), dirs := KeysMoved(b.dirs, from, to))
    ensures v' == b.(files := v'.files, dirs := v'.dirs) && Content(v'.files, k) == [] && StandsAt(v', k) == Absent
  {
    hide Renamed, KeysMoved;
    RenamedShape(b.files, from, to, k);
    KeysMovedShape(b.dirs, from, to, k);
  }

  lemma LeftCachedAt(b: View, v': View, k: string)
    requires v' == b.(files := v'.files, dirs := v'.dirs) && Content(v'.files, k) == [] && StandsAt(v', k) == Absent
    ensures LeftCached(b, v', k)
  {
    hide Reports, Denies, Logical, Sound, BlocksAgree, Spoils, Over, StandsAt;
    CutSpoils(b.blocks, k, Content(b.files, k), 0);
    assert Truncate(Content(b.files, k), 0) == [];
  }

  lemma SourceComes(b: View, v': View, from: string, to: string, k: string)
    requires Apart(from, to) && Movable(b.files.Keys, b.dirs, from, to) && Covers(to, k) && PendingOf(b, to) == map[]
    requires v' == b.(files := Renamed(b.files, from, to), dirs := KeysMoved(b.dirs, from, to))
    ensures var source := Rebase(k, to, from);
            && v' == b.(files := v'.files, dirs := v'.dirs)
            && Content(v'.files, k) == Content(b.files, source) && StandsAt(v', k) == StandsAt(b, source)
            && StandsAt(b, k) in {Absent, StandsAt(b, source)}
            && (StandsAt(b, k) == Regular ==> PendingOf(b, k) == map[])
  {
    hide Renamed, KeysMoved;
    RebaseBack(k, to, from);
    RenamedShape(b.files, from, to, k);
    KeysMovedShape(b.dirs, from, to, k);
    if k == to {
      assert Rebase(to, to, from) == from;
    }
  }

  lemma ComeCachedAt(b: View, v': View, k: string, source: string)
    requires v' == b.(files := v'.files, dirs := v'.dirs)
    requires Content(v'.files, k) == Content(b.files, source) && StandsAt(v', k) == StandsAt(b, source)
    requires StandsAt(b, k) in {Absent, StandsAt(b, source)}
    requires StandsAt(b, k) == Regular ==> PendingOf(b, k) == map[]
    ensures ComeCached(b, v', k, source)
  {
    hide Reports, Denies, Logical, Sound, StandsAt, Over;
    OverNothing(Content(b.files, k));
    OverNothing(Content(b.files, source));
    NothingPending([]);
    if Sound(PendingOf(b, k)) {
      LogicalLength(Content(b.files, source), PendingOf(b, k));
    }
  }

  /** Everything a rename guarantees that was carried out without a reply; b is what both flushes left. */
  ghost predicate RenameLost(v: View, b: View, v': View, from: string, to: string) {
    && Settles(v, b) && FlushedBoth(v, b, from, to) && LostCaches(b, v', from, to)
    && v'.cache == b.cache && v'.blocks == b.blocks
    && Apart(from, to) && Stranded(v, v', from, to)
    && v'.files.Keys == KeysMoved(v.files.Keys, from, to) && v'.dirs == KeysMoved(v.dirs, from, to)
    && (forall k :: !Inside(from, to, k) ==>
        (PathCoherent(v, k) ==> PathCoherent(v', k)) && (PathKnown(v, k) ==> PathKnown(v', k)))
    && (forall k :: PendingOf(v', k) == Left(v, from, to, k))
  }

  lemma RenameUnanswered(v: View, b: View, v': View, from: string, to: string)
    requires Settles(v, b) && FlushedBoth(v, b, from, to) && Movable(b.files.Keys, b.dirs, from, to) && from != to
    requires v' == b.(files := Renamed(b.files, from, to), dirs := KeysMoved(b.dirs, from, to))
    ensures RenameLost(v, b, v', from, to)
  {
    hide Renamed, Stranded, Found, PathCoherent, PathKnown, KeysMoved, LostCaches;
    SettlesTrans(v, b);
    RenamedKeys(b.files, b.dirs, from, to);
    RenameStrands(v, b, v', from, to);
    RenameLostCaches(b, v', from, to);
    forall k | !Inside(from, to, k)
      ensures (PathCoherent(v, k) ==> PathCoherent(v', k)) && (PathKnown(v, k) ==> PathKnown(v', k))
    {
      StrandedKeeps(b, v', from, to, k);
    }
  }

  /** Everything a creation that came through guarantees. */
  ghost predicate MakeDone(v: View, v': View, path: string, directory: bool) {
    Grown(v, v', path, directory) && Cleared(v, v', path)
  }

  /** Everything a creation guarantees that was carried out without a reply. */
  ghost predicate MakeUnanswered(v: View, v': View, path: string, directory: bool) {
    && Grown(v, v', path, directory)
    && (forall k :: PathCoherent(v, k) ==> PathCoherent(v', k))
    && (forall k :: k != path && PathKnown(v, k) ==> PathKnown(v', k))
  }

  lemma MakeSettles(a: View, b: View, path: string, directory: bool)
    ensures Settles(a, b) ==>
              forall c :: MakeDone(b, c, path, directory) ==> MakeDone(a, c, path, directory)
    ensures Settles(a, b) ==>
              forall c :: MakeUnanswered(b, c, path, directory) ==> MakeUnanswered(a, c, path, directory)
    ensures MakeDone(a, b, path, directory) ==>
              forall c :: Settles(b, c) ==> MakeDone(a, c, path, directory)
  {
    hide PathCoherent, PathKnown, Found, Covers, FilesWith, DirsWith, PendingOf;
  }

  /** Everything a removal that came through guarantees. */
  ghost predicate RemoveDone(v: View, v': View, path: string) {
    && v'.files.Keys == v.files.Keys - {path} && v'.dirs == v.dirs - {path}
    && Emptied(v, v', path) && Cleared(v, v', path)
    && forall k :: PendingOf(v', k) == if Covers(path, k) then map[] else PendingOf(v, k)
  }

  lemma RemoveThrough(v: View, b: View, v': View, path: string)
    requires Settles(v, b) && b.pending == v.pending[path := map[]]
    requires Emptied(b, v', path) && Cleared(b, v', path)
    requires v'.files.Keys == b.files.Keys - {path} && v'.dirs == b.dirs - {path}
    requires forall k :: PendingOf(v', k) == if Covers(path, k) then map[] else PendingOf(b, k)
    ensures RemoveDone(v, v', path)
  {
    hide Emptied, Cleared, Found, Kept;
    SettlesTrans(v, b);
    KeptTrans(v, b);
    EmptiedSame(v, b, v', path);
  }

  lemma EmptiedSame(v: View, b: View, v': View, path: string)
    requires Emptied(b, v', path) && forall k :: Found(b, k) == Found(v, k)
    ensures Emptied(v, v', path)
  {
    hide Found;
  }

  /** Everything a removal guarantees that was carried out without a reply. */
  ghost predicate RemoveUnanswered(v: View, v': View, path: string) {
    && v'.files.Keys == v.files.Keys - {path} && v'.dirs == v.dirs - {path} && LeftBehind(v, v', path)
    && forall k :: PendingOf(v', k) == if k == path then map[] else PendingOf(v, k)
  }

  lemma RemoveLeaves(v: View, b: View, v': View, path: string)
    requires Settles(v, b) && b.pending == v.pending[path := map[]] && Proper(path) && path != ""
    requires v' == b.(files := b.files - {path}, dirs := b.dirs - {path})
    ensures RemoveUnanswered(v, v', path)
  {
    hide Found, PathCoherent, PathKnown, LeftBehind, Settles, Kept, Proper;
    SettlesTrans(v, b);
    RemoveLost(b, v', path);
    LeftBehindSame(v, b, v', path);
  }

  lemma LeftBehindSame(v: View, b: View, v': View, path: string)
    requires LeftBehind(b, v', path) && Kept(v, b) && forall k :: Found(b, k) == Found(v, k)
    ensures LeftBehind(v, v', path)
  {
    hide Found, PathCoherent, PathKnown;
  }
}
