/**
 * Whole histories of a mount: operations on any of its files, renames, removals, listings, explained by flat files
 * under their paths.
 */
module MountHistory {
  import opened Files
  import opened Overlay
  import opened Paths
  import opened Renaming
  import opened Provider
  import opened RemoteNode
  import opened MountView
  import opened NodeTable
  import H = History
  import Meta = MetadataCache
  import Blocks = BlockCache
  import WriteBuffer
  import opened Recency

  /** What programs ask of a mount; Drop is the kernel forgetting a node. */
  datatype Call =
    | On(path: string, op: H.Op)
    | Move(from: string, to: string)
    | Delete(path: string)
    | Make(path: string, directory: bool, mode: nat)
    | Drop(path: string)
    | List(dir: string)

  /** Paths are clean, and listings of a mount are calls of their own. */
  predicate Allowed(call: Call) {
    match call
    case On(path, op) => Proper(path) && !op.ReadDir?
    case Move(from, to) => Proper(from) && Proper(to)
    case Delete(path) => Proper(path)
    case Make(path, _, _) => Proper(path)
    case _ => true
  }

  /**
   * What became of a call. `over` are unsent writes that a rename finds in its way. Without a reply a rename leaves
   * unsent writes behind, `left` at either path, and files below the old path are `sent` only so far. A node that is
   * forgotten takes its unsent writes along, and of its file only what was sent remains. Nothing happens when a call is
   * refused or, by a fault, fails.
   */
  datatype Event =
    | Local(path: string, event: H.Event)
    | Moved(from: string, to: string, over: map<string, Pending>)
    | Lost(from: string, to: string, left: map<string, Pending>, sent: map<string, seq<Byte>>)
    | Deleted(path: string, replied: bool)
    | Made(path: string, directory: bool, replied: bool)
    | Forgot(path: string, unsent: Pending, remains: seq<Byte>)
    | Listed(dir: string)
    | Nothing(fault: bool)

  /** All files of a mount; a path without a file has the empty one. */
  type Flat = string -> seq<Byte>

  /**
   * What histories are explained by: flat files, the names of those that exist, the directories, the paths whose cached
   * blocks and cached attributes may be wrong, and the paths where writes may be pending although the provider has no
   * file.
   */
  datatype World = World(
    flat: Flat,
    keys: set<string>,
    dirs: set<string>,
    blocks: iset<string>,
    sizes: iset<string>,
    unbacked: iset<string>)

  function TrustIn(w: World, k: string): H.Trust {
    H.Trust(k !in w.blocks, k !in w.sizes)
  }

  function StandingIn(w: World, k: string): Standing {
    StandingOf(w.keys, w.dirs, k)
  }

  function Mark(paths: iset<string>, k: string, trusted: bool): iset<string> {
    if trusted then paths - iset{k} else paths + iset{k}
  }

  ghost function Outside(paths: iset<string>, from: string, to: string): iset<string> {
    iset k | k in paths && !Inside(from, to, k)
  }

  function At<V>(parts: map<string, V>, k: string, otherwise: V): V {
    if k in parts then parts[k] else otherwise
  }

  ghost function FlatAfter(flat: Flat, e: Event): Flat {
    match e
    case Local(path, event) => (k: string) => if k == path then H.After(flat(k), event) else flat(k)
    case Moved(from, to, over) =>
      if from == to then flat
      else
        (k: string) =>
          if Covers(from, k) then []
          else if Covers(to, k) then
            if k in over then Over(flat(Rebase(k, to, from)), over[k]) else flat(Rebase(k, to, from))
          else flat(k)
    case Lost(from, to, left, sent) =>
      (k: string) =>
        if Covers(from, k) then Over([], At(left, k, map[]))
        else if Covers(to, k) then Over(At(sent, Rebase(k, to, from), flat(Rebase(k, to, from))), At(left, k, map[]))
        else flat(k)
    case Deleted(path, replied) => (k: string) => if k == path || (replied && Covers(path, k)) then [] else flat(k)
    case Forgot(path, _, remains) => (k: string) => if k == path then remains else flat(k)
    case _ => flat
  }

  /** The world after one event. */
  ghost function After(w: World, e: Event): World {
    var flat := FlatAfter(w.flat, e);
    match e
    case Local(path, event) =>
      var t := H.TrustAfter(w.flat(path), TrustIn(w, path), event);
      World(flat, w.keys, w.dirs, Mark(w.blocks, path, t.blocks), Mark(w.sizes, path, t.size),
            if event.op.Write? && path !in w.keys then w.unbacked + iset{path} else w.unbacked)
    case Moved(from, to, _) =>
      World(flat, KeysMoved(w.keys, from, to), KeysMoved(w.dirs, from, to), Outside(w.blocks, from, to),
            Outside(w.sizes, from, to), MovedUnbacked(w.unbacked, from, to))
    case Lost(from, to, left, _) =>
      var inside := iset k | Inside(from, to, k);
      World(flat, KeysMoved(w.keys, from, to), KeysMoved(w.dirs, from, to), w.blocks + inside, w.sizes + inside,
            w.unbacked + (iset k | k in left))
    case Deleted(path, replied) =>
      if replied then
        World(flat, w.keys - {path}, w.dirs - {path}, Outside(w.blocks, path, path), Outside(w.sizes, path, path),
              Outside(w.unbacked, path, path))
      else
        World(flat, w.keys - {path}, w.dirs - {path}, Mark(w.blocks, path, w.flat(path) == [] && path !in w.blocks),
              w.sizes + iset{path}, w.unbacked)
    case Made(path, directory, replied) =>
      var keys, dirs := FilesWith(w.keys, path, directory), DirsWith(w.dirs, path, directory);
      var unbacked := if directory then w.unbacked else w.unbacked - iset{path};
      if replied then World(flat, keys, dirs, Outside(w.blocks, path, path), Outside(w.sizes, path, path), unbacked)
      else World(flat, keys, dirs, w.blocks, w.sizes + iset{path}, unbacked)
    case Forgot(path, unsent, _) =>
      World(flat, w.keys, w.dirs, w.blocks, if unsent == map[] then w.sizes else w.sizes + iset{path},
            w.unbacked - iset{path})
    case Listed(_) => w
    case Nothing(_) => w
  }

  /** A rename that came through: only writes without a file behind them can be in its way. */
  ghost predicate WasMoved(w: World, from: string, to: string, e: Event) {
    && e.Moved? && e.from == from && e.to == to && Movable(w.keys, w.dirs, from, to)
    && forall k :: k in e.over ==> PathPrefix(k, to) && k in w.unbacked && Sound(e.over[k]) && e.over[k] != map[]
  }

  /**
   * A rename that failed: a call did, or the provider refuses it, or writes without a file could not be flushed; or the
   * reply is lost, and then every file with unsent writes below the old path is split into what was sent and what not.
   */
  ghost predicate NotMoved(w: World, from: string, to: string, e: Event) {
    match e
    case Lost(_, _, left, sent) =>
      && e.from == from && e.to == to && from != to && Movable(w.keys, w.dirs, from, to)
      && (forall k :: k in left ==> (PathPrefix(k, from) || PathPrefix(k, to)) && Sound(left[k]) && left[k] != map[])
      && (forall k :: k in sent ==> PathPrefix(k, from) && k in left && w.flat(k) == Over(sent[k], left[k]))
      && (forall k :: k in left && PathPrefix(k, from) ==> k in sent)
      && (forall k :: k in left && PathPrefix(k, to) ==> k in w.unbacked)
    case Nothing(fault) => fault || !Movable(w.keys, w.dirs, from, to) || from in w.unbacked || to in w.unbacked
    case _ => false
  }

  ghost predicate WasDeleted(w: World, path: string, replied: bool, e: Event) {
    e == Deleted(path, replied) && Removable(w.keys, w.dirs, path)
  }

  /** A removal that failed: its reply is lost; or a call failed, the provider refuses it, or a flush could not go. */
  ghost predicate NotDeleted(w: World, path: string, e: Event) {
    || WasDeleted(w, path, false, e)
    || (e.Nothing? && (e.fault || !Removable(w.keys, w.dirs, path) || path in w.unbacked))
  }

  ghost predicate WasMade(w: World, path: string, directory: bool, replied: bool, e: Event) {
    e == Made(path, directory, replied) && Creatable(w.keys, w.dirs, path)
  }

  /** A creation that failed: its reply is lost; or a call failed, or the provider refuses it. */
  ghost predicate NotMade(w: World, path: string, directory: bool, e: Event) {
    || WasMade(w, path, directory, false, e)
    || (e.Nothing? && (e.fault || !Creatable(w.keys, w.dirs, path)))
  }

  /**
   * A listing is right about the paths that are not in doubt: it names what exists, and no file as longer than it is;
   * only unsent writes can make a file longer than listed.
   */
  ghost predicate Told(w: World, dir: string, entries: seq<Meta.DirEntry>) {
    forall k :: Proper(k) && k != "" && Parent(k) == dir && k !in w.sizes ==>
      var name, attrs := ParentAndName(k).1, Meta.IndexAttrs(entries);
      && (name in attrs <==> StandingIn(w, k) != Absent)
      && (name in attrs && k in w.keys ==> attrs[name].size <= |w.flat(k)|)
  }

  /** What a program is told is what the flat files tell it, and what happened is what they allow. */
  ghost predicate Right(w: World, call: Call, reply: H.Reply, e: Event) {
    match call
    case On(path, op) =>
      && e.Local? && e.path == path && e.event.op == op && e.event.reply == reply
      && H.Right(w.flat(path), StandingIn(w, path), TrustIn(w, path), e.event)
    case Move(from, to) => if reply.Done? then WasMoved(w, from, to, e) else reply.Failed? && NotMoved(w, from, to, e)
    case Delete(path) => if reply.Done? then WasDeleted(w, path, true, e) else reply.Failed? && NotDeleted(w, path, e)
    case Make(path, directory, _) =>
      if reply.Done? then WasMade(w, path, directory, true, e)
      else reply.Failed? && NotMade(w, path, directory, e)
    case Drop(path) =>
      reply.Done? && e.Forgot? && e.path == path && Sound(e.unsent) && w.flat(path) == Over(e.remains, e.unsent)
    case List(dir) =>
      if reply.Entries? then
        e == Listed(dir) && Told(w, dir, reply.entries) && (IsDir(w.dirs, dir) || reply.entries != [])
      else reply.Failed? && e.Nothing? && (e.fault || !IsDir(w.dirs, dir))
  }

  /** A failure that only a failing call explains. */
  ghost predicate Costly(w: World, e: Event) {
    match e
    case Local(path, event) => H.Costly(TrustIn(w, path), StandingIn(w, path), event)
    case Lost(_, _, _, _) => true
    case Deleted(_, replied) => !replied
    case Made(_, _, replied) => !replied
    case Nothing(fault) => fault
    case _ => false
  }

  ghost function Final(w: World, events: seq<Event>): World {
    if events == [] then w else After(Final(w, events[..|events| - 1]), events[|events| - 1])
  }

  /** The number of such failures in a history. */
  ghost function Bill(w: World, events: seq<Event>): nat {
    if events == [] then 0
    else
      var front := events[..|events| - 1];
      Bill(w, front) + if Costly(Final(w, front), events[|events| - 1]) then 1 else 0
  }

  /** Every call of a history was answered as the world stood. */
  ghost predicate Explains(w: World, calls: seq<(Call, int)>, replies: seq<H.Reply>, events: seq<Event>)
    requires |replies| == |events| <= |calls|
  {
    forall i :: 0 <= i < |events| ==> Right(Final(w, events[..i]), calls[i].0, replies[i], events[i])
  }

  lemma ExplainsNext(w: World, calls: seq<(Call, int)>, replies: seq<H.Reply>, events: seq<Event>, reply: H.Reply,
                     e: Event)
    requires |replies| == |events| < |calls| && Explains(w, calls, replies, events)
    requires Right(Final(w, events), calls[|events|].0, reply, e)
    ensures Explains(w, calls, replies + [reply], events + [e])
    ensures Final(w, events + [e]) == After(Final(w, events), e)
    ensures Bill(w, events + [e]) == Bill(w, events) + if Costly(Final(w, events), e) then 1 else 0
  {
    hide Right, After, Costly;
    var all, told := events + [e], replies + [reply];
    assert all[..|events|] == events;
    forall i | 0 <= i < |all| ensures Right(Final(w, all[..i]), calls[i].0, told[i], all[i]) {
      assert i < |events| ==> all[..i] == events[..i];
    }
  }

  /** Clean relative paths, below the root. */
  predicate Relative(paths: set<string>) {
    forall k :: k in paths ==> Proper(k) && k != ""
  }

  /**
   * The mount shows the flat files and the names and directories that exist, its caches can be relied on outside the
   * doubt, and writes are pending only for files that exist or where that is in doubt.
   */
  ghost predicate Shows(v: View, w: World) {
    && v.files.Keys == w.keys && v.dirs == w.dirs && Relative(w.keys) && Relative(w.dirs)
    && (forall k :: Found(v, k) == w.flat(k))
    && (forall k :: k !in w.blocks ==> PathCoherent(v, k))
    && (forall k :: k !in w.sizes ==> PathKnown(v, k))
    && Backed(v, w.unbacked)
  }

  lemma ShowsSettled(v: View, v': View, w: World)
    requires Settles(v, v')
    ensures Shows(v, w) ==> Shows(v', w)
  {
    hide PathCoherent, PathKnown, Found;
    SettlesTrans(v, v');
  }

  /** A rename that came through, on the flat files. */
  lemma ShowsMoved(v: View, v': View, w: World, from: string, to: string, e: Event)
    requires Shows(v, w) && Movable(w.keys, w.dirs, from, to) && Proper(to) && RenameDone(v, v', from, to)
    requires e == Moved(from, to, if from == to then map[] else InTheWay(v.pending, from, to))
    ensures Shows(v', After(w, e))
  {
    hide PathCoherent, PathKnown, Found, Over, Backed, MovedUnbacked, KeysMoved, Inside, InTheWay;
    var w' := After(w, e);
    assert Backed(v', MovedUnbacked(w.unbacked, from, to));
    KeysMovedProper(w.keys, from, to);
    KeysMovedProper(w.dirs, from, to);
    forall k ensures Found(v', k) == w'.flat(k) {
      if from != to {
        InTheWayPending(v.pending, from, to, k);
        if Covers(to, k) {
          if Covers(from, k) {
            Comparable(from, to, k);
          }
        }
      }
    }
    InsideBoth(from, to);
  }

  lemma InsideBoth(from: string, to: string)
    ensures Inside(from, to, to) && Inside(from, to, from)
  {
  }

  lemma InTheWayPending(pending: map<string, Pending>, from: string, to: string, k: string)
    ensures k in InTheWay(pending, from, to) ==> k in pending && InTheWay(pending, from, to)[k] == pending[k]
  {
  }

  /** One operation on one file, on the flat files. */
  lemma ShowsLocal(v: View, v': View, w: World, path: string, event: H.Event)
    requires Shows(v, w) && v'.files.Keys == v.files.Keys && v'.dirs == v.dirs
    requires forall k :: k != path ==> Found(v', k) == Found(v, k)
    requires forall k :: k != path ==>
              (PathCoherent(v, k) ==> PathCoherent(v', k)) && (PathKnown(v, k) ==> PathKnown(v', k))
    requires forall k :: k != path ==> PendingOf(v', k) == PendingOf(v, k)
    requires !event.op.Write? && PendingOf(v, path) == map[] ==> PendingOf(v', path) == map[]
    requires Found(v', path) == H.After(w.flat(path), event)
    requires var t := H.TrustAfter(w.flat(path), TrustIn(w, path), event);
             (t.blocks ==> PathCoherent(v', path)) && (t.size ==> PathKnown(v', path))
    ensures Shows(v', After(w, Local(path, event)))
  {
    hide PathCoherent, PathKnown, Found, H.After, H.TrustAfter, Proper;
  }

  /** The unsent writes strictly below either path of a rename. */
  function LeftBelow(v: View, from: string, to: string): map<string, Pending> {
    map k | k in v.pending && (PathPrefix(k, from) || PathPrefix(k, to)) && v.pending[k] != map[] :: v.pending[k]
  }

  /** What of those files below the old path the provider has. */
  function SentBelow(v: View, from: string, to: string): map<string, seq<Byte>> {
    map k | k in LeftBelow(v, from, to) && PathPrefix(k, from) :: Content(v.files, k)
  }

  /** A rename without a reply, on the flat files. */
  lemma ShowsLost(v: View, b: View, v': View, w: World, from: string, to: string)
    requires Shows(v, w) && Movable(w.keys, w.dirs, from, to) && Proper(to) && RenameLost(v, b, v', from, to)
    ensures Shows(v', After(w, Lost(from, to, LeftBelow(v, from, to), SentBelow(v, from, to))))
  {
    hide PathCoherent, PathKnown, Over, Found, KeysMoved, Proper, LeftBelow, SentBelow, Left, SentPart, Backed, Movable,
         LostCaches, Settles, FlushedBoth;
    var e := Lost(from, to, LeftBelow(v, from, to), SentBelow(v, from, to));
    RenamableParts(w, from, to);
    KeysMovedProper(w.keys, from, to);
    KeysMovedProper(w.dirs, from, to);
    forall k ensures Found(v', k) == After(w, e).flat(k) {
      StrandedAt(v, w.flat, from, to, k);
    }
    LeftBacked(v, b, v', w.unbacked, from, to);
  }

  lemma RenamableParts(w: World, from: string, to: string)
    requires Movable(w.keys, w.dirs, from, to)
    ensures Renamable(from, to)
  {
  }

  lemma LeftBacked(v: View, b: View, v': View, unbacked: iset<string>, from: string, to: string)
    requires Backed(v, unbacked) && Movable(v.files.Keys, v.dirs, from, to) && RenameLost(v, b, v', from, to)
    ensures Backed(v', unbacked + iset k | k in LeftBelow(v, from, to))
  {
    hide Stranded, PathCoherent, PathKnown, Renewed, LostCaches, Settles, FlushedBoth;
    forall k | PendingOf(v', k) != map[] ensures k in v'.files || k in unbacked || k in LeftBelow(v, from, to) {
      assert PendingOf(v, k) != map[];
    }
  }

  lemma LostRight(v: View, w: World, from: string, to: string)
    requires Shows(v, w) && Movable(w.keys, w.dirs, from, to) && from != to
    requires forall k :: k in v.pending ==> Sound(v.pending[k])
    ensures NotMoved(w, from, to, Lost(from, to, LeftBelow(v, from, to), SentBelow(v, from, to)))
  {
    hide PathCoherent, PathKnown, Over, Sound, Proper;
    forall k | k in v.pending && v.pending[k] != map[]
      ensures PendingOf(v, k) == v.pending[k] != map[] && w.flat(k) == Over(Content(v.files, k), v.pending[k])
    {
      assert Found(v, k) == w.flat(k);
    }
  }

  lemma StrandedAt(v: View, flat: Flat, from: string, to: string, k: string)
    requires Apart(from, to) && forall j :: Found(v, j) == flat(j)
    ensures Covers(from, k) ==> At(LeftBelow(v, from, to), k, map[]) == Left(v, from, to, k)
    ensures Covers(to, k) ==> At(LeftBelow(v, from, to), k, map[]) == Left(v, from, to, k)
    ensures Covers(to, k) ==>
              var source := Rebase(k, to, from);
              At(SentBelow(v, from, to), source, flat(source)) == SentPart(v, from, source)
  {
    hide Over;
    if Covers(to, k) {
      var source := Rebase(k, to, from);
      RebaseBack(k, to, from);
      assert Found(v, source) == flat(source);
      OverNothing(Content(v.files, source));
    }
  }

  /**
   * The files found after a rename without a reply are the moved ones exactly if nothing was unsent below the old path,
   * and every byte that is unsent below the new one, without a file behind it, is already in the file that moved there.
   */
  lemma LostIsMoved(w: World, from: string, to: string, e: Event)
    requires e.Lost? && NotMoved(w, from, to, e) && Apart(from, to)
    ensures SameFlat(FlatAfter(w.flat, e), FlatAfter(w.flat, Moved(from, to, map[]))) <==>
              && (forall k :: k in e.left ==> PathPrefix(k, to))
              && (forall k :: k in e.left ==> Redundant(w.flat(Rebase(k, to, from)), e.left[k]))
  {
    hide Over, Sound, FlatAfter, Redundant;
    var lost, moved := FlatAfter(w.flat, e), FlatAfter(w.flat, Moved(from, to, map[]));
    assert from != to && e == Lost(from, to, e.left, e.sent);
    forall k | k in e.left && !PathPrefix(k, to) ensures lost(k) != moved(k) {
      MovedAt(w.flat, from, to, k);
      LostAt(w.flat, from, to, e.left, e.sent, k);
      OverSomething([], e.left[k]);
    }
    if forall k :: k in e.left ==> PathPrefix(k, to) {
      forall k | k in e.left
        ensures lost(k) == moved(k) <==> Redundant(w.flat(Rebase(k, to, from)), e.left[k])
      {
        if Covers(from, k) {
          Comparable(from, to, k);
        }
        MovedAt(w.flat, from, to, k);
        LostAt(w.flat, from, to, e.left, e.sent, k);
        NotSent(w, from, to, e, k);
        OverRedundant(w.flat(Rebase(k, to, from)), e.left[k]);
      }
      forall k | k !in e.left ensures lost(k) == moved(k) {
        MovedAt(w.flat, from, to, k);
        LostAt(w.flat, from, to, e.left, e.sent, k);
        OverNothing([]);
        if Covers(to, k) {
          OverNothing(w.flat(Rebase(k, to, from)));
          NotSent(w, from, to, e, k);
        }
      }
    }
  }

  lemma OverRedundant(file: seq<Byte>, pending: Pending)
    requires Sound(pending)
    ensures Over(file, pending) == file <==> Redundant(file, pending)
  {
    OverlayRedundant(file, pending);
  }

  lemma MovedAt(flat: Flat, from: string, to: string, k: string)
    requires from != to
    ensures FlatAfter(flat, Moved(from, to, map[]))(k) ==
              if Covers(from, k) then [] else if Covers(to, k) then flat(Rebase(k, to, from)) else flat(k)
  {
  }

  lemma LostAt(flat: Flat, from: string, to: string, left: map<string, Pending>, sent: map<string, seq<Byte>>,
               k: string)
    ensures FlatAfter(flat, Lost(from, to, left, sent))(k) ==
              if Covers(from, k) then Over([], At(left, k, map[]))
              else if Covers(to, k) then
                Over(At(sent, Rebase(k, to, from), flat(Rebase(k, to, from))), At(left, k, map[]))
              else flat(k)
  {
  }

  ghost predicate SameFlat(a: Flat, b: Flat) {
    forall k :: a(k) == b(k)
  }

  lemma NotSent(w: World, from: string, to: string, e: Event, k: string)
    requires e.Lost? && NotMoved(w, from, to, e) && Apart(from, to) && Covers(to, k)
    requires forall j :: j in e.left ==> PathPrefix(j, to)
    ensures Rebase(k, to, from) !in e.sent
  {
    RebaseBack(k, to, from);
    if Rebase(k, to, from) in e.sent {
      Comparable(from, to, Rebase(k, to, from));
    }
  }

  /** Unsent writes make a file of some length. */
  lemma OverSomething(file: seq<Byte>, pending: Pending)
    requires Sound(pending) && pending != map[]
    ensures Over(file, pending) != []
  {
    var o :| o in pending;
    BlockEndDirty(pending, o);
  }

  /** A deletion, on the flat files. */
  lemma ShowsDeleted(v: View, v': View, w: World, path: string, replied: bool)
    requires Shows(v, w) && (if replied then RemoveDone(v, v', path) else RemoveUnanswered(v, v', path))
    requires !replied && w.flat(path) == [] && PathCoherent(v, path) ==> PathCoherent(v', path)
    ensures Shows(v', After(w, Deleted(path, replied)))
  {
    hide PathCoherent, PathKnown, Found, Proper;
  }

  /** A creation, on the flat files: none of them changes. */
  lemma ShowsMade(v: View, v': View, w: World, path: string, directory: bool, replied: bool)
    requires Shows(v, w) && Proper(path) && path != ""
    requires if replied then MakeDone(v, v', path, directory) else MakeUnanswered(v, v', path, directory)
    ensures Shows(v', After(w, Made(path, directory, replied)))
  {
    hide PathCoherent, PathKnown, Found, Proper;
  }

  /** Forgetting a node, on the flat files. */
  lemma ShowsForgot(v: View, v': View, w: World, path: string)
    requires Shows(v, w) && v' == v.(pending := v.pending - {path})
    ensures Shows(v', After(w, Forgot(path, PendingOf(v, path), Content(v.files, path))))
    ensures w.flat(path) == Over(Content(v.files, path), PendingOf(v, path))
  {
    hide PathCoherent, PathKnown, Over, Proper;
    assert Found(v, path) == w.flat(path);
    ForgetFalls(v, v', path);
  }

  /** A listing, on the flat files. */
  lemma ShowsListed(v: View, v': View, w: World)
    requires Shows(v, w) && v' == v.(cache := v'.cache)
    requires forall k :: PathKnown(v, k) ==> PathKnown(v', k)
    ensures Shows(v', w)
  {
    hide PathKnown, PathCoherent, Found, Proper, Backed;
    CacheAlone(v, v', w.unbacked);
  }

  /** What a listing shows is what the world allows it to. */
  lemma ListingTold(v: View, w: World, dir: string, entries: seq<Meta.DirEntry>)
    requires Shows(v, w) && Shown(v, dir, entries) && forall k :: Sound(PendingOf(v, k))
    ensures Told(w, dir, entries)
  {
    hide PathKnown, PathCoherent, Over, Proper, Backed, Sound, End, ParentAndName, Meta.IndexAttrs;
    forall k | Proper(k) && k != "" && Parent(k) == dir && k !in w.sizes ensures ShownIn(v, entries, k) {
      assert PathKnown(v, k);
    }
    assert forall k :: Found(v, k) == w.flat(k);
  }

  lemma CacheAlone(v: View, v': View, unbacked: iset<string>)
    requires v' == v.(cache := v'.cache)
    ensures forall k :: Found(v', k) == Found(v, k) && (PathCoherent(v, k) ==> PathCoherent(v', k))
    ensures Backed(v, unbacked) ==> Backed(v', unbacked)
  {
    hide Over, BlocksAgree, NoBlocks;
  }

  lemma ShowsAt(v: View, w: World, k: string)
    requires Shows(v, w)
    ensures Found(v, k) == w.flat(k) && v.files.Keys == w.keys && v.dirs == w.dirs
    ensures StandsAt(v, k) == StandingIn(w, k) && (k in v.files <==> k in w.keys)
    ensures (TrustIn(w, k).blocks ==> PathCoherent(v, k)) && (TrustIn(w, k).size ==> PathKnown(v, k))
    ensures PendingOf(v, k) != map[] && k !in v.files ==> k in w.unbacked
    ensures Backed(v, w.unbacked)
  {
  }

  lemma TrustedParts(n: Node, t: H.Trust)
    ensures H.Trusted(n, t) <==> (t.blocks ==> n.Coherent()) && (t.size ==> n.SizeKnown())
  {
  }

  lemma RightLocal(w: World, path: string, op: H.Op, event: H.Event)
    requires event.op == op
    ensures Right(w, On(path, op), event.reply, Local(path, event)) <==>
              H.Right(w.flat(path), StandingIn(w, path), TrustIn(w, path), event)
    ensures Costly(w, Local(path, event)) <==> H.Costly(TrustIn(w, path), StandingIn(w, path), event)
  {
  }

  /** An operation on one file, which may not exist: the node is looked up or created, whatever the provider has. */
  method Operate(m: Mount, path: string, op: H.Op, now: int, ghost w: World) returns (reply: H.Reply, ghost e: Event)
    requires m.Valid() && Proper(path) && !op.ReadDir? && Shows(m.Seen(), w)
    modifies m, m.all, m.fs.provider, m.fs.budget, m.fs.cache, m.fs.dataCache
    ensures m.Valid() && m.all >= old(m.all) && fresh(m.all - old(m.all))
    ensures Shows(m.Seen(), After(w, e)) && Right(w, On(path, op), reply, e)
    ensures Noted(m, old(PendingOf(m.Seen(), path)) == map[], e)
    ensures Faults(m.fs.provider.script) + (if Costly(w, e) then 1 else 0) <= Faults(old(m.fs.provider.script))
  {
    hide *;
    var n := m.Reach(path);
    ShowsSettled(old(m.Seen()), m.Seen(), w);
    ghost var event;
    reply, event := OnNode(m, n, op, now, w);
    e := Local(path, event);
  }

  /**
   * The event of an operation tells what the provider holds, and slips only where the code does: on a file that exists,
   * and a write only with all units of the budget taken, if it crosses a block border or had something pending before.
   */
  ghost predicate Noted(m: Mount, clean: bool, e: Event)
    reads m.fs.provider`files, m.fs.budget
  {
    e.Local? ==>
      && (e.event.slipped && e.event.op.Write? ==>
            && m.fs.budget.held == MAX_TOTAL_BLOCKS
            && !(clean && InOneBlock(e.event.op.offset, e.event.op.data)))
      && (e.event.slipped ==> e.path in m.fs.provider.files)
      && e.event.stored == Content(m.fs.provider.files, e.path)
      && e.event.durable == (if e.path in m.fs.provider.files then m.fs.provider.files[e.path].durable else [])
  }

  lemma NotedAnyway(m: Mount, e: Event)
    ensures forall clean :: Noted(m, clean, e) ==> Noted(m, false, e)
    ensures !e.Local? ==> forall clean :: Noted(m, clean, e)
  {
  }

  /** The same, with the node at hand. */
  method OnNode(m: Mount, n: Node, op: H.Op, now: int, ghost w: World) returns (reply: H.Reply, ghost event: H.Event)
    requires m.Valid() && n in m.all && n.path in m.nodes && m.nodes[n.path] == n && !op.ReadDir? && Shows(m.Seen(), w)
    modifies n`writeBlocks, n`writeMtime, m.fs.budget, m.fs.cache, m.fs.dataCache
    modifies m.fs.provider`files, m.fs.provider`script, m.fs.provider`writes
    ensures m.Valid() && Shows(m.Seen(), After(w, Local(n.path, event)))
    ensures Right(w, On(n.path, op), reply, Local(n.path, event))
    ensures Noted(m, old(n.writeBlocks) == map[], Local(n.path, event))
    ensures Faults(m.fs.provider.script) + (if Costly(w, Local(n.path, event)) then 1 else 0)
              <= Faults(old(m.fs.provider.script))
  {
    hide *;
    label Start:
    m.ValidParts();
    m.NodeValid(n);
    n.ValidParts();
    m.NodeRelies(n);
    m.SeenParts();
    ghost var v, t := m.Seen(), TrustIn(w, n.path);
    ShowsAt(v, w, n.path);
    TrustedParts(n, t);
    reply, event := H.Do(n, op, now, t);
    n.ValidParts();
    m.Operated@Start(n);
    m.OthersSame@Start(n);
    m.NodeRelies(n);
    m.SeenParts();
    H.ExplainedParts(w.flat(n.path), t, event, n);
    TrustedParts(n, H.TrustAfter(w.flat(n.path), t, event));
    SameKeys(v.files, m.fs.provider.files, n.path);
    SameStanding(v, m.Seen(), n.path);
    ShowsLocal(v, m.Seen(), w, n.path, event);
    RightLocal(w, n.path, op, event);
    NotedParts(m, old(n.writeBlocks) == map[], n, event);
  }

  lemma SameStanding(v: View, v': View, k: string)
    requires v'.files.Keys == v.files.Keys && v'.dirs == v.dirs
    ensures StandsAt(v', k) == StandsAt(v, k)
  {
  }

  lemma NotedParts(m: Mount, clean: bool, n: Node, event: H.Event)
    requires n.fs == m.fs && event.stored == Content(n.fs.provider.files, n.path) && event.durable == H.Durable(n)
    requires H.Slips(clean, n, event)
    ensures Noted(m, clean, Local(n.path, event))
  {
  }

  /** A rename. */
  method Relocate(m: Mount, from: string, to: string, now: int, ghost w: World) returns (ok: bool, ghost e: Event)
    requires m.Valid() && Proper(from) && Proper(to) && Shows(m.Seen(), w)
    modifies m, m.all, m.fs.provider, m.fs.budget, m.fs.cache, m.fs.dataCache
    ensures m.Valid() && m.all >= old(m.all) && fresh(m.all - old(m.all)) && !e.Local?
    ensures Shows(m.Seen(), After(w, e)) && Right(w, Move(from, to), if ok then H.Done else H.Failed, e)
    ensures Faults(m.fs.provider.script) + (if Costly(w, e) then 1 else 0) <= Faults(old(m.fs.provider.script))
  {
    hide *;
    ghost var v := m.Seen();
    m.SeenParts();
    m.PendingSound();
    ShowsAt(v, w, from);
    ShowsAt(v, w, to);
    ghost var course, flushed;
    ok, course, flushed := m.Rename(from, to, now);
    e := match course
         case Through => Moved(from, to, if from == to then map[] else InTheWay(v.pending, from, to))
         case Unanswered => Lost(from, to, LeftBelow(v, from, to), SentBelow(v, from, to))
         case Refused => Nothing(false)
         case Faulty => Nothing(true);
    RightRename(w, from, to, e);
    match course
    case Through =>
      ShowsMoved(v, m.Seen(), w, from, to, e);
      MovedRight(v, m.Seen(), w, from, to);
    case Unanswered =>
      ShowsLost(v, flushed, m.Seen(), w, from, to);
      LostRight(v, w, from, to);
    case _ =>
      ShowsSettled(v, m.Seen(), w);
  }

  lemma RightRename(w: World, from: string, to: string, e: Event)
    ensures Right(w, Move(from, to), H.Done, e) <==> WasMoved(w, from, to, e)
    ensures Right(w, Move(from, to), H.Failed, e) <==> NotMoved(w, from, to, e)
    ensures e == Nothing(false) ==>
              (NotMoved(w, from, to, e) <==>
               !Movable(w.keys, w.dirs, from, to) || from in w.unbacked || to in w.unbacked)
    ensures e == Nothing(true) ==> NotMoved(w, from, to, e)
    ensures e.Nothing? ==> After(w, e) == w && (Costly(w, e) <==> e.fault)
    ensures (e.Moved? ==> !Costly(w, e)) && (e.Lost? ==> Costly(w, e))
  {
  }

  lemma MovedRight(v: View, v': View, w: World, from: string, to: string)
    requires Shows(v, w) && Movable(w.keys, w.dirs, from, to) && RenameDone(v, v', from, to)
    requires forall k :: k in v.pending ==> Sound(v.pending[k])
    ensures WasMoved(w, from, to, Moved(from, to, if from == to then map[] else InTheWay(v.pending, from, to)))
  {
    hide PathCoherent, PathKnown, Found, Renewed, Carried, MovedUnbacked, Sound;
  }

  /** A removal. */
  method Discard(m: Mount, path: string, now: int, ghost w: World) returns (ok: bool, ghost e: Event)
    requires m.Valid() && Proper(path) && Shows(m.Seen(), w)
    modifies m, m.all, m.fs.provider, m.fs.budget, m.fs.cache, m.fs.dataCache
    ensures m.Valid() && m.all >= old(m.all) && fresh(m.all - old(m.all)) && !e.Local?
    ensures Shows(m.Seen(), After(w, e)) && Right(w, Delete(path), if ok then H.Done else H.Failed, e)
    ensures Faults(m.fs.provider.script) + (if Costly(w, e) then 1 else 0) <= Faults(old(m.fs.provider.script))
  {
    hide *;
    ghost var v := m.Seen();
    m.SeenParts();
    ShowsAt(v, w, path);
    EmptyUnspoilt(m.fs.dataCache.entries, path);
    ghost var course;
    ok, course := m.Remove(path, now);
    e := match course
         case Through => Deleted(path, true)
         case Unanswered => Deleted(path, false)
         case Refused => Nothing(false)
         case Faulty => Nothing(true);
    RightRemove(w, path, e);
    match course
    case Through => ShowsDeleted(v, m.Seen(), w, path, true);
    case Unanswered => ShowsDeleted(v, m.Seen(), w, path, false);
    case _ => ShowsSettled(v, m.Seen(), w);
  }

  lemma EmptyUnspoilt(entries: Blocks.Entries, path: string)
    ensures !Spoils(entries, path, 0, 0)
  {
  }

  lemma RightRemove(w: World, path: string, e: Event)
    ensures Right(w, Delete(path), H.Done, e) <==> e == Deleted(path, true) && Removable(w.keys, w.dirs, path)
    ensures e == Deleted(path, false) && Removable(w.keys, w.dirs, path) ==> Right(w, Delete(path), H.Failed, e)
    ensures e == Nothing(false) && (!Removable(w.keys, w.dirs, path) || path in w.unbacked) ==>
              Right(w, Delete(path), H.Failed, e)
    ensures e == Nothing(true) ==> Right(w, Delete(path), H.Failed, e)
    ensures e.Nothing? ==> After(w, e) == w && (Costly(w, e) <==> e.fault)
    ensures e.Deleted? ==> (Costly(w, e) <==> !e.replied)
  {
  }

  /** A creation. */
  method Establish(m: Mount, path: string, directory: bool, mode: nat, now: int, ghost w: World)
    returns (ok: bool, ghost e: Event)
    requires m.Valid() && Proper(path) && Shows(m.Seen(), w)
    modifies m, m.fs.provider, m.fs.cache, m.fs.dataCache
    ensures m.Valid() && m.all >= old(m.all) && fresh(m.all - old(m.all)) && !e.Local?
    ensures Shows(m.Seen(), After(w, e)) && Right(w, Make(path, directory, mode), if ok then H.Done else H.Failed, e)
    ensures Faults(m.fs.provider.script) + (if Costly(w, e) then 1 else 0) <= Faults(old(m.fs.provider.script))
  {
    hide *;
    ghost var v := m.Seen();
    m.SeenParts();
    ShowsAt(v, w, path);
    ghost var course;
    ok, course := m.Make(path, directory, mode, now);
    e := match course
         case Through => Made(path, directory, true)
         case Unanswered => Made(path, directory, false)
         case Refused => Nothing(false)
         case Faulty => Nothing(true);
    RightMake(w, path, directory, mode, e);
    match course
    case Through => ShowsMade(v, m.Seen(), w, path, directory, true);
    case Unanswered => ShowsMade(v, m.Seen(), w, path, directory, false);
    case _ => ShowsSettled(v, m.Seen(), w);
  }

  lemma RightMake(w: World, path: string, directory: bool, mode: nat, e: Event)
    ensures Right(w, Make(path, directory, mode), H.Done, e) <==>
              e == Made(path, directory, true) && Creatable(w.keys, w.dirs, path)
    ensures e == Made(path, directory, false) && Creatable(w.keys, w.dirs, path) ==>
              Right(w, Make(path, directory, mode), H.Failed, e)
    ensures e == Nothing(false) && !Creatable(w.keys, w.dirs, path) ==>
              Right(w, Make(path, directory, mode), H.Failed, e)
    ensures e == Nothing(true) ==> Right(w, Make(path, directory, mode), H.Failed, e)
    ensures e.Nothing? ==> After(w, e) == w && (Costly(w, e) <==> e.fault)
    ensures e.Made? ==> (Costly(w, e) <==> !e.replied)
    ensures Creatable(w.keys, w.dirs, path) ==> path != ""
  {
  }

  /** Forget. */
  method ForgetNode(m: Mount, path: string, ghost w: World) returns (ghost e: Event)
    requires m.Valid() && Shows(m.Seen(), w)
    modifies m`nodes
    ensures m.Valid() && Shows(m.Seen(), After(w, e)) && Right(w, Drop(path), H.Done, e) && !Costly(w, e) && !e.Local?
  {
    hide *;
    m.ValidParts();
    m.SeenParts();
    m.PendingSound();
    ghost var v := m.Seen();
    e := Forgot(path, PendingOf(v, path), Content(v.files, path));
    if path in m.nodes {
      m.Forget(m.nodes[path]);
    }
    PendingGone(v, path);
    m.SeenParts();
    ShowsForgot(v, m.Seen(), w, path);
    RightForget(w, e);
  }

  lemma PendingGone(v: View, path: string)
    requires forall k :: k in v.pending ==> Sound(v.pending[k])
    ensures path !in v.pending ==> v.pending - {path} == v.pending
    ensures Sound(PendingOf(v, path))
  {
    NothingPending([]);
  }

  lemma RightForget(w: World, e: Event)
    requires e.Forgot?
    ensures Right(w, Drop(e.path), H.Done, e) <==> Sound(e.unsent) && w.flat(e.path) == Over(e.remains, e.unsent)
    ensures !Costly(w, e)
  {
  }

  /** A listing. */
  method Enumerate(m: Mount, dir: string, now: int, ghost w: World) returns (reply: H.Reply, ghost e: Event)
    requires m.Valid() && Shows(m.Seen(), w)
    modifies m.fs.provider`script, m.fs.cache
    ensures m.Valid() && Shows(m.Seen(), After(w, e)) && !e.Local? && Right(w, List(dir), reply, e)
    ensures Faults(m.fs.provider.script) + (if Costly(w, e) then 1 else 0) <= Faults(old(m.fs.provider.script))
  {
    hide *;
    ghost var v := m.Seen();
    m.SeenParts();
    m.PendingSoundAt();
    ShowsAt(v, w, dir);
    var listing := m.List(dir, now);
    m.SeenParts();
    ShowsListed(v, m.Seen(), w);
    RightList(w, dir);
    if listing.Some? {
      reply, e := H.Entries(listing.value), Listed(dir);
      ListingTold(v, w, dir, listing.value);
    } else {
      reply, e := H.Failed, Nothing(IsDir(m.fs.provider.dirs, dir));
    }
  }

  lemma RightList(w: World, dir: string)
    ensures forall entries :: Told(w, dir, entries) && (IsDir(w.dirs, dir) || entries != []) ==>
              Right(w, List(dir), H.Entries(entries), Listed(dir))
    ensures Right(w, List(dir), H.Failed, Nothing(IsDir(w.dirs, dir)))
    ensures After(w, Listed(dir)) == w && forall fault :: After(w, Nothing(fault)) == w
    ensures !Costly(w, Listed(dir)) && forall fault :: Costly(w, Nothing(fault)) <==> fault
  {
    hide Told;
  }

  /** One call. */
  method Answer(m: Mount, call: Call, now: int, ghost w: World) returns (reply: H.Reply, ghost e: Event)
    requires m.Valid() && Allowed(call) && Shows(m.Seen(), w)
    modifies m, m.all, m.fs.provider, m.fs.budget, m.fs.cache, m.fs.dataCache
    ensures m.Valid() && m.all >= old(m.all) && fresh(m.all - old(m.all))
    ensures Shows(m.Seen(), After(w, e)) && Right(w, call, reply, e)
    ensures Noted(m, call.On? && old(PendingOf(m.Seen(), call.path)) == map[], e)
    ensures Faults(m.fs.provider.script) + (if Costly(w, e) then 1 else 0) <= Faults(old(m.fs.provider.script))
  {
    hide Shows, Right, After, Costly, Proper, Mount.Valid;
    match call
    case On(path, op) =>
      reply, e := Operate(m, path, op, now, w);
    case Move(from, to) =>
      var ok;
      ok, e := Relocate(m, from, to, now, w);
      reply := if ok then H.Done else H.Failed;
    case Delete(path) =>
      var ok;
      ok, e := Discard(m, path, now, w);
      reply := if ok then H.Done else H.Failed;
    case Make(path, directory, mode) =>
      var ok;
      ok, e := Establish(m, path, directory, mode, now, w);
      reply := if ok then H.Done else H.Failed;
    case Drop(path) =>
      e := ForgetNode(m, path, w);
      reply := H.Done;
    case List(dir) =>
      reply, e := Enumerate(m, dir, now, w);
  }

  lemma NoEvents(w: World, calls: seq<(Call, int)>)
    ensures Explains(w, calls, [], []) && Final(w, []) == w && Bill(w, []) == 0
  {
  }

  /**
   * Any history of a mount, whatever calls fail and whatever the budget refuses: what programs are told is what flat
   * files under their paths tell them, the mount shows those files at the end, and every failure that the world does
   * not explain is paid for by a failing call of its own.
   */
  method Run(m: Mount, calls: seq<(Call, int)>, ghost w: World)
    returns (replies: seq<H.Reply>, ghost events: seq<Event>)
    requires m.Valid() && Shows(m.Seen(), w) && forall i :: 0 <= i < |calls| ==> Allowed(calls[i].0)
    modifies m, m.all, m.fs.provider, m.fs.budget, m.fs.cache, m.fs.dataCache
    ensures |replies| == |events| == |calls| && Explains(w, calls, replies, events)
    ensures m.Valid() && Shows(m.Seen(), Final(w, events)) && (events != [] ==> Noted(m, false, events[|events| - 1]))
    ensures Faults(m.fs.provider.script) + Bill(w, events) <= Faults(old(m.fs.provider.script))
  {
    hide *;
    replies, events := [], [];
    NoEvents(w, calls);
    for i := 0 to |calls|
      invariant |replies| == |events| == i && Explains(w, calls, replies, events)
      invariant m.Valid() && Shows(m.Seen(), Final(w, events)) && m.all >= old(m.all) && fresh(m.all - old(m.all))
      invariant events != [] ==> Noted(m, false, events[|events| - 1])
      invariant Faults(m.fs.provider.script) + Bill(w, events) <= Faults(old(m.fs.provider.script))
    {
      var reply;
      ghost var e;
      reply, e := Answer(m, calls[i].0, calls[i].1, Final(w, events));
      ExplainsNext(w, calls, replies, events, reply, e);
      NotedAnyway(m, e);
      replies, events := replies + [reply], events + [e];
    }
  }

  /** A provider with some files, any pattern of failures, and a new mount over it. */
  method NewMount(files: map<string, File>, dirs: set<string>, script: seq<Outcome>, entries: nat, blocks: nat,
                  ttl: int)
    returns (m: Mount)
    ensures fresh(m) && fresh(m.fs.provider) && fresh(m.fs.budget) && fresh(m.fs.cache) && fresh(m.fs.dataCache)
    ensures m.all == {}
    ensures m.Valid() && m.Seen() == View(files, dirs, map[], map[], map[]) && m.fs.provider.script == script
  {
    var provider := new FileService(files, dirs, script);
    var budget := new WriteBudget();
    var cache := new Meta.Cache(entries, ttl);
    var dataCache := new Blocks.ReadBlockCache(blocks, ttl);
    var fs := new RemoteFS(provider, cache, dataCache, budget);
    m := new Mount(fs);
  }

  /** The world of a new mount: the provider's files and directories, and nothing in doubt. */
  function NewWorld(files: map<string, File>, dirs: set<string>): World {
    World(k => Content(files, k), files.Keys, dirs, iset{}, iset{}, iset{})
  }

  lemma NewMountShows(files: map<string, File>, dirs: set<string>)
    requires Relative(files.Keys) && Relative(dirs)
    ensures Shows(View(files, dirs, map[], map[], map[]), NewWorld(files, dirs))
  {
    var v := View(files, dirs, map[], map[], map[]);
    forall k ensures Found(v, k) == Content(files, k) {
      OverNothing(Content(files, k));
    }
  }

  /**
   * Every history of a new mount: explained from the first call on, shown by the mount it leaves, and with no more
   * unexplained failures than calls that failed. Without failing calls there are none.
   */
  method RunFresh(files: map<string, File>, dirs: set<string>, script: seq<Outcome>, entries: nat, blocks: nat,
                  ttl: int, calls: seq<(Call, int)>)
    returns (replies: seq<H.Reply>, m: Mount, ghost events: seq<Event>)
    requires Relative(files.Keys) && Relative(dirs)
    requires forall i :: 0 <= i < |calls| ==> Allowed(calls[i].0)
    ensures |replies| == |events| == |calls| && Explains(NewWorld(files, dirs), calls, replies, events)
    ensures m.Valid() && Shows(m.Seen(), Final(NewWorld(files, dirs), events))
    ensures events != [] ==> Noted(m, false, events[|events| - 1])
    ensures Bill(NewWorld(files, dirs), events) <= Faults(script)
  {
    hide *;
    m := NewMount(files, dirs, script, entries, blocks, ttl);
    NewMountShows(files, dirs);
    replies, events := Run(m, calls, NewWorld(files, dirs));
  }

  /** With no failing call there is no unexplained failure: every operation on an existing file is answered. */
  lemma {:induction false} NoFaultNoFailure(w: World, events: seq<Event>, i: nat)
    requires Bill(w, events) == 0 && i < |events|
    ensures !Costly(Final(w, events[..i]), events[i])
  {
    hide Costly, Final;
    var n := |events| - 1;
    if i < n {
      NoFaultNoFailure(w, events[..n], i);
      assert events[..n][..i] == events[..i];
    }
  }

  /** An event that leaves nothing in doubt: no reply was lost, and no unsent write forgotten. */
  predicate Lossless(e: Event) {
    match e
    case Local(_, event) => !event.slipped
    case Lost(_, _, _, _) => false
    case Deleted(_, replied) => replied
    case Made(_, _, replied) => replied
    case Forgot(_, unsent, _) => unsent == map[]
    case _ => true
  }

  lemma LosslessStep(w: World, e: Event)
    requires Lossless(e) && w.blocks == iset{} && w.sizes == iset{}
    ensures After(w, e).blocks == iset{} && After(w, e).sizes == iset{}
  {
    hide FlatAfter, KeysMoved, MovedUnbacked, H.After, Over;
  }

  lemma {:induction false} NothingInDoubt(w: World, events: seq<Event>)
    requires w.blocks == iset{} && w.sizes == iset{} && forall i :: 0 <= i < |events| ==> Lossless(events[i])
    ensures Final(w, events).blocks == iset{} && Final(w, events).sizes == iset{}
  {
    hide After;
    if events != [] {
      NothingInDoubt(w, events[..|events| - 1]);
      LosslessStep(Final(w, events[..|events| - 1]), events[|events| - 1]);
    }
  }

  /** Without a failing call no reply is lost and nothing slips. */
  lemma FaultlessIsLossless(w: World, calls: seq<(Call, int)>, replies: seq<H.Reply>, events: seq<Event>, i: nat)
    requires |replies| == |events| <= |calls| && Explains(w, calls, replies, events) && Bill(w, events) == 0
    requires i < |events|
    ensures Lossless(events[i]) || (events[i].Forgot? && events[i].unsent != map[])
  {
    hide Final, Bill, After, Told, Movable, Removable, Creatable, Over, Sound;
    NoFaultNoFailure(w, events, i);
    assert Right(Final(w, events[..i]), calls[i].0, replies[i], events[i]);
  }

  /** Reads, sizes and listings as the files and directories have them; what exists is answered, the rest is refused. */
  ghost predicate Exact(w: World, call: Call, reply: H.Reply) {
    match call
    case On(path, op) =>
      && (op.Read? && path in w.keys ==>
            && reply.Data? && |reply.data| <= op.size
            && (forall j :: 0 <= j < |reply.data| ==>
                op.offset + j < |w.flat(path)| && reply.data[j] == w.flat(path)[op.offset + j])
            && (|reply.data| < op.size ==> op.offset + |reply.data| >= |w.flat(path)|))
      && (op.Stat? ==> (reply.Size? <==> path == "" || path in w.keys || path in w.dirs))
      && (op.Stat? && path in w.keys ==> reply == H.Size(|w.flat(path)|))
      && (op.Flush? || op.Fsync? || op.Write? || op.Resize? || op.Touch? ==> path in w.keys ==> reply.Done?)
    case Move(from, to) =>
      && (reply.Done? ==> Movable(w.keys, w.dirs, from, to))
      && (Movable(w.keys, w.dirs, from, to) && from !in w.unbacked && to !in w.unbacked ==> reply.Done?)
    case Delete(path) =>
      && (reply.Done? ==> Removable(w.keys, w.dirs, path))
      && (Removable(w.keys, w.dirs, path) && path !in w.unbacked ==> reply.Done?)
    case Make(path, _, _) => reply.Done? <==> Creatable(w.keys, w.dirs, path)
    case Drop(_) => reply.Done?
    case List(dir) =>
      && (IsDir(w.dirs, dir) ==> reply.Entries?)
      && (reply.Entries? ==>
            forall k :: Proper(k) && k != "" && Parent(k) == dir ==>
              (ParentAndName(k).1 in Meta.IndexAttrs(reply.entries) <==> k in w.keys || k in w.dirs))
  }

  /**
   * With no failing call, and no unsent write forgotten, a new mount is what it looks like: every call is answered as
   * the files and directories that the calls before it left would have it.
   */
  lemma FaultlessIsExact(files: map<string, File>, dirs: set<string>, calls: seq<(Call, int)>, replies: seq<H.Reply>,
                         events: seq<Event>, i: nat)
    requires |replies| == |events| <= |calls| && Explains(NewWorld(files, dirs), calls, replies, events)
    requires Bill(NewWorld(files, dirs), events) == 0 && i < |events|
    requires forall j :: 0 <= j < i && events[j].Forgot? ==> events[j].unsent == map[]
    ensures Exact(Final(NewWorld(files, dirs), events[..i]), calls[i].0, replies[i])
  {
    hide Final, Bill, Right, Costly, Exact, Explains;
    var w0, past := NewWorld(files, dirs), events[..i];
    forall j | 0 <= j < i ensures Lossless(past[j]) {
      FaultlessIsLossless(w0, calls, replies, events, j);
    }
    NothingInDoubt(w0, past);
    NoFaultNoFailure(w0, events, i);
    ExplainsAt(w0, calls, replies, events, i);
    UndoubtedIsExact(Final(w0, past), calls[i].0, replies[i], events[i]);
  }

  lemma ExplainsAt(w: World, calls: seq<(Call, int)>, replies: seq<H.Reply>, events: seq<Event>, i: nat)
    requires |replies| == |events| <= |calls| && Explains(w, calls, replies, events) && i < |events|
    ensures Right(Final(w, events[..i]), calls[i].0, replies[i], events[i])
  {
  }

  lemma UndoubtedIsExact(w: World, call: Call, reply: H.Reply, e: Event)
    requires Right(w, call, reply, e) && !Costly(w, e) && w.blocks == iset{} && w.sizes == iset{}
    ensures Exact(w, call, reply)
  {
    hide Slice, Movable, Removable, Creatable, Meta.IndexAttrs, Proper, Over, ParentAndName;
    if call.On? && call.op.Read? {
      SliceBytes(w.flat(call.path), call.op.offset, call.op.size);
    }
  }

  /** One pending byte at the start of a file. */
  function OneByte(): Pending {
    map[0 := WriteBuffer.Block(WriteAt(Truncate([], BLOCK_SIZE), 0, [7]), [WriteBuffer.Range(0, 1)])]
  }

  lemma OneByteSound()
    ensures Sound(OneByte()) && OneByte() != map[]
  {
    WriteAtShape(Truncate([], BLOCK_SIZE), 0, [7]);
    assert 0 in OneByte();
  }

  /** A node forgotten after a flush that failed: the byte that was written is no longer found. */
  lemma ForgetExample(path: string)
    ensures var v := View(map[path := File([], [], 0, 0)], {}, map[path := OneByte()], map[], map[]);
            Found(v, path) != [] && Found(v.(pending := v.pending - {path}), path) == []
  {
    hide WriteAt, Truncate;
    OneByteSound();
    OverSomething([], OneByte());
    OverNothing([]);
  }

  /** A mount with a file of one byte, whose size and whose only block are cached. */
  function Cached(path: string): View {
    View(map[path := File([7], [], 0, 0)], {}, map[],
         map[Meta.KeyOf(Meta.Attr, path) := Stamped(Meta.AttrInfo(path, Meta.FileAttr(0, 1, 0)), 10, 1)],
         map[Blocks.Key(path, 0) := Stamped([7], 10, 1)])
  }

  /** A removal whose reply is lost: the cached size and the cached block of a file that is gone. */
  lemma LostRemovalExample(path: string)
    requires Proper(path) && path != ""
    ensures var v := Cached(path);
            var v' := v.(files := v.files - {path});
            PathCoherent(v, path) && !PathCoherent(v', path) && !PathKnown(v', path)
  {
    var v := Cached(path);
    var v' := v.(files := v.files - {path});
    OverNothing([]);
    NothingPending([]);
    assert Reports(v'.cache, path, 1);
    assert Blocks.Key(path, 0) in v'.blocks;
  }

  /** A creation whose reply is lost after the path was looked up in vain: the cache denies a file that exists. */
  lemma LostCreationExample(path: string)
    requires Proper(path) && path != "" && Parent(path) == ""
    ensures var cache := map[Meta.KeyOf(Meta.Missing, path) := Stamped(Meta.MissingInfo(path), 10, 1)];
            var v := View(map[], {}, map[], cache, map[]);
            var v' := v.(files := map[path := File([], [], 0, 0)]);
            Created(v, v', path, false) && PathKnown(v, path) && !PathKnown(v', path)
  {
    var cache := map[Meta.KeyOf(Meta.Missing, path) := Stamped(Meta.MissingInfo(path), 10, 1)];
    var v := View(map[], {}, map[], cache, map[]);
    var v' := v.(files := map[path := File([], [], 0, 0)]);
    NothingPending([]);
    Meta.KeysDiffer(Meta.Attr, path, Meta.Missing, path);
    Meta.KeysDiffer(Meta.Dir, Parent(path), Meta.Missing, path);
    MakeLost(v, v', path, false);
    assert Denies(v.cache, path);
  }

  /** A rename whose reply is lost: the cached size and the cached block stay behind where nothing is left. */
  lemma LostRenameCachedExample()
    ensures var v := Cached("a");
            var v' := v.(files := Renamed(v.files, "a", "b"), dirs := KeysMoved(v.dirs, "a", "b"));
            && Movable(v.files.Keys, v.dirs, "a", "b")
            && PathCoherent(v, "a") && PathKnown(v, "a") && !PathCoherent(v', "a") && !PathKnown(v', "a")
  {
    var v := Cached("a");
    var v' := v.(files := Renamed(v.files, "a", "b"), dirs := KeysMoved(v.dirs, "a", "b"));
    hide Renamed, KeysMoved;
    NothingPending([7]);
    NothingLeft(v, v', "a", "b", "a");
    Meta.KeysDiffer(Meta.Attr, "a", Meta.Missing, "a");
    Meta.KeysDiffer(Meta.Attr, "a", Meta.Dir, "");
    assert Reports(v.cache, "a", 1);
    assert Blocks.Key("a", 0) in v.blocks;
    LeftCachedAt(v, v', "a");
  }

  /**
   * A rename whose reply is lost while a byte of a file below the old path is unsent: the byte stands alone at the old
   * path.
   */
  lemma LostRenameExample()
    ensures var w := World(k => if k == "a/x" then Over([], OneByte()) else [], {"a/x"}, {"a"}, iset{}, iset{}, iset{});
            var e := Lost("a", "b", map["a/x" := OneByte()], map["a/x" := []]);
            && NotMoved(w, "a", "b", e)
            && FlatAfter(w.flat, e)("a/x") != [] == FlatAfter(w.flat, Moved("a", "b", map[]))("a/x")
  {
    hide WriteAt, Truncate, Over;
    OneByteSound();
    OverSomething([], OneByte());
    assert PathPrefix("a/x", "a") && !PathPrefix("a/x", "b") && Covers("a", "a/x");
    var flat: Flat := k => if k == "a/x" then Over([], OneByte()) else [];
    LostAt(flat, "a", "b", map["a/x" := OneByte()], map["a/x" := []], "a/x");
    MovedAt(flat, "a", "b", "a/x");
  }

  /**
   * A rename that comes through while a byte is unsent below the new path, where there is no file: the byte lies over
   * the empty file that the rename brings.
   */
  lemma InTheWayExample()
    ensures var v := View(map["e/x" := File([], [], 0, 0)], {"e"}, map["e" := map[], "d" := map[], "d/x" := OneByte()],
                          map[], map[]);
            var v' := v.(files := Renamed(v.files, "e", "d"), dirs := KeysMoved(v.dirs, "e", "d"),
                         pending := Renamed(v.pending, "e", "d"));
            && Movable(v.files.Keys, v.dirs, "e", "d") && "d/x" in InTheWay(v.pending, "e", "d")
            && Found(v, "e/x") == [] && Found(v', "d/x") != []
  {
    hide WriteAt, Truncate, Over, Renamed, KeysMoved;
    var v := View(map["e/x" := File([], [], 0, 0)], {"e"}, map["e" := map[], "d" := map[], "d/x" := OneByte()],
                  map[], map[]);
    var v' := v.(files := Renamed(v.files, "e", "d"), dirs := KeysMoved(v.dirs, "e", "d"),
                 pending := Renamed(v.pending, "e", "d"));
    OneByteSound();
    OverSomething([], OneByte());
    OverNothing([]);
    assert PathPrefix("d/x", "d") && !PathPrefix("d/x", "e") && !PathPrefix("e/x", "d");
    assert Rebase("d/x", "d", "e") == "e/x";
    RenameCarries(v, v', "e", "d");
  }

  /** A removal comes through exactly if it is not refused; one that is refused changes nothing and dispels no doubt. */
  lemma RefusedChangesNothing(w: World, path: string)
    ensures Removable(w.keys, w.dirs, path) <==> Right(w, Delete(path), H.Done, Deleted(path, true))
    ensures !Removable(w.keys, w.dirs, path) ==>
              Right(w, Delete(path), H.Failed, Nothing(false)) && !Costly(w, Nothing(false))
    ensures !Removable(w.keys, w.dirs, path) ==>
              forall reply, e :: Right(w, Delete(path), reply, e) ==> reply.Failed? && e.Nothing? && After(w, e) == w
  {
  }

  /** The same for a creation: repeated after a lost reply it is refused, as the path is there. */
  lemma RefusedMakesNothing(w: World, path: string, directory: bool, mode: nat)
    ensures Creatable(w.keys, w.dirs, path) <==>
              Right(w, Make(path, directory, mode), H.Done, Made(path, directory, true))
    ensures !Creatable(w.keys, w.dirs, path) ==>
              forall reply, e :: Right(w, Make(path, directory, mode), reply, e) ==>
                  reply.Failed? && e.Nothing? && After(w, e) == w
    ensures var made := After(w, Made(path, directory, false));
            !Creatable(made.keys, made.dirs, path) && path in made.sizes
  {
  }

  /**
   * However often the removal of a path that is gone is repeated, it fails, and whatever was in doubt about the path
   * stays in doubt.
   */
  lemma {:induction false} RetriesRefused(w: World, path: string, calls: seq<(Call, int)>, replies: seq<H.Reply>,
                                          events: seq<Event>)
    requires |replies| == |events| == |calls| && Explains(w, calls, replies, events)
    requires path !in w.keys && path !in w.dirs && forall i :: 0 <= i < |calls| ==> calls[i].0 == Delete(path)
    ensures Final(w, events) == w && forall i :: 0 <= i < |calls| ==> replies[i].Failed?
  {
    hide Right, After;
    if events != [] {
      var n := |events| - 1;
      ExplainsFront(w, calls, replies, events);
      RetriesRefused(w, path, calls[..n], replies[..n], events[..n]);
      assert Right(Final(w, events[..n]), calls[n].0, replies[n], events[n]);
      RefusedChangesNothing(w, path);
    }
  }

  lemma ExplainsFront(w: World, calls: seq<(Call, int)>, replies: seq<H.Reply>, events: seq<Event>)
    requires |replies| == |events| == |calls| > 0 && Explains(w, calls, replies, events)
    ensures var n := |events| - 1; Explains(w, calls[..n], replies[..n], events[..n])
  {
    hide Right, Final;
    var n := |events| - 1;
    assert forall i :: 0 <= i < n ==> events[..n][..i] == events[..i];
  }

  /** The event of an answered Stat. */
  function Looked(stored: seq<Byte>): H.Event {
    H.Event(H.Stat, H.Size(1), 0, false, stored, [])
  }

  /**
   * A file of one byte is looked at and removed, but the reply is lost; the removal is repeated and refused, and the
   * file is looked at again: its size is still reported. One failing call explains all of it.
   */
  lemma RetryExample(now: int)
    ensures var w := NewWorld(map["a" := File([7], [], 0, 0)], {});
            var calls := [(On("a", H.Stat), now), (Delete("a"), now), (Delete("a"), now), (On("a", H.Stat), now)];
            var replies := [H.Size(1), H.Failed, H.Failed, H.Size(1)];
            var events := [Local("a", Looked([7])), Deleted("a", false), Nothing(false), Local("a", Looked([]))];
            Explains(w, calls, replies, events) && Bill(w, events) == 1 && "a" !in Final(w, events).keys
  {
    hide Right, After, Costly, Explains, Final, Bill;
    var w := NewWorld(map["a" := File([7], [], 0, 0)], {});
    var calls := [(On("a", H.Stat), now), (Delete("a"), now), (Delete("a"), now), (On("a", H.Stat), now)];
    var first, lost, last := Local("a", Looked([7])), Deleted("a", false), Local("a", Looked([]));
    var w1 := After(w, first);
    var w2 := After(w1, lost);
    NoEvents(w, calls);
    StatStep(w, "a", [7]);
    ExplainsNext(w, calls, [], [], H.Size(1), first);
    var none: seq<Event>, silence: seq<H.Reply> := [], [];
    assert none + [first] == [first] && silence + [H.Size(1)] == [H.Size(1)];
    LostStep(w1, "a");
    ExplainsNext(w, calls, [H.Size(1)], [first], H.Failed, lost);
    RefusedChangesNothing(w2, "a");
    assert [first] + [lost] == [first, lost] && [H.Size(1)] + [H.Failed] == [H.Size(1), H.Failed];
    ExplainsNext(w, calls, [H.Size(1), H.Failed], [first, lost], H.Failed, Nothing(false));
    assert [first, lost] + [Nothing(false)] == [first, lost, Nothing(false)];
    assert [H.Size(1), H.Failed] + [H.Failed] == [H.Size(1), H.Failed, H.Failed];
    StatStep(w2, "a", []);
    ExplainsNext(w, calls, [H.Size(1), H.Failed, H.Failed], [first, lost, Nothing(false)], H.Size(1), last);
    assert [first, lost, Nothing(false)] + [last] == [first, lost, Nothing(false), last];
    assert [H.Size(1), H.Failed, H.Failed] + [H.Size(1)] == [H.Size(1), H.Failed, H.Failed, H.Size(1)];
  }

  /** Looking at a file of one byte, or at a path in doubt. */
  lemma StatStep(w: World, path: string, stored: seq<Byte>)
    requires path in w.sizes || (path in w.keys && |w.flat(path)| == 1)
    ensures Right(w, On(path, H.Stat), H.Size(1), Local(path, Looked(stored)))
    ensures !Costly(w, Local(path, Looked(stored)))
    ensures var w' := After(w, Local(path, Looked(stored)));
            w'.keys == w.keys && w'.dirs == w.dirs && w'.sizes == w.sizes && w'.flat(path) == w.flat(path)
  {
  }

  lemma LostStep(w: World, path: string)
    requires Removable(w.keys, w.dirs, path)
    ensures Right(w, Delete(path), H.Failed, Deleted(path, false)) && Costly(w, Deleted(path, false))
    ensures var w' := After(w, Deleted(path, false));
            path in w'.sizes && path !in w'.keys && path !in w'.dirs && !Removable(w'.keys, w'.dirs, path)
  {
  }

  /** Whatever happens, the provider's files and directories stay a tree. */
  lemma StepKeepsTree(w: World, call: Call, reply: H.Reply, e: Event)
    requires Tree(w.keys, w.dirs) && Right(w, call, reply, e)
    ensures Tree(After(w, e).keys, After(w, e).dirs)
  {
    hide Told, Tree, H.Right, FlatAfter, Over, Sound, Movable, Removable, Creatable, KeysMoved, FilesWith, DirsWith;
    match e
    case Moved(from, to, _) => RenameKeepsTree(w.keys, w.dirs, from, to);
    case Lost(from, to, _, _) => RenameKeepsTree(w.keys, w.dirs, from, to);
    case Deleted(path, _) => RemoveKeepsTree(w.keys, w.dirs, path);
    case Made(path, directory, _) => CreateKeepsTree(w.keys, w.dirs, path, directory);
    case _ =>
  }

  lemma {:induction false} HistoryKeepsTree(w: World, calls: seq<(Call, int)>, replies: seq<H.Reply>,
                                            events: seq<Event>)
    requires |replies| == |events| == |calls| && Explains(w, calls, replies, events) && Tree(w.keys, w.dirs)
    ensures Tree(Final(w, events).keys, Final(w, events).dirs)
  {
    hide Right, After, Tree;
    if events != [] {
      var n := |events| - 1;
      ExplainsFront(w, calls, replies, events);
      HistoryKeepsTree(w, calls[..n], replies[..n], events[..n]);
      StepKeepsTree(Final(w, events[..n]), calls[n].0, replies[n], events[n]);
    }
  }

  /** What has been created can be removed, and then the files and directories are those from before. */
  lemma MadeThenDeleted(w: World, path: string, directory: bool)
    requires Tree(w.keys, w.dirs) && Creatable(w.keys, w.dirs, path)
    requires forall k :: Covers(path, k) ==> w.flat(k) == []
    ensures var made := After(w, Made(path, directory, true));
            var gone := After(made, Deleted(path, true));
            && Removable(made.keys, made.dirs, path) && gone.keys == w.keys && gone.dirs == w.dirs
            && SameFlat(gone.flat, w.flat)
  {
    forall k | PathPrefix(k, path) ensures k !in w.keys + w.dirs {
      NothingBelow(w.keys, w.dirs, path, k);
    }
  }

  /** In a tree, a directory that is gone is listed only with entries that are in doubt. */
  lemma GoneListing(w: World, dir: string, entries: seq<Meta.DirEntry>, k: string)
    requires Tree(w.keys, w.dirs) && !IsDir(w.dirs, dir) && Told(w, dir, entries)
    requires Proper(k) && k != "" && Parent(k) == dir && ParentAndName(k).1 in Meta.IndexAttrs(entries)
    ensures k in w.sizes
  {
  }
}
