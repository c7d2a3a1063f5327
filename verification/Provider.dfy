/** The provider's file operations as the agent sees them: one remote call each, any of which may fail part way. */
module Provider {
  import opened Files
  import opened MetadataCache
  import opened BlockCache
  import opened Paths
  import opened Renaming

  /** A regular file: what is readable, what would survive a crash, and its modification time. */
  datatype File = File(content: seq<Byte>, durable: seq<Byte>, mtime: int, mode: nat)

  /**
   * How far a call gets. A failing write may have applied any prefix; a lost reply hides a call that was carried out.
   */
  datatype Fate = Succeed | FailOpen | FailWrite(applied: nat) | FailTouch | FailSync | FailReply

  /** The environment's part in one call: its fate, the provider's clock, and the sizes that directories have now. */
  datatype Outcome = Outcome(fate: Fate, now: int, extents: map<string, nat>)

  /** The fate of the next call; when the script is used up, calls succeed. */
  function NextOutcome(script: seq<Outcome>): Outcome {
    if script == [] then Outcome(Succeed, 0, map[]) else script[0]
  }

  function Later(script: seq<Outcome>): seq<Outcome> {
    if script == [] then [] else script[1..]
  }

  /** The failures among the calls to come. */
  ghost function Faults(script: seq<Outcome>): nat {
    if script == [] then 0 else (if script[0].fate.Succeed? then 0 else 1) + Faults(script[1..])
  }

  lemma {:induction false} NoFaults(script: seq<Outcome>)
    ensures Faults(script) == 0 <==> forall i :: 0 <= i < |script| ==> script[i].fate.Succeed?
  {
    if script != [] {
      NoFaults(script[1..]);
      assert forall i :: 0 < i < |script| ==> script[i] == script[1..][i - 1];
    }
  }

  /** One write request, as flushWritesLocked and bufferWrite build them. */
  datatype WriteRequest = WriteRequest(path: string, offset: nat, data: seq<Byte>, touch: Option<int>, sync: bool)

  function AttrOf(file: File): FileAttr {
    FileAttr(file.mode, |file.content|, file.mtime)
  }

  /** os.ModeDir */
  const MODE_DIR: nat := 0x8000_0000

  /** The attributes of a directory are the provider's own affair. */
  function DirectoryAttr(path: string, outcome: Outcome): FileAttr {
    FileAttr(MODE_DIR, if path in outcome.extents then outcome.extents[path] else 0, outcome.now)
  }

  /** What is at a path. The root is a directory that always exists. */
  datatype Standing = Absent | Directory | Regular

  predicate IsDir(dirs: set<string>, path: string) {
    path == "" || path in dirs
  }

  function StandingOf(files: set<string>, dirs: set<string>, path: string): Standing {
    if path in files then Regular else if IsDir(dirs, path) then Directory else Absent
  }

  function Content(files: map<string, File>, path: string): seq<Byte> {
    if path in files then files[path].content else []
  }

  /** How many bytes of a write reached the file. */
  function Applied(fate: Fate, length: nat): (n: nat)
    ensures n <= length
  {
    match fate
    case FailOpen => 0
    case FailWrite(n) => Min(n, length)
    case _ => length
  }

  /** FileService.write: data, then modification time, then sync; it may stop after any of them. */
  function Written(file: File, request: WriteRequest, outcome: Outcome): File {
    var fate := outcome.fate;
    var content := WriteAt(file.content, request.offset, request.data[..Applied(fate, |request.data|)]);
    var touched := fate.FailSync? || fate.FailReply? || fate.Succeed?;
    var synced := request.sync && (fate.FailReply? || fate.Succeed?);
    File(content,
         if synced then content else file.durable,
         if fate.FailOpen? then file.mtime
         else if touched && request.touch.Some? then request.touch.value
         else outcome.now,
         file.mode)
  }

  /** The bytes of a write that a call of this fate gets into the file: none, some of the first, or all. */
  function Reached(fate: Fate, data: seq<Byte>): seq<Byte> {
    match fate
    case FailOpen => []
    case FailWrite(n) => if n < |data| then data[..n] else data
    case _ => data
  }

  /**
   * What a write leaves of a file, stage by stage: data in place; the time that was asked for once that stage is over,
   * the provider's clock before; durable what a sync made so that was asked for and reached.
   */
  lemma WrittenShape(file: File, request: WriteRequest, outcome: Outcome)
    ensures var after, fate := Written(file, request, outcome), outcome.fate;
            && after.content == WriteAt(file.content, request.offset, Reached(fate, request.data))
            && after.mode == file.mode
            && after.durable ==
               (if request.sync && (fate.Succeed? || fate.FailReply?) then after.content else file.durable)
            && (fate.FailOpen? ==> after.mtime == file.mtime)
            && (fate.FailWrite? || fate.FailTouch? ==> after.mtime == outcome.now)
            && (fate.FailSync? || fate.FailReply? || fate.Succeed? ==>
                  after.mtime == if request.touch.Some? then request.touch.value else outcome.now)
  {
    assert request.data[..|request.data|] == request.data && request.data[..0] == [];
  }

  /** Operations without a data stage take effect unless they fail before it. */
  predicate TakesEffect(fate: Fate) {
    fate.Succeed? || fate.FailReply?
  }

  /** Nothing lies below the path. */
  predicate Childless(paths: set<string>, path: string) {
    forall k :: k in paths ==> !PathPrefix(k, path)
  }

  /** A file stands where the path needs a directory: then the error is not the one for an absent path. */
  predicate Obstructed(files: set<string>, path: string) {
    exists k :: k in files && PathPrefix(path, k)
  }

  /** What unlinkat removes: a file, or a directory without entries. */
  predicate Removable(files: set<string>, dirs: set<string>, path: string) {
    path != "" && path in files + dirs && Childless(files + dirs, path)
  }

  /** Where a file or a directory can be created: nothing is there, and the directory that will hold it exists. */
  predicate Creatable(files: set<string>, dirs: set<string>, path: string) {
    path != "" && path !in files + dirs && IsDir(dirs, Parent(path))
  }

  /** The names of files and of directories once one has been created. */
  function FilesWith(files: set<string>, path: string, directory: bool): set<string> {
    if directory then files else files + {path}
  }

  function DirsWith(dirs: set<string>, path: string, directory: bool): set<string> {
    if directory then dirs + {path} else dirs
  }

  /**
   * When rename succeeds: the old path exists, so does the directory of the new one, which is not in the subtree that
   * moves, and what is at the new path is of the same kind and has no entries. A path renamed to itself stays.
   */
  predicate Movable(files: set<string>, dirs: set<string>, from: string, to: string) {
    && Renamable(from, to) && from in files + dirs
    && (from != to ==>
          && IsDir(dirs, Parent(to)) && Childless(files + dirs, to)
          && (to in files + dirs ==> StandingOf(files, dirs, to) == StandingOf(files, dirs, from)))
  }

  /** When the three of them are refused, spelled out. */
  lemma Refusals(files: set<string>, dirs: set<string>, from: string, to: string)
    ensures !Removable(files, dirs, from) <==>
              || from == "" || (from !in files && from !in dirs)
              || exists k :: (k in files || k in dirs) && PathPrefix(k, from)
    ensures !Creatable(files, dirs, to) <==>
              to == "" || to in files || to in dirs || (Parent(to) != "" && Parent(to) !in dirs)
    ensures from != to ==>
              (!Movable(files, dirs, from, to) <==>
               || from == "" || to == "" || (from !in files && from !in dirs)
               || PathPrefix(to, from) || PathPrefix(from, to) || (Parent(to) != "" && Parent(to) !in dirs)
               || (exists k :: (k in files || k in dirs) && PathPrefix(k, to))
               || (to in files && from !in files) || (to !in files && to in dirs && from in files))
    ensures Movable(files, dirs, from, from) <==> from != "" && (from in files || from in dirs)
  {
    assert forall k :: k in files + dirs <==> k in files || k in dirs;
  }

  /** A listing has an entry of that name. */
  ghost predicate Names(listing: seq<DirEntry>, name: string) {
    exists i :: 0 <= i < |listing| && listing[i].name == name
  }

  /** An entry of a listing shows a file as it is, or a directory. */
  ghost predicate Accurate(entry: DirEntry, dir: string, files: map<string, File>, dirs: set<string>) {
    var k := Child(dir, entry.name);
    if k in files then entry.attr == AttrOf(files[k]) else k in dirs && entry.attr.mode == MODE_DIR
  }

  /** A listing shows exactly the files and directories in a directory. */
  ghost predicate Current(listing: seq<DirEntry>, dir: string, files: map<string, File>, dirs: set<string>) {
    && (forall i :: 0 <= i < |listing| ==> Accurate(listing[i], dir, files, dirs))
    && (forall k :: k in files.Keys + dirs && k == Child(dir, ParentAndName(k).1) ==>
        Names(listing, ParentAndName(k).1))
  }

  class FileService {
    var files: map<string, File>
    /** The directories below the root. */
    var dirs: set<string>
    /** The outcomes of the calls to come; when it is used up, calls succeed. */
    var script: seq<Outcome>
    ghost var writes: seq<WriteRequest>

    constructor (files: map<string, File>, dirs: set<string>, script: seq<Outcome>)
      ensures this.files == files && this.dirs == dirs && this.script == script && writes == []
    {
      this.files, this.dirs, this.script, this.writes := files, dirs, script, [];
    }

    /** The fate of the next call: a failure is one of those the script held. */
    method Draw() returns (outcome: Outcome)
      modifies this`script
      ensures outcome == NextOutcome(old(script)) && script == Later(old(script))
      ensures Faults(script) + (if outcome.fate.Succeed? then 0 else 1) == Faults(old(script))
    {
      outcome, script := NextOutcome(script), Later(script);
    }

    method Write(request: WriteRequest) returns (attr: Option<FileAttr>, ghost outcome: Outcome)
      modifies this`files, this`script, this`writes
      ensures writes == old(writes) + [request]
      ensures if request.path in old(files)
              then files == old(files)[request.path := Written(old(files)[request.path], request, outcome)]
              else files == old(files)
      ensures attr == if request.path in old(files) && outcome.fate.Succeed?
                      then Some(AttrOf(files[request.path])) else None
      ensures Faults(script) + (if attr.Some? || request.path !in files then 0 else 1) <= Faults(old(script))
      ensures outcome == NextOutcome(old(script)) && script == Later(old(script))
    {
      var drawn := Draw();
      outcome := drawn;
      writes := writes + [request];
      if request.path !in files {
        return None, drawn;
      }
      files := files[request.path := Written(files[request.path], request, drawn)];
      attr := if drawn.fate.Succeed? then Some(AttrOf(files[request.path])) else None;
    }

    /** FileService.read of one block. */
    method Read(path: string, offset: nat) returns (r: LoadResult)
      modifies this`script
      ensures r.Loaded? ==> path in files && r.data == BlockOf(files[path].content, offset)
      ensures Faults(script) + (if r.Loaded? || path !in files then 0 else 1) <= Faults(old(script))
    {
      var drawn := Draw();
      r := if path in files && drawn.fate.Succeed? then Loaded(BlockOf(files[path].content, offset)) else LoadFailed;
    }

    method Truncate(path: string, size: nat) returns (attr: Option<FileAttr>, ghost outcome: Outcome)
      modifies this`script, this`files
      ensures files == if path in old(files) && TakesEffect(outcome.fate)
                       then
                         var file := old(files)[path];
                         old(files)[path := file.(content := Files.Truncate(file.content, size), mtime := outcome.now)]
                       else old(files)
      ensures attr == if path in old(files) && outcome.fate.Succeed? then Some(AttrOf(files[path])) else None
      ensures path in old(files) && TakesEffect(outcome.fate) ==>
                Resized(old(files)[path].content, size, files[path].content)
      ensures Faults(script) + (if attr.Some? || path !in files then 0 else 1) <= Faults(old(script))
    {
      var drawn := Draw();
      outcome := drawn;
      if path in files {
        TruncateBytes(files[path].content, size);
      }
      if path in files && TakesEffect(drawn.fate) {
        var file := files[path];
        files := files[path := file.(content := Files.Truncate(file.content, size), mtime := drawn.now)];
      }
      attr := if path in files && drawn.fate.Succeed? then Some(AttrOf(files[path])) else None;
    }

    /** FileService.chtimes, of a file or a directory. */
    method Chtimes(path: string, mtime: int) returns (attr: Option<FileAttr>, ghost outcome: Outcome)
      modifies this`script, this`files
      ensures files == if path in old(files) && TakesEffect(outcome.fate)
                       then old(files)[path := old(files)[path].(mtime := mtime)] else old(files)
      ensures attr.Some? <==> StandingOf(files.Keys, dirs, path) != Absent && outcome.fate.Succeed?
      ensures attr.Some? && path in files ==> attr.value == AttrOf(files[path])
      ensures Faults(script) + (if attr.Some? || StandingOf(files.Keys, dirs, path) == Absent then 0 else 1)
                <= Faults(old(script))
    {
      var drawn := Draw();
      outcome := drawn;
      if path in files && TakesEffect(drawn.fate) {
        files := files[path := files[path].(mtime := mtime)];
      }
      attr := if drawn.fate.Succeed? then AttrAt(path, drawn) else None;
    }

    /** The attributes of whatever is at a path. */
    function AttrAt(path: string, outcome: Outcome): (attr: Option<FileAttr>)
      reads this`files, this`dirs
      ensures attr.Some? <==> StandingOf(files.Keys, dirs, path) != Absent
      ensures path in files ==> attr == Some(AttrOf(files[path]))
    {
      match StandingOf(files.Keys, dirs, path)
      case Absent => None
      case Directory => Some(DirectoryAttr(path, outcome))
      case Regular => Some(AttrOf(files[path]))
    }

    method Sync(path: string) returns (ok: bool, ghost outcome: Outcome)
      modifies this`script, this`files
      ensures files == if path in old(files) && TakesEffect(outcome.fate)
                       then old(files)[path := old(files)[path].(durable := old(files)[path].content)] else old(files)
      ensures ok <==> path in old(files) && outcome.fate.Succeed?
      ensures Faults(script) + (if ok || path !in files then 0 else 1) <= Faults(old(script))
    {
      var drawn := Draw();
      outcome := drawn;
      ok := path in files && drawn.fate.Succeed?;
      if path in files && TakesEffect(drawn.fate) {
        files := files[path := files[path].(durable := files[path].content)];
      }
    }

    /** FileService.stat; a reply that never arrives says nothing about existence. */
    method Stat(path: string) returns (attr: Option<FileAttr>, missing: bool)
      modifies this`script
      ensures attr.Some? ==> StandingOf(files.Keys, dirs, path) != Absent
      ensures attr.Some? && path in files ==> attr.value == AttrOf(files[path])
      ensures attr.Some? && path in files ==>
                && attr.value.mode == files[path].mode && attr.value.size == |files[path].content|
                && attr.value.modTime == files[path].mtime
      ensures attr.Some? && path !in files ==> attr.value.mode == 0x8000_0000
      ensures missing ==>
                && attr.None? && StandingOf(files.Keys, dirs, path) == Absent
                && forall k :: k in files ==> !PathPrefix(path, k)
      ensures attr.None? && !missing ==>
                || (StandingOf(files.Keys, dirs, path) == Absent && exists k :: k in files && PathPrefix(path, k))
                || Faults(script) < Faults(old(script))
      ensures Faults(script) <= Faults(old(script))
    {
      var drawn := Draw();
      attr := if drawn.fate.Succeed? then AttrAt(path, drawn) else None;
      missing := drawn.fate.Succeed? && attr.None? && !Obstructed(files.Keys, path);
    }

    /** FileService.rename; the attributes in the reply are those of whatever is at the new path. */
    method Rename(from: string, to: string) returns (attr: Option<FileAttr>, ghost outcome: Outcome)
      modifies this`script, this`files, this`dirs
      ensures var done := Movable(old(files).Keys, old(dirs), from, to) && TakesEffect(outcome.fate);
              && files == (if done then Renamed(old(files), from, to) else old(files))
              && dirs == (if done then KeysMoved(old(dirs), from, to) else old(dirs))
      ensures attr.Some? <==> Movable(old(files).Keys, old(dirs), from, to) && outcome.fate.Succeed?
      ensures attr.Some? && to in files ==> attr.value == AttrOf(files[to])
      ensures Faults(script) + (if attr.Some? || !Movable(old(files).Keys, old(dirs), from, to) then 0 else 1)
                <= Faults(old(script))
    {
      hide Renamed, KeysMoved;
      var drawn := Draw();
      outcome := drawn;
      if !Movable(files.Keys, dirs, from, to) {
        return None, drawn;
      }
      MovedThere(files, dirs, from, to);
      if TakesEffect(drawn.fate) {
        files, dirs := Renamed(files, from, to), KeysMoved(dirs, from, to);
      }
      attr := if drawn.fate.Succeed? then AttrAt(to, drawn) else None;
    }

    /** FileService.create, and mkdir: an empty file or directory, where nothing was. */
    method Create(path: string, directory: bool, mode: nat) returns (attr: Option<FileAttr>, ghost outcome: Outcome)
      modifies this`script, this`files, this`dirs
      ensures var done := Creatable(old(files).Keys, old(dirs), path) && TakesEffect(outcome.fate);
              && files == (if done && !directory
                           then old(files)[path := File([], [], outcome.now, mode)] else old(files))
              && dirs == (if done then DirsWith(old(dirs), path, directory) else old(dirs))
      ensures attr.Some? <==> Creatable(old(files).Keys, old(dirs), path) && outcome.fate.Succeed?
      ensures attr.Some? && path in files ==> attr.value == AttrOf(files[path])
      ensures Faults(script) + (if attr.Some? || !Creatable(old(files).Keys, old(dirs), path) then 0 else 1)
                <= Faults(old(script))
    {
      var drawn := Draw();
      outcome := drawn;
      if !Creatable(files.Keys, dirs, path) {
        return None, drawn;
      }
      if TakesEffect(drawn.fate) {
        if directory {
          dirs := dirs + {path};
        } else {
          files := files[path := File([], [], drawn.now, mode)];
        }
      }
      attr := if drawn.fate.Succeed? then AttrAt(path, drawn) else None;
    }

    /** FileService.remove, of a file or of a directory without entries. */
    method Remove(path: string) returns (ok: bool, ghost outcome: Outcome)
      modifies this`script, this`files, this`dirs
      ensures var done := Removable(old(files).Keys, old(dirs), path) && TakesEffect(outcome.fate);
              && files == (if done then old(files) - {path} else old(files))
              && dirs == (if done then old(dirs) - {path} else old(dirs))
      ensures ok <==> Removable(old(files).Keys, old(dirs), path) && outcome.fate.Succeed?
      ensures Faults(script) + (if ok || !Removable(old(files).Keys, old(dirs), path) then 0 else 1)
                <= Faults(old(script))
    {
      var drawn := Draw();
      outcome := drawn;
      var removable := Removable(files.Keys, dirs, path);
      ok := removable && drawn.fate.Succeed?;
      if removable && TakesEffect(drawn.fate) {
        files, dirs := files - {path}, dirs - {path};
      }
    }

    /** A directory as StreamDir lists it now. */
    method ReadDir(dir: string) returns (listing: Option<seq<DirEntry>>)
      modifies this`script
      ensures listing.Some? ==> IsDir(dirs, dir) && Current(listing.value, dir, files, dirs)
      ensures Faults(script) + (if listing.Some? || !IsDir(dirs, dir) then 0 else 1) <= Faults(old(script))
    {
      var drawn := Draw();
      if !IsDir(dirs, dir) {
        return None;
      }
      var entries := Listing(dir, drawn);
      listing := if drawn.fate.Succeed? then Some(entries) else None;
    }

    method Listing(dir: string, outcome: Outcome) returns (entries: seq<DirEntry>)
      ensures Current(entries, dir, files, dirs)
    {
      entries := [];
      var unseen := files.Keys + dirs;
      while unseen != {}
        invariant unseen <= files.Keys + dirs
        invariant forall i :: 0 <= i < |entries| ==> Accurate(entries[i], dir, files, dirs)
        invariant forall k :: k in files.Keys + dirs && k !in unseen && k == Child(dir, ParentAndName(k).1) ==>
                  Names(entries, ParentAndName(k).1)
      {
        var k :| k in unseen;
        if k == Child(dir, ParentAndName(k).1) {
          var attr := if k in files then AttrOf(files[k]) else DirectoryAttr(k, outcome);
          var entry := DirEntry(ParentAndName(k).1, attr, "");
          NamesGrow(entries, entry);
          entries := entries + [entry];
        }
        unseen := unseen - {k};
      }
    }
  }

  /** A rename leaves something at the new path. */
  lemma MovedThere(files: map<string, File>, dirs: set<string>, from: string, to: string)
    requires Movable(files.Keys, dirs, from, to)
    ensures StandingOf(Renamed(files, from, to).Keys, KeysMoved(dirs, from, to), to) != Absent
  {
    hide Renamed;
    if from == to {
      MovedBounds(files, from, to);
    } else {
      RenamedShape(files, from, to, to);
      assert Rebase(to, to, from) == from && Rebase(from, from, to) == to;
    }
  }

  lemma NamesGrow(entries: seq<DirEntry>, entry: DirEntry)
    ensures Names(entries + [entry], entry.name)
    ensures forall name :: Names(entries, name) ==> Names(entries + [entry], name)
  {
    assert (entries + [entry])[|entries|] == entry;
    forall name | Names(entries, name) ensures Names(entries + [entry], name) {
      var i :| 0 <= i < |entries| && entries[i].name == name;
      assert (entries + [entry])[i].name == name;
    }
  }

  /** Files and directories form a tree: nothing is both, and everything is in a directory. */
  predicate Tree(files: set<string>, dirs: set<string>) {
    files !! dirs && forall k :: k in files + dirs ==> IsDir(dirs, Parent(k))
  }

  /** Nothing lies below what is no directory. */
  lemma {:induction false} NothingBelow(files: set<string>, dirs: set<string>, path: string, k: string)
    requires Tree(files, dirs) && !IsDir(dirs, path) && PathPrefix(k, path)
    ensures k !in files + dirs
    decreases |k|
  {
    if k in files + dirs {
      ParentStaysBelow(path, k);
      BelowParent(k);
      if Parent(k) != path {
        NothingBelow(files, dirs, path, Parent(k));
      }
    }
  }

  /** What is created grows a tree. */
  lemma CreateKeepsTree(files: set<string>, dirs: set<string>, path: string, directory: bool)
    requires Tree(files, dirs) && Creatable(files, dirs, path)
    ensures Tree(FilesWith(files, path, directory), DirsWith(dirs, path, directory))
  {
    forall k | k in FilesWith(files, path, directory) + DirsWith(dirs, path, directory)
      ensures IsDir(DirsWith(dirs, path, directory), Parent(k))
    {
      assert k == path || k in files + dirs;
    }
  }

  /** What may be removed leaves a tree. */
  lemma RemoveKeepsTree(files: set<string>, dirs: set<string>, path: string)
    requires Tree(files, dirs) && Removable(files, dirs, path)
    ensures Tree(files - {path}, dirs - {path})
  {
    forall k | k in (files - {path}) + (dirs - {path}) ensures IsDir(dirs - {path}, Parent(k)) {
      BelowParent(k);
      assert k in files + dirs;
    }
  }

  /** What may be moved leaves a tree. */
  lemma RenameKeepsTree(files: set<string>, dirs: set<string>, from: string, to: string)
    requires Tree(files, dirs) && Movable(files, dirs, from, to)
    ensures Tree(KeysMoved(files, from, to), KeysMoved(dirs, from, to))
  {
    hide KeysMoved;
    forall k ensures k in KeysMoved(files, from, to) ==> k !in KeysMoved(dirs, from, to) {
      KeysMovedShape(files, from, to, k);
      KeysMovedShape(dirs, from, to, k);
    }
    forall k | k in KeysMoved(files, from, to) + KeysMoved(dirs, from, to)
      ensures IsDir(KeysMoved(dirs, from, to), Parent(k))
    {
      MovedParent(files, dirs, from, to, k);
    }
  }

  lemma MovedParent(files: set<string>, dirs: set<string>, from: string, to: string, k: string)
    requires Tree(files, dirs) && Movable(files, dirs, from, to)
    requires k in KeysMoved(files, from, to) + KeysMoved(dirs, from, to)
    ensures IsDir(KeysMoved(dirs, from, to), Parent(k))
  {
    hide KeysMoved;
    KeysMovedShape(files, from, to, k);
    KeysMovedShape(dirs, from, to, k);
    KeysMovedShape(dirs, from, to, Parent(k));
    BelowParent(k);
    if from != to {
      if PathPrefix(k, to) {
        var source := Rebase(k, to, from);
        RebaseBack(k, to, from);
        RebaseParent(k, to, from);
        assert source in files + dirs;
      } else if Inside(from, to, Parent(k)) {
        NotInside(from, to, k);
      } else {
        assert k != to ==> k in files + dirs;
      }
    }
  }

  lemma NotInside(from: string, to: string, k: string)
    requires Renamable(from, to) && from != to && !PathPrefix(k, to) && !Covers(from, k)
    ensures !Inside(from, to, Parent(k))
  {
    BelowParent(k);
    if Inside(from, to, Parent(k)) {
      CoversTransitive(if Covers(from, Parent(k)) then from else to, Parent(k), k);
    }
  }
}
