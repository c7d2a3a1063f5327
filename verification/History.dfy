/** Whole histories of one node, explained by a flat file on which the same operations act directly. */
module History {
  import opened Files
  import opened Provider
  import opened RemoteNode
  import Meta = MetadataCache
  import Blocks = BlockCache
  import Paths
  import Overlay
  import opened Recency

  /**
   * What a program can ask of an open file; ReadDir is a listing of the directory that holds it, with other entries and
   * the size it would give the path if that is a directory.
   */
  datatype Op =
    | Write(offset: nat, data: seq<Byte>)
    | Read(offset: nat, size: nat)
    | Flush
    | Fsync
    | Resize(size: nat)
    | Touch(mtime: int)
    | Stat
    | ReadDir(others: seq<Meta.DirEntry>, extent: nat)

  datatype Reply = Done | Failed | Data(data: seq<Byte>) | Size(size: nat) | Entries(entries: seq<Meta.DirEntry>)

  /**
   * One operation with its reply. `applied` counts the bytes of a write that are in the file afterwards, `slipped`
   * marks a direct write that failed where a size may be cached, and a truncation whose reply was lost, `stored` is the
   * provider's file afterwards and `durable` what of it would survive a crash.
   */
  datatype Event = Event(op: Op, reply: Reply, applied: nat, slipped: bool, stored: seq<Byte>, durable: seq<Byte>)

  /** The flat file after one event. */
  function After(file: seq<Byte>, e: Event): seq<Byte> {
    match e.op
    case Write(offset, data) => WriteAt(file, offset, data[..Min(e.applied, |data|)])
    case Resize(size) => if e.reply.Done? || e.slipped then Truncate(file, size) else file
    case _ => file
  }

  /** What the caches may be relied on for. */
  datatype Trust = Trust(blocks: bool, size: bool)

  /**
   * A lost truncation costs trust in cached blocks and sizes if it moved the end of the file, a failed direct write
   * trust in cached sizes if its data goes beyond the end. Nothing else costs any.
   */
  function TrustAfter(file: seq<Byte>, t: Trust, e: Event): Trust {
    match e.op
    case Write(offset, data) => Trust(true, !e.slipped || offset + |data| <= |file|)
    case Resize(size) =>
      if e.reply.Done? then Trust(true, true) else if e.slipped && size != |file| then Trust(false, false) else t
    case _ => t
  }

  /** The reply is the one the flat file gives, or what else is at the path. */
  ghost predicate Right(file: seq<Byte>, standing: Standing, t: Trust, e: Event) {
    && (e.slipped ==> e.reply.Failed? && (e.op.Write? || e.op.Resize?) && standing == Regular)
    && match e.op
       case Write(_, data) =>
         (e.reply.Done? || e.reply.Failed?) && e.applied <= |data| && (e.reply.Done? ==> e.applied == |data|)
       case Read(offset, size) =>
         (e.reply.Data? || e.reply.Failed?) && (e.reply.Data? && t.blocks ==> e.reply.data == Slice(file, offset, size))
       case Flush => (e.reply.Done? || e.reply.Failed?) && (e.reply.Done? ==> e.stored == file)
       case Fsync =>
         (e.reply.Done? || e.reply.Failed?) && (e.reply.Done? ==> e.stored == e.durable == file && standing == Regular)
       case Resize(_) => (e.reply.Done? || e.reply.Failed?) && (e.reply.Done? ==> standing == Regular)
       case Touch(_) => (e.reply.Done? || e.reply.Failed?) && (e.reply.Done? && t.size ==> standing != Absent)
       case Stat =>
         (e.reply.Size? || e.reply.Failed?) && (e.reply.Size? && t.size ==> Tells(Fact(standing, |file|), e.reply.size))
       case ReadDir(_, _) => e.reply.Done? || e.reply.Failed?
  }

  function Final(file: seq<Byte>, events: seq<Event>): seq<Byte> {
    if events == [] then file else After(Final(file, events[..|events| - 1]), events[|events| - 1])
  }

  function FinalTrust(file: seq<Byte>, t: Trust, events: seq<Event>): Trust {
    if events == [] then t
    else
      var front := events[..|events| - 1];
      TrustAfter(Final(file, front), FinalTrust(file, t, front), events[|events| - 1])
  }

  /** Every reply in a history is the one the flat file gives at that point. */
  ghost predicate Explains(file: seq<Byte>, standing: Standing, t: Trust, events: seq<Event>) {
    forall i :: 0 <= i < |events| ==>
      Right(Final(file, events[..i]), standing, FinalTrust(file, t, events[..i]), events[i])
  }

  /**
   * A failure that only a failing call explains: the file exists, and no entry in doubt denies it. Of a directory, only
   * the attributes can be read and the time be set.
   */
  predicate Costly(t: Trust, standing: Standing, e: Event) {
    && e.reply.Failed? && standing != Absent
    && (if e.op.Stat? || e.op.Touch? then t.size else standing == Regular)
  }

  /** The number of such failures in a history. */
  function Bill(file: seq<Byte>, standing: Standing, t: Trust, events: seq<Event>): nat {
    if events == [] then 0
    else
      var front := events[..|events| - 1];
      var last := events[|events| - 1];
      Bill(file, standing, t, front) + if Costly(FinalTrust(file, t, front), standing, last) then 1 else 0
  }

  lemma ExplainsNext(file: seq<Byte>, standing: Standing, t: Trust, events: seq<Event>, e: Event)
    requires Explains(file, standing, t, events)
    requires Right(Final(file, events), standing, FinalTrust(file, t, events), e)
    ensures Explains(file, standing, t, events + [e])
    ensures Final(file, events + [e]) == After(Final(file, events), e)
    ensures FinalTrust(file, t, events + [e]) == TrustAfter(Final(file, events), FinalTrust(file, t, events), e)
    ensures Bill(file, standing, t, events + [e]) ==
              Bill(file, standing, t, events) + if Costly(FinalTrust(file, t, events), standing, e) then 1 else 0
  {
    hide Right, After, TrustAfter, Costly;
    var all := events + [e];
    assert all[..|events|] == events;
    forall i | 0 <= i < |all| ensures Right(Final(file, all[..i]), standing, FinalTrust(file, t, all[..i]), all[i]) {
      assert i < |events| ==> all[..i] == events[..i];
    }
  }

  /** What the caches are good for is what the history says they are. */
  ghost predicate Trusted(node: Node, t: Trust)
    reads node`path, node`writeBlocks, node.fs.cache`entries, node.fs.dataCache`entries
    reads node.fs.provider`files, node.fs.provider`dirs
  {
    (t.blocks ==> node.Coherent()) && (t.size ==> node.SizeKnown())
  }

  /** The listing of the directory, as the provider would send it now: the file itself under its current size. */
  function Listing(others: seq<Meta.DirEntry>, name: string, own: seq<Meta.DirEntry>): seq<Meta.DirEntry> {
    if others == [] then own
    else (if others[0].name == name then [] else [others[0]]) + Listing(others[1..], name, own)
  }

  lemma {:induction false} ListingCurrent(others: seq<Meta.DirEntry>, name: string, own: seq<Meta.DirEntry>,
                                          fact: Fact)
    requires CurrentIn(own, name, fact)
    ensures CurrentIn(Listing(others, name, own), name, fact)
  {
    if others != [] {
      var tail := Listing(others[1..], name, own);
      ListingCurrent(others[1..], name, own, fact);
      if Names(tail, name) {
        var i :| 0 <= i < |tail| && tail[i].name == name;
        var first := if others[0].name == name then [] else [others[0]];
        assert (first + tail)[|first| + i].name == name;
      }
    }
  }

  ghost function Durable(node: Node): seq<Byte>
    reads node`path, node.fs.provider`files
  {
    if node.path in node.fs.provider.files then node.fs.provider.files[node.path].durable else []
  }

  ghost function Note(node: Node, op: Op, reply: Reply, applied: nat, slipped: bool): Event
    reads node`path, node.fs.provider`files
  {
    Event(op, reply, applied, slipped, Content(node.fs.provider.files, node.path), Durable(node))
  }

  /**
   * What every operation guarantees: the logical file moves as the flat file does, the reply is right, and the event
   * tells what the provider holds.
   */
  ghost predicate Explained(file: seq<Byte>, t: Trust, e: Event, node: Node)
    reads node`path, node`writeBlocks, node.fs.cache`entries, node.fs.dataCache`entries
    reads node.fs.provider`files, node.fs.provider`dirs
  {
    && Right(file, node.Stands(), t, e) && node.File() == After(file, e) && Trusted(node, TrustAfter(file, t, e))
    && e.stored == Content(node.fs.provider.files, node.path) && e.durable == Durable(node)
  }

  /**
   * A write slips only with all units of the budget taken and nothing pending, and if something was pending before it
   * or it crosses a block border; and nothing slips but on a file that exists.
   */
  ghost predicate Slips(clean: bool, node: Node, e: Event)
    reads node`path, node`writeBlocks, node.fs.budget, node.fs.provider`files
  {
    e.slipped ==>
      && node.writeBlocks == map[] && node.path in node.fs.provider.files
      && (e.op.Write? ==>
            node.fs.budget.held == MAX_TOTAL_BLOCKS && !(clean && InOneBlock(e.op.offset, e.op.data)))
  }

  method DoWrite(node: Node, op: Op, now: int, ghost t: Trust) returns (reply: Reply, ghost e: Event)
    requires op.Write? && node.Valid() && Trusted(node, t)
    modifies node`writeBlocks, node`writeMtime, node.fs.budget, node.fs.cache, node.fs.dataCache
    modifies node.fs.provider`files, node.fs.provider`script, node.fs.provider`writes
    ensures node.Valid() && e.op == op && e.reply == reply && Explained(old(node.File()), t, e, node)
    ensures node.fs.budget.held - |node.writeBlocks| == old(node.fs.budget.held - |node.writeBlocks|)
    ensures Aside(old(node.fs.cache.entries), old(node.fs.dataCache.entries), node.path,
                  node.fs.cache.entries, node.fs.dataCache.entries)
    ensures OnlyChanges(old(node.fs.provider.files), node.fs.provider.files, node.path)
    ensures Slips(old(node.writeBlocks) == map[], node, e)
    ensures Faults(node.fs.provider.script) + (if Costly(t, node.Stands(), e) then 1 else 0)
         <= Faults(old(node.fs.provider.script))
  {
    hide Node.Valid, Node.File, Node.Coherent, Node.SizeKnown, WriteAt, OnlyChanges, Aside, InOneBlock;
    ghost var clean := node.writeBlocks == map[];
    var ok, applied, direct := node.Write(op.offset, op.data, now);
    reply := if ok then Done else Failed;
    ghost var risky := node.path in node.fs.provider.files && !(clean && InOneBlock(op.offset, op.data));
    e := Note(node, op, reply, applied, !ok && direct && risky);
  }

  method DoRead(node: Node, op: Op, now: int, ghost t: Trust) returns (reply: Reply, ghost e: Event)
    requires op.Read? && node.Valid() && Trusted(node, t)
    modifies node`writeBlocks, node`writeMtime, node.fs.budget, node.fs.cache, node.fs.dataCache
    modifies node.fs.provider`files, node.fs.provider`script, node.fs.provider`writes
    ensures node.Valid() && e.op == op && e.reply == reply && Explained(old(node.File()), t, e, node)
    ensures node.fs.budget.held - |node.writeBlocks| == old(node.fs.budget.held - |node.writeBlocks|)
    ensures Aside(old(node.fs.cache.entries), old(node.fs.dataCache.entries), node.path,
                  node.fs.cache.entries, node.fs.dataCache.entries)
    ensures OnlyChanges(old(node.fs.provider.files), node.fs.provider.files, node.path)
    ensures Slips(old(node.writeBlocks) == map[], node, e)
    ensures Faults(node.fs.provider.script) + (if Costly(t, node.Stands(), e) then 1 else 0)
         <= Faults(old(node.fs.provider.script))
    ensures !op.Write? && old(node.writeBlocks) == map[] ==> node.writeBlocks == map[]
  {
    hide Node.Valid, Node.File, Node.Coherent, Node.SizeKnown, Slice, OnlyChanges, Aside;
    var ok, data := node.Read(op.offset, op.size, now);
    reply := if ok then Data(data) else Failed;
    e := Note(node, op, reply, 0, false);
  }

  method DoFlush(node: Node, op: Op, now: int, ghost t: Trust) returns (reply: Reply, ghost e: Event)
    requires (op.Flush? || op.Fsync?) && node.Valid() && Trusted(node, t)
    modifies node`writeBlocks, node`writeMtime, node.fs.budget, node.fs.cache, node.fs.dataCache
    modifies node.fs.provider`files, node.fs.provider`script, node.fs.provider`writes
    ensures node.Valid() && e.op == op && e.reply == reply && Explained(old(node.File()), t, e, node)
    ensures node.fs.budget.held - |node.writeBlocks| == old(node.fs.budget.held - |node.writeBlocks|)
    ensures Aside(old(node.fs.cache.entries), old(node.fs.dataCache.entries), node.path,
                  node.fs.cache.entries, node.fs.dataCache.entries)
    ensures OnlyChanges(old(node.fs.provider.files), node.fs.provider.files, node.path)
    ensures Slips(old(node.writeBlocks) == map[], node, e)
    ensures Faults(node.fs.provider.script) + (if Costly(t, node.Stands(), e) then 1 else 0)
         <= Faults(old(node.fs.provider.script))
    ensures !op.Write? && old(node.writeBlocks) == map[] ==> node.writeBlocks == map[]
  {
    hide Node.Valid, Node.File, Node.Coherent, Node.SizeKnown, OnlyChanges, Aside;
    var ok;
    if op.Fsync? {
      ok := node.Fsync(now);
    } else {
      ok := node.FlushPending(now);
    }
    reply := if ok then Done else Failed;
    e := Note(node, op, reply, 0, false);
  }

  method DoSetattr(node: Node, op: Op, now: int, ghost t: Trust) returns (reply: Reply, ghost e: Event)
    requires (op.Resize? || op.Touch?) && node.Valid() && Trusted(node, t)
    modifies node`writeBlocks, node`writeMtime, node.fs.budget, node.fs.cache, node.fs.dataCache
    modifies node.fs.provider`files, node.fs.provider`script, node.fs.provider`writes
    ensures node.Valid() && e.op == op && e.reply == reply && Explained(old(node.File()), t, e, node)
    ensures node.fs.budget.held - |node.writeBlocks| == old(node.fs.budget.held - |node.writeBlocks|)
    ensures Aside(old(node.fs.cache.entries), old(node.fs.dataCache.entries), node.path,
                  node.fs.cache.entries, node.fs.dataCache.entries)
    ensures OnlyChanges(old(node.fs.provider.files), node.fs.provider.files, node.path)
    ensures Slips(old(node.writeBlocks) == map[], node, e)
    ensures Faults(node.fs.provider.script) + (if Costly(t, node.Stands(), e) then 1 else 0)
         <= Faults(old(node.fs.provider.script))
    ensures !op.Write? && old(node.writeBlocks) == map[] ==> node.writeBlocks == map[]
  {
    hide Node.Valid, Node.File, Node.Coherent, Node.SizeKnown, OnlyChanges, Spoils, Truncate, Aside;
    var ok;
    ghost var lost := false;
    UncutUnspoilt(node.fs.dataCache.entries, node.path, |node.File()|);
    if op.Resize? {
      ok, lost := node.SetSize(op.size, now);
    } else {
      ok := node.SetMtime(op.mtime, now);
    }
    reply := if ok then Done else Failed;
    e := Note(node, op, reply, 0, lost);
  }

  lemma UncutUnspoilt(entries: Blocks.Entries, path: string, length: nat)
    ensures !Spoils(entries, path, length, length)
  {
  }

  method DoLook(node: Node, op: Op, now: int, ghost t: Trust) returns (reply: Reply, ghost e: Event)
    requires (op.Stat? || op.ReadDir?) && node.Valid() && Trusted(node, t)
    modifies node.fs.provider`script, node.fs.cache
    ensures node.Valid() && e.op == op && e.reply == reply && Explained(old(node.File()), t, e, node)
    ensures op.Stat? ==>
              Aside(old(node.fs.cache.entries), old(node.fs.dataCache.entries), node.path,
                    node.fs.cache.entries, node.fs.dataCache.entries)
    ensures Slips(old(node.writeBlocks) == map[], node, e)
    ensures Faults(node.fs.provider.script) + (if Costly(t, node.Stands(), e) then 1 else 0)
         <= Faults(old(node.fs.provider.script))
  {
    hide Node.Valid, Node.File, Node.Coherent, Node.SizeKnown, CurrentIn, Listing, Aside;
    if op.Stat? {
      var attr, source := node.Attr(now);
      reply := if attr.Some? then Size(attr.value.size) else Failed;
    } else {
      var name := Paths.ParentAndName(node.path).1;
      var files := node.fs.provider.files;
      var own := if node.path in files then [Meta.DirEntry(name, AttrOf(files[node.path]), "")]
                 else if IsDir(node.fs.provider.dirs, node.path)
                 then [Meta.DirEntry(name, Meta.FileAttr(MODE_DIR, op.extent, now), "")] else [];
      OwnCurrent(files, node.fs.provider.dirs, node.path, name, own);
      ListingCurrent(op.others, name, own, FactOf(files, node.fs.provider.dirs, node.path));
      node.CacheListing(Listing(op.others, name, own), now);
      reply := Done;
    }
    e := Note(node, op, reply, 0, false);
  }

  lemma OwnCurrent(files: map<string, File>, dirs: set<string>, path: string, name: string, own: seq<Meta.DirEntry>)
    requires StandingOf(files.Keys, dirs, path) != Absent ==> |own| == 1 && own[0].name == name
    requires StandingOf(files.Keys, dirs, path) == Absent ==> own == []
    requires path in files ==> own[0].attr == AttrOf(files[path])
    ensures CurrentIn(own, name, FactOf(files, dirs, path))
  {
  }

  /** One operation of a history. */
  method Do(node: Node, op: Op, now: int, ghost t: Trust) returns (reply: Reply, ghost e: Event)
    requires node.Valid() && Trusted(node, t)
    modifies node`writeBlocks, node`writeMtime, node.fs.budget, node.fs.cache, node.fs.dataCache
    modifies node.fs.provider`files, node.fs.provider`script, node.fs.provider`writes
    ensures node.Valid() && e.op == op && e.reply == reply && Explained(old(node.File()), t, e, node)
    ensures node.fs.budget.held - |node.writeBlocks| == old(node.fs.budget.held - |node.writeBlocks|)
    ensures !op.ReadDir? ==>
              Aside(old(node.fs.cache.entries), old(node.fs.dataCache.entries), node.path,
                    node.fs.cache.entries, node.fs.dataCache.entries)
    ensures OnlyChanges(old(node.fs.provider.files), node.fs.provider.files, node.path)
    ensures Slips(old(node.writeBlocks) == map[], node, e)
    ensures Faults(node.fs.provider.script) + (if Costly(t, node.Stands(), e) then 1 else 0)
         <= Faults(old(node.fs.provider.script))
    ensures !op.Write? && old(node.writeBlocks) == map[] ==> node.writeBlocks == map[]
  {
    hide *;
    OnlyChangesTrans(node.fs.provider.files, node.path);
    match op
    case Write(_, _) => reply, e := DoWrite(node, op, now, t);
    case Read(_, _) => reply, e := DoRead(node, op, now, t);
    case Flush => reply, e := DoFlush(node, op, now, t);
    case Fsync => reply, e := DoFlush(node, op, now, t);
    case Resize(_) => reply, e := DoSetattr(node, op, now, t);
    case Touch(_) => reply, e := DoSetattr(node, op, now, t);
    case Stat => reply, e := DoLook(node, op, now, t);
    case ReadDir(_, _) => reply, e := DoLook(node, op, now, t);
  }

  lemma SlipsAnyway(node: Node, e: Event)
    ensures forall clean :: Slips(clean, node, e) ==> Slips(false, node, e)
  {
  }

  lemma ExplainedParts(file: seq<Byte>, t: Trust, e: Event, node: Node)
    ensures Explained(file, t, e, node) <==>
              && Right(file, node.Stands(), t, e) && node.File() == After(file, e)
              && Trusted(node, TrustAfter(file, t, e))
              && e.stored == Content(node.fs.provider.files, node.path) && e.durable == Durable(node)
  {
  }

  lemma NothingHappened(file: seq<Byte>, standing: Standing, t: Trust)
    ensures Explains(file, standing, t, []) && Final(file, []) == file && FinalTrust(file, t, []) == t
    ensures Bill(file, standing, t, []) == 0
  {
  }

  lemma SameFiles(before: map<string, File>, after: map<string, File>, path: string)
    requires OnlyChanges(before, after, path)
    ensures after.Keys == before.Keys
  {
  }

  /**
   * Any history of one node, whatever calls fail and whatever the budget refuses: its replies are those of a flat file
   * that every write, or the applied prefix of a failed one, and every truncation acts on directly; the last event
   * tells what the provider holds; and every failure on an existing file is paid for by a failing call of its own.
   */
  method Run(node: Node, ops: seq<(Op, int)>) returns (replies: seq<Reply>, ghost events: seq<Event>)
    requires node.Valid()
    modifies node`writeBlocks, node`writeMtime, node.fs.budget, node.fs.cache, node.fs.dataCache
    modifies node.fs.provider`files, node.fs.provider`script, node.fs.provider`writes
    ensures |replies| == |events| == |ops|
    ensures forall i :: 0 <= i < |ops| ==> events[i].op == ops[i].0 && events[i].reply == replies[i]
    ensures Explains(old(node.File()), node.Stands(), Trust(old(node.Coherent()), old(node.SizeKnown())), events)
    ensures node.Stands() == old(node.Stands())
    ensures node.Valid() && node.File() == Final(old(node.File()), events)
    ensures Trusted(node, FinalTrust(old(node.File()), Trust(old(node.Coherent()), old(node.SizeKnown())), events))
    ensures events != [] ==>
              && events[|events| - 1].stored == Content(node.fs.provider.files, node.path)
              && events[|events| - 1].durable == Durable(node) && Slips(false, node, events[|events| - 1])
    ensures node.fs.budget.held - |node.writeBlocks| == old(node.fs.budget.held - |node.writeBlocks|)
    ensures Faults(node.fs.provider.script)
          + Bill(old(node.File()), node.Stands(), Trust(old(node.Coherent()), old(node.SizeKnown())), events)
         <= Faults(old(node.fs.provider.script))
  {
    hide Node.Valid, Node.File, Node.Coherent, Node.SizeKnown, Explains, Final, FinalTrust, Explained, Bill, Costly,
         OnlyChanges, Slips;
    ghost var file, t, standing := node.File(), Trust(node.Coherent(), node.SizeKnown()), node.Stands();
    replies, events := [], [];
    NothingHappened(file, standing, t);
    for i := 0 to |ops|
      invariant |replies| == |events| == i
      invariant forall j :: 0 <= j < i ==> events[j].op == ops[j].0 && events[j].reply == replies[j]
      invariant Explains(file, standing, t, events) && standing == node.Stands()
      invariant node.Valid() && node.File() == Final(file, events) && Trusted(node, FinalTrust(file, t, events))
      invariant events != [] ==>
                  && events[|events| - 1].stored == Content(node.fs.provider.files, node.path)
                  && events[|events| - 1].durable == Durable(node) && Slips(false, node, events[|events| - 1])
      invariant node.fs.budget.held - |node.writeBlocks| == old(node.fs.budget.held - |node.writeBlocks|)
      invariant Faults(node.fs.provider.script) + Bill(file, standing, t, events)
             <= Faults(old(node.fs.provider.script))
    {
      var reply;
      ghost var e;
      ghost var now, trust, files := node.File(), FinalTrust(file, t, events), node.fs.provider.files;
      reply, e := Do(node, ops[i].0, ops[i].1, trust);
      SameFiles(files, node.fs.provider.files, node.path);
      ExplainedParts(now, trust, e, node);
      SlipsAnyway(node, e);
      ExplainsNext(file, standing, t, events, e);
      replies, events := replies + [reply], events + [e];
    }
  }

  /** How many bytes of a write came into the file. */
  function Landed(e: Event): nat
    requires e.op.Write?
  {
    if e.applied < |e.op.data| then e.applied else |e.op.data|
  }

  /** The byte that was put at a position last: by a write that covers it, or by a cut below it, which makes it zero. */
  function Latest(file: seq<Byte>, events: seq<Event>, p: nat): Byte {
    if events == [] then (if p < |file| then file[p] else 0)
    else
      var front, e := events[..|events| - 1], events[|events| - 1];
      if e.op.Write? && e.op.offset <= p < e.op.offset + Landed(e) then e.op.data[p - e.op.offset]
      else if e.op.Resize? && (e.reply.Done? || e.slipped) && e.op.size <= p then 0
      else Latest(file, front, p)
  }

  /** Where the file ends: at the end of the longest write since the last cut or extension, or where that put it. */
  function Extent(file: seq<Byte>, events: seq<Event>): nat {
    if events == [] then |file|
    else
      var before, e := Extent(file, events[..|events| - 1]), events[|events| - 1];
      if e.op.Write? && Landed(e) > 0 && before < e.op.offset + Landed(e) then e.op.offset + Landed(e)
      else if e.op.Resize? && (e.reply.Done? || e.slipped) then e.op.size
      else before
  }

  /** The flat file of a history is, byte by byte, what was put there last. */
  lemma {:induction false} FinalIsLatest(file: seq<Byte>, events: seq<Event>)
    ensures |Final(file, events)| == Extent(file, events)
    ensures forall p: nat :: p < |Final(file, events)| ==> Final(file, events)[p] == Latest(file, events, p)
    ensures forall p: nat :: p >= |Final(file, events)| ==> Latest(file, events, p) == 0
  {
    if events != [] {
      var front, e := events[..|events| - 1], events[|events| - 1];
      FinalIsLatest(file, front);
      AfterBytes(Final(file, front), e);
    }
  }

  /** One event, byte by byte. */
  lemma AfterBytes(file: seq<Byte>, e: Event)
    ensures var after := After(file, e);
            if e.op.Write? then
              && |after| == (if Landed(e) > 0 && |file| < e.op.offset + Landed(e) then e.op.offset + Landed(e)
                             else |file|)
              && forall p: nat :: p < |after| ==>
                   after[p] == if e.op.offset <= p < e.op.offset + Landed(e) then e.op.data[p - e.op.offset]
                               else if p < |file| then file[p] else 0
            else if e.op.Resize? && (e.reply.Done? || e.slipped) then Resized(file, e.op.size, after)
            else after == file
  {
    hide WriteAt, Truncate;
    if e.op.Write? {
      WriteAtBytes(file, e.op.offset, e.op.data[..Min(e.applied, |e.op.data|)]);
    } else if e.op.Resize? {
      TruncateBytes(file, e.op.size);
    }
  }

  /** While nothing slips, the caches can be relied on throughout. */
  lemma {:induction false} TrustStays(file: seq<Byte>, events: seq<Event>)
    requires forall i :: 0 <= i < |events| ==> !events[i].slipped
    ensures FinalTrust(file, Trust(true, true), events) == Trust(true, true)
  {
    if events != [] {
      TrustStays(file, events[..|events| - 1]);
    }
  }

  /**
   * Every reply of a history in which nothing slipped, told by what was put where last: a read returns the bytes from
   * its offset on up to its size or the end of the file, a look the end of the file, and after a flush the provider has
   * all of it.
   */
  lemma RepliesAreLatest(file: seq<Byte>, standing: Standing, events: seq<Event>, i: nat)
    requires Explains(file, standing, Trust(true, true), events) && i < |events|
    requires forall j :: 0 <= j < i ==> !events[j].slipped
    ensures var past, e := events[..i], events[i];
            var end := Extent(file, past);
            && (e.op.Read? && e.reply.Data? ==>
                  && |e.reply.data| == (if end <= e.op.offset then 0
                                        else if end < e.op.offset + e.op.size then end - e.op.offset else e.op.size)
                  && forall j :: 0 <= j < |e.reply.data| ==> e.reply.data[j] == Latest(file, past, e.op.offset + j))
            && (e.op.Stat? && e.reply.Size? && standing == Regular ==> e.reply.size == end)
            && ((e.op.Flush? || e.op.Fsync?) && e.reply.Done? ==>
                  |e.stored| == end && forall p: nat :: p < end ==> e.stored[p] == Latest(file, past, p))
  {
    hide Slice, Final, Latest, Extent;
    var past, e := events[..i], events[i];
    TrustStays(file, past);
    FinalIsLatest(file, past);
    assert Right(Final(file, past), standing, FinalTrust(file, Trust(true, true), past), e);
    if e.op.Read? {
      SliceBytes(Final(file, past), e.op.offset, e.op.size);
    }
  }

  /**
   * A read right after a cut or extension that came through: the old bytes below both lengths, zeros above the old one,
   * and nothing beyond the new one.
   */
  lemma ReadAfterResize(file: seq<Byte>, standing: Standing, t: Trust, events: seq<Event>, i: nat)
    requires Explains(file, standing, t, events) && i + 1 < |events|
    requires events[i].op.Resize? && events[i].reply.Done? && events[i + 1].op.Read? && events[i + 1].reply.Data?
    ensures var before, size := Final(file, events[..i]), events[i].op.size;
            var offset, data := events[i + 1].op.offset, events[i + 1].reply.data;
            && |data| == (if size <= offset then 0
                          else if size < offset + events[i + 1].op.size then size - offset else events[i + 1].op.size)
            && forall j :: 0 <= j < |data| ==> data[j] == if offset + j < |before| then before[offset + j] else 0
  {
    hide Slice, Truncate;
    assert events[..i + 1][..i] == events[..i];
    assert Right(Final(file, events[..i + 1]), standing, FinalTrust(file, t, events[..i + 1]), events[i + 1]);
    TruncateBytes(Final(file, events[..i]), events[i].op.size);
    SliceBytes(Final(file, events[..i + 1]), events[i + 1].op.offset, events[i + 1].op.size);
  }

  /** A truncation whose reply is lost leaves a cached block that no longer is the file's. */
  lemma LostTruncationExample(path: string)
    ensures var blocks := map[Blocks.Key(path, 0) := Stamped([7], 10, 1)];
            BlocksAgree(blocks, path, [7]) && !BlocksAgree(blocks, path, Truncate([7], 0)) && Spoils(blocks, path, 1, 0)
  {
  }

  /**
   * A write across a block border on an empty file, with all units of the budget taken: both chunks are sent directly,
   * the first caches the size it left, and the reply to the second is lost. The cached size is now wrong.
   */
  method FailedDirectWriteExample() returns (node: Node)
    ensures node.Valid() && !node.SizeKnown()
    ensures Reports(node.fs.cache.entries, node.path, BLOCK_SIZE) && |node.File()| == BLOCK_SIZE + 1
  {
    hide Node.Valid, Node.File, Node.SizeKnown, WriteAt, Aside, Reports, SizeSafe, OnlyChanges, NoBlocks, Faults;
    node := FullMount(map["f" := File([], [], 0, 0)], [Outcome(Succeed, 0, map[]), Outcome(FailReply, 0, map[])], "f");
    EmptyFile(node);
    var sent, failed;
    ghost var applied;
    WriteAtShape(node.File(), BLOCK_SIZE - 1, [8]);
    assert [8][..1] == [8 as Byte];
    ghost var files := node.fs.provider.files;
    sent, applied := node.DirectWrite(BLOCK_SIZE - 1, [8], 0);
    SameFiles(files, node.fs.provider.files, node.path);
    WriteAtShape(node.File(), BLOCK_SIZE, [9]);
    assert [9][..1] == [9 as Byte];
    files := node.fs.provider.files;
    failed, applied := node.DirectWrite(BLOCK_SIZE, [9], 0);
    SameFiles(files, node.fs.provider.files, node.path);
    WrongSize(node, BLOCK_SIZE);
  }

  lemma EmptyFile(node: Node)
    requires node.writeBlocks == map[] && node.path in node.fs.provider.files
    requires node.fs.provider.files[node.path].content == []
    ensures node.File() == []
  {
    Overlay.NothingPending([]);
  }

  lemma WrongSize(node: Node, size: nat)
    requires node.writeBlocks == map[] && Reports(node.fs.cache.entries, node.path, size) && size != |node.File()|
    requires node.path in node.fs.provider.files
    ensures !node.SizeKnown()
  {
    Overlay.NothingPending([]);
  }

  /** A node over some files, while other nodes hold all units of the budget. */
  method FullMount(files: map<string, File>, script: seq<Outcome>, path: string) returns (node: Node)
    requires Paths.Parent(path) != "."
    ensures node.Valid() && node.path == path && node.writeBlocks == map[] && node.fs.cache.capacity == 1
    ensures node.fs.provider.files == files && node.fs.provider.dirs == {} && node.fs.provider.script == script
    ensures node.fs.budget.held == MAX_TOTAL_BLOCKS
    ensures fresh(node) && fresh(node.fs.provider) && fresh(node.fs.cache) && fresh(node.fs.dataCache)
    ensures fresh(node.fs.budget)
  {
    var provider := new FileService(files, {}, script);
    var budget := new WriteBudget();
    while budget.held < MAX_TOTAL_BLOCKS
      invariant budget.held <= MAX_TOTAL_BLOCKS
      modifies budget
      decreases MAX_TOTAL_BLOCKS - budget.held
    {
      var ok := budget.TryAcquire();
    }
    var cache := new Meta.Cache(1, 10);
    var dataCache := new Blocks.ReadBlockCache(1, 10);
    var fs := new RemoteFS(provider, cache, dataCache, budget);
    node := new Node(fs, path);
  }
}
