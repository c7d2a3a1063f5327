/**
 * One file behind the mount: write-back, flush, read, sync (pkg/agent/filesystem/write_linux.go and nodes_linux.go).
 */
module RemoteNode {
  import opened Files
  import opened WriteBuffer
  import opened Overlay
  import opened Paths
  import opened Provider
  import Meta = MetadataCache
  import Blocks = BlockCache

  const MAX_PENDING_BLOCKS: nat := 8
  const MAX_TOTAL_BLOCKS: nat := 128

  /** The semaphore that bounds the memory of all nodes together; nobody ever waits on it. */
  class WriteBudget {
    var held: nat

    constructor ()
      ensures held == 0
    {
      held := 0;
    }

    method TryAcquire() returns (ok: bool)
      modifies this
      ensures ok == (old(held) < MAX_TOTAL_BLOCKS)
      ensures held == if ok then old(held) + 1 else old(held)
    {
      ok := held < MAX_TOTAL_BLOCKS;
      if ok {
        held := held + 1;
      }
    }

    /** Releasing more than is held panics in the source. */
    method Release()
      requires held >= 1
      modifies this
      ensures held == old(held) - 1
    {
      held := held - 1;
    }
  }

  /** sort.Slice over the keys of the block map. */
  method SortedOffsets(keys: set<nat>) returns (r: seq<nat>)
    ensures forall i, j :: 0 <= i < j < |r| ==> r[i] < r[j]
    ensures |r| == |keys| && forall k :: k in r <==> k in keys
  {
    r := [];
    var rest := keys;
    while rest != {}
      invariant rest <= keys && |r| + |rest| == |keys|
      invariant forall k :: k in keys <==> k in r || k in rest
      invariant forall i, k :: 0 <= i < |r| && k in rest ==> r[i] < k
      invariant forall i, j :: 0 <= i < j < |r| ==> r[i] < r[j]
    {
      var least :| least in rest;
      var unseen := rest - {least};
      while unseen != {}
        invariant unseen <= rest && least in rest
        invariant forall k :: k in rest && k !in unseen ==> least <= k
      {
        var k :| k in unseen;
        if k < least {
          least := k;
        }
        unseen := unseen - {k};
      }
      r := r + [least];
      rest := rest - {least};
    }
  }

  /** The offsets of the pending blocks, in ascending order. */
  ghost predicate Sorts(offsets: seq<nat>, pending: Pending) {
    && (forall i, j :: 0 <= i < j < |offsets| ==> offsets[i] < offsets[j])
    && |offsets| == |pending|
    && (forall o :: o in offsets ==> o in pending) && (forall o :: o in pending ==> o in offsets)
  }

  /** The number of write requests that the blocks from index j on will take. */
  ghost function Requests(pending: Pending, offsets: seq<nat>, j: nat): nat
    requires j <= |offsets| && Sorts(offsets, pending)
    decreases |offsets| - j
  {
    if j == |offsets| then 0 else |pending[offsets[j]].dirty| + Requests(pending, offsets, j + 1)
  }

  /** What is pending once the first j blocks have been flushed. */
  ghost function Rest(pending: Pending, offsets: seq<nat>, j: nat): Pending
    requires j <= |offsets|
  {
    map o | o in pending && o !in offsets[..j] :: pending[o]
  }

  lemma RestBounds(pending: Pending, offsets: seq<nat>)
    requires Sorts(offsets, pending)
    ensures Rest(pending, offsets, 0) == pending && Rest(pending, offsets, |offsets|) == map[]
  {
  }

  /** Flushing in ascending order keeps the end of what is pending until the last block is gone. */
  lemma RestNext(pending: Pending, offsets: seq<nat>, j: nat)
    requires Sound(pending) && Sorts(offsets, pending) && j < |offsets|
    ensures offsets[j] in Rest(pending, offsets, j) && Rest(pending, offsets, j)[offsets[j]] == pending[offsets[j]]
    ensures Rest(pending, offsets, j) - {offsets[j]} == Rest(pending, offsets, j + 1)
    ensures Sound(Rest(pending, offsets, j)) && Sound(Rest(pending, offsets, j + 1))
    ensures j + 1 < |offsets| ==> End(Rest(pending, offsets, j + 1)) == End(Rest(pending, offsets, j))
  {
    assert offsets[..j + 1] == offsets[..j] + [offsets[j]];
    if j + 1 < |offsets| {
      EndAfterDrop(Rest(pending, offsets, j), offsets[j], offsets[j + 1]);
    }
  }

  lemma SortsKeys(offsets: seq<nat>, pending: Pending)
    requires forall i, j :: 0 <= i < j < |offsets| ==> offsets[i] < offsets[j]
    requires |offsets| == |pending.Keys| && forall o :: o in offsets <==> o in pending.Keys
    ensures Sorts(offsets, pending) && (pending == map[] <==> offsets == [])
  {
  }

  lemma RequestsNext(pending: Pending, offsets: seq<nat>, j: nat)
    requires Sorts(offsets, pending) && j < |offsets|
    ensures offsets[j] in pending
    ensures Requests(pending, offsets, j) == |pending[offsets[j]].dirty| + Requests(pending, offsets, j + 1)
  {
  }

  lemma RequestsDone(pending: Pending, offsets: seq<nat>)
    requires Sorts(offsets, pending)
    ensures Requests(pending, offsets, |offsets|) == 0
  {
  }

  /** The request that sends range k of the block at o. */
  ghost function RangeRequest(path: string, o: nat, block: Block, k: nat, touch: Option<int>, sync: bool): WriteRequest
    requires k < |block.dirty| && block.dirty[k].start <= block.dirty[k].end <= |block.data|
  {
    WriteRequest(path, o + block.dirty[k].start, block.data[block.dirty[k].start..block.dirty[k].end], touch, sync)
  }

  lemma SliceFront(data: seq<Byte>, start: nat, end: nat, n: nat)
    requires start <= end <= |data| && n <= end - start
    ensures data[start..end][..n] == data[start..start + n]
  {
  }

  /** Whatever becomes of one flush request, the logical file stays as it is. */
  lemma SendKeepsLogical(file: File, pending: Pending, path: string, o: nat, k: nat, touch: Option<int>, sync: bool,
                         outcome: Outcome)
    requires Sound(pending) && o in pending && k < |pending[o].dirty|
    ensures var request := RangeRequest(path, o, pending[o], k, touch, sync);
            Logical(Written(file, request, outcome).content, pending) == Logical(file.content, pending)
  {
    var r := pending[o].dirty[k];
    var n := Applied(outcome.fate, r.end - r.start);
    SliceFront(pending[o].data, r.start, r.end, n);
    OverlaySent(file.content, pending, o, k, n);
  }

  lemma SendStores(file: File, path: string, o: nat, block: Block, k: nat, touch: Option<int>, sync: bool,
                   outcome: Outcome)
    requires WellFormed(block) && k < |block.dirty| && Stored(file.content, o, block, k) && outcome.fate.Succeed?
    ensures Stored(Written(file, RangeRequest(path, o, block, k, touch, sync), outcome).content, o, block, k + 1)
    ensures |Written(file, RangeRequest(path, o, block, k, touch, sync), outcome).content| >= |file.content|
  {
    var r := block.dirty[k];
    var bytes := block.data[r.start..r.end];
    StoredNext(file.content, o, block, k);
    assert bytes[..|bytes|] == bytes;
    WriteAtShape(file.content, o + r.start, bytes);
  }

  /** The inner loop of pendingAttr. */
  method BlockSize(o: nat, block: Block, size: nat) returns (r: nat)
    requires WellFormed(block)
    ensures r == Max(size, BlockEnd(o, block))
  {
    r := size;
    for k := 0 to |block.dirty|
      invariant r == if k == 0 then size else Max(size, o + block.dirty[k - 1].end)
    {
      var end := o + block.dirty[k].end;
      if end > r {
        r := end;
      }
    }
  }

  /** pendingAttr: the size to report is the source's size or the end of the last pending range, whichever is larger. */
  method PendingSize(pending: Pending, size: nat) returns (r: nat)
    requires Sound(pending)
    ensures r == Max(size, End(pending))
  {
    r := size;
    var unseen := pending.Keys;
    while unseen != {}
      invariant unseen <= pending.Keys && size <= r <= Max(size, End(pending))
      invariant forall o :: o in pending && o !in unseen ==> BlockEnd(o, pending[o]) <= r
    {
      var o :| o in unseen;
      BlockEndDirty(pending, o);
      r := BlockSize(o, pending[o], r);
      unseen := unseen - {o};
    }
    if End(pending) > 0 {
      DirtyBelowBlockEnd(pending, End(pending) - 1);
    }
  }

  /** A remote call on one path leaves every other file alone and neither creates nor removes any. */
  ghost predicate OnlyChanges(before: map<string, File>, after: map<string, File>, path: string) {
    if path in before then path in after && after == before[path := after[path]] else after == before
  }

  /** Sync and the deferred modification time ride on the last of a flush's requests and on no other. */
  ghost predicate Riding(writes: seq<WriteRequest>, first: nat, total: nat, touch: Option<int>, sync: bool) {
    forall m :: first <= m < |writes| ==>
      && writes[m].sync == (sync && m == first + total - 1)
      && writes[m].touch == (if m == first + total - 1 then touch else None)
  }

  /** What one flush request does, apart from the bytes: its flags, and what a good reply proves. */
  ghost predicate Sent(files: map<string, File>, writes: seq<WriteRequest>, path: string, touch: Option<int>,
                       sync: bool,
                       attr: Option<Meta.FileAttr>, files': map<string, File>, writes': seq<WriteRequest>) {
    && OnlyChanges(files, files', path)
    && |writes'| == |writes| + 1 && writes <= writes'
    && writes'[|writes|].touch == touch && writes'[|writes|].sync == sync
    && (attr.Some? ==>
          && path in files' && attr.value.size == |files'[path].content| >= |Content(files, path)|
          && (sync ==> files'[path].durable == files'[path].content)
          && (touch.Some? ==> files'[path].mtime == touch.value))
  }

  /** The part of a flush that all its loops share: `remaining` of `total` requests are still to be sent. */
  datatype Flush = Flush(start: map<string, File>, path: string, first: nat, total: nat, touch: Option<int>, sync: bool)

  ghost predicate Sending(f: Flush, remaining: int, latest: Option<Meta.FileAttr>, files: map<string, File>,
                          writes: seq<WriteRequest>) {
    && 0 <= remaining <= f.total
    && OnlyChanges(f.start, files, f.path)
    && |writes| == f.first + f.total - remaining && Riding(writes, f.first, f.total, f.touch, f.sync)
    && (latest.Some? ==> latest.value.size == |Content(files, f.path)|)
    && (remaining < f.total ==> latest.Some? && f.path in files)
    && (remaining == 0 < f.total && f.path in files ==>
          && (f.sync ==> files[f.path].durable == files[f.path].content)
          && (f.touch.Some? ==> files[f.path].mtime == f.touch.value))
  }

  /** A flush that stopped: other files untouched, flags where they belong. */
  ghost predicate Stopped(f: Flush, files: map<string, File>, writes: seq<WriteRequest>) {
    OnlyChanges(f.start, files, f.path) && Riding(writes, f.first, f.total, f.touch, f.sync)
  }

  /** The attribute kept over a flush: the largest size and time seen. */
  function Newest(latest: Option<Meta.FileAttr>, attr: Meta.FileAttr): Meta.FileAttr {
    if latest.None? then attr
    else
      latest.value.(size := Max(latest.value.size, attr.size) as nat,
                    modTime := Max(latest.value.modTime, attr.modTime))
  }

  lemma SendingStart(f: Flush)
    ensures forall writes :: |writes| == f.first ==> Sending(f, f.total, None, f.start, writes)
  {
  }

  lemma SendingNext(f: Flush, remaining: nat, latest: Option<Meta.FileAttr>, files: map<string, File>,
                    writes: seq<WriteRequest>,
                    attr: Option<Meta.FileAttr>, files': map<string, File>, writes': seq<WriteRequest>)
    requires Sending(f, remaining, latest, files, writes) && remaining > 0
    requires Sent(files, writes, f.path, if remaining == 1 then f.touch else None, remaining == 1 && f.sync,
                  attr, files', writes')
    ensures Stopped(f, files', writes')
    ensures attr.Some? ==> Sending(f, remaining - 1, Some(Newest(latest, attr.value)), files', writes')
  {
  }

  /** What is at a path, and how long it is. */
  datatype Fact = Fact(standing: Standing, length: nat)

  function FactOf(files: map<string, File>, dirs: set<string>, path: string): Fact {
    Fact(StandingOf(files.Keys, dirs, path), |Content(files, path)|)
  }

  /** A size that may be reported of it: the length of a file, any number for a directory, none where nothing is. */
  predicate Tells(fact: Fact, size: int) {
    match fact.standing
    case Absent => false
    case Directory => true
    case Regular => size == fact.length
  }

  /** The size some cached entry would report for a path: its own attribute, or its parent's listing. */
  ghost predicate Reports(entries: Meta.Entries, path: string, size: nat) {
    || (Meta.KeyOf(Meta.Attr, path) in entries && entries[Meta.KeyOf(Meta.Attr, path)].value.attr.Some?
        && entries[Meta.KeyOf(Meta.Attr, path)].value.attr.value.size == size)
    || (var (parent, name) := ParentAndName(path);
        && Meta.KeyOf(Meta.Dir, parent) in entries && entries[Meta.KeyOf(Meta.Dir, parent)].value.dirAttrs.Some?
        && name in entries[Meta.KeyOf(Meta.Dir, parent)].value.dirAttrs.value
        && entries[Meta.KeyOf(Meta.Dir, parent)].value.dirAttrs.value[name].size == size)
  }

  /**
   * Some cached entry would deny that the path exists: a negative entry, or, but for the root, a listing of its parent
   * without it.
   */
  ghost predicate Denies(entries: Meta.Entries, path: string) {
    || (Meta.KeyOf(Meta.Missing, path) in entries && entries[Meta.KeyOf(Meta.Missing, path)].value.missing)
    || (var (parent, name) := ParentAndName(path);
        && path != "" && Meta.KeyOf(Meta.Dir, parent) in entries
        && entries[Meta.KeyOf(Meta.Dir, parent)].value.dirAttrs.Some?
        && name !in entries[Meta.KeyOf(Meta.Dir, parent)].value.dirAttrs.value)
  }

  /**
   * What the cache says about a path is right: what exists is not denied, what does not is not reported, and the size
   * of a file is its length once what is pending is counted in.
   */
  ghost predicate Knows(entries: Meta.Entries, path: string, fact: Fact, end: nat) {
    && (fact.standing != Absent ==> !Denies(entries, path))
    && forall size: nat :: Reports(entries, path, size) ==> Tells(fact, Max(size, end))
  }

  /** No block of the path is stored. */
  ghost predicate NoBlocks(entries: Blocks.Entries, path: string) {
    forall key :: key in entries ==> key.path != path
  }

  /** Every stored block of the path is the provider's current block. */
  ghost predicate BlocksAgree(entries: Blocks.Entries, path: string, content: seq<Byte>) {
    forall key :: key in entries && key.path == path ==> entries[key].value == BlockOf(content, key.offset)
  }

  /** What is cached about other paths than the one at hand only shrinks. */
  ghost predicate Aside(cache: Meta.Entries, blocks: Blocks.Entries, path: string, cache': Meta.Entries,
                        blocks': Blocks.Entries) {
    NewsAside(cache, path, cache') && BlocksAside(blocks, path, blocks')
  }

  ghost predicate NewsAside(cache: Meta.Entries, path: string, cache': Meta.Entries) {
    && (forall p, size :: p != path && Reports(cache', p, size) ==> Reports(cache, p, size))
    && (forall p :: p != path && Denies(cache', p) ==> Denies(cache, p))
  }

  ghost predicate BlocksAside(blocks: Blocks.Entries, path: string, blocks': Blocks.Entries) {
    forall key :: key in blocks' && key.path != path ==> key in blocks && blocks'[key].value == blocks[key].value
  }

  lemma AsideTrans(cache: Meta.Entries, blocks: Blocks.Entries, path: string)
    ensures Aside(cache, blocks, path, cache, blocks) && NewsAside(cache, path, cache)
    ensures forall c, b, c', b' :: Aside(cache, blocks, path, c, b) && Aside(c, b, path, c', b') ==>
              Aside(cache, blocks, path, c', b')
    ensures forall c, c' :: NewsAside(cache, path, c) && NewsAside(c, path, c') ==> NewsAside(cache, path, c')
  {
    hide Reports, Denies;
  }

  lemma AsideParts(cache: Meta.Entries, blocks: Blocks.Entries, path: string, cache': Meta.Entries,
                   blocks': Blocks.Entries)
    ensures Aside(cache, blocks, path, cache', blocks') <==>
              NewsAside(cache, path, cache') && BlocksAside(blocks, path, blocks')
    ensures BlocksAside(blocks, path, blocks)
  {
  }

  /** Lookups, and stores about the path itself, tell nothing about other paths. */
  lemma StepAside(before: Meta.Entries, op: Meta.Op, path: string, after: Meta.Entries)
    requires Meta.Step(before, op, after) && !op.PutDir?
    requires op.PutAttr? || op.PutMissing? || op.PutLink? ==> op.path == path
    ensures NewsAside(before, path, after)
  {
    hide Meta.Swept, Meta.KeyOf;
    SweptLess(before, if op.Change? then op.path else "");
    forall k, p, l, q | Meta.KeyOf(k, p) == Meta.KeyOf(l, q) ensures k == l && p == q {
      Meta.KeyInjective(k, p, l, q);
    }
  }

  lemma SweptLess(entries: Meta.Entries, path: string)
    ensures forall key :: key in Meta.Swept(entries, path) ==>
              key in entries && Meta.Swept(entries, path)[key] == entries[key]
  {
  }

  lemma BlocksInvalidated(s: Blocks.State, path: string)
    ensures BlocksAside(s.entries, path, Blocks.Invalidate(s, path).entries)
    ensures NoBlocks(Blocks.Invalidate(s, path).entries, path)
    ensures Blocks.Invalidate(s, path).flights == s.flights
  {
  }

  lemma StepIsSwept(before: Meta.Entries, path: string, after: Meta.Entries)
    ensures Meta.Step(before, Meta.Change(path), after) <==> after == Meta.Swept(before, path)
  {
  }

  lemma LearnedOne(before: Meta.Entries, path: string, size: nat, after: Meta.Entries)
    requires Learned(before, path, Fact(Regular, size), after)
    requires !Denies(before, path) && forall n :: !Reports(before, path, n)
    ensures !Denies(after, path) && forall n :: Reports(after, path, n) ==> n == size
  {
  }

  lemma CacheKeyed(cache: Meta.Cache)
    ensures cache.Valid() ==> Meta.WellKeyed(cache.entries)
  {
  }

  lemma SweptReports(entries: Meta.Entries, path: string)
    requires Meta.WellKeyed(entries) && Parent(path) != "."
    ensures !Denies(Meta.Swept(entries, path), path) && forall size :: !Reports(Meta.Swept(entries, path), path, size)
  {
    Meta.ChangeSilences(entries, path, path);
  }

  lemma PutReports(before: Meta.Entries, path: string, attr: Meta.FileAttr, after: Meta.Entries)
    requires Meta.Step(before, Meta.PutAttr(path, attr), after)
    ensures Learned(before, path, Fact(Regular, attr.size), after)
    ensures forall fact :: Tells(fact, attr.size) ==> Learned(before, path, fact, after)
    ensures Meta.KeyOf(Meta.Attr, path) in after ==> Reports(after, path, attr.size)
  {
  }

  /** Attributes that a lookup may return: those cached, or else, of a file, those the provider has now. */
  ghost predicate Sourced(entries: Meta.Entries, path: string, now: int, files: map<string, File>,
                          attr: Meta.FileAttr) {
    var cached := Meta.AttrAnswer(entries, path, now);
    if cached.Some? then attr == cached.value
    else path in files ==> attr == Meta.FileAttr(files[path].mode, |files[path].content|, files[path].mtime)
  }

  lemma SourcedParts(entries: Meta.Entries, path: string, now: int, files: map<string, File>)
    ensures Meta.AttrAnswer(entries, path, now).Some? ==>
              Sourced(entries, path, now, files, Meta.AttrAnswer(entries, path, now).value)
    ensures Meta.AttrAnswer(entries, path, now).None? && path in files ==>
              Sourced(entries, path, now, files, AttrOf(files[path]))
    ensures Meta.AttrAnswer(entries, path, now).None? && path !in files ==>
              forall attr :: Sourced(entries, path, now, files, attr)
  {
  }

  /** The parts of the mounted file system that all nodes share. */
  class RemoteFS {
    const provider: FileService
    const cache: Meta.Cache
    const dataCache: Blocks.ReadBlockCache
    const budget: WriteBudget

    constructor (provider: FileService, cache: Meta.Cache, dataCache: Blocks.ReadBlockCache, budget: WriteBudget)
      ensures this.provider == provider && this.cache == cache && this.dataCache == dataCache && this.budget == budget
    {
      this.provider, this.cache, this.dataCache, this.budget := provider, cache, dataCache, budget;
    }

    /** invalidateChange: both caches forget the path and what lies below it. */
    method InvalidateChange(path: string)
      requires cache.Valid() && dataCache.Valid() && Parent(path) != "."
      modifies cache, dataCache
      ensures cache.Valid() && dataCache.Valid()
      ensures Meta.Step(old(cache.entries), Meta.Change(path), cache.entries)
      ensures dataCache.Value() == Blocks.Invalidate(old(dataCache.Value()), path)
      ensures !Denies(cache.entries, path) && (forall size :: !Reports(cache.entries, path, size))
      ensures NoBlocks(dataCache.entries, path)
      ensures dataCache.flights == old(dataCache.flights)
      ensures Aside(old(cache.entries), old(dataCache.entries), path, cache.entries, dataCache.entries)
    {
      hide *;
      ghost var entries, blocks := cache.entries, dataCache.Value();
      CacheKeyed(cache);
      SweptReports(cache.entries, path);
      StateParts(dataCache);
      cache.InvalidateChange(path);
      dataCache.InvalidatePath(path);
      StepIsSwept(entries, path, cache.entries);
      StepAside(entries, Meta.Change(path), path, cache.entries);
      BlocksInvalidated(blocks, path);
      StateParts(dataCache);
      AsideParts(entries, blocks.entries, path, cache.entries, dataCache.entries);
    }

    /** updateChangedAttr: forget, then remember the attribute that came with the reply. */
    method UpdateChangedAttr(path: string, attr: Option<Meta.FileAttr>, now: int)
      requires cache.Valid() && dataCache.Valid() && Parent(path) != "."
      modifies cache, dataCache
      ensures cache.Valid() && dataCache.Valid()
      ensures !Denies(cache.entries, path)
      ensures forall size :: Reports(cache.entries, path, size) ==> attr.Some? && size == attr.value.size
      ensures NoBlocks(dataCache.entries, path) && dataCache.flights == old(dataCache.flights)
      ensures dataCache.Value() == Blocks.Invalidate(old(dataCache.Value()), path)
      ensures if attr.None? then cache.entries == Meta.Swept(old(cache.entries), path)
              else Meta.Step(Meta.Swept(old(cache.entries), path), Meta.PutAttr(path, attr.value), cache.entries)
      ensures attr.Some? && cache.capacity >= 1 ==> Reports(cache.entries, path, attr.value.size)
      ensures Aside(old(cache.entries), old(dataCache.entries), path, cache.entries, dataCache.entries)
    {
      hide *;
      ghost var entries, blocks := cache.entries, dataCache.entries;
      StepIsSwept(entries, path, Meta.Swept(entries, path));
      InvalidateChange(path);
      StepIsSwept(entries, path, cache.entries);
      ghost var swept := cache.entries;
      cache.PutAttrOf(path, attr, now);
      if attr.Some? {
        PutReports(swept, path, attr.value, cache.entries);
        LearnedOne(swept, path, attr.value.size, cache.entries);
        StepAside(swept, Meta.PutAttr(path, attr.value), path, cache.entries);
      }
      AsideTrans(entries, blocks, path);
      AsideTrans(swept, blocks, path);
      AsideParts(entries, blocks, path, swept, dataCache.entries);
      AsideParts(entries, blocks, path, cache.entries, dataCache.entries);
    }

    /** The part of Attr before pendingAttr: from the cache, from a negative entry, or from the provider. */
    method FetchAttr(path: string, now: int) returns (attr: Option<Meta.FileAttr>)
      requires cache.Valid()
      modifies provider`script, cache
      ensures cache.Valid()
      ensures Learned(old(cache.entries), path, FactOf(provider.files, provider.dirs, path), cache.entries)
      ensures attr.Some? ==>
                || Reports(old(cache.entries), path, attr.value.size)
                || Tells(FactOf(provider.files, provider.dirs, path), attr.value.size)
      ensures Faults(provider.script) <= Faults(old(provider.script))
      ensures attr.None? && FactOf(provider.files, provider.dirs, path).standing != Absent ==>
                Denies(old(cache.entries), path) || Faults(provider.script) < Faults(old(provider.script))
      ensures attr.Some? ==> Sourced(old(cache.entries), path, now, provider.files, attr.value)
      ensures attr.Some? && cache.capacity >= 1 ==> Reports(cache.entries, path, attr.value.size)
      ensures Aside(old(cache.entries), old(dataCache.entries), path, cache.entries, dataCache.entries)
    {
      hide *;
      SourcedParts(cache.entries, path, now, provider.files);
      ghost var start, fact := cache.entries, FactOf(provider.files, provider.dirs, path);
      AnswerReported(start, path, now);
      attr := cache.GetAttr(path, now);
      ghost var looked := cache.entries;
      LookReports(start, path, fact, looked);
      StepAside(start, Meta.Look, path, looked);
      AsideParts(start, dataCache.entries, path, looked, dataCache.entries);
      if attr.Some? {
        AnswerKept(start, path, now, looked);
        return;
      }
      MissingDenied(looked, path, now);
      var missing := cache.IsMissing(path, now);
      ghost var asked := cache.entries;
      LookReports(looked, path, fact, asked);
      LearnedTwice(start, looked, asked, path, fact);
      StepAside(looked, Meta.Look, path, asked);
      AsideTrans(start, dataCache.entries, path);
      AsideParts(start, dataCache.entries, path, asked, dataCache.entries);
      if missing {
        DeniedBefore(start, looked, path, fact);
        return;
      }
      AttrTells(provider.files, provider.dirs, path);
      attr, missing := provider.Stat(path);
      if attr.Some? {
        cache.PutAttrOf(path, attr, now);
        PutReports(asked, path, attr.value, cache.entries);
        StepAside(asked, Meta.PutAttr(path, attr.value), path, cache.entries);
        LearnedTwice(start, asked, cache.entries, path, fact);
      } else if missing {
        cache.PutMissingOf(path, now);
        MissingReports(asked, path, fact, cache.entries);
        StepAside(asked, Meta.PutMissing(path), path, cache.entries);
        LearnedTwice(start, asked, cache.entries, path, fact);
      }
      AsideParts(start, dataCache.entries, path, cache.entries, dataCache.entries);
    }

    /** The part of ReadDirAll that touches the cache, for the directory that holds the path. */
    method FetchListing(path: string, listing: seq<Meta.DirEntry>, ghost fact: Fact, now: int)
      requires cache.Valid() && CurrentIn(listing, ParentAndName(path).1, fact)
      modifies cache
      ensures cache.Valid() && Learned(old(cache.entries), path, fact, cache.entries)
    {
      hide *;
      ghost var start := cache.entries;
      var cached := cache.GetDir(Parent(path), now);
      ghost var looked := cache.entries;
      LookReports(start, path, fact, looked);
      if cached.None? {
        cache.PutDirOf(Parent(path), listing, now);
        ListingReports(looked, path, listing, fact, cache.entries);
        LearnedTwice(start, looked, cache.entries, path, fact);
      }
    }
  }

  class Node {
    const fs: RemoteFS
    var path: string
    var writeBlocks: Pending
    var writeMtime: Option<int>

    constructor (fs: RemoteFS, path: string)
      ensures this.fs == fs && this.path == path && writeBlocks == map[] && writeMtime == None
    {
      this.fs, this.path, this.writeBlocks, this.writeMtime := fs, path, map[], None;
    }

    /** The write buffer on its own: well-formed blocks, at most eight of them. */
    ghost predicate Buffered()
      reads this`writeBlocks
    {
      Sound(writeBlocks) && |writeBlocks| <= MAX_PENDING_BLOCKS
    }

    lemma BlockValue(o: nat)
      requires Buffered() && o in writeBlocks
      ensures writeBlocks[o].dirty != [] && o % BLOCK_SIZE == 0
      ensures forall k :: 0 <= k < |writeBlocks[o].dirty| ==>
                writeBlocks[o].dirty[k].start < writeBlocks[o].dirty[k].end <= |writeBlocks[o].data|
    {
    }

    lemma FileValue()
      requires Buffered()
      ensures Sound(writeBlocks) && File() == Logical(Content(fs.provider.files, path), writeBlocks)
    {
    }

    /** The caches as the node finds them between operations: sound, and no load under way. */
    ghost predicate Settled()
      reads this`path, fs.cache, fs.dataCache
    {
      Parent(path) != "." && fs.cache.Valid() && fs.dataCache.Valid() && fs.dataCache.flights == map[]
    }

    /** The node and what it shares; a modification time is deferred only while blocks are pending. */
    ghost predicate Valid()
      reads this, fs.budget, fs.cache, fs.dataCache
    {
      && Buffered() && Settled()
      && (writeMtime.Some? ==> writeBlocks != map[])
      && |writeBlocks| <= fs.budget.held <= MAX_TOTAL_BLOCKS
    }

    /** Nothing cached about the path is older than the provider's current file. */
    ghost predicate Refreshed()
      reads this`path, fs.cache`entries, fs.dataCache`entries, fs.provider`files, fs.provider`dirs
    {
      && !Denies(fs.cache.entries, path)
      && (forall size: nat :: Reports(fs.cache.entries, path, size) ==>
          Tells(FactOf(fs.provider.files, fs.provider.dirs, path), size))
      && NoBlocks(fs.dataCache.entries, path)
    }

    /** What the provider has at the path. */
    ghost function Stands(): Standing
      reads this`path, fs.provider`files, fs.provider`dirs
    {
      StandingOf(fs.provider.files.Keys, fs.provider.dirs, path)
    }

    /**
     * Whatever size is cached for a file, pendingAttr turns it into the length of the logical file; and the cache
     * knows what exists.
     */
    ghost predicate SizeKnown()
      reads this`path, this`writeBlocks, fs.cache`entries, fs.provider`files, fs.provider`dirs
    {
      Sound(writeBlocks) && Knows(fs.cache.entries, path, Fact(Stands(), |File()|), End(writeBlocks))
    }

    /** The file a reader of this node must see. */
    ghost function File(): seq<Byte>
      reads this`path, this`writeBlocks, fs.provider`files
    {
      if Sound(writeBlocks) then Logical(Content(fs.provider.files, path), writeBlocks) else []
    }

    /** One write request of a flush: range k of the block at o. */
    method SendRange(o: nat, k: nat, touch: Option<int>, sync: bool) returns (attr: Option<Meta.FileAttr>)
      requires Buffered() && o in writeBlocks && k < |writeBlocks[o].dirty|
      modifies fs.provider`files, fs.provider`script, fs.provider`writes
      ensures Buffered() && File() == old(File())
      ensures Sent(old(fs.provider.files), old(fs.provider.writes), path, touch, sync, attr, fs.provider.files,
                fs.provider.writes)
      ensures attr.Some? && Stored(old(Content(fs.provider.files, path)), o, writeBlocks[o], k) ==>
                Stored(Content(fs.provider.files, path), o, writeBlocks[o], k + 1)
      ensures Faults(fs.provider.script) + (if attr.Some? || path !in fs.provider.files then 0 else 1)
                <= Faults(old(fs.provider.script))
    {
      hide Logical, Sound, Stored, Written, Applied, Sent, Content, File;
      BlockValue(o);
      FileValue();
      var block := writeBlocks[o];
      var dirty := block.dirty[k];
      var request := WriteRequest(path, o + dirty.start, block.data[dirty.start..dirty.end], touch, sync);
      ghost var files, writes := fs.provider.files, fs.provider.writes;
      ghost var outcome;
      attr, outcome := fs.provider.Write(request);
      FileValue();
      RangeSent(files, writes, path, writeBlocks, o, k, request, outcome, attr, fs.provider.files);
    }

    /** One turn of the inner loop; the last request of the flush carries sync and the deferred mtime. */
    method SendNext(o: nat, k: nat, before: nat, latest: Option<Meta.FileAttr>, syncLast: bool, ghost f: Flush)
      returns (ok: bool, newest: Option<Meta.FileAttr>)
      requires Buffered() && o in writeBlocks && k < |writeBlocks[o].dirty| && before > 0
      requires Sending(f, before, latest, fs.provider.files, fs.provider.writes)
      requires Stored(Content(fs.provider.files, path), o, writeBlocks[o], k)
      requires f.path == path && f.touch == writeMtime && f.sync == syncLast
      modifies fs.provider`files, fs.provider`script, fs.provider`writes
      ensures Buffered() && File() == old(File())
      ensures if ok then
                && Sending(f, before - 1, newest, fs.provider.files, fs.provider.writes)
                && Stored(Content(fs.provider.files, path), o, writeBlocks[o], k + 1)
              else Stopped(f, fs.provider.files, fs.provider.writes)
      ensures Faults(fs.provider.script) + (if ok || path !in fs.provider.files then 0 else 1)
                <= Faults(old(fs.provider.script))
    {
      hide *;
      ghost var files, writes := fs.provider.files, fs.provider.writes;
      var attr := SendRange(o, k, if before == 1 then writeMtime else None, before == 1 && syncLast);
      SendingNext(f, before, latest, files, writes, attr, fs.provider.files, fs.provider.writes);
      ok := attr.Some?;
      newest := if ok then Some(Newest(latest, attr.value)) else latest;
    }

    /** The inner loop of flushWritesLocked: the dirty ranges of one block, in order. */
    method SendBlock(o: nat, count: nat, before: nat, latest: Option<Meta.FileAttr>, syncLast: bool, ghost f: Flush)
      returns (ok: bool, remaining: int, newest: Option<Meta.FileAttr>)
      requires Buffered() && o in writeBlocks && count == |writeBlocks[o].dirty| <= before
      requires Sending(f, before, latest, fs.provider.files, fs.provider.writes)
      requires f.path == path && f.touch == writeMtime && f.sync == syncLast
      modifies fs.provider`files, fs.provider`script, fs.provider`writes
      ensures Buffered() && File() == old(File())
      ensures if ok then
                && remaining == before - |writeBlocks[o].dirty|
                && Sending(f, remaining, newest, fs.provider.files, fs.provider.writes)
                && Stored(Content(fs.provider.files, path), o, writeBlocks[o], |writeBlocks[o].dirty|)
              else Stopped(f, fs.provider.files, fs.provider.writes)
      ensures Faults(fs.provider.script) + (if ok || path !in fs.provider.files then 0 else 1)
                <= Faults(old(fs.provider.script))
    {
      hide *;
      NothingStored(Content(fs.provider.files, path), o, writeBlocks[o]);
      ok, remaining, newest := true, before, latest;
      for k := 0 to count
        invariant Buffered() && File() == old(File()) && ok && remaining == before - k
        invariant Sending(f, remaining, newest, fs.provider.files, fs.provider.writes)
        invariant Stored(Content(fs.provider.files, path), o, writeBlocks[o], k)
        invariant Faults(fs.provider.script) <= Faults(old(fs.provider.script))
      {
        ok, newest := SendNext(o, k, remaining, newest, syncLast, f);
        remaining := remaining - 1;
        if !ok {
          return;
        }
      }
    }

    /** One turn of the outer loop: send the block, then drop it and return its unit of the budget. */
    method FlushBlock(o: nat, before: nat, latest: Option<Meta.FileAttr>, syncLast: bool, ghost f: Flush)
      returns (ok: bool, remaining: int, newest: Option<Meta.FileAttr>)
      requires Buffered() && o in writeBlocks && |writeBlocks[o].dirty| <= before && fs.budget.held >= |writeBlocks|
      requires Sending(f, before, latest, fs.provider.files, fs.provider.writes)
      requires f.path == path && f.touch == writeMtime && f.sync == syncLast
      modifies this`writeBlocks, fs.budget
      modifies fs.provider`files, fs.provider`script, fs.provider`writes
      ensures Buffered() && File() == old(File())
      ensures if ok then
                && remaining == before - |old(writeBlocks)[o].dirty|
                && Sending(f, remaining, newest, fs.provider.files, fs.provider.writes)
              else Stopped(f, fs.provider.files, fs.provider.writes)
      ensures writeBlocks == if ok then old(writeBlocks) - {o} else old(writeBlocks)
      ensures fs.budget.held - |writeBlocks| == old(fs.budget.held - |writeBlocks|)
      ensures fs.budget.held <= old(fs.budget.held)
      ensures Faults(fs.provider.script) + (if ok || path !in fs.provider.files then 0 else 1)
                <= Faults(old(fs.provider.script))
    {
      hide Logical, Sound, Stored, Sending, Stopped;
      BlockValue(o);
      FileValue();
      ok, remaining, newest := SendBlock(o, |writeBlocks[o].dirty|, before, latest, syncLast, f);
      if ok {
        FileValue();
        OverlayDropped(Content(fs.provider.files, path), writeBlocks, o);
        DropSize(writeBlocks, o);
        writeBlocks := writeBlocks - {o};
        fs.budget.Release();
      }
    }

    /** The outer loop of flushWritesLocked, over the sorted offsets. */
    method FlushBlocks(offsets: seq<nat>, total: nat, syncLast: bool, ghost f: Flush)
      returns (ok: bool, latest: Option<Meta.FileAttr>)
      requires Buffered() && Sorts(offsets, writeBlocks) && total == Requests(writeBlocks, offsets, 0)
      requires fs.budget.held >= |writeBlocks|
      requires f == Flush(fs.provider.files, path, |fs.provider.writes|, total, writeMtime, syncLast)
      modifies this`writeBlocks, fs.budget
      modifies fs.provider`files, fs.provider`script, fs.provider`writes
      ensures Buffered() && File() == old(File())
      ensures if ok then writeBlocks == map[] && Sending(f, 0, latest, fs.provider.files, fs.provider.writes)
              else
                && writeBlocks != map[] && End(writeBlocks) == End(old(writeBlocks))
                && Stopped(f, fs.provider.files, fs.provider.writes)
      ensures fs.budget.held - |writeBlocks| == old(fs.budget.held - |writeBlocks|)
      ensures fs.budget.held <= old(fs.budget.held)
      ensures Faults(fs.provider.script) + (if ok || path !in fs.provider.files then 0 else 1)
                <= Faults(old(fs.provider.script))
    {
      hide *;
      ghost var all := writeBlocks;
      var remaining: int := total;
      ok, latest := true, None;
      FileValue();
      RestBounds(writeBlocks, offsets);
      SendingStart(f);
      for j := 0 to |offsets|
        invariant ok && Buffered() && File() == old(File()) && writeBlocks == Rest(all, offsets, j)
        invariant Sending(f, remaining, latest, fs.provider.files, fs.provider.writes)
        invariant remaining == Requests(all, offsets, j)
        invariant Faults(fs.provider.script) <= Faults(old(fs.provider.script))
        invariant fs.budget.held - |writeBlocks| == old(fs.budget.held - |writeBlocks|)
        invariant fs.budget.held <= old(fs.budget.held)
        invariant Sound(writeBlocks) && (j < |offsets| ==> End(writeBlocks) == End(all))
      {
        RestNext(all, offsets, j);
        RequestsNext(all, offsets, j);
        ok, remaining, latest := FlushBlock(offsets[j], remaining, latest, syncLast, f);
        if !ok {
          return;
        }
      }
      RequestsDone(all, offsets);
    }

    /**
     * flushWritesLocked. Wherever it stops, the logical file is what it was; when it succeeds, nothing is pending and
     * the provider holds the logical file. A deferred modification time implies pending blocks, so the call of chtimes
     * that ends the function in the source is never reached.
     */
    method FlushWritesLocked(syncLast: bool, now: int) returns (synced: bool, ok: bool)
      requires Valid()
      modifies this`writeBlocks, this`writeMtime, fs.budget, fs.cache, fs.dataCache
      modifies fs.provider`files, fs.provider`script, fs.provider`writes
      ensures Valid() && File() == old(File())
      ensures OnlyChanges(old(fs.provider.files), fs.provider.files, path)
      ensures fs.budget.held - |writeBlocks| == old(fs.budget.held - |writeBlocks|)
      ensures ok ==> writeBlocks == map[] && Content(fs.provider.files, path) == old(File())
      ensures !ok ==> writeBlocks != map[] && old(writeBlocks) != map[] && End(writeBlocks) == End(old(writeBlocks))
      ensures !ok ==> writeMtime == old(writeMtime)
      ensures !ok || old(writeBlocks) == map[] ==>
                fs.cache.entries == old(fs.cache.entries) && fs.dataCache.entries == old(fs.dataCache.entries)
      ensures ok && old(writeBlocks) == map[] ==>
                fs.provider.files == old(fs.provider.files) && fs.provider.writes == old(fs.provider.writes)
      ensures ok && old(writeBlocks) != map[] ==> path in fs.provider.files && Refreshed()
      ensures ok && old(writeBlocks) != map[] && fs.cache.capacity >= 1 ==>
                Reports(fs.cache.entries, path, |old(File())|)
      ensures synced <==> ok && syncLast && old(writeBlocks) != map[]
      ensures synced ==> fs.provider.files[path].durable == fs.provider.files[path].content
      ensures ok && old(writeMtime).Some? ==> fs.provider.files[path].mtime == old(writeMtime).value
      ensures ok && old(writeBlocks) != map[] ==>
                var first := |old(fs.provider.writes)|;
                && |fs.provider.writes| > first
                && Riding(fs.provider.writes, first, |fs.provider.writes| - first, old(writeMtime), syncLast)
      ensures old(SizeKnown()) ==> SizeKnown()
      ensures old(NoBlocks(fs.dataCache.entries, path)) ==> NoBlocks(fs.dataCache.entries, path)
      ensures Aside(old(fs.cache.entries), old(fs.dataCache.entries), path, fs.cache.entries, fs.dataCache.entries)
      ensures Faults(fs.provider.script) + (if ok || path !in fs.provider.files then 0 else 1)
                <= Faults(old(fs.provider.script))
    {
      hide Settled, File, Sending, Stopped, Sorts, Requests, Riding, NoBlocks, Sound, Reports, Denies, Aside;
      AsideTrans(fs.cache.entries, fs.dataCache.entries, path);
      var offsets, total := SortedBlocks();
      ghost var f := Flush(fs.provider.files, path, |fs.provider.writes|, total, writeMtime, syncLast);
      if offsets == [] {
        FileIsContent();
        assert writeMtime.None?;
        return false, true;
      }
      var latest;
      ok, latest := FlushBlocks(offsets, total, syncLast, f);
      FlushEnded(f, ok, latest);
      if !ok {
        return false, false;
      }
      writeMtime := None;
      Refresh(latest, now);
      SizeRefreshed();
      synced := syncLast;
    }

    /** The offsets in ascending order, and operationCount: the sum of the lengths of the dirty lists. */
    method SortedBlocks() returns (offsets: seq<nat>, total: nat)
      requires Buffered()
      ensures Sorts(offsets, writeBlocks) && total == Requests(writeBlocks, offsets, 0)
      ensures (writeBlocks == map[] <==> offsets == []) && (writeBlocks == map[] <==> total == 0)
    {
      offsets := SortedOffsets(writeBlocks.Keys);
      hide Sound, Sorts, Requests;
      assert Sorts(offsets, writeBlocks) by { SortsKeys(offsets, writeBlocks); }
      total := 0;
      var j := |offsets|;
      RequestsDone(writeBlocks, offsets);
      while j > 0
        invariant 0 <= j <= |offsets| && total == Requests(writeBlocks, offsets, j) && (total == 0 <==> j == |offsets|)
      {
        j := j - 1;
        RequestsNext(writeBlocks, offsets, j);
        BlockValue(offsets[j]);
        total := total + |writeBlocks[offsets[j]].dirty|;
      }
    }

    lemma SizeRefreshed()
      requires Buffered() && writeBlocks == map[] && Refreshed()
      ensures SizeKnown()
    {
    }

    lemma FileIsContent()
      requires Buffered() && writeBlocks == map[]
      ensures File() == Content(fs.provider.files, path)
    {
    }

    lemma FlushEnded(f: Flush, ok: bool, latest: Option<Meta.FileAttr>)
      requires f.path == path && Buffered()
      requires if ok then writeBlocks == map[] && Sending(f, 0, latest, fs.provider.files, fs.provider.writes)
               else Stopped(f, fs.provider.files, fs.provider.writes)
      ensures OnlyChanges(f.start, fs.provider.files, path)
      ensures ok ==> File() == Content(fs.provider.files, path) && |fs.provider.writes| == f.first + f.total
      ensures ok && f.total > 0 ==>
                && path in fs.provider.files && latest.Some? && latest.value.size == |Content(fs.provider.files, path)|
                && Riding(fs.provider.writes, f.first, f.total, f.touch, f.sync)
                && (f.sync ==> fs.provider.files[path].durable == fs.provider.files[path].content)
                && (f.touch.Some? ==> fs.provider.files[path].mtime == f.touch.value)
    {
    }

    /** updateChangedAttr on the node's own path. */
    method Refresh(attr: Option<Meta.FileAttr>, now: int)
      requires Settled()
      requires attr.Some? ==> Tells(FactOf(fs.provider.files, fs.provider.dirs, path), attr.value.size)
      modifies fs.cache, fs.dataCache
      ensures Settled() && Refreshed()
      ensures Aside(old(fs.cache.entries), old(fs.dataCache.entries), path, fs.cache.entries, fs.dataCache.entries)
      ensures attr.Some? && fs.cache.capacity >= 1 ==> Reports(fs.cache.entries, path, attr.value.size)
    {
      hide *;
      SettledParts();
      fs.UpdateChangedAttr(path, attr, now);
      SettledParts();
      RefreshedParts();
    }

    /** Writes into the block at o, starting it if it is not pending yet. */
    method StoreChunk(o: nat, start: nat, bytes: seq<Byte>)
      requires Buffered() && o % BLOCK_SIZE == 0 && (o !in writeBlocks ==> |writeBlocks| < MAX_PENDING_BLOCKS)
      requires bytes != [] && start + |bytes| <= BLOCK_SIZE
      modifies this`writeBlocks
      ensures Buffered() && File() == WriteAt(old(File()), o + start, bytes)
      ensures End(writeBlocks) == Max(End(old(writeBlocks)), o + start + |bytes|)
      ensures writeBlocks.Keys == old(writeBlocks).Keys + {o}
      ensures |writeBlocks| == |old(writeBlocks)| + if o in old(writeBlocks) then 0 else 1
      ensures old(SizeKnown()) ==> SizeKnown()
    {
      hide Reports, Denies, Sound, Logical, Wrote, End, WriteAt;
      var before := if o in writeBlocks then writeBlocks[o] else Block(Files.Truncate([], BLOCK_SIZE), []);
      BlockReady(writeBlocks, o, before);
      var block := new PendingWriteBlock(before);
      block.Write(start, bytes);
      var after := Block(block.data[..], block.dirty);
      OverlayWrite(Content(fs.provider.files, path), writeBlocks, o, before, start, bytes, after);
      EndAfterWrite(writeBlocks, o, before, start, bytes, after);
      KeysAfterWrite(writeBlocks, o, after);
      WriteAtLength(File(), o + start, bytes);
      writeBlocks := writeBlocks[o := after];
    }

    /** The room a new block needs: a flush if the node is full, a unit of the budget, a second try after a flush. */
    method MakeRoom(now: int) returns (ok: bool, acquired: bool)
      requires Valid()
      modifies this`writeBlocks, this`writeMtime, fs.budget, fs.cache, fs.dataCache
      modifies fs.provider`files, fs.provider`script, fs.provider`writes
      ensures Valid() && File() == old(File()) && OnlyChanges(old(fs.provider.files), fs.provider.files, path)
      ensures fs.budget.held - |writeBlocks| == old(fs.budget.held - |writeBlocks|) + if ok && acquired then 1 else 0
      ensures ok ==> writeBlocks == old(writeBlocks) || writeBlocks == map[]
      ensures ok && acquired ==> |writeBlocks| < MAX_PENDING_BLOCKS
      ensures ok && !acquired ==> writeBlocks == map[] && fs.budget.held == MAX_TOTAL_BLOCKS
      ensures old(writeBlocks) == map[] ==> ok && fs.cache.entries == old(fs.cache.entries)
      ensures old(SizeKnown()) ==> SizeKnown()
      ensures old(NoBlocks(fs.dataCache.entries, path)) ==> NoBlocks(fs.dataCache.entries, path)
      ensures Aside(old(fs.cache.entries), old(fs.dataCache.entries), path, fs.cache.entries, fs.dataCache.entries)
      ensures Faults(fs.provider.script) + (if ok || path !in fs.provider.files then 0 else 1)
                <= Faults(old(fs.provider.script))
    {
      hide Buffered, Settled, File, SizeKnown, NoBlocks, Riding, Refreshed, Aside;
      AsideTrans(fs.cache.entries, fs.dataCache.entries, path);
      var synced;
      ok, acquired := true, false;
      if |writeBlocks| >= MAX_PENDING_BLOCKS {
        synced, ok := FlushWritesLocked(false, now);
        if !ok {
          return;
        }
      }
      acquired := fs.budget.TryAcquire();
      if !acquired {
        if |writeBlocks| > 0 {
          synced, ok := FlushWritesLocked(false, now);
          if !ok {
            return;
          }
        }
        acquired := fs.budget.TryAcquire();
      }
    }

    /** The write that bypasses the buffer: nothing is pending when it is sent. */
    method DirectWrite(at: nat, chunk: seq<Byte>, now: int) returns (ok: bool, ghost applied: nat)
      requires Valid() && writeBlocks == map[]
      modifies fs.cache, fs.dataCache
      modifies fs.provider`files, fs.provider`script, fs.provider`writes
      ensures Valid() && OnlyChanges(old(fs.provider.files), fs.provider.files, path)
      ensures applied <= |chunk| && (ok ==> applied == |chunk|)
      ensures File() == WriteAt(old(File()), at, chunk[..applied])
      ensures ok ==> SizeKnown()
      ensures !ok && old(SizeKnown()) && SizeSafe(old(fs.cache.entries), path, |old(File())|, at, chunk) ==> SizeKnown()
      ensures old(SizeKnown()) && path !in fs.provider.files ==> SizeKnown()
      ensures ok <==> path in old(fs.provider.files) && NextOutcome(old(fs.provider.script)).fate.Succeed?
      ensures applied == if path in old(fs.provider.files)
                then Applied(NextOutcome(old(fs.provider.script)).fate, |chunk|) else 0
      ensures fs.provider.script == Later(old(fs.provider.script))
      ensures !ok ==> fs.cache.entries == old(fs.cache.entries)
      ensures ok && fs.cache.capacity >= 1 ==> Reports(fs.cache.entries, path, |File()|)
      ensures old(NoBlocks(fs.dataCache.entries, path)) ==> NoBlocks(fs.dataCache.entries, path)
      ensures Aside(old(fs.cache.entries), old(fs.dataCache.entries), path, fs.cache.entries, fs.dataCache.entries)
      ensures Faults(fs.provider.script) + (if ok || path !in fs.provider.files then 0 else 1)
                <= Faults(old(fs.provider.script))
    {
      hide Settled, NoBlocks, Reports, Denies, SizeKnown, Sound, WriteAt, Aside;
      AsideTrans(fs.cache.entries, fs.dataCache.entries, path);
      FileIsContent();
      NothingPending(File());
      SizeKnownParts();
      var attr, outcome := fs.provider.Write(WriteRequest(path, at, chunk, None, false));
      FileIsContent();
      SizeKnownParts();
      ok := attr.Some?;
      applied := if path in fs.provider.files then Applied(outcome.fate, |chunk|) else 0;
      WriteAtNothing(old(File()), at, chunk);
      WriteAtShape(old(File()), at, chunk[..applied]);
      if ok {
        Refresh(attr, now);
        SizeRefreshed();
      }
    }

    /** One turn of bufferWrite: bytes that fall into a single block. */
    method WriteChunk(at: nat, chunk: seq<Byte>, now: int) returns (ok: bool, ghost applied: nat, ghost direct: bool)
      requires Valid() && chunk != [] && at + |chunk| <= Base(at) + BLOCK_SIZE
      modifies this`writeBlocks, this`writeMtime, fs.budget, fs.cache, fs.dataCache
      modifies fs.provider`files, fs.provider`script, fs.provider`writes
      ensures Valid() && OnlyChanges(old(fs.provider.files), fs.provider.files, path)
      ensures fs.budget.held - |writeBlocks| == old(fs.budget.held - |writeBlocks|)
      ensures applied <= |chunk| && (ok ==> applied == |chunk|)
      ensures File() == WriteAt(old(File()), at, chunk[..applied])
      ensures old(SizeKnown()) && (ok || !direct || at + |chunk| <= |old(File())|) ==> SizeKnown()
      ensures old(SizeKnown()) && path !in fs.provider.files ==> SizeKnown()
      ensures old(SizeKnown()) && old(writeBlocks) == map[] && old(Unreported(fs.cache.entries, path, false, 0)) ==>
                SizeKnown()
      ensures !ok && direct ==> writeBlocks == map[] && fs.budget.held == MAX_TOTAL_BLOCKS
      ensures old(NoBlocks(fs.dataCache.entries, path)) ==> NoBlocks(fs.dataCache.entries, path)
      ensures Aside(old(fs.cache.entries), old(fs.dataCache.entries), path, fs.cache.entries, fs.dataCache.entries)
      ensures Faults(fs.provider.script) + (if ok || path !in fs.provider.files then 0 else 1)
                <= Faults(old(fs.provider.script))
    {
      hide *;
      AsideTrans(fs.cache.entries, fs.dataCache.entries, path);
      ghost var start := fs.provider.files;
      OnlyChangesTrans(start, path);
      ValidParts();
      var o := Base(at);
      direct := false;
      if o !in writeBlocks {
        var acquired;
        ok, acquired := MakeRoom(now);
        if !ok {
          applied := 0;
          WriteAtNothing(File(), at, chunk);
          return;
        }
        if !acquired {
          direct := true;
          SafeWithin(fs.cache.entries, path, |File()|, at, chunk);
          SafeUnreported(fs.cache.entries, path, |File()|, at, chunk);
          ok, applied := DirectWrite(at, chunk, now);
          return;
        }
      }
      ValidParts();
      Place(o, at - o, chunk);
      ok, applied := true, |chunk|;
      assert chunk[..|chunk|] == chunk;
    }

    /** StoreChunk on a node in order, with a unit of the budget in hand for a new block. */
    method Place(o: nat, start: nat, chunk: seq<Byte>)
      requires Buffered() && Settled() && o % BLOCK_SIZE == 0 && chunk != [] && start + |chunk| <= BLOCK_SIZE
      requires o !in writeBlocks ==> |writeBlocks| < MAX_PENDING_BLOCKS
      requires |writeBlocks| + (if o in writeBlocks then 0 else 1) <= fs.budget.held <= MAX_TOTAL_BLOCKS
      modifies this`writeBlocks
      ensures Valid() && File() == WriteAt(old(File()), o + start, chunk)
      ensures |writeBlocks| == |old(writeBlocks)| + if o in old(writeBlocks) then 0 else 1
      ensures old(SizeKnown()) ==> SizeKnown()
    {
      hide *;
      StoreChunk(o, start, chunk);
      ValidParts();
    }

    /** Stored blocks are current while nothing is pending, and there are none while something is. */
    ghost predicate Coherent()
      reads this`path, this`writeBlocks, fs.dataCache`entries, fs.provider`files
    {
      if writeBlocks == map[] then Agrees() else NoBlocks(fs.dataCache.entries, path)
    }

    /** bufferWrite: the write lands in the logical file, or exactly a prefix of it does. */
    method BufferWrite(offset: nat, data: seq<Byte>, now: int)
      returns (ok: bool, ghost applied: nat, ghost direct: bool)
      requires Valid()
      modifies this`writeBlocks, this`writeMtime, fs.budget, fs.cache, fs.dataCache
      modifies fs.provider`files, fs.provider`script, fs.provider`writes
      ensures Valid() && OnlyChanges(old(fs.provider.files), fs.provider.files, path)
      ensures fs.budget.held - |writeBlocks| == old(fs.budget.held - |writeBlocks|)
      ensures applied <= |data| && (ok ==> applied == |data|)
      ensures File() == WriteAt(old(File()), offset, data[..applied])
      ensures old(SizeKnown()) && (ok || !direct || offset + |data| <= |old(File())|) ==> SizeKnown()
      ensures old(SizeKnown()) && path !in fs.provider.files ==> SizeKnown()
      ensures old(SizeKnown() && writeBlocks == map[] && Unreported(fs.cache.entries, path, false, 0)) ==>
                InOneBlock(offset, data) ==> SizeKnown()
      ensures !ok && direct ==> writeBlocks == map[] && fs.budget.held == MAX_TOTAL_BLOCKS
      ensures old(NoBlocks(fs.dataCache.entries, path)) ==> NoBlocks(fs.dataCache.entries, path)
      ensures Aside(old(fs.cache.entries), old(fs.dataCache.entries), path, fs.cache.entries, fs.dataCache.entries)
      ensures Faults(fs.provider.script) + (if ok || path !in fs.provider.files then 0 else 1)
                <= Faults(old(fs.provider.script))
    {
      hide Valid, File, NoBlocks, WriteAt, SizeKnown, Aside, Unreported;
      AsideTrans(fs.cache.entries, fs.dataCache.entries, path);
      var done := 0;
      ok, direct := true, false;
      WriteAtNothing(File(), offset, data);
      while done < |data|
        invariant done <= |data| && ok && Valid() && OnlyChanges(old(fs.provider.files), fs.provider.files, path)
        invariant fs.budget.held - |writeBlocks| == old(fs.budget.held - |writeBlocks|)
        invariant File() == WriteAt(old(File()), offset, data[..done])
        invariant old(SizeKnown()) ==> SizeKnown()
        invariant done == 0 ==> writeBlocks == old(writeBlocks) && fs.cache.entries == old(fs.cache.entries)
        invariant InOneBlock(offset, data) ==> done == 0 || done == |data|
        invariant old(NoBlocks(fs.dataCache.entries, path)) ==> NoBlocks(fs.dataCache.entries, path)
        invariant Faults(fs.provider.script) <= Faults(old(fs.provider.script))
        invariant Aside(old(fs.cache.entries), old(fs.dataCache.entries), path, fs.cache.entries, fs.dataCache.entries)
      {
        var at := offset + done;
        var inside := at - Base(at);
        var count := Min(|data| - done, BLOCK_SIZE - inside);
        var chunk := data[done..done + count];
        WriteAtShape(old(File()), offset, data[..done]);
        ok, applied, direct := WriteChunk(at, chunk, now);
        WriteAtAppend(old(File()), offset, data[..done], chunk[..applied]);
        assert data[..done] + chunk[..applied] == data[..done + applied];
        if !ok {
          applied := done + applied;
          return;
        }
        done := done + count;
      }
      applied := done;
    }

    /** Write: forget what is cached about the path, then buffer. */
    method Write(offset: nat, data: seq<Byte>, now: int) returns (ok: bool, ghost applied: nat, ghost direct: bool)
      requires Valid()
      modifies this`writeBlocks, this`writeMtime, fs.budget, fs.cache, fs.dataCache
      modifies fs.provider`files, fs.provider`script, fs.provider`writes
      ensures Valid() && Coherent() && OnlyChanges(old(fs.provider.files), fs.provider.files, path)
      ensures fs.budget.held - |writeBlocks| == old(fs.budget.held - |writeBlocks|)
      ensures applied <= |data| && (ok ==> applied == |data|)
      ensures File() == WriteAt(old(File()), offset, data[..applied])
      ensures ok || !direct || offset + |data| <= |old(File())| || path !in fs.provider.files ==> SizeKnown()
      ensures old(writeBlocks) == map[] && InOneBlock(offset, data) ==> SizeKnown()
      ensures !ok && direct ==> writeBlocks == map[] && fs.budget.held == MAX_TOTAL_BLOCKS
      ensures Aside(old(fs.cache.entries), old(fs.dataCache.entries), path, fs.cache.entries, fs.dataCache.entries)
      ensures Faults(fs.provider.script) + (if ok || path !in fs.provider.files then 0 else 1)
                <= Faults(old(fs.provider.script))
    {
      hide Settled, Buffered, File, WriteAt, NoBlocks, BlocksAgree, SizeKnown, Aside, Unreported, InOneBlock;
      AsideTrans(fs.cache.entries, fs.dataCache.entries, path);
      Forget();
      ok, applied, direct := BufferWrite(offset, data, now);
      NoBlocksAgree(fs.dataCache.entries, path, Content(fs.provider.files, path));
    }

    method Forget()
      requires Buffered() && Settled()
      modifies fs.cache, fs.dataCache
      ensures Settled() && SizeKnown() && NoBlocks(fs.dataCache.entries, path)
      ensures Unreported(fs.cache.entries, path, false, 0)
      ensures Aside(old(fs.cache.entries), old(fs.dataCache.entries), path, fs.cache.entries, fs.dataCache.entries)
    {
      hide Sound, File, NoBlocks, Reports, Denies, Aside;

      fs.InvalidateChange(path);
    }

    lemma RefreshedParts()
      ensures Refreshed() <==>
                && !Denies(fs.cache.entries, path) && NoBlocks(fs.dataCache.entries, path)
                && forall size: nat :: Reports(fs.cache.entries, path, size) ==>
                       Tells(FactOf(fs.provider.files, fs.provider.dirs, path), size)
    {
    }

    lemma RefreshedAgrees()
      ensures Refreshed() ==> Agrees()
    {
    }

    lemma SettledParts()
      ensures Settled() <==>
                Parent(path) != "." && fs.cache.Valid() && fs.dataCache.Valid() && fs.dataCache.flights == map[]
    {
    }

    /** Every stored block of this path is the provider's current block. */
    ghost predicate Agrees()
      reads this`path, fs.dataCache`entries, fs.provider`files
    {
      BlocksAgree(fs.dataCache.entries, path, Content(fs.provider.files, path))
    }

    /** readBlockCache.load, with the provider's read as its loader and no other load under way. */
    method LoadBlock(offset: nat, now: int) returns (r: Blocks.LoadResult)
      requires Settled()
      modifies fs.provider`script, fs.dataCache
      ensures Settled() && (old(Agrees()) ==> Agrees())
      ensures old(Agrees()) && r.Loaded? ==> r.data == BlockOf(Content(fs.provider.files, path), offset)
      ensures r.Loaded? && fs.dataCache.capacity >= 1 ==> Blocks.Key(path, offset) in fs.dataCache.entries
      ensures Aside(old(fs.cache.entries), old(fs.dataCache.entries), path, fs.cache.entries, fs.dataCache.entries)
      ensures Faults(fs.provider.script) + (if r.Loaded? || path !in fs.provider.files then 0 else 1)
                <= Faults(old(fs.provider.script))
    {
      hide *;

      SettledParts();
      var key := Blocks.Key(path, offset);
      ghost var content, before := Content(fs.provider.files, path), fs.dataCache.Value();
      StateParts(fs.dataCache);
      AgreesParts();
      LookAgrees(before, key, now, content);
      var answer := fs.dataCache.Look(key, now);
      StateParts(fs.dataCache);
      AsideParts(fs.cache.entries, before.entries, path, fs.cache.entries, fs.dataCache.entries);
      AsideTrans(fs.cache.entries, before.entries, path);
      if answer.Hit? {
        SettledParts();
        AgreesParts();
        return Blocks.Loaded(answer.data);
      }
      ContentOf(fs.provider.files, path);
      r := fs.provider.Read(path, offset);
      ghost var looked := fs.dataCache.Value();
      fs.dataCache.Finish(key, answer.flight, answer.generation, r, now);
      LandAgrees(looked, key, answer.flight, answer.generation, r, now + fs.dataCache.ttl, content,
          fs.dataCache.entries);
      StateParts(fs.dataCache);
      AsideParts(fs.cache.entries, looked.entries, path, fs.cache.entries, fs.dataCache.entries);
      SettledParts();
      AgreesParts();
    }

    lemma AgreesParts()
      ensures Agrees() <==> BlocksAgree(fs.dataCache.entries, path, Content(fs.provider.files, path))
    {
    }

    /** Read: flush, then collect blocks from the cache until the request is filled or the file ends. */
    method Read(offset: nat, size: nat, now: int) returns (ok: bool, data: seq<Byte>)
      requires Valid()
      modifies this`writeBlocks, this`writeMtime, fs.budget, fs.cache, fs.dataCache
      modifies fs.provider`files, fs.provider`script, fs.provider`writes
      ensures Valid() && File() == old(File()) && OnlyChanges(old(fs.provider.files), fs.provider.files, path)
      ensures fs.budget.held - |writeBlocks| == old(fs.budget.held - |writeBlocks|)
      ensures old(Coherent()) ==> Coherent() && (ok ==> data == Slice(File(), offset, size))
      ensures old(SizeKnown()) ==> SizeKnown()
      ensures Aside(old(fs.cache.entries), old(fs.dataCache.entries), path, fs.cache.entries, fs.dataCache.entries)
      ensures Faults(fs.provider.script) + (if ok || path !in fs.provider.files then 0 else 1)
                <= Faults(old(fs.provider.script))
      ensures old(writeBlocks) == map[] ==> writeBlocks == map[]
    {
      hide Settled, File, SizeKnown, Agrees, Riding, Refreshed, NoBlocks, Slice, OnlyChanges, Aside;
      AsideTrans(fs.cache.entries, fs.dataCache.entries, path);
      data := [];
      var synced;
      synced, ok := FlushWritesLocked(false, now);
      if !ok {
        return;
      }
      RefreshedAgrees();
      ok, data := ReadBlocks(offset, size, now);
    }

    /** The block loop of Read, on a node without pending writes. */
    method ReadBlocks(offset: nat, size: nat, now: int) returns (ok: bool, data: seq<Byte>)
      requires Settled()
      modifies fs.provider`script, fs.dataCache
      ensures Settled() && (old(Agrees()) ==> Agrees())
      ensures old(Agrees()) && ok ==> data == Slice(Content(fs.provider.files, path), offset, size)
      ensures Aside(old(fs.cache.entries), old(fs.dataCache.entries), path, fs.cache.entries, fs.dataCache.entries)
      ensures Faults(fs.provider.script) + (if ok || path !in fs.provider.files then 0 else 1)
                <= Faults(old(fs.provider.script))
    {
      hide Settled, Agrees, Slice, Content, BlockOf, Aside;
      AsideTrans(fs.cache.entries, fs.dataCache.entries, path);
      ghost var file := Content(fs.provider.files, path);
      data := [];
      var at, remaining := offset, size;
      SliceEmpty(file, offset);
      while remaining > 0
        invariant 0 <= remaining <= size && at == offset + (size - remaining)
        invariant old(Agrees()) ==> data == Slice(file, offset, size - remaining)
        invariant Settled() && (old(Agrees()) ==> Agrees()) && file == Content(fs.provider.files, path)
        invariant Faults(fs.provider.script) <= Faults(old(fs.provider.script))
        invariant Aside(old(fs.cache.entries), old(fs.dataCache.entries), path, fs.cache.entries, fs.dataCache.entries)
        decreases remaining
      {
        var base := Base(at);
        var block := LoadBlock(base, now);
        if block.LoadFailed? {
          return false, data;
        }
        var inside := at - base;
        if inside >= |block.data| {
          SliceEnd(file, offset, size - remaining, size, base);
          break;
        }
        var count := Min(remaining, |block.data| - inside);
        SliceGrows(file, offset, size - remaining, count, base);
        data := data + block.data[inside..inside + count];
        at := at + count;
        remaining := remaining - count;
        if |block.data| < BLOCK_SIZE {
          SliceEnd(file, offset, size - remaining, size, base);
          break;
        }
      }
      ok := true;
    }

    /** flushPending, which is also Flush and Release. */
    method FlushPending(now: int) returns (ok: bool)
      requires Valid()
      modifies this`writeBlocks, this`writeMtime, fs.budget, fs.cache, fs.dataCache
      modifies fs.provider`files, fs.provider`script, fs.provider`writes
      ensures Valid() && File() == old(File()) && OnlyChanges(old(fs.provider.files), fs.provider.files, path)
      ensures fs.budget.held - |writeBlocks| == old(fs.budget.held - |writeBlocks|)
      ensures ok ==> writeBlocks == map[] && Content(fs.provider.files, path) == File()
      ensures (old(Coherent()) ==> Coherent()) && (old(SizeKnown()) ==> SizeKnown())
      ensures Aside(old(fs.cache.entries), old(fs.dataCache.entries), path, fs.cache.entries, fs.dataCache.entries)
      ensures !ok ==> old(writeBlocks) != map[]
      ensures Faults(fs.provider.script) + (if ok || path !in fs.provider.files then 0 else 1)
                <= Faults(old(fs.provider.script))
      ensures ok && old(writeBlocks) != map[] ==> Refreshed()
      ensures ok && old(writeBlocks) != map[] && fs.cache.capacity >= 1 ==> Reports(fs.cache.entries, path, |File()|)
      ensures old(writeBlocks) == map[] ==>
                fs.cache.entries == old(fs.cache.entries) && fs.dataCache.entries == old(fs.dataCache.entries)
      ensures old(writeBlocks) == map[] ==> fs.provider.files == old(fs.provider.files)
    {
      hide Settled, File, SizeKnown, BlocksAgree, Riding, Refreshed, NoBlocks, Sound, Reports, Denies, Aside;
      AsideTrans(fs.cache.entries, fs.dataCache.entries, path);
      var synced;
      synced, ok := FlushWritesLocked(false, now);
      RefreshedAgrees();
    }

    /**
     * Fsync: a flush that asks for durability with its last request, or a separate request when nothing was pending.
     */
    method Fsync(now: int) returns (ok: bool)
      requires Valid()
      modifies this`writeBlocks, this`writeMtime, fs.budget, fs.cache, fs.dataCache
      modifies fs.provider`files, fs.provider`script, fs.provider`writes
      ensures Valid() && File() == old(File()) && OnlyChanges(old(fs.provider.files), fs.provider.files, path)
      ensures fs.budget.held - |writeBlocks| == old(fs.budget.held - |writeBlocks|)
      ensures ok ==> writeBlocks == map[] && path in fs.provider.files
      ensures ok ==> fs.provider.files[path].durable == fs.provider.files[path].content == File()
      ensures (old(Coherent()) ==> Coherent()) && (old(SizeKnown()) ==> SizeKnown())
      ensures Aside(old(fs.cache.entries), old(fs.dataCache.entries), path, fs.cache.entries, fs.dataCache.entries)
      ensures Faults(fs.provider.script) + (if ok || path !in fs.provider.files then 0 else 1)
                <= Faults(old(fs.provider.script))
      ensures old(writeBlocks) == map[] ==> writeBlocks == map[]
    {
      hide Settled, File, SizeKnown, BlocksAgree, Riding, Refreshed, NoBlocks, Sound, Reports, Denies, Aside;
      AsideTrans(fs.cache.entries, fs.dataCache.entries, path);
      var synced;
      synced, ok := FlushWritesLocked(true, now);
      if !ok {
        return;
      }
      RefreshedAgrees();
      FileIsContent();
      if synced {
        return;
      }
      ghost var outcome;
      SizeKnownParts();
      ok, outcome := fs.provider.Sync(path);
      FileIsContent();
      SizeKnownParts();
    }

    lemma SizeKnownParts()
      requires Buffered()
      ensures SizeKnown() <==>
                && (Stands() != Absent ==> !Denies(fs.cache.entries, path))
                && forall size: nat :: Reports(fs.cache.entries, path, size) ==>
                       Tells(Fact(Stands(), |File()|), Max(size, End(writeBlocks)))
      ensures path in fs.provider.files <==> Stands() == Regular
    {
    }

    /**
     * A size-only Setattr. The caches are refreshed only when the reply arrives: if it is lost after the provider has
     * cut the file, the stored blocks are still good exactly when the cut touches none of them.
     */
    method SetSize(size: nat, now: int) returns (ok: bool, ghost lost: bool)
      requires Valid()
      modifies this`writeBlocks, this`writeMtime, fs.budget, fs.cache, fs.dataCache
      modifies fs.provider`files, fs.provider`script, fs.provider`writes
      ensures Valid() && OnlyChanges(old(fs.provider.files), fs.provider.files, path) && !(ok && lost)
      ensures fs.budget.held - |writeBlocks| == old(fs.budget.held - |writeBlocks|)
      ensures File() == if ok || lost then Truncate(old(File()), size) else old(File())
      ensures ok || lost ==> Resized(old(File()), size, File())
      ensures ok ==> writeBlocks == map[] && Coherent() && SizeKnown() && path in fs.provider.files
      ensures !ok && !lost ==> (old(Coherent()) ==> Coherent()) && (old(SizeKnown()) ==> SizeKnown())
      ensures lost && old(Coherent()) ==>
                (Coherent() <==>
                 old(writeBlocks) != map[] || !Spoils(old(fs.dataCache.entries), path, |old(File())|, size))
      ensures lost && old(SizeKnown()) ==>
                (SizeKnown() <==>
                 || size == |old(File())|
                 || Unreported(old(fs.cache.entries), path, old(writeBlocks) != map[], fs.cache.capacity))
      ensures lost ==> writeBlocks == map[] && path in fs.provider.files
      ensures Aside(old(fs.cache.entries), old(fs.dataCache.entries), path, fs.cache.entries, fs.dataCache.entries)
      ensures Faults(fs.provider.script) + (if ok || path !in fs.provider.files then 0 else 1)
                <= Faults(old(fs.provider.script))
      ensures old(writeBlocks) == map[] ==> writeBlocks == map[]
    {
      hide *;
      AsideTrans(fs.cache.entries, fs.dataCache.entries, path);
      OnlyChangesTrans(fs.provider.files, path);
      lost := false;
      ok := FlushPending(now);
      if !ok {
        return;
      }
      ValidParts();
      SettledParts();
      RefreshedUnspoilt(|File()|, size);
      CapacityReports(fs.cache, path, old(fs.cache.entries), old(writeBlocks) != map[], |File()|);
      TruncateBytes(File(), size);
      ok, lost := Cut(size, now);
    }

    /** The truncate request of Setattr, on a node without pending writes. */
    method Cut(size: nat, now: int) returns (ok: bool, ghost lost: bool)
      requires Valid() && writeBlocks == map[]
      modifies fs.cache, fs.dataCache
      modifies fs.provider`files, fs.provider`script, fs.provider`writes
      ensures Valid() && OnlyChanges(old(fs.provider.files), fs.provider.files, path) && !(ok && lost)
      ensures File() == if ok || lost then Truncate(old(File()), size) else old(File())
      ensures ok || lost ==> Resized(old(File()), size, File())
      ensures ok ==> Coherent() && SizeKnown() && path in fs.provider.files
      ensures !ok && !lost ==> (old(Coherent()) ==> Coherent()) && (old(SizeKnown()) ==> SizeKnown())
      ensures lost && old(Coherent()) ==>
                (Coherent() <==> !Spoils(old(fs.dataCache.entries), path, |old(File())|, size))
      ensures lost && old(SizeKnown()) ==>
                (SizeKnown() <==> size == |old(File())| || forall n: nat :: !Reports(old(fs.cache.entries), path, n))
      ensures lost ==> path in fs.provider.files
      ensures Aside(old(fs.cache.entries), old(fs.dataCache.entries), path, fs.cache.entries, fs.dataCache.entries)
      ensures Faults(fs.provider.script) + (if ok || path !in fs.provider.files then 0 else 1)
                <= Faults(old(fs.provider.script))
    {
      hide Settled, File, SizeKnown, Refreshed, NoBlocks, Sound, Reports, Denies, Truncate, Spoils, BlocksAgree, Aside;
      AsideTrans(fs.cache.entries, fs.dataCache.entries, path);
      FileIsContent();
      SizeKnownParts();
      CutSpoils(fs.dataCache.entries, path, File(), size);
      var attr, outcome := fs.provider.Truncate(path, size);
      FileIsContent();
      NothingPending(File());
      SizeKnownParts();
      TruncateBytes(old(File()), size);
      TruncateLength(old(File()), size);
      ok := attr.Some?;
      lost := path in fs.provider.files && outcome.fate.FailReply?;
      if ok {
        Refresh(attr, now);
        RefreshedAgrees();
        SizeRefreshed();
      }
    }

    lemma RefreshedUnspoilt(length: nat, size: nat)
      ensures Refreshed() ==> !Spoils(fs.dataCache.entries, path, length, size)
    {
    }

    /**
     * An mtime-only Setattr: kept with the pending blocks if there are any, and answered by Attr; sent at once
     * otherwise.
     */
    method SetMtime(mtime: int, now: int) returns (ok: bool)
      requires Valid()
      modifies this`writeMtime, fs.cache, fs.dataCache
      modifies fs.provider`files, fs.provider`script, fs.provider`writes
      ensures Valid() && File() == old(File()) && OnlyChanges(old(fs.provider.files), fs.provider.files, path)
      ensures writeBlocks != map[] ==> writeMtime == Some(mtime) && fs.provider.files == old(fs.provider.files)
      ensures writeBlocks == map[] && ok ==>
                Stands() != Absent && (path in fs.provider.files ==> fs.provider.files[path].mtime == mtime)
      ensures ok && old(SizeKnown()) ==> Stands() != Absent
      ensures (old(Coherent()) ==> Coherent()) && (old(SizeKnown()) ==> SizeKnown())
      ensures Aside(old(fs.cache.entries), old(fs.dataCache.entries), path, fs.cache.entries, fs.dataCache.entries)
      ensures Faults(fs.provider.script) <= Faults(old(fs.provider.script))
      ensures !ok && Stands() != Absent && old(SizeKnown()) ==>
                Faults(fs.provider.script) < Faults(old(fs.provider.script))
    {
      hide Settled, File, SizeKnown, Refreshed, NoBlocks, Sound, Reports, Denies, BlocksAgree, Aside;
      AsideTrans(fs.cache.entries, fs.dataCache.entries, path);
      if writeBlocks != map[] {
        writeMtime := Some(mtime);
        var attr, source := Attr(now);
        return attr.Some?;
      }
      FileIsContent();
      SizeKnownParts();
      var attr, outcome := fs.provider.Chtimes(path, mtime);
      FileIsContent();
      SizeKnownParts();
      ok := attr.Some?;
      if ok {
        Refresh(attr, now);
        RefreshedAgrees();
        SizeRefreshed();
      }
    }

    /** Attr, with what is pending added to what the cache or the provider says. */
    method Attr(now: int) returns (attr: Option<Meta.FileAttr>, ghost source: Option<Meta.FileAttr>)
      requires Valid()
      modifies fs.provider`script, fs.cache
      ensures Valid() && (old(SizeKnown()) ==> SizeKnown())
      ensures old(SizeKnown()) && attr.Some? ==> Tells(Fact(Stands(), |File()|), attr.value.size)
      ensures attr.Some? <==> source.Some?
      ensures attr.Some? ==>
                && Sourced(old(fs.cache.entries), path, now, fs.provider.files, source.value)
                && attr.value.mode == source.value.mode && attr.value.size == Max(source.value.size, End(writeBlocks))
                && attr.value.modTime == if writeMtime.Some? then writeMtime.value else source.value.modTime
      ensures Aside(old(fs.cache.entries), old(fs.dataCache.entries), path, fs.cache.entries, fs.dataCache.entries)
      ensures Faults(fs.provider.script) <= Faults(old(fs.provider.script))
      ensures attr.None? && Stands() != Absent && old(SizeKnown()) ==>
                Faults(fs.provider.script) < Faults(old(fs.provider.script))
    {
      hide *;

      label Start:
      ValidParts();
      SettledParts();
      FileValue();
      NotDenied();
      attr := fs.FetchAttr(path, now);
      source := attr;
      SettledParts();
      ValidParts();
      SizeLearned@Start(if attr.Some? then attr.value.size else 0);
      if attr.Some? {
        var size := PendingSize(writeBlocks, attr.value.size);
        var modTime := if writeMtime.Some? then writeMtime.value else attr.value.modTime;
        attr := Some(attr.value.(size := size, modTime := modTime));
      }
    }

    lemma ValidParts()
      ensures Valid() <==>
                && Buffered() && Settled() && (writeMtime.Some? ==> writeBlocks != map[])
                && |writeBlocks| <= fs.budget.held <= MAX_TOTAL_BLOCKS
    {
    }

    /** What is learned from the provider about the size agrees with what is known. */
    twostate lemma SizeLearned(size: nat)
      requires Learned(old(fs.cache.entries), path, FactOf(fs.provider.files, fs.provider.dirs, path), fs.cache.entries)
      requires Buffered() && unchanged(this)
      requires old(fs.provider.files) == fs.provider.files && old(fs.provider.dirs) == fs.provider.dirs
      ensures old(SizeKnown()) ==> SizeKnown()
      ensures old(SizeKnown()) && Reports(old(fs.cache.entries), path, size) ==>
                Tells(Fact(Stands(), |File()|), Max(size, End(writeBlocks)))
      ensures Tells(FactOf(fs.provider.files, fs.provider.dirs, path), size) ==>
                Tells(Fact(Stands(), |File()|), Max(size, End(writeBlocks)))
    {
    }

    lemma NotDenied()
      ensures SizeKnown() && Stands() != Absent ==> !Denies(fs.cache.entries, path)
      ensures FactOf(fs.provider.files, fs.provider.dirs, path).standing == Stands()
    {
    }

    /** ReadDirAll on the parent directory: a listing that the provider has just sent is cached whole. */
    method CacheListing(listing: seq<Meta.DirEntry>, now: int)
      requires Valid() && CurrentIn(listing, ParentAndName(path).1, FactOf(fs.provider.files, fs.provider.dirs, path))
      modifies fs.cache
      ensures Valid() && (old(SizeKnown()) ==> SizeKnown())
    {
      hide Settled, File, SizeKnown, Logical, Reports, Denies, Learned, Content, CurrentIn;
      label Start:
      SettledParts();
      fs.FetchListing(path, listing, FactOf(fs.provider.files, fs.provider.dirs, path), now);
      SettledParts();
      SizeLearned@Start(0);
    }
  }

  /** A listing shows what exists, files under their current size, and does not show what does not. */
  ghost predicate CurrentIn(listing: seq<Meta.DirEntry>, name: string, fact: Fact) {
    && (forall i :: 0 <= i < |listing| && listing[i].name == name ==> Tells(fact, listing[i].attr.size))
    && (fact.standing != Absent ==> Names(listing, name))
  }

  /** What is cached about a path after an exchange with the provider: what was before, or what the provider says. */
  ghost predicate Learned(before: Meta.Entries, path: string, fact: Fact, after: Meta.Entries) {
    && (forall size: nat :: Reports(after, path, size) ==> Reports(before, path, size) || Tells(fact, size))
    && (Denies(after, path) ==> Denies(before, path) || fact.standing == Absent)
  }

  /** A write that bufferWrite does not cut. */
  predicate InOneBlock(offset: nat, data: seq<Byte>) {
    offset + |data| <= Base(offset) + BLOCK_SIZE
  }

  /** No failure of a direct write can make a cached size wrong: the data lies within the file, or no size is cached. */
  ghost predicate SizeSafe(entries: Meta.Entries, path: string, length: nat, at: nat, data: seq<Byte>) {
    data == [] || at + |data| <= length || forall size: nat :: !Reports(entries, path, size)
  }

  lemma SafeWithin(entries: Meta.Entries, path: string, length: nat, at: nat, data: seq<Byte>)
    ensures at + |data| <= length ==> SizeSafe(entries, path, length, at, data)
  {
  }

  lemma SafeUnreported(entries: Meta.Entries, path: string, length: nat, at: nat, data: seq<Byte>)
    ensures Unreported(entries, path, false, 0) ==> SizeSafe(entries, path, length, at, data)
  {
  }

  /** Exactly then: otherwise some failure leaves a size that is no longer the file's. */
  lemma FailedWriteSizes(entries: Meta.Entries, file: File, request: WriteRequest)
    requires forall size: nat :: Reports(entries, request.path, size) ==> size == |file.content|
    ensures (forall outcome: Outcome :: !outcome.fate.Succeed? ==>
               forall size: nat :: Reports(entries, request.path, size) ==>
                   size == |Written(file, request, outcome).content|)
       <==> SizeSafe(entries, request.path, |file.content|, request.offset, request.data)
  {
    hide Reports;
    forall outcome: Outcome {
      WriteAtShape(file.content, request.offset, request.data[..Applied(outcome.fate, |request.data|)]);
    }
    var lost := Outcome(FailReply, 0, map[]);
    WriteAtShape(file.content, request.offset, request.data[..Applied(lost.fate, |request.data|)]);
    assert |Written(file, request, lost).content| ==
      if request.data == [] then |file.content| else Max(|file.content|, request.offset + |request.data|);
  }

  /**
   * No size of the path is cached after a flush, which caches one if it sends anything and the cache holds anything.
   */
  ghost predicate Unreported(entries: Meta.Entries, path: string, flushes: bool, capacity: nat) {
    if flushes then capacity == 0 else forall size: nat :: !Reports(entries, path, size)
  }

  /** A cut from length to size changes some stored block of the path. */
  ghost predicate Spoils(entries: Blocks.Entries, path: string, length: nat, size: nat) {
    exists key :: key in entries && key.path == path && Touches(length, size, key.offset)
  }

  lemma TruncateLength(file: seq<Byte>, size: nat)
    ensures |Truncate(file, size)| == size
  {
  }

  lemma NothingCached(cache: Meta.Cache, path: string)
    ensures cache.Valid() && cache.capacity == 0 ==> forall size: nat :: !Reports(cache.entries, path, size)
  {
  }

  /** Whether a size is cached once a flush is done. */
  lemma CapacityReports(cache: Meta.Cache, path: string, before: Meta.Entries, flushed: bool, length: nat)
    requires cache.Valid() && (!flushed ==> cache.entries == before)
    requires flushed && cache.capacity >= 1 ==> Reports(cache.entries, path, length)
    ensures Unreported(before, path, flushed, cache.capacity) <==> forall n: nat :: !Reports(cache.entries, path, n)
  {
    hide Reports;
    NothingCached(cache, path);
  }

  lemma StateParts(cache: Blocks.ReadBlockCache)
    ensures cache.Value().entries == cache.entries && cache.Value().flights == cache.flights
  {
  }

  lemma ContentOf(files: map<string, File>, path: string)
    ensures path in files ==> Content(files, path) == files[path].content
  {
  }

  lemma AttrTells(files: map<string, File>, dirs: set<string>, path: string)
    ensures FactOf(files, dirs, path).standing == StandingOf(files.Keys, dirs, path)
    ensures path in files ==> Tells(FactOf(files, dirs, path), AttrOf(files[path]).size)
    ensures path !in files && StandingOf(files.Keys, dirs, path) != Absent ==>
              forall size :: Tells(FactOf(files, dirs, path), size)
  {
  }

  lemma MissingDenied(entries: Meta.Entries, path: string, now: int)
    ensures Meta.MissingAnswer(entries, path, now) ==> Denies(entries, path)
  {
  }

  lemma DeniedBefore(before: Meta.Entries, after: Meta.Entries, path: string, fact: Fact)
    requires Learned(before, path, fact, after) && Meta.Step(before, Meta.Look, after) && Denies(after, path)
    ensures Denies(before, path)
  {
  }

  lemma OnlyChangesTrans(a: map<string, File>, path: string)
    ensures OnlyChanges(a, a, path)
    ensures forall b, c :: OnlyChanges(a, b, path) && OnlyChanges(b, c, path) ==> OnlyChanges(a, c, path)
  {
  }

  lemma NoBlocksAgree(entries: Blocks.Entries, path: string, content: seq<Byte>)
    ensures NoBlocks(entries, path) ==> BlocksAgree(entries, path, content)
  {
  }

  lemma LookAgrees(s: Blocks.State, key: Blocks.Key, now: int, content: seq<Byte>)
    requires s.flights == map[]
    ensures var (s', answer) := Blocks.Lookup(s, key, now);
            && (answer.Hit? ==> key in s'.entries) && BlocksAside(s.entries, key.path, s'.entries)
            && (answer.Start? ==> forall data :: Blocks.Keeps(s', key, answer.generation, Blocks.Loaded(data)))
            && !answer.Join? && s'.flights == (if answer.Hit? then map[] else map[key := s.nextFlight])
            && (BlocksAgree(s.entries, key.path, content) ==>
                  && BlocksAgree(s'.entries, key.path, content)
                  && (answer.Hit? ==> answer.data == BlockOf(content, key.offset)))
  {
  }

  lemma LandAgrees(s: Blocks.State, key: Blocks.Key, flight: nat, generation: nat, result: Blocks.LoadResult,
                   expires: int,
                   content: seq<Byte>, entries: Blocks.Entries)
    requires s.flights.Keys == {key} && (result.Loaded? ==> result.data == BlockOf(content, key.offset))
    requires Blocks.Recency.Within(entries, Blocks.Land(s, key, flight, generation, result, expires).entries)
    ensures BlocksAgree(s.entries, key.path, content) ==> BlocksAgree(entries, key.path, content)
    ensures BlocksAside(s.entries, key.path, entries)
    ensures Blocks.Land(s, key, flight, generation, result, expires).flights == map[]
  {
  }

  lemma CutSpoils(entries: Blocks.Entries, path: string, file: seq<Byte>, size: nat)
    ensures BlocksAgree(entries, path, file) ==>
              (BlocksAgree(entries, path, Truncate(file, size)) <==> !Spoils(entries, path, |file|, size))
  {
  }

  lemma AnswerReported(entries: Meta.Entries, path: string, now: int)
    ensures Meta.AttrAnswer(entries, path, now).Some? ==>
              Reports(entries, path, Meta.AttrAnswer(entries, path, now).value.size)
  {
  }

  /** A lookup leaves the entry that answered it. */
  lemma AnswerKept(before: Meta.Entries, path: string, now: int, after: Meta.Entries)
    requires Meta.AttrAnswer(before, path, now).Some? && Meta.Step(before, Meta.Look, after)
    requires Meta.Retains(before, after, now)
    ensures Reports(after, path, Meta.AttrAnswer(before, path, now).value.size)
  {
  }

  lemma LookReports(before: Meta.Entries, path: string, fact: Fact, after: Meta.Entries)
    requires Meta.Step(before, Meta.Look, after)
    ensures Learned(before, path, fact, after)
  {
  }

  lemma MissingReports(before: Meta.Entries, path: string, fact: Fact, after: Meta.Entries)
    requires Meta.Step(before, Meta.PutMissing(path), after) && fact.standing == Absent
    ensures Learned(before, path, fact, after)
  {
  }

  lemma LearnedTwice(a: Meta.Entries, b: Meta.Entries, c: Meta.Entries, path: string, fact: Fact)
    requires Learned(a, path, fact, b) && Learned(b, path, fact, c)
    ensures Learned(a, path, fact, c)
  {
  }

  predicate HasAttr(entry: Meta.DirEntry, name: string, attr: Meta.FileAttr) {
    entry.name == name && entry.attr == attr
  }

  /** A name found in the index of a listing has the attributes of some entry of that name. */
  lemma {:induction false} Indexed(listing: seq<Meta.DirEntry>, name: string)
    ensures name in Meta.IndexAttrs(listing) <==> Names(listing, name)
    ensures name in Meta.IndexAttrs(listing) ==>
              exists i :: 0 <= i < |listing| && HasAttr(listing[i], name, Meta.IndexAttrs(listing)[name])
  {
    if listing != [] {
      var front := listing[..|listing| - 1];
      Indexed(front, name);
      if listing[|listing| - 1].name == name {
        assert Names(listing, name);
      } else if name in Meta.IndexAttrs(front) {
        var i :| 0 <= i < |front| && HasAttr(front[i], name, Meta.IndexAttrs(front)[name]);
        assert listing[i] == front[i];
      }
      assert forall i :: 0 <= i < |front| ==> front[i] == listing[i];
    }
  }

  lemma ListingReports(before: Meta.Entries, path: string, listing: seq<Meta.DirEntry>, fact: Fact,
                       after: Meta.Entries)
    requires Meta.Step(before, Meta.PutDir(Parent(path), listing), after)
    requires CurrentIn(listing, ParentAndName(path).1, fact)
    ensures Learned(before, path, fact, after)
  {
    Meta.KeysDiffer(Meta.Attr, path, Meta.Dir, Parent(path));
    Indexed(listing, ParentAndName(path).1);
  }

  lemma SliceEmpty(file: seq<Byte>, offset: nat)
    ensures Slice(file, offset, 0) == []
  {
  }

  /** What one block adds to the bytes read so far. */
  lemma SliceGrows(file: seq<Byte>, offset: nat, done: nat, count: nat, base: nat)
    requires base <= offset + done && count > 0
    ensures offset + done - base + count <= |BlockOf(file, base)| ==>
              Slice(file, offset, done + count) ==
                  Slice(file, offset, done) + BlockOf(file, base)[offset + done - base..][..count]
  {
  }

  /** At or past the end of a short block there is nothing more to read. */
  lemma SliceEnd(file: seq<Byte>, offset: nat, done: nat, size: nat, base: nat)
    requires done <= size && base <= offset + done
    ensures |BlockOf(file, base)| < BLOCK_SIZE && (done == size || |BlockOf(file, base)| <= offset + done - base) ==>
              Slice(file, offset, done) == Slice(file, offset, size)
  {
  }

  lemma WriteAtLength(file: seq<Byte>, at: nat, bytes: seq<Byte>)
    requires bytes != []
    ensures |WriteAt(file, at, bytes)| == Max(|file|, at + |bytes|)
  {
  }

  lemma WriteAtNothing(file: seq<Byte>, at: nat, chunk: seq<Byte>)
    ensures WriteAt(file, at, chunk[..0]) == file
  {
  }

  lemma BlockReady(pending: Pending, o: nat, before: Block)
    requires Sound(pending)
    requires before == if o in pending then pending[o] else Block(Files.Truncate([], BLOCK_SIZE), [])
    ensures |before.data| == BLOCK_SIZE && Canonical(before.dirty)
  {
  }

  lemma KeysAfterWrite(pending: Pending, o: nat, block: Block)
    ensures pending[o := block].Keys == pending.Keys + {o}
    ensures |pending[o := block]| == |pending| + if o in pending then 0 else 1
  {
  }

  lemma DropSize(pending: Pending, o: nat)
    requires o in pending
    ensures |pending - {o}| == |pending| - 1
  {
  }

  /** One flush request, whatever its fate: the logical file stays, and a good reply means the range is stored. */
  lemma RangeSent(files: map<string, File>, writes: seq<WriteRequest>, path: string, pend: Pending, o: nat, k: nat,
                  request: WriteRequest, outcome: Outcome, attr: Option<Meta.FileAttr>, files': map<string, File>)
    requires Sound(pend) && o in pend && k < |pend[o].dirty|
    requires pend[o].dirty[k].end <= |pend[o].data|
    requires request == RangeRequest(path, o, pend[o], k, request.touch, request.sync)
    requires files' == if path in files then files[path := Written(files[path], request, outcome)] else files
    requires attr == if path in files && outcome.fate.Succeed? then Some(AttrOf(files'[path])) else None
    ensures Logical(Content(files', path), pend) == Logical(Content(files, path), pend)
    ensures Sent(files, writes, path, request.touch, request.sync, attr, files', writes + [request])
    ensures attr.Some? && Stored(Content(files, path), o, pend[o], k) ==>
              Stored(Content(files', path), o, pend[o], k + 1)
  {
    if path in files {
      SendKeepsLogical(files[path], pend, path, o, k, request.touch, request.sync, outcome);
      if attr.Some? && Stored(files[path].content, o, pend[o], k) {
        SendStores(files[path], path, o, pend[o], k, request.touch, request.sync, outcome);
      }
      WriteAtShape(files[path].content, request.offset, request.data[..Applied(outcome.fate, |request.data|)]);
    }
  }

  lemma NothingStored(file: seq<Byte>, o: nat, block: Block)
    ensures Stored(file, o, block, 0)
  {
  }
}
