/** The metadata cache of pkg/agent/filesystem/cache.go: attribute, negative, link and listing entries. */
module MetadataCache {
  import opened Files
  import opened Paths
  import opened Recency

  datatype FileAttr = FileAttr(mode: nat, size: nat, modTime: int)

  datatype DirEntry = DirEntry(name: string, attr: FileAttr, linkTarget: string)

  /** os.ModeSymlink */
  const MODE_SYMLINK: nat := 0x800_0000

  predicate IsSymlink(attr: FileAttr) {
    attr.mode / MODE_SYMLINK % 2 == 1
  }

  /** One cache entry. A listing is kept whole and indexed by name. */
  datatype Info = Info(
    path: string,
    attr: Option<FileAttr>,
    dir: seq<DirEntry>,
    dirAttrs: Option<map<string, FileAttr>>,
    dirLinks: Option<map<string, string>>,
    link: Option<string>,
    missing: bool)

  type Entries = map<string, Stamped<Info>>

  datatype Kind = Attr | Missing | Link | Dir

  function Tag(kind: Kind): string {
    match kind
    case Attr => "attr:"
    case Missing => "missing:"
    case Link => "link:"
    case Dir => "dir:"
  }

  function KeyOf(kind: Kind, path: string): string {
    Tag(kind) + path
  }

  lemma KeyInjective(k: Kind, p: string, l: Kind, q: string)
    requires KeyOf(k, p) == KeyOf(l, q)
    ensures k == l && p == q
  {
    assert KeyOf(k, p)[0] == Tag(k)[0] && KeyOf(l, q)[0] == Tag(l)[0];
    assert p == KeyOf(k, p)[|Tag(k)|..] && q == KeyOf(l, q)[|Tag(l)|..];
  }

  lemma KeysDiffer(k: Kind, p: string, l: Kind, q: string)
    requires k != l
    ensures KeyOf(k, p) != KeyOf(l, q)
  {
    assert KeyOf(k, p)[0] == Tag(k)[0] && KeyOf(l, q)[0] == Tag(l)[0];
  }

  /** The key of an entry is one of the path it names, and a listing is indexed as it is. */
  ghost predicate Keyed(key: string, info: Info) {
    exists kind :: key == KeyOf(kind, info.path) && (kind == Dir ==> info == DirInfo(info.path, info.dir))
  }

  /** Every key is the key of the path its entry names: what makes a sweep over paths complete. */
  ghost predicate WellKeyed(entries: Entries) {
    forall key :: key in entries ==> Keyed(key, entries[key].value)
  }

  lemma KeyedPath(entries: Entries, kind: Kind, path: string)
    requires WellKeyed(entries) && KeyOf(kind, path) in entries
    ensures var info := entries[KeyOf(kind, path)].value;
            info.path == path && (kind == Dir ==> info == DirInfo(path, info.dir))
  {
    var key := KeyOf(kind, path);
    var info := entries[key].value;
    var other :| key == KeyOf(other, info.path) && (other == Dir ==> info == DirInfo(info.path, info.dir));
    KeyInjective(kind, path, other, info.path);
  }

  function Alive(entries: Entries, key: string, now: int): Option<Info> {
    if key in entries && now <= entries[key].expires then Some(entries[key].value) else None
  }

  /** What getAttr answers. */
  function AttrAnswer(entries: Entries, path: string, now: int): Option<FileAttr> {
    var own := Alive(entries, KeyOf(Attr, path), now);
    if own.Some? && own.value.attr.Some? then own.value.attr
    else
      var (parent, name) := ParentAndName(path);
      var listing := Alive(entries, KeyOf(Dir, parent), now);
      if listing.Some? && listing.value.dirAttrs.Some? && name in listing.value.dirAttrs.value
      then Some(listing.value.dirAttrs.value[name]) else None
  }

  /** What isMissing answers. */
  predicate MissingAnswer(entries: Entries, path: string, now: int) {
    var own := Alive(entries, KeyOf(Missing, path), now);
    if own.Some? && own.value.missing then true
    else if path == "" then false
    else
      var (parent, name) := ParentAndName(path);
      var listing := Alive(entries, KeyOf(Dir, parent), now);
      listing.Some? && listing.value.dirAttrs.Some? && name !in listing.value.dirAttrs.value
  }

  /** What getLink answers. */
  function LinkAnswer(entries: Entries, path: string, now: int): Option<string> {
    var own := Alive(entries, KeyOf(Link, path), now);
    if own.Some? && own.value.link.Some? then own.value.link
    else
      var (parent, name) := ParentAndName(path);
      var listing := Alive(entries, KeyOf(Dir, parent), now);
      if listing.Some? && listing.value.dirLinks.Some? && name in listing.value.dirLinks.value
      then Some(listing.value.dirLinks.value[name]) else None
  }

  /** What getDir answers; an empty listing is never a hit. */
  function ListingAnswer(entries: Entries, path: string, now: int): Option<seq<DirEntry>> {
    var own := Alive(entries, KeyOf(Dir, path), now);
    if own.Some? && own.value.dir != [] then Some(own.value.dir) else None
  }

  /** An entry under the key has not expired: it may be used up to and including its last instant. */
  predicate Live(entries: Entries, kind: Kind, path: string, now: int) {
    KeyOf(kind, path) in entries && now <= entries[KeyOf(kind, path)].expires
  }

  function InfoOf(entries: Entries, kind: Kind, path: string): Info
    requires KeyOf(kind, path) in entries
  {
    entries[KeyOf(kind, path)].value
  }

  /** What the parent's listing says of a name, if one is stored and has not expired. */
  ghost predicate Listed(entries: Entries, path: string, now: int) {
    Live(entries, Dir, Parent(path), now)
  }

  /**
   * The four lookups, spelled out: an entry of the path's own comes first, and then the last entry of its name in a
   * listing of its parent; what is expired says nothing.
   */
  lemma AnswersExactly(entries: Entries, path: string, now: int)
    requires WellKeyed(entries)
    ensures var (parent, name) := ParentAndName(path);
            var own := Live(entries, Attr, path, now) && InfoOf(entries, Attr, path).attr.Some?;
            var answer := AttrAnswer(entries, path, now);
            && (own ==> answer == InfoOf(entries, Attr, path).attr)
            && (!own ==>
                  if Listed(entries, path, now) then
                    if answer.Some? then LastAttr(InfoOf(entries, Dir, parent).dir, name, answer.value)
                    else Lacks(InfoOf(entries, Dir, parent).dir, name)
                  else answer.None?)
    ensures var (parent, name) := ParentAndName(path);
            MissingAnswer(entries, path, now) <==>
              || (Live(entries, Missing, path, now) && InfoOf(entries, Missing, path).missing)
              || (path != "" && Listed(entries, path, now) && Lacks(InfoOf(entries, Dir, parent).dir, name))
    ensures var (parent, name) := ParentAndName(path);
            var own := Live(entries, Link, path, now) && InfoOf(entries, Link, path).link.Some?;
            var answer := LinkAnswer(entries, path, now);
            && (own ==> answer == InfoOf(entries, Link, path).link)
            && (!own ==>
                  if Listed(entries, path, now) then
                    if answer.Some? then LastLink(InfoOf(entries, Dir, parent).dir, name, answer.value)
                    else LacksLink(InfoOf(entries, Dir, parent).dir, name)
                  else answer.None?)
    ensures var answer := ListingAnswer(entries, path, now);
            if Live(entries, Dir, path, now) && InfoOf(entries, Dir, path).dir != []
            then answer == Some(InfoOf(entries, Dir, path).dir) else answer.None?
  {
    hide KeyOf, ParentAndName, IndexAttrs, IndexLinks, LastAttr, LastLink, Lacks, LacksLink, WellKeyed;
    var (parent, name) := ParentAndName(path);
    if KeyOf(Dir, parent) in entries {
      KeyedPath(entries, Dir, parent);
      IndexedByLast(entries[KeyOf(Dir, parent)].value.dir, name);
    }
  }

  /** A link target comes from an entry of its own, or is that of the last link of its name in the parent listing. */
  ghost predicate LinkSource(entries: Entries, path: string, now: int, target: string) {
    || (Live(entries, Link, path, now) && InfoOf(entries, Link, path).link == Some(target))
    || (Listed(entries, path, now) && LastLink(InfoOf(entries, Dir, Parent(path)).dir, ParentAndName(path).1, target))
  }

  lemma LinkSourced(entries: Entries, path: string, now: int)
    requires WellKeyed(entries)
    ensures LinkAnswer(entries, path, now).Some? ==>
              LinkSource(entries, path, now, LinkAnswer(entries, path, now).value)
  {
    hide KeyOf, ParentAndName, LastLink, WellKeyed, LinkAnswer, Live, InfoOf;
    AnswersExactly(entries, path, now);
  }

  /** A lookup may drop expired entries and renew sequence numbers, nothing else. */
  ghost predicate Quieter(after: Entries, before: Entries) {
    forall key :: key in after ==>
      key in before && after[key].value == before[key].value && after[key].expires == before[key].expires
  }

  /** A lookup drops no entry that is still alive. */
  ghost predicate Retains(before: Entries, after: Entries, now: int) {
    forall key :: key in before && now <= before[key].expires ==> key in after
  }

  /** A store adds one entry; the eviction it ends with may drop others. */
  ghost predicate Stores(before: Entries, key: string, info: Info, after: Entries) {
    forall k :: k in after ==> if k == key then after[k].value == info else k in before && after[k] == before[k]
  }

  function AttrInfo(path: string, attr: FileAttr): Info {
    Info(path, Some(attr), [], None, None, None, false)
  }

  function MissingInfo(path: string): Info {
    Info(path, None, [], None, None, None, true)
  }

  function LinkInfo(path: string, target: string): Info {
    Info(path, None, [], None, None, Some(target), false)
  }

  /** The attribute index of a listing: a later entry with the same name wins. */
  function IndexAttrs(entries: seq<DirEntry>): map<string, FileAttr> {
    if entries == [] then map[]
    else IndexAttrs(entries[..|entries| - 1])[entries[|entries| - 1].name := entries[|entries| - 1].attr]
  }

  function IndexLinks(entries: seq<DirEntry>): map<string, string> {
    if entries == [] then map[]
    else
      var rest, last := IndexLinks(entries[..|entries| - 1]), entries[|entries| - 1];
      if IsSymlink(last.attr) && last.linkTarget != "" then rest[last.name := last.linkTarget] else rest
  }

  /** An entry for a symbolic link whose target is known; the mode bit is os.ModeSymlink. */
  predicate IsLink(entry: DirEntry, name: string) {
    entry.name == name && entry.attr.mode / 0x800_0000 % 2 == 1 && entry.linkTarget != ""
  }

  /** The last entry of a listing for a name has the attributes. */
  ghost predicate LastAttr(entries: seq<DirEntry>, name: string, attr: FileAttr) {
    exists i :: 0 <= i < |entries| && entries[i].name == name && entries[i].attr == attr
             && forall j :: i < j < |entries| ==> entries[j].name != name
  }

  /** The last link of a listing with a name has the target. */
  ghost predicate LastLink(entries: seq<DirEntry>, name: string, target: string) {
    exists i :: 0 <= i < |entries| && IsLink(entries[i], name) && entries[i].linkTarget == target
             && forall j :: i < j < |entries| ==> !IsLink(entries[j], name)
  }

  ghost predicate Lacks(entries: seq<DirEntry>, name: string) {
    forall i :: 0 <= i < |entries| ==> entries[i].name != name
  }

  ghost predicate LacksLink(entries: seq<DirEntry>, name: string) {
    forall i :: 0 <= i < |entries| ==> !IsLink(entries[i], name)
  }

  lemma {:induction false} AttrsByLast(entries: seq<DirEntry>, name: string)
    ensures name !in IndexAttrs(entries) <==> Lacks(entries, name)
    ensures name in IndexAttrs(entries) ==> LastAttr(entries, name, IndexAttrs(entries)[name])
  {
    if entries != [] {
      AttrsByLast(entries[..|entries| - 1], name);
      LastAttrNext(entries[..|entries| - 1], entries[|entries| - 1], name);
      assert entries == entries[..|entries| - 1] + [entries[|entries| - 1]];
    }
  }

  lemma LastAttrNext(front: seq<DirEntry>, last: DirEntry, name: string)
    ensures Lacks(front + [last], name) <==> Lacks(front, name) && last.name != name
    ensures last.name == name ==> LastAttr(front + [last], name, last.attr)
    ensures last.name != name ==> forall attr :: LastAttr(front, name, attr) ==> LastAttr(front + [last], name, attr)
  {
    var entries := front + [last];
    assert entries[|front|] == last && forall i :: 0 <= i < |front| ==> entries[i] == front[i];
    forall attr | LastAttr(front, name, attr) && last.name != name ensures LastAttr(entries, name, attr) {
      var i :| 0 <= i < |front| && front[i].name == name && front[i].attr == attr
            && forall j :: i < j < |front| ==> front[j].name != name;
      assert entries[i].name == name;
    }
  }

  lemma {:induction false} LinksByLast(entries: seq<DirEntry>, name: string)
    ensures name !in IndexLinks(entries) <==> LacksLink(entries, name)
    ensures name in IndexLinks(entries) ==> LastLink(entries, name, IndexLinks(entries)[name])
  {
    if entries != [] {
      LinksByLast(entries[..|entries| - 1], name);
      LastLinkNext(entries[..|entries| - 1], entries[|entries| - 1], name);
      assert entries == entries[..|entries| - 1] + [entries[|entries| - 1]];
    }
  }

  lemma LastLinkNext(front: seq<DirEntry>, last: DirEntry, name: string)
    ensures LacksLink(front + [last], name) <==> LacksLink(front, name) && !IsLink(last, name)
    ensures IsLink(last, name) ==> LastLink(front + [last], name, last.linkTarget)
    ensures !IsLink(last, name) ==>
              forall target :: LastLink(front, name, target) ==> LastLink(front + [last], name, target)
  {
    hide IsLink;
    var entries := front + [last];
    assert entries[|front|] == last && forall i :: 0 <= i < |front| ==> entries[i] == front[i];
    forall target | LastLink(front, name, target) && !IsLink(last, name) ensures LastLink(entries, name, target) {
      var i :| 0 <= i < |front| && IsLink(front[i], name) && front[i].linkTarget == target
            && forall j :: i < j < |front| ==> !IsLink(front[j], name);
      assert IsLink(entries[i], name);
    }
  }

  /** The indices of a listing hold, under each name, what the last entry of that name says, and no other names. */
  lemma IndexedByLast(entries: seq<DirEntry>, name: string)
    ensures name !in IndexAttrs(entries) <==> Lacks(entries, name)
    ensures name in IndexAttrs(entries) ==> LastAttr(entries, name, IndexAttrs(entries)[name])
    ensures name !in IndexLinks(entries) <==> LacksLink(entries, name)
    ensures name in IndexLinks(entries) ==> LastLink(entries, name, IndexLinks(entries)[name])
  {
    AttrsByLast(entries, name);
    LinksByLast(entries, name);
  }

  /** There is only one last entry. */
  lemma LastUnique(entries: seq<DirEntry>, name: string, attr: FileAttr, target: string)
    ensures LastAttr(entries, name, attr) ==> name in IndexAttrs(entries) && IndexAttrs(entries)[name] == attr
    ensures LastLink(entries, name, target) ==> name in IndexLinks(entries) && IndexLinks(entries)[name] == target
  {
    IndexedByLast(entries, name);
  }

  function DirInfo(path: string, entries: seq<DirEntry>): Info {
    Info(path, None, entries, Some(IndexAttrs(entries)), Some(IndexLinks(entries)), None, false)
  }

  /** What invalidateChange leaves: nothing at or below the path, and nothing about its parent itself. */
  function Swept(entries: Entries, path: string): Entries {
    map key | key in entries && !Covers(path, entries[key].value.path) && entries[key].value.path != DirOrRoot(path)
            :: entries[key]
  }

  /** Nothing else goes: an entry at another path that is neither below the changed one nor its parent stays. */
  lemma SweptExactly(entries: Entries, path: string, key: string)
    requires Parent(path) != "."
    ensures key in Swept(entries, path) <==>
              key in entries && var p := entries[key].value.path; p != path && !PathPrefix(p, path) && p != Parent(path)
    ensures key in Swept(entries, path) ==> Swept(entries, path)[key] == entries[key]
  {
    DirAgrees(path);
  }

  /** The cache operations, one locked section each. */
  datatype Op =
    | Look
    | PutAttr(path: string, attr: FileAttr)
    | PutMissing(path: string)
    | PutLink(path: string, target: string)
    | PutDir(path: string, entries: seq<DirEntry>)
    | Change(path: string)

  ghost predicate Step(before: Entries, op: Op, after: Entries) {
    match op
    case Look => Quieter(after, before)
    case PutAttr(path, attr) =>
      KeyOf(Missing, path) !in after && Stores(before, KeyOf(Attr, path), AttrInfo(path, attr), after)
    case PutMissing(path) => Stores(before, KeyOf(Missing, path), MissingInfo(path), after)
    case PutLink(path, target) => Stores(before, KeyOf(Link, path), LinkInfo(path, target), after)
    case PutDir(path, entries) => Stores(before, KeyOf(Dir, path), DirInfo(path, entries), after)
    case Change(path) => after == Swept(before, path)
  }

  lemma WellKeyedStep(before: Entries, op: Op, after: Entries)
    requires WellKeyed(before) && Step(before, op, after)
    ensures WellKeyed(after)
  {
    forall key | key in after ensures Keyed(key, after[key].value) {
      EntryFrom(before, op, after, key);
      if StoredBy(op, key, after[key].value) {
        StoredKeyed(op, key, after[key].value);
      }
    }
  }

  lemma StoredKeyed(op: Op, key: string, info: Info)
    requires StoredBy(op, key, info)
    ensures Keyed(key, info)
  {
    hide KeyOf;
    match op
    case PutAttr(path, _) => assert key == KeyOf(Attr, info.path);
    case PutMissing(path) => assert key == KeyOf(Missing, info.path);
    case PutLink(path, _) => assert key == KeyOf(Link, info.path);
    case PutDir(path, _) => assert key == KeyOf(Dir, info.path);
    case _ =>
  }

  /** The entries a lookup of a path can be answered from. */
  ghost predicate Silent(entries: Entries, path: string) {
    && KeyOf(Attr, path) !in entries && KeyOf(Missing, path) !in entries && KeyOf(Link, path) !in entries
    && KeyOf(Dir, Parent(path)) !in entries
  }

  /** Operations that bring news about a path: stores of its own, or of its parent's listing. */
  predicate Feeds(op: Op, path: string) {
    match op
    case PutAttr(p, _) => p == path
    case PutMissing(p) => p == path
    case PutLink(p, _) => p == path
    case PutDir(p, _) => p == Parent(path)
    case _ => false
  }

  /** A change sweeps away everything a lookup at or below the changed path could be answered from. */
  lemma ChangeSilences(entries: Entries, path: string, below: string)
    requires WellKeyed(entries) && Covers(path, below) && Parent(path) != "."
    ensures Silent(Swept(entries, path), below)
  {
    DirAgrees(path);
    if below != path {
      ParentStaysBelow(path, below);
    }
    forall kind | KeyOf(kind, below) in entries ensures entries[KeyOf(kind, below)].value.path == below {
      KeyedPath(entries, kind, below);
    }
    if KeyOf(Dir, Parent(below)) in entries {
      KeyedPath(entries, Dir, Parent(below));
    }
  }

  lemma SilentStep(before: Entries, op: Op, after: Entries, path: string)
    requires Silent(before, path) && Step(before, op, after) && !Feeds(op, path)
    ensures Silent(after, path)
  {
    forall k, p, l, q | KeyOf(k, p) == KeyOf(l, q) ensures k == l && p == q {
      KeyInjective(k, p, l, q);
    }
  }

  ghost predicate Run(states: seq<Entries>, ops: seq<Op>) {
    && |states| == |ops| + 1 && WellKeyed(states[0])
    && forall i :: 0 <= i < |ops| ==> Step(states[i], ops[i], states[i + 1])
  }

  lemma {:induction false} RunWellKeyed(states: seq<Entries>, ops: seq<Op>, i: nat)
    requires Run(states, ops) && i < |states|
    ensures WellKeyed(states[i])
  {
    if i > 0 {
      RunWellKeyed(states, ops, i - 1);
      WellKeyedStep(states[i - 1], ops[i - 1], states[i]);
    }
  }

  lemma {:induction false} StaysSilent(states: seq<Entries>, ops: seq<Op>, c: nat, n: nat, below: string)
    requires Run(states, ops) && c < n < |states|
    requires ops[c].Change? && Parent(ops[c].path) != "." && Covers(ops[c].path, below)
    requires forall i :: c < i < n ==> !Feeds(ops[i], below)
    ensures Silent(states[n], below)
  {
    if n == c + 1 {
      RunWellKeyed(states, ops, c);
      ChangeSilences(states[c], ops[c].path, below);
    } else {
      StaysSilent(states, ops, c, n - 1, below);
      SilentStep(states[n - 1], ops[n - 1], states[n], below);
    }
  }

  /** The entry that an operation stores. */
  predicate StoredBy(op: Op, key: string, info: Info) {
    match op
    case PutAttr(path, attr) => key == KeyOf(Attr, path) && info == AttrInfo(path, attr)
    case PutMissing(path) => key == KeyOf(Missing, path) && info == MissingInfo(path)
    case PutLink(path, target) => key == KeyOf(Link, path) && info == LinkInfo(path, target)
    case PutDir(path, entries) => key == KeyOf(Dir, path) && info == DirInfo(path, entries)
    case _ => false
  }

  /** Every entry was there before an operation, or the operation stored it. */
  lemma EntryFrom(before: Entries, op: Op, after: Entries, key: string)
    requires Step(before, op, after) && key in after
    ensures StoredBy(op, key, after[key].value) || (key in before && before[key].value == after[key].value)
  {
  }

  /** The entries from which a lookup of a path, or a listing of its parent, can be answered. */
  predicate Answers(key: string, path: string) {
    || key == KeyOf(Attr, path) || key == KeyOf(Missing, path) || key == KeyOf(Link, path)
    || key == KeyOf(Dir, Parent(path))
  }

  /** An operation after the change stored the entry. */
  ghost predicate StoredSince(ops: seq<Op>, c: nat, n: nat, key: string, info: Info)
    requires n <= |ops|
  {
    exists i :: c < i < n && StoredBy(ops[i], key, info)
  }

  /** In any history: whatever can answer a lookup at or below a changed path was stored, as it is, after the change. */
  lemma {:induction false} StoredAfterChange(states: seq<Entries>, ops: seq<Op>, c: nat, n: nat, below: string,
                                             key: string)
    requires Run(states, ops) && c < n < |states|
    requires ops[c].Change? && Parent(ops[c].path) != "." && Covers(ops[c].path, below)
    requires Answers(key, below) && key in states[n]
    ensures StoredSince(ops, c, n, key, states[n][key].value)
  {
    if n == c + 1 {
      RunWellKeyed(states, ops, c);
      ChangeSilences(states[c], ops[c].path, below);
    } else {
      EntryFrom(states[n - 1], ops[n - 1], states[n], key);
      if StoredBy(ops[n - 1], key, states[n][key].value) {
        assert StoredSince(ops, c, n, key, states[n][key].value);
      } else {
        StoredAfterChange(states, ops, c, n - 1, below, key);
        var i :| c < i < n - 1 && StoredBy(ops[i], key, states[n][key].value);
      }
    }
  }

  /** The operation that a lookup at a path is answered from, given its answer. */
  ghost predicate TellsAttr(op: Op, path: string, attr: FileAttr) {
    var (parent, name) := ParentAndName(path);
    || op == PutAttr(path, attr)
    || (op.PutDir? && op.path == parent && LastAttr(op.entries, name, attr))
  }

  ghost predicate TellsMissing(op: Op, path: string) {
    var (parent, name) := ParentAndName(path);
    op == PutMissing(path) || (op.PutDir? && op.path == parent && Lacks(op.entries, name))
  }

  ghost predicate TellsLink(op: Op, path: string, target: string) {
    var (parent, name) := ParentAndName(path);
    || op == PutLink(path, target)
    || (op.PutDir? && op.path == parent && LastLink(op.entries, name, target))
  }

  /** What an entry that can answer tells is what the operation that stored it told. */
  lemma StoredTells(op: Op, key: string, info: Info, path: string)
    requires StoredBy(op, key, info)
    ensures key == KeyOf(Attr, path) && info.attr.Some? ==> TellsAttr(op, path, info.attr.value)
    ensures key == KeyOf(Missing, path) && info.missing ==> TellsMissing(op, path)
    ensures key == KeyOf(Link, path) && info.link.Some? ==> TellsLink(op, path, info.link.value)
    ensures key == KeyOf(Dir, Parent(path)) ==>
              && op == PutDir(Parent(path), info.dir) && info.dirAttrs == Some(IndexAttrs(info.dir))
              && info.dirLinks == Some(IndexLinks(info.dir))
  {
    forall k, p, l, q | KeyOf(k, p) == KeyOf(l, q) ensures k == l && p == q {
      KeyInjective(k, p, l, q);
    }
  }

  /**
   * In any history, whatever is stored after a change at a path: every attribute, negative and link answer at or below
   * it, and every listing of its parent, is one that some operation after the change brought. Nothing older answers.
   */
  lemma NothingOldAfterChange(states: seq<Entries>, ops: seq<Op>, c: nat, n: nat, below: string, now: int)
    requires Run(states, ops) && c < n < |states|
    requires ops[c].Change? && Parent(ops[c].path) != "." && Covers(ops[c].path, below)
    ensures AttrAnswer(states[n], below, now).Some? ==>
              exists i :: c < i < n && TellsAttr(ops[i], below, AttrAnswer(states[n], below, now).value)
    ensures MissingAnswer(states[n], below, now) ==> exists i :: c < i < n && TellsMissing(ops[i], below)
    ensures LinkAnswer(states[n], below, now).Some? ==>
              exists i :: c < i < n && TellsLink(ops[i], below, LinkAnswer(states[n], below, now).value)
    ensures ListingAnswer(states[n], Parent(below), now).Some? ==>
              var listing := ListingAnswer(states[n], Parent(below), now).value;
              exists i :: c < i < n && ops[i] == PutDir(Parent(below), listing)
  {
    hide KeyOf, ParentAndName, IndexAttrs, IndexLinks, LastAttr, LastLink, Lacks;
    var (parent, name) := ParentAndName(below);
    forall i | 0 <= i < |ops| && ops[i].PutDir? {
      IndexedByLast(ops[i].entries, name);
    }
    forall key | Answers(key, below) && key in states[n]
      ensures exists i :: c < i < n && StoredBy(ops[i], key, states[n][key].value)
    {
      StoredAfterChange(states, ops, c, n, below, key);
    }
    forall i, key | c < i < n && Answers(key, below) && key in states[n] && StoredBy(ops[i], key, states[n][key].value)
    {
      StoredTells(ops[i], key, states[n][key].value, below);
    }
  }

  lemma FewerEntries(entries: Entries, gone: set<string>, sequence: nat)
    requires Ranked(entries, sequence) && WellKeyed(entries)
    ensures |entries - gone| <= |entries| && Ranked(entries - gone, sequence) && WellKeyed(entries - gone)
    ensures Quieter(entries - gone, entries)
  {
  }

  lemma TouchedEntries(entries: Entries, key: string, stamp: nat)
    requires key in entries && WellKeyed(entries)
    ensures var after := entries[key := entries[key].(stamp := stamp)];
            |after| == |entries| && WellKeyed(after) && Quieter(after, entries)
  {
  }

  lemma StoredEntries(entries: Entries, key: string, kind: Kind, entry: Stamped<Info>, after: Entries)
    requires WellKeyed(entries) && key == KeyOf(kind, entry.value.path) && Within(after, entries[key := entry])
    requires kind == Dir ==> entry.value == DirInfo(entry.value.path, entry.value.dir)
    ensures WellKeyed(after) && Stores(entries, key, entry.value, after) && (key in after ==> after[key] == entry)
  {
  }

  class Cache {
    var entries: Entries
    var sequence: nat
    const capacity: nat
    const ttl: int
    /** The textbook LRU list this cache must agree with. */
    ghost var order: seq<string>

    ghost predicate Valid()
      reads this
    {
      Ranked(entries, sequence) && Lists(order, entries) && |entries| <= capacity && WellKeyed(entries)
    }

    constructor (capacity: nat, ttl: int)
      ensures Valid() && entries == map[] && order == [] && this.capacity == capacity && this.ttl == ttl
    {
      this.capacity, this.ttl := capacity, ttl;
      entries, sequence, order := map[], 0, [];
    }

    /** getLocked: an expired entry is dropped, a live one becomes the most recently used. */
    method GetLocked(key: string, now: int) returns (info: Option<Info>)
      requires Valid()
      modifies this
      ensures Valid() && info == Alive(old(entries), key, now)
      ensures Quieter(entries, old(entries)) && Retains(old(entries), entries, now)
      ensures forall k :: k != key ==> (k in entries <==> k in old(entries))
      ensures order == if info.Some? then Used(old(order), key) else Without(old(order), {key})
    {
      hide Ranked, Lists, Used, Without, WellKeyed;
      if key in entries && now <= entries[key].expires {
        info := Some(entries[key].value);
        var entry := entries[key].(stamp := sequence + 1);
        ListsUse(order, entries, sequence, key, entry);
        TouchedEntries(entries, key, sequence + 1);
        sequence := sequence + 1;
        entries := entries[key := entry];
        order := Used(order, key);
      } else {
        info := None;
        ListsRemove(order, entries, {key});
        FewerEntries(entries, {key}, sequence);
        entries := entries - {key};
        order := Without(order, {key});
      }
    }

    /** put: the entry becomes the most recently used, then the oldest ones go until the cache fits. */
    method Put(key: string, ghost kind: Kind, info: Info, now: int)
      requires Valid() && key == KeyOf(kind, info.path) && (kind == Dir ==> info == DirInfo(info.path, info.dir))
      modifies this
      ensures Valid() && Stores(old(entries), key, info, entries)
      ensures order == Capped(Used(old(order), key), capacity) && (capacity >= 1 ==> key in entries)
      ensures key in entries ==> entries[key] == Stamped(info, now + ttl, sequence)
    {
      hide Ranked, Lists, Used, Capped, WellKeyed, Within, Stores;
      var entry := Stamped(info, now + ttl, sequence + 1);
      ListsUse(order, entries, sequence, key, entry);
      sequence := sequence + 1;
      var rest := EvictDown(entries[key := entry], capacity, Used(order, key));
      WithinRanked(rest, entries[key := entry], sequence);
      StoredEntries(entries, key, kind, entry, rest);
      if capacity >= 1 {
        UsedSurvives(order, key, capacity, rest);
      }
      order := Capped(Used(order, key), capacity);
      entries := rest;
    }

    method GetAttr(path: string, now: int) returns (r: Option<FileAttr>)
      requires Valid()
      modifies this
      ensures Valid() && r == AttrAnswer(old(entries), path, now)
      ensures Step(old(entries), Look, entries) && Retains(old(entries), entries, now)
    {
      hide Ranked, Lists, Used, Without, WellKeyed, ParentAndName;
      var own := GetLocked(KeyOf(Attr, path), now);
      if own.Some? && own.value.attr.Some? {
        return own.value.attr;
      }
      var (parent, name) := ParentAndName(path);
      KeysDiffer(Attr, path, Dir, parent);
      var listing := GetLocked(KeyOf(Dir, parent), now);
      if listing.None? || listing.value.dirAttrs.None? || name !in listing.value.dirAttrs.value {
        return None;
      }
      return Some(listing.value.dirAttrs.value[name]);
    }

    method IsMissing(path: string, now: int) returns (r: bool)
      requires Valid()
      modifies this
      ensures Valid() && r == MissingAnswer(old(entries), path, now)
      ensures Step(old(entries), Look, entries) && Retains(old(entries), entries, now)
    {
      hide Ranked, Lists, Used, Without, WellKeyed, ParentAndName;
      var own := GetLocked(KeyOf(Missing, path), now);
      if own.Some? && own.value.missing {
        return true;
      }
      if path == "" {
        return false;
      }
      var (parent, name) := ParentAndName(path);
      KeysDiffer(Missing, path, Dir, parent);
      var listing := GetLocked(KeyOf(Dir, parent), now);
      return listing.Some? && listing.value.dirAttrs.Some? && name !in listing.value.dirAttrs.value;
    }

    method GetLink(path: string, now: int) returns (r: Option<string>)
      requires Valid()
      modifies this
      ensures Valid() && r == LinkAnswer(old(entries), path, now)
      ensures r.Some? ==> LinkSource(old(entries), path, now, r.value)
      ensures Step(old(entries), Look, entries) && Retains(old(entries), entries, now)
    {
      hide Ranked, Lists, Used, Without, WellKeyed, ParentAndName, LinkSource;
      LinkSourced(entries, path, now);
      var own := GetLocked(KeyOf(Link, path), now);
      if own.Some? && own.value.link.Some? {
        return own.value.link;
      }
      var (parent, name) := ParentAndName(path);
      KeysDiffer(Link, path, Dir, parent);
      var listing := GetLocked(KeyOf(Dir, parent), now);
      if listing.None? || listing.value.dirLinks.None? || name !in listing.value.dirLinks.value {
        return None;
      }
      return Some(listing.value.dirLinks.value[name]);
    }

    method GetDir(path: string, now: int) returns (r: Option<seq<DirEntry>>)
      requires Valid()
      modifies this
      ensures Valid() && r == ListingAnswer(old(entries), path, now)
      ensures Step(old(entries), Look, entries) && Retains(old(entries), entries, now)
    {
      var own := GetLocked(KeyOf(Dir, path), now);
      r := if own.Some? && own.value.dir != [] then Some(own.value.dir) else None;
    }

    /** A positive attribute replaces a negative entry; no attribute, no change. */
    method PutAttrOf(path: string, attr: Option<FileAttr>, now: int)
      requires Valid()
      modifies this
      ensures Valid()
      ensures attr.None? ==> entries == old(entries)
      ensures attr.Some? ==> Step(old(entries), PutAttr(path, attr.value), entries)
      ensures attr.Some? ==>
                order == Capped(Used(Without(old(order), {KeyOf(Missing, path)}), KeyOf(Attr, path)), capacity)
      ensures attr.Some? && capacity >= 1 ==>
                KeyOf(Attr, path) in entries && entries[KeyOf(Attr, path)].expires == now + ttl
    {
      hide Ranked, Lists, Used, Without, Capped, WellKeyed, KeyOf;
      if attr.Some? {
        KeysDiffer(Attr, path, Missing, path);
        Remove({KeyOf(Missing, path)});
        Put(KeyOf(Attr, path), Attr, AttrInfo(path, attr.value), now);
      }
    }

    method PutMissingOf(path: string, now: int)
      requires Valid()
      modifies this
      ensures Valid() && Step(old(entries), PutMissing(path), entries)
      ensures order == Capped(Used(old(order), KeyOf(Missing, path)), capacity)
      ensures capacity >= 1 ==> KeyOf(Missing, path) in entries && entries[KeyOf(Missing, path)].expires == now + ttl
    {
      Put(KeyOf(Missing, path), Missing, MissingInfo(path), now);
    }

    method PutLinkOf(path: string, target: string, now: int)
      requires Valid()
      modifies this
      ensures Valid() && Step(old(entries), PutLink(path, target), entries)
      ensures order == Capped(Used(old(order), KeyOf(Link, path)), capacity)
      ensures capacity >= 1 ==> KeyOf(Link, path) in entries && entries[KeyOf(Link, path)].expires == now + ttl
    {
      Put(KeyOf(Link, path), Link, LinkInfo(path, target), now);
    }

    /** A listing is stored as one entry, with its names indexed. */
    method PutDirOf(path: string, listing: seq<DirEntry>, now: int)
      requires Valid()
      modifies this
      ensures Valid() && Step(old(entries), PutDir(path, listing), entries)
      ensures order == Capped(Used(old(order), KeyOf(Dir, path)), capacity)
      ensures capacity >= 1 ==> KeyOf(Dir, path) in entries && entries[KeyOf(Dir, path)].expires == now + ttl
    {
      hide Ranked, Lists, WellKeyed;
      var attributes, links := map[], map[];
      for i := 0 to |listing|
        invariant attributes == IndexAttrs(listing[..i]) && links == IndexLinks(listing[..i])
      {
        var entry := listing[i];
        assert listing[..i + 1][..i] == listing[..i];
        attributes := attributes[entry.name := entry.attr];
        if IsSymlink(entry.attr) && entry.linkTarget != "" {
          links := links[entry.name := entry.linkTarget];
        }
      }
      assert listing[..|listing|] == listing;
      Put(KeyOf(Dir, path), Dir, Info(path, None, listing, Some(attributes), Some(links), None, false), now);
    }

    /** invalidate on the path and invalidateExact on its parent, as invalidateChange calls them. */
    method InvalidateChange(path: string)
      requires Valid()
      modifies this
      ensures Valid() && Step(old(entries), Change(path), entries)
      ensures Quieter(entries, old(entries))
    {
      hide Ranked, Lists, Without, WellKeyed, Covers, DirOrRoot;
      ghost var before := entries;
      Remove(set key | key in entries && Covers(path, entries[key].value.path));
      Remove(set key | key in entries && entries[key].value.path == DirOrRoot(path));
      assert entries == Swept(before, path);
    }

    method Remove(gone: set<string>)
      requires Valid()
      modifies this
      ensures Valid() && entries == old(entries) - gone && order == Without(old(order), gone)
    {
      hide Ranked, Lists, Without, WellKeyed;
      ListsRemove(order, entries, gone);
      FewerEntries(entries, gone, sequence);
      entries := entries - gone;
      order := Without(order, gone);
    }
  }
}
