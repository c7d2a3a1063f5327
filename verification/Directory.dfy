/**
 * Directory listings over the wire: recursive paging (pkg/protocol/directory.go), the provider's streaming loop
 * (pkg/provider/filesystem/directory.go, pkg/provider/filesystem_handler.go) and the agent's reassembly
 * (pkg/agent/remote/filesystem.go).
 */
module Directory {
  import opened Files
  import opened Frames
  import opened MetadataCache

  const PAGE: nat := 0x10_0000
  const EOVERFLOW: nat := 75

  /** JSON for one entry, and the parser of arrays; `text` marks the entries whose strings are valid UTF-8. */
  datatype Json = Json(entry: DirEntry -> seq<Byte>, parse: seq<Byte> -> Option<seq<DirEntry>>, text: DirEntry -> bool)

  function Elements(json: Json, entries: seq<DirEntry>): seq<Byte> {
    if entries == [] then []
    else json.entry(entries[0]) + if |entries| == 1 then [] else [44] + Elements(json, entries[1..])
  }

  /** json.Marshal of a list of entries. */
  function Encode(json: Json, entries: seq<DirEntry>): seq<Byte> {
    [91] + Elements(json, entries) + [93]
  }

  ghost predicate Faithful(json: Json) {
    forall entries: seq<DirEntry> :: AllText(json, entries) ==> json.parse(Encode(json, entries)) == Some(entries)
  }

  predicate AllText(json: Json, entries: seq<DirEntry>) {
    forall i :: 0 <= i < |entries| ==> json.text(entries[i])
  }

  /** EncodeDirEntryPages: one page if it fits, otherwise the pages of the two halves. */
  function EncodePages(json: Json, entries: seq<DirEntry>): Option<seq<seq<Byte>>>
    decreases |entries|
  {
    if entries == [] then Some([])
    else
      var data := Encode(json, entries);
      if |data| <= MAX_RESPONSE && |data| <= PAGE then Some([data])
      else if |entries| == 1 then None
      else
        var middle := |entries| / 2;
        var left, right := EncodePages(json, entries[..middle]), EncodePages(json, entries[middle..]);
        if left.None? || right.None? then None else Some(left.value + right.value)
  }

  /** No entry is longer than a list that contains it. */
  lemma {:induction false} EntryFits(json: Json, entries: seq<DirEntry>, i: nat)
    requires i < |entries|
    ensures |json.entry(entries[i])| <= |Elements(json, entries)|
  {
    if i > 0 {
      EntryFits(json, entries[1..], i - 1);
    }
  }

  /** Paging succeeds exactly when each entry fits into a page of its own. */
  lemma {:induction false} PagesSucceed(json: Json, entries: seq<DirEntry>)
    ensures EncodePages(json, entries).Some? <==>
              forall i :: 0 <= i < |entries| ==> |Encode(json, [entries[i]])| <= PAGE
    decreases |entries|
  {
    forall i | 0 <= i < |entries| ensures |Encode(json, [entries[i]])| <= |Encode(json, entries)| {
      EntryFits(json, entries, i);
    }
    if |entries| == 1 {
      assert [entries[0]] == entries;
    } else if |entries| > 1 && |Encode(json, entries)| > PAGE {
      var middle := |entries| / 2;
      PagesSucceed(json, entries[..middle]);
      PagesSucceed(json, entries[middle..]);
      assert entries == entries[..middle] + entries[middle..];
      assert forall i :: 0 <= i < |entries| - middle ==> entries[middle..][i] == entries[middle + i];
    }
  }

  /** The text of a list: its entries between brackets, with commas between them. */
  lemma EncodedText(json: Json, a: seq<DirEntry>, b: seq<DirEntry>, entry: DirEntry)
    ensures Encode(json, []) == ['[' as int as Byte, ']' as int as Byte]
    ensures Encode(json, [entry]) == ['[' as int as Byte] + json.entry(entry) + [']' as int as Byte]
    ensures a != [] && b != [] ==>
              Encode(json, a + b) ==
              Encode(json, a)[..|Encode(json, a)| - 1] + [',' as int as Byte] + Encode(json, b)[1..]
  {
    assert Elements(json, [entry]) == json.entry(entry);
    if a != [] && b != [] {
      ElementsAppend(json, a, b);
      assert Encode(json, a)[..|Encode(json, a)| - 1] == [91] + Elements(json, a);
      assert Encode(json, b)[1..] == Elements(json, b) + [93];
    }
  }

  lemma {:induction false} ElementsAppend(json: Json, a: seq<DirEntry>, b: seq<DirEntry>)
    requires a != [] && b != []
    ensures Elements(json, a + b) == Elements(json, a) + [44] + Elements(json, b)
  {
    assert (a + b)[1..] == a[1..] + b && (a + b)[0] == a[0];
    if |a| > 1 {
      ElementsAppend(json, a[1..], b);
    } else {
      assert a[1..] + b == b;
    }
  }

  /** A list that fits is one page, and an empty one is none. */
  lemma OnePage(json: Json, entries: seq<DirEntry>)
    ensures entries == [] ==> EncodePages(json, entries) == Some([])
    ensures entries != [] && |Encode(json, entries)| <= 0x10_0000 ==>
              EncodePages(json, entries) == Some([Encode(json, entries)])
  {
  }

  /** The pages of a listing, one after the other. */
  function DecodePages(json: Json, pages: seq<seq<Byte>>): Option<seq<DirEntry>> {
    if pages == [] then Some([])
    else
      var head, tail := json.parse(pages[0]), DecodePages(json, pages[1..]);
      if head.None? || tail.None? then None else Some(head.value + tail.value)
  }

  lemma {:induction false} DecodeAppend(json: Json, a: seq<seq<Byte>>, b: seq<seq<Byte>>)
    requires DecodePages(json, a).Some? && DecodePages(json, b).Some?
    ensures DecodePages(json, a + b) == Some(DecodePages(json, a).value + DecodePages(json, b).value)
  {
    if a == [] {
      assert a + b == b && [] + DecodePages(json, b).value == DecodePages(json, b).value;
    } else {
      DecodeAppend(json, a[1..], b);
      assert (a + b)[1..] == a[1..] + b;
      var x, y, z := json.parse(a[0]).value, DecodePages(json, a[1..]).value, DecodePages(json, b).value;
      assert (x + y) + z == x + (y + z);
    }
  }

  /** Pages are never empty, fit the limit, and together hold every entry once and in order. */
  lemma {:induction false} PagesDecode(json: Json, entries: seq<DirEntry>)
    requires Faithful(json) && AllText(json, entries) && EncodePages(json, entries).Some?
    ensures var pages := EncodePages(json, entries).value;
            && DecodePages(json, pages) == Some(entries)
            && forall i :: 0 <= i < |pages| ==> 0 < |pages[i]| <= PAGE
    decreases |entries|
  {
    hide Faithful, Encode;
    if entries != [] {
      var data := Encode(json, entries);
      FaithfulTo(json, entries);
      if |data| > PAGE {
        var middle := |entries| / 2;
        PagesDecode(json, entries[..middle]);
        PagesDecode(json, entries[middle..]);
        DecodeAppend(json, EncodePages(json, entries[..middle]).value, EncodePages(json, entries[middle..]).value);
        assert entries == entries[..middle] + entries[middle..];
      } else {
        assert [data][1..] == [] && entries + [] == entries;
      }
    }
  }

  lemma FaithfulTo(json: Json, entries: seq<DirEntry>)
    ensures Faithful(json) && AllText(json, entries) ==> json.parse(Encode(json, entries)) == Some(entries)
    ensures |Encode(json, entries)| > 0
  {
  }

  /** One directory entry as the provider finds it; its Info may fail, and special files are skipped. */
  datatype Found = Found(readable: bool, special: bool, entry: DirEntry)

  /** What one ReadDir(256) call returns. */
  datatype Batch = Batch(found: seq<Found>, end: End)
  datatype End = More | Eof | Broken(code: nat)

  /** The entries of a batch that are shown. */
  function Shown(found: seq<Found>): seq<DirEntry> {
    if found == [] then []
    else
      var last := found[|found| - 1];
      Shown(found[..|found| - 1]) + if last.readable && !last.special then [last.entry] else []
  }

  predicate Visible(found: Found) {
    found.readable && !found.special
  }

  /** The places of the entries that are shown. */
  function Places(found: seq<Found>): (places: seq<nat>)
    ensures forall i :: 0 <= i < |places| ==> places[i] < |found| && Visible(found[places[i]])
    ensures forall i, j :: 0 <= i < j < |places| ==> places[i] < places[j]
  {
    if found == [] then []
    else Places(found[..|found| - 1]) + if Visible(found[|found| - 1]) then [|found| - 1] else []
  }

  /**
   * What is shown are the entries at ascending places, so each once and in order, and none that is visible is left out.
   */
  lemma {:induction false} ShownInPlace(found: seq<Found>, k: nat)
    requires k < |found|
    ensures k in Places(found) <==> found[k].readable && !found[k].special
    ensures |Shown(found)| == |Places(found)|
    ensures forall i :: 0 <= i < |Places(found)| ==> Shown(found)[i] == found[Places(found)[i]].entry
  {
    ShownAtPlaces(found);
    if k < |found| - 1 {
      ShownInPlace(found[..|found| - 1], k);
    }
  }

  lemma {:induction false} ShownAtPlaces(found: seq<Found>)
    ensures |Shown(found)| == |Places(found)|
    ensures forall i :: 0 <= i < |Places(found)| ==> Shown(found)[i] == found[Places(found)[i]].entry
  {
    if found != [] {
      ShownAtPlaces(found[..|found| - 1]);
    }
  }

  predicate AtEnd(batch: Batch) {
    batch.end.Eof? || batch.found == []
  }

  /** The listing of a directory that is read in batches, or an error. A directory that is used up ends. */
  function Listed(json: Json, batches: seq<Batch>): Option<seq<DirEntry>> {
    if batches == [] then Some([])
    else
      var shown := Shown(batches[0].found);
      if batches[0].end.Broken? || EncodePages(json, shown).None? then None
      else if AtEnd(batches[0]) then Some(shown)
      else
        var others := Listed(json, batches[1..]);
        if others.None? then None else Some(shown + others.value)
  }

  /** What all of the batches show, one after the other. */
  function Joined(batches: seq<Batch>): seq<DirEntry> {
    if batches == [] then [] else Shown(batches[0].found) + Joined(batches[1..])
  }

  /** The first n batches are the directory: the n-th is the first that ends it, or there are no more. */
  ghost predicate EndsAt(batches: seq<Batch>, n: nat) {
    && n <= |batches|
    && (forall i :: 0 <= i < n - 1 ==> !batches[i].end.Eof? && batches[i].found != [])
    && (n < |batches| ==> n > 0 && (batches[n - 1].end.Eof? || batches[n - 1].found == []))
  }

  /** Every batch can be read, and every entry it shows fits into a page of its own. */
  ghost predicate Presentable(json: Json, batches: seq<Batch>) {
    forall i :: 0 <= i < |batches| ==> !batches[i].end.Broken? && Fits(json, Shown(batches[i].found))
  }

  ghost predicate Fits(json: Json, entries: seq<DirEntry>) {
    forall j :: 0 <= j < |entries| ==> |Encode(json, [entries[j]])| <= 0x10_0000
  }

  /**
   * A listing stops at the first batch that is the last of the directory and nowhere else: it has all that is shown up
   * to there, unless a batch up to there cannot be read or presented.
   */
  lemma {:induction false} ListedExactly(json: Json, batches: seq<Batch>, n: nat)
    requires EndsAt(batches, n)
    ensures Listed(json, batches).Some? <==> Presentable(json, batches[..n])
    ensures Listed(json, batches).Some? ==> Listed(json, batches).value == Joined(batches[..n])
  {
    hide EncodePages, Encode, Shown;
    if batches != [] {
      assert n > 0;
      var head, front := batches[0], batches[..n];
      PagesSucceed(json, Shown(head.found));
      assert front[0] == head && front[1..] == batches[1..][..n - 1];
      if n > 1 {
        ListedExactly(json, batches[1..], n - 1);
        assert forall i :: 0 <= i < n - 1 ==> front[1..][i] == front[i + 1];
        assert Presentable(json, front[1..]) ==>
            forall i :: 1 <= i < n ==> !front[i].end.Broken? && Fits(json, Shown(front[1..][i - 1].found));
      } else {
        assert front == [head];
        assert Joined(front[1..]) == [] && Shown(head.found) + [] == Shown(head.found);
        if n == |batches| && !head.end.Eof? && head.found != [] {
          assert batches[1..] == [];
        }
      }
    }
  }

  lemma {:induction false} EndsSomewhere(batches: seq<Batch>) returns (n: nat)
    ensures EndsAt(batches, n)
  {
    if batches == [] {
      n := 0;
    } else if batches[0].end.Eof? || batches[0].found == [] {
      n := 1;
    } else {
      n := EndsSomewhere(batches[1..]);
      n := n + 1;
    }
  }

  /** The header fields of the responses to a readdir request. */
  datatype Fields = Fields(errorCode: nat, more: bool)

  type Item = (Fields, seq<Byte>)

  function PageItems(pages: seq<seq<Byte>>): seq<Item> {
    seq(|pages|, i requires 0 <= i < |pages| => (Fields(0, true), pages[i]))
  }

  /** An error code is never zero. */
  function Errno(code: nat): nat {
    if code == 0 then 5 else code
  }

  /** The responses the provider has to send. */
  function Plan(json: Json, batches: seq<Batch>): seq<Item> {
    if batches == [] then [(Fields(0, false), [])]
    else
      var pages := EncodePages(json, Shown(batches[0].found));
      if batches[0].end.Broken? then [(Fields(Errno(batches[0].end.code), false), [])]
      else if pages.None? then [(Fields(EOVERFLOW, false), [])]
      else PageItems(pages.value) + if AtEnd(batches[0]) then [(Fields(0, false), [])] else Plan(json, batches[1..])
  }

  /** What the agent makes of a list of responses. */
  function Collect(json: Json, items: seq<Item>): Option<seq<DirEntry>> {
    if items == [] || items[0].0.errorCode != 0 then None
    else
      var page := if items[0].1 == [] then Some([]) else json.parse(items[0].1);
      if page.None? then None
      else if !items[0].0.more then page
      else
        var others := Collect(json, items[1..]);
        if others.None? then None else Some(page.value + others.value)
  }

  lemma {:induction false} CollectPages(json: Json, pages: seq<seq<Byte>>, tail: seq<Item>)
    requires DecodePages(json, pages).Some? && forall i :: 0 <= i < |pages| ==> pages[i] != []
    ensures Collect(json, PageItems(pages) + tail) ==
              if Collect(json, tail).None? then None
              else Some(DecodePages(json, pages).value + Collect(json, tail).value)
  {
    var items := PageItems(pages) + tail;
    if pages == [] {
      assert items == tail;
      if Collect(json, tail).Some? {
        assert [] + Collect(json, tail).value == Collect(json, tail).value;
      }
    } else {
      CollectPages(json, pages[1..], tail);
      assert items[1..] == PageItems(pages[1..]) + tail;
      if Collect(json, tail).Some? {
        var x, y, z := json.parse(pages[0]).value, DecodePages(json, pages[1..]).value, Collect(json, tail).value;
        assert (x + y) + z == x + (y + z);
      }
    }
  }

  ghost predicate Readable(json: Json, batches: seq<Batch>) {
    forall i :: 0 <= i < |batches| ==> AllText(json, Shown(batches[i].found))
  }

  /** Across batches and pages, the agent collects exactly the shown entries, or an error. */
  lemma {:induction false} CollectPlan(json: Json, batches: seq<Batch>)
    requires Faithful(json) && Readable(json, batches)
    ensures Collect(json, Plan(json, batches)) == Listed(json, batches)
  {
    hide Faithful, EncodePages, AllText;
    if batches != [] {
      var shown := Shown(batches[0].found);
      var pages := EncodePages(json, shown);
      if !batches[0].end.Broken? && pages.Some? {
        PagesDecode(json, shown);
        if AtEnd(batches[0]) {
          CollectPages(json, pages.value, [(Fields(0, false), [])]);
          assert shown + [] == shown;
        } else {
          CollectPlan(json, batches[1..]);
          CollectPages(json, pages.value, Plan(json, batches[1..]));
        }
      }
    }
  }

  /** The bytes of a list of responses; what follows a response that cannot be encoded is never sent. */
  function Wire(codec: Codec<Fields>, items: seq<Item>): seq<Byte> {
    if items == [] then []
    else
      var head := Message(codec, items[0].0, items[0].1, MAX_RESPONSE);
      if head.None? then [] else head.value + Wire(codec, items[1..])
  }

  predicate Sendable(codec: Codec<Fields>, items: seq<Item>) {
    forall i :: 0 <= i < |items| ==> Message(codec, items[i].0, items[i].1, MAX_RESPONSE).Some?
  }

  lemma ParseShrinks(codec: Codec<Fields>, bytes: seq<Byte>, limit: nat)
    ensures Parse(codec, bytes, limit).Some? ==> |Parse(codec, bytes, limit).value.rest| < |bytes|
  {
  }

  /** The agent's ReadDir as a function of the bytes it receives before the stream ends. */
  function ReadAll(codec: Codec<Fields>, json: Json, bytes: seq<Byte>): Option<seq<DirEntry>>
    decreases |bytes|
  {
    ParseShrinks(codec, bytes, MAX_RESPONSE);
    var parsed := Parse(codec, bytes, MAX_RESPONSE);
    if parsed.None? || parsed.value.header.fields.errorCode != 0 then None
    else
      var page := if parsed.value.data == [] then Some([]) else json.parse(parsed.value.data);
      if page.None? then None
      else if !parsed.value.header.fields.more then page
      else
        var others := ReadAll(codec, json, parsed.value.rest);
        if others.None? then None else Some(page.value + others.value)
  }

  /** Numbers and booleans always survive JSON. */
  ghost predicate Plain(codec: Codec<Fields>) {
    Lawful(codec) && forall f: Fields :: codec.text(f)
  }

  /** Nothing but the last response ends a listing. */
  predicate Chained(items: seq<Item>) {
    forall i :: 0 <= i < |items| - 1 ==> items[i].0 == Fields(0, true)
  }

  lemma ReadNothing(codec: Codec<Fields>, json: Json)
    ensures ReadAll(codec, json, []).None?
  {
  }

  /** One response more: reading it is collecting it, and reading less than all of it is an error. */
  lemma ReadItem(codec: Codec<Fields>, json: Json, item: Item, rest: seq<Byte>)
    requires Plain(codec) && Message(codec, item.0, item.1, MAX_RESPONSE).Some?
    ensures var message := Message(codec, item.0, item.1, MAX_RESPONSE).value;
            && ReadAll(codec, json, message + rest) ==
                 (if item.0.errorCode != 0 then None
                  else
                    var page := if item.1 == [] then Some([]) else json.parse(item.1);
                    if page.None? || !item.0.more then page
                    else if ReadAll(codec, json, rest).None? then None
                    else Some(page.value + ReadAll(codec, json, rest).value))
            && forall n: nat :: n < |message| ==> ReadAll(codec, json, message[..n]).None?
  {
    hide Message, Parse, Lawful, Sealed;
    var message := Message(codec, item.0, item.1, MAX_RESPONSE).value;
    MessageRoundTrip(codec, item.0, item.1, MAX_RESPONSE, rest);
    SealedFields(codec, item.0, item.1);
    forall n: nat | n < |message| ensures ReadAll(codec, json, message[..n]).None? {
      MessageCut(codec, item.0, item.1, MAX_RESPONSE, n);
    }
  }

  /** The whole of what was sent reads back as what it means; less than the whole is an error. */
  lemma {:induction false} ReadWire(codec: Codec<Fields>, json: Json, items: seq<Item>, n: nat)
    requires Plain(codec) && Chained(items) && n <= |Wire(codec, items)|
    ensures n == |Wire(codec, items)| && Sendable(codec, items) ==>
              ReadAll(codec, json, Wire(codec, items)[..n]) == Collect(json, items)
    ensures n < |Wire(codec, items)| || !Sendable(codec, items) ==> ReadAll(codec, json, Wire(codec, items)[..n]).None?
  {
    hide Message, Plain, ReadAll;
    var wire := Wire(codec, items);
    ReadNothing(codec, json);
    if items == [] {
      assert wire[..n] == [];
    } else if Message(codec, items[0].0, items[0].1, MAX_RESPONSE).None? {
      assert wire[..n] == [];
    } else {
      var head, tail := Message(codec, items[0].0, items[0].1, MAX_RESPONSE).value, Wire(codec, items[1..]);
      assert wire == head + tail;
      if n < |head| {
        ReadItem(codec, json, items[0], []);
        assert wire[..n] == head[..n];
      } else {
        ReadItem(codec, json, items[0], tail[..n - |head|]);
        assert wire[..n] == head + tail[..n - |head|];
        ReadWire(codec, json, items[1..], n - |head|);
        assert forall i :: 0 <= i < |items| - 1 ==> items[1..][i] == items[i + 1];
        if |items| == 1 {
          assert tail == [];
        }
      }
    }
  }

  lemma {:induction false} PlanChained(json: Json, batches: seq<Batch>)
    ensures Chained(Plan(json, batches)) && Plan(json, batches) != []
  {
    if batches != [] {
      PlanChained(json, batches[1..]);
    }
  }

  /**
   * The agent's ReadDir returns an error or exactly the shown entries of the directory, each once and in order; and
   * it returns them exactly when nothing failed on the way and every byte arrived.
   */
  lemma ReadDirExact(codec: Codec<Fields>, json: Json, batches: seq<Batch>, n: nat)
    requires Plain(codec) && Faithful(json) && Readable(json, batches) && n <= |Wire(codec, Plan(json, batches))|
    ensures var wire := Wire(codec, Plan(json, batches));
            ReadAll(codec, json, wire[..n]) ==
              if n == |wire| && Sendable(codec, Plan(json, batches)) then Listed(json, batches) else None
  {
    PlanChained(json, batches);
    CollectPlan(json, batches);
    ReadWire(codec, json, Plan(json, batches), n);
  }

  /** While the provider sends: what went out, followed by what is still to be sent, is the goal. */
  ghost predicate Ahead(codec: Codec<Fields>, sent: seq<Byte>, room: nat, todo: seq<Item>, goal: seq<Byte>,
                        total: nat) {
    sent + Wire(codec, todo) == goal && |sent| + room == total
  }

  /** When it is done: as much of the goal as there was room for. */
  ghost predicate Ended(sent: seq<Byte>, goal: seq<Byte>, total: nat) {
    sent == goal[..Min(|goal|, total)]
  }

  lemma ItemDelivered(codec: Codec<Fields>, sent: seq<Byte>, room: nat, todo: seq<Item>, goal: seq<Byte>, total: nat,
                      sent': seq<Byte>, room': nat, ok: bool)
    requires todo != [] && Ahead(codec, sent, room, todo, goal, total)
    requires var message := Message(codec, todo[0].0, todo[0].1, MAX_RESPONSE);
             if message.None? then !ok && sent' == sent && room' == room
             else Delivers(sent, room, message.value, sent', room', ok)
    ensures if ok then Ahead(codec, sent', room', todo[1..], goal, total) else Ended(sent', goal, total)
  {
  }

  /** The yield callback: one response. */
  method Yield(w: Writer, codec: Codec<Fields>, fields: Fields, payload: seq<Byte>, ghost todo: seq<Item>,
               ghost goal: seq<Byte>, ghost total: nat)
    returns (ok: bool)
    requires todo != [] && todo[0] == (fields, payload) && Ahead(codec, w.sent, w.room, todo, goal, total)
    modifies w
    ensures if ok then Ahead(codec, w.sent, w.room, todo[1..], goal, total) else Ended(w.sent, goal, total)
  {
    hide Ahead, Ended, Message, Delivers;
    ghost var sent, room := w.sent, w.room;
    ok := WriteMessage(w, codec, fields, payload, MAX_RESPONSE);
    ItemDelivered(codec, sent, room, todo, goal, total, w.sent, w.room, ok);
  }

  /** The loop over the entries of one batch. */
  method Filter(found: seq<Found>) returns (result: seq<DirEntry>)
    ensures result == Shown(found)
  {
    result := [];
    for i := 0 to |found|
      invariant result == Shown(found[..i])
    {
      assert found[..i + 1][..i] == found[..i];
      if !found[i].readable || found[i].special {
        continue;
      }
      result := result + [found[i].entry];
    }
    assert found[..|found|] == found;
  }

  /** The loop over the pages of one batch. */
  method SendPages(w: Writer, codec: Codec<Fields>, pages: seq<seq<Byte>>, ghost tail: seq<Item>, ghost goal: seq<Byte>,
                   ghost total: nat)
    returns (ok: bool)
    requires Ahead(codec, w.sent, w.room, PageItems(pages) + tail, goal, total)
    modifies w
    ensures if ok then Ahead(codec, w.sent, w.room, tail, goal, total) else Ended(w.sent, goal, total)
  {
    hide Ahead, Ended;
    ok := true;
    ghost var todo := PageItems(pages) + tail;
    for i := 0 to |pages|
      invariant todo == PageItems(pages)[i..] + tail && Ahead(codec, w.sent, w.room, todo, goal, total)
    {
      ok := Yield(w, codec, Fields(0, true), pages[i], todo, goal, total);
      if !ok {
        return;
      }
      todo := todo[1..];
    }
    assert todo == tail;
  }

  /** One turn of StreamDir's loop, with the error response that handleReadDir adds when it fails. */
  method StreamBatch(w: Writer, codec: Codec<Fields>, json: Json, batches: seq<Batch>, j: nat, ghost goal: seq<Byte>,
                     ghost total: nat)
    returns (more: bool)
    requires j <= |batches| && Ahead(codec, w.sent, w.room, Plan(json, batches[j..]), goal, total)
    modifies w
    ensures if more then j < |batches| && Ahead(codec, w.sent, w.room, Plan(json, batches[j + 1..]), goal, total)
            else Ended(w.sent, goal, total)
  {
    hide Wire, EncodePages, Ahead, Message, Ended, Plan, Errno;
    var batch := if j < |batches| then batches[j] else Batch([], Eof);
    PlanFrom(json, batches, j);
    if batch.end.Broken? {
      SendLast(w, codec, Fields(Errno(batch.end.code), false), goal, total);
      return false;
    }
    var result := Filter(batch.found);
    var pages := EncodePages(json, result);
    if pages.None? {
      SendLast(w, codec, Fields(EOVERFLOW, false), goal, total);
      return false;
    }
    ghost var tail := if AtEnd(batch) then [(Fields(0, false), [])] else Plan(json, batches[j + 1..]);
    var ok := SendPages(w, codec, pages.value, tail, goal, total);
    if !ok {
      return false;
    }
    if AtEnd(batch) {
      SendLast(w, codec, Fields(0, false), goal, total);
      return false;
    }
    return true;
  }

  lemma PlanFrom(json: Json, batches: seq<Batch>, j: nat)
    requires j <= |batches|
    ensures var batch := if j < |batches| then batches[j] else Batch([], Eof);
            var pages := EncodePages(json, Shown(batch.found));
            Plan(json, batches[j..]) ==
              if batch.end.Broken? then [(Fields(Errno(batch.end.code), false), [])]
              else if pages.None? then [(Fields(EOVERFLOW, false), [])]
              else
                PageItems(pages.value)
                + if AtEnd(batch) then [(Fields(0, false), [])] else Plan(json, batches[j + 1..])
  {
  }

  /** The response after which the stream is closed. */
  method SendLast(w: Writer, codec: Codec<Fields>, fields: Fields, ghost goal: seq<Byte>, ghost total: nat)
    requires Ahead(codec, w.sent, w.room, [(fields, [])], goal, total)
    modifies w
    ensures Ended(w.sent, goal, total)
  {
    hide Message;
    var ok := Yield(w, codec, fields, [], [(fields, [])], goal, total);
  }

  /** handleReadDir: batches, pages, the final response, or one that carries an error. */
  method HandleReadDir(w: Writer, codec: Codec<Fields>, json: Json, batches: seq<Batch>)
    modifies w
    ensures var goal := old(w.sent) + Wire(codec, Plan(json, batches));
            w.sent == goal[..Min(|goal|, |old(w.sent)| + old(w.room))]
  {
    hide Wire, Plan, EncodePages, Ahead, Message;
    ghost var goal, total := w.sent + Wire(codec, Plan(json, batches)), |w.sent| + w.room;
    AheadStart(codec, w.sent, w.room, Plan(json, batches));
    var j, more := 0, true;
    assert batches[0..] == batches;
    while more
      invariant 0 <= j <= |batches|
      invariant if more then Ahead(codec, w.sent, w.room, Plan(json, batches[j..]), goal, total)
                else Ended(w.sent, goal, total)
      decreases |batches| - j, more
    {
      more := StreamBatch(w, codec, json, batches, j, goal, total);
      if more {
        j := j + 1;
      }
    }
  }

  lemma AheadStart(codec: Codec<Fields>, sent: seq<Byte>, room: nat, todo: seq<Item>)
    ensures Ahead(codec, sent, room, todo, sent + Wire(codec, todo), |sent| + room)
  {
  }

  /** The agent's ReadDir: responses until one says there is no more. */
  method ReadDir(r: Reader, codec: Codec<Fields>, json: Json) returns (entries: Option<seq<DirEntry>>)
    modifies r
    ensures entries == ReadAll(codec, json, old(r.rest))
  {
    hide Parse;
    var all := [];
    assert ReadAll(codec, json, r.rest).Some? ==>
        [] + ReadAll(codec, json, r.rest).value == ReadAll(codec, json, r.rest).value;
    while true
      invariant ReadAll(codec, json, old(r.rest)) ==
                  if ReadAll(codec, json, r.rest).None? then None else Some(all + ReadAll(codec, json, r.rest).value)
      decreases |r.rest|
    {
      ParseShrinks(codec, r.rest, MAX_RESPONSE);
      var response := ReadMessage(r, codec, MAX_RESPONSE);
      if response.None? || response.value.0.fields.errorCode != 0 {
        return None;
      }
      ghost var others := ReadAll(codec, json, r.rest);
      if response.value.1 != [] {
        var page := json.parse(response.value.1);
        if page.None? {
          return None;
        }
        assert others.Some? ==> all + (page.value + others.value) == (all + page.value) + others.value;
        all := all + page.value;
      } else {
        assert all + [] == all && (others.Some? ==> [] + others.value == others.value);
      }
      if !response.value.0.fields.more {
        return Some(all);
      }
    }
  }

  /** Both ends together: a listing sent over a stream that may die at any point. */
  method ListOver(codec: Codec<Fields>, json: Json, batches: seq<Batch>, room: nat)
    returns (entries: Option<seq<DirEntry>>)
    requires Plain(codec) && Faithful(json) && Readable(json, batches)
    ensures entries ==
              if room >= |Wire(codec, Plan(json, batches))| && Sendable(codec, Plan(json, batches))
              then Listed(json, batches) else None
    ensures forall n: nat :: EndsAt(batches, n) && entries.Some? ==> entries.value == Joined(batches[..n])
    ensures forall n: nat :: EndsAt(batches, n) && Presentable(json, batches[..n]) ==>
              room >= |Wire(codec, Plan(json, batches))| && Sendable(codec, Plan(json, batches)) ==> entries.Some?
  {
    hide Wire, Plan, ReadAll, Listed, Sendable, Plain, Faithful, Readable, Presentable, Joined;
    forall n: nat | EndsAt(batches, n)
      ensures Listed(json, batches).Some? <==> Presentable(json, batches[..n])
      ensures Listed(json, batches).Some? ==> Listed(json, batches).value == Joined(batches[..n])
    {
      ListedExactly(json, batches, n);
    }
    var w := new Writer(room);
    HandleReadDir(w, codec, json, batches);
    ghost var wire := Wire(codec, Plan(json, batches));
    assert [] + wire == wire;
    var r := new Reader(w.sent);
    entries := ReadDir(r, codec, json);
    ReadDirExact(codec, json, batches, Min(|wire|, room));
  }
}
