/** The logical file: the provider's file with the pending dirty ranges laid over it. */
module Overlay {
  import opened Files
  import opened WriteBuffer

  /** Pending blocks by their aligned offset. */
  type Pending = map<nat, Block>

  ghost predicate Sound(pending: Pending) {
    forall o :: o in pending ==> o % BLOCK_SIZE == 0 && WellFormed(pending[o])
  }

  ghost predicate Dirty(pending: Pending, i: nat) {
    Base(i) in pending && Covered(pending[Base(i)].dirty, i - Base(i))
  }

  /** One byte of the logical file. */
  ghost function View(file: seq<Byte>, pending: Pending, i: nat): Byte
    requires Sound(pending)
  {
    if Dirty(pending, i) then pending[Base(i)].data[i - Base(i)] else ByteAt(file, i)
  }

  ghost predicate IsEnd(pending: Pending, e: nat) {
    && (forall i: nat :: Dirty(pending, i) ==> i < e)
    && (e > 0 ==> Dirty(pending, e - 1))
  }

  ghost function BlockEnd(o: nat, block: Block): nat
    requires WellFormed(block)
  {
    o + block.dirty[|block.dirty| - 1].end
  }

  lemma BlockEndDirty(pending: Pending, o: nat)
    requires Sound(pending) && o in pending
    ensures BlockEnd(o, pending[o]) > 0 && Dirty(pending, BlockEnd(o, pending[o]) - 1)
  {
  }

  lemma DirtyBelowBlockEnd(pending: Pending, i: nat)
    requires Sound(pending) && Dirty(pending, i)
    ensures i < BlockEnd(Base(i), pending[Base(i)])
  {
  }

  lemma EndExists(pending: Pending)
    requires Sound(pending)
    ensures exists e: nat :: IsEnd(pending, e)
  {
    if pending == map[] {
      assert IsEnd(pending, 0);
    } else {
      var o :| o in pending;
      var rest := pending - {o};
      assert rest.Keys < pending.Keys;
      EndExists(rest);
      var low: nat :| IsEnd(rest, low);
      var e := Max(low, BlockEnd(o, pending[o]));
      BlockEndDirty(pending, o);
      forall i: nat | Dirty(pending, i) ensures i < e {
        DirtyBelowBlockEnd(pending, i);
        assert Base(i) != o ==> Dirty(rest, i);
      }
      assert low > 0 ==> Dirty(pending, low - 1);
      assert IsEnd(pending, e);
    }
  }

  /** One past the last dirty position; zero when nothing is pending. */
  ghost function End(pending: Pending): (e: nat)
    requires Sound(pending)
    ensures IsEnd(pending, e)
  {
    EndExists(pending);
    var e: nat :| IsEnd(pending, e);
    e
  }

  lemma EndUnique(pending: Pending, e: nat)
    requires Sound(pending) && IsEnd(pending, e)
    ensures e == End(pending)
  {
  }

  /** The logical file. */
  ghost function Logical(file: seq<Byte>, pending: Pending): (r: seq<Byte>)
    requires Sound(pending)
    ensures |r| == Max(|file|, End(pending))
  {
    seq(Max(|file|, End(pending)), i requires 0 <= i => View(file, pending, i))
  }

  lemma OverlayByte(file: seq<Byte>, pending: Pending, i: nat)
    requires Sound(pending)
    ensures ByteAt(Logical(file, pending), i) == View(file, pending, i)
  {
  }

  lemma OverlayBytes(file: seq<Byte>, pending: Pending)
    requires Sound(pending)
    ensures forall i: nat :: ByteAt(Logical(file, pending), i) == View(file, pending, i)
  {
  }

  lemma NothingPending(file: seq<Byte>)
    ensures Sound(map[]) && End(map[]) == 0 && Logical(file, map[]) == file
  {
  }

  /** Writing into a block writes into the logical file. */
  lemma OverlayWrite(file: seq<Byte>, pending: Pending, o: nat, before: Block, start: nat, bytes: seq<Byte>,
                     after: Block)
    requires Sound(pending) && o % BLOCK_SIZE == 0
    requires if o in pending then before == pending[o] else before.dirty == []
    requires bytes != [] && start + |bytes| <= BLOCK_SIZE
    requires Wrote(before, start, bytes, after) && after.dirty != []
    ensures Sound(pending[o := after])
    ensures Logical(file, pending[o := after]) == WriteAt(Logical(file, pending), o + start, bytes)
  {
    var grown := pending[o := after];
    var left, right := Logical(file, grown), WriteAt(Logical(file, pending), o + start, bytes);
    EndAfterWrite(pending, o, before, start, bytes, after);
    WriteAtShape(Logical(file, pending), o + start, bytes);
    forall i | 0 <= i < |left| ensures ByteAt(left, i) == ByteAt(right, i) {
      ViewAfterWrite(file, pending, o, before, start, bytes, after, i);
      OverlayByte(file, pending, i);
      OverlayByte(file, grown, i);
    }
    SameFile(left, right);
  }

  lemma EndAfterWrite(pending: Pending, o: nat, before: Block, start: nat, bytes: seq<Byte>, after: Block)
    requires Sound(pending) && o % BLOCK_SIZE == 0
    requires if o in pending then before == pending[o] else before.dirty == []
    requires bytes != [] && start + |bytes| <= BLOCK_SIZE
    requires Wrote(before, start, bytes, after) && after.dirty != []
    ensures Sound(pending[o := after])
    ensures End(pending[o := after]) == Max(End(pending), o + start + |bytes|)
  {
    var grown := pending[o := after];
    var e := Max(End(pending), o + start + |bytes|);
    DirtyGrows(pending, o, before, start, bytes, after);
    assert Dirty(grown, o + start + |bytes| - 1);
    assert End(pending) > 0 ==> Dirty(grown, End(pending) - 1);
    forall i: nat | Dirty(grown, i) ensures i < e {
      assert Dirty(pending, i) ==> i < End(pending);
    }
    EndUnique(grown, e);
  }

  lemma DirtyGrows(pending: Pending, o: nat, before: Block, start: nat, bytes: seq<Byte>, after: Block)
    requires Sound(pending) && o % BLOCK_SIZE == 0
    requires if o in pending then before == pending[o] else before.dirty == []
    requires start + |bytes| <= BLOCK_SIZE
    requires Wrote(before, start, bytes, after)
    ensures forall i: nat :: Dirty(pending[o := after], i) <==>
              Dirty(pending, i) || o + start <= i < o + start + |bytes|
  {
  }

  lemma ViewAfterWrite(file: seq<Byte>, pending: Pending, o: nat, before: Block, start: nat, bytes: seq<Byte>,
                       after: Block, i: nat)
    requires Sound(pending) && o % BLOCK_SIZE == 0
    requires if o in pending then before == pending[o] else before.dirty == []
    requires start + |bytes| <= BLOCK_SIZE && after.dirty != []
    requires Wrote(before, start, bytes, after)
    ensures Sound(pending[o := after])
    ensures View(file, pending[o := after], i)
         == if o + start <= i < o + start + |bytes| then bytes[i - o - start] else View(file, pending, i)
  {
  }

  /** Sending any prefix of a dirty range to the provider leaves the logical file as it is. */
  lemma OverlaySent(file: seq<Byte>, pending: Pending, o: nat, k: nat, n: nat)
    requires Sound(pending) && o in pending && k < |pending[o].dirty|
    requires n <= pending[o].dirty[k].end - pending[o].dirty[k].start
    ensures var r := pending[o].dirty[k];
            Logical(WriteAt(file, o + r.start, pending[o].data[r.start..r.start + n]), pending) ==
                Logical(file, pending)
  {
    var r := pending[o].dirty[k];
    var bytes := pending[o].data[r.start..r.start + n];
    var sent := WriteAt(file, o + r.start, bytes);
    WriteAtShape(file, o + r.start, bytes);
    OverlayBytes(file, pending);
    OverlayBytes(sent, pending);
    forall i: nat | o + r.start <= i < o + r.end
      ensures Dirty(pending, i) && Base(i) == o
    {
      BaseUnique(o, i);
      assert Inside(r, i - o);
    }
    if n > 0 {
      assert Dirty(pending, o + r.start + n - 1);
    }
    SameFile(Logical(sent, pending), Logical(file, pending));
  }

  /** The first k ranges of the block at o have reached the provider. */
  ghost predicate Stored(file: seq<Byte>, o: nat, block: Block, k: nat)
    requires k <= |block.dirty|
  {
    forall i :: 0 <= i < |block.data| && Covered(block.dirty[..k], i) ==>
      o + i < |file| && file[o + i] == block.data[i]
  }

  lemma StoredNext(file: seq<Byte>, o: nat, block: Block, k: nat)
    requires WellFormed(block) && k < |block.dirty| && Stored(file, o, block, k)
    ensures var r := block.dirty[k]; Stored(WriteAt(file, o + r.start, block.data[r.start..r.end]), o, block, k + 1)
  {
    var r := block.dirty[k];
    var bytes := block.data[r.start..r.end];
    var sent := WriteAt(file, o + r.start, bytes);
    WriteAtShape(file, o + r.start, bytes);
    TakeOne(block.dirty, k);
    forall i | 0 <= i < |block.data| && Covered(block.dirty[..k + 1], i)
      ensures o + i < |sent| && sent[o + i] == block.data[i]
    {
      CoveredAppend(block.dirty[..k], r, i);
      assert ByteAt(sent, o + i) == if r.start <= i < r.end then bytes[i - r.start] else ByteAt(file, o + i);
    }
  }

  /** A block whose ranges have all reached the provider may be dropped. */
  lemma OverlayDropped(file: seq<Byte>, pending: Pending, o: nat)
    requires Sound(pending) && o in pending
    requires Stored(file, o, pending[o], |pending[o].dirty|)
    ensures Sound(pending - {o})
    ensures Logical(file, pending - {o}) == Logical(file, pending)
  {
    var rest := pending - {o};
    OverlayBytes(file, pending);
    OverlayBytes(file, rest);
    forall i: nat
      ensures View(file, rest, i) == View(file, pending, i) && (Dirty(pending, i) ==> i < |file| || Dirty(rest, i))
    {
      assert pending[o].dirty[..|pending[o].dirty|] == pending[o].dirty;
    }
    assert End(rest) > 0 ==> Dirty(pending, End(rest) - 1);
    assert End(pending) > 0 ==> Dirty(pending, End(pending) - 1);
    SameFile(Logical(file, rest), Logical(file, pending));
  }

  /** Dropping a block below another pending one keeps the end of the pending ranges. */
  lemma EndAfterDrop(pending: Pending, o: nat, higher: nat)
    requires Sound(pending) && o in pending && higher in pending && o < higher
    ensures End(pending - {o}) == End(pending)
  {
    var rest := pending - {o};
    var top := BlockEnd(higher, pending[higher]) - 1;
    BlockEndDirty(rest, higher);
    assert o + BLOCK_SIZE <= higher <= top < End(rest);
    forall i: nat | Dirty(pending, i) ensures i < End(rest) {
      assert Base(i) != o ==> Dirty(rest, i);
    }
    assert Dirty(pending, End(rest) - 1);
    EndUnique(pending, End(rest));
  }

  /** Every pending byte is already in the file. */
  ghost predicate Redundant(file: seq<Byte>, pending: Pending) {
    forall i: nat :: Dirty(pending, i) ==> i < |file| && Sound(pending) && View(file, pending, i) == file[i]
  }

  /** Laying pending blocks over a file changes nothing exactly if every pending byte is already there. */
  lemma OverlayRedundant(file: seq<Byte>, pending: Pending)
    requires Sound(pending)
    ensures Logical(file, pending) == file <==> Redundant(file, pending)
  {
    OverlayBytes(file, pending);
    assert End(pending) > 0 ==> Dirty(pending, End(pending) - 1);
    if Logical(file, pending) == file {
      forall i: nat | Dirty(pending, i) ensures i < |file| && View(file, pending, i) == file[i] {
        assert i < End(pending);
        OverlayByte(file, pending, i);
      }
    } else if Redundant(file, pending) {
      SameFile(Logical(file, pending), file);
    }
  }
}
