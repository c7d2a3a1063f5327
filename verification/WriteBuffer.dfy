/** One pending write block: a buffer and the list of its dirty ranges (pkg/agent/filesystem/write_buffer.go). */
module WriteBuffer {
  import opened Files

  /** A half-open interval of positions inside a block. */
  datatype Range = Range(start: nat, end: nat)

  /** The value of a pending block. */
  datatype Block = Block(data: seq<Byte>, dirty: seq<Range>)

  predicate Inside(r: Range, i: int) {
    r.start <= i < r.end
  }

  ghost predicate Covered(dirty: seq<Range>, i: int) {
    exists k :: 0 <= k < |dirty| && Inside(dirty[k], i)
  }

  /** Non-empty ranges within the block, in order, no two of them touching: maximal runs. */
  ghost predicate Canonical(dirty: seq<Range>) {
    && (forall k :: 0 <= k < |dirty| ==> dirty[k].start < dirty[k].end <= BLOCK_SIZE)
    && (forall j, k :: 0 <= j < k < |dirty| ==> dirty[j].end < dirty[k].start)
  }

  /** A block as the buffer keeps it: canonical ranges, at least one of them. */
  ghost predicate WellFormed(block: Block) {
    |block.data| == BLOCK_SIZE && Canonical(block.dirty) && block.dirty != []
  }

  /** What one write does to a block: the bytes are replaced, their positions become dirty, nothing else changes. */
  ghost predicate Wrote(before: Block, start: nat, bytes: seq<Byte>, after: Block) {
    && |before.data| == |after.data| == BLOCK_SIZE
    && Canonical(after.dirty)
    && (forall i :: 0 <= i < BLOCK_SIZE ==>
          after.data[i] == if start <= i < start + |bytes| then bytes[i - start] else before.data[i])
    && (forall i :: Covered(after.dirty, i) <==> Covered(before.dirty, i) || start <= i < start + |bytes|)
  }

  lemma CoveredAppend(dirty: seq<Range>, r: Range, i: int)
    ensures Covered(dirty + [r], i) <==> Covered(dirty, i) || Inside(r, i)
  {
    var longer := dirty + [r];
    if Covered(dirty, i) {
      var k :| 0 <= k < |dirty| && Inside(dirty[k], i);
      assert Inside(longer[k], i);
    }
    if Inside(r, i) {
      assert Inside(longer[|dirty|], i);
    }
  }

  /** The dirty list together with the range being merged, when that range is still to be placed. */
  ghost function Placed(ranges: seq<Range>, inserted: bool, merged: Range): seq<Range> {
    if inserted then ranges else ranges + [merged]
  }

  lemma TakeOne(dirty: seq<Range>, k: nat)
    requires k < |dirty|
    ensures dirty[..k + 1] == dirty[..k] + [dirty[k]]
  {
  }

  /** Adding the same range on both sides keeps a coverage equation. */
  lemma CoverBoth(ranges: seq<Range>, dirty: seq<Range>, r: Range, start: int, end: int)
    requires forall i :: Covered(ranges, i) <==> Covered(dirty, i) || start <= i < end
    ensures forall i :: Covered(ranges + [r], i) <==> Covered(dirty + [r], i) || start <= i < end
  {
    forall i ensures Covered(ranges + [r], i) <==> Covered(dirty + [r], i) || start <= i < end {
      CoveredAppend(ranges, r, i);
      CoveredAppend(dirty, r, i);
    }
  }

  /** Placing a range before the range that ends the list covers the same positions. */
  lemma CoverSwap(ranges: seq<Range>, merged: Range, r: Range)
    ensures forall i :: Covered(ranges + [r] + [merged], i) <==> Covered(ranges + [merged] + [r], i)
  {
    forall i ensures Covered(ranges + [r] + [merged], i) <==> Covered(ranges + [merged] + [r], i) {
      CoveredAppend(ranges, r, i);
      CoveredAppend(ranges + [r], merged, i);
      CoveredAppend(ranges, merged, i);
      CoveredAppend(ranges + [merged], r, i);
    }
  }

  /** Two touching ranges may be replaced by their hull. */
  lemma CoverHull(ranges: seq<Range>, merged: Range, r: Range, hull: Range)
    requires r.start <= merged.end && merged.start <= r.end
    requires hull == Range(Min(merged.start, r.start), Max(merged.end, r.end))
    ensures forall i :: Covered(ranges + [merged] + [r], i) <==> Covered(ranges + [hull], i)
  {
    forall i ensures Covered(ranges + [merged] + [r], i) <==> Covered(ranges + [hull], i) {
      CoveredAppend(ranges, merged, i);
      CoveredAppend(ranges + [merged], r, i);
      CoveredAppend(ranges, hull, i);
    }
  }

  /** What the pass has established after k ranges: order, and where the range being merged stands. */
  ghost predicate Ordered(dirty: seq<Range>, k: nat, ranges: seq<Range>, inserted: bool, merged: Range) {
    && k <= |dirty|
    && Canonical(dirty)
    && Canonical(Placed(ranges, inserted, merged)) && merged.start < merged.end
    && (inserted ==> ranges != [] && k > 0 && ranges[|ranges| - 1] == dirty[k - 1] && merged.end < dirty[k - 1].start)
    && (!inserted && ranges != [] ==> k > 0 && ranges[|ranges| - 1].end <= dirty[k - 1].end)
  }

  ghost predicate Covers(dirty: seq<Range>, k: nat, start: nat, end: nat, ranges: seq<Range>)
    requires k <= |dirty|
  {
    forall i :: Covered(ranges, i) <==> Covered(dirty[..k], i) || start <= i < end
  }

  lemma CanonicalAppend(ranges: seq<Range>, r: Range)
    requires Canonical(ranges) && r.start < r.end <= BLOCK_SIZE
    requires ranges != [] ==> ranges[|ranges| - 1].end < r.start
    ensures Canonical(ranges + [r])
  {
  }

  lemma CanonicalFront(ranges: seq<Range>, r: Range)
    requires Canonical(ranges + [r])
    ensures Canonical(ranges) && r.start < r.end <= BLOCK_SIZE
    ensures ranges != [] ==> ranges[|ranges| - 1].end < r.start
  {
    var all := ranges + [r];
    assert all[..|ranges|] == ranges && all[|ranges|] == r;
    forall j, k | 0 <= j < k < |ranges| ensures ranges[j].end < ranges[k].start {
      assert all[j].end < all[k].start;
    }
    forall k | 0 <= k < |ranges| ensures ranges[k].start < ranges[k].end <= BLOCK_SIZE {
      assert all[k] == ranges[k];
    }
    if ranges != [] {
      assert all[|ranges| - 1].end < all[|ranges|].start;
    }
  }

  /** The current range lies wholly before the merged one. */
  lemma StepBefore(dirty: seq<Range>, k: nat, start: nat, end: nat, ranges: seq<Range>, inserted: bool, merged: Range)
    requires Ordered(dirty, k, ranges, inserted, merged) && k < |dirty|
    requires Covers(dirty, k, start, end, Placed(ranges, inserted, merged))
    requires dirty[k].end < merged.start
    ensures !inserted && Ordered(dirty, k + 1, ranges + [dirty[k]], inserted, merged)
    ensures Covers(dirty, k + 1, start, end, ranges + [dirty[k]] + [merged])
  {
    var current := dirty[k];
    TakeOne(dirty, k);
    assert !inserted;
    CanonicalFront(ranges, merged);
    CoverBoth(ranges + [merged], dirty[..k], current, start, end);
    CoverSwap(ranges, merged, current);
    CanonicalAppend(ranges, current);
    CanonicalAppend(ranges + [current], merged);
  }

  /** The current range lies wholly after the merged one. */
  lemma StepAfter(dirty: seq<Range>, k: nat, start: nat, end: nat, ranges: seq<Range>, inserted: bool, merged: Range)
    requires Ordered(dirty, k, ranges, inserted, merged) && k < |dirty|
    requires Covers(dirty, k, start, end, Placed(ranges, inserted, merged))
    requires merged.end < dirty[k].start
    ensures Ordered(dirty, k + 1, Placed(ranges, inserted, merged) + [dirty[k]], true, merged)
    ensures Covers(dirty, k + 1, start, end, Placed(ranges, inserted, merged) + [dirty[k]])
  {
    TakeOne(dirty, k);
    CoverBoth(Placed(ranges, inserted, merged), dirty[..k], dirty[k], start, end);
    CanonicalAppend(Placed(ranges, inserted, merged), dirty[k]);
  }

  /** The current range touches the merged one and is absorbed. */
  lemma StepAbsorb(dirty: seq<Range>, k: nat, start: nat, end: nat, ranges: seq<Range>, inserted: bool, merged: Range)
    requires Ordered(dirty, k, ranges, inserted, merged) && k < |dirty|
    requires Covers(dirty, k, start, end, Placed(ranges, inserted, merged))
    requires dirty[k].start <= merged.end && merged.start <= dirty[k].end
    ensures !inserted
    ensures var hull := Range(Min(merged.start, dirty[k].start), Max(merged.end, dirty[k].end));
            Ordered(dirty, k + 1, ranges, false, hull) && Covers(dirty, k + 1, start, end, ranges + [hull])
  {
    var current := dirty[k];
    var hull := Range(Min(merged.start, current.start), Max(merged.end, current.end));
    TakeOne(dirty, k);
    assert !inserted;
    CanonicalFront(ranges, merged);
    CoverBoth(ranges + [merged], dirty[..k], current, start, end);
    CoverHull(ranges, merged, current, hull);
    CanonicalAppend(ranges, hull);
  }

  /** The range merge: one pass over the dirty list with a growing `merged` range. */
  method MergeDirty(dirty: seq<Range>, start: nat, end: nat) returns (ranges: seq<Range>)
    requires Canonical(dirty)
    requires start < end <= BLOCK_SIZE
    ensures Canonical(ranges)
    ensures forall i :: Covered(ranges, i) <==> Covered(dirty, i) || start <= i < end
  {
    var merged := Range(start, end);
    ranges := [];
    var inserted := false;
    CoveredInitially(merged);
    for k := 0 to |dirty|
      invariant Ordered(dirty, k, ranges, inserted, merged)
      invariant Covers(dirty, k, start, end, Placed(ranges, inserted, merged))
    {
      var current := dirty[k];
      TakeOne(dirty, k);
      if current.end < merged.start {
        StepBefore(dirty, k, start, end, ranges, inserted, merged);
        ranges := ranges + [current];
      } else if merged.end < current.start {
        StepAfter(dirty, k, start, end, ranges, inserted, merged);
        if !inserted {
          ranges := ranges + [merged];
          inserted := true;
        }
        ranges := ranges + [current];
      } else {
        StepAbsorb(dirty, k, start, end, ranges, inserted, merged);
        merged := Range(Min(merged.start, current.start), Max(merged.end, current.end));
      }
    }
    assert dirty[..|dirty|] == dirty;
    if !inserted {
      ranges := ranges + [merged];
    }
  }

  lemma CoveredInitially(merged: Range)
    ensures forall i :: Covered([] + [merged], i) <==> Covered([], i) || Inside(merged, i)
  {
    forall i ensures Covered([] + [merged], i) <==> Covered([], i) || Inside(merged, i) {
      CoveredAppend([], merged, i);
    }
  }

  lemma InsideCovered(dirty: seq<Range>, k: nat, i: int)
    requires k < |dirty|
    ensures Inside(dirty[k], i) ==> Covered(dirty, i)
  {
  }

  lemma FirstStart(dirty: seq<Range>, i: int)
    requires Canonical(dirty) && Covered(dirty, i)
    ensures dirty[0].start <= i
  {
  }

  lemma FirstEnd(dirty: seq<Range>)
    requires Canonical(dirty) && dirty != []
    ensures !Covered(dirty, dirty[0].end)
  {
  }

  lemma CoveredHead(dirty: seq<Range>, i: int)
    requires dirty != []
    ensures Covered(dirty, i) <==> Inside(dirty[0], i) || Covered(dirty[1..], i)
  {
  }

  lemma SameHead(a: seq<Range>, b: seq<Range>)
    requires Canonical(a) && Canonical(b) && a != [] && b != []
    requires forall i :: Covered(a, i) <==> Covered(b, i)
    ensures a[0] == b[0]
  {
    assert Inside(a[0], a[0].start) && Inside(b[0], b[0].start);
    assert Covered(b, a[0].start) && Covered(a, b[0].start);
    FirstStart(a, b[0].start);
    FirstStart(b, a[0].start);
    FirstEnd(a);
    FirstEnd(b);
    InsideCovered(b, 0, a[0].end);
    InsideCovered(a, 0, b[0].end);
  }

  /** A set of positions has only one canonical dirty list. */
  lemma {:induction false} CanonicalUnique(a: seq<Range>, b: seq<Range>)
    requires Canonical(a) && Canonical(b)
    requires forall i :: Covered(a, i) <==> Covered(b, i)
    ensures a == b
  {
    if a == [] || b == [] {
      if a != [] {
        assert Inside(a[0], a[0].start) && Covered(a, a[0].start);
      }
      if b != [] {
        assert Inside(b[0], b[0].start) && Covered(b, b[0].start);
      }
    } else {
      SameHead(a, b);
      forall i ensures Covered(a[1..], i) <==> Covered(b[1..], i) {
        CoveredHead(a, i);
        CoveredHead(b, i);
        if Covered(a[1..], i) {
          FirstStart(a[1..], i);
        }
        if Covered(b[1..], i) {
          FirstStart(b[1..], i);
        }
      }
      CanonicalUnique(a[1..], b[1..]);
      assert a == [a[0]] + a[1..] && b == [b[0]] + b[1..];
    }
  }

  /** A dirty list never has more than half as many ranges as the block has bytes, rounded up. */
  lemma {:induction false} CanonicalCount(dirty: seq<Range>)
    requires Canonical(dirty)
    ensures 2 * |dirty| <= BLOCK_SIZE + 1
    ensures dirty != [] ==> 2 * |dirty| <= dirty[|dirty| - 1].end + 1
  {
    if |dirty| > 1 {
      var front := dirty[..|dirty| - 1];
      CanonicalCount(front);
      assert front[|front| - 1] == dirty[|dirty| - 2];
      assert dirty[|dirty| - 2].end < dirty[|dirty| - 1].start;
      assert dirty[|dirty| - 1].end <= BLOCK_SIZE;
    }
  }

  /** One write to a block. */
  datatype Piece = Piece(start: nat, bytes: seq<Byte>)

  /** The byte most recently written at a position, by a list of writes in order. */
  function LastWritten(pieces: seq<Piece>, i: nat): Option<Byte> {
    if pieces == [] then None
    else
      var last := pieces[|pieces| - 1];
      if last.start <= i < last.start + |last.bytes| then Some(last.bytes[i - last.start])
      else LastWritten(pieces[..|pieces| - 1], i)
  }

  /** The block holds exactly what was written to it: dirty where written, with the latest byte. */
  ghost predicate Holds(block: Block, pieces: seq<Piece>) {
    && |block.data| == BLOCK_SIZE && Canonical(block.dirty)
    && forall i :: 0 <= i < BLOCK_SIZE ==>
         match LastWritten(pieces, i)
         case None => !Covered(block.dirty, i)
         case Some(byte) => Covered(block.dirty, i) && block.data[i] == byte
  }

  /** Over any run of writes to a fresh block, the block holds exactly the bytes written last. */
  lemma {:induction false} BlockHistory(trace: seq<Block>, pieces: seq<Piece>)
    requires |trace| == |pieces| + 1
    requires |trace[0].data| == BLOCK_SIZE && trace[0].dirty == []
    requires forall k :: 0 <= k < |pieces| ==> Wrote(trace[k], pieces[k].start, pieces[k].bytes, trace[k + 1])
    ensures Holds(trace[|pieces|], pieces)
  {
    if pieces != [] {
      var n := |pieces| - 1;
      BlockHistory(trace[..|pieces|], pieces[..n]);
      assert Wrote(trace[n], pieces[n].start, pieces[n].bytes, trace[n + 1]);
    }
  }

  class PendingWriteBlock {
    const data: array<Byte>
    var dirty: seq<Range>

    ghost predicate Valid()
      reads this
    {
      data.Length == BLOCK_SIZE && Canonical(dirty)
    }

    ghost function Value(): Block
      reads this, data
    {
      Block(data[..], dirty)
    }

    constructor (block: Block)
      requires |block.data| == BLOCK_SIZE && Canonical(block.dirty)
      ensures Valid() && fresh(data) && Value() == block
    {
      data := new Byte[BLOCK_SIZE](i requires 0 <= i < |block.data| => block.data[i]);
      dirty := block.dirty;
      new;
      assert data[..] == block.data;
    }

    /** Copies a non-empty run of bytes into the block and records it as dirty. */
    method Write(start: nat, bytes: seq<Byte>)
      requires Valid()
      requires bytes != [] && start + |bytes| <= BLOCK_SIZE
      modifies this, data
      ensures Valid() && dirty != []
      ensures Wrote(old(Value()), start, bytes, Value())
    {
      forall i | 0 <= i < |bytes| {
        data[start + i] := bytes[i];
      }
      var ranges := MergeDirty(dirty, start, start + |bytes|);
      assert Covered(ranges, start);
      dirty := ranges;
    }
  }
}
