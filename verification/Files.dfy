/** Flat files: the simple thing every buffer and cache in this project is compared with. */
module Files {
  newtype Byte = x: int | 0 <= x < 256

  datatype Option<+T> = None | Some(value: T)

  /** protocol.MaxPayloadBytes: the size of write-back blocks and of read blocks. */
  const BLOCK_SIZE: nat := 0x10_0000

  function Max(a: int, b: int): int {
    if a < b then b else a
  }

  function Min(a: int, b: int): int {
    if a < b then a else b
  }

  /** The byte at a position, with zeros beyond the end of the file. */
  function ByteAt(file: seq<Byte>, i: nat): Byte {
    if i < |file| then file[i] else 0
  }

  /** os.File.WriteAt on a regular file: later bytes win and a gap is filled with zeros. */
  function WriteAt(file: seq<Byte>, offset: nat, data: seq<Byte>): (r: seq<Byte>) {
    if data == [] then file
    else
      seq(Max(|file|, offset + |data|),
          i requires 0 <= i => if offset <= i < offset + |data| then data[i - offset] else ByteAt(file, i))
  }

  /** os.File.Truncate: cuts, or extends with zeros. */
  function Truncate(file: seq<Byte>, size: nat): seq<Byte> {
    seq(size, i requires 0 <= i => ByteAt(file, i))
  }

  /** os.File.ReadAt with an end of file turned into a short read. */
  function Slice(file: seq<Byte>, offset: nat, count: nat): (r: seq<Byte>) {
    file[Min(offset, |file|)..Min(offset + count, |file|)]
  }

  /** What the provider's read operation returns for one aligned block. */
  function BlockOf(file: seq<Byte>, offset: nat): (r: seq<Byte>) {
    Slice(file, offset, BLOCK_SIZE)
  }

  /** The start of the block that holds a position. */
  function Base(i: nat): (b: nat)
    ensures b <= i < b + BLOCK_SIZE && b % BLOCK_SIZE == 0
  {
    i / BLOCK_SIZE * BLOCK_SIZE
  }

  lemma BaseUnique(b: nat, i: nat)
    requires b % BLOCK_SIZE == 0 && b <= i < b + BLOCK_SIZE
    ensures Base(i) == b
  {
  }

  /** The length and the bytes of a written file. */
  lemma WriteAtShape(file: seq<Byte>, offset: nat, data: seq<Byte>)
    ensures |WriteAt(file, offset, data)| == if data == [] then |file| else Max(|file|, offset + |data|)
    ensures forall i: nat :: ByteAt(WriteAt(file, offset, data), i) ==
              if offset <= i < offset + |data| then data[i - offset] else ByteAt(file, i)
  {
  }

  /** Byte by byte: new data where it was written, the old bytes elsewhere, zeros in a gap. */
  lemma WriteAtBytes(file: seq<Byte>, offset: nat, data: seq<Byte>)
    ensures data == [] ==> WriteAt(file, offset, data) == file
    ensures data != [] ==>
              |WriteAt(file, offset, data)| == if |file| < offset + |data| then offset + |data| else |file|
    ensures forall i :: 0 <= i < |WriteAt(file, offset, data)| ==>
              WriteAt(file, offset, data)[i] ==
              if offset <= i < offset + |data| then data[i - offset] else if i < |file| then file[i] else 0
  {
  }

  /** A file moved to a new length: the old bytes below both lengths, zeros above the old one. */
  ghost predicate Resized(before: seq<Byte>, size: nat, after: seq<Byte>) {
    |after| == size && forall i :: 0 <= i < size ==> after[i] == if i < |before| then before[i] else 0
  }

  lemma TruncateBytes(file: seq<Byte>, size: nat)
    ensures Resized(file, size, Truncate(file, size))
  {
  }

  /** The bytes of a slice, and where it ends. */
  lemma SliceBytes(file: seq<Byte>, offset: nat, count: nat)
    ensures |Slice(file, offset, count)| ==
              if |file| <= offset then 0 else if |file| < offset + count then |file| - offset else count
    ensures forall i :: 0 <= i < |Slice(file, offset, count)| ==> Slice(file, offset, count)[i] == file[offset + i]
  {
  }

  /** One block is a mebibyte, or what is left of the file. */
  lemma BlockBytes(file: seq<Byte>, offset: nat)
    ensures |BlockOf(file, offset)| ==
              if |file| <= offset then 0 else if |file| < offset + 0x10_0000 then |file| - offset else 0x10_0000
    ensures forall i :: 0 <= i < |BlockOf(file, offset)| ==> BlockOf(file, offset)[i] == file[offset + i]
  {
  }

  /** A write in two consecutive pieces is the write of the whole. */
  lemma WriteAtAppend(file: seq<Byte>, offset: nat, a: seq<Byte>, b: seq<Byte>)
    ensures WriteAt(WriteAt(file, offset, a), offset + |a|, b) == WriteAt(file, offset, a + b)
  {
  }

  /** Two files with the same length and the same bytes are the same file. */
  lemma SameFile(a: seq<Byte>, b: seq<Byte>)
    requires |a| == |b|
    requires forall i :: 0 <= i < |a| ==> ByteAt(a, i) == ByteAt(b, i)
    ensures a == b
  {
    forall i | 0 <= i < |a| ensures a[i] == b[i] {
      assert ByteAt(a, i) == ByteAt(b, i);
    }
  }

  /** Whether moving the end of a file changes the block at an offset. */
  predicate Touches(length: nat, size: nat, offset: nat) {
    size != length && offset < Max(size, length) && Min(size, length) < offset + BLOCK_SIZE
  }

  /** A truncation changes a block exactly when it moves the end of the file within or across it. */
  lemma TruncateTouches(file: seq<Byte>, size: nat, offset: nat)
    ensures BlockOf(Truncate(file, size), offset) != BlockOf(file, offset) <==> Touches(|file|, size, offset)
  {
  }
}
