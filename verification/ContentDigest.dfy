/** The hasher: three cells updated byte by byte, in place, and the digest read off them, proved against
    `QuickXor`. */
module ContentDigest {
  import opened QuickXor
  import opened QuickXorCells

  /** Steps 11 bits on, wrapping after bit 32 of the last cell. */
  method Advance(cellIndex: nat, cellOffset: nat) returns (index: nat, offset: nat)
    requires cellIndex < 3 && cellOffset < CellWidth(cellIndex)
    ensures index < 3 && offset < CellWidth(index)
    ensures 64 * index + offset == (64 * cellIndex + cellOffset + SHIFT) % WIDTH_BITS
  {
    index, offset := cellIndex, cellOffset + SHIFT;
    var isLastCell := cellIndex == 2;
    var bitsInCell := if isLastCell then 32 else 64;
    while offset >= bitsInCell
      invariant offset >= bitsInCell ==> index == cellIndex && offset == cellOffset + SHIFT
      invariant offset < bitsInCell ==> index < 3 && offset < CellWidth(index)
      invariant offset < bitsInCell ==> 64 * index + offset == (64 * cellIndex + cellOffset + SHIFT) % WIDTH_BITS
    {
      index := if isLastCell then 0 else index + 1;
      offset := offset - bitsInCell;
    }
  }

  method FoldStride(bytes: seq<Byte>, index: nat) returns (value: Byte)
    ensures value == Stride(bytes, index)
  {
    value := Zeros(8);
    var i := index;
    XorLaws(Stride(bytes, index), Zeros(8), Zeros(8));
    while i < |bytes|
      invariant Xor(value, Stride(bytes, i)) == Stride(bytes, index)
    {
      XorLaws(value, bytes[i], Stride(bytes, i + WIDTH_BITS));
      value := Xor(value, bytes[i]);
      i := i + WIDTH_BITS;
    }
    XorLaws(value, Zeros(8), Zeros(8));
  }

  class QuickXorHasher {
    var cells: array<Word>
    var length: nat
    var shift: nat
    /** Every byte fed so far. */
    ghost var fed: seq<Byte>

    ghost predicate Valid()
      reads this, cells
    {
      && cells.Length == 3
      && CellValues() == Fed(fed, 0)
      && shift == Position(|fed|)
      && length == |fed| % WORD_MODULUS
    }

    ghost function CellValues(): Cells
      requires cells.Length == 3
      reads this, cells
    {
      [cells[0], cells[1], cells[2]]
    }

    constructor ()
      ensures Valid() && fed == [] && fresh(cells)
    {
      cells := new Word[3](_ => Zeros(64));
      length, shift, fed := 0, 0, [];
    }

    /** Adds one byte at bit `cellOffset` of cell `cellIndex`, spilling into the next cell. */
    method PlaceByte(xoredByte: Byte, cellIndex: nat, cellOffset: nat)
      requires cells.Length == 3
      requires cellIndex < 3 && cellOffset < CellWidth(cellIndex)
      modifies cells
      ensures CellValues() == XorCells(old(CellValues()), Slot(xoredByte, 64 * cellIndex + cellOffset))
    {
      var isLastCell := cellIndex == 2;
      var bitsInCell := if isLastCell then 32 else 64;
      var nextCell := if isLastCell then 0 else cellIndex + 1;
      if cellOffset <= bitsInCell - 8 {
        cells[cellIndex] := Xor(cells[cellIndex], ShiftLeft(Widen(xoredByte), cellOffset));
        NoSpill(xoredByte, bitsInCell - cellOffset);
        XorLaws(cells[nextCell], Zeros(64), Zeros(64));
      } else {
        var lowBits := bitsInCell - cellOffset;
        cells[cellIndex] := Xor(cells[cellIndex], ShiftLeft(Widen(xoredByte), cellOffset));
        cells[nextCell] := Xor(cells[nextCell], ShiftRight(Widen(xoredByte), lowBits));
      }
      XorLaws(cells[NextCell(nextCell)], Zeros(64), Zeros(64));
    }

    /** Places every stride of `bytes`, starting at bit `shift`. */
    method PlaceStrides(bytes: seq<Byte>)
      requires cells.Length == 3 && shift < WIDTH_BITS
      modifies cells
      ensures CellValues() == XorCells(old(CellValues()), Columns(bytes, shift, Iterations(bytes)))
    {
      hide XorCells, Slot, Stride, Columns;
      NoColumns(old(CellValues()), bytes, shift);
      var cellIndex: nat, cellOffset: nat := shift / 64, shift % 64;
      for index := 0 to Iterations(bytes)
        invariant cellIndex < 3 && cellOffset < CellWidth(cellIndex)
        invariant 64 * cellIndex + cellOffset == (shift + SHIFT * index) % WIDTH_BITS
        invariant CellValues() == XorCells(old(CellValues()), Columns(bytes, shift, index))
      {
        var xoredByte := FoldStride(bytes, index);
        PlaceByte(xoredByte, cellIndex, cellOffset);
        NextColumn(old(CellValues()), bytes, shift, index);
        cellIndex, cellOffset := Advance(cellIndex, cellOffset);
        ModAdd(shift + SHIFT * index, SHIFT);
      }
    }

    method Update(bytes: seq<Byte>)
      requires Valid()
      modifies this, cells
      ensures Valid() && cells == old(cells)
      ensures fed == old(fed) + bytes
    {
      hide XorCells, Columns, Fed, Position, Iterations;
      PlaceStrides(bytes);
      FeedMore(fed, bytes);
      NextShift(|fed|, |bytes|);
      NextLength(|fed|, |bytes|);
      shift := (shift + SHIFT * (|bytes| % WIDTH_BITS)) % WIDTH_BITS;
      length := (length + |bytes| % WORD_MODULUS) % WORD_MODULUS;
      fed := fed + bytes;
    }

    /** The digest of everything fed. */
    method Finalize() returns (output: seq<Byte>)
      requires Valid()
      ensures |output| == 20
      ensures Flatten(output) == Digest(fed)
      ensures Flatten(output)[..96] == Circular(fed)[..96]
      ensures NumberOf(Xor(Flatten(output)[96..], Circular(fed)[96..])) == |fed| % 0x1_0000_0000_0000_0000
    {
      output := LittleEndian(cells[0]) + LittleEndian(cells[1]) + LittleEndian(cells[2])[..4];
      var lengthBytes := LittleEndian(WordOf(length));
      ghost var circle := output;
      for k := 0 to 8
        invariant |output| == 20 && |circle| == 20
        invariant forall i :: 0 <= i < 20 ==>
                                output[i] == if 12 <= i < 12 + k then Xor(circle[i], lengthBytes[i - 12]) else circle[i]
      {
        output := output[12 + k := Xor(output[12 + k], lengthBytes[k])];
      }
      FedIsCircular(fed);
      DigestBits(CellValues(), WordOf(length), circle, output);
      DigestHoldsLength(fed);
    }
  }

  /** However a file is cut into chunks, feeding them in order gives the digest of the whole. */
  method DigestChunks(chunks: seq<seq<Byte>>) returns (output: seq<Byte>)
    ensures |output| == 20
    ensures Flatten(output) == Digest(Concat(chunks))
  {
    var hasher := new QuickXorHasher();
    for i := 0 to |chunks|
      invariant hasher.Valid() && fresh(hasher) && fresh(hasher.cells)
      invariant hasher.fed == Concat(chunks[..i])
    {
      assert chunks[..i + 1][..i] == chunks[..i];
      hasher.Update(chunks[i]);
    }
    assert chunks[..|chunks|] == chunks;
    output := hasher.Finalize();
  }
}
