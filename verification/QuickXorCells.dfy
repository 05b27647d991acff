/** Why three cells, an 11-bit step, a fold over bytes 160 apart and a carried shift amount to one circular
    XOR. */
module QuickXorCells {
  import opened QuickXor

  // ---------------------------------------------------------------- cell algebra

  lemma XorLaws(a: seq<bool>, b: seq<bool>, c: seq<bool>)
    requires |a| == |b| == |c|
    ensures Xor(Xor(a, b), c) == Xor(a, Xor(b, c))
    ensures Xor(a, b) == Xor(b, a)
    ensures Xor(a, Zeros(|a|)) == a
  {
  }

  lemma XorCellsLaws(a: Cells, b: Cells, c: Cells)
    ensures XorCells(XorCells(a, b), c) == XorCells(a, XorCells(b, c))
    ensures XorCells(a, b) == XorCells(b, a)
    ensures XorCells(a, EMPTY) == a
  {
    XorLaws(a[0], b[0], c[0]);
    XorLaws(a[1], b[1], c[1]);
    XorLaws(a[2], b[2], c[2]);
  }

  lemma ShiftsLinear(a: Byte, b: Byte, n: nat)
    ensures ShiftLeft(Widen(Xor(a, b)), n) == Xor(ShiftLeft(Widen(a), n), ShiftLeft(Widen(b), n))
    ensures ShiftRight(Widen(Xor(a, b)), n) == Xor(ShiftRight(Widen(a), n), ShiftRight(Widen(b), n))
    ensures ShiftLeft(Widen(Zeros(8)), n) == Zeros(64) == ShiftRight(Widen(Zeros(8)), n)
  {
  }

  lemma SlotLinear(a: Byte, b: Byte, p: nat)
    requires p < WIDTH_BITS
    ensures Slot(Xor(a, b), p) == XorCells(Slot(a, p), Slot(b, p))
    ensures Slot(Zeros(8), p) == EMPTY
  {
    ShiftsLinear(a, b, p % 64);
    ShiftsLinear(a, b, CellWidth(p / 64) - p % 64);
    assert Xor(Zeros(64), Zeros(64)) == Zeros(64);
  }

  // ---------------------------------------------------------------- cells against the circle

  lemma SlotIsRotation(b: Byte, p: nat)
    requires p < WIDTH_BITS
    ensures CircleOf(Slot(b, p)) == RotateLeft(b + Zeros(152), p)
  {
  }

  lemma CircleOfXor(a: Cells, b: Cells)
    ensures CircleOf(XorCells(a, b)) == Xor(CircleOf(a), CircleOf(b))
  {
  }

  lemma {:induction false} DropMultiple(q: nat, c: nat)
    ensures (WIDTH_BITS * q + c) % WIDTH_BITS == c % WIDTH_BITS
  {
    if q > 0 {
      DropMultiple(q - 1, c);
    }
  }

  lemma ModAdd(a: nat, b: nat)
    ensures (a % WIDTH_BITS + b) % WIDTH_BITS == (a + b) % WIDTH_BITS
  {
    DropMultiple(a / WIDTH_BITS, a % WIDTH_BITS + b);
  }

  lemma {:induction false} FedAppend(a: seq<Byte>, b: seq<Byte>, p: nat)
    requires p < WIDTH_BITS
    ensures Fed(a + b, p) == XorCells(Fed(a, p), Fed(b, (p + SHIFT * |a|) % WIDTH_BITS))
  {
    hide XorCells, Slot;
    if a == [] {
      assert a + b == b;
      XorCellsLaws(Fed(b, p), EMPTY, EMPTY);
    } else {
      var q := (p + SHIFT) % WIDTH_BITS;
      assert (a + b)[1..] == a[1..] + b;
      FedAppend(a[1..], b, q);
      ModAdd(p + SHIFT, SHIFT * (|a| - 1));
      XorCellsLaws(Slot(a[0], p), Fed(a[1..], q), Fed(b, (p + SHIFT * |a|) % WIDTH_BITS));
    }
  }

  lemma FedOne(b: Byte, p: nat)
    requires p < WIDTH_BITS
    ensures Fed([b], p) == Slot(b, p)
  {
    hide XorCells, Slot;
    XorCellsLaws(Slot(b, p), EMPTY, EMPTY);
  }

  lemma FedLast(prefix: seq<Byte>, b: Byte)
    ensures Fed(prefix + [b], 0) == XorCells(Fed(prefix, 0), Slot(b, Position(|prefix|)))
  {
    hide XorCells, Slot, Fed;
    FedAppend(prefix, [b], 0);
    FedOne(b, Position(|prefix|));
  }

  lemma CircleOfEmpty()
    ensures CircleOf(EMPTY) == Zeros(WIDTH_BITS)
  {
  }

  /** The three cells always hold the circular XOR of the bytes fed so far. */
  lemma {:induction false} FedIsCircular(data: seq<Byte>)
    ensures CircleOf(Fed(data, 0)) == Circular(data)
  {
    hide XorCells, Slot, Xor, CircleOf, RotateLeft, Position;
    if data == [] {
      CircleOfEmpty();
    } else {
      hide Fed;
      var last := |data| - 1;
      assert data == data[..last] + [data[last]];
      FedLast(data[..last], data[last]);
      CircleOfXor(Fed(data[..last], 0), Slot(data[last], Position(last)));
      SlotIsRotation(data[last], Position(last));
      FedIsCircular(data[..last]);
    }
  }

  // ---------------------------------------------------------------- the stride-160 fold

  lemma {:induction false} StrideOfTail(bytes: seq<Byte>, i: nat)
    requires WIDTH_BITS <= |bytes|
    ensures Stride(bytes[WIDTH_BITS..], i) == Stride(bytes, i + WIDTH_BITS)
    decreases |bytes| - i
  {
    if i + WIDTH_BITS < |bytes| {
      StrideOfTail(bytes, i + WIDTH_BITS);
    }
  }

  lemma StrideShort(bytes: seq<Byte>, i: nat)
    requires i < |bytes| <= WIDTH_BITS
    ensures Stride(bytes, i) == bytes[i]
  {
    XorLaws(bytes[i], Zeros(8), Zeros(8));
    assert Stride(bytes, i + WIDTH_BITS) == Zeros(8);
  }

  lemma StrideSplit(bytes: seq<Byte>, i: nat)
    requires i < WIDTH_BITS <= |bytes|
    ensures Stride(bytes, i) == Xor(Stride(bytes[..WIDTH_BITS], i), Stride(bytes[WIDTH_BITS..], i))
  {
    StrideShort(bytes[..WIDTH_BITS], i);
    StrideOfTail(bytes, i);
  }

  lemma {:induction false} ColumnsSplit(bytes: seq<Byte>, p: nat, n: nat)
    requires p < WIDTH_BITS && n <= WIDTH_BITS < |bytes|
    ensures Columns(bytes, p, n) == XorCells(Columns(bytes[..WIDTH_BITS], p, n), Columns(bytes[WIDTH_BITS..], p, n))
  {
    hide XorCells, Slot, Xor, Stride;
    if n == 0 {
      XorCellsLaws(EMPTY, EMPTY, EMPTY);
    } else {
      var head, rest, q := bytes[..WIDTH_BITS], bytes[WIDTH_BITS..], (p + SHIFT * (n - 1)) % WIDTH_BITS;
      ColumnsSplit(bytes, p, n - 1);
      StrideSplit(bytes, n - 1);
      SlotLinear(Stride(head, n - 1), Stride(rest, n - 1), q);
      Interchange(Columns(head, p, n - 1), Columns(rest, p, n - 1), Slot(Stride(head, n - 1), q),
                  Slot(Stride(rest, n - 1), q));
    }
  }

  lemma Interchange(a: Cells, b: Cells, c: Cells, d: Cells)
    ensures XorCells(XorCells(a, b), XorCells(c, d)) == XorCells(XorCells(a, c), XorCells(b, d))
  {
    hide XorCells;
    XorCellsLaws(a, b, XorCells(c, d));
    XorCellsLaws(b, c, d);
    XorCellsLaws(c, b, d);
    XorCellsLaws(a, c, XorCells(b, d));
  }

  lemma {:induction false} ShortColumns(bytes: seq<Byte>, p: nat, n: nat)
    requires p < WIDTH_BITS && n <= |bytes| <= WIDTH_BITS
    ensures Columns(bytes, p, n) == Fed(bytes[..n], p)
  {
    hide XorCells, Slot, Xor, Stride;
    if n > 0 {
      var q := (p + SHIFT * (n - 1)) % WIDTH_BITS;
      ShortColumns(bytes, p, n - 1);
      assert bytes[..n][..n - 1] == bytes[..n - 1];
      assert bytes[..n] == bytes[..n - 1] + [bytes[n - 1]];
      FedAppend(bytes[..n - 1], [bytes[n - 1]], p);
      StrideShort(bytes, n - 1);
      XorCellsLaws(Slot(bytes[n - 1], q), EMPTY, EMPTY);
    }
  }

  lemma {:induction false} ColumnsBeyond(bytes: seq<Byte>, p: nat, n: nat)
    requires p < WIDTH_BITS && |bytes| <= n
    ensures Columns(bytes, p, n) == Columns(bytes, p, |bytes|)
  {
    hide XorCells, Slot;
    if n > |bytes| {
      ColumnsBeyond(bytes, p, n - 1);
      SlotLinear(Zeros(8), Zeros(8), (p + SHIFT * (n - 1)) % WIDTH_BITS);
      XorCellsLaws(Columns(bytes, p, n - 1), EMPTY, EMPTY);
    }
  }

  /** Folding bytes 160 apart and placing each column once is feeding every byte in turn. */
  lemma {:induction false} ColumnsAreFed(bytes: seq<Byte>, p: nat)
    requires p < WIDTH_BITS
    ensures Columns(bytes, p, WIDTH_BITS) == Fed(bytes, p)
    ensures |bytes| < WIDTH_BITS ==> Columns(bytes, p, |bytes|) == Fed(bytes, p)
    decreases |bytes|
  {
    hide XorCells, Slot, Xor, Columns, Fed;
    if |bytes| <= WIDTH_BITS {
      assert bytes[..|bytes|] == bytes;
      ShortColumns(bytes, p, |bytes|);
      ColumnsBeyond(bytes, p, WIDTH_BITS);
    } else {
      var head, rest := bytes[..WIDTH_BITS], bytes[WIDTH_BITS..];
      ColumnsSplit(bytes, p, WIDTH_BITS);
      ColumnsAreFed(head, p);
      ColumnsAreFed(rest, p);
      assert bytes == head + rest;
      FedAppend(head, rest, p);
      assert (p + SHIFT * WIDTH_BITS) % WIDTH_BITS == p;
    }
  }

  // ---------------------------------------------------------------- one call

  lemma NoSpill(b: Byte, n: nat)
    requires n >= 8
    ensures ShiftRight(Widen(b), n) == Zeros(64)
  {
  }

  lemma NoColumns(before: Cells, bytes: seq<Byte>, p: nat)
    requires p < WIDTH_BITS
    ensures XorCells(before, Columns(bytes, p, 0)) == before
  {
    XorCellsLaws(before, EMPTY, EMPTY);
  }

  /** One call feeds its bytes as if each had been placed in turn after those already fed. */
  lemma FeedMore(fed: seq<Byte>, bytes: seq<Byte>)
    ensures Fed(fed + bytes, 0) == XorCells(Fed(fed, 0), Columns(bytes, Position(|fed|), Iterations(bytes)))
  {
    hide XorCells, Columns, Fed;
    ColumnsAreFed(bytes, Position(|fed|));
    FedAppend(fed, bytes, 0);
  }

  lemma NextColumn(before: Cells, bytes: seq<Byte>, p: nat, n: nat)
    requires p < WIDTH_BITS
    ensures XorCells(XorCells(before, Columns(bytes, p, n)), Slot(Stride(bytes, n), (p + SHIFT * n) % WIDTH_BITS))
         == XorCells(before, Columns(bytes, p, n + 1))
  {
    hide XorCells, Slot, Stride;
    XorCellsLaws(before, Columns(bytes, p, n), Slot(Stride(bytes, n), (p + SHIFT * n) % WIDTH_BITS));
  }

  lemma NextLength(before: nat, count: nat)
    ensures (before % WORD_MODULUS + count % WORD_MODULUS) % WORD_MODULUS == (before + count) % WORD_MODULUS
  {
  }

  /** The shift carried to the next call is the position of the next byte. */
  lemma NextShift(before: nat, count: nat)
    ensures (Position(before) + SHIFT * (count % WIDTH_BITS)) % WIDTH_BITS == Position(before + count)
  {
    ModAdd(SHIFT * before, SHIFT * (count % WIDTH_BITS));
    DropMultiple(SHIFT * (count / WIDTH_BITS), SHIFT * before + SHIFT * (count % WIDTH_BITS));
  }

  // ---------------------------------------------------------------- bytes out

  lemma DigestBits(c: Cells, lengthWord: Word, circle: seq<Byte>, output: seq<Byte>)
    requires circle == LittleEndian(c[0]) + LittleEndian(c[1]) + LittleEndian(c[2])[..4]
    requires |output| == 20
    requires forall i :: 0 <= i < 20 ==>
                           output[i] == if i < 12 then circle[i] else Xor(circle[i], LittleEndian(lengthWord)[i - 12])
    ensures Flatten(output) == Xor(CircleOf(c), Zeros(96) + lengthWord)
  {
    FlattenAt(output);
    var expected := Xor(CircleOf(c), Zeros(96) + lengthWord);
    forall i | 0 <= i < WIDTH_BITS
      ensures Flatten(output)[i] == expected[i]
    {
      hide LittleEndian, CircleOf, Flatten;
      CircleBit(c, circle, i);
      if i >= 96 {
        assert i / 8 - 12 == (i - 96) / 8 && i % 8 == (i - 96) % 8;
      }
    }
  }

  lemma CircleBit(c: Cells, circle: seq<Byte>, i: nat)
    requires circle == LittleEndian(c[0]) + LittleEndian(c[1]) + LittleEndian(c[2])[..4]
    requires i < WIDTH_BITS
    ensures circle[i / 8][i % 8] == CircleOf(c)[i]
  {
    hide LittleEndian;
    if i < 64 {
    } else if i < 128 {
      assert i / 8 - 8 == (i - 64) / 8 && i % 8 == (i - 64) % 8;
    } else {
      assert i / 8 - 16 == (i - 128) / 8 && i % 8 == (i - 128) % 8;
    }
  }

  lemma {:induction false} FlattenAt(bytes: seq<Byte>)
    ensures forall i :: 0 <= i < 8 * |bytes| ==> Flatten(bytes)[i] == bytes[i / 8][i % 8]
  {
    if bytes != [] {
      FlattenAt(bytes[1..]);
      forall i | 0 <= i < 8 * |bytes|
        ensures Flatten(bytes)[i] == bytes[i / 8][i % 8]
      {
        if i >= 8 {
          assert Flatten(bytes)[i] == Flatten(bytes[1..])[i - 8];
          assert (i - 8) / 8 == i / 8 - 1;
        }
      }
    }
  }

  // ---------------------------------------------------------------- what the digest says, bit by bit

  /** The unsigned number of a run of bits, least significant first. */
  function NumberOf(bits: seq<bool>): nat {
    if bits == [] then 0 else (if bits[0] then 1 else 0) + 2 * NumberOf(bits[1..])
  }

  lemma AtLeastOnce(p: int, d: int)
    requires p > 0 && d > 0
    ensures p * d >= p
  {
    if d > 1 {
      AtLeastOnce(p, d - 1);
      assert p * d == p * (d - 1) + p;
    }
  }

  lemma SameQuotient(p: int, q: int, r: int, d: int, e: int)
    requires p > 0 && p * q + r == p * d + e && 0 <= r < p && 0 <= e < p
    ensures q == d
  {
    if q > d {
      assert p * (q - d) == p * q - p * d;
      AtLeastOnce(p, q - d);
    } else if q < d {
      assert p * (d - q) == p * d - p * q;
      AtLeastOnce(p, d - q);
    }
  }

  lemma Halve(n: nat, k: nat)
    ensures n / 2 / Pow2(k) == n / Pow2(k + 1)
  {
    var p := Pow2(k);
    var q, r := n / 2 / p, n / 2 % p;
    assert n / 2 == p * q + r;
    assert n == (2 * p) * q + (2 * r + n % 2);
    assert n == (2 * p) * (n / (2 * p)) + n % (2 * p);
    SameQuotient(2 * p, q, 2 * r + n % 2, n / (2 * p), n % (2 * p));
  }

  /** The lowest `m` bits of a number are the number modulo 2^m. */
  lemma {:induction false} LowBits(n: nat, m: nat, bits: seq<bool>)
    requires |bits| == m && forall k :: 0 <= k < m ==> bits[k] == (n / Pow2(k) % 2 == 1)
    requires n < Pow2(m)
    ensures NumberOf(bits) == n
  {
    if m > 0 {
      forall k | 0 <= k < m - 1
        ensures bits[1..][k] == (n / 2 / Pow2(k) % 2 == 1)
      {
        Halve(n, k);
      }
      LowBits(n / 2, m - 1, bits[1..]);
      assert Pow2(0) == 1;
      assert bits[0] == (n % 2 == 1);
    }
  }

  lemma {:induction false} Pow2Sum(a: nat, b: nat)
    ensures Pow2(a + b) == Pow2(a) * Pow2(b)
  {
    if a > 0 {
      Pow2Sum(a - 1, b);
    }
  }

  /** The bits of a 64-bit number are those of the number. */
  lemma WordIsNumber(n: nat)
    requires n < 0x1_0000_0000_0000_0000
    ensures NumberOf(WordOf(n)) == n
  {
    hide Pow2;
    assert Pow2(64) == 0x1_0000_0000_0000_0000 by {
      Pow2Sum(32, 32);
      Pow2Sum(16, 16);
      Pow2Sum(8, 8);
      assert Pow2(8) == 256 by { Eight(); }
    }
    LowBits(n, 64, WordOf(n));
  }

  lemma Eight()
    ensures Pow2(8) == 256
  {
  }

  /** Bit `j` of byte `i` goes to this bit of the circle. */
  function Place(i: nat, j: nat): nat {
    (11 * i + j) % 160
  }

  /** How often a one is put on bit `k` of the circle. */
  function Ones(data: seq<Byte>, k: nat): nat {
    if data == [] then 0
    else
      var i := |data| - 1;
      Ones(data[..i], k) + if exists j :: 0 <= j < 8 && data[i][j] && Place(i, j) == k then 1 else 0
  }

  /** A bit of the circle is set exactly if an odd number of ones is put on it. */
  lemma {:induction false} CircularBit(data: seq<Byte>, k: nat)
    requires k < 160
    ensures Circular(data)[k] <==> Ones(data, k) % 2 == 1
  {
    hide RotateLeft, Position, Place;
    if data != [] {
      var i := |data| - 1;
      CircularBit(data[..i], k);
      RotatedBit(data[i], i, k);
    }
  }

  lemma RotatedBit(b: Byte, i: nat, k: nat)
    requires k < 160
    ensures RotateLeft(b + Zeros(152), Position(i))[k] <==> exists j :: 0 <= j < 8 && b[j] && Place(i, j) == k
  {
    var p := Position(i);
    var from := (k + 160 - p) % 160;
    forall j | 0 <= j < 8
      ensures Place(i, j) == k <==> from == j
    {
      ModAdd(11 * i, j);
    }
  }

  lemma XorCancels(a: seq<bool>, b: seq<bool>)
    requires |a| == |b|
    ensures Xor(Xor(a, b), a) == b
  {
  }

  lemma XorUpper(circle: Circle, word: Word)
    ensures Xor(circle, Zeros(96) + word)[..96] == circle[..96]
    ensures Xor(circle, Zeros(96) + word)[96..] == Xor(circle[96..], word)
  {
  }

  /** The digest read off: the first 96 bits are the circle's, and what the last 64 differ by is the number of bytes,
      modulo 2^64. */
  lemma DigestHoldsLength(data: seq<Byte>)
    ensures Digest(data)[..96] == Circular(data)[..96]
    ensures NumberOf(Xor(Digest(data)[96..], Circular(data)[96..])) == |data| % 0x1_0000_0000_0000_0000
  {
    hide Circular, WordOf, Xor;
    var circle, length := Circular(data), |data| % WORD_MODULUS;
    var word := WordOf(length);
    XorUpper(circle, word);
    XorCancels(circle[96..], word);
    WordIsNumber(length);
  }
}
