/** QuickXorHash: a 160-bit circular XOR kept in three 64-bit cells, the last of which
    contributes only its low 32 bits.  The specification (`Circular`) is one circle of 160 bits;
    the hasher works cell by cell, folds bytes 160 apart together, and carries `shift` from one
    call to the next.  Machine words are sequences of bits, least significant first. */
module QuickXor {

  const WIDTH_BITS: nat := 160
  const SHIFT: nat := 11
  const WORD_MODULUS: nat := 0x1_0000_0000_0000_0000

  type Byte = b: seq<bool> | |b| == 8 witness seq(8, _ => false)
  type Word = w: seq<bool> | |w| == 64 witness seq(64, _ => false)
  type Circle = c: seq<bool> | |c| == WIDTH_BITS witness seq(WIDTH_BITS, _ => false)
  type Cells = c: seq<Word> | |c| == 3 witness seq(3, _ => Zeros(64))

  // ---------------------------------------------------------------- machine words

  function Zeros(n: nat): (r: seq<bool>)
    ensures |r| == n && forall k :: 0 <= k < n ==> !r[k]
  {
    seq(n, _ => false)
  }

  function Xor(a: seq<bool>, b: seq<bool>): (r: seq<bool>)
    requires |a| == |b|
    ensures |r| == |a| && forall k :: 0 <= k < |a| ==> r[k] == (a[k] != b[k])
  {
    seq(|a|, k requires 0 <= k < |a| => a[k] != b[k])
  }

  /** `u64::from` on a byte. */
  function Widen(b: Byte): Word {
    b + Zeros(56)
  }

  /** `w << n`: bits pushed past the top are lost. */
  function ShiftLeft(w: Word, n: nat): Word {
    seq(64, k requires 0 <= k < 64 => k >= n && w[k - n])
  }

  /** `w >> n`. */
  function ShiftRight(w: Word, n: nat): Word {
    seq(64, k requires 0 <= k < 64 => k + n < 64 && w[k + n])
  }

  function Pow2(k: nat): (r: nat)
    ensures r > 0
  {
    if k == 0 then 1 else 2 * Pow2(k - 1)
  }

  /** The bits of an unsigned 64-bit number. */
  function WordOf(n: nat): Word {
    seq(64, k requires 0 <= k < 64 => n / Pow2(k) % 2 == 1)
  }

  // ---------------------------------------------------------------- specification

  function RotateLeft(x: Circle, n: nat): Circle
    requires n < WIDTH_BITS
  {
    seq(WIDTH_BITS, k requires 0 <= k < WIDTH_BITS => x[(k + WIDTH_BITS - n) % WIDTH_BITS])
  }

  /** The bit position at which byte number `i` enters the circle. */
  function Position(i: nat): (p: nat)
    ensures p < WIDTH_BITS
  {
    SHIFT * i % WIDTH_BITS
  }

  /** The XOR of every byte rotated left by 11 times its index, modulo 160. */
  function Circular(data: seq<Byte>): Circle {
    if data == [] then Zeros(WIDTH_BITS)
    else
      var last := |data| - 1;
      Xor(Circular(data[..last]), RotateLeft(data[last] + Zeros(152), Position(last)))
  }

  /** The published digest: the length is mixed into the last 64 bits of the circle. */
  function Digest(data: seq<Byte>): Circle {
    Xor(Circular(data), Zeros(96) + WordOf(|data| % WORD_MODULUS))
  }

  // ---------------------------------------------------------------- the three cells

  const EMPTY: Cells := [Zeros(64), Zeros(64), Zeros(64)]

  /** The circle the cells stand for: what lies above bit 32 of the last cell is not part of it. */
  function CircleOf(c: Cells): Circle {
    var low: seq<bool> := c[0];
    low + c[1] + c[2][..32]
  }

  function XorCells(a: Cells, b: Cells): Cells {
    [Xor(a[0], b[0]), Xor(a[1], b[1]), Xor(a[2], b[2])]
  }

  function CellWidth(cell: nat): nat {
    if cell == 2 then 32 else 64
  }

  function NextCell(cell: nat): nat {
    if cell == 2 then 0 else cell + 1
  }

  /** What one byte at bit `p` of the circle adds to the cells, junk above bit 32 included. */
  function Slot(b: Byte, p: nat): Cells
    requires p < WIDTH_BITS
  {
    var cell, offset := p / 64, p % 64;
    var low := ShiftLeft(Widen(b), offset);
    var spill := ShiftRight(Widen(b), CellWidth(cell) - offset);
    if cell == 0 then [low, spill, Zeros(64)]
    else if cell == 1 then [Zeros(64), low, spill]
    else [spill, Zeros(64), low]
  }

  /** The cells after feeding `data` one byte at a time, starting at bit `p`. */
  function Fed(data: seq<Byte>, p: nat): Cells
    requires p < WIDTH_BITS
  {
    if data == [] then EMPTY
    else XorCells(Slot(data[0], p), Fed(data[1..], (p + SHIFT) % WIDTH_BITS))
  }

  // ---------------------------------------------------------------- the stride-160 fold

  /** The XOR of the bytes at `i`, `i + 160`, `i + 320`, ... */
  function Stride(bytes: seq<Byte>, i: nat): Byte
    decreases |bytes| - i
  {
    if i >= |bytes| then Zeros(8) else Xor(bytes[i], Stride(bytes, i + WIDTH_BITS))
  }

  /** The cells after placing the first `n` strides. */
  function Columns(bytes: seq<Byte>, p: nat, n: nat): Cells
    requires p < WIDTH_BITS
  {
    if n == 0 then EMPTY
    else XorCells(Columns(bytes, p, n - 1), Slot(Stride(bytes, n - 1), (p + SHIFT * (n - 1)) % WIDTH_BITS))
  }

  /** `bytes.len().min(QUICK_XOR_WIDTH_BITS)`. */
  function Iterations(bytes: seq<Byte>): nat {
    if |bytes| < WIDTH_BITS then |bytes| else WIDTH_BITS
  }

  // ---------------------------------------------------------------- bytes out

  /** `to_le_bytes`. */
  function LittleEndian(w: Word): (r: seq<Byte>)
    ensures |r| == 8
    ensures forall i :: 0 <= i < 64 ==> r[i / 8][i % 8] == w[i]
  {
    var bits: seq<bool> := w;
    seq(8, k requires 0 <= k < 8 => bits[8 * k..8 * k + 8])
  }

  /** The bytes one after the other, as one run of bits. */
  function Flatten(bytes: seq<Byte>): (bits: seq<bool>)
    ensures |bits| == 8 * |bytes|
  {
    if bytes == [] then [] else bytes[0] + Flatten(bytes[1..])
  }

  function Concat(chunks: seq<seq<Byte>>): seq<Byte> {
    if chunks == [] then [] else Concat(chunks[..|chunks| - 1]) + chunks[|chunks| - 1]
  }
}
