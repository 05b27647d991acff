/** The scan of an incomplete download for end-of-central-directory signatures, read piece by piece with a
    small overlap, and the whole-file answer it must equal.  The signature is the one of section 4.3.16 of
    PKWARE APPNOTE.TXT. */
module SignatureScan {

  const MAX_SCAN_BYTES: nat := 4 * 1024 * 1024 * 1024
  const MAX_OFFSETS: nat := 64
  const OVERLAP_BYTES: nat := 3

  type Byte = n: nat | n < 256

  const SIGNATURE: seq<Byte> := [0x50, 0x4B, 0x05, 0x06]

  // ---------------------------------------------------------------- the whole-file answer

  /** The signature ends where `s` ends. */
  predicate EndsSigned(s: seq<Byte>) {
    |s| >= 4 && s[|s| - 4..] == SIGNATURE
  }

  /** Where the signature occurs, in order. */
  function Positions(s: seq<Byte>): (r: seq<nat>)
    ensures |r| <= |s|
  {
    if s == [] then [] else Positions(s[..|s| - 1]) + if EndsSigned(s) then [|s| - 4] else []
  }

  lemma LastByte(s: seq<Byte>)
    ensures s == [] ==> Positions(s) == []
    ensures s != [] ==> Positions(s) == Positions(s[..|s| - 1]) + if EndsSigned(s) then [|s| - 4] else []
  {
  }

  /** All occurrences, and nothing else. */
  lemma {:induction false} PositionsAreOccurrences(s: seq<Byte>, i: nat)
    ensures i in Positions(s) <==> i + 4 <= |s| && s[i..i + 4] == SIGNATURE
  {
    hide SIGNATURE, Positions;
    LastByte(s);
    if s != [] {
      var front := s[..|s| - 1];
      PositionsAreOccurrences(front, i);
      if i + 4 <= |front| {
        assert front[i..i + 4] == s[i..i + 4];
      } else if i + 4 == |s| {
        assert s[|s| - 4..] == s[i..i + 4];
      }
    }
  }

  /** The bytes PK and 5, 6 stand at `i`. */
  predicate StandsAt(s: seq<Byte>, i: nat) {
    i + 4 <= |s| && s[i] == 80 && s[i + 1] == 75 && s[i + 2] == 5 && s[i + 3] == 6
  }

  lemma SignatureStands(s: seq<Byte>, i: nat)
    ensures StandsAt(s, i) <==> i + 4 <= |s| && s[i..i + 4] == SIGNATURE
  {
    if i + 4 <= |s| {
      var four := s[i..i + 4];
      assert four == [s[i], s[i + 1], s[i + 2], s[i + 3]];
    }
  }

  /** Where they do. */
  function Occurrences(s: seq<Byte>): set<nat> {
    set i: nat | i < |s| && StandsAt(s, i)
  }

  function Members(positions: seq<nat>): set<nat> {
    set i | i in positions
  }

  lemma {:induction false} IncreasingSize(positions: seq<nat>)
    requires forall j, k :: 0 <= j < k < |positions| ==> positions[j] < positions[k]
    ensures |Members(positions)| == |positions|
  {
    if positions != [] {
      var front, last := positions[..|positions| - 1], positions[|positions| - 1];
      IncreasingSize(front);
      assert positions == front + [last];
      assert Members(positions) == Members(front) + {last};
    }
  }

  /** The positions are all occurrences, and there are as many of them. */
  lemma PositionsCount(s: seq<Byte>)
    ensures Members(Positions(s)) == Occurrences(s) && |Positions(s)| == |Occurrences(s)|
  {
    hide Positions, StandsAt;
    PositionsIncrease(s);
    IncreasingSize(Positions(s));
    forall i: nat
      ensures i in Members(Positions(s)) <==> i in Occurrences(s)
    {
      PositionsAreOccurrences(s, i);
      SignatureStands(s, i);
      assert StandsAt(s, i) ==> i < |s|;
    }
  }

  /** Each once, and in order. */
  lemma {:induction false} PositionsIncrease(s: seq<Byte>)
    ensures forall j, k :: 0 <= j < k < |Positions(s)| ==> Positions(s)[j] < Positions(s)[k]
  {
    hide EndsSigned, SIGNATURE;
    if s != [] {
      var front := s[..|s| - 1];
      PositionsIncrease(front);
      forall j | 0 <= j < |Positions(front)|
        ensures Positions(front)[j] < |s| - 4
      {
        PositionsAreOccurrences(front, Positions(front)[j]);
      }
    }
  }

  function Shifted(positions: seq<nat>, offset: nat): seq<nat> {
    seq(|positions|, i requires 0 <= i < |positions| => positions[i] + offset)
  }

  // ---------------------------------------------------------------- pieces

  lemma OneMoreByte(s: seq<Byte>, n: nat)
    requires n < |s|
    ensures Positions(s[..n + 1]) == Positions(s[..n]) + if EndsSigned(s[..n + 1]) then [n - 3] else []
  {
    assert s[..n + 1][..n] == s[..n];
  }

  /** The last three bytes, or all there are, decide where the signature ends in what follows. */
  lemma {:induction false} TailSuffices(s: seq<Byte>, n: nat, piece: seq<Byte>)
    requires n <= |s| && (n == 3 || n == |s| < 3)
    ensures Positions(s + piece) == Positions(s) + Shifted(Positions(s[|s| - n..] + piece), |s| - n)
  {
    hide EndsSigned, Shifted;
    var tail := s[|s| - n..];
    if piece == [] {
      assert s + piece == s && tail + piece == tail;
      ShortHasNone(tail);
      ShiftedEmpty(|s| - n);
    } else {
      var front := piece[..|piece| - 1];
      TailSuffices(s, n, front);
      assert (s + piece)[..|s + piece| - 1] == s + front;
      assert (tail + piece)[..|tail + piece| - 1] == tail + front;
      SameEnd(s, tail, piece);
      ShiftedAppend(Positions(tail + front), if EndsSigned(tail + piece) then [|tail + piece| - 4] else [], |s| - n);
    }
  }

  lemma ShiftedEmpty(offset: nat)
    ensures Shifted([], offset) == []
  {
  }

  lemma ShiftedAppend(a: seq<nat>, b: seq<nat>, offset: nat)
    ensures Shifted(a + b, offset) == Shifted(a, offset) + Shifted(b, offset)
    ensures |b| == 1 ==> Shifted(b, offset) == [b[0] + offset]
    ensures b == [] ==> Shifted(b, offset) == []
  {
  }

  lemma SameEnd(s: seq<Byte>, tail: seq<Byte>, piece: seq<Byte>)
    requires |tail| <= |s| && s[|s| - |tail|..] == tail && (|tail| >= 3 || tail == s) && piece != []
    ensures EndsSigned(s + piece) <==> EndsSigned(tail + piece)
    ensures EndsSigned(tail + piece) ==> |tail + piece| >= 4
  {
    hide SIGNATURE;
    if |tail + piece| >= 4 {
      var a, b := s + piece, tail + piece;
      assert a[|a| - 4..] == b[|b| - 4..];
    }
  }

  /** Too short to hold a signature. */
  lemma ShortHasNone(s: seq<Byte>)
    requires |s| <= 3
    ensures Positions(s) == []
    decreases |s|
  {
    if s != [] {
      ShortHasNone(s[..|s| - 1]);
    }
  }

  /** Where a signature starts, none starts in the next three bytes. */
  lemma NoOverlap(s: seq<Byte>, i: nat, j: nat)
    requires i < j <= i + 3 && j + 4 <= |s| && s[i..i + 4] == SIGNATURE
    ensures s[j..j + 4] != SIGNATURE
  {
    assert s[j..j + 4][0] == s[i..i + 4][j - i];
  }

  /** Searches from left to right, going on after each match. */
  method FindIter(window: seq<Byte>) returns (found: seq<nat>)
    ensures found == Positions(window)
  {
    hide Positions, SIGNATURE;
    found := [];
    var i := 0;
    ShortHasNone(Upto(window, 3));
    while i + 4 <= |window|
      invariant 0 <= i
      invariant found == Positions(Upto(window, i + 3))
      decreases |window| - i
    {
      Step(window, i);
      if window[i..i + 4] == SIGNATURE {
        found := found + [i];
        AfterMatch(window, i);
        i := i + 4;
      } else {
        i := i + 1;
      }
    }
    assert Upto(window, i + 3) == window;
  }

  function Upto(s: seq<Byte>, n: nat): seq<Byte> {
    if n < |s| then s[..n] else s
  }

  lemma Step(window: seq<Byte>, i: nat)
    requires i + 4 <= |window|
    ensures Positions(Upto(window, i + 4)) == Positions(Upto(window, i + 3))
              + if window[i..i + 4] == SIGNATURE then [i] else []
  {
    hide SIGNATURE;
    OneMoreByte(window, i + 3);
    assert window[..i + 4][i..] == window[i..i + 4];
    assert window[..i + 4] == Upto(window, i + 4);
  }

  lemma AfterMatch(window: seq<Byte>, i: nat)
    requires i + 4 <= |window| && window[i..i + 4] == SIGNATURE
    ensures Positions(Upto(window, i + 7)) == Positions(Upto(window, i + 4))
  {
    hide Positions, SIGNATURE;
    var k := 1;
    while k < 4
      invariant 1 <= k <= 4 && Positions(Upto(window, i + 3 + k)) == Positions(Upto(window, i + 4))
    {
      if i + k + 4 <= |window| {
        NoOverlap(window, i, i + k);
        Step(window, i + k);
      } else {
        assert Upto(window, i + 4 + k) == Upto(window, i + 3 + k);
      }
      k := k + 1;
    }
  }

  // ---------------------------------------------------------------- the scan

  datatype Read = ReadFailed | Piece(bytes: seq<Byte>)

  datatype Error = OpenFailed | MetadataFailed | SizeLimitExceeded | ScanReadFailed | SizeChangedDuringScan

  datatype Found = Found(fileBytes: nat, count: nat, offsets: seq<nat>)

  datatype Result = Ok(found: Found) | Err(error: Error)

  /** Everything read before the end, which is the first empty piece or the end of the list. */
  function Content(pieces: seq<Read>): seq<Byte> {
    if pieces == [] || pieces[0].ReadFailed? || pieces[0].bytes == [] then []
    else pieces[0].bytes + Content(pieces[1..])
  }

  predicate ReadsSucceed(pieces: seq<Read>) {
    pieces == [] || (pieces[0].Piece? && (pieces[0].bytes == [] || ReadsSucceed(pieces[1..])))
  }

  function First(positions: seq<nat>, n: nat): seq<nat> {
    if |positions| > n then positions[..n] else positions
  }

  datatype Metadata = Unavailable | Length(bytes: nat)

  /** Counts the signatures in what is read, however it is cut up, and keeps the first positions. */
  method ScanSignatures(opens: bool, metadata: Metadata, pieces: seq<Read>) returns (r: Result)
    ensures r.Ok? <==>
              opens && metadata.Length? && metadata.bytes <= 4_294_967_296 && ReadsSucceed(pieces)
              && |Content(pieces)| == metadata.bytes
    ensures r.Err? ==>
              r.error == if !opens then OpenFailed else if metadata.Unavailable? then MetadataFailed
              else if metadata.bytes > 4_294_967_296 then SizeLimitExceeded
              else if !ReadsSucceed(pieces) then ScanReadFailed else SizeChangedDuringScan
    ensures r.Ok? ==> r.found.fileBytes == |Content(pieces)| && r.found.count == |Positions(Content(pieces))|
    ensures r.Ok? ==> r.found.offsets == First(Positions(Content(pieces)), 64)
    ensures r.Ok? ==> r.found.count == |Occurrences(Content(pieces))|
    ensures r.Ok? ==> forall i <- r.found.offsets :: StandsAt(Content(pieces), i)
  {
    hide Positions, IsOverlap, ReadSoFar, Content, ReadsSucceed, Tail, Shifted, First, StandsAt, Occurrences;
    if !opens {
      return Err(OpenFailed);
    }
    if metadata.Unavailable? {
      return Err(MetadataFailed);
    }
    if metadata.bytes > MAX_SCAN_BYTES {
      return Err(SizeLimitExceeded);
    }
    var overlap: seq<Byte>, bytesRead, count, offsets: seq<nat> := [], 0, 0, [];
    ghost var seen: seq<Byte> := [];
    ShortHasNone(seen);
    NothingRead(pieces);
    var i := 0;
    while i < |pieces|
      invariant 0 <= i <= |pieces|
      invariant |seen| == bytesRead && ReadSoFar(pieces, i, seen) && IsOverlap(seen, overlap)
      invariant count == |Positions(seen)| && offsets == First(Positions(seen), MAX_OFFSETS)
    {
      NextPiece(pieces, i, seen);
      if pieces[i].ReadFailed? {
        return Err(ScanReadFailed);
      }
      var piece := pieces[i].bytes;
      if piece == [] {
        break;
      }
      OverlapIsTail(seen, overlap);
      TailSuffices(seen, |overlap|, piece);
      NextOverlap(seen, overlap, piece);
      var window := overlap + piece;
      count, offsets := Collect(window, bytesRead - |overlap|, count, offsets, Positions(seen));
      overlap := Tail(window);
      seen := seen + piece;
      bytesRead := bytesRead + |piece|;
      i := i + 1;
    }
    AllRead(pieces, i, seen);
    if bytesRead != metadata.bytes {
      return Err(SizeChangedDuringScan);
    }
    PositionsCount(seen);
    r := Ok(Found(metadata.bytes, count, offsets));
    FirstStand(seen, 64);
  }

  lemma FirstStand(s: seq<Byte>, n: nat)
    ensures forall i <- First(Positions(s), n) :: StandsAt(s, i)
  {
    hide Positions, StandsAt;
    forall i | i in First(Positions(s), n)
      ensures StandsAt(s, i)
    {
      assert i in Positions(s);
      PositionsAreOccurrences(s, i);
      SignatureStands(s, i);
    }
  }

  function Tail(window: seq<Byte>): seq<Byte> {
    window[if |window| > OVERLAP_BYTES then |window| - OVERLAP_BYTES else 0..]
  }

  ghost predicate IsOverlap(seen: seq<Byte>, overlap: seq<Byte>) {
    && |overlap| <= OVERLAP_BYTES && |overlap| <= |seen| && seen[|seen| - |overlap|..] == overlap
    && (|overlap| == OVERLAP_BYTES || overlap == seen)
  }

  /** A tail of the window is again a tail of the file. */
  lemma NextOverlap(seen: seq<Byte>, overlap: seq<Byte>, piece: seq<Byte>)
    requires IsOverlap(seen, overlap)
    ensures IsOverlap(seen + piece, Tail(overlap + piece))
  {
    var a, t := seen + piece, Tail(overlap + piece);
    assert a[|a| - |t|..] == t;
  }

  lemma OverlapIsTail(seen: seq<Byte>, overlap: seq<Byte>)
    requires IsOverlap(seen, overlap)
    ensures |overlap| <= |seen| && seen[|seen| - |overlap|..] == overlap && (|overlap| == 3 || |overlap| == |seen| < 3)
  {
  }

  ghost predicate ReadSoFar(pieces: seq<Read>, i: nat, seen: seq<Byte>)
    requires i <= |pieces|
  {
    seen + Content(pieces[i..]) == Content(pieces) && (ReadsSucceed(pieces) <==> ReadsSucceed(pieces[i..]))
  }

  lemma NothingRead(pieces: seq<Read>)
    ensures ReadSoFar(pieces, 0, []) && IsOverlap([], []) && First([], MAX_OFFSETS) == []
  {
    assert pieces[0..] == pieces;
  }

  lemma NextPiece(pieces: seq<Read>, i: nat, seen: seq<Byte>)
    requires i < |pieces| && ReadSoFar(pieces, i, seen)
    ensures pieces[i].ReadFailed? ==> !ReadsSucceed(pieces)
    ensures pieces[i].Piece? && pieces[i].bytes != [] ==> ReadSoFar(pieces, i + 1, seen + pieces[i].bytes)
  {
    assert pieces[i..][1..] == pieces[i + 1..];
  }

  lemma AllRead(pieces: seq<Read>, i: nat, seen: seq<Byte>)
    requires i <= |pieces| && ReadSoFar(pieces, i, seen)
    requires i == |pieces| || pieces[i] == Piece([])
    ensures Content(pieces) == seen && ReadsSucceed(pieces)
  {
    assert seen + [] == seen;
  }

  /** Adds the matches of one window to the count and to the positions kept. */
  method Collect(window: seq<Byte>, windowOffset: nat, count0: nat, offsets0: seq<nat>, ghost before: seq<nat>)
    returns (count: nat, offsets: seq<nat>)
    requires count0 == |before| && offsets0 == First(before, MAX_OFFSETS)
    ensures count == |before + Shifted(Positions(window), windowOffset)|
    ensures offsets == First(before + Shifted(Positions(window), windowOffset), MAX_OFFSETS)
  {
    hide Positions;
    var found := FindIter(window);
    ghost var all := Shifted(found, windowOffset);
    count, offsets := count0, offsets0;
    var k := 0;
    while k < |found|
      invariant 0 <= k <= |found|
      invariant count == |before + all[..k]| && offsets == First(before + all[..k], MAX_OFFSETS)
    {
      assert all[..k + 1] == all[..k] + [windowOffset + found[k]];
      count := count + 1;
      if |offsets| < MAX_OFFSETS {
        offsets := offsets + [windowOffset + found[k]];
      }
      k := k + 1;
    }
    assert all[..k] == all;
  }
}
