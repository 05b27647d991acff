/** Trimming text, and the written form of a 256-bit hash. */
module Text {

  /** The characters `trim` removes: Unicode white space. */
  predicate IsSpace(c: char) {
    '\t' <= c <= '\r' || c == ' ' || c == '\U{0085}' || c == '\U{00A0}' || c == '\U{1680}'
    || '\U{2000}' <= c <= '\U{200A}'
    || c == '\U{2028}' || c == '\U{2029}' || c == '\U{202F}' || c == '\U{205F}' || c == '\U{3000}'
  }

  function TrimStart(s: string): (r: string)
    ensures r != [] ==> !IsSpace(r[0])
  {
    if s != [] && IsSpace(s[0]) then TrimStart(s[1..]) else s
  }

  function TrimEnd(s: string): (r: string)
    ensures r <= s && (r != [] ==> !IsSpace(r[|r| - 1]))
  {
    if s != [] && IsSpace(s[|s| - 1]) then TrimEnd(s[..|s| - 1]) else s
  }

  function Trim(s: string): (r: string)
    ensures r == [] || (!IsSpace(r[0]) && !IsSpace(r[|r| - 1]))
    ensures s == [] || (!IsSpace(s[0]) && !IsSpace(s[|s| - 1])) ==> r == s
  {
    hide IsSpace;
    TrimEnd(TrimStart(s))
  }

  /** White space are these characters, and no others. */
  lemma SpacesAre(c: char)
    ensures IsSpace(c) <==>
              var n := c as int;
              n in {9, 10, 11, 12, 13, 32, 133, 160, 5_760, 8_192, 8_193, 8_194, 8_195, 8_196, 8_197, 8_198, 8_199,
                    8_200,
                    8_201, 8_202, 8_232, 8_233, 8_239, 8_287, 12_288}
  {
  }

  /** Trimming takes white space from both ends, and nothing else. */
  lemma {:induction false} TrimTakesSpaces(s: string) returns (before: string, after: string)
    ensures s == before + Trim(s) + after
    ensures (forall c <- before :: IsSpace(c)) && (forall c <- after :: IsSpace(c))
  {
    hide IsSpace;
    var rest := TrimStart(s);
    before := StartTaken(s);
    after := EndTaken(rest);
  }

  lemma {:induction false} StartTaken(s: string) returns (before: string)
    ensures s == before + TrimStart(s) && forall c <- before :: IsSpace(c)
  {
    hide IsSpace;
    if s != [] && IsSpace(s[0]) {
      before := StartTaken(s[1..]);
      before := [s[0]] + before;
    } else {
      before := [];
    }
  }

  lemma {:induction false} EndTaken(s: string) returns (after: string)
    ensures s == TrimEnd(s) + after && forall c <- after :: IsSpace(c)
  {
    hide IsSpace;
    if s != [] && IsSpace(s[|s| - 1]) {
      after := EndTaken(s[..|s| - 1]);
      after := after + [s[|s| - 1]];
    } else {
      after := [];
    }
  }

  predicate ValidHex64(s: string) {
    |s| == 64 && forall c <- s :: '0' <= c <= '9' || 'a' <= c <= 'f' || 'A' <= c <= 'F'
  }
}
