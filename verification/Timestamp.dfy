/** Printing and reading instants: the RFC 3339 section 5.6 form the application writes, the
    hand-written reader that accepts it (and the looser camera form), and the date hints taken
    from file names.  No character outside ASCII is part of either; instants are milliseconds since
    1970-01-01T00:00:00Z. */
module Timestamp {
  import opened Calendar
  import opened Optional
  import opened Text

  const DAY_MS: nat := 86_400_000
  /** 2101-01-01T00:00:00Z, the first instant whose year the application does not accept. */
  const END_MS: nat := 4_133_980_800_000

  // ---------------------------------------------------------------- characters and numbers

  predicate IsDigit(c: char) {
    '0' <= c <= '9'
  }

  function DigitValue(c: char): nat
    requires IsDigit(c)
  {
    c as int - '0' as int
  }

  function DigitChar(n: nat): (c: char)
    requires n < 10
    ensures IsDigit(c) && DigitValue(c) == n
  {
    ('0' as int + n) as char
  }

  predicate AllDigits(s: string) {
    forall i :: 0 <= i < |s| ==> IsDigit(s[i])
  }

  /** The number a run of digits stands for. */
  function NumberOf(s: string): nat
    requires AllDigits(s)
  {
    if s == [] then 0 else 10 * NumberOf(s[..|s| - 1]) + DigitValue(s[|s| - 1])
  }

  function One(n: nat): (s: string)
    requires n < 10
    ensures |s| == 1 && AllDigits(s) && NumberOf(s) == n
  {
    var s := [DigitChar(n)];
    assert s[..0] == [];
    s
  }

  function Two(n: nat): (s: string)
    requires n < 100
    ensures |s| == 2 && AllDigits(s) && NumberOf(s) == n
  {
    var s := One(n / 10) + [DigitChar(n % 10)];
    assert s[..1] == One(n / 10);
    s
  }

  function Three(n: nat): (s: string)
    requires n < 1000
    ensures |s| == 3 && AllDigits(s) && NumberOf(s) == n
  {
    var s := Two(n / 10) + [DigitChar(n % 10)];
    assert s[..2] == Two(n / 10);
    s
  }

  function Four(n: nat): (s: string)
    requires n < 10_000
    ensures |s| == 4 && AllDigits(s) && NumberOf(s) == n
  {
    var s := Three(n / 10) + [DigitChar(n % 10)];
    assert s[..3] == Three(n / 10);
    s
  }

  lemma {:induction false} NumberInjective(a: string, b: string)
    requires AllDigits(a) && AllDigits(b) && |a| == |b| && NumberOf(a) == NumberOf(b)
    ensures a == b
  {
    if a != [] {
      NumberInjective(a[..|a| - 1], b[..|b| - 1]);
    }
  }

  function Pow10(n: nat): nat {
    if n == 0 then 1 else 10 * Pow10(n - 1)
  }

  lemma {:induction false} NumberBound(s: string)
    requires AllDigits(s)
    ensures NumberOf(s) < Pow10(|s|)
  {
    if |s| > 0 {
      NumberBound(s[..|s| - 1]);
    }
  }

  /** `digits`: the number written at `start` in exactly `len` digits. */
  method Digits(bytes: string, start: nat, len: nat) returns (r: Option<nat>)
    ensures r == DigitsAt(bytes, start, len)
  {
    if start + len > |bytes| {
      return None;
    }
    var value := 0;
    for i := 0 to len
      invariant AllDigits(bytes[start..start + i])
      invariant value == NumberOf(bytes[start..start + i])
    {
      if !IsDigit(bytes[start + i]) {
        return None;
      }
      assert bytes[start..start + i + 1][..i] == bytes[start..start + i];
      value := value * 10 + DigitValue(bytes[start + i]);
    }
    return Some(value);
  }

  function DigitsAt(bytes: string, start: nat, len: nat): Option<nat> {
    if start + len <= |bytes| && AllDigits(bytes[start..start + len]) then Some(NumberOf(bytes[start..start + len]))
    else None
  }

  lemma DigitsAtTwo(bytes: string, start: nat)
    ensures DigitsAt(bytes, start, 2).Some? ==>
              DigitsAt(bytes, start, 2).value < 100 && bytes[start..start + 2] == Two(DigitsAt(bytes, start, 2).value)
  {
    if DigitsAt(bytes, start, 2).Some? {
      NumberBound(bytes[start..start + 2]);
      assert Pow10(2) == 100;
      NumberInjective(bytes[start..start + 2], Two(NumberOf(bytes[start..start + 2])));
    }
  }

  lemma DigitsAtFour(bytes: string, start: nat)
    ensures DigitsAt(bytes, start, 4).Some? ==>
              DigitsAt(bytes, start, 4).value < 10_000
              && bytes[start..start + 4] == Four(DigitsAt(bytes, start, 4).value)
  {
    if DigitsAt(bytes, start, 4).Some? {
      NumberBound(bytes[start..start + 4]);
      assert Pow10(4) == 10 * (10 * Pow10(2)) == 10_000;
      NumberInjective(bytes[start..start + 4], Four(NumberOf(bytes[start..start + 4])));
    }
  }

  // ---------------------------------------------------------------- the grammar

  datatype Zone = Zulu(letter: char) | Offset(east: bool, hours: nat, minutes: nat)

  /** The date and time of a timestamp, with the separators it used. */
  datatype Head = Head(
    year: nat, sep1: char, month: nat, sep2: char, day: nat, sep3: char, hour: nat, minute: nat, second: nat)

  /** A timestamp as written: date and time, the digits of its fraction if it has one, zone. */
  datatype Fields = Fields(head: Head, fraction: Option<string>, zone: Zone)

  predicate LegalZone(z: Zone) {
    match z
    case Zulu(letter) => letter == 'Z' || letter == 'z'
    case Offset(_, hours, minutes) => minutes <= 59 && (hours < 14 || (hours == 14 && minutes == 0))
  }

  predicate LegalHead(h: Head) {
    && ValidDate(h.year, h.month, h.day)
    && h.hour <= 23 && h.minute <= 59 && h.second <= 59
    && (h.sep1 == ':' || h.sep1 == '-') && (h.sep2 == ':' || h.sep2 == '-') && (h.sep3 == ' ' || h.sep3 == 'T')
  }

  predicate LegalFraction(fraction: Option<string>) {
    fraction.Some? ==> fraction.value != [] && AllDigits(fraction.value)
  }

  predicate Legal(f: Fields) {
    LegalHead(f.head) && LegalFraction(f.fraction) && LegalZone(f.zone)
  }

  function RenderHead(h: Head): (s: string)
    requires LegalHead(h)
    ensures |s| == 19
  {
    RenderDate(h.year, h.sep1, h.month, h.sep2, h.day) + [h.sep3] + RenderTime(h.hour, h.minute, h.second)
  }

  function RenderDate(year: nat, sep1: char, month: nat, sep2: char, day: nat): (s: string)
    requires year < 10_000 && month < 100 && day < 100
    ensures |s| == 10
  {
    Four(year) + [sep1] + Two(month) + [sep2] + Two(day)
  }

  function RenderTime(hour: nat, minute: nat, second: nat): (s: string)
    requires hour < 100 && minute < 100 && second < 100
    ensures |s| == 8
  {
    Two(hour) + [':'] + Two(minute) + [':'] + Two(second)
  }

  function RenderFraction(fraction: Option<string>): string {
    match fraction
    case None => []
    case Some(digits) => ['.'] + digits
  }

  function RenderZone(z: Zone): string
    requires LegalZone(z)
  {
    match z
    case Zulu(letter) => [letter]
    case Offset(east, hours, minutes) => [if east then '+' else '-'] + Two(hours) + [':'] + Two(minutes)
  }

  /** The text of a timestamp. */
  function Render(f: Fields): string
    requires Legal(f)
  {
    RenderHead(f.head) + (RenderFraction(f.fraction) + RenderZone(f.zone))
  }

  function OffsetSeconds(z: Zone): int {
    match z
    case Zulu(_) => 0
    case Offset(east, hours, minutes) => if east then hours * 3_600 + minutes * 60 else -(hours * 3_600 + minutes * 60)
  }

  /** Whole milliseconds of a fraction: its first three digits, zeros where there are none. */
  function Milliseconds(fraction: Option<string>): nat
    requires fraction.Some? ==> AllDigits(fraction.value)
  {
    match fraction
    case None => 0
    case Some(digits) => NumberOf((digits + "000")[..3])
  }

  /** Seconds from the epoch to the local date and time, as if it were UTC. */
  function LocalSeconds(h: Head): int {
    DaysFromCivil(Date(h.year, h.month, h.day)) * 86_400 + h.hour * 3_600 + h.minute * 60 + h.second
  }

  /** The instant a timestamp names, unless it lies before the epoch. */
  function Instant(f: Fields): Option<nat>
    requires Legal(f)
  {
    var utc := LocalSeconds(f.head) - OffsetSeconds(f.zone);
    if utc < 0 then None else Some(utc * 1_000 + Milliseconds(f.fraction))
  }

  // ---------------------------------------------------------------- the reader

  function At(bytes: string, i: nat): Option<char> {
    if i < |bytes| then Some(bytes[i]) else None
  }

  lemma NumberAppend(s: string, c: char)
    requires AllDigits(s) && IsDigit(c)
    ensures NumberOf(s + [c]) == 10 * NumberOf(s) + DigitValue(c)
  {
    assert (s + [c])[..|s|] == s;
  }

  /** The milliseconds read so far from the first digits of a fraction. */
  function Leading(digits: string): nat
    requires AllDigits(digits)
  {
    NumberOf(if |digits| <= 3 then digits else digits[..3])
  }

  lemma LeadingAppend(digits: string, c: char)
    requires AllDigits(digits) && IsDigit(c)
    ensures Leading(digits + [c]) == if |digits| < 3 then Leading(digits) * 10 + DigitValue(c) else Leading(digits)
  {
    if |digits| < 3 {
      NumberAppend(digits, c);
    } else {
      assert (digits + [c])[..3] == digits[..3];
    }
  }

  lemma PadFraction(digits: string)
    requires AllDigits(digits) && digits != []
    ensures Milliseconds(Some(digits)) ==
            Leading(digits) * if |digits| == 1 then 100 else if |digits| == 2 then 10 else 1
  {
    var padded := (digits + "000")[..3];
    if |digits| == 1 {
      assert padded == digits + ['0'] + ['0'];
      NumberAppend(digits, '0');
      NumberAppend(digits + ['0'], '0');
    } else if |digits| == 2 {
      assert padded == digits + ['0'];
      NumberAppend(digits, '0');
    } else {
      assert padded == digits[..3];
    }
  }

  /** The fraction, if one starts at `start`: its milliseconds and where it ends.  `ok` is false
      for a point with no digit after it. */
  method ReadFraction(bytes: string, start: nat)
    returns (ok: bool, index: nat, millisecond: nat, ghost fraction: Option<string>)
    requires start <= |bytes|
    ensures fraction.Some? ==> AllDigits(fraction.value)
    ensures start <= index <= |bytes| && bytes[start..index] == RenderFraction(fraction)
    ensures index < |bytes| && fraction.Some? ==> !IsDigit(bytes[index])
    ensures fraction.None? ==> At(bytes, start) != Some('.')
    ensures ok <==> fraction != Some([])
    ensures ok ==> millisecond == Milliseconds(fraction)
  {
    hide NumberOf, Milliseconds, Leading;
    index, millisecond, ok, fraction := start, 0, true, None;
    NoDigits();
    if At(bytes, index) == Some('.') {
      index := index + 1;
      var fractionStart := index;
      ghost var digits := [];
      while index < |bytes| && IsDigit(bytes[index])
        invariant fractionStart <= index <= |bytes|
        invariant digits == bytes[fractionStart..index] && AllDigits(digits)
        invariant millisecond == Leading(digits)
      {
        LeadingAppend(digits, bytes[index]);
        if index - fractionStart < 3 {
          millisecond := millisecond * 10 + DigitValue(bytes[index]);
        }
        digits := digits + [bytes[index]];
        index := index + 1;
      }
      fraction := Some(digits);
      assert bytes[start..index] == ['.'] + digits;
      var fractionDigits := index - fractionStart;
      ok := fractionDigits != 0;
      if ok {
        PadFraction(digits);
      }
      if fractionDigits == 1 {
        millisecond := millisecond * 100;
      } else if fractionDigits == 2 {
        millisecond := millisecond * 10;
      }
    }
  }

  lemma NoDigits()
    ensures Milliseconds(None) == 0 && Leading([]) == 0
  {
  }

  /** What the reader finds in the nineteen characters of date and time. */
  predicate HeadOf(bytes: string, h: Head) {
    && |bytes| >= 19
    && DigitsAt(bytes, 0, 4) == Some(h.year) && bytes[4] == h.sep1
    && DigitsAt(bytes, 5, 2) == Some(h.month) && bytes[7] == h.sep2
    && DigitsAt(bytes, 8, 2) == Some(h.day) && bytes[10] == h.sep3
    && DigitsAt(bytes, 11, 2) == Some(h.hour) && bytes[13] == ':'
    && DigitsAt(bytes, 14, 2) == Some(h.minute) && bytes[16] == ':'
    && DigitsAt(bytes, 17, 2) == Some(h.second)
  }

  lemma RenderedHead(bytes: string, h: Head)
    requires LegalHead(h) && |bytes| >= 19 && bytes[..19] == RenderHead(h)
    ensures HeadOf(bytes, h)
  {
    hide Four, Two, NumberOf;
    RenderedDate(bytes, h.year, h.sep1, h.month, h.sep2, h.day);
    RenderedTime(bytes[11..19], h.hour, h.minute, h.second);
    assert forall i, j :: 11 <= i <= j <= 19 ==> bytes[11..19][i - 11..j - 11] == bytes[i..j];
    assert bytes[11..13] == bytes[11..19][0..2];
    assert bytes[14..16] == bytes[11..19][3..5];
    assert bytes[17..19] == bytes[11..19][6..8];
  }

  lemma RenderedDate(bytes: string, year: nat, sep1: char, month: nat, sep2: char, day: nat)
    requires year < 10_000 && month < 100 && day < 100
    requires |bytes| >= 10 && bytes[..10] == RenderDate(year, sep1, month, sep2, day)
    ensures DigitsAt(bytes, 0, 4) == Some(year) && bytes[4] == sep1
    ensures DigitsAt(bytes, 5, 2) == Some(month) && bytes[7] == sep2
    ensures DigitsAt(bytes, 8, 2) == Some(day)
  {
    hide Four, Two, NumberOf;
    assert bytes[0..4] == Four(year);
    assert bytes[5..7] == Two(month);
    assert bytes[8..10] == Two(day);
  }

  lemma RenderedTime(text: string, hour: nat, minute: nat, second: nat)
    requires hour < 100 && minute < 100 && second < 100
    requires text == RenderTime(hour, minute, second)
    ensures DigitsAt(text, 0, 2) == Some(hour) && text[2] == ':'
    ensures DigitsAt(text, 3, 2) == Some(minute) && text[5] == ':'
    ensures DigitsAt(text, 6, 2) == Some(second)
  {
    hide Two, NumberOf;
    assert text[0..2] == Two(hour);
    assert text[3..5] == Two(minute);
    assert text[6..8] == Two(second);
  }

  lemma HeadRendered(bytes: string, h: Head)
    requires LegalHead(h) && HeadOf(bytes, h)
    ensures bytes[..19] == RenderHead(h)
  {
    hide Four, Two, NumberOf, DigitsAt;
    DigitsAtFour(bytes, 0);
    DigitsAtTwo(bytes, 5);
    DigitsAtTwo(bytes, 8);
    DigitsAtTwo(bytes, 11);
    DigitsAtTwo(bytes, 14);
    DigitsAtTwo(bytes, 17);
    assert bytes[..10] == RenderDate(h.year, h.sep1, h.month, h.sep2, h.day);
    assert bytes[11..19] == RenderTime(h.hour, h.minute, h.second);
    assert bytes[..19] == bytes[..10] + [bytes[10]] + bytes[11..19];
  }

  method ReadHead(bytes: string) returns (r: Option<Head>)
    ensures r.Some? ==> LegalHead(r.value) && HeadOf(bytes, r.value) && |bytes| >= 20
    ensures r.None? && |bytes| >= 20 ==> forall h :: LegalHead(h) ==> !HeadOf(bytes, h)
  {
    hide DigitsAt, ValidDate;
    if || |bytes| < 20
       || !(bytes[4] == ':' || bytes[4] == '-')
       || !(bytes[7] == ':' || bytes[7] == '-')
       || !(bytes[10] == ' ' || bytes[10] == 'T')
       || bytes[13] != ':'
       || bytes[16] != ':'
    {
      return None;
    }
    var year := Digits(bytes, 0, 4);
    var month := Digits(bytes, 5, 2);
    var day := Digits(bytes, 8, 2);
    var hour := Digits(bytes, 11, 2);
    var minute := Digits(bytes, 14, 2);
    var second := Digits(bytes, 17, 2);
    if year.None? || month.None? || day.None? || hour.None? || minute.None? || second.None? {
      return None;
    }
    if !ValidDate(year.value, month.value, day.value) || hour.value > 23 || minute.value > 59 || second.value > 59 {
      return None;
    }
    return Some(Head(year.value, bytes[4], month.value, bytes[7], day.value, bytes[10],
                     hour.value, minute.value, second.value));
  }

  lemma ZoneUnique(z: Zone, y: Zone)
    requires LegalZone(z) && LegalZone(y) && RenderZone(z) == RenderZone(y)
    ensures z == y
  {
    hide Two;
    if z.Offset? {
      var a, b := RenderZone(z), RenderZone(y);
      assert y.Offset? && a[0] == b[0];
      assert a[1..3] == Two(z.hours) && b[1..3] == Two(y.hours);
      assert a[4..6] == Two(z.minutes) && b[4..6] == Two(y.minutes);
    }
  }

  /** The zone written from `index` to the end. */
  method ReadZone(bytes: string, index: nat) returns (r: Option<Zone>)
    requires index <= |bytes|
    ensures r.Some? ==> LegalZone(r.value) && bytes[index..] == RenderZone(r.value)
    ensures r.None? ==> forall z :: LegalZone(z) ==> bytes[index..] != RenderZone(z)
  {
    hide Two, DigitsAt;
    var sign := At(bytes, index);
    if (sign == Some('Z') || sign == Some('z')) && index + 1 == |bytes| {
      assert bytes[index..] == [sign.value];
      return Some(Zulu(sign.value));
    }
    if (sign == Some('+') || sign == Some('-')) && index + 6 == |bytes| && bytes[index + 3] == ':' {
      var hours := Digits(bytes, index + 1, 2);
      var minutes := Digits(bytes, index + 4, 2);
      forall z | LegalZone(z) && bytes[index..] == RenderZone(z)
        ensures hours.Some? && minutes.Some? && z == Offset(sign == Some('+'), hours.value, minutes.value)
      {
        RenderedOffset(bytes, index, z);
      }
      if hours.None? || minutes.None? {
        return None;
      }
      if hours.value > 14 || minutes.value > 59 || (hours.value == 14 && minutes.value != 0) {
        return None;
      }
      DigitsAtTwo(bytes, index + 1);
      DigitsAtTwo(bytes, index + 4);
      var zone := Offset(sign == Some('+'), hours.value, minutes.value);
      assert bytes[index..] == [bytes[index]] + bytes[index + 1..index + 3] + [':'] + bytes[index + 4..index + 6];
      return Some(zone);
    }
    assert index < |bytes| ==> bytes[index..][0] == bytes[index];
    assert index + 6 == |bytes| ==> bytes[index..][3] == bytes[index + 3];
    forall z | LegalZone(z)
      ensures bytes[index..] != RenderZone(z)
    {
      ZoneShape(z);
    }
    return None;
  }

  lemma ZoneShape(z: Zone)
    requires LegalZone(z)
    ensures var s := RenderZone(z);
            || (|s| == 1 && (s[0] == 'Z' || s[0] == 'z'))
            || (|s| == 6 && (s[0] == '+' || s[0] == '-') && s[3] == ':')
  {
  }

  lemma RenderedOffset(bytes: string, index: nat, z: Zone)
    requires index + 6 == |bytes| && LegalZone(z) && bytes[index..] == RenderZone(z)
    ensures z.Offset? && z.east == (bytes[index] == '+')
    ensures DigitsAt(bytes, index + 1, 2) == Some(z.hours)
    ensures DigitsAt(bytes, index + 4, 2) == Some(z.minutes)
  {
    hide Two, NumberOf;
    assert bytes[index] == bytes[index..][0];
    assert z.Offset?;
    assert bytes[index + 1..index + 3] == bytes[index..][1..3] == Two(z.hours);
    assert bytes[index + 4..index + 6] == bytes[index..][4..6] == Two(z.minutes);
  }

  /** The longest run of digits before something else is all the digits there are. */
  lemma LongestRun(tail: string, digits: string, rest: string, run: string)
    requires tail == digits + rest && AllDigits(digits) && rest != [] && !IsDigit(rest[0])
    requires |run| <= |tail| && run == tail[..|run|] && AllDigits(run)
    requires |run| < |tail| ==> !IsDigit(tail[|run|])
    ensures run == digits && tail[|run|..] == rest
  {
    assert tail[|digits|] == rest[0];
    assert forall k :: 0 <= k < |digits| ==> tail[k] == digits[k];
    assert forall k :: 0 <= k < |run| ==> tail[k] == run[k];
    assert |run| == |digits|;
  }

  /** The fraction read is the fraction of any timestamp the text could be. */
  lemma FractionUnique(tail: string, length: nat, fraction: Option<string>, f: Fields)
    requires Legal(f) && tail == RenderFraction(f.fraction) + RenderZone(f.zone)
    requires fraction.Some? ==> AllDigits(fraction.value)
    requires length <= |tail| && tail[..length] == RenderFraction(fraction)
    requires length < |tail| && fraction.Some? ==> !IsDigit(tail[length])
    requires fraction.None? ==> At(tail, 0) != Some('.')
    ensures fraction == f.fraction && tail[length..] == RenderZone(f.zone)
  {
    hide RenderZone;
    ZoneShape(f.zone);
    var zone := RenderZone(f.zone);
    assert length > 0 ==> tail[..length][0] == tail[0];
    match f.fraction
    case None =>
      assert tail == zone;
    case Some(digits) =>
      assert tail[0] == '.';
      assert tail[1..] == digits + zone;
      assert tail[..length][1..] == tail[1..][..length - 1];
      LongestRun(tail[1..], digits, zone, fraction.value);
  }

  predicate IsTextOf(bytes: string, f: Fields) {
    Legal(f) && bytes == Render(f)
  }

  /** Every timestamp the text could be has the head that was read, and what follows it. */
  lemma HeadOfText(bytes: string, head: Option<Head>, f: Fields)
    requires IsTextOf(bytes, f)
    requires head.Some? ==> LegalHead(head.value) && HeadOf(bytes, head.value)
    requires head.None? && |bytes| >= 20 ==> forall h :: LegalHead(h) ==> !HeadOf(bytes, h)
    ensures |bytes| >= 20 && head == Some(f.head)
    ensures bytes[19..] == RenderFraction(f.fraction) + RenderZone(f.zone)
  {
    hide HeadOf, LegalHead, RenderZone, RenderFraction, RenderHead;
    RenderedLength(f);
    assert bytes[..19] == RenderHead(f.head);
    RenderedHead(bytes, f.head);
    if head.Some? {
      SameHead(bytes, head.value, f.head);
    }
  }

  /** What was read is the only timestamp the text could be. */
  lemma Assembled(bytes: string, head: Head, index: nat, fraction: Option<string>, zone: Zone)
    requires |bytes| >= 20 && LegalHead(head) && HeadOf(bytes, head)
    requires 19 <= index <= |bytes| && bytes[19..index] == RenderFraction(fraction) && LegalFraction(fraction)
    requires LegalZone(zone) && bytes[index..] == RenderZone(zone)
    ensures IsTextOf(bytes, Fields(head, fraction, zone))
  {
    hide HeadOf, LegalHead, RenderZone, RenderFraction, RenderHead;
    HeadRendered(bytes, head);
    assert bytes == bytes[..19] + (bytes[19..index] + bytes[index..]);
  }

  /** Reads a timestamp: the result is the instant of the one timestamp the trimmed text is, and
      there is a result only if it is one. */
  method TimestampFromText(value: string) returns (r: Option<nat>)
    ensures forall f :: IsTextOf(Trim(value), f) ==> r == Instant(f)
    ensures r.Some? ==> exists f :: IsTextOf(Trim(value), f) && Instant(f) == r
  {
    hide Trim, HeadOf, RenderZone, RenderFraction, LegalHead, LegalZone, LocalSeconds, Milliseconds, OffsetSeconds;
    hide Render;
    var bytes := Trim(value);
    r := None;
    var head := ReadHead(bytes);
    forall f | IsTextOf(bytes, f)
      ensures |bytes| >= 20 && head == Some(f.head) && bytes[19..] == RenderFraction(f.fraction) + RenderZone(f.zone)
    {
      HeadOfText(bytes, head, f);
    }
    if head.None? {
      return;
    }
    var ok, index, millisecond, fraction := ReadFraction(bytes, 19);
    forall f | IsTextOf(bytes, f)
      ensures fraction == f.fraction && bytes[index..] == RenderZone(f.zone)
    {
      assert bytes[19..][..index - 19] == bytes[19..index];
      assert bytes[19..][index - 19..] == bytes[index..];
      FractionUnique(bytes[19..], index - 19, fraction, f);
    }
    if !ok {
      return;
    }
    var zone := ReadZone(bytes, index);
    if zone.None? {
      return;
    }
    Assembled(bytes, head.value, index, fraction, zone.value);
    forall f | IsTextOf(bytes, f)
      ensures f == Fields(head.value, fraction, zone.value)
    {
      ZoneUnique(f.zone, zone.value);
    }
    var utcSeconds := LocalSeconds(head.value) - OffsetSeconds(zone.value);
    if utcSeconds >= 0 {
      r := Some(utcSeconds * 1_000 + millisecond);
    }
  }

  lemma RenderedLength(f: Fields)
    requires Legal(f)
    ensures |Render(f)| >= 20
  {
  }

  lemma SameHead(bytes: string, h: Head, g: Head)
    requires HeadOf(bytes, h) && HeadOf(bytes, g)
    ensures h == g
  {
  }

  // ---------------------------------------------------------------- the printer

  /** `{n:0width}`: decimal, padded with zeros to at least `width` digits. */
  function Pad(n: nat, width: nat): string
    decreases n + width
  {
    if n == 0 && width == 0 then []
    else Pad(n / 10, if width == 0 then 0 else width - 1) + [DigitChar(n % 10)]
  }

  function DateOfMs(epochMs: nat): (d: Date)
    ensures d.year >= 1970 && IsDate(d) && DaysFromCivil(d) == epochMs / DAY_MS
    ensures epochMs < END_MS ==> d.year <= 2100
  {
    var n := epochMs / DAY_MS;
    YearWindow(n);
    DaysRoundTrip(n);
    CivilFromDays(n)
  }

  function DateValue(epochMs: nat): string {
    var d := DateOfMs(epochMs);
    Pad(d.year, 4) + ['-'] + Pad(d.month, 2) + ['-'] + Pad(d.day, 2)
  }

  /** Padded to more digits than it has, a number is its last digit after the padded rest. */
  lemma PadStep(n: nat, width: nat)
    requires width > 0
    ensures Pad(n, width) == Pad(n / 10, width - 1) + [DigitChar(n % 10)]
  {
  }

  lemma PadOne(n: nat)
    requires n < 10
    ensures Pad(n, 1) == One(n)
  {
    PadStep(n, 1);
  }

  lemma PadTwo(n: nat)
    requires n < 100
    ensures Pad(n, 2) == Two(n)
  {
    PadStep(n, 2);
    PadOne(n / 10);
  }

  lemma PadThree(n: nat)
    requires n < 1_000
    ensures Pad(n, 3) == Three(n)
  {
    hide Pad;
    PadStep(n, 3);
    PadTwo(n / 10);
  }

  lemma PadFour(n: nat)
    requires n < 10_000
    ensures Pad(n, 4) == Four(n)
  {
    hide Pad;
    PadStep(n, 4);
    PadThree(n / 10);
  }

  /** The fields of the local date and time `localMs` in a zone. */
  function FieldsAt(localMs: nat, zone: Zone): Fields {
    var d := DateOfMs(localMs);
    var timeMs := localMs % DAY_MS;
    Fields(Head(d.year, '-', d.month, '-', d.day, 'T',
                timeMs / 3_600_000, timeMs % 3_600_000 / 60_000, timeMs % 60_000 / 1_000),
           Some(Three(timeMs % 1_000)), zone)
  }

  lemma TimeParts(ms: nat)
    requires ms < DAY_MS
    ensures ms / 3_600_000 <= 23 && ms % 3_600_000 / 60_000 <= 59 && ms % 60_000 / 1_000 <= 59
    ensures ms / 3_600_000 * 3_600 + ms % 3_600_000 / 60_000 * 60 + ms % 60_000 / 1_000 == ms / 1_000
  {
    var hour, rest := ms / 3_600_000, ms % 3_600_000;
    assert ms == 3_600_000 * hour + rest;
    var minute, left := rest / 60_000, rest % 60_000;
    QuotientIs(ms, 60_000, 60 * hour + minute, left);
    QuotientIs(ms, 1_000, 3_600 * hour + 60 * minute + left / 1_000, left % 1_000);
  }

  lemma DayParts(ms: nat)
    ensures ms / DAY_MS * 86_400 + ms % DAY_MS / 1_000 == ms / 1_000
    ensures ms % DAY_MS % 1_000 == ms % 1_000
  {
    var day, rest := ms / DAY_MS, ms % DAY_MS;
    QuotientIs(ms, 1_000, 86_400 * day + rest / 1_000, rest % 1_000);
  }

  lemma OffsetMilliseconds(zone: Zone)
    ensures zone.Zulu? ==> OffsetSeconds(zone) == 0
    ensures zone.Offset? ==> var shift := (zone.hours * 60 + zone.minutes) * 60_000;
                             OffsetSeconds(zone) * 1_000 == if zone.east then shift else -shift
  {
  }

  /** Writing a local date and time in any legal zone, while the local year is accepted, names the instant that is so
      many hours and minutes earlier for a zone to the east, later for one to the west, unless that is before 1970. */
  lemma ZonedInstant(localMs: nat, zone: Zone)
    requires localMs < END_MS && LegalZone(zone)
    ensures Legal(FieldsAt(localMs, zone))
    ensures zone.Zulu? ==> Instant(FieldsAt(localMs, zone)) == Some(localMs)
    ensures zone.Offset? ==>
              var shift := (zone.hours * 60 + zone.minutes) * 60_000;
              Instant(FieldsAt(localMs, zone)) ==
                if !zone.east then Some(localMs + shift) else if localMs >= shift then Some(localMs - shift) else None
  {
    hide OffsetSeconds, Milliseconds, IsDate, DaysFromCivil, NumberOf;
    var f := FieldsAt(localMs, zone);
    TimeParts(localMs % DAY_MS);
    DayParts(localMs);
    ThreeMilliseconds(localMs % 1_000);
    OffsetMilliseconds(zone);
    assert LocalSeconds(f.head) == localMs / 1_000;
  }

  lemma ThreeMilliseconds(n: nat)
    requires n < 1_000
    ensures Milliseconds(Some(Three(n))) == n
  {
    hide Three;
    assert (Three(n) + "000")[..3] == Three(n);
  }

  lemma PrintedParts(epochMs: nat)
    requires epochMs < END_MS
    ensures var h := FieldsAt(epochMs, Zulu('Z')).head;
            LegalHead(h) && Pad(h.hour, 2) == Two(h.hour) && Pad(h.minute, 2) == Two(h.minute)
            && Pad(h.second, 2) == Two(h.second)
    ensures DateValue(epochMs)
              == RenderDate(DateOfMs(epochMs).year, '-', DateOfMs(epochMs).month, '-', DateOfMs(epochMs).day)
    ensures Pad(epochMs % DAY_MS % 1_000, 3) == Three(epochMs % DAY_MS % 1_000)
  {
    hide Pad, Two, Three, Four, LocalSeconds;
    var h := FieldsAt(epochMs, Zulu('Z')).head;
    ZonedInstant(epochMs, Zulu('Z'));
    PadFour(h.year);
    PadTwo(h.month);
    PadTwo(h.day);
    PadTwo(h.hour);
    PadTwo(h.minute);
    PadTwo(h.second);
    PadThree(epochMs % DAY_MS % 1_000);
  }

  lemma PutTogether(h: Head, millis: string, zone: string)
    requires LegalHead(h)
    ensures RenderDate(h.year, h.sep1, h.month, h.sep2, h.day) + [h.sep3] + Two(h.hour) + [':'] + Two(h.minute) + [':']
              + Two(h.second)
            + ['.'] + millis + zone == RenderHead(h) + (['.'] + millis + zone)
  {
    hide Two, RenderDate;
  }

  /** What is printed for an instant before 2101 is the timestamp of that instant. */
  function TimestampValue(epochMs: nat): (s: string)
    ensures epochMs < END_MS ==>
              Legal(FieldsAt(epochMs, Zulu('Z'))) && s == Render(FieldsAt(epochMs, Zulu('Z')))
  {
    hide Pad, Two, Three, Four, LocalSeconds, DateValue, DateOfMs, RenderHead, RenderDate, LegalHead;
    var timeMs := epochMs % DAY_MS;
    var s := DateValue(epochMs) + ['T'] + Pad(timeMs / 3_600_000, 2) + [':'] + Pad(timeMs % 3_600_000 / 60_000, 2)
          + [':']
             + Pad(timeMs % 60_000 / 1_000, 2) + ['.'] + Pad(timeMs % 1_000, 3) + ['Z'];
    assert epochMs < END_MS ==> Legal(FieldsAt(epochMs, Zulu('Z'))) && s == Render(FieldsAt(epochMs, Zulu('Z'))) by {
      if epochMs < END_MS {
        PrintedParts(epochMs);
        ZonedInstant(epochMs, Zulu('Z'));
        PutTogether(FieldsAt(epochMs, Zulu('Z')).head, Three(timeMs % 1_000), ['Z']);
      }
    }
    s
  }

  /** Trimming leaves a timestamp as it is, and takes any white space around it away. */
  lemma TrimmedTimestamp(f: Fields, before: string, after: string)
    requires Legal(f)
    requires (forall c | c in before :: IsSpace(c)) && (forall c | c in after :: IsSpace(c))
    ensures IsTextOf(Trim(before + Render(f) + after), f)
  {
    var text := Render(f);
    RenderedLength(f);
    ZoneShape(f.zone);
    ZoneEnd(f.zone);
    assert text[0] == Four(f.head.year)[0];
    assert text[|text| - 1] == RenderZone(f.zone)[|RenderZone(f.zone)| - 1];
    assert before + text + after == before + (text + after);
    TrimStartSpaces(before, text + after);
    TrimEndSpaces(text, after);
  }

  lemma ZoneEnd(z: Zone)
    requires LegalZone(z)
    ensures !IsSpace(RenderZone(z)[|RenderZone(z)| - 1])
  {
    if z.Offset? {
      assert RenderZone(z)[5] == Two(z.minutes)[1];
    }
  }

  lemma {:induction false} TrimStartSpaces(spaces: string, text: string)
    requires (forall c | c in spaces :: IsSpace(c)) && text != [] && !IsSpace(text[0])
    ensures TrimStart(spaces + text) == text
  {
    if spaces == [] {
      assert spaces + text == text;
    } else {
      assert (spaces + text)[1..] == spaces[1..] + text;
      TrimStartSpaces(spaces[1..], text);
    }
  }

  lemma {:induction false} TrimEndSpaces(text: string, spaces: string)
    requires (forall c | c in spaces :: IsSpace(c)) && text != [] && !IsSpace(text[|text| - 1])
    ensures TrimEnd(text + spaces) == text
  {
    if spaces == [] {
      assert text + spaces == text;
    } else {
      var n := |spaces| - 1;
      assert (text + spaces)[..|text| + n] == text + spaces[..n];
      TrimEndSpaces(text, spaces[..n]);
    }
  }

  /** Reading back what was printed gives the instant that was printed. */
  method PrintThenRead(epochMs: nat) returns (r: Option<nat>)
    requires epochMs < 4_133_980_800_000
    ensures r == Some(epochMs)
  {
    hide *;
    ZuluIsLegal();
    ZonedInstant(epochMs, Zulu('Z'));
    TrimmedTimestamp(FieldsAt(epochMs, Zulu('Z')), [], []);
    var text := TimestampValue(epochMs);
    assert [] + text + [] == text;
    r := TimestampFromText(text);
  }

  lemma ZuluIsLegal()
    ensures LegalZone(Zulu('Z')) && END_MS == 4_133_980_800_000
  {
  }

  /** So does reading the same instant written as the local time of any place up to 14 hours east or west, white
      space around it. */
  method PrintZonedThenRead(epochMs: nat, localMs: nat, east: bool, h: nat, m: nat, before: string, after: string)
    returns (r: Option<nat>)
    requires m <= 59 && h * 60 + m <= 14 * 60
    requires localMs == (if east then epochMs + (h * 60 + m) * 60_000 else epochMs - (h * 60 + m) * 60_000)
    requires localMs < 4_133_980_800_000
    requires (forall c | c in before :: IsSpace(c)) && (forall c | c in after :: IsSpace(c))
    ensures r == Some(epochMs)
  {
    hide *;
    ZuluIsLegal();
    OffsetIsLegal(east, h, m);
    ZonedInstant(localMs, Offset(east, h, m));
    TrimmedTimestamp(FieldsAt(localMs, Offset(east, h, m)), before, after);
    r := TimestampFromText(before + Render(FieldsAt(localMs, Offset(east, h, m))) + after);
  }

  lemma OffsetIsLegal(east: bool, h: nat, m: nat)
    ensures LegalZone(Offset(east, h, m)) <==> m <= 59 && h * 60 + m <= 14 * 60
  {
  }

  // ---------------------------------------------------------------- dates in file names

  function DateEpochMs(year: nat, month: nat, day: nat): Option<nat> {
    if ValidDate(year, month, day) && DaysFromCivil(Date(year, month, day)) >= 0
    then Some(DaysFromCivil(Date(year, month, day)) * DAY_MS)
    else None
  }

  /** No digit touches the token from either side. */
  predicate TokenBoundary(bytes: string, start: nat, end: nat) {
    && (start == 0 || start - 1 >= |bytes| || !IsDigit(bytes[start - 1]))
    && (end >= |bytes| || !IsDigit(bytes[end]))
  }

  predicate IsDateSeparator(c: char) {
    c == '-' || c == '_' || c == '.'
  }

  /** YYYY-MM-DD, YYYY_MM_DD or YYYY.MM.DD. */
  function SeparatedDateAt(bytes: string, start: nat): Option<nat> {
    match (DigitsAt(bytes, start, 4), DigitsAt(bytes, start + 5, 2), DigitsAt(bytes, start + 8, 2))
    case (Some(year), Some(month), Some(day)) =>
      if && IsDateSeparator(bytes[start + 4]) && bytes[start + 4] == bytes[start + 7]
         && TokenBoundary(bytes, start, start + 10)
      then DateEpochMs(year, month, day)
      else None
    case _ => None
  }

  /** YYYYMMDD (`width` 4) or YYMMDD of this century (`width` 2). */
  function PackedDateAt(bytes: string, start: nat, width: nat): Option<nat> {
    if TokenBoundary(bytes, start, start + width + 4) then
      match (DigitsAt(bytes, start, width), DigitsAt(bytes, start + width, 2), DigitsAt(bytes, start + width + 2, 2))
      case (Some(year), Some(month), Some(day)) => DateEpochMs(if width == 2 then 2000 + year else year, month, day)
      case _ => None
    else None
  }

  /** The date token at `start`, the shapes tried in order. */
  function DateTokenAt(bytes: string, start: nat): Option<nat> {
    if SeparatedDateAt(bytes, start).Some? then SeparatedDateAt(bytes, start)
    else if PackedDateAt(bytes, start, 4).Some? then PackedDateAt(bytes, start, 4)
    else PackedDateAt(bytes, start, 2)
  }

  // ---------------------------------------------------------------- what a date token is

  datatype DateShape = Separated(sep: char) | Packed | PackedShort

  /** The date is one the application accepts, and can be written so. */
  predicate Fits(shape: DateShape, d: Date) {
    && 1970 <= d.year <= 2100 && IsDate(d)
    && (shape.Separated? ==> shape.sep in "-_.")
    && (shape.PackedShort? ==> 2000 <= d.year <= 2099)
  }

  /** The written form: YYYY-MM-DD with one of three separators, YYYYMMDD, or YYMMDD of this century. */
  function Spell(shape: DateShape, d: Date): (s: string)
    requires Fits(shape, d)
    ensures |s| == if shape.Separated? then 10 else if shape.Packed? then 8 else 6
  {
    match shape
    case Separated(sep) => Four(d.year) + [sep] + Two(d.month) + [sep] + Two(d.day)
    case Packed => Four(d.year) + Two(d.month) + Two(d.day)
    case PackedShort => Two(d.year - 2000) + Two(d.month) + Two(d.day)
  }

  /** The date stands at `start`, and no digit touches it. */
  predicate StandsAt(bytes: string, start: nat, shape: DateShape, d: Date) {
    && Fits(shape, d)
    && var end := start + |Spell(shape, d)|;
       && end <= |bytes| && bytes[start..end] == Spell(shape, d)
       && (start > 0 ==> !IsDigit(bytes[start - 1])) && (end < |bytes| ==> !IsDigit(bytes[end]))
  }

  lemma TwoStands(bytes: string, start: nat, text: string, i: nat, n: nat)
    requires start + |text| <= |bytes| && bytes[start..start + |text|] == text
    requires n < 100 && i + 2 <= |text| && text[i..i + 2] == Two(n)
    ensures DigitsAt(bytes, start + i, 2) == Some(n)
  {
    hide NumberOf;
    forall k | i <= k < i + 2
      ensures bytes[start + k] == text[k]
    {
      assert bytes[start..start + |text|][k] == text[k];
    }
    assert bytes[start + i..start + (i + 2)] == text[i..i + 2];
  }

  lemma FourStands(bytes: string, start: nat, text: string, n: nat)
    requires start + |text| <= |bytes| && bytes[start..start + |text|] == text
    requires n < 10_000 && 4 <= |text| && text[..4] == Four(n)
    ensures DigitsAt(bytes, start, 4) == Some(n)
  {
    hide Four, NumberOf;
    assert bytes[start..start + 4] == text[..4];
  }

  lemma SeparatedStands(bytes: string, start: nat, sep: char, d: Date)
    requires StandsAt(bytes, start, Separated(sep), d)
    ensures DigitsAt(bytes, start, 4) == Some(d.year) && DigitsAt(bytes, start + 5, 2) == Some(d.month)
    ensures DigitsAt(bytes, start + 8, 2) == Some(d.day) && bytes[start + 4] == sep == bytes[start + 7]
  {
    hide NumberOf, Two, Four, DigitsAt;
    var text := Spell(Separated(sep), d);
    assert text[..4] == Four(d.year) && text[5..7] == Two(d.month) && text[8..10] == Two(d.day);
    assert bytes[start + 4] == bytes[start..start + 10][4] == text[4] == sep;
    assert bytes[start + 7] == bytes[start..start + 10][7] == text[7] == sep;
    FourStands(bytes, start, text, d.year);
    TwoStands(bytes, start, text, 5, d.month);
    TwoStands(bytes, start, text, 8, d.day);
  }

  lemma PackedStands(bytes: string, start: nat, d: Date)
    requires StandsAt(bytes, start, Packed, d)
    ensures DigitsAt(bytes, start, 4) == Some(d.year) && DigitsAt(bytes, start + 4, 2) == Some(d.month)
    ensures DigitsAt(bytes, start + 6, 2) == Some(d.day)
  {
    hide NumberOf, Two, Four, DigitsAt;
    var text := Spell(Packed, d);
    assert text[..4] == Four(d.year) && text[4..6] == Two(d.month) && text[6..8] == Two(d.day);
    FourStands(bytes, start, text, d.year);
    TwoStands(bytes, start, text, 4, d.month);
    TwoStands(bytes, start, text, 6, d.day);
  }

  lemma PackedShortStands(bytes: string, start: nat, d: Date)
    requires StandsAt(bytes, start, PackedShort, d)
    ensures DigitsAt(bytes, start, 2) == Some(d.year - 2000) && DigitsAt(bytes, start + 2, 2) == Some(d.month)
    ensures DigitsAt(bytes, start + 4, 2) == Some(d.day)
  {
    hide NumberOf, Two, Four, DigitsAt;
    var text := Spell(PackedShort, d);
    assert text[..2] == Two(d.year - 2000) && text[2..4] == Two(d.month) && text[4..6] == Two(d.day);
    TwoStands(bytes, start, text, 0, d.year - 2000);
    TwoStands(bytes, start, text, 2, d.month);
    TwoStands(bytes, start, text, 4, d.day);
  }

  /** A date that stands somewhere is the token there, and its midnight in UTC what the token says. */
  lemma StandingDateIsToken(bytes: string, start: nat, shape: DateShape, d: Date)
    requires StandsAt(bytes, start, shape, d)
    ensures DateTokenAt(bytes, start) == Some(DaysFromCivil(d) * 86_400_000)
  {
    hide Spell, DaysFromCivil, NumberOf;
    DaysAreCounted(d);
    match shape
    case Separated(sep) =>
      SeparatedStands(bytes, start, sep, d);
      assert SeparatedDateAt(bytes, start) == Some(DaysFromCivil(d) * 86_400_000);
    case Packed =>
      PackedStands(bytes, start, d);
      assert bytes[start + 4..start + 6][0] == bytes[start + 4];
      assert SeparatedDateAt(bytes, start).None?;
      assert PackedDateAt(bytes, start, 4) == Some(DaysFromCivil(d) * 86_400_000);
    case PackedShort =>
      PackedShortStands(bytes, start, d);
      assert bytes[start + 4..start + 6][0] == bytes[start + 4];
      assert SeparatedDateAt(bytes, start).None?;
      assert start + 8 <= |bytes| ==> bytes[start + 6..start + 8][0] == bytes[start + 6];
      assert PackedDateAt(bytes, start, 4).None?;
      assert PackedDateAt(bytes, start, 2) == Some(DaysFromCivil(d) * 86_400_000);
  }

  lemma TwoRead(bytes: string, start: nat)
    requires DigitsAt(bytes, start, 2).Some?
    ensures start + 2 <= |bytes| && DigitsAt(bytes, start, 2).value < 100
    ensures bytes[start..start + 2] == Two(DigitsAt(bytes, start, 2).value)
  {
    hide NumberOf, Two;
    DigitsAtTwo(bytes, start);
  }

  lemma SeparatedIsDate(bytes: string, start: nat) returns (sep: char, d: Date)
    requires SeparatedDateAt(bytes, start).Some?
    ensures StandsAt(bytes, start, Separated(sep), d)
    ensures SeparatedDateAt(bytes, start) == Some(DaysFromCivil(d) * 86_400_000)
  {
    hide NumberOf, Two, Four, DaysFromCivil;
    DigitsAtFour(bytes, start);
    TwoRead(bytes, start + 5);
    TwoRead(bytes, start + 8);
    sep := bytes[start + 4];
    d := Date(DigitsAt(bytes, start, 4).value, DigitsAt(bytes, start + 5, 2).value,
              DigitsAt(bytes, start + 8, 2).value);
    assert bytes[start..start + 10] == bytes[start..start + 4] + [bytes[start + 4]] + bytes[start + 5..start + 7]
                                       + [bytes[start + 7]] + bytes[start + 8..start + 10];
  }

  lemma PackedIsDate(bytes: string, start: nat) returns (d: Date)
    requires PackedDateAt(bytes, start, 4).Some?
    ensures StandsAt(bytes, start, Packed, d) && PackedDateAt(bytes, start, 4) == Some(DaysFromCivil(d) * 86_400_000)
  {
    hide NumberOf, Two, Four, DaysFromCivil;
    DigitsAtFour(bytes, start);
    TwoRead(bytes, start + 4);
    TwoRead(bytes, start + 6);
    d := Date(DigitsAt(bytes, start, 4).value, DigitsAt(bytes, start + 4, 2).value,
              DigitsAt(bytes, start + 6, 2).value);
    assert bytes[start..start + 8]
             == bytes[start..start + 4] + bytes[start + 4..start + 6] + bytes[start + 6..start + 8];
  }

  lemma PackedShortIsDate(bytes: string, start: nat) returns (d: Date)
    requires PackedDateAt(bytes, start, 2).Some?
    ensures StandsAt(bytes, start, PackedShort, d)
    ensures PackedDateAt(bytes, start, 2) == Some(DaysFromCivil(d) * 86_400_000)
  {
    hide NumberOf, Two, Four, DaysFromCivil;
    TwoRead(bytes, start);
    TwoRead(bytes, start + 2);
    TwoRead(bytes, start + 4);
    d := Date(2000 + DigitsAt(bytes, start, 2).value, DigitsAt(bytes, start + 2, 2).value,
              DigitsAt(bytes, start + 4, 2).value);
    assert bytes[start..start + 6]
             == bytes[start..start + 2] + bytes[start + 2..start + 4] + bytes[start + 4..start + 6];
  }

  /** And every token is such a date. */
  lemma TokenIsStandingDate(bytes: string, start: nat) returns (shape: DateShape, d: Date)
    requires DateTokenAt(bytes, start).Some?
    ensures StandsAt(bytes, start, shape, d) && DateTokenAt(bytes, start) == Some(DaysFromCivil(d) * 86_400_000)
  {
    hide StandsAt, SeparatedDateAt, PackedDateAt, DaysFromCivil;
    if SeparatedDateAt(bytes, start).Some? {
      var sep;
      sep, d := SeparatedIsDate(bytes, start);
      shape := Separated(sep);
    } else if PackedDateAt(bytes, start, 4).Some? {
      d := PackedIsDate(bytes, start);
      shape := Packed;
    } else {
      d := PackedShortIsDate(bytes, start);
      shape := PackedShort;
    }
  }

  lemma DaysAreCounted(d: Date)
    requires 1970 <= d.year <= 2100 && IsDate(d)
    ensures 0 <= DaysFromCivil(d) < 47_847
  {
    hide *;
    DateRoundTrip(d);
    YearWindow(DaysFromCivil(d));
  }

  predicate IsFirstToken(bytes: string, start: nat) {
    && start < |bytes| && DateTokenAt(bytes, start).Some?
    && forall e :: 0 <= e < start ==> DateTokenAt(bytes, e).None?
  }

  ghost predicate DateStands(bytes: string, start: nat) {
    exists shape, d :: StandsAt(bytes, start, shape, d)
  }

  lemma DateStandsIfToken(bytes: string, start: nat)
    ensures DateStands(bytes, start) <==> start < |bytes| && DateTokenAt(bytes, start).Some?
  {
    hide StandsAt, DateTokenAt;
    if DateStands(bytes, start) {
      var shape, d :| StandsAt(bytes, start, shape, d);
      StandingDateIsToken(bytes, start, shape, d);
      StandsWithin(bytes, start, shape, d);
    }
    if DateTokenAt(bytes, start).Some? {
      var shape, d := TokenIsStandingDate(bytes, start);
    }
  }

  lemma StandsWithin(bytes: string, start: nat, shape: DateShape, d: Date)
    requires StandsAt(bytes, start, shape, d)
    ensures start < |bytes|
  {
    hide Spell;
  }

  /** The first date token of a file name: the first date that stands in it, and nothing if none does. */
  method FilenameDateMs(bytes: string) returns (r: Option<nat>)
    ensures forall s :: IsFirstToken(bytes, s) ==> r == DateTokenAt(bytes, s)
    ensures r.Some? ==> exists s :: IsFirstToken(bytes, s)
    ensures r.None? <==> forall s: nat :: !DateStands(bytes, s)
    ensures forall s: nat, shape, d ::
              StandsAt(bytes, s, shape, d) && (forall e: nat :: e < s ==> !DateStands(bytes, e)) ==>
                r == Some(DaysFromCivil(d) * 86_400_000)
  {
    hide DateTokenAt, StandsAt, DaysFromCivil;
    forall s: nat
      ensures DateStands(bytes, s) <==> s < |bytes| && DateTokenAt(bytes, s).Some?
    {
      DateStandsIfToken(bytes, s);
    }
    forall s: nat, shape, d | StandsAt(bytes, s, shape, d)
      ensures DateStands(bytes, s) && DateTokenAt(bytes, s) == Some(DaysFromCivil(d) * 86_400_000)
    {
      StandingDateIsToken(bytes, s, shape, d);
    }
    for start := 0 to |bytes|
      invariant forall e :: 0 <= e < start ==> DateTokenAt(bytes, e).None?
    {
      r := DateTokenAt(bytes, start);
      if r.Some? {
        assert IsFirstToken(bytes, start);
        return;
      }
    }
    return None;
  }

  lemma DateTokenOfValue(prefix: string, epochMs: nat, suffix: string)
    requires epochMs < END_MS
    requires forall i :: 0 <= i < |prefix| ==> !IsDigit(prefix[i])
    requires suffix == [] || !IsDigit(suffix[0])
    ensures DateTokenAt(prefix + DateValue(epochMs) + suffix, |prefix|) == Some(epochMs / DAY_MS * DAY_MS)
  {
    hide Pad, Two, Four, DaysFromCivil, NumberOf;
    var d, n := DateOfMs(epochMs), |prefix|;
    PadFour(d.year);
    PadTwo(d.month);
    PadTwo(d.day);
    var name := prefix + DateValue(epochMs) + suffix;
    var date := name[n..n + 10];
    assert date == RenderDate(d.year, '-', d.month, '-', d.day);
    RenderedDate(date, d.year, '-', d.month, '-', d.day);
    assert date[..4] == name[n..n + 4] && date[5..7] == name[n + 5..n + 7] && date[8..10] == name[n + 8..n + 10];
    assert date[4] == name[n + 4] && date[7] == name[n + 7];
    assert SeparatedDateAt(name, n) == Some(epochMs / DAY_MS * DAY_MS);
  }

  lemma NoTokenWithoutDigit(bytes: string, start: nat)
    requires start < |bytes| && !IsDigit(bytes[start])
    ensures DateTokenAt(bytes, start).None?
  {
    assert start + 4 <= |bytes| ==> bytes[start..start + 4][0] == bytes[start];
    assert start + 2 <= |bytes| ==> bytes[start..start + 2][0] == bytes[start];
    assert DigitsAt(bytes, start, 4).None? && DigitsAt(bytes, start, 2).None?;
  }

  /** The date of an instant, written into a file name with no digit before it and none right
      after it, is found again: the instant rounded down to its day. */
  method NameThenRead(prefix: string, epochMs: nat, suffix: string) returns (r: Option<nat>)
    requires epochMs < END_MS
    requires forall i :: 0 <= i < |prefix| ==> !IsDigit(prefix[i])
    requires suffix == [] || !IsDigit(suffix[0])
    ensures r == Some(epochMs / DAY_MS * DAY_MS)
  {
    hide DateTokenAt, IsDigit;
    var name := prefix + DateValue(epochMs) + suffix;
    r := FilenameDateMs(name);
    DateTokenOfValue(prefix, epochMs, suffix);
    forall e | 0 <= e < |prefix|
      ensures DateTokenAt(name, e).None?
    {
      NoTokenWithoutDigit(name, e);
    }
    assert |DateValue(epochMs)| > 0;
    assert IsFirstToken(name, |prefix|);
  }
}
