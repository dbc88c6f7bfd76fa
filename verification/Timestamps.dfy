/** Timestamps: parsing the text, packing the fields into 64 bits, unpacking and printing them. */
module Timestamps {
  import opened Types

  const TIMESTAMP_MAX := 11231999986399999999

  const TWO_TO_THE_32 := 0x1_0000_0000
  const TWO_TO_THE_64 := 0x1_0000_0000_0000_0000

  /** The date and time in the text, and the zone's hours. */
  datatype Fields = Fields(year: nat, month: nat, day: nat, hour: nat, minute: nat, second: nat, micro: nat, zone: int)

  // ----- Digits -----

  predicate IsDigit(c: char) {
    '0' <= c <= '9'
  }

  function DigitOf(c: char): nat
    requires IsDigit(c)
  {
    c as int - '0' as int
  }

  function DigitChar(n: nat): (c: char)
    requires n < 10
    ensures IsDigit(c) && DigitOf(c) == n
  {
    '0' + n as char
  }

  predicate AllDigits(s: string) {
    forall i :: 0 <= i < |s| ==> IsDigit(s[i])
  }

  function Number(s: string): nat
    requires AllDigits(s)
  {
    if s == "" then 0 else 10 * Number(s[..|s| - 1]) + DigitOf(s[|s| - 1])
  }

  /** The decimal number, filled up with zeros to the width. */
  function Padded(n: nat, width: nat): (s: string)
    ensures |s| >= width && AllDigits(s)
  {
    if n < 10 && width <= 1 then [DigitChar(n)]
    else Padded(n / 10, if width > 0 then width - 1 else 0) + [DigitChar(n % 10)]
  }

  /** Printing a number of digits that was read gives the digits back. */
  lemma {:induction false} PaddedNumber(s: string)
    requires AllDigits(s) && s != ""
    ensures Padded(Number(s), |s|) == s
  {
    var front, last := s[..|s| - 1], s[|s| - 1];
    assert s == front + [last];
    LastDigit(Number(front), DigitOf(last));
    assert DigitChar(DigitOf(last)) == last;
    if |s| == 1 {
      assert Number(front) == 0;
    } else {
      PaddedNumber(front);
      assert Padded(Number(s), |s|) == Padded(Number(s) / 10, |s| - 1) + [DigitChar(Number(s) % 10)];
    }
  }

  lemma LastDigit(n: nat, d: nat)
    requires d < 10
    ensures (10 * n + d) / 10 == n && (10 * n + d) % 10 == d
  {
  }

  lemma {:induction false} NumberPadded(n: nat, width: nat)
    ensures Number(Padded(n, width)) == n
  {
    var s := Padded(n, width);
    if n >= 10 || width > 1 {
      NumberPadded(n / 10, if width > 0 then width - 1 else 0);
      assert s[..|s| - 1] == Padded(n / 10, if width > 0 then width - 1 else 0);
    } else {
      assert s[..0] == "";
    }
  }

  lemma {:induction false} PaddedLength(n: nat, width: nat)
    requires width > 0 && n < PowerOfTen(width)
    ensures |Padded(n, width)| == width
  {
    if width > 1 {
      assert n / 10 < PowerOfTen(width - 1);
      PaddedLength(n / 10, width - 1);
    }
  }

  function PowerOfTen(n: nat): nat {
    if n == 0 then 1 else 10 * PowerOfTen(n - 1)
  }

  // ----- Parsing -----

  /** Without fractions of a second the text gets six zeros. */
  function Expand(s: string): string {
    if |s| == 22 then s[..19] + ".000000" + s[19..22] else s
  }

  predicate Separators(s: string)
    requires |s| == 29
  {
    s[4] == '-' && s[7] == '-' && s[10] == ' ' && s[13] == ':' && s[16] == ':' && s[19] == '.'
      && (s[26] == '+' || s[26] == '-')
  }

  predicate IsDigitPosition(i: nat) {
    i !in {4, 7, 10, 13, 16, 19, 26}
  }

  predicate WellFormed(s: string) {
    |s| == 29 && Separators(s) && forall i :: 0 <= i < 29 && IsDigitPosition(i) ==> IsDigit(s[i])
  }

  /** sscanf with "%4u-%2u-%2u %2u:%2u:%2u.%6u%3d". */
  function Scan(s: string): Fields
    requires WellFormed(s)
  {
    var zone: int := Number(s[27..29]);
    Fields(Number(s[0..4]), Number(s[5..7]), Number(s[8..10]), Number(s[11..13]), Number(s[14..16]), Number(s[17..19]),
           Number(s[20..26]), if s[26] == '-' then -zone else zone)
  }

  predicate IsLeap(year: nat) {
    (year % 4 == 0 && year % 100 != 0) || year % 400 == 0
  }

  function MaxDay(month: nat, leap: bool): nat {
    if month == 0 || month > 12 then 0
    else if month == 2 then (if leap then 29 else 28)
    else if month in {4, 6, 9, 11} then 30 else 31
  }

  predicate DateOk(f: Fields) {
    && f.year <= 9999 && 1 <= f.month <= 12 && 1 <= f.day <= MaxDay(f.month, IsLeap(f.year))
    && f.hour <= 23 && f.minute <= 59 && f.second <= 59 && f.micro <= 999999
  }

  /** The zone test of the parser: only offsets above 26 are refused. */
  predicate ZoneAccepted(zone: int) {
    zone <= 26
  }

  function Wrap(n: int): nat {
    n % TWO_TO_THE_64
  }

  function SecondsOf(f: Fields): nat {
    f.hour * 3600 + f.minute * 60 + f.second
  }

  /** The upper four digits. */
  function DateNumber(f: Fields): int {
    ((f.month * 32 + f.day) * 27 + (f.zone + 12)) * 10000 + f.year
  }

  function PackDate(month: nat, day: nat, zone: nat, year: nat): nat {
    Wrap(Wrap(Wrap(month * 32 + day) * 27 + zone) * 10000 + year)
  }

  function PackTime(date: nat, seconds: nat, micro: nat): nat {
    Wrap(Wrap(date * 100000 + seconds) * 1000000 + micro)
  }

  /** Month, day, zone + 12, year, second of the day and microsecond as digits; the zone is a 32-bit unsigned number. */
  function Pack(f: Fields): nat {
    PackTime(PackDate(f.month, f.day, (f.zone + 12) % TWO_TO_THE_32, f.year), SecondsOf(f), f.micro)
  }

  /** CastAsTimestamp on text; None where it throws. */
  function Parse(text: string): Option<nat> {
    var s := Expand(text);
    if WellFormed(s) && DateOk(Scan(s)) && ZoneAccepted(Scan(s).zone) then Some(Pack(Scan(s))) else None
  }

  // ----- Printing -----

  /** The digits of the packed number. */
  function Unpack(tm: nat): Fields {
    var second := tm / 1000000 % 100000;
    var date := tm / 1000000 / 100000;
    Fields(date % 10000, date / 10000 / 27 / 32, date / 10000 / 27 % 32,
           second / 60 / 60 % 24, second / 60 % 60, second % 60, tm % 1000000, date / 10000 % 27 - 12)
  }

  function DateText(f: Fields): string {
    Padded(f.year, 4) + "-" + Padded(f.month, 2) + "-" + Padded(f.day, 2)
  }

  function ClockText(f: Fields): string {
    Padded(f.hour, 2) + ":" + Padded(f.minute, 2) + ":" + Padded(f.second, 2)
  }

  function TimeText(f: Fields): string {
    ClockText(f) + "." + Padded(f.micro, 6)
  }

  function Body(f: Fields): string {
    DateText(f) + " " + TimeText(f)
  }

  function Print(f: Fields): string {
    Body(f) + (if f.zone >= 0 then "+" else "-") + Padded(if f.zone < 0 then -f.zone else f.zone, 2)
  }

  // ----- Packing and unpacking -----

  /** Zone offsets for which there is a digit. */
  predicate ZoneFits(zone: int) {
    -12 <= zone <= 14
  }

  lemma NotWrapped(n: nat)
    requires n < TWO_TO_THE_64
    ensures Wrap(n) == n
  {
  }

  lemma ZoneNotWrapped(zone: int)
    requires -12 <= zone <= 26
    ensures (zone + 12) % TWO_TO_THE_32 == zone + 12
  {
  }

  lemma DateBound(month: nat, day: nat, zone: nat, year: nat)
    requires month <= 12 && day <= 31 && zone <= 38 && year <= 9999
    ensures 0 <= ((month * 32 + day) * 27 + zone) * 10000 + year <= 112439999
  {
  }

  predicate InRange(f: Fields) {
    && f.year <= 9999 && f.month <= 12 && f.day <= 31
    && f.hour <= 23 && f.minute <= 59 && f.second <= 59 && f.micro <= 999999
  }

  lemma DateInRange(f: Fields)
    requires DateOk(f)
    ensures InRange(f)
  {
  }

  /** For the zones that are accepted and not below -12 nothing wraps. */
  lemma PackedDate(f: Fields)
    requires DateOk(f) && -12 <= f.zone <= 26
    ensures Pack(f) == (DateNumber(f) * 100000 + SecondsOf(f)) * 1000000 + f.micro
  {
    DateInRange(f);
    var zone := (f.zone + 12) % TWO_TO_THE_32;
    ZoneNotWrapped(f.zone);
    var date := PackDate(f.month, f.day, zone, f.year);
    DateNotWrapped(f.month, f.day, zone, f.year);
    DateBound(f.month, f.day, zone, f.year);
    assert date == DateNumber(f);
    TimeNotWrapped(date, SecondsOf(f), f.micro);
  }

  lemma DateNotWrapped(month: nat, day: nat, zone: nat, year: nat)
    requires month <= 12 && day <= 31 && zone <= 38 && year <= 9999
    ensures PackDate(month, day, zone, year)
            == ((month * 32 + day) * 27 + zone) * 10000 + year
  {
    var a := month * 32 + day;
    assert a <= 415;
    NotWrapped(a);
    var b := a * 27 + zone;
    assert b <= 11243;
    NotWrapped(b);
    NotWrapped(b * 10000 + year);
  }

  lemma TimeNotWrapped(date: nat, seconds: nat, micro: nat)
    requires date <= 112439999 && seconds <= 86399 && micro <= 999999
    ensures PackTime(date, seconds, micro) == (date * 100000 + seconds) * 1000000 + micro
  {
    var a := date * 100000 + seconds;
    NotWrapped(a);
    NotWrapped(a * 1000000 + micro);
  }

  /** Packing stays within the documented maximum, so it fits into 64 bits and is never the NULL pattern. */
  lemma PackFits(f: Fields)
    requires DateOk(f) && ZoneFits(f.zone)
    ensures Pack(f) <= TIMESTAMP_MAX < TWO_TO_THE_64 - 1
  {
    PackedDate(f);
    assert SecondsOf(f) <= 86399;
  }

  /** The maximum is the last microsecond of 9999 in the last zone. */
  lemma MaximumIsReached()
    ensures Pack(Fields(9999, 12, 31, 23, 59, 59, 999999, 14)) == TIMESTAMP_MAX
  {
    PackedDate(Fields(9999, 12, 31, 23, 59, 59, 999999, 14));
  }

  lemma SecondsDigits(f: Fields)
    requires f.hour <= 23 && f.minute <= 59 && f.second <= 59
    ensures var s := SecondsOf(f);
            s % 60 == f.second && s / 60 % 60 == f.minute && s / 60 / 60 % 24 == f.hour && s <= 86399
  {
    assert SecondsOf(f) / 60 == f.hour * 60 + f.minute;
  }

  lemma LowerDigits(date: nat, seconds: nat, micro: nat, tm: nat)
    requires seconds < 100000 && micro < 1000000 && tm == (date * 100000 + seconds) * 1000000 + micro
    ensures tm % 1000000 == micro && tm / 1000000 % 100000 == seconds && tm / 1000000 / 100000 == date
  {
    assert tm / 1000000 == date * 100000 + seconds;
  }

  lemma UpperDigits(month: nat, day: nat, zone: nat, year: nat, date: nat)
    requires day < 32 && zone < 27 && year < 10000 && date == ((month * 32 + day) * 27 + zone) * 10000 + year
    ensures date % 10000 == year && date / 10000 % 27 == zone
    ensures date / 10000 / 27 % 32 == day && date / 10000 / 27 / 32 == month
  {
    assert date / 10000 == (month * 32 + day) * 27 + zone;
    assert date / 10000 / 27 == month * 32 + day;
  }

  /** Every field comes back. */
  lemma UnpackPack(f: Fields)
    requires DateOk(f) && ZoneFits(f.zone)
    ensures Unpack(Pack(f)) == f
  {
    PackedDate(f);
    SecondsDigits(f);
    UpperDigits(f.month, f.day, f.zone + 12, f.year, DateNumber(f));
    LowerDigits(DateNumber(f), SecondsOf(f), f.micro, Pack(f));
  }

  // ----- Printing what was parsed -----

  lemma DateScan(s: string)
    requires WellFormed(s)
    ensures DateText(Scan(s)) == s[..10]
  {
    PaddedNumber(s[0..4]);
    PaddedNumber(s[5..7]);
    PaddedNumber(s[8..10]);
    assert s[..10] == s[0..4] + "-" + s[5..7] + "-" + s[8..10];
  }

  lemma ClockScan(s: string)
    requires WellFormed(s)
    ensures ClockText(Scan(s)) == s[11..19]
  {
    PaddedNumber(s[11..13]);
    PaddedNumber(s[14..16]);
    PaddedNumber(s[17..19]);
    assert s[11..19] == s[11..13] + ":" + s[14..16] + ":" + s[17..19];
  }

  lemma TimeScan(s: string)
    requires WellFormed(s)
    ensures TimeText(Scan(s)) == s[11..26]
  {
    ClockScan(s);
    PaddedNumber(s[20..26]);
    assert s[11..26] == s[11..19] + "." + s[20..26];
  }

  lemma BodyScan(s: string)
    requires WellFormed(s)
    ensures Body(Scan(s)) == s[..26]
  {
    DateScan(s);
    TimeScan(s);
    assert s[..26] == s[..10] + " " + s[11..26];
  }

  lemma ZoneScan(s: string)
    requires WellFormed(s)
    ensures var zone := Scan(s).zone; Padded(if zone < 0 then -zone else zone, 2) == s[27..29]
  {
    PaddedNumber(s[27..29]);
  }

  /** Printing the scanned fields gives the text back, except that a zone of zero is always printed with a plus. */
  lemma PrintScan(s: string)
    requires WellFormed(s)
    ensures Print(Scan(s)) == s <==> !(s[26] == '-' && Scan(s).zone == 0)
  {
    BodyScan(s);
    ZoneScan(s);
    var sign := if Scan(s).zone >= 0 then "+" else "-";
    assert Print(Scan(s)) == s[..26] + sign + s[27..29];
    assert s == s[..26] + [s[26]] + s[27..29];
    assert Print(Scan(s))[26] == sign[0];
  }

  lemma UnpackedFieldsPrintInPlace(tm: nat)
    requires tm < TWO_TO_THE_64
    ensures |Body(Unpack(tm))| == 26 && ZoneFits(Unpack(tm).zone)
  {
    var f := Unpack(tm);
    assert PowerOfTen(1) == 10 && PowerOfTen(2) == 100 && PowerOfTen(3) == 1000 && PowerOfTen(4) == 10000;
    assert PowerOfTen(6) == 1000000;
    assert f.month <= 21;
    PaddedLength(f.year, 4);
    PaddedLength(f.month, 2);
    PaddedLength(f.day, 2);
    PaddedLength(f.hour, 2);
    PaddedLength(f.minute, 2);
    PaddedLength(f.second, 2);
    PaddedLength(f.micro, 6);
  }

  /** A printed zone always lies between -12 and 14. */
  lemma PrintedZone(s: string, tm: nat)
    requires WellFormed(s) && tm < TWO_TO_THE_64 && Print(Unpack(tm)) == s
    ensures ZoneFits(Scan(s).zone)
  {
    UnpackedFieldsPrintInPlace(tm);
    var zone := Unpack(tm).zone;
    var digits := Padded(if zone < 0 then -zone else zone, 2);
    assert s[27..29] == digits;
    NumberPadded(if zone < 0 then -zone else zone, 2);
  }

  /**
   * Printing a parsed text gives the text back (with its fraction, if that was left out) exactly if the
   * zone offset lies between -12 and 14 and is not written as minus zero. The parser accepts other
   * offsets, and mangles them.
   */
  lemma PrintParseIff(text: string)
    requires Parse(text).Some?
    ensures var s := Expand(text);
            Print(Unpack(Parse(text).value)) == s <==> ZoneFits(Scan(s).zone) && !(s[26] == '-' && Scan(s).zone == 0)
  {
    var s := Expand(text);
    var f := Scan(s);
    if ZoneFits(f.zone) {
      UnpackPack(f);
      PrintScan(s);
    } else if Print(Unpack(Pack(f))) == s {
      PrintedZone(s, Pack(f));
    }
  }

  /**
   * A zone above 14 has no digit of its own: it carries, and another day in another zone comes back. From the
   * 31st it carries on into the month, whose day 0 comes back.
   */
  lemma ZoneOverflows(f: Fields)
    requires DateOk(f) && 15 <= f.zone && ZoneAccepted(f.zone)
    ensures Unpack(Pack(f)) == if f.day < 31 then f.(day := f.day + 1, zone := f.zone - 27)
                               else f.(month := f.month + 1, day := 0, zone := f.zone - 27)
  {
    PackedDate(f);
    SecondsDigits(f);
    if f.day < 31 {
      UpperDigits(f.month, f.day + 1, f.zone - 15, f.year, DateNumber(f));
    } else {
      UpperDigits(f.month + 1, 0, f.zone - 15, f.year, DateNumber(f));
    }
    LowerDigits(DateNumber(f), SecondsOf(f), f.micro, Pack(f));
  }

  lemma DigitsInPlace(n: nat, width: nat)
    requires width > 0 && n < PowerOfTen(width)
    ensures |Padded(n, width)| == width && AllDigits(Padded(n, width)) && Number(Padded(n, width)) == n
  {
    PaddedLength(n, width);
    NumberPadded(n, width);
  }

  /** Every field has as many digits as the text has room for. */
  predicate Printable(f: Fields) {
    && f.year < 10000 && f.month < 100 && f.day < 100
    && f.hour < 100 && f.minute < 100 && f.second < 100 && f.micro < 1000000 && -100 < f.zone < 100
  }

  lemma DatePrints(f: Fields)
    requires Printable(f)
    ensures var t := DateText(f);
            && |t| == 10 && t[4] == '-' && t[7] == '-'
            && t[0..4] == Padded(f.year, 4) && t[5..7] == Padded(f.month, 2) && t[8..10] == Padded(f.day, 2)
            && Number(Padded(f.year, 4)) == f.year && Number(Padded(f.month, 2)) == f.month
            && Number(Padded(f.day, 2)) == f.day
  {
    assert PowerOfTen(1) == 10 && PowerOfTen(2) == 100 && PowerOfTen(3) == 1000 && PowerOfTen(4) == 10000;
    DigitsInPlace(f.year, 4);
    DigitsInPlace(f.month, 2);
    DigitsInPlace(f.day, 2);
  }

  lemma TimeSlices(hour: string, minute: string, second: string, micro: string)
    requires |hour| == |minute| == |second| == 2 && |micro| == 6
    ensures var t := hour + ":" + minute + ":" + second + "." + micro;
            && |t| == 15 && t[2] == ':' && t[5] == ':' && t[8] == '.'
            && t[0..2] == hour && t[3..5] == minute && t[6..8] == second && t[9..15] == micro
  {
  }

  lemma TimeDigits(f: Fields)
    requires Printable(f)
    ensures |Padded(f.hour, 2)| == |Padded(f.minute, 2)| == |Padded(f.second, 2)| == 2 && |Padded(f.micro, 6)| == 6
    ensures Number(Padded(f.hour, 2)) == f.hour && Number(Padded(f.minute, 2)) == f.minute
    ensures Number(Padded(f.second, 2)) == f.second && Number(Padded(f.micro, 6)) == f.micro
  {
    assert PowerOfTen(1) == 10 && PowerOfTen(2) == 100 && PowerOfTen(3) == 1000 && PowerOfTen(4) == 10000;
    assert PowerOfTen(6) == 1000000;
    DigitsInPlace(f.hour, 2);
    DigitsInPlace(f.minute, 2);
    DigitsInPlace(f.second, 2);
    DigitsInPlace(f.micro, 6);
  }

  lemma TimePrints(f: Fields)
    requires Printable(f)
    ensures var t := TimeText(f);
            && |t| == 15 && t[2] == ':' && t[5] == ':' && t[8] == '.'
            && t[0..2] == Padded(f.hour, 2) && t[3..5] == Padded(f.minute, 2) && t[6..8] == Padded(f.second, 2)
            && t[9..15] == Padded(f.micro, 6)
            && Number(Padded(f.hour, 2)) == f.hour && Number(Padded(f.minute, 2)) == f.minute
            && Number(Padded(f.second, 2)) == f.second && Number(Padded(f.micro, 6)) == f.micro
  {
    TimeDigits(f);
    TimeSlices(Padded(f.hour, 2), Padded(f.minute, 2), Padded(f.second, 2), Padded(f.micro, 6));
    assert TimeText(f)
        == Padded(f.hour, 2) + ":" + Padded(f.minute, 2) + ":" + Padded(f.second, 2) + "." + Padded(f.micro, 6);
  }

  lemma ZonePrints(zone: nat)
    requires zone < 100
    ensures |Padded(zone, 2)| == 2 && Number(Padded(zone, 2)) == zone
  {
    assert PowerOfTen(2) == 100;
    DigitsInPlace(zone, 2);
  }

  /** Where the parts of a text of the format are found. */
  lemma Assembled(date: string, time: string, sign: char, zone: string)
    requires |date| == 10 && |time| == 15 && |zone| == 2
    ensures var s := date + " " + time + [sign] + zone;
            && |s| == 29 && s[10] == ' ' && s[26] == sign && s[27..29] == zone
            && s[0..4] == date[0..4] && s[5..7] == date[5..7] && s[8..10] == date[8..10]
            && s[11..13] == time[0..2] && s[14..16] == time[3..5] && s[17..19] == time[6..8] && s[20..26] == time[9..15]
            && s[4] == date[4] && s[7] == date[7] && s[13] == time[2] && s[16] == time[5] && s[19] == time[8]
  {
  }

  lemma DigitsEverywhere(s: string)
    requires |s| == 29 && Separators(s)
    requires AllDigits(s[0..4]) && AllDigits(s[5..7]) && AllDigits(s[8..10]) && AllDigits(s[11..13])
    requires AllDigits(s[14..16]) && AllDigits(s[17..19]) && AllDigits(s[20..26]) && AllDigits(s[27..29])
    ensures WellFormed(s)
  {
    forall i | 0 <= i < 29 && IsDigitPosition(i)
      ensures IsDigit(s[i])
    {
      if i < 4 {
        assert s[i] == s[0..4][i];
      } else if i < 7 {
        assert s[i] == s[5..7][i - 5];
      } else if i < 10 {
        assert s[i] == s[8..10][i - 8];
      } else if i < 13 {
        assert s[i] == s[11..13][i - 11];
      } else if i < 16 {
        assert s[i] == s[14..16][i - 14];
      } else if i < 19 {
        assert s[i] == s[17..19][i - 17];
      } else if i < 26 {
        assert s[i] == s[20..26][i - 20];
      } else {
        assert s[i] == s[27..29][i - 27];
      }
    }
  }

  lemma ScanPrint(f: Fields)
    requires Printable(f)
    ensures WellFormed(Print(f)) && Scan(Print(f)) == f
  {
    var sign, zone := if f.zone >= 0 then '+' else '-', if f.zone < 0 then -f.zone else f.zone;
    var s := DateText(f) + " " + TimeText(f) + [sign] + Padded(zone, 2);
    assert Print(f) == s;
    DatePrints(f);
    TimePrints(f);
    ZonePrints(zone);
    Assembled(DateText(f), TimeText(f), sign, Padded(zone, 2));
    DigitsEverywhere(s);
  }

  /** The printed text of any fields is parsed exactly if they are a date in a zone up to 26, and packed as them. */
  lemma ParsePrint(f: Fields)
    requires Printable(f)
    ensures Parse(Print(f)) == if DateOk(f) && f.zone <= 26 then Some(Pack(f)) else None
  {
    ScanPrint(f);
  }

  /** The text without a fraction of a second. */
  function ShortText(f: Fields): string {
    DateText(f) + " " + ClockText(f) + (if f.zone >= 0 then "+" else "-")
    + Padded(if f.zone < 0 then -f.zone else f.zone, 2)
  }

  lemma ZeroMicroseconds(f: Fields)
    requires f.micro == 0
    ensures TimeText(f) == ClockText(f) + ".000000"
  {
    assert Padded(0, 2) == Padded(0, 1) + ['0'] == "00";
    assert Padded(0, 3) == Padded(0, 2) + ['0'] == "000";
    assert Padded(0, 4) == Padded(0, 3) + ['0'] == "0000";
    assert Padded(0, 5) == Padded(0, 4) + ['0'] == "00000";
    assert Padded(0, 6) == Padded(0, 5) + ['0'] == "000000";
  }

  lemma ExpandedParts(date: string, clock: string, sign: string, zone: string)
    requires |date| == 10 && |clock| == 8 && |sign| == 1 && |zone| == 2
    ensures Expand(date + " " + clock + sign + zone) == date + " " + (clock + ".000000") + sign + zone
  {
    var s := date + " " + clock + sign + zone;
    assert s[..19] == date + " " + clock && s[19..22] == sign + zone;
  }

  /** A text without fraction is the text with six zeros, and is parsed as microsecond 0. */
  lemma ParseShort(f: Fields)
    requires Printable(f) && f.micro == 0
    ensures |ShortText(f)| == 22
    ensures Parse(ShortText(f)) == if DateOk(f) && f.zone <= 26 then Some(Pack(f)) else None
  {
    var sign, zone := if f.zone >= 0 then "+" else "-", if f.zone < 0 then -f.zone else f.zone;
    DatePrints(f);
    TimePrints(f);
    ZonePrints(zone);
    ZeroMicroseconds(f);
    ExpandedParts(DateText(f), ClockText(f), sign, Padded(zone, 2));
    assert Print(f) == DateText(f) + " " + (ClockText(f) + ".000000") + sign + Padded(zone, 2);
    assert Expand(ShortText(f)) == Print(f);
    ScanPrint(f);
  }

  /** The last second of 2024 in zone +15: its text is parsed, and comes back as day 0 of month 13 in zone -12. */
  lemma NewYearsEveOverflows()
    ensures var f := Fields(2024, 12, 31, 23, 59, 59, 0, 15);
            && Parse(Print(f)).Some?
            && Unpack(Parse(Print(f)).value) == f.(month := 13, day := 0, zone := -12)
  {
    var f := Fields(2024, 12, 31, 23, 59, 59, 0, 15);
    ParsePrint(f);
    ZoneOverflows(f);
  }

  /** A sign that the zone may be printed with: zero has both. */
  predicate SignFits(sign: char, zone: int) {
    (sign == '+' && zone >= 0) || (sign == '-' && zone <= 0)
  }

  lemma {:induction false} OnlyZeros(s: string)
    requires forall i :: 0 <= i < |s| ==> s[i] == '0'
    ensures Number(s) == 0
  {
    if s != "" {
      OnlyZeros(s[..|s| - 1]);
    }
  }

  function ZoneText(zone: int): string {
    Padded(if zone < 0 then -zone else zone, 2)
  }

  lemma ScannedText(s: string)
    requires WellFormed(s)
    ensures SignFits(s[26], Scan(s).zone) && s == Body(Scan(s)) + [s[26]] + ZoneText(Scan(s).zone)
  {
    BodyScan(s);
    ZoneScan(s);
    assert s == s[..26] + [s[26]] + s[27..29];
  }

  lemma ShortScanned(text: string)
    requires |text| == 22 && WellFormed(Expand(text))
    ensures var f := Scan(Expand(text));
            && f.micro == 0 && SignFits(text[19], f.zone)
            && text == DateText(f) + " " + ClockText(f) + [text[19]] + ZoneText(f.zone)
  {
    var s := Expand(text);
    assert s[..10] == text[..10] && s[11..19] == text[11..19] && s[20..26] == "000000";
    assert s[26] == text[19] && s[27..29] == text[20..22];
    DateScan(s);
    ClockScan(s);
    ZoneScan(s);
    OnlyZeros(s[20..26]);
    assert text == text[..10] + " " + text[11..19] + [text[19]] + text[20..22];
  }

  /** Nothing is parsed but such texts of dates, with either sign for a zone of zero. */
  lemma ParsedTexts(text: string)
    requires Parse(text).Some?
    ensures var f := Scan(Expand(text));
            && DateOk(f) && Parse(text) == Some(Pack(f)) && |text| in {22, 29}
            && if |text| == 29 then SignFits(text[26], f.zone) && text == Body(f) + [text[26]] + ZoneText(f.zone)
               else
                 && f.micro == 0 && SignFits(text[19], f.zone)
                 && text == DateText(f) + " " + ClockText(f) + [text[19]] + ZoneText(f.zone)
  {
    if |text| == 22 {
      ShortScanned(text);
    } else {
      ScannedText(text);
    }
  }

  // ----- The calendar -----

  /** How many leap days there are up to the end of the year: one in 4 years but not in 100 yet in 400. */
  function LeapDays(year: int): int {
    year / 4 - year / 100 + year / 400
  }

  lemma DivisionSteps(n: int, d: nat)
    requires d in {4, 100, 400}
    ensures n / d - (n - 1) / d == if n % d == 0 then 1 else 0
  {
  }

  lemma LeapDaysCount(year: nat)
    ensures LeapDays(year) - LeapDays(year - 1) == if IsLeap(year) then 1 else 0
  {
    DivisionSteps(year, 4);
    DivisionSteps(year, 100);
    DivisionSteps(year, 400);
  }

  /** Months alternate between 31 and 30 days, once more from August on, and February has 28 and the leap day. */
  function DaysIn(year: int, month: int): int {
    if month == 2 then 28 + LeapDays(year) - LeapDays(year - 1) else 30 + (month + month / 8) % 2
  }

  /** The dates that are accepted are those of the Gregorian calendar, at every time of the day. */
  lemma DateOkIff(f: Fields)
    ensures DateOk(f) <==>
              && f.year < 10000 && 1 <= f.month <= 12 && 1 <= f.day <= DaysIn(f.year, f.month)
              && f.hour < 24 && f.minute < 60 && f.second < 60 && f.micro < 1_000_000
  {
    LeapDaysCount(f.year);
  }

  // ----- Comparing packed timestamps -----

  /** Later in the order of the digits: month, day, zone, year, second of the day, microsecond. */
  predicate DigitsLess(a: Fields, b: Fields) {
    a.month < b.month || (a.month == b.month &&
    (a.day < b.day || (a.day == b.day &&
    (a.zone < b.zone || (a.zone == b.zone &&
    (a.year < b.year || (a.year == b.year &&
    (SecondsOf(a) < SecondsOf(b) || (SecondsOf(a) == SecondsOf(b) && a.micro < b.micro)))))))))
  }

  /** Comparing packed timestamps compares the month first and the year only fourth. */
  lemma PackedOrder(a: Fields, b: Fields)
    requires DateOk(a) && ZoneFits(a.zone) && DateOk(b) && ZoneFits(b.zone)
    ensures Pack(a) < Pack(b) <==> DigitsLess(a, b)
  {
    PackedDate(a);
    PackedDate(b);
    SecondsDigits(a);
    SecondsDigits(b);
  }

  /** So the packed order is not the order in time: December 2000 packs higher than January 2001. */
  lemma PackedOrderIsNotChronological()
    ensures Pack(Fields(2000, 12, 1, 0, 0, 0, 0, 0)) > Pack(Fields(2001, 1, 1, 0, 0, 0, 0, 0))
  {
    PackedOrder(Fields(2001, 1, 1, 0, 0, 0, 0, 0), Fields(2000, 12, 1, 0, 0, 0, 0, 0));
  }

  // ----- The code -----

  /** The tests of the format: length, separators, and the loop over the digits. */
  method HasFormat(str: string) returns (ok: bool)
    ensures ok == WellFormed(str)
  {
    if |str| != 29 {
      return false;
    }
    if str[10] != ' ' || str[4] != '-' || str[7] != '-' || str[13] != ':' || str[16] != ':' || str[19] != '.'
       || (str[26] != '+' && str[26] != '-') {
      return false;
    }
    for i := 0 to 29
      invariant forall j :: 0 <= j < i && IsDigitPosition(j) ==> IsDigit(str[j])
    {
      if IsDigitPosition(i) {
        if str[i] < '0' || str[i] > '9' {
          return false;
        }
      }
    }
    return true;
  }

  method HasRange(f: Fields) returns (ok: bool)
    ensures ok == DateOk(f)
  {
    if f.year > 9999 || f.month > 12 || f.day > 31 || f.hour > 23 || f.minute > 59 || f.second > 59 || f.micro > 999999
       || f.day == 0 || f.month == 0 {
      return false;
    }
    ok := f.day <= MaxDay(f.month, IsLeap(f.year));
  }

  /** Adds one digit after the other. */
  method PackDigits(f: Fields) returns (res: nat)
    ensures res == Pack(f)
  {
    var timezone := (f.zone + 12) % TWO_TO_THE_32;
    res := f.month;
    res := Wrap(res * 32 + f.day);
    res := Wrap(res * 27 + timezone);
    res := Wrap(res * 10000 + f.year);
    res := Wrap(res * 100000 + (f.hour * 3600 + f.minute * 60 + f.second));
    res := Wrap(res * 1000000 + f.micro);
  }

  /** CastAsTimestamp on text; None where it throws. */
  method CastAsTimestamp(text: string) returns (r: Option<nat>)
    ensures r == Parse(text)
  {
    var str := Expand(text);
    var ok := HasFormat(str);
    if !ok {
      return None;
    }
    var f := Scan(str);
    ok := HasRange(f);
    if !ok || f.zone > 26 {
      return None;
    }
    var res := PackDigits(f);
    r := Some(res);
  }

  /** Takes the digits off one after the other. */
  method ToString(timestamp: nat) returns (text: string)
    requires timestamp < TWO_TO_THE_64 - 1
    ensures text == Print(Unpack(timestamp))
  {
    var tm := timestamp;
    var micro := tm % 1000000;
    tm := tm / 1000000;
    var second := tm % 100000;
    var sec := second % 60;
    second := second / 60;
    var min := second % 60;
    second := second / 60;
    var hour := second % 24;
    tm := tm / 100000;
    var year := tm % 10000;
    tm := tm / 10000;
    var zone: nat := tm % 27;
    var tz: int := zone as int - 12;
    tm := tm / 27;
    var day := tm % 32;
    var month := tm / 32;
    text := Padded(year, 4) + "-" + Padded(month, 2) + "-" + Padded(day, 2);
    text := text + " " + (Padded(hour, 2) + ":" + Padded(min, 2) + ":" + Padded(sec, 2) + "." + Padded(micro, 6));
    text := text + (if tz >= 0 then "+" else "-");
    if tz < 0 {
      tz := -tz;
    }
    text := text + Padded(tz, 2);
  }
}
