/**
 * The string arithmetic of Case.convertTimeZone, which turns a zone's raw UTC
 * offset and its abbreviations into a string in the style of the POSIX TZ
 * variable (IEEE Std 1003.1, Base Definitions, section 8.3), e.g. "EST5EDT".
 * The zone lookup and date formatting are library calls; their results (raw
 * offset in milliseconds, the zone's "z" names on 1 February 2010 and on
 * 6 July 2011, whether the zone uses daylight time) are the inputs here. North
 * of the equator these are the standard and daylight names; south of it, in a
 * zone with daylight time, the other way round.
 */
module TimeZones {

  /** Java's `/` on int for a positive divisor: the quotient truncated toward zero. */
  function JavaDiv(a: int, b: int): (q: int)
    requires b > 0
    ensures 0 <= a ==> 0 <= a - q * b < b
    ensures a < 0 ==> -b < a - q * b <= 0
  {
    if a >= 0 then a / b else -((-a) / b)
  }

  /** Java's `%` on int for a positive divisor: the remainder takes the sign of the dividend. */
  function JavaRem(a: int, b: int): (r: int)
    requires b > 0
    ensures 0 <= a ==> 0 <= r < b
    ensures a < 0 ==> -b < r <= 0
  {
    a - b * JavaDiv(a, b)
  }

  predicate IsDigit(c: char) {
    '0' <= c <= '9'
  }

  function DigitChar(d: nat): (c: char)
    requires d < 10
    ensures IsDigit(c)
  {
    ('0' as int + d) as char
  }

  /** The decimal digits of a natural number, without leading zeros. */
  function Digits(n: nat): (s: string)
    ensures 0 < |s|
    ensures forall i :: 0 <= i < |s| ==> IsDigit(s[i])
    ensures (s[0] == '0') == (n == 0)
    decreases n
  {
    if n < 10 then [DigitChar(n)] else Digits(n / 10) + [DigitChar(n % 10)]
  }

  /** Integer.toString. */
  function DecimalString(n: int): string {
    if n < 0 then "-" + Digits(-n) else Digits(n)
  }

  /** The value of a string of decimal digits, most significant first. */
  function DigitsValue(s: string): int {
    if s == [] then 0 else DigitsValue(s[..|s| - 1]) * 10 + (s[|s| - 1] as int - '0' as int)
  }

  lemma {:induction false} DigitsRoundTrip(n: nat)
    ensures DigitsValue(Digits(n)) == n
    decreases n
  {
    if n >= 10 {
      DigitsRoundTrip(n / 10);
      var s := Digits(n);
      assert s[..|s| - 1] == Digits(n / 10);
    }
  }

  /** The three numeric fields convertTimeZone derives from the raw offset (Java int arithmetic). */
  function OffsetSeconds(rawOffsetMillis: int): int {
    JavaDiv(rawOffsetMillis, 1000)
  }

  function HourField(offset: int): int {
    JavaDiv(offset, 3600)
  }

  function MinuteField(offset: int): int {
    JavaDiv(JavaRem(offset, 3600), 60)
  }

  /**
   * The hour and minute fields take the sign of the offset, the minutes stay
   * within one hour, and together they give the offset truncated toward zero
   * to whole minutes.
   */
  lemma OffsetFields(offset: int)
    ensures -60 < MinuteField(offset) < 60
    ensures offset >= 0 ==> HourField(offset) >= 0 && MinuteField(offset) >= 0
    ensures offset <= 0 ==> HourField(offset) <= 0 && MinuteField(offset) <= 0
    ensures HourField(offset) * 3600 + MinuteField(offset) * 60 == JavaDiv(offset, 60) * 60
  {
    var a := if offset >= 0 then offset else -offset;
    var h, r := a / 3600, a % 3600;
    var m := r / 60;
    assert a == h * 3600 + m * 60 + r % 60;
    assert a / 60 == h * 60 + m;
  }

  /**
   * Case.convertTimeZone as written: the first three letters of the February
   * name, the negated hour field, ":" and the minute field when the minutes
   * are not zero, and the first three letters of the July name when the zone
   * uses daylight time. The minute field keeps its
   * sign, so a zone west of UTC with a fractional hour prints a negative minute.
   */
  function ConvertTimeZone(rawOffsetMillis: int, februaryName: string, julyName: string,
                           usesDaylight: bool): (r: string)
    requires |februaryName| >= 3 && |julyName| >= 3
    ensures |r| >= 3 && r[..3] == februaryName[..3]
    ensures usesDaylight ==> r[|r| - 3..] == julyName[..3]
  {
    var offset := OffsetSeconds(rawOffsetMillis);
    var hour := HourField(offset);
    var min := MinuteField(offset);
    var first := februaryName[..3];
    var second := julyName[..3];
    var mid := hour * -1;
    var result := first + DecimalString(mid);
    var result := if min != 0 then result + ":" + DecimalString(min) else result;
    if usesDaylight then result + second else result
  }

  /** "h" or "h:m": hours, then minutes when there are any, both unsigned. */
  function Clock(h: nat, m: nat): string {
    if m != 0 then Digits(h) + ":" + Digits(m) else Digits(h)
  }

  /**
   * The POSIX offset field: west of UTC is positive, east is negative, and the
   * sign is written once, before the hours.
   */
  function PosixOffset(offset: int): string {
    var hour := HourField(offset);
    var min := MinuteField(offset);
    var sign := if JavaDiv(offset, 60) > 0 then "-" else "";
    sign + Clock(if hour < 0 then -hour else hour, if min < 0 then -min else min)
  }

  /** convertTimeZone with the minute field written without a sign. */
  function PosixTimeZone(rawOffsetMillis: int, februaryName: string, julyName: string,
                         usesDaylight: bool): (r: string)
    requires |februaryName| >= 3 && |julyName| >= 3
    ensures |r| >= 3 && r[..3] == februaryName[..3]
    ensures usesDaylight ==> r[|r| - 3..] == julyName[..3]
  {
    var result := februaryName[..3] + PosixOffset(OffsetSeconds(rawOffsetMillis));
    if usesDaylight then result + julyName[..3] else result
  }

  /** Index of the first occurrence of `c` in `s`, or |s|. */
  function IndexOf(s: string, c: char): (i: nat)
    ensures i <= |s|
    ensures i < |s| ==> s[i] == c
    ensures forall j :: 0 <= j < i ==> s[j] != c
  {
    if s == [] then 0 else if s[0] == c then 0 else 1 + IndexOf(s[1..], c)
  }

  /** Reads a POSIX offset "[-]h[:m]" back as seconds west of UTC. */
  function ParseOffset(s: string): int {
    if 0 < |s| && s[0] == '-' then -ParseClock(s[1..]) else ParseClock(s)
  }

  function ParseClock(s: string): int {
    var i := IndexOf(s, ':');
    if i < |s| then DigitsValue(s[..i]) * 3600 + DigitsValue(s[i + 1..]) * 60 else DigitsValue(s) * 3600
  }

  lemma {:induction false} ClockRoundTrip(h: nat, m: nat)
    ensures ParseClock(Clock(h, m)) == h * 3600 + m * 60
  {
    DigitsRoundTrip(h);
    if m != 0 {
      DigitsRoundTrip(m);
      var s := Digits(h) + ":" + Digits(m);
      assert IndexOf(s, ':') == |Digits(h)| by {
        assert s[|Digits(h)|] == ':';
        assert forall j :: 0 <= j < |Digits(h)| ==> s[j] == Digits(h)[j];
      }
      assert s[..|Digits(h)|] == Digits(h);
      assert s[|Digits(h)| + 1..] == Digits(m);
    } else {
      assert IndexOf(Digits(h), ':') == |Digits(h)|;
    }
  }

  /** A signed clock "[-]h[:m]" reads back as its value in seconds. */
  lemma SignedClockRoundTrip(negative: bool, h: nat, m: nat)
    ensures ParseOffset((if negative then "-" else "") + Clock(h, m))
              == if negative then -(h * 3600 + m * 60) else h * 3600 + m * 60
  {
    ClockRoundTrip(h, m);
    var body := Clock(h, m);
    assert body[0] == Digits(h)[0];
    if negative {
      var s := "-" + body;
      assert s[0] == '-' && s[1..] == body;
    } else {
      assert "" + body == body;
    }
  }

  /** The corrected offset field reads back as the offset, negated and truncated to whole minutes. */
  lemma PosixOffsetRoundTrip(offset: int)
    ensures ParseOffset(PosixOffset(offset)) == -(JavaDiv(offset, 60) * 60)
  {
    OffsetFields(offset);
    var hour, min := HourField(offset), MinuteField(offset);
    var h: nat := if hour < 0 then -hour else hour;
    var m: nat := if min < 0 then -min else min;
    var negative := JavaDiv(offset, 60) > 0;
    SignedClockRoundTrip(negative, h, m);
    assert h * 3600 + m * 60 == if offset >= 0 then hour * 3600 + min * 60 else -(hour * 3600 + min * 60);
  }

  /** The offset part of convertTimeZone as written, between the two abbreviations. */
  function AsWrittenOffset(offset: int): string {
    var min := MinuteField(offset);
    var hours := DecimalString(-HourField(offset));
    if min != 0 then hours + ":" + DecimalString(min) else hours
  }

  lemma AsWrittenSplits(rawOffsetMillis: int, februaryName: string, julyName: string,
                        usesDaylight: bool)
    requires |februaryName| >= 3 && |julyName| >= 3
    ensures ConvertTimeZone(rawOffsetMillis, februaryName, julyName, usesDaylight)
              == februaryName[..3] + AsWrittenOffset(OffsetSeconds(rawOffsetMillis))
                 + (if usesDaylight then julyName[..3] else "")
    ensures PosixTimeZone(rawOffsetMillis, februaryName, julyName, usesDaylight)
              == februaryName[..3] + PosixOffset(OffsetSeconds(rawOffsetMillis))
                 + (if usesDaylight then julyName[..3] else "")
  {
    var offset := OffsetSeconds(rawOffsetMillis);
    assert HourField(offset) * -1 == -HourField(offset);
  }

  lemma OffsetsAgreeEast(offset: int)
    requires offset >= 3600
    ensures AsWrittenOffset(offset) == PosixOffset(offset)
  {
    OffsetFields(offset);
    var hour, min := HourField(offset), MinuteField(offset);
    assert JavaDiv(offset, 60) > 0;
    assert DecimalString(-hour) == "-" + Digits(hour);
    if min != 0 {
      assert PosixOffset(offset) == "-" + (Digits(hour) + ":" + Digits(min));
    } else {
      assert PosixOffset(offset) == "-" + Digits(hour);
    }
  }

  lemma OffsetsAgreeWithinAnHour(offset: int)
    requires 0 <= offset < 3600
    ensures AsWrittenOffset(offset) == PosixOffset(offset) <==> MinuteField(offset) == 0
  {
    OffsetFields(offset);
    var min := MinuteField(offset);
    assert HourField(offset) == 0;
    if min != 0 {
      assert JavaDiv(offset, 60) > 0;
      assert AsWrittenOffset(offset)[0] == '0';
      assert PosixOffset(offset)[0] == '-';
    } else {
      assert JavaDiv(offset, 60) == 0;
      assert PosixOffset(offset) == "" + Digits(0);
    }
  }

  lemma OffsetsAgreeWest(offset: int)
    requires offset < 0
    ensures AsWrittenOffset(offset) == PosixOffset(offset) <==> MinuteField(offset) == 0
  {
    OffsetFields(offset);
    var hour, min := HourField(offset), MinuteField(offset);
    assert JavaDiv(offset, 60) <= 0;
    var hours := Digits(-hour);
    assert DecimalString(-hour) == hours;
    if min != 0 {
      var k := |hours| + 1;
      var asWritten := hours + ":" + ("-" + Digits(-min));
      var posix := "" + (hours + ":" + Digits(-min));
      assert AsWrittenOffset(offset) == asWritten;
      assert PosixOffset(offset) == posix;
      assert asWritten[k] == '-';
      assert posix[k] == Digits(-min)[0];
    } else {
      assert PosixOffset(offset) == "" + hours;
    }
  }

  /** The two offset fields agree exactly when the minutes are zero or the zone is at least an hour east. */
  lemma OffsetsAgree(offset: int)
    ensures AsWrittenOffset(offset) == PosixOffset(offset) <==> MinuteField(offset) == 0 || offset >= 3600
  {
    if offset >= 3600 {
      OffsetsAgreeEast(offset);
    } else if offset >= 0 {
      OffsetsAgreeWithinAnHour(offset);
    } else {
      OffsetsAgreeWest(offset);
    }
  }

  /** As written and corrected agree exactly when the minutes are zero or the zone is at least an hour east. */
  lemma AsWrittenAgreesWithPosix(rawOffsetMillis: int, februaryName: string, julyName: string,
                                 usesDaylight: bool)
    requires |februaryName| >= 3 && |julyName| >= 3
    ensures var offset := OffsetSeconds(rawOffsetMillis);
            ConvertTimeZone(rawOffsetMillis, februaryName, julyName, usesDaylight)
              == PosixTimeZone(rawOffsetMillis, februaryName, julyName, usesDaylight)
            <==> MinuteField(offset) == 0 || offset >= 3600
  {
    var offset := OffsetSeconds(rawOffsetMillis);
    AsWrittenSplits(rawOffsetMillis, februaryName, julyName, usesDaylight);
    OffsetsAgree(offset);
    var first, tail := februaryName[..3], if usesDaylight then julyName[..3] else "";
    var a, p := AsWrittenOffset(offset), PosixOffset(offset);
    if first + a + tail == first + p + tail {
      assert a == (first + a + tail)[3..|first + a + tail| - |tail|];
      assert p == (first + p + tail)[3..|first + p + tail| - |tail|];
    }
  }

  /** A zone 3h30 west of UTC with daylight time: the minute field comes out as "-30". */
  lemma NegativeHalfHourZone()
    ensures ConvertTimeZone(-12600000, "NST", "NDT", true) == "NST3:-30NDT"
    ensures PosixTimeZone(-12600000, "NST", "NDT", true) == "NST3:30NDT"
  {
    var offset := OffsetSeconds(-12600000);
    assert offset == -12600;
    assert HourField(offset) == -3;
    assert JavaRem(offset, 3600) == -1800;
    assert MinuteField(offset) == -30;
    assert JavaDiv(offset, 60) == -210;
    assert Digits(30) == Digits(3) + ['0'];
    assert AsWrittenOffset(offset) == "3:-30";
    assert PosixOffset(offset) == "3:30";
    AsWrittenSplits(-12600000, "NST", "NDT", true);
  }

  /** A whole-hour zone west of UTC with daylight time, as for America/New_York. */
  lemma WholeHourZone()
    ensures ConvertTimeZone(-18000000, "EST", "EDT", true) == "EST5EDT"
  {
  }
}
