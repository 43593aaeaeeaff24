/**
 * The embed timestamp of a post: its `created_at` converted to the fixed
 * zone Etc/GMT-8 and written as '%Y-%m-%dT%H:%M:%S.%fZ'.
 */
module Timestamp {
  import opened Wrappers
  import opened Civil
  import opened Decimal
  import opened CreatedAt

  /**
   * Etc/GMT-8 is eight hours EAST of UTC: POSIX-style zone names carry the
   * inverted sign.
   */
  const TargetOffset := 8 * 3600

  /** strptime's ValueError, and the OverflowError of astimezone. */
  datatype ConvertError = MalformedCreatedAt | OutOfRange

  predicate InRange(t: DateTime) {
    MinYear <= t.date.year <= MaxYear
  }

  /** The UTC reading of a zoned time, before any range check. */
  function UtcOf(z: Zoned): (r: DateTime)
    requires ValidZoned(z)
    ensures WellFormed(r)
  {
    AddSeconds(z.local, -z.offset)
  }

  /**
   * dt.astimezone(Etc/GMT-8): subtract the offset to reach UTC, then add
   * eight hours; each step fails when its result leaves years 1..9999.
   */
  function ToTarget(z: Zoned): (r: Option<DateTime>)
    requires ValidZoned(z)
    ensures r.Some? ==> Valid(r.value)
  {
    var utc := UtcOf(z);
    if !InRange(utc) then None
    else
      var shifted := AddSeconds(utc, TargetOffset);
      if InRange(shifted) then Some(shifted) else None
  }

  /** strftime('%Y-%m-%dT%H:%M:%S.%fZ'); there are never any microseconds. */
  function FormatTimestamp(t: DateTime): (s: string)
    requires Valid(t)
    ensures |s| == 27 && s[19..] == ".000000Z"
  {
    Digits(t.date.year, 4) + "-" + Pad2(t.date.month) + "-" + Pad2(t.date.day) + "T"
      + Pad2(t.hour) + ":" + Pad2(t.minute) + ":" + Pad2(t.second) + "." + Digits(0, 6) + "Z"
  }

  /** The timestamp Discord is sent for a post, or why parse_item raised. */
  function DiscordTimestamp(createdAt: string): Result<string, ConvertError> {
    match ParseCreatedAt(createdAt)
    case None => Failure(MalformedCreatedAt)
    case Some(z) =>
      match ToTarget(z)
      case None => Failure(OutOfRange)
      case Some(t) => Success(FormatTimestamp(t))
  }

  // ---------------------------------------------------------------------
  // Reading a formatted timestamp back

  predicate DigitsAt(s: string, i: nat, j: nat)
    requires i <= j <= |s|
  {
    AllDigits(s[i..j])
  }

  /** The inverse of FormatTimestamp: the fields of a 27-character timestamp. */
  function ParseTimestamp(s: string): (r: Option<DateTime>)
    ensures r.Some? ==> Valid(r.value)
  {
    if |s| == 27 && DigitsAt(s, 0, 4) && s[4] == '-' && DigitsAt(s, 5, 7) && s[7] == '-'
       && DigitsAt(s, 8, 10) && s[10] == 'T' && DigitsAt(s, 11, 13) && s[13] == ':'
       && DigitsAt(s, 14, 16) && s[16] == ':' && DigitsAt(s, 17, 19) && s[19..] == ".000000Z"
    then
      var t := DateTime(Date(ValueOf(s[0..4]), ValueOf(s[5..7]), ValueOf(s[8..10])),
                        ValueOf(s[11..13]), ValueOf(s[14..16]), ValueOf(s[17..19]));
      if Valid(t) then Some(t) else None
    else None
  }

  lemma FormatTimestampFields(t: DateTime)
    requires Valid(t)
    ensures var s := FormatTimestamp(t);
      s[0..4] == Digits(t.date.year, 4) && s[4] == '-' && s[5..7] == Pad2(t.date.month)
      && s[7] == '-' && s[8..10] == Pad2(t.date.day) && s[10] == 'T'
      && s[11..13] == Pad2(t.hour) && s[13] == ':' && s[14..16] == Pad2(t.minute)
      && s[16] == ':' && s[17..19] == Pad2(t.second)
  {
  }

  /** Reading a formatted timestamp gives back the date-time it was made from. */
  lemma ParseFormat(t: DateTime)
    requires Valid(t)
    ensures ParseTimestamp(FormatTimestamp(t)) == Some(t)
  {
    var s := FormatTimestamp(t);
    FormatTimestampFields(t);
    ValueOfDigits(t.date.year, 4);
    ValueOfDigits(t.date.month, 2);
    ValueOfDigits(t.date.day, 2);
    ValueOfDigits(t.hour, 2);
    ValueOfDigits(t.minute, 2);
    ValueOfDigits(t.second, 2);
    assert DigitsAt(s, 0, 4) && DigitsAt(s, 5, 7) && DigitsAt(s, 8, 10);
    assert DigitsAt(s, 11, 13) && DigitsAt(s, 14, 16) && DigitsAt(s, 17, 19);
    var u := DateTime(Date(ValueOf(s[0..4]), ValueOf(s[5..7]), ValueOf(s[8..10])),
                      ValueOf(s[11..13]), ValueOf(s[14..16]), ValueOf(s[17..19]));
    assert u == t;
  }

  /** Every timestamp that can be read is exactly the formatting of what it reads as. */
  lemma FormatParse(s: string)
    requires ParseTimestamp(s).Some?
    ensures FormatTimestamp(ParseTimestamp(s).value) == s
  {
    var t := ParseTimestamp(s).value;
    FormatTimestampFields(t);
    DigitsOfValue(s[0..4]);
    DigitsOfValue(s[5..7]);
    DigitsOfValue(s[8..10]);
    DigitsOfValue(s[11..13]);
    DigitsOfValue(s[14..16]);
    DigitsOfValue(s[17..19]);
    var f := FormatTimestamp(t);
    assert f[19..] == s[19..];
    assert forall i | 0 <= i < 27 :: f[i] == s[i] by {
      forall i | 0 <= i < 27 ensures f[i] == s[i] {
        if i < 4 { assert f[i] == f[0..4][i]; assert s[i] == s[0..4][i]; }
        else if 5 <= i < 7 { assert f[i] == f[5..7][i - 5]; assert s[i] == s[5..7][i - 5]; }
        else if 8 <= i < 10 { assert f[i] == f[8..10][i - 8]; assert s[i] == s[8..10][i - 8]; }
        else if 11 <= i < 13 { assert f[i] == f[11..13][i - 11]; assert s[i] == s[11..13][i - 11]; }
        else if 14 <= i < 16 { assert f[i] == f[14..16][i - 14]; assert s[i] == s[14..16][i - 14]; }
        else if 17 <= i < 19 { assert f[i] == f[17..19][i - 17]; assert s[i] == s[17..19][i - 17]; }
        else if i >= 19 { assert f[i] == f[19..][i - 19]; assert s[i] == s[19..][i - 19]; }
      }
    }
  }

  // ---------------------------------------------------------------------
  // The conversion keeps the instant

  /** The converted time denotes, at +08:00, the instant `created_at` denotes at its own offset. */
  lemma ToTargetKeepsInstant(z: Zoned)
    requires ValidZoned(z) && ToTarget(z).Some?
    ensures Instant(ToTarget(z).value, TargetOffset) == Instant(z.local, z.offset)
  {
    AddSecondsInstant(z.local, -z.offset, 0);
    AddSecondsInstant(UtcOf(z), TargetOffset, TargetOffset);
  }

  /**
   * Whenever the UTC reading of the instant lies within years 1..9999, the
   * conversion gives THE +08:00 reading: any valid date-time denoting the
   * same instant at +08:00 is what it returns.
   */
  lemma ToTargetUnique(z: Zoned, t: DateTime)
    requires ValidZoned(z) && Valid(t) && InRange(UtcOf(z))
    requires Instant(t, TargetOffset) == Instant(z.local, z.offset)
    ensures ToTarget(z) == Some(t)
  {
    var shifted := AddSeconds(UtcOf(z), TargetOffset);
    AddSecondsInstant(z.local, -z.offset, 0);
    AddSecondsInstant(UtcOf(z), TargetOffset, TargetOffset);
    InstantInjective(shifted, t, TargetOffset);
  }

  /**
   * A timestamp is produced exactly when created_at parses and its instant
   * has both a UTC and a +08:00 reading within years 1..9999.  It reads
   * back as the +08:00 wall-clock time of that instant; read the way its
   * trailing 'Z' says, as UTC, it names an instant eight hours later.
   */
  lemma DiscordTimestampMeaning(createdAt: string)
    ensures DiscordTimestamp(createdAt).Success?
        <==> ParseCreatedAt(createdAt).Some? && ToTarget(ParseCreatedAt(createdAt).value).Some?
    ensures DiscordTimestamp(createdAt).Success? ==>
      var z := ParseCreatedAt(createdAt).value;
      var s := DiscordTimestamp(createdAt).value;
      ParseTimestamp(s).Some?
      && Instant(ParseTimestamp(s).value, TargetOffset) == Instant(z.local, z.offset)
      && Instant(ParseTimestamp(s).value, 0) == Instant(z.local, z.offset) + TargetOffset
  {
    if DiscordTimestamp(createdAt).Success? {
      var z := ParseCreatedAt(createdAt).value;
      var t := ToTarget(z).value;
      ToTargetKeepsInstant(z);
      ParseFormat(t);
    }
  }

  lemma Pad2Example(n: nat)
    requires n < 100
    ensures Pad2(n) == [DigitChar(n / 10), DigitChar(n % 10)]
  {
    assert Digits(n, 2) == Digits(n / 10, 1) + [DigitChar(n % 10)];
    assert Digits(n / 10, 1) == Digits(n / 10 / 10, 0) + [DigitChar((n / 10) % 10)];
  }

  lemma ExampleDigits()
    ensures Digits(2024, 4) == "2024" && Digits(0, 6) == "000000"
    ensures Pad2(0) == "00" && Pad2(1) == "01" && Pad2(2) == "02" && Pad2(4) == "04"
    ensures Pad2(5) == "05" && Pad2(15) == "15" && Pad2(23) == "23"
  {
    Pad2Example(0);
    Pad2Example(1);
    Pad2Example(2);
    Pad2Example(4);
    Pad2Example(5);
    Pad2Example(15);
    Pad2Example(23);
  }

  lemma ExampleRender()
    ensures Render(0, Zoned(DateTime(Date(2024, 1, 2), 15, 4, 5), 0)) == "Mon Jan 02 15:04:05 +0000 2024"
  {
    ExampleDigits();
    var r := Render(0, Zoned(DateTime(Date(2024, 1, 2), 15, 4, 5), 0));
    var off := RenderOffset(0);
    assert off == "+" + (Pad2(0) + (Pad2(0) + []));
    var day, hh, mm, ss, yy := Pad2(2), Pad2(15), Pad2(4), Pad2(5), Digits(2024, 4);
    assert r == "Mon" + (" " + ("Jan" + (" " + (day + (" " + (hh + (":" + (mm + (":" + (ss
      + (" " + (off + (" " + yy)))))))))))));
    RenderLiteral(day, hh, mm, ss, off, yy, r);
  }

  lemma RenderLiteral(day: string, hh: string, mm: string, ss: string, off: string, yy: string, r: string)
    requires day == "02" && hh == "15" && mm == "04" && ss == "05" && off == "+0000" && yy == "2024"
    requires r == "Mon" + (" " + ("Jan" + (" " + (day + (" " + (hh + (":" + (mm + (":" + (ss
      + (" " + (off + (" " + yy)))))))))))))
    ensures r == "Mon Jan 02 15:04:05 +0000 2024"
  {
  }

  lemma ExampleParse()
    ensures ParseCreatedAt("Mon Jan 02 15:04:05 +0000 2024")
         == Some(Zoned(DateTime(Date(2024, 1, 2), 15, 4, 5), 0))
  {
    ExampleRender();
    ParseRender(0, Zoned(DateTime(Date(2024, 1, 2), 15, 4, 5), 0));
  }

  lemma ExampleShift()
    ensures ToTarget(Zoned(DateTime(Date(2024, 1, 2), 15, 4, 5), 0))
         == Some(DateTime(Date(2024, 1, 2), 23, 4, 5))
  {
    var local := DateTime(Date(2024, 1, 2), 15, 4, 5);
    assert AddSeconds(local, 0) == local;
    assert AddSeconds(local, TargetOffset) == DateTime(Date(2024, 1, 2), 23, 4, 5);
  }

  lemma ExampleFormat()
    ensures FormatTimestamp(DateTime(Date(2024, 1, 2), 23, 4, 5)) == "2024-01-02T23:04:05.000000Z"
  {
    ExampleDigits();
    var y, mo, d, h, mi, se, f := Digits(2024, 4), Pad2(1), Pad2(2), Pad2(23), Pad2(4), Pad2(5), Digits(0, 6);
    var r := FormatTimestamp(DateTime(Date(2024, 1, 2), 23, 4, 5));
    assert r == y + "-" + mo + "-" + d + "T" + h + ":" + mi + ":" + se + "." + f + "Z";
    FormatLiteral(y, mo, d, h, mi, se, f, r);
  }

  lemma FormatLiteral(y: string, mo: string, d: string, h: string, mi: string, se: string, f: string, r: string)
    requires y == "2024" && mo == "01" && d == "02" && h == "23" && mi == "04" && se == "05" && f == "000000"
    requires r == y + "-" + mo + "-" + d + "T" + h + ":" + mi + ":" + se + "." + f + "Z"
    ensures r == "2024-01-02T23:04:05.000000Z"
  {
  }

  /** The feed's own example: no carry, the clock moves on eight hours. */
  lemma ExampleConversion()
    ensures DiscordTimestamp("Mon Jan 02 15:04:05 +0000 2024") == Success("2024-01-02T23:04:05.000000Z")
  {
    ExampleParse();
    ExampleShift();
    ExampleFormat();
  }
}
