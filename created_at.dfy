/**
 * Reading a post's `created_at` field with the format
 * '%a %b %d %H:%M:%S %z %Y', following the rules Python's strptime applies
 * to it: English day and month abbreviations matched without regard to
 * case, one or more white-space characters wherever the format has a space,
 * one- or two-digit numeric fields, a numeric UTC offset (or `Z`), exactly
 * four year digits at the very end, and the range checks that
 * `datetime` and `timezone` make afterwards.  The weekday is read but does
 * not take part in the result.
 */
module CreatedAt {
  import opened Wrappers
  import opened Civil
  import opened Decimal

  /** Wall-clock fields together with the offset (seconds east of UTC) they were written in. */
  datatype Zoned = Zoned(local: DateTime, offset: int)

  /** One field read off the front of the input, and what is left after it. */
  datatype Token = Token(value: int, rest: string)

  /** The names as they are written, and the lower-case keys they are matched by. */
  const WeekdayNames: seq<string> := ["Mon", "Tue", "Wed", "Thu", "Fri", "Sat", "Sun"]
  const WeekdayKeys: seq<string> := ["mon", "tue", "wed", "thu", "fri", "sat", "sun"]
  const MonthNames: seq<string> :=
    ["Jan", "Feb", "Mar", "Apr", "May", "Jun", "Jul", "Aug", "Sep", "Oct", "Nov", "Dec"]
  const MonthKeys: seq<string> :=
    ["jan", "feb", "mar", "apr", "may", "jun", "jul", "aug", "sep", "oct", "nov", "dec"]

  /** A UTC offset must lie strictly between minus one day and one day. */
  predicate ValidOffset(offset: int) {
    -SecondsPerDay < offset < SecondsPerDay
  }

  predicate ValidZoned(z: Zoned) {
    Valid(z.local) && ValidOffset(z.offset)
  }

  /** The white-space characters `\s` stands for, restricted to ASCII (U+001C..U+001F included). */
  predicate IsSpace(c: char) {
    c == ' ' || c == '\t' || c == '\n' || c == '\r' || c == '\U{000B}' || c == '\U{000C}'
    || c == '\U{001C}' || c == '\U{001D}' || c == '\U{001E}' || c == '\U{001F}'
  }

  function Lower(c: char): char {
    if 'A' <= c <= 'Z' then (c as int + 32) as char else c
  }

  function LowerAll(s: string): (r: string)
    ensures |r| == |s|
  {
    if s == [] then [] else [Lower(s[0])] + LowerAll(s[1..])
  }

  /** The position of the first of `keys` equal to `key`. */
  function Find(key: string, keys: seq<string>): (r: Option<nat>)
    ensures r.Some? ==> r.value < |keys| && keys[r.value] == key
    ensures r.Some? ==> forall j :: 0 <= j < r.value ==> keys[j] != key
    ensures r.None? ==> key !in keys
  {
    if keys == [] then None
    else if keys[0] == key then Some(0)
    else match Find(key, keys[1..])
      case None => None
      case Some(i) => Some(i + 1)
  }

  /** A three-letter name at the front of `s`, ignoring case, as its position in `keys`. */
  function Name(s: string, keys: seq<string>): Option<Token> {
    if |s| < 3 then None
    else match Find(LowerAll(s[..3]), keys)
      case None => None
      case Some(i) => Some(Token(i, s[3..]))
  }

  function DropSpaces(s: string): (r: string)
    ensures |r| <= |s| && (r == [] || !IsSpace(r[0]))
  {
    if s != [] && IsSpace(s[0]) then DropSpaces(s[1..]) else s
  }

  /** One or more white-space characters: `\s+`, which takes as many as there are. */
  function Spaces(s: string): Option<string> {
    if s != [] && IsSpace(s[0]) then Some(DropSpaces(s)) else None
  }

  function Literal(c: char, s: string): Option<string> {
    if s != [] && s[0] == c then Some(s[1..]) else None
  }

  /**
   * A one- or two-digit field (%d, %H, %M, %S): two digits when two are
   * there.  The field's own range is checked once the whole string is read.
   */
  function Field(s: string): Option<Token> {
    if |s| >= 2 && IsDigit(s[0]) && IsDigit(s[1]) then Some(Token(ValueOf(s[..2]), s[2..]))
    else if |s| >= 1 && IsDigit(s[0]) then Some(Token(ValueOf(s[..1]), s[1..]))
    else None
  }

  /** Two digits of which the first is 0 to 5, as in minutes and seconds of an offset. */
  predicate SexagesimalAt(s: string) {
    |s| >= 2 && '0' <= s[0] <= '5' && IsDigit(s[1])
  }

  /**
   * The %z field: `Z`, or a sign, two hour digits, an optional colon, two
   * minute digits, and optionally a second colon-or-not and two second
   * digits.  When seconds are present the two colons must both be there or
   * both be missing (strptime rejects a mixed form).
   */
  function Offset(s: string): Option<Token> {
    if s != [] && s[0] == 'Z' then Some(Token(0, s[1..]))
    else if |s| >= 3 && (s[0] == '+' || s[0] == '-') && IsDigit(s[1]) && IsDigit(s[2]) then
      var negative := s[0] == '-';
      var hours := ValueOf(s[1..3]);
      var r0 := s[3..];
      var colon := r0 != [] && r0[0] == ':';
      var r1 := if colon then r0[1..] else r0;
      if !SexagesimalAt(r1) then None
      else
        var minutes := ValueOf(r1[..2]);
        var r2 := r1[2..];
        var colon2 := r2 != [] && r2[0] == ':';
        var r3 := if colon2 then r2[1..] else r2;
        if SexagesimalAt(r3) then
          if colon != colon2 then None
          else Some(Token(Signed(negative, hours * 3600 + minutes * 60 + ValueOf(r3[..2])), r3[2..]))
        else Some(Token(Signed(negative, hours * 3600 + minutes * 60), r2))
    else None
  }

  function Signed(negative: bool, magnitude: int): int {
    if negative then -magnitude else magnitude
  }

  /** The %Y field, the last of the format: exactly four digits and nothing after them. */
  function Year(s: string): Option<int> {
    if |s| == 4 && AllDigits(s) then Some(ValueOf(s)) else None
  }

  /** The wall-clock part `%H:%M:%S`. */
  datatype Clock = Clock(hour: int, minute: int, second: int, rest: string)

  function ClockFields(s: string): Option<Clock> {
    var hour :- Field(s);
    var s1 :- Literal(':', hour.rest);
    var minute :- Field(s1);
    var s2 :- Literal(':', minute.rest);
    var second :- Field(s2);
    Some(Clock(hour.value, minute.value, second.value, second.rest))
  }

  /** The tail `%z %Y`, which must end the string. */
  datatype ZoneYear = ZoneYear(offset: int, year: int)

  function ZoneAndYear(s: string): Option<ZoneYear> {
    var offset :- Offset(s);
    var s1 :- Spaces(offset.rest);
    var year :- Year(s1);
    Some(ZoneYear(offset.value, year))
  }

  /** datetime.strptime(s, '%a %b %d %H:%M:%S %z %Y'); None where it raises ValueError. */
  function ParseCreatedAt(s: string): (r: Option<Zoned>)
    ensures r.Some? ==> ValidZoned(r.value)
  {
    var weekday :- Name(s, WeekdayKeys);
    var s1 :- Spaces(weekday.rest);
    var month :- Name(s1, MonthKeys);
    var s2 :- Spaces(month.rest);
    var day :- Field(s2);
    var s3 :- Spaces(day.rest);
    var clock :- ClockFields(s3);
    var s4 :- Spaces(clock.rest);
    var zone :- ZoneAndYear(s4);
    var local := DateTime(Date(zone.year, month.value + 1, day.value), clock.hour, clock.minute, clock.second);
    if Valid(local) && ValidOffset(zone.offset) then Some(Zoned(local, zone.offset)) else None
  }

  // ---------------------------------------------------------------------
  // The canonical rendering, and the proof that strptime reads it back

  function Pad2(n: nat): string
    requires n < 100
  {
    Digits(n, 2)
  }

  /** An offset as `+HHMM`, or `+HHMMSS` when it has a seconds part. */
  function RenderOffset(offset: int): string
    requires ValidOffset(offset)
  {
    var sign := if offset < 0 then "-" else "+";
    var a := if offset < 0 then -offset else offset;
    var tail := if a % 60 == 0 then [] else Pad2(a % 60);
    sign + (Pad2(a / 3600) + (Pad2((a % 3600) / 60) + tail))
  }

  /** `z` written the way the feed writes it, with weekday name number `w`. */
  function Render(w: nat, z: Zoned): string
    requires w < 7 && ValidZoned(z)
  {
    var t := z.local;
    WeekdayNames[w] + (" " + (MonthNames[t.date.month - 1] + (" " + (Pad2(t.date.day) + (" " +
      (Pad2(t.hour) + (":" + (Pad2(t.minute) + (":" + (Pad2(t.second) + (" " +
      (RenderOffset(z.offset) + (" " + Digits(t.date.year, 4))))))))))))))
  }

  lemma LowerAll3(s: string)
    requires |s| == 3
    ensures LowerAll(s) == [Lower(s[0]), Lower(s[1]), Lower(s[2])]
  {
    assert LowerAll(s[2..]) == [Lower(s[2])];
    assert s[1..][1..] == s[2..];
  }

  lemma WeekdayAtFront(w: nat, rest: string)
    requires w < 7
    ensures Name(WeekdayNames[w] + rest, WeekdayKeys) == Some(Token(w, rest))
  {
    var s := WeekdayNames[w] + rest;
    assert s[..3] == WeekdayNames[w] && s[3..] == rest;
    LowerAll3(WeekdayNames[w]);
    assert LowerAll(WeekdayNames[w]) == WeekdayKeys[w];
    if w == 0 {} else if w == 1 {} else if w == 2 {} else if w == 3 {}
    else if w == 4 {} else if w == 5 {} else {}
  }

  lemma MonthAtFront(m: nat, rest: string)
    requires m < 12
    ensures Name(MonthNames[m] + rest, MonthKeys) == Some(Token(m, rest))
  {
    var s := MonthNames[m] + rest;
    assert s[..3] == MonthNames[m] && s[3..] == rest;
    LowerAll3(MonthNames[m]);
    assert LowerAll(MonthNames[m]) == MonthKeys[m];
    if m == 0 {} else if m == 1 {} else if m == 2 {} else if m == 3 {}
    else if m == 4 {} else if m == 5 {} else if m == 6 {} else if m == 7 {}
    else if m == 8 {} else if m == 9 {} else if m == 10 {} else {}
  }

  lemma FieldAtFront(n: nat, rest: string)
    requires n < 100 && (rest == [] || !IsDigit(rest[0]))
    ensures Field(Pad2(n) + rest) == Some(Token(n, rest))
  {
    var s := Pad2(n) + rest;
    assert s[..2] == Pad2(n) && s[2..] == rest;
    ValueOfDigits(n, 2);
  }

  lemma SpaceAtFront(rest: string)
    requires rest != [] && !IsSpace(rest[0])
    ensures Spaces(" " + rest) == Some(rest)
  {
    assert (" " + rest)[1..] == rest;
    assert DropSpaces(rest) == rest;
  }

  lemma LiteralAtFront(c: char, rest: string)
    ensures Literal(c, [c] + rest) == Some(rest)
  {
    assert ([c] + rest)[1..] == rest;
  }

  lemma Pad2Sexagesimal(n: nat, rest: string)
    requires n < 60
    ensures SexagesimalAt(Pad2(n) + rest) && (Pad2(n) + rest)[..2] == Pad2(n)
    ensures (Pad2(n) + rest)[2..] == rest && ValueOf(Pad2(n)) == n
  {
    ValueOfDigits(n, 2);
    assert Pad2(n)[0] == DigitChar(n / 10);
  }

  /** The offset field `±HHMM` followed by white space. */
  lemma OffsetMinutesAtFront(negative: bool, hh: nat, mm: nat, rest: string)
    requires hh < 100 && mm < 60 && rest != [] && IsSpace(rest[0])
    ensures Offset([if negative then '-' else '+'] + (Pad2(hh) + (Pad2(mm) + rest)))
         == Some(Token(Signed(negative, hh * 3600 + mm * 60), rest))
  {
    var s := [if negative then '-' else '+'] + (Pad2(hh) + (Pad2(mm) + rest));
    ValueOfDigits(hh, 2);
    assert s[1..3] == Pad2(hh);
    assert s[3..] == Pad2(mm) + rest;
    Pad2Sexagesimal(mm, rest);
    assert !SexagesimalAt(rest);
  }

  /** The offset field `±HHMMSS` followed by white space. */
  lemma OffsetSecondsAtFront(negative: bool, hh: nat, mm: nat, ss: nat, rest: string)
    requires hh < 100 && mm < 60 && ss < 60 && rest != [] && IsSpace(rest[0])
    ensures Offset([if negative then '-' else '+'] + (Pad2(hh) + (Pad2(mm) + (Pad2(ss) + rest))))
         == Some(Token(Signed(negative, hh * 3600 + mm * 60 + ss), rest))
  {
    var s := [if negative then '-' else '+'] + (Pad2(hh) + (Pad2(mm) + (Pad2(ss) + rest)));
    ValueOfDigits(hh, 2);
    assert s[1..3] == Pad2(hh);
    assert s[3..] == Pad2(mm) + (Pad2(ss) + rest);
    Pad2Sexagesimal(mm, Pad2(ss) + rest);
    Pad2Sexagesimal(ss, rest);
  }

  lemma SplitSeconds(a: int)
    requires 0 <= a
    ensures a == (a / 3600) * 3600 + ((a % 3600) / 60) * 60 + a % 60
  {
    assert a % 3600 == ((a % 3600) / 60) * 60 + (a % 3600) % 60;
    assert (a % 3600) % 60 == a % 60 by {
      assert a == (a / 3600) * 3600 + a % 3600;
      assert a == ((a / 3600) * 60) * 60 + a % 3600;
    }
  }

  lemma OffsetAtFront(offset: int, rest: string)
    requires ValidOffset(offset) && rest != [] && IsSpace(rest[0])
    ensures Offset(RenderOffset(offset) + rest) == Some(Token(offset, rest))
  {
    var negative := offset < 0;
    var a := if negative then -offset else offset;
    var hh, mm, ss := a / 3600, (a % 3600) / 60, a % 60;
    assert hh < 100 && mm < 60 && ss < 60;
    SplitSeconds(a);
    assert Signed(negative, hh * 3600 + mm * 60 + ss) == offset;
    var sign := [if negative then '-' else '+'];
    var tail := if ss == 0 then [] else Pad2(ss);
    assert RenderOffset(offset) == sign + (Pad2(hh) + (Pad2(mm) + tail));
    if ss == 0 {
      assert RenderOffset(offset) + rest == sign + (Pad2(hh) + (Pad2(mm) + rest));
      OffsetMinutesAtFront(negative, hh, mm, rest);
    } else {
      assert RenderOffset(offset) + rest == sign + (Pad2(hh) + (Pad2(mm) + (Pad2(ss) + rest)));
      OffsetSecondsAtFront(negative, hh, mm, ss, rest);
    }
  }

  lemma YearAtFront(y: nat)
    requires y < 10000
    ensures Year(Digits(y, 4)) == Some(y)
  {
    ValueOfDigits(y, 4);
  }

  lemma ClockAtFront(h: nat, m: nat, sec: nat, rest: string)
    requires h < 100 && m < 100 && sec < 100 && rest != [] && IsSpace(rest[0])
    ensures ClockFields(Pad2(h) + (":" + (Pad2(m) + (":" + (Pad2(sec) + rest)))))
         == Some(Clock(h, m, sec, rest))
  {
    var p4 := Pad2(sec) + rest;
    var p3 := ":" + p4;
    var p2 := Pad2(m) + p3;
    var p1 := ":" + p2;
    FieldAtFront(h, p1);
    LiteralAtFront(':', p2);
    FieldAtFront(m, p3);
    LiteralAtFront(':', p4);
    FieldAtFront(sec, rest);
  }

  lemma ZoneYearAtFront(offset: int, y: nat)
    requires ValidOffset(offset) && y < 10000
    ensures ZoneAndYear(RenderOffset(offset) + (" " + Digits(y, 4))) == Some(ZoneYear(offset, y))
  {
    var yr := Digits(y, 4);
    OffsetAtFront(offset, " " + yr);
    assert yr[0] == Digits(y, 4)[0];
    SpaceAtFront(yr);
    YearAtFront(y);
  }

  /**
   * strptime reads the canonical rendering of any valid zoned time back to
   * the same fields and offset, whichever weekday name it carries.
   */
  lemma ParseRender(w: nat, z: Zoned)
    requires w < 7 && ValidZoned(z)
    ensures ParseCreatedAt(Render(w, z)) == Some(z)
  {
    var t := z.local;
    var p6 := RenderOffset(z.offset) + (" " + Digits(t.date.year, 4));
    var p5 := " " + p6;
    var q5 := Pad2(t.hour) + (":" + (Pad2(t.minute) + (":" + (Pad2(t.second) + p5))));
    var q4 := " " + q5;
    var q3 := Pad2(t.date.day) + q4;
    var q2 := " " + q3;
    var q1 := MonthNames[t.date.month - 1] + q2;
    var q0 := " " + q1;
    assert Render(w, z) == WeekdayNames[w] + q0;
    WeekdayAtFront(w, q0);
    SpaceAtFront(q1);
    MonthAtFront(t.date.month - 1, q2);
    SpaceAtFront(q3);
    FieldAtFront(t.date.day, q4);
    SpaceAtFront(q5);
    ClockAtFront(t.hour, t.minute, t.second, p5);
    assert RenderOffset(z.offset)[0] == '+' || RenderOffset(z.offset)[0] == '-';
    SpaceAtFront(p6);
    ZoneYearAtFront(z.offset, t.date.year);
  }
}
