/**
 The history cursor as text, "<time>,<id>": written by the storage layer with Go's RFC3339Nano
 layout (internal/storage/postgres/reportorderstorage/storage.go) and read back by the handler
 (internal/api/api_handler.go). The time is the date-time form of section 5.6 of RFC 3339 in UTC,
 its fraction without trailing zeros.
 */
module CursorText {
  import opened Wrappers
  import opened Orders
  import opened Sequences
  import opened Calendar
  import opened Keyset

  // ---- decimal digits ----

  predicate IsDigit(c: char) { '0' <= c <= '9' }

  function Digit(d: nat): char
    requires d < 10
  {
    ('0' as int + d) as char
  }

  predicate AllDigits(s: string) { forall i :: 0 <= i < |s| ==> IsDigit(s[i]) }

  function Value(s: string): nat
    requires AllDigits(s)
  {
    if s == "" then 0
    else Value(s[..|s| - 1]) * 10 + (s[|s| - 1] as int - '0' as int)
  }

  function Pow10(w: nat): nat { if w == 0 then 1 else 10 * Pow10(w - 1) }

  /** Exactly w digits, with leading zeros. */
  function Fixed(n: nat, w: nat): (s: string)
    ensures |s| == w && AllDigits(s)
  {
    if w == 0 then "" else Fixed(n / 10, w - 1) + [Digit(n % 10)]
  }

  lemma {:induction false} FixedValue(n: nat, w: nat)
    requires n < Pow10(w)
    ensures Value(Fixed(n, w)) == n
  {
    if w > 0 {
      FixedValue(n / 10, w - 1);
      assert Fixed(n, w)[..w - 1] == Fixed(n / 10, w - 1);
    }
  }

  /** strconv.Itoa on ids. */
  function Itoa(n: nat): (s: string)
    ensures s != "" && AllDigits(s)
  {
    if n < 10 then [Digit(n)] else Itoa(n / 10) + [Digit(n % 10)]
  }

  lemma {:induction false} ItoaValue(n: nat)
    ensures Value(Itoa(n)) == n
  {
    if n < 10 {
      assert Itoa(n)[..0] == "";
    } else {
      ItoaValue(n / 10);
      assert Itoa(n)[..|Itoa(n)| - 1] == Itoa(n / 10);
    }
  }

  /** strconv.Atoi: an optional sign and at least one digit. */
  function Atoi(s: string): Option<int> {
    if s != "" && AllDigits(s) then Some(Value(s))
    else if |s| >= 2 && AllDigits(s[1..]) && s[0] == '-' then var n: int := Value(s[1..]); Some(-n)
    else if |s| >= 2 && AllDigits(s[1..]) && s[0] == '+' then Some(Value(s[1..]))
    else None
  }

  // ---- the fraction of a second ----

  function TrimZeros(s: string): string {
    if s != "" && s[|s| - 1] == '0' then TrimZeros(s[..|s| - 1]) else s
  }

  function PadZeros(s: string, w: nat): string
    decreases w - |s|
  {
    if |s| >= w then s[..w] else PadZeros(s + "0", w)
  }

  lemma {:induction false} TrimThenPad(s: string, w: nat)
    requires |s| <= w
    ensures PadZeros(TrimZeros(s), w) == PadZeros(s, w)
    ensures AllDigits(s) ==> AllDigits(TrimZeros(s))
    ensures |TrimZeros(s)| <= |s|
    ensures TrimZeros(s) == "" ==> forall i :: 0 <= i < |s| ==> s[i] == '0'
  {
    if s != "" && s[|s| - 1] == '0' {
      var shorter := s[..|s| - 1];
      TrimThenPad(shorter, w);
      assert shorter + "0" == s;
    }
  }

  function Fraction(nano: nat): string {
    if nano == 0 then "" else "." + TrimZeros(Fixed(nano, 9))
  }

  // ---- date and time ----

  /** Time.Format(RFC3339Nano) in UTC, for years of four digits. */
  function FormatTime(c: Civil): string {
    Fixed(c.date.year, 4) + "-" + Fixed(c.date.month, 2) + "-" + Fixed(c.date.day, 2) + "T" +
    Fixed(c.hour, 2) + ":" + Fixed(c.minute, 2) + ":" + Fixed(c.second, 2) + Fraction(c.nano) + "Z"
  }

  function Number(s: string, at: nat, w: nat): Option<nat>
    requires at + w <= |s|
  {
    if AllDigits(s[at..at + w]) then Some(Value(s[at..at + w])) else None
  }

  /** The text after the seconds: nothing or a point and digits, of which nine count, then Z. */
  function ParseFraction(s: string): Option<nat> {
    if s == "Z" then Some(0)
    else if |s| >= 3 && s[0] == '.' && s[|s| - 1] == 'Z' && AllDigits(s[1..|s| - 1])
    then PadKeepsDigits(s[1..|s| - 1], 9); Some(Value(PadZeros(s[1..|s| - 1], 9)))
    else None
  }

  lemma {:induction false} PadKeepsDigits(s: string, w: nat)
    requires AllDigits(s)
    ensures AllDigits(PadZeros(s, w))
    decreases w - |s|
  {
    if |s| < w {
      PadKeepsDigits(s + "0", w);
    }
  }

  predicate Separated(s: string)
    requires |s| >= 20
  {
    s[4] == '-' && s[7] == '-' && s[10] == 'T' && s[13] == ':' && s[16] == ':'
  }

  /** time.Parse(RFC3339Nano) on texts in UTC. */
  function ParseTime(s: string): Option<Civil> {
    if |s| < 20 || !Separated(s) then None
    else
      var y, mo, d := Number(s, 0, 4), Number(s, 5, 2), Number(s, 8, 2);
      var h, mi, sec, f := Number(s, 11, 2), Number(s, 14, 2), Number(s, 17, 2), ParseFraction(s[19..]);
      if y.None? || mo.None? || d.None? || h.None? || mi.None? || sec.None? || f.None? then None
      else
        var c := Civil(Date(y.value, mo.value, d.value), h.value, mi.value, sec.value, f.value);
        if ValidCivil(c) then Some(c) else None
  }

  lemma FractionRoundTrip(nano: nat)
    requires nano < 1_000_000_000
    ensures ParseFraction(Fraction(nano) + "Z") == Some(nano)
  {
    if nano == 0 {
      assert Fraction(nano) + "Z" == "Z";
    } else {
      var nine := Fixed(nano, 9);
      assert Pow10(9) == 1_000_000_000 by {
        assert Pow10(3) == 1000;
        assert Pow10(6) == 1000 * Pow10(3);
        assert Pow10(9) == 1000 * Pow10(6);
      }
      FixedValue(nano, 9);
      TrimThenPad(nine, 9);
      assert nine[..9] == nine;
      var digits := TrimZeros(nine);
      if digits == "" {
        ZerosValue(nine);
        assert false;
      }
      var text := Fraction(nano) + "Z";
      assert text[1..|text| - 1] == digits;
    }
  }

  lemma {:induction false} ZerosValue(s: string)
    requires forall i :: 0 <= i < |s| ==> s[i] == '0'
    ensures AllDigits(s) && Value(s) == 0
  {
    if s != "" {
      ZerosValue(s[..|s| - 1]);
    }
  }

  /** The first nineteen characters, field by field. */
  lemma FormatLayout(c: Civil)
    ensures var s := FormatTime(c);
      && |s| >= 20 && Separated(s) && s[19..] == Fraction(c.nano) + "Z"
      && s[0..4] == Fixed(c.date.year, 4) && s[5..7] == Fixed(c.date.month, 2) && s[8..10] == Fixed(c.date.day, 2)
      && s[11..13] == Fixed(c.hour, 2) && s[14..16] == Fixed(c.minute, 2) && s[17..19] == Fixed(c.second, 2)
  {
    var y, mo, d := Fixed(c.date.year, 4), Fixed(c.date.month, 2), Fixed(c.date.day, 2);
    var h, mi, sec := Fixed(c.hour, 2), Fixed(c.minute, 2), Fixed(c.second, 2);
    var date, clock, end := y + "-" + mo + "-" + d, h + ":" + mi + ":" + sec, Fraction(c.nano) + "Z";
    DateParts(date, y, mo, d);
    ClockParts(clock, h, mi, sec);
    assert FormatTime(c) == date + "T" + clock + end;
    ThreeParts(FormatTime(c), date, clock, end);
  }

  lemma DateParts(date: string, y: string, mo: string, d: string)
    requires date == y + "-" + mo + "-" + d && |y| == 4 && |mo| == |d| == 2
    ensures |date| == 10 && date[4] == '-' && date[7] == '-'
    ensures date[0..4] == y && date[5..7] == mo && date[8..10] == d
  {
  }

  lemma ClockParts(clock: string, h: string, mi: string, sec: string)
    requires clock == h + ":" + mi + ":" + sec && |h| == |mi| == |sec| == 2
    ensures |clock| == 8 && clock[2] == ':' && clock[5] == ':'
    ensures clock[0..2] == h && clock[3..5] == mi && clock[6..8] == sec
  {
  }

  lemma ThreeParts(s: string, date: string, clock: string, end: string)
    requires s == date + "T" + clock + end && |date| == 10 && |clock| == 8 && |end| >= 1
    ensures |s| >= 20 && s[10] == 'T' && s[19..] == end
    ensures forall i :: 0 <= i < 10 ==> s[i] == date[i]
    ensures forall i, j :: 0 <= i <= j <= 10 ==> s[i..j] == date[i..j]
    ensures forall i :: 11 <= i < 19 ==> s[i] == clock[i - 11]
    ensures forall i, j :: 11 <= i <= j <= 19 ==> s[i..j] == clock[i - 11..j - 11]
  {
  }

  lemma TimeRoundTrip(c: Civil)
    requires ValidCivil(c) && c.date.year <= 9999
    ensures ParseTime(FormatTime(c)) == Some(c)
  {
    FormatLayout(c);
    FractionRoundTrip(c.nano);
    assert Pow10(2) == 100;
    assert Pow10(4) == 100 * Pow10(2);
    FixedValue(c.date.year, 4);
    assert c.date.day <= 31;
    FixedValue(c.date.month, 2);
    FixedValue(c.date.day, 2);
    FixedValue(c.hour, 2);
    FixedValue(c.minute, 2);
    FixedValue(c.second, 2);
  }

  // ---- the cursor ----

  function FormatCursor(k: Key): string
    requires k.time >= ZERO_TIME && k.serial >= 0
  {
    FormatTime(CivilOf(k.time)) + "," + Itoa(k.serial)
  }

  /** The handler: split at commas into exactly two parts, parse both. */
  function ParseCursor(s: string): Option<Key> {
    var parts := Split(s, ',');
    if |parts| != 2 then None
    else
      var time, id := ParseTime(parts[0]), Atoi(parts[1]);
      if time.None? || id.None? then None else Some(Key(TimeOf(time.value), id.value))
  }

  lemma {:induction false} FractionNoComma(nano: nat)
    ensures forall i :: 0 <= i < |Fraction(nano)| ==> Fraction(nano)[i] != ','
  {
    TrimThenPad(Fixed(nano, 9), 9);
  }

  lemma FormatNoComma(c: Civil)
    ensures ',' !in FormatTime(c)
  {
    FractionNoComma(c.nano);
    FormatLayout(c);
    var s := FormatTime(c);
    forall i | 0 <= i < |s| ensures s[i] != ',' {
      if i < 4 {
        assert s[i] == s[0..4][i];
      } else if 5 <= i < 7 {
        assert s[i] == s[5..7][i - 5];
      } else if 8 <= i < 10 {
        assert s[i] == s[8..10][i - 8];
      } else if 11 <= i < 13 {
        assert s[i] == s[11..13][i - 11];
      } else if 14 <= i < 16 {
        assert s[i] == s[14..16][i - 14];
      } else if 17 <= i < 19 {
        assert s[i] == s[17..19][i - 17];
      } else if 19 <= i {
        assert s[i] == s[19..][i - 19];
      }
    }
  }

  /** Writing a cursor and reading it back gives the same pair, for every time up to the year 9999. */
  lemma CursorRoundTrip(k: Key)
    requires k.time >= ZERO_TIME && k.serial >= 0
    requires CivilOf(k.time).date.year <= 9999
    ensures ParseCursor(FormatCursor(k)) == Some(k)
  {
    var c := CivilOf(k.time);
    CivilRoundTrip(k.time);
    TimeRoundTrip(c);
    ItoaValue(k.serial);
    FormatNoComma(c);
    SplitPair(FormatTime(c), Itoa(k.serial), ',');
  }

  /** The fraction does not end in a zero, and an id does not begin with one. */
  lemma ShortestText(nano: nat, n: nat)
    requires 0 < nano < 1_000_000_000 && n >= 1
    ensures var f := Fraction(nano); |f| >= 1 && f[0] == '.' && f[|f| - 1] != '0'
    ensures Itoa(n)[0] != '0'
  {
    TrimEnds(Fixed(nano, 9));
    ItoaBegins(n);
  }

  lemma {:induction false} TrimEnds(s: string)
    ensures var t := TrimZeros(s); t != "" ==> t[|t| - 1] != '0'
  {
    if s != "" && s[|s| - 1] == '0' {
      TrimEnds(s[..|s| - 1]);
    }
  }

  lemma {:induction false} ItoaBegins(n: nat)
    requires n >= 1
    ensures Itoa(n)[0] != '0'
  {
    if n >= 10 {
      ItoaBegins(n / 10);
    }
  }
}
