/** The text form of a Meal's `date` field (model.py:33-34): written with
    `strftime('%Y-%m-%d %H:%M')` and read back with `strptime` under the same
    format. The reader follows strptime's field patterns: a year of exactly four
    digits, a month, day, hour and minute of one or two digits within range (a
    day may also be a space and one digit), one or more whitespace characters
    for the space, and nothing left over; the date must then exist. */
module DateText {
  import opened Values

  /** A date and time to the minute. */
  datatype DateTime = DateTime(year: int, month: int, day: int, hour: int, minute: int)

  predicate IsLeap(y: int)
  {
    y % 4 == 0 && (y % 100 != 0 || y % 400 == 0)
  }

  function DaysIn(y: int, m: int): int
  {
    if m == 2 then (if IsLeap(y) then 29 else 28)
    else if m == 4 || m == 6 || m == 9 || m == 11 then 30
    else 31
  }

  /** A value Python's `datetime` accepts. */
  predicate Valid(d: DateTime)
  {
    && 1 <= d.year <= 9999
    && 1 <= d.month <= 12
    && 1 <= d.day <= DaysIn(d.year, d.month)
    && 0 <= d.hour < 24
    && 0 <= d.minute < 60
  }

  // ---------------------------------------------------------------------------
  // Digits

  predicate IsDigit(c: char)
  {
    '0' <= c <= '9'
  }

  function Val(c: char): int
  {
    c as int - '0' as int
  }

  function Digit(n: int): (c: char)
    requires 0 <= n < 10
    ensures IsDigit(c) && Val(c) == n
  {
    ('0' as int + n) as char
  }

  /** `%H`-style zero-padded two digits. */
  function Two(n: int): (s: string)
    requires 0 <= n < 100
  {
    [Digit(n / 10), Digit(n % 10)]
  }

  /** Decimal without padding, as the C library writes `%Y`. */
  function Dec(n: nat): string
    decreases n
  {
    if n < 10 then [Digit(n)] else Dec(n / 10) + [Digit(n % 10)]
  }

  predicate AllDigits(s: string)
  {
    forall i :: 0 <= i < |s| ==> IsDigit(s[i])
  }

  /** The number a run of digits spells. */
  function Value(s: string): int
  {
    if |s| == 0 then 0 else Value(s[..|s| - 1]) * 10 + Val(s[|s| - 1])
  }

  predicate IsSpace(c: char)
  {
    c == ' ' || 9 <= c as int <= 13
  }

  // ---------------------------------------------------------------------------
  // Writing

  /** `date.strftime('%Y-%m-%d %H:%M')`. */
  function Format(d: DateTime): string
    requires Valid(d)
  {
    Dec(d.year) + "-" + Two(d.month) + "-" + Two(d.day) + " " + Two(d.hour) + ":" + Two(d.minute)
  }

  // ---------------------------------------------------------------------------
  // Reading: one matcher per field, each giving the value and the rest

  type Field = Option<(int, string)>

  /** `\d\d\d\d` */
  function YearField(s: string): Field
  {
    if |s| >= 4 && AllDigits(s[..4]) then Some((Value(s[..4]), s[4..])) else None
  }

  /** `1[0-2]|0[1-9]|[1-9]` */
  function MonthField(s: string): Field
  {
    if |s| >= 2 && s[0] == '1' && '0' <= s[1] <= '2' then Some((10 + Val(s[1]), s[2..]))
    else if |s| >= 2 && s[0] == '0' && '1' <= s[1] <= '9' then Some((Val(s[1]), s[2..]))
    else if |s| >= 1 && '1' <= s[0] <= '9' then Some((Val(s[0]), s[1..]))
    else None
  }

  /** `3[01]|[12]\d|0[1-9]|[1-9]| [1-9]` */
  function DayField(s: string): Field
  {
    if |s| >= 2 && s[0] == '3' && '0' <= s[1] <= '1' then Some((30 + Val(s[1]), s[2..]))
    else if |s| >= 2 && '1' <= s[0] <= '2' && IsDigit(s[1]) then Some((10 * Val(s[0]) + Val(s[1]), s[2..]))
    else if |s| >= 2 && s[0] == '0' && '1' <= s[1] <= '9' then Some((Val(s[1]), s[2..]))
    else if |s| >= 1 && '1' <= s[0] <= '9' then Some((Val(s[0]), s[1..]))
    else if |s| >= 2 && s[0] == ' ' && '1' <= s[1] <= '9' then Some((Val(s[1]), s[2..]))
    else None
  }

  /** `2[0-3]|[0-1]\d|\d` */
  function HourField(s: string): Field
  {
    if |s| >= 2 && s[0] == '2' && '0' <= s[1] <= '3' then Some((20 + Val(s[1]), s[2..]))
    else if |s| >= 2 && '0' <= s[0] <= '1' && IsDigit(s[1]) then Some((10 * Val(s[0]) + Val(s[1]), s[2..]))
    else if |s| >= 1 && IsDigit(s[0]) then Some((Val(s[0]), s[1..]))
    else None
  }

  /** `[0-5]\d|\d` */
  function MinuteField(s: string): Field
  {
    if |s| >= 2 && '0' <= s[0] <= '5' && IsDigit(s[1]) then Some((10 * Val(s[0]) + Val(s[1]), s[2..]))
    else if |s| >= 1 && IsDigit(s[0]) then Some((Val(s[0]), s[1..]))
    else None
  }

  /** One literal character. */
  function Lit(c: char, s: string): Option<string>
  {
    if |s| > 0 && s[0] == c then Some(s[1..]) else None
  }

  function SkipSpaces(s: string): (r: string)
    ensures |r| <= |s|
  {
    if |s| > 0 && IsSpace(s[0]) then SkipSpaces(s[1..]) else s
  }

  /** `\s+` */
  function Spaces(s: string): Option<string>
  {
    if |s| > 0 && IsSpace(s[0]) then Some(SkipSpaces(s[1..])) else None
  }

  /** `datetime.strptime(s, '%Y-%m-%d %H:%M')`; None where it raises ValueError. */
  function Parse(s: string): (r: Option<DateTime>)
    ensures r.Some? ==> Valid(r.value)
  {
    match YearField(s)
    case None => None
    case Some((y, s1)) =>
      match Lit('-', s1)
      case None => None
      case Some(s2) =>
        match MonthField(s2)
        case None => None
        case Some((m, s3)) =>
          match Lit('-', s3)
          case None => None
          case Some(s4) =>
            match DayField(s4)
            case None => None
            case Some((d, s5)) =>
              match Spaces(s5)
              case None => None
              case Some(s6) =>
                match HourField(s6)
                case None => None
                case Some((h, s7)) =>
                  match Lit(':', s7)
                  case None => None
                  case Some(s8) =>
                    match MinuteField(s8)
                    case None => None
                    case Some((mi, s9)) =>
                      var dt := DateTime(y, m, d, h, mi);
                      if s9 == [] && Valid(dt) then Some(dt) else None
  }

  // ---------------------------------------------------------------------------
  // Round trips

  lemma {:induction false} DecDigits(n: nat)
    ensures AllDigits(Dec(n)) && Value(Dec(n)) == n
    ensures n < 10000 ==> |Dec(n)| == if n < 10 then 1 else if n < 100 then 2 else if n < 1000 then 3 else 4
    decreases n
  {
    if n >= 10 {
      DecDigits(n / 10);
      var s := Dec(n);
      assert s[..|s| - 1] == Dec(n / 10);
    }
  }

  lemma YearBack(y: int, rest: string)
    requires 1000 <= y <= 9999
    ensures YearField(Dec(y) + rest) == Some((y, rest))
  {
    DecDigits(y);
    assert (Dec(y) + rest)[..4] == Dec(y);
    assert (Dec(y) + rest)[4..] == rest;
  }

  lemma MonthBack(m: int, rest: string)
    requires 1 <= m <= 12
    ensures MonthField(Two(m) + rest) == Some((m, rest))
  {
    assert (Two(m) + rest)[2..] == rest;
  }

  lemma DayBack(d: int, rest: string)
    requires 1 <= d <= 31
    ensures DayField(Two(d) + rest) == Some((d, rest))
  {
    assert (Two(d) + rest)[2..] == rest;
  }

  lemma HourBack(h: int, rest: string)
    requires 0 <= h < 24
    ensures HourField(Two(h) + rest) == Some((h, rest))
  {
    assert (Two(h) + rest)[2..] == rest;
  }

  lemma MinuteBack(mi: int)
    requires 0 <= mi < 60
    ensures MinuteField(Two(mi)) == Some((mi, []))
  {
    assert Two(mi)[2..] == [];
  }

  /** Reading back what was written gives the same date and time, for every
      four-digit year. */
  lemma ParseFormat(d: DateTime)
    requires Valid(d) && d.year >= 1000
    ensures Parse(Format(d)) == Some(d)
  {
    var r8 := Two(d.minute);
    var r7 := ":" + r8;
    var r6 := Two(d.hour) + r7;
    var r5 := " " + r6;
    var r4 := Two(d.day) + r5;
    var r3 := "-" + r4;
    var r2 := Two(d.month) + r3;
    var r1 := "-" + r2;
    assert Format(d) == Dec(d.year) + r1;
    YearBack(d.year, r1);
    MonthBack(d.month, r3);
    DayBack(d.day, r5);
    assert SkipSpaces(r6) == r6;
    HourBack(d.hour, r7);
    MinuteBack(d.minute);
  }

  /** A year below 1000 is written with fewer than four digits, which the
      reader refuses: such a date does not survive a round trip. */
  lemma FormatShortYear(d: DateTime)
    requires Valid(d) && d.year < 1000
    ensures Parse(Format(d)) == None
  {
    DecDigits(d.year);
    var s := Format(d);
    var n := |Dec(d.year)|;
    assert s[n] == '-';
    if |s| >= 4 {
      assert s[..4][n] == '-';
    }
  }

  /** `datetime(2010, 11, 22, 22, 59)` is written as `2010-11-22 22:59` and read
      back unchanged (tests/test_marshalling.py:15-17, 123-136). */
  lemma MarshallingExample()
    ensures Format(DateTime(2010, 11, 22, 22, 59)) == "2010-11-22 22:59"
    ensures Parse("2010-11-22 22:59") == Some(DateTime(2010, 11, 22, 22, 59))
  {
    var d := DateTime(2010, 11, 22, 22, 59);
    assert Dec(2010) == "2010" by {
      assert Dec(2) == "2";
      assert Dec(20) == "2" + "0";
      assert Dec(201) == "20" + "1";
    }
    assert Two(11) == "11" && Two(22) == "22" && Two(59) == "59";
    assert "2010" + "-" == "2010-";
    assert "2010-" + "11" == "2010-11";
    assert "2010-11" + "-" == "2010-11-";
    assert "2010-11-" + "22" == "2010-11-22";
    assert "2010-11-22" + " " == "2010-11-22 ";
    assert "2010-11-22 " + "22" == "2010-11-22 22";
    assert "2010-11-22 22" + ":" == "2010-11-22 22:";
    assert "2010-11-22 22:" + "59" == "2010-11-22 22:59";
    ParseFormat(d);
  }

  /** `2010-10-2023:59` is refused: after the day `20` the reader needs
      whitespace and finds `2` (tests/test_marshalling.py:46-47). */
  lemma MalformedExample()
    ensures Parse("2010-10-2023:59") == None
  {
    var s := "2010-10-2023:59";
    assert s[..4] == "2010";
    assert s[4..] == "-10-2023:59";
    assert "-10-2023:59"[1..] == "10-2023:59";
    assert "10-2023:59"[2..] == "-2023:59";
    assert "-2023:59"[1..] == "2023:59";
    assert "2023:59"[2..] == "23:59";
  }
}
