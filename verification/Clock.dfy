/** UTC timestamps as the harness stores them: the fields of a `datetime`, the instant they denote, and the text
    `isoformat()` writes into the database. */
module Clock {
  import opened Numerals
  import opened Order

  datatype Fields = Fields(year: nat, month: nat, day: nat, hour: nat, minute: nat, second: nat, micro: nat)

  predicate IsLeap(year: nat) {
    year % 4 == 0 && (year % 100 != 0 || year % 400 == 0)
  }

  function DaysInMonth(year: nat, month: nat): nat {
    if month == 2 then (if IsLeap(year) then 29 else 28)
    else if month in {4, 6, 9, 11} then 30
    else 31
  }

  /** The ranges `datetime` enforces. */
  predicate InRange(f: Fields) {
    && 1 <= f.year <= 9999 && 1 <= f.month <= 12 && 1 <= f.day <= DaysInMonth(f.year, f.month)
    && f.hour < 24 && f.minute < 60 && f.second < 60 && f.micro < 1_000_000
  }

  type UtcTime = f: Fields | InRange(f) witness Fields(1, 1, 1, 0, 0, 0, 0)

  /** Days of the proleptic Gregorian calendar before the first of January of `year`. */
  function DaysBeforeYear(year: nat): nat
    requires year >= 1
  {
    (year - 1) * 365 + LeapsBy(year - 1)
  }

  function DaysBeforeMonth(year: nat, month: nat): nat
    requires 1 <= month <= 13
    decreases month
  {
    if month == 1 then 0 else DaysBeforeMonth(year, month - 1) + DaysInMonth(year, month - 1)
  }

  function Day(t: UtcTime): nat {
    DaysBeforeYear(t.year) + DaysBeforeMonth(t.year, t.month) + t.day
  }

  function TimeOfDay(t: UtcTime): nat {
    ((t.hour * 60 + t.minute) * 60 + t.second) * 1_000_000 + t.micro
  }

  /** The instant t denotes, in microseconds. */
  function Instant(t: UtcTime): nat {
    Day(t) * 86_400_000_000 + TimeOfDay(t)
  }

  /** a is strictly earlier than b: the comparison `Lease.is_expired` makes. */
  predicate Before(a: UtcTime, b: UtcTime) {
    Instant(a) < Instant(b)
  }

  // ----- The instant grows with the fields, most significant first -----

  predicate DateLess(a: UtcTime, b: UtcTime) {
    a.year < b.year || (a.year == b.year && (a.month < b.month || (a.month == b.month && a.day < b.day)))
  }

  predicate TimeLess(a: UtcTime, b: UtcTime) {
    || a.hour < b.hour
    || (a.hour == b.hour && (a.minute < b.minute || (a.minute == b.minute && (a.second < b.second
    || (a.second == b.second && a.micro < b.micro)))))
  }

  predicate SameDate(a: UtcTime, b: UtcTime) {
    a.year == b.year && a.month == b.month && a.day == b.day
  }

  predicate FieldLess(a: UtcTime, b: UtcTime) {
    DateLess(a, b) || (SameDate(a, b) && TimeLess(a, b))
  }

  lemma {:induction false} DaysBeforeMonthMonotone(year: nat, m: nat, n: nat)
    requires 1 <= m < n <= 13
    ensures DaysBeforeMonth(year, m) + DaysInMonth(year, m) <= DaysBeforeMonth(year, n)
    decreases n
  {
    if m < n - 1 {
      DaysBeforeMonthMonotone(year, m, n - 1);
    }
  }

  lemma YearLength(year: nat)
    requires year >= 1
    ensures DaysBeforeMonth(year, 13) == if IsLeap(year) then 366 else 365
  {
    assert DaysBeforeMonth(year, 3) == 31 + DaysInMonth(year, 2);
    assert DaysBeforeMonth(year, 5) == DaysBeforeMonth(year, 3) + 61;
    assert DaysBeforeMonth(year, 7) == DaysBeforeMonth(year, 5) + 61;
    assert DaysBeforeMonth(year, 9) == DaysBeforeMonth(year, 7) + 62;
    assert DaysBeforeMonth(year, 11) == DaysBeforeMonth(year, 9) + 61;
    assert DaysBeforeMonth(year, 13) == DaysBeforeMonth(year, 11) + 61;
  }

  /** How many leap years end by `year`. */
  function LeapsBy(year: nat): nat {
    year / 4 - year / 100 + year / 400
  }

  lemma Fours(year: nat)
    requires year >= 1
    ensures year / 4 == (year - 1) / 4 + if year % 4 == 0 then 1 else 0
  {}

  lemma Centuries(year: nat)
    requires year >= 1
    ensures year / 100 == (year - 1) / 100 + if year % 100 == 0 then 1 else 0
  {}

  lemma Cycles(year: nat)
    requires year >= 1
    ensures year / 400 == (year - 1) / 400 + if year % 400 == 0 then 1 else 0
  {}

  lemma Multiples(year: nat)
    ensures year % 100 == 0 ==> year % 4 == 0
    ensures year % 400 == 0 ==> year % 100 == 0
  {
    if year % 100 == 0 {
      assert year == 4 * (25 * (year / 100));
    }
    if year % 400 == 0 {
      assert year == 100 * (4 * (year / 400));
    }
  }

  lemma LeapStep(year: nat)
    requires year >= 1
    ensures LeapsBy(year) == LeapsBy(year - 1) + if IsLeap(year) then 1 else 0
  {
    Fours(year);
    Centuries(year);
    Cycles(year);
    Multiples(year);
  }

  lemma NextYear(year: nat)
    requires year >= 1
    ensures DaysBeforeYear(year + 1) == DaysBeforeYear(year) + if IsLeap(year) then 366 else 365
  {
    LeapStep(year);
  }

  lemma {:induction false} DaysBeforeYearMonotone(y: nat, z: nat)
    requires 1 <= y <= z
    ensures DaysBeforeYear(y) <= DaysBeforeYear(z)
    decreases z
  {
    if y < z {
      DaysBeforeYearMonotone(y, z - 1);
      NextYear(z - 1);
    }
  }

  /** Midnights are one day apart, across the ends of months and of years. */
  lemma DaysAreConsecutive(t: UtcTime)
    ensures t.day < DaysInMonth(t.year, t.month) ==> Day(t.(day := t.day + 1)) == Day(t) + 1
    ensures t.day == DaysInMonth(t.year, t.month) && t.month < 12 ==>
            Day(t.(month := t.month + 1, day := 1)) == Day(t) + 1
    ensures t.day == DaysInMonth(t.year, t.month) && t.month == 12 && t.year < 9999 ==>
              Day(t.(year := t.year + 1, month := 1, day := 1)) == Day(t) + 1
  {
    if t.day == DaysInMonth(t.year, t.month) && t.month == 12 {
      YearLength(t.year);
      NextYear(t.year);
    }
  }

  lemma DayWithinYear(t: UtcTime)
    ensures DaysBeforeYear(t.year) < Day(t) <= DaysBeforeYear(t.year + 1)
  {
    DaysBeforeMonthMonotone(t.year, t.month, 13);
    YearLength(t.year);
    NextYear(t.year);
  }

  lemma DayGrowsWithDate(a: UtcTime, b: UtcTime)
    requires DateLess(a, b)
    ensures Day(a) < Day(b)
  {
    if a.year < b.year {
      DayWithinYear(a);
      DayWithinYear(b);
      DaysBeforeYearMonotone(a.year + 1, b.year);
    } else {
      DayGrowsWithinYear(a, b);
    }
  }

  lemma DayGrowsWithinYear(a: UtcTime, b: UtcTime)
    requires a.year == b.year && DateLess(a, b)
    ensures Day(a) < Day(b)
  {
    if a.month < b.month {
      DaysBeforeMonthMonotone(a.year, a.month, b.month);
    }
  }

  lemma TimeOfDayGrows(a: UtcTime, b: UtcTime)
    ensures TimeLess(a, b) <==> TimeOfDay(a) < TimeOfDay(b)
    ensures TimeOfDay(a) < 86_400_000_000
  {}

  /** Field order is instant order. */
  lemma FieldOrderIsInstantOrder(a: UtcTime, b: UtcTime)
    ensures FieldLess(a, b) <==> Before(a, b)
  {
    TimeOfDayGrows(a, b);
    TimeOfDayGrows(b, a);
    if DateLess(a, b) {
      DayGrowsWithDate(a, b);
    } else if DateLess(b, a) {
      DayGrowsWithDate(b, a);
    } else {
      assert SameDate(a, b);
    }
  }

  // ----- isoformat() -----

  function Pow10(n: nat): nat {
    if n == 0 then 1 else 10 * Pow10(n - 1)
  }

  function DigitChar(d: nat): char
    requires d < 10
  {
    '0' + (d as char)
  }

  /** x in decimal, padded with zeros to n digits. */
  function Digits(n: nat, x: nat): (s: string)
    ensures |s| == n
  {
    if n == 0 then "" else Digits(n - 1, x / 10) + [DigitChar(x % 10)]
  }

  lemma {:induction false} DigitsOrder(n: nat, x: nat, y: nat)
    requires x < Pow10(n) && y < Pow10(n)
    ensures LexLess(Digits(n, x), Digits(n, y)) <==> x < y
    ensures Digits(n, x) == Digits(n, y) <==> x == y
  {
    if n == 0 {
    } else {
      DigitsOrder(n - 1, x / 10, y / 10);
      var p, q := Digits(n - 1, x / 10), Digits(n - 1, y / 10);
      var c, d := [DigitChar(x % 10)], [DigitChar(y % 10)];
      LexConcat(p, q, c, d);
      assert LexLess(c, d) <==> x % 10 < y % 10;
      assert (p + c)[..n - 1] == p && (q + d)[..n - 1] == q && (p + c)[n - 1] == c[0] && (q + d)[n - 1] == d[0];
    }
  }

  function Fraction(micro: nat): string {
    if micro == 0 then "" else "." + Digits(6, micro)
  }

  function IsoSeconds(t: UtcTime): string {
    Digits(2, t.second) + (Fraction(t.micro) + ZONE)
  }

  function IsoTime(t: UtcTime): string {
    Digits(2, t.hour) + (":" + (Digits(2, t.minute) + (":" + IsoSeconds(t))))
  }

  /** `datetime.isoformat()` for a UTC value: the fraction is left out when the microseconds are zero. */
  function Iso(t: UtcTime): string {
    Digits(4, t.year) + ("-" + (Digits(2, t.month) + ("-" + (Digits(2, t.day) + ("T" + IsoTime(t))))))
  }

  lemma {:induction false} DigitsRead(n: nat, x: nat)
    requires x < Pow10(n)
    ensures AllDigits(Digits(n, x)) && NumberOf(Digits(n, x)) == x
  {
    if n == 0 {
    } else {
      DigitsRead(n - 1, x / 10);
      OneMoreDigit(Digits(n - 1, x / 10), DigitChar(x % 10));
    }
  }

  /** Characters from..to of the text are a numeral for x. */
  predicate Shows(s: string, from: nat, to: nat, x: nat) {
    from <= to <= |s| && AllDigits(s[from..to]) && NumberOf(s[from..to]) == x
  }

  predicate Tail(text: string, n: nat, s: string) {
    n <= |text| && text[n..] == s
  }

  /** A field, a separator, and the rest. */
  lemma Piece(n: nat, x: nat, c: char, rest: string)
    requires x < Pow10(n)
    ensures var s := Digits(n, x) + ([c] + rest);
            |s| == n + 1 + |rest| && Shows(s, 0, n, x) && s[n] == c && Tail(s, n + 1, rest)
  {
    DigitsRead(n, x);
    assert (Digits(n, x) + ([c] + rest))[0..n] == Digits(n, x);
  }

  /** What holds of a tail holds of the text, further on. */
  lemma TailShows(text: string, n: nat, s: string, from: nat, to: nat, x: nat)
    requires Tail(text, n, s) && Shows(s, from, to, x)
    ensures Shows(text, n + from, n + to, x)
  {
    assert text[n + from..n + to] == text[n..][from..to];
  }

  lemma TailTail(text: string, n: nat, s: string, k: nat, u: string)
    requires Tail(text, n, s) && Tail(s, k, u)
    ensures Tail(text, n + k, u)
  {
    assert text[n + k..] == text[n..][k..];
  }

  lemma SecondsRead(t: UtcTime)
    ensures var s := IsoSeconds(t);
            && |s| == (if t.micro == 0 then 8 else 15) && Shows(s, 0, 2, t.second)
            && (t.micro == 0 ==> Tail(s, 2, "+00:00"))
            && (t.micro != 0 ==> s[2] == '.' && Shows(s, 3, 9, t.micro) && Tail(s, 9, "+00:00"))
  {
    if t.micro == 0 {
      Piece(2, t.second, '+', "00:00");
      assert IsoSeconds(t) == Digits(2, t.second) + (['+'] + "00:00");
    } else {
      var rest := Digits(6, t.micro) + (['+'] + "00:00");
      Piece(6, t.micro, '+', "00:00");
      Piece(2, t.second, '.', rest);
      assert IsoSeconds(t) == Digits(2, t.second) + (['.'] + rest);
      TailShows(IsoSeconds(t), 3, rest, 0, 6, t.micro);
      assert Tail(rest, 6, "+00:00");
      TailTail(IsoSeconds(t), 3, rest, 6, "+00:00");
    }
  }

  lemma TimeReads(t: UtcTime)
    ensures var s := IsoTime(t);
            && |s| == 6 + |IsoSeconds(t)| && Shows(s, 0, 2, t.hour) && s[2] == ':' && Shows(s, 3, 5, t.minute)
            && s[5] == ':' && Tail(s, 6, IsoSeconds(t))
  {
    var rest := Digits(2, t.minute) + ([':'] + IsoSeconds(t));
    Piece(2, t.minute, ':', IsoSeconds(t));
    Piece(2, t.hour, ':', rest);
    assert IsoTime(t) == Digits(2, t.hour) + ([':'] + rest);
    TailShows(IsoTime(t), 3, rest, 0, 2, t.minute);
    TailTail(IsoTime(t), 3, rest, 3, IsoSeconds(t));
    assert IsoTime(t)[5] == IsoTime(t)[3..][2];
  }

  lemma DateReads(t: UtcTime)
    ensures var s := Iso(t);
            && |s| == 11 + |IsoTime(t)| && Shows(s, 0, 4, t.year) && s[4] == '-' && Shows(s, 5, 7, t.month)
            && s[7] == '-' && Shows(s, 8, 10, t.day) && s[10] == 'T' && Tail(s, 11, IsoTime(t))
  {
    var day := Digits(2, t.day) + (['T'] + IsoTime(t));
    var month := Digits(2, t.month) + (['-'] + day);
    Piece(2, t.day, 'T', IsoTime(t));
    Piece(2, t.month, '-', day);
    Piece(4, t.year, '-', month);
    assert Iso(t) == Digits(4, t.year) + (['-'] + month);
    TailShows(Iso(t), 5, month, 0, 2, t.month);
    TailTail(Iso(t), 5, month, 3, day);
    TailShows(Iso(t), 8, day, 0, 2, t.day);
    TailTail(Iso(t), 8, day, 3, IsoTime(t));
    assert Iso(t)[7] == Iso(t)[5..][2] && Iso(t)[10] == Iso(t)[8..][2];
  }

  lemma HourReads(t: UtcTime, s: string)
    requires Tail(s, 11, IsoTime(t))
    ensures |s| == 17 + |IsoSeconds(t)| && Shows(s, 11, 13, t.hour) && s[13] == ':' && Shows(s, 14, 16, t.minute)
    ensures s[16] == ':' && Tail(s, 17, IsoSeconds(t))
  {
    TimeReads(t);
    TailShows(s, 11, IsoTime(t), 0, 2, t.hour);
    TailShows(s, 11, IsoTime(t), 3, 5, t.minute);
    TailTail(s, 11, IsoTime(t), 6, IsoSeconds(t));
    assert s[13] == s[11..][2] && s[16] == s[11..][5];
  }

  lemma FractionReads(t: UtcTime, s: string)
    requires Tail(s, 17, IsoSeconds(t))
    ensures |s| == (if t.micro == 0 then 25 else 32) && Shows(s, 17, 19, t.second)
    ensures t.micro == 0 ==> Tail(s, 19, "+00:00")
    ensures t.micro != 0 ==> s[19] == '.' && Shows(s, 20, 26, t.micro) && Tail(s, 26, "+00:00")
  {
    SecondsRead(t);
    TailShows(s, 17, IsoSeconds(t), 0, 2, t.second);
    if t.micro == 0 {
      TailTail(s, 17, IsoSeconds(t), 2, "+00:00");
    } else {
      TailShows(s, 17, IsoSeconds(t), 3, 9, t.micro);
      TailTail(s, 17, IsoSeconds(t), 9, "+00:00");
      assert s[19] == s[17..][2];
    }
  }

  /** The text of a timestamp: year, month and day between hyphens, a T, hour, minute and second between colons, a point
      and the microseconds unless they are zero, and the offset +00:00. */
  lemma IsoReads(t: UtcTime)
    ensures var s := Iso(t);
            && |s| == (if t.micro == 0 then 25 else 32)
            && Shows(s, 0, 4, t.year) && s[4] == '-' && Shows(s, 5, 7, t.month) && s[7] == '-' && Shows(s, 8, 10, t.day)
            && s[10] == 'T' && Shows(s, 11, 13, t.hour) && s[13] == ':' && Shows(s, 14, 16, t.minute) && s[16] == ':'
            && Shows(s, 17, 19, t.second)
            && (t.micro == 0 ==> Tail(s, 19, "+00:00"))
            && (t.micro != 0 ==> s[19] == '.' && Shows(s, 20, 26, t.micro) && Tail(s, 26, "+00:00"))
  {
    DateReads(t);
    HourReads(t, Iso(t));
    FractionReads(t, Iso(t));
  }

  lemma SameHead(h: string, x: string, y: string)
    ensures LexLess(h + x, h + y) <==> LexLess(x, y)
    ensures h + x == h + y <==> x == y
  {
    LexConcat(h, h, x, y);
    if LexLess(h, h) {
      LexAsymmetric(h, h);
    }
    if h + x == h + y {
      assert (h + x)[|h|..] == x && (h + y)[|h|..] == y;
    }
  }

  /** One fixed-width field followed by a rest. */
  lemma FieldThenRest(n: nat, u: nat, v: nat, x: string, y: string)
    requires u < Pow10(n) && v < Pow10(n)
    ensures LexLess(Digits(n, u) + x, Digits(n, v) + y) <==> u < v || (u == v && LexLess(x, y))
  {
    DigitsOrder(n, u, v);
    LexConcat(Digits(n, u), Digits(n, v), x, y);
  }

  const ZONE := "+00:00"

  lemma PlusBeforeDot(micro: nat)
    requires 0 < micro < 1_000_000
    ensures LexLess(ZONE, Fraction(micro) + ZONE) && !LexLess(Fraction(micro) + ZONE, ZONE)
  {}

  lemma FractionsOrder(u: nat, v: nat)
    requires 0 < u < 1_000_000 && 0 < v < 1_000_000
    ensures LexLess(Fraction(u) + ZONE, Fraction(v) + ZONE) <==> u < v
  {
    assert Pow10(6) == 1_000_000 by { assert Pow10(3) == 1000; assert Pow10(6) == 1000 * Pow10(3); }
    assert Fraction(u) + ZONE == "." + (Digits(6, u) + ZONE);
    assert Fraction(v) + ZONE == "." + (Digits(6, v) + ZONE);
    SameHead(".", Digits(6, u) + ZONE, Digits(6, v) + ZONE);
    FieldThenRest(6, u, v, ZONE, ZONE);
    if LexLess(ZONE, ZONE) { LexAsymmetric(ZONE, ZONE); }
  }

  /** Where the number of fractional digits differs, the order survives because '+' sorts before '.'. */
  lemma FractionOrder(u: nat, v: nat)
    requires u < 1_000_000 && v < 1_000_000
    ensures LexLess(Fraction(u) + ZONE, Fraction(v) + ZONE) <==> u < v
  {
    assert Fraction(0) + ZONE == ZONE;
    if u > 0 && v > 0 {
      FractionsOrder(u, v);
    } else if u > 0 {
      PlusBeforeDot(u);
    } else if v > 0 {
      PlusBeforeDot(v);
    } else if LexLess(ZONE, ZONE) {
      LexAsymmetric(ZONE, ZONE);
    }
  }

  lemma IsoTimeOrder(a: UtcTime, b: UtcTime)
    ensures LexLess(IsoTime(a), IsoTime(b)) <==> TimeLess(a, b)
  {
    assert Pow10(2) == 100 by { assert Pow10(1) == 10; }
    FractionOrder(a.micro, b.micro);
    FieldThenRest(2, a.second, b.second, Fraction(a.micro) + ZONE, Fraction(b.micro) + ZONE);
    SameHead(":", IsoSeconds(a), IsoSeconds(b));
    FieldThenRest(2, a.minute, b.minute, ":" + IsoSeconds(a), ":" + IsoSeconds(b));
    SameHead(":", Digits(2, a.minute) + (":" + IsoSeconds(a)), Digits(2, b.minute) + (":" + IsoSeconds(b)));
    FieldThenRest(2, a.hour, b.hour, ":" + (Digits(2, a.minute) + (":" + IsoSeconds(a))),
                  ":" + (Digits(2, b.minute) + (":" + IsoSeconds(b))));
  }

  /** Comparing the stored text decides expiry exactly as comparing the instants. */
  lemma IsoOrderIsInstantOrder(a: UtcTime, b: UtcTime)
    ensures LexLess(Iso(a), Iso(b)) <==> Before(a, b)
  {
    assert Pow10(2) == 100 && Pow10(4) == 10_000 by { assert Pow10(2) == 100; assert Pow10(4) == 100 * Pow10(2); }
    IsoTimeOrder(a, b);
    var ta, tb := "T" + IsoTime(a), "T" + IsoTime(b);
    SameHead("T", IsoTime(a), IsoTime(b));
    FieldThenRest(2, a.day, b.day, ta, tb);
    var da, db := "-" + (Digits(2, a.day) + ta), "-" + (Digits(2, b.day) + tb);
    SameHead("-", Digits(2, a.day) + ta, Digits(2, b.day) + tb);
    FieldThenRest(2, a.month, b.month, da, db);
    var ma, mb := "-" + (Digits(2, a.month) + da), "-" + (Digits(2, b.month) + db);
    SameHead("-", Digits(2, a.month) + da, Digits(2, b.month) + db);
    FieldThenRest(4, a.year, b.year, ma, mb);
    assert LexLess(Iso(a), Iso(b)) <==> FieldLess(a, b);
    FieldOrderIsInstantOrder(a, b);
  }

  /** Distinct instants are stored as distinct text, so a timestamp read back is the one written. */
  lemma IsoInjective(a: UtcTime, b: UtcTime)
    ensures Iso(a) == Iso(b) <==> a == b
  {
    IsoOrderIsInstantOrder(a, b);
    IsoOrderIsInstantOrder(b, a);
    if Iso(a) == Iso(b) {
      if LexLess(Iso(a), Iso(b)) { LexAsymmetric(Iso(a), Iso(b)); }
      FieldOrderIsInstantOrder(a, b);
      FieldOrderIsInstantOrder(b, a);
    }
  }

  /** Stored texts compare, for order and for equality, as the instants they stand for. */
  lemma IsoComparesInstants(a: UtcTime, b: UtcTime)
    ensures LexLess(Iso(a), Iso(b)) <==> Instant(a) < Instant(b)
    ensures Iso(a) == Iso(b) <==> Instant(a) == Instant(b)
  {
    IsoOrderIsInstantOrder(a, b);
    if Iso(a) == Iso(b) {
      IsoInjective(a, b);
    }
    if Instant(a) == Instant(b) {
      SameInstantSameFields(a, b);
    }
  }

  lemma SameInstantSameFields(a: UtcTime, b: UtcTime)
    requires Instant(a) == Instant(b)
    ensures a == b
  {
    FieldOrderIsInstantOrder(a, b);
    FieldOrderIsInstantOrder(b, a);
  }
}
