/** Reading a `MM-DD HH:MM:SS.mmm` stamp as milliseconds into a 366-day year
    (cli/src/crashscan.rs). */
module CrashStamp {
  import opened Basics
  import opened Text
  import opened CrashClock

  const CUM_DAYS := [0, 31, 60, 91, 121, 152, 182, 213, 244, 274, 305, 335]
  const U32 := 0xFFFF_FFFF
  const USIZE := 0xFFFF_FFFF_FFFF_FFFF

  /** Up to three fractional digits, scaled to milliseconds. */
  function ParseFraction(frac: string): Option<nat> {
    var kept := if |frac| > 3 then frac[..3] else frac;
    var n := ParseUnsigned(kept, U32);
    if n.None? then None
    else Some(n.value * (if |kept| == 0 then 1000 else if |kept| == 1 then 100 else if |kept| == 2 then 10 else 1))
  }

  function ParseSeconds(part: string): Option<(nat, nat)> {
    match SplitOnce(part, '.')
    case None =>
      var s := ParseUnsigned(part, U32);
      if s.None? then None else Some((s.value, 0))
    case Some((whole, frac)) =>
      var s, ms := ParseUnsigned(whole, U32), ParseFraction(frac);
      if s.None? || ms.None? then None else Some((s.value, ms.value))
  }

  /** Month and day of `MM-DD`. */
  function ParseDate(date: string): (r: Option<(nat, nat)>)
    ensures r.Some? ==> 1 <= r.value.0 <= 12 && 1 <= r.value.1 <= 31
  {
    match SplitOnce(date, '-')
    case None => None
    case Some((m, d)) =>
      var month, day := ParseUnsigned(m, USIZE), ParseUnsigned(d, U32);
      if month.None? || day.None? || !(1 <= month.value <= 12) || !(1 <= day.value <= 31) then None
      else Some((month.value, day.value))
  }

  datatype Clock = Clock(hour: nat, minute: nat, second: nat, millis: nat)

  function ParseTime(time: string): (r: Option<Clock>)
    ensures r.Some? ==> r.value.hour <= 23 && r.value.minute <= 59 && r.value.second <= 60
  {
    var parts := Split(time, ':');
    if |parts| < 3 then None
    else
      var h, m, sec := ParseUnsigned(parts[0], U32), ParseUnsigned(parts[1], U32), ParseSeconds(parts[2]);
      if h.None? || m.None? || sec.None? || h.value > 23 || m.value > 59 || sec.value.0 > 60 then None
      else Some(Clock(h.value, m.value, sec.value.0, sec.value.1))
  }

  function ParseStamp(text: string): Option<nat> {
    match SplitOnce(Trim(text), ' ')
    case None => None
    case Some((date, time)) =>
      var d, t := ParseDate(date), ParseTime(time);
      if d.None? || t.None? then None
      else Some(Millis(Stamp(d.value.0, d.value.1, t.value.hour, t.value.minute, t.value.second, t.value.millis)))
  }

  datatype Stamp = Stamp(month: nat, day: nat, hour: nat, minute: nat, second: nat, millis: nat)

  function Millis(t: Stamp): nat
    requires 1 <= t.month <= 12 && 1 <= t.day
  {
    (CUM_DAYS[t.month - 1] + t.day - 1) * DAY + t.hour * 3_600_000 + t.minute * 60_000 + t.second * SECOND + t.millis
  }

  function DaysIn(month: nat): nat
    requires 1 <= month <= 12
  {
    if month == 2 then 29 else if month == 4 || month == 6 || month == 9 || month == 11 then 30 else 31
  }

  /** A real calendar instant, leap seconds aside. */
  predicate Valid(t: Stamp) {
    && 1 <= t.month <= 12 && 1 <= t.day <= DaysIn(t.month)
    && t.hour < 24 && t.minute < 60 && t.second < 60 && t.millis < 1000
  }

  /** What the log may write: such an instant, or one within a leap second. */
  predicate Readable(t: Stamp) {
    Valid(t.(second := 0)) && t.second <= 60
  }

  /** Calendar order. */
  predicate Earlier(a: Stamp, b: Stamp) {
    || a.month < b.month
    || (a.month == b.month && (a.day < b.day
    || (a.day == b.day && (a.hour < b.hour
    || (a.hour == b.hour && (a.minute < b.minute
    || (a.minute == b.minute && (a.second < b.second
    || (a.second == b.second && a.millis < b.millis)))))))))
  }

  lemma MonthEnds(m: nat, n: nat)
    requires 1 <= m < n <= 12
    ensures CUM_DAYS[m - 1] + DaysIn(m) <= CUM_DAYS[n - 1]
  {
  }

  /** Calendar instants keep their order and stay inside the year. */
  lemma MillisKeepOrder(a: Stamp, b: Stamp)
    requires Valid(a) && Valid(b)
    ensures 0 <= Millis(a) < YEAR
    ensures Earlier(a, b) <==> Millis(a) < Millis(b)
  {
    if a.month < b.month {
      MonthEnds(a.month, b.month);
    } else if b.month < a.month {
      MonthEnds(b.month, a.month);
    }
  }

  /** The next millisecond of a leap year, unless it is over. */
  function Tick(t: Stamp): Option<Stamp>
    requires Valid(t)
  {
    if t.millis < 999 then Some(t.(millis := t.millis + 1))
    else if t.second < 59 then Some(t.(millis := 0, second := t.second + 1))
    else if t.minute < 59 then Some(t.(millis := 0, second := 0, minute := t.minute + 1))
    else if t.hour < 23 then Some(t.(millis := 0, second := 0, minute := 0, hour := t.hour + 1))
    else if t.day < DaysIn(t.month) then Some(Stamp(t.month, t.day + 1, 0, 0, 0, 0))
    else if t.month < 12 then Some(Stamp(t.month + 1, 1, 0, 0, 0, 0))
    else None
  }

  /** Stamps are counted in milliseconds from New Year on, without a gap up to the
      end of the clock's year. */
  lemma MillisCountUp(t: Stamp)
    requires Valid(t)
    ensures Millis(Stamp(1, 1, 0, 0, 0, 0)) == 0
    ensures Tick(t).Some? ==> Valid(Tick(t).value) && Millis(Tick(t).value) == Millis(t) + 1
    ensures Tick(t).None? ==> Millis(t) + 1 == YEAR
  {
    if Tick(t).Some? && t.day == DaysIn(t.month) && Tick(t).value.month != t.month {
      assert CUM_DAYS[t.month] == CUM_DAYS[t.month - 1] + DaysIn(t.month);
    }
  }

  function Pad2(n: nat): string
    requires n < 100
  {
    [('0' as int + n / 10) as char, ('0' as int + n % 10) as char]
  }

  function Pad3(n: nat): string
    requires n < 1000
  {
    [('0' as int + n / 100) as char] + Pad2(n % 100)
  }

  /** The shape in which the log writes its stamps. */
  function Format(t: Stamp): string
    requires Readable(t)
  {
    FormatDate(t) + " " + FormatTime(t)
  }

  lemma PadParses(n: nat, max: nat)
    requires n < 100 <= max
    ensures ParseUnsigned(Pad2(n), max) == Some(n)
    ensures forall c :: c in Pad2(n) ==> IsDigit(c)
  {
    var s := Pad2(n);
    assert s[..1] == [s[0]] && s[..1][..0] == "";
    assert Digits(s[..1]) == Some(n / 10);
  }

  lemma Pad3Parses(n: nat)
    requires n < 1000
    ensures ParseFraction(Pad3(n)) == Some(n)
  {
    var s := Pad3(n);
    assert s[..2] == [s[0], s[1]] && s[..2][..1] == [s[0]] && s[..1][..0] == "";
    assert Digits([s[0]]) == Some(n / 100);
    assert Digits(s[..2]) == Some(n / 10);
  }

  function FormatDate(t: Stamp): string
    requires Readable(t)
  {
    Pad2(t.month) + "-" + Pad2(t.day)
  }

  function FormatTime(t: Stamp): string
    requires Readable(t)
  {
    Pad2(t.hour) + ":" + (Pad2(t.minute) + ":" + (Pad2(t.second) + "." + Pad3(t.millis)))
  }

  lemma DateParses(t: Stamp)
    requires Readable(t)
    ensures ParseDate(FormatDate(t)) == Some((t.month, t.day))
    ensures ' ' !in FormatDate(t)
  {
    PadParses(t.month, USIZE);
    PadParses(t.day, U32);
    SplitOnceAt(Pad2(t.month), '-', Pad2(t.day));
  }

  lemma SecondsParse(t: Stamp)
    requires Readable(t)
    ensures ParseSeconds(Pad2(t.second) + "." + Pad3(t.millis)) == Some((t.second, t.millis))
  {
    PadParses(t.second, U32);
    Pad3Parses(t.millis);
    SplitOnceAt(Pad2(t.second), '.', Pad3(t.millis));
  }

  lemma TimeSplits(h: string, m: string, s: string)
    requires ':' !in h && ':' !in m && ':' !in s
    ensures Split(h + ":" + (m + ":" + s), ':') == [h, m, s]
  {
    var pieces := [h, m, s];
    SplitJoin(pieces, ':');
    assert pieces[1..][1..] == [s];
    assert Join(pieces[1..], ':') == m + ":" + s;
  }

  /** A text whose first three pieces are those of a stamp is read as its time of day. */
  lemma FieldsParse(t: Stamp, time: string, more: seq<string>)
    requires Readable(t)
    requires Split(time, ':') == [Pad2(t.hour), Pad2(t.minute), Pad2(t.second) + "." + Pad3(t.millis)] + more
    ensures ParseTime(time) == Some(Clock(t.hour, t.minute, t.second, t.millis))
  {
    hide Split, Pad2, Pad3, ParseSeconds, ParseUnsigned;
    PadParses(t.hour, U32);
    PadParses(t.minute, U32);
    SecondsParse(t);
  }

  lemma FieldsAreColonFree(t: Stamp)
    requires Readable(t)
    ensures ':' !in Pad2(t.hour) && ':' !in Pad2(t.minute) && ':' !in Pad2(t.second) + "." + Pad3(t.millis)
  {
  }

  lemma TimeParses(t: Stamp)
    requires Readable(t)
    ensures ParseTime(FormatTime(t)) == Some(Clock(t.hour, t.minute, t.second, t.millis))
  {
    hide Split, Pad2, Pad3, ParseTime;
    var h, m, s := Pad2(t.hour), Pad2(t.minute), Pad2(t.second) + "." + Pad3(t.millis);
    FieldsAreColonFree(t);
    TimeSplits(h, m, s);
    assert [h, m, s] + [] == [h, m, s];
    FieldsParse(t, FormatTime(t), []);
  }

  lemma TrimKeeps(s: string)
    requires s != [] && !IsWhitespace(s[0]) && !IsWhitespace(s[|s| - 1])
    ensures Trim(s) == s
  {
  }

  /** Whitespace around a text goes. */
  lemma {:induction false} TrimStrips(a: string, s: string, b: string)
    requires AllWhitespace(a) && AllWhitespace(b)
    requires s != [] && !IsWhitespace(s[0]) && !IsWhitespace(s[|s| - 1])
    ensures Trim(a + s + b) == s
    decreases |a| + |b|
  {
    hide IsWhitespace;
    if a != "" {
      assert (a + s + b)[1..] == a[1..] + s + b;
      TrimStrips(a[1..], s, b);
    } else if b != "" {
      var n := |b| - 1;
      assert (a + s + b)[..|a + s + b| - 1] == a + s + b[..n];
      TrimStrips(a, s, b[..n]);
    } else {
      assert a + s + b == s;
      TrimKeeps(s);
    }
  }

  predicate AllWhitespace(s: string) {
    forall i :: 0 <= i < |s| ==> IsWhitespace(s[i])
  }

  /** Every stamp the log can write is read back as its instant, with whatever
      whitespace around it. */
  lemma FormatParses(t: Stamp, a: string, b: string)
    requires Readable(t) && AllWhitespace(a) && AllWhitespace(b)
    ensures ParseStamp(a + Format(t) + b) == Some(Millis(t))
  {
    hide AllWhitespace;
    DateParses(t);
    TimeParses(t);
    EdgesAreDigits(t);
    TrimStrips(a, Format(t), b);
    SplitOnceAt(FormatDate(t), ' ', FormatTime(t));
    assert SplitOnce(Trim(a + Format(t) + b), ' ') == Some((FormatDate(t), FormatTime(t)));
  }

  lemma EdgesAreDigits(t: Stamp)
    requires Readable(t)
    ensures var s := Format(t); s != [] && !IsWhitespace(s[0]) && !IsWhitespace(s[|s| - 1])
  {
  }

  /** Whatever follows the seconds behind a colon is not looked at. */
  lemma TimeIgnoresMore(t: Stamp, more: string)
    requires Readable(t)
    ensures ParseTime(FormatTime(t) + ":" + more) == ParseTime(FormatTime(t))
  {
    hide Split, Pad2, Pad3, ParseTime;
    var h, m, s := Pad2(t.hour), Pad2(t.minute), Pad2(t.second) + "." + Pad3(t.millis);
    FieldsAreColonFree(t);
    SplitBehind(h, m, s, more);
    TimeParses(t);
    FieldsParse(t, FormatTime(t) + ":" + more, Split(more, ':'));
  }

  lemma SplitBehind(h: string, m: string, s: string, more: string)
    requires ':' !in h && ':' !in m && ':' !in s
    ensures Split(h + ":" + (m + ":" + s) + ":" + more, ':') == [h, m, s] + Split(more, ':')
  {
    hide Split, Join;
    var rest := Split(more, ':');
    SplitJoin([h, m, s] + rest, ':');
    JoinStep(h, [m, s] + rest);
    JoinStep(m, [s] + rest);
    JoinStep(s, rest);
    assert [h] + ([m, s] + rest) == [h, m, s] + rest && [m] + ([s] + rest) == [m, s] + rest;
    assert h + ":" + (m + ":" + s) + ":" + more == h + ":" + (m + ":" + (s + ":" + more));
  }

  lemma JoinStep(first: string, rest: seq<string>)
    requires rest != []
    ensures Join([first] + rest, ':') == first + ":" + Join(rest, ':')
  {
    assert ([first] + rest)[1..] == rest;
  }

  /** One plus sign in front of a number is allowed, a minus sign is not. */
  lemma SignedNumbers(digits: string, max: nat)
    requires digits != "" && AllDigits(digits)
    ensures ParseUnsigned("+" + digits, max) == ParseUnsigned(digits, max)
    ensures ParseUnsigned("-" + digits, max).None? && ParseUnsigned("++" + digits, max).None?
  {
    assert ("+" + digits)[1..] == digits && ("++" + digits)[1..] == "+" + digits;
    DigitsHaveValue(digits);
    NoDigitInFront('-', digits);
    NoDigitInFront('+', digits);
    assert "-" + digits == ['-'] + digits && "+" + digits == ['+'] + digits;
  }

  lemma {:induction false} NoDigitInFront(c: char, digits: string)
    requires !IsDigit(c)
    ensures Digits([c] + digits).None?
  {
    if digits != "" {
      var n := |digits| - 1;
      assert ([c] + digits)[..n + 1] == [c] + digits[..n];
      NoDigitInFront(c, digits[..n]);
    }
  }

  // ---- fractions of a second --------------------------------------------------------

  function PowerOfTen(n: nat): (p: nat)
    ensures p > 0
  {
    if n == 0 then 1 else 10 * PowerOfTen(n - 1)
  }

  predicate AllDigits(s: string) {
    forall i :: 0 <= i < |s| ==> IsDigit(s[i])
  }

  lemma {:induction false} DigitsHaveValue(s: string)
    requires AllDigits(s)
    ensures Digits(s).Some? && Digits(s).value < PowerOfTen(|s|)
  {
    if s != "" {
      DigitsHaveValue(s[..|s| - 1]);
    }
  }

  /** Cutting a number short divides it. */
  lemma {:induction false} DigitsCut(s: string, n: nat)
    requires AllDigits(s) && n <= |s|
    ensures Digits(s).Some? && Digits(s[..n]).Some?
    ensures Digits(s[..n]).value == Digits(s).value / PowerOfTen(|s| - n)
    decreases |s|
  {
    DigitsHaveValue(s);
    if n == |s| {
      assert s[..n] == s;
    } else {
      var m := |s| - 1;
      DigitsCut(s[..m], n);
      assert s[..m][..n] == s[..n];
      DivideTwice(Digits(s[..m]).value, DigitValue(s[m]), PowerOfTen(m - n));
    }
  }

  lemma DivideTwice(x: nat, d: nat, p: nat)
    requires d < 10 && p > 0
    ensures (x * 10 + d) / (10 * p) == x / p
  {
    var q, r := x / p, x % p;
    assert x == q * p + r;
    assert x * 10 + d == q * (10 * p) + (r * 10 + d);
    assert r * 10 + d < 10 * p;
    QuotientIs(x * 10 + d, 10 * p, q, r * 10 + d);
  }

  lemma QuotientIs(x: nat, p: nat, q: nat, r: nat)
    requires x == q * p + r && r < p
    ensures x / p == q
  {
    var e := x / p;
    assert x == e * p + x % p;
    assert e < q ==> (e + 1) * p <= q * p;
    assert q < e ==> (q + 1) * p <= e * p;
  }

  lemma {:induction false} PowerSplits(m: nat, n: nat)
    ensures PowerOfTen(m + n) == PowerOfTen(m) * PowerOfTen(n)
    decreases m
  {
    if m > 0 {
      PowerSplits(m - 1, n);
      assert PowerOfTen(m + n) == 10 * PowerOfTen(m - 1 + n);
    }
  }

  lemma CancelThousand(x: nat, p: nat)
    requires p > 0
    ensures x * 1000 / (1000 * p) == x / p
  {
    var q, r := x / p, x % p;
    assert x == q * p + r;
    assert x * 1000 == q * (1000 * p) + r * 1000;
    assert r * 1000 < 1000 * p;
    QuotientIs(x * 1000, 1000 * p, q, r * 1000);
  }

  lemma PlainNumber(s: string)
    requires s != "" && AllDigits(s) && |s| <= 3
    ensures Digits(s).Some? && ParseUnsigned(s, U32) == Digits(s)
  {
    DigitsHaveValue(s);
    assert PowerOfTen(1) == 10 && PowerOfTen(2) == 100 && PowerOfTen(3) == 1000;
    hide Digits;
    assert s[0] != '+';
  }

  lemma ShortFraction(frac: string)
    requires frac != "" && AllDigits(frac) && |frac| <= 3
    ensures Digits(frac).Some?
    ensures ParseFraction(frac) == Some(Digits(frac).value * 1000 / PowerOfTen(|frac|))
  {
    PlainNumber(frac);
    assert PowerOfTen(1) == 10 && PowerOfTen(2) == 100 && PowerOfTen(3) == 1000;
    hide Digits, ParseUnsigned, AllDigits, PowerOfTen;
    if |frac| == 1 {
      CancelFactor(Digits(frac).value, 100, 10);
    } else if |frac| == 2 {
      CancelFactor(Digits(frac).value, 10, 100);
    } else {
      CancelFactor(Digits(frac).value, 1, 1000);
    }
  }

  lemma CancelFactor(x: nat, k: nat, p: nat)
    requires p > 0 && k * p == 1000
    ensures x * 1000 / p == x * k
  {
    assert x * 1000 == (x * k) * p;
    QuotientIs(x * 1000, p, x * k, 0);
  }

  lemma LongFraction(frac: string)
    requires AllDigits(frac) && |frac| > 3
    ensures Digits(frac).Some?
    ensures ParseFraction(frac) == Some(Digits(frac).value * 1000 / PowerOfTen(|frac|))
  {
    PlainNumber(frac[..3]);
    DigitsCut(frac, 3);
    assert PowerOfTen(3) == 1000;
    PowerSplits(3, |frac| - 3);
    hide Digits, ParseUnsigned, AllDigits, PowerOfTen;
    CancelThousand(Digits(frac).value, PowerOfTen(|frac| - 3));
  }

  /** A fraction of any number of digits is read in milliseconds, rounded down. */
  lemma FractionIsThousandths(frac: string)
    requires frac != "" && AllDigits(frac)
    ensures Digits(frac).Some?
    ensures ParseFraction(frac) == Some(Digits(frac).value * 1000 / PowerOfTen(|frac|))
  {
    hide Digits, ParseFraction, AllDigits, PowerOfTen;
    if |frac| <= 3 {
      ShortFraction(frac);
    } else {
      LongFraction(frac);
    }
  }
}
