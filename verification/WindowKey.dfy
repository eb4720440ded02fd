/** Budget windows and the text keys that name them in `budget_events`. */
module WindowKey {
  import opened Calendar

  datatype Period = Day | Week | Month

  function Start(p: Period, t: int): int {
    match p
    case Day => FloorDay(t)
    case Week => FloorWeek(t)
    case Month => FloorMonth(t)
  }

  function Name(p: Period): string {
    match p
    case Day => "day"
    case Week => "week"
    case Month => "month"
  }

  function Digit(n: int): char
    requires 0 <= n < 10
  {
    "0123456789"[n]
  }

  /** Decimal digits of `n`, padded with zeros to at least `width`. */
  function Digits(n: nat, width: nat): string
    decreases n + width
  {
    if n < 10 && width <= 1 then [Digit(n)]
    else Digits(n / 10, if width > 0 then width - 1 else 0) + [Digit(n % 10)]
  }

  /** `{:0width}`: a minus sign takes one place of the width. */
  function Padded(n: int, width: nat): string {
    if n >= 0 then Digits(n, width) else "-" + Digits(-n, if width > 0 then width - 1 else 0)
  }

  function DateText(d: Date): string {
    Padded(d.year, 4) + "-" + Padded(d.month, 2) + "-" + Padded(d.day, 2)
  }

  /** `{period}:{year}-{month}-{day}` of the window start. */
  function BudgetKey(p: Period, t: int): string {
    Name(p) + ":" + DateText(DateAt(Start(p, t)))
  }

  // ---------- reading keys back ----------

  function DigitValue(c: char): int {
    c as int - '0' as int
  }

  function Value(s: string): int {
    if s == "" then 0 else 10 * Value(s[..|s| - 1]) + DigitValue(s[|s| - 1])
  }

  lemma {:induction false} ValueOfDigits(n: nat, width: nat)
    ensures Value(Digits(n, width)) == n
    ensures |Digits(n, width)| >= 1 && '0' <= Digits(n, width)[0] <= '9'
    decreases n + width
  {
    if n < 10 && width <= 1 {
      assert Value([Digit(n)]) == 10 * Value("") + DigitValue(Digit(n)) by {
        assert [Digit(n)][..0] == "";
      }
    } else {
      var rest := Digits(n / 10, if width > 0 then width - 1 else 0);
      ValueOfDigits(n / 10, if width > 0 then width - 1 else 0);
      assert Digits(n, width)[..|rest|] == rest;
    }
  }

  lemma PaddedInjective(m: int, n: int, width: nat)
    requires Padded(m, width) == Padded(n, width)
    ensures m == n
  {
    var w := if width > 0 then width - 1 else 0;
    ValueOfDigits(if m >= 0 then m else -m, if m >= 0 then width else w);
    ValueOfDigits(if n >= 0 then n else -n, if n >= 0 then width else w);
    if m < 0 && n < 0 {
      assert Digits(-m, w) == Padded(m, width)[1..];
      assert Digits(-n, w) == Padded(n, width)[1..];
    }
  }

  lemma TwoDigits(n: int)
    requires 0 <= n < 100
    ensures |Padded(n, 2)| == 2
  {
    assert Digits(n, 2) == Digits(n / 10, 1) + [Digit(n % 10)];
  }

  /** The fields of a date's text, counted from its end because a year may have any width. */
  lemma DateTextFields(d: Date)
    requires IsDate(d)
    ensures var s := DateText(d);
            && |s| >= 6
            && s[..|s| - 6] == Padded(d.year, 4)
            && s[|s| - 5..|s| - 3] == Padded(d.month, 2)
            && s[|s| - 2..] == Padded(d.day, 2)
  {
    TwoDigits(d.month);
    TwoDigits(d.day);
  }

  lemma FourDigits(n: int)
    requires 0 <= n < 10000
    ensures |Padded(n, 4)| == 4
  {
    assert Digits(n, 4) == Digits(n / 10, 3) + [Digit(n % 10)];
    assert Digits(n / 10, 3) == Digits(n / 10 / 10, 2) + [Digit(n / 10 % 10)];
    TwoDigits(n / 10 / 10);
  }

  /** The date of a key, up to the year 9999, reads year, month and day in four, two and two digits. */
  lemma DateTextReads(d: Date)
    requires IsDate(d) && 0 <= d.year < 10000
    ensures var s := DateText(d);
            && |s| == 10 && s[4] == '-' && s[7] == '-'
            && Value(s[..4]) == d.year && Value(s[5..7]) == d.month && Value(s[8..]) == d.day
  {
    DateTextFields(d);
    FourDigits(d.year);
    ValueOfDigits(d.year, 4);
    ValueOfDigits(d.month, 2);
    ValueOfDigits(d.day, 2);
  }

  /** A key is the name of its period, a colon and the date on which its window starts. */
  lemma KeyReads(p: Period, t: int)
    requires 0 <= DateAt(Start(p, t)).year < 10000
    ensures var (key, d) := (BudgetKey(p, t), DateAt(Start(p, t)));
            var name := match p case Day => "day:" case Week => "week:" case Month => "month:";
            && key == name + DateText(d) && Midnight(d) == Start(p, t)
            && |DateText(d)| == 10 && Value(DateText(d)[..4]) == d.year
            && Value(DateText(d)[5..7]) == d.month && Value(DateText(d)[8..]) == d.day
  {
    StartIsMidnight(p, t);
    DateTextReads(DateAt(Start(p, t)));
  }

  lemma DateTextInjective(a: Date, b: Date)
    requires IsDate(a) && IsDate(b) && DateText(a) == DateText(b)
    ensures a == b
  {
    DateTextFields(a);
    DateTextFields(b);
    PaddedInjective(a.year, b.year, 4);
    PaddedInjective(a.month, b.month, 2);
    PaddedInjective(a.day, b.day, 2);
  }

  /** Every window starts at the midnight of a date. */
  function StartDate(p: Period, t: int): Date {
    match p
    case Day => DateAt(t)
    case Week => DateOf(DayAt(t) - DaysSinceMonday(DayAt(t)))
    case Month => Date(DateAt(t).year, DateAt(t).month, 1)
  }

  lemma FirstOfMonth(d: Date)
    requires IsDate(d)
    ensures IsDate(Date(d.year, d.month, 1))
  {
  }

  lemma StartDateIsDate(p: Period, t: int)
    ensures IsDate(StartDate(p, t))
  {
    var d := StartDate(p, t);
    if p == Month {
      DateOfIsDate(DayAt(t));
      FirstOfMonth(DateAt(t));
    } else {
      var n := if p == Day then DayAt(t) else DayAt(t) - DaysSinceMonday(DayAt(t));
      DateOfIsDate(n);
      assert d == DateOf(n);
    }
  }

  lemma StartIsMidnight(p: Period, t: int)
    ensures IsDate(DateAt(Start(p, t))) && Midnight(DateAt(Start(p, t))) == Start(p, t)
  {
    var d := StartDate(p, t);
    StartDateIsDate(p, t);
    MidnightDay(d);
    DayNumberOfDate(d);
    assert DateAt(Midnight(d)) == d;
  }

  lemma NamesApart(p: Period, q: Period, x: string, y: string)
    requires Name(p) + ":" + x == Name(q) + ":" + y
    ensures p == q && x == y
  {
    var s := Name(p) + ":" + x;
    assert s[0] == Name(p)[0] && s[0] == Name(q)[0];
    assert s[|Name(p)| + 1..] == x;
    assert s[|Name(q)| + 1..] == y;
  }

  /** Keys name windows faithfully: equal exactly for the same period and the same window. */
  lemma KeysAreFaithful(p: Period, s: int, q: Period, t: int)
    ensures BudgetKey(p, s) == BudgetKey(q, t) <==> p == q && Start(p, s) == Start(q, t)
  {
    if BudgetKey(p, s) == BudgetKey(q, t) {
      NamesApart(p, q, DateText(DateAt(Start(p, s))), DateText(DateAt(Start(q, t))));
      StartIsMidnight(p, s);
      StartIsMidnight(q, t);
      DateTextInjective(DateAt(Start(p, s)), DateAt(Start(q, t)));
    }
  }
}
