/**
 Civil time on fixed offsets: the part of Go's time package that the date
 filters and the Metax dates rely on.  An instant is a number of nanoseconds
 since 0001-01-01T00:00:00Z, which is Go's zero time.
 */
module Calendar {
  type Instant = int

  const SECOND := 1_000_000_000
  const MINUTE := 60 * SECOND
  const HOUR := 60 * MINUTE
  const DAY := 24 * HOUR

  predicate Leap(y: int) { y % 4 == 0 && (y % 100 != 0 || y % 400 == 0) }

  function DaysIn(y: int, m: int): int {
    if m == 2 then (if Leap(y) then 29 else 28)
    else if m == 4 || m == 6 || m == 9 || m == 11 then 30 else 31
  }

  /** Days from 0001-01-01 to the first day of the year. */
  function DaysBeforeYear(y: int): int {
    365 * (y - 1) + (y - 1) / 4 - (y - 1) / 100 + (y - 1) / 400
  }

  function DaysBeforeMonth(y: int, m: int): int
    requires 1 <= m <= 13
    decreases m
  {
    if m == 1 then 0 else DaysBeforeMonth(y, m - 1) + DaysIn(y, m - 1)
  }

  /** time.Date in days: the month after December carries over into the next year. */
  function Date(y: int, m: int, d: int): int
    requires 1 <= m <= 13
  {
    if m == 13 then DaysBeforeYear(y + 1) + d - 1
    else DaysBeforeYear(y) + DaysBeforeMonth(y, m) + d - 1
  }

  function At(y: int, m: int, d: int, h: int, mi: int, s: int, offset: int): Instant
    requires 1 <= m <= 13
  {
    Moment(Date(y, m, d), h, mi, s, offset)
  }

  function Moment(date: int, h: int, mi: int, s: int, offset: int): Instant {
    date * DAY + h * HOUR + mi * MINUTE + (s - offset) * SECOND
  }

  // ---------- truncated dates ----------

  datatype Unit = Year | Month | Day | Hour | Minute | Second

  /** A date truncated to a unit; the fields below the unit are at their minimum. */
  datatype Stamp = Stamp(unit: Unit, year: int, month: int, day: int, hour: int, minute: int, second: int)

  function Rank(u: Unit): nat {
    match u
    case Year => 0
    case Month => 1
    case Day => 2
    case Hour => 3
    case Minute => 4
    case Second => 5
  }

  predicate Valid(st: Stamp) {
    var r := Rank(st.unit);
    && 1 <= st.month <= 12 && 1 <= st.day <= DaysIn(st.year, st.month)
    && 0 <= st.hour < 24 && 0 <= st.minute < 60 && 0 <= st.second < 60
    && (r < 1 ==> st.month == 1) && (r < 2 ==> st.day == 1) && (r < 3 ==> st.hour == 0)
    && (r < 4 ==> st.minute == 0) && (r < 5 ==> st.second == 0)
  }

  function Start(st: Stamp, offset: int): Instant
    requires 1 <= st.month <= 12
  {
    At(st.year, st.month, st.day, st.hour, st.minute, st.second, offset)
  }

  /** The length of the range a truncated date stands for: AddDate on years and months, fixed durations below. */
  function Precision(st: Stamp, offset: int): int
    requires 1 <= st.month <= 12
  {
    match st.unit
    case Year => At(st.year + 1, st.month, st.day, st.hour, st.minute, st.second, offset) - Start(st, offset)
    case Month => At(st.year, st.month + 1, st.day, st.hour, st.minute, st.second, offset) - Start(st, offset)
    case Day => HOUR * 24
    case Hour => HOUR
    case Minute => MINUTE
    case Second => SECOND
  }

  function End(st: Stamp, offset: int): Instant
    requires 1 <= st.month <= 12
  {
    Start(st, offset) + Precision(st, offset)
  }

  predicate Covers(st: Stamp, offset: int, x: Instant)
    requires 1 <= st.month <= 12
  {
    Start(st, offset) <= x < End(st, offset)
  }

  // ---------- a stamp is tiled by the stamps one unit below ----------

  /** How many stamps of the next unit a stamp has. */
  function Parts(st: Stamp): int
    requires Valid(st) && st.unit != Second
  {
    match st.unit
    case Year => 12
    case Month => DaysIn(st.year, st.month)
    case Day => 24
    case Hour => 60
    case Minute => 60
  }

  function Part(st: Stamp, i: int): (r: Stamp)
    requires Valid(st) && st.unit != Second && 0 <= i < Parts(st)
    ensures Valid(r)
  {
    match st.unit
    case Year => st.(unit := Month, month := i + 1)
    case Month => st.(unit := Day, day := i + 1)
    case Day => st.(unit := Hour, hour := i)
    case Hour => st.(unit := Minute, minute := i)
    case Minute => st.(unit := Second, second := i)
  }

  lemma YearLength(y: int)
    ensures DaysBeforeYear(y + 1) == DaysBeforeYear(y) + (if Leap(y) then 366 else 365)
  {
    QuotientStep(y, 4);
    QuotientStep(y, 100);
    QuotientStep(y, 400);
    CenturiesDivide(y);
  }

  lemma CenturiesDivide(y: int)
    ensures y % 400 == 0 ==> y % 100 == 0
    ensures y % 100 == 0 ==> y % 4 == 0
  {
    if y % 400 == 0 { Divides(y, 100, 4 * (y / 400)); }
    if y % 100 == 0 { Divides(y, 4, 25 * (y / 100)); }
  }

  lemma Divides(y: int, n: int, k: int)
    requires n == 4 || n == 100
    requires y == n * k
    ensures y % n == 0
  {
    var d := k - y / n;
    assert n * d == y % n;
    assert d == 0;
  }

  lemma QuotientStep(y: int, n: int)
    requires n == 4 || n == 100 || n == 400
    ensures y / n == (y - 1) / n + if y % n == 0 then 1 else 0
  {
  }

  lemma MonthsOfYear(y: int)
    ensures DaysBeforeMonth(y, 13) == if Leap(y) then 366 else 365
  {
    assert DaysBeforeMonth(y, 4) == 59 + 31 + if Leap(y) then 1 else 0 by {
      assert DaysBeforeMonth(y, 3) == 59 + if Leap(y) then 1 else 0;
    }
    assert DaysBeforeMonth(y, 7) == DaysBeforeMonth(y, 4) + 91 by { assert DaysBeforeMonth(y, 6) == DaysBeforeMonth(y, 4) + 61; }
    assert DaysBeforeMonth(y, 10) == DaysBeforeMonth(y, 7) + 92 by { assert DaysBeforeMonth(y, 9) == DaysBeforeMonth(y, 7) + 62; }
    assert DaysBeforeMonth(y, 13) == DaysBeforeMonth(y, 10) + 92 by { assert DaysBeforeMonth(y, 12) == DaysBeforeMonth(y, 10) + 61; }
  }

  /** The first of the following month, December included. */
  lemma MonthStep(y: int, m: int)
    requires 1 <= m <= 12
    ensures Date(y, m + 1, 1) == Date(y, m, 1) + DaysIn(y, m)
  {
    var inYear := DaysBeforeMonth(y, m);
    assert Date(y, m, 1) == DaysBeforeYear(y) + inYear;
    if m == 12 {
      YearLength(y);
      MonthsOfYear(y);
      assert DaysBeforeMonth(y, 13) == inYear + DaysIn(y, 12);
      assert Date(y, 13, 1) == DaysBeforeYear(y + 1);
    } else {
      assert DaysBeforeMonth(y, m + 1) == inYear + DaysIn(y, m);
    }
  }

  lemma YearStep(y: int)
    ensures Date(y + 1, 1, 1) == Date(y, 1, 1) + if Leap(y) then 366 else 365
  {
    YearLength(y);
    assert Date(y, 1, 1) == DaysBeforeYear(y) && Date(y + 1, 1, 1) == DaysBeforeYear(y + 1);
  }

  /** A month's range ends where the next month starts. */
  lemma MonthEnd(st: Stamp, offset: int)
    requires Valid(st) && st.unit == Month
    ensures End(st, offset) == At(st.year, st.month + 1, 1, 0, 0, 0, offset)
    ensures End(st, offset) == Start(st, offset) + DaysIn(st.year, st.month) * DAY
  {
    hide Date, DaysIn, Moment;
    MonthStep(st.year, st.month);
    DaysLater(Date(st.year, st.month, 1), DaysIn(st.year, st.month), offset);
  }

  lemma DaysLater(date: int, n: int, offset: int)
    ensures Moment(date + n, 0, 0, 0, offset) == Moment(date, 0, 0, 0, offset) + n * DAY
  {
  }

  /** Consecutive parts touch; the first starts and the last ends where the whole does; no part is empty. */
  ghost predicate Tiled(st: Stamp, offset: int)
    requires Valid(st) && st.unit != Second
  {
    && Start(Part(st, 0), offset) == Start(st, offset)
    && End(Part(st, Parts(st) - 1), offset) == End(st, offset)
    && (forall i :: 0 <= i < Parts(st) ==> Start(Part(st, i), offset) < End(Part(st, i), offset))
    && (forall i :: 0 <= i < Parts(st) - 1 ==> End(Part(st, i), offset) == Start(Part(st, i + 1), offset))
  }

  lemma PartsTile(st: Stamp, offset: int)
    requires Valid(st) && st.unit != Second
    ensures Tiled(st, offset)
  {
    match st.unit
    case Year => YearTiles(st, offset);
    case Month => MonthTiles(st, offset);
    case Day => ClockTiles(st, offset, HOUR);
    case Hour => ClockTiles(st, offset, MINUTE);
    case Minute => ClockTiles(st, offset, SECOND);
  }

  /** Parts of one fixed length tile a range of that many lengths. */
  lemma EvenTiles(st: Stamp, offset: int, step: int)
    requires Valid(st) && st.unit != Second && 0 < step
    requires Precision(st, offset) == Parts(st) * step
    requires forall i :: 0 <= i < Parts(st) ==>
               Start(Part(st, i), offset) == Start(st, offset) + i * step && Precision(Part(st, i), offset) == step
    ensures Tiled(st, offset)
  {
    hide Start, Precision, Part, Parts;
    var first, n := Start(st, offset), Parts(st);
    SomePart(st);
    NextStart(first, n - 1, step);
    NextStart(first, 0, step);
    forall i | 0 <= i < n - 1 ensures End(Part(st, i), offset) == Start(Part(st, i + 1), offset) {
      NextStart(first, i, step);
    }
  }

  lemma SomePart(st: Stamp)
    requires Valid(st) && st.unit != Second
    ensures Parts(st) > 0
  {
  }

  lemma NextStart(first: int, i: int, step: int)
    ensures first + i * step + step == first + (i + 1) * step && first + 0 * step == first
  {
  }

  lemma ClockTiles(st: Stamp, offset: int, step: int)
    requires Valid(st)
    requires match st.unit case Day => step == HOUR case Hour => step == MINUTE case Minute => step == SECOND case _ => false
    ensures Tiled(st, offset)
  {
    forall i | 0 <= i < Parts(st)
      ensures Start(Part(st, i), offset) == Start(st, offset) + i * step && Precision(Part(st, i), offset) == step
    {
      ClockPart(st, offset, i);
    }
    EvenTiles(st, offset, step);
  }

  lemma ClockPart(st: Stamp, offset: int, i: int)
    requires Valid(st) && (st.unit == Day || st.unit == Hour || st.unit == Minute) && 0 <= i < Parts(st)
    ensures Start(Part(st, i), offset) ==
            Start(st, offset) + i * match st.unit case Day => HOUR case Hour => MINUTE case _ => SECOND
  {
    var date := Date(st.year, st.month, st.day);
    assert Start(st, offset) == Moment(date, st.hour, st.minute, st.second, offset);
    match st.unit
    case Day => assert Start(Part(st, i), offset) == Moment(date, i, 0, 0, offset);
    case Hour => assert Start(Part(st, i), offset) == Moment(date, st.hour, i, 0, offset);
    case Minute => assert Start(Part(st, i), offset) == Moment(date, st.hour, st.minute, i, offset);
  }

  lemma MonthTiles(st: Stamp, offset: int)
    requires Valid(st) && st.unit == Month
    ensures Tiled(st, offset)
  {
    MonthEnd(st, offset);
    forall i | 0 <= i < Parts(st)
      ensures Start(Part(st, i), offset) == Start(st, offset) + i * DAY && Precision(Part(st, i), offset) == DAY
    {
      MonthPart(st, offset, i);
    }
    EvenTiles(st, offset, DAY);
  }

  lemma MonthPart(st: Stamp, offset: int, i: int)
    requires Valid(st) && st.unit == Month && 0 <= i < Parts(st)
    ensures Start(Part(st, i), offset) == Start(st, offset) + i * DAY && Precision(Part(st, i), offset) == DAY
  {
    DateDays(st.year, st.month, i + 1);
  }

  lemma DateDays(y: int, m: int, d: int)
    requires 1 <= m <= 12
    ensures Date(y, m, d) == Date(y, m, 1) + d - 1
  {
  }

  lemma YearTiles(st: Stamp, offset: int)
    requires Valid(st) && st.unit == Year
    ensures Tiled(st, offset)
  {
    var y := st.year;
    MonthStep(y, 12);
    YearStep(y);
    MonthsOfYear(y);
    forall i | 0 <= i < 12
      ensures Start(Part(st, i), offset) == At(y, i + 1, 1, 0, 0, 0, offset)
      ensures End(Part(st, i), offset) == At(y, i + 2, 1, 0, 0, 0, offset)
      ensures Start(Part(st, i), offset) < End(Part(st, i), offset)
    {
      MonthEnd(Part(st, i), offset);
    }
  }

  /** Parts are in order: an earlier part ends before a later one starts. */
  lemma {:induction false} PartsOrdered(st: Stamp, offset: int, i: int, j: int)
    requires Valid(st) && st.unit != Second && 0 <= i < j < Parts(st)
    ensures End(Part(st, i), offset) <= Start(Part(st, j), offset)
    decreases j
  {
    PartsTile(st, offset);
    if i < j - 1 { PartsOrdered(st, offset, i, j - 1); }
  }

  /** The part that covers an instant of the whole, searched from part i on. */
  lemma {:induction false} FindPart(st: Stamp, offset: int, x: Instant, i: int) returns (k: int)
    requires Valid(st) && st.unit != Second && 0 <= i < Parts(st)
    requires Start(Part(st, i), offset) <= x < End(st, offset)
    ensures 0 <= k < Parts(st) && Covers(Part(st, k), offset, x)
    decreases Parts(st) - i
  {
    PartsTile(st, offset);
    if x < End(Part(st, i), offset) {
      k := i;
    } else {
      k := FindPart(st, offset, x, i + 1);
    }
  }

  lemma PartWithin(st: Stamp, offset: int, x: Instant, i: int)
    requires Valid(st) && st.unit != Second && 0 <= i < Parts(st)
    requires Covers(Part(st, i), offset, x)
    ensures Covers(st, offset, x)
  {
    PartsTile(st, offset);
    if i > 0 { PartsOrdered(st, offset, 0, i); }
    if i < Parts(st) - 1 { PartsOrdered(st, offset, i, Parts(st) - 1); }
  }

  lemma PartUnique(st: Stamp, offset: int, x: Instant, i: int, j: int)
    requires Valid(st) && st.unit != Second && 0 <= i < Parts(st) && 0 <= j < Parts(st)
    requires Covers(Part(st, i), offset, x) && Covers(Part(st, j), offset, x)
    ensures i == j
  {
    if i < j { PartsOrdered(st, offset, i, j); }
    if j < i { PartsOrdered(st, offset, j, i); }
  }

  /**
   A range is the disjoint union of the ranges one unit below it: a year of its
   months, a month of its days, and so on down to seconds.
   */
  lemma Partition(st: Stamp, offset: int, x: Instant)
    requires Valid(st) && st.unit != Second
    ensures Covers(st, offset, x) <==> exists i :: 0 <= i < Parts(st) && Covers(Part(st, i), offset, x)
    ensures forall i, j | 0 <= i < Parts(st) && 0 <= j < Parts(st) ::
              Covers(Part(st, i), offset, x) && Covers(Part(st, j), offset, x) ==> i == j
  {
    if Covers(st, offset, x) {
      PartsTile(st, offset);
      var k := FindPart(st, offset, x, 0);
    }
    forall i | 0 <= i < Parts(st) && Covers(Part(st, i), offset, x) ensures Covers(st, offset, x) {
      PartWithin(st, offset, x, i);
    }
    forall i, j | 0 <= i < Parts(st) && 0 <= j < Parts(st) && Covers(Part(st, i), offset, x) && Covers(Part(st, j), offset, x)
      ensures i == j
    {
      PartUnique(st, offset, x, i, j);
    }
  }

  // ---------- all the way down ----------

  /** The stamp of a coarser or equal unit that a stamp lies in. */
  function Truncate(st: Stamp, u: Unit): Stamp {
    var r := Rank(u);
    Stamp(u, st.year,
          if r < 1 then 1 else st.month, if r < 2 then 1 else st.day, if r < 3 then 0 else st.hour,
          if r < 4 then 0 else st.minute, if r < 5 then 0 else st.second)
  }

  function Above(u: Unit): Unit {
    match u
    case Second => Minute
    case Minute => Hour
    case Hour => Day
    case Day => Month
    case _ => Year
  }

  /** The position of a stamp among the parts of the stamp above it. */
  function Index(st: Stamp): int {
    match st.unit
    case Second => st.second
    case Minute => st.minute
    case Hour => st.hour
    case Day => st.day - 1
    case _ => st.month - 1
  }

  /** Every instant of a range lies in one second of it. */
  lemma {:induction false} SecondWithin(st: Stamp, offset: int, x: Instant) returns (s: Stamp)
    requires Valid(st) && Covers(st, offset, x)
    ensures Valid(s) && s.unit == Second && Truncate(s, st.unit) == st && Covers(s, offset, x)
    decreases 5 - Rank(st.unit)
  {
    if st.unit == Second {
      s := st;
    } else {
      Partition(st, offset, x);
      var k :| 0 <= k < Parts(st) && Covers(Part(st, k), offset, x);
      s := SecondWithin(Part(st, k), offset, x);
    }
  }

  /** ... and a second lies in the ranges of all its truncations. */
  lemma {:induction false} CoveredByTruncation(s: Stamp, offset: int, x: Instant, u: Unit)
    requires Valid(s) && Covers(s, offset, x) && Rank(u) <= Rank(s.unit)
    ensures Valid(Truncate(s, u)) && Covers(Truncate(s, u), offset, x)
    decreases Rank(s.unit)
  {
    if u == s.unit {
      assert Truncate(s, u) == s;
    } else {
      var p := Truncate(s, Above(s.unit));
      IsPart(s);
      PartWithin(p, offset, x, Index(s));
      CoveredByTruncation(p, offset, x, u);
      assert Truncate(p, u) == Truncate(s, u);
    }
  }

  lemma {:induction false} YearsOrdered(y: int, z: int)
    requires y < z
    ensures DaysBeforeYear(y + 1) <= DaysBeforeYear(z)
    decreases z - y
  {
    if y + 1 < z {
      YearLength(y + 1);
      YearsOrdered(y + 1, z);
    }
  }

  lemma IsPart(st: Stamp)
    requires Valid(st) && st.unit != Year
    ensures var p := Truncate(st, Above(st.unit));
            Valid(p) && 0 <= Index(st) < Parts(p) && Part(p, Index(st)) == st
  {
    assert DaysIn(st.year, 1) == 31;
  }

  lemma YearsDisjoint(a: Stamp, b: Stamp, offset: int)
    requires Valid(a) && Valid(b) && a.unit == b.unit == Year && a.year < b.year
    ensures End(a, offset) <= Start(b, offset)
  {
    YearsOrdered(a.year, b.year);
  }

  /** Two stamps of the same unit that cover one instant are the same stamp. */
  lemma {:induction false} SameUnitSameStamp(a: Stamp, b: Stamp, offset: int, x: Instant)
    requires Valid(a) && Valid(b) && a.unit == b.unit
    requires Covers(a, offset, x) && Covers(b, offset, x)
    ensures a == b
    decreases Rank(a.unit)
  {
    if a.unit == Year {
      if a.year < b.year { YearsDisjoint(a, b, offset); }
      if b.year < a.year { YearsDisjoint(b, a, offset); }
    } else {
      var up := Above(a.unit);
      CoveredByTruncation(a, offset, x, up);
      CoveredByTruncation(b, offset, x, up);
      SameUnitSameStamp(Truncate(a, up), Truncate(b, up), offset, x);
      IsPart(a);
      IsPart(b);
      PartUnique(Truncate(a, up), offset, x, Index(a), Index(b));
    }
  }

  /** Membership in a range, read off civil time: x is in the range exactly when x's second truncates to it. */
  lemma CoversIsTruncation(st: Stamp, s: Stamp, offset: int, x: Instant)
    requires Valid(st) && Valid(s) && s.unit == Second && Covers(s, offset, x)
    ensures Covers(st, offset, x) <==> Truncate(s, st.unit) == st
  {
    CoveredByTruncation(s, offset, x, st.unit);
    if Covers(st, offset, x) {
      SameUnitSameStamp(Truncate(s, st.unit), st, offset, x);
    }
  }

  // ---------- every instant has a civil time ----------

  function YearStamp(y: int): Stamp { Stamp(Year, y, 1, 1, 0, 0, 0) }

  /** A year begins where the last one ended, a day or more later. */
  lemma YearsTouch(y: int, offset: int)
    ensures End(YearStamp(y), offset) == Start(YearStamp(y + 1), offset)
    ensures Start(YearStamp(y), offset) + DAY <= End(YearStamp(y), offset)
  {
    hide Date, Moment;
    YearStep(y);
    DaysLater(Date(y, 1, 1), if Leap(y) then 366 else 365, offset);
  }

  /** The year of an instant, searched from the year y on. */
  lemma {:induction false} YearAfter(offset: int, x: Instant, y: int) returns (z: int)
    requires Start(YearStamp(y), offset) <= x
    ensures Covers(YearStamp(z), offset, x)
    decreases x - Start(YearStamp(y), offset)
  {
    hide Start, Precision;
    YearsTouch(y, offset);
    if x < End(YearStamp(y), offset) {
      z := y;
    } else {
      z := YearAfter(offset, x, y + 1);
    }
  }

  /** ... and from the year y back. */
  lemma {:induction false} YearBefore(offset: int, x: Instant, y: int) returns (z: int)
    requires x < Start(YearStamp(y), offset)
    ensures Covers(YearStamp(z), offset, x)
    decreases Start(YearStamp(y), offset) - x
  {
    hide Start, Precision;
    YearsTouch(y - 1, offset);
    if Start(YearStamp(y - 1), offset) <= x {
      z := y - 1;
    } else {
      z := YearBefore(offset, x, y - 1);
    }
  }

  /** At every offset every instant lies in exactly one civil second. */
  lemma CivilTime(offset: int, x: Instant) returns (s: Stamp)
    ensures Valid(s) && s.unit == Second && Covers(s, offset, x)
    ensures forall t | Valid(t) && t.unit == Second && Covers(t, offset, x) :: t == s
  {
    hide Start, Precision, Truncate;
    var y: int;
    if Start(YearStamp(1), offset) <= x {
      y := YearAfter(offset, x, 1);
    } else {
      y := YearBefore(offset, x, 1);
    }
    s := SecondWithin(YearStamp(y), offset, x);
    forall t | Valid(t) && t.unit == Second && Covers(t, offset, x) ensures t == s {
      SameUnitSameStamp(t, s, offset, x);
    }
  }

  // ---------- the zero time as a date ----------

  const DAY_SECONDS := 86400

  /** Less than a month: every zone there is, and every one that can be written. */
  predicate NearUtc(offset: int) { -31 * DAY_SECONDS <= offset < 31 * DAY_SECONDS }

  /** The civil time of the zero time: 0001-01-01T00:00:00 shifted by the offset. */
  function ZeroStamp(offset: int): Stamp {
    var days, rest := offset / DAY_SECONDS, offset % DAY_SECONDS;
    if days >= 0 then Stamp(Second, 1, 1, 1 + days, rest / 3600, rest / 60 % 60, rest % 60)
    else Stamp(Second, 0, 12, 32 + days, rest / 3600, rest / 60 % 60, rest % 60)
  }

  lemma ZeroDay(days: int)
    requires -31 <= days < 31
    ensures if days >= 0 then Date(1, 1, 1 + days) == days else Date(0, 12, 32 + days) == days
  {
    if days < 0 {
      MonthsOfYear(0);
      assert DaysBeforeMonth(0, 13) == DaysBeforeMonth(0, 12) + 31;
    }
  }

  lemma ZeroStampStarts(offset: int)
    requires NearUtc(offset)
    ensures Valid(ZeroStamp(offset)) && Start(ZeroStamp(offset), offset) == 0
  {
    hide Date, Moment;
    var days, rest := offset / DAY_SECONDS, offset % DAY_SECONDS;
    ZeroDay(days);
    ClockFields(rest);
    ZeroMoment(days, rest / 3600, rest / 60 % 60, rest % 60, offset);
  }

  /** Hours, minutes and seconds of a second of the day. */
  lemma ClockFields(rest: int)
    requires 0 <= rest < DAY_SECONDS
    ensures 0 <= rest / 3600 < 24
    ensures rest == rest / 3600 * 3600 + rest / 60 % 60 * 60 + rest % 60
  {
    var minutes, s := rest / 60, rest % 60;
    var h, m := minutes / 60, minutes % 60;
    assert rest == (h * 60 + m) * 60 + s;
    HourOf(rest, h, m * 60 + s);
  }

  lemma HourOf(rest: int, h: int, r: int)
    requires rest == h * 3600 + r && 0 <= r < 3600
    ensures rest / 3600 == h
  {
  }

  lemma ZeroMoment(days: int, h: int, m: int, s: int, offset: int)
    requires offset == days * DAY_SECONDS + h * 3600 + m * 60 + s
    ensures Moment(days, h, m, s, offset) == 0
  {
  }

  /** The dates that start at the zero time: at each precision at most one, the zero time's own. */
  lemma StartsAtZero(st: Stamp, offset: int)
    requires Valid(st) && NearUtc(offset)
    ensures Start(st, offset) == 0 <==> st == ZeroStamp(offset).(unit := st.unit)
  {
    ZeroStampStarts(offset);
    if Start(st, offset) == 0 {
      SameUnitSameStamp(st.(unit := Second), ZeroStamp(offset), offset, 0);
    }
  }
}
