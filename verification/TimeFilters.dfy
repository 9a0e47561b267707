/** Date filters: reading truncated RFC 3339 dates and comparing instants with the ranges they stand for. */
module TimeFilters {
  import opened Options
  import opened Json
  import opened Calendar

  datatype Comparison = Eq | Le | Ge | Lt | Gt

  /** A comparison with the range start <= time < start + precision. */
  datatype TimeFilter = TimeFilter(precision: int, time: Instant, comparison: Comparison) {
    predicate IsZero() { time == 0 }

    function End(): Instant { time + precision }
  }

  function Suffixes(): map<string, Comparison> {
    map["" := Eq, "_eq" := Eq, "_le" := Le, "_ge" := Ge, "_lt" := Lt, "_gt" := Gt]
  }

  /** What a date filter asks of an instant; a filter on the zero time asks nothing. */
  predicate Selects(f: TimeFilter, x: Instant) {
    f.IsZero() ||
    match f.comparison
    case Eq => f.time <= x < f.End()
    case Le => x < f.End()
    case Ge => f.time <= x
    case Lt => x < f.time
    case Gt => f.End() <= x
  }

  // ---------- reading ----------

  datatype Clock = Clock(stamp: Stamp, nanos: int, rest: string)

  datatype Parsed = Parsed(stamp: Stamp, nanos: int, offset: int) {
    function Time(): Instant
      requires Valid(stamp)
    {
      Start(stamp, offset) + nanos
    }
  }

  function Digit(c: char): int { c as int - '0' as int }

  function Separator(u: Unit): char {
    match u
    case Year => ' '
    case Month => '-'
    case Day => '-'
    case Hour => 'T'
    case Minute => ':'
    case Second => ':'
  }

  /** One field: two digits; the hour may also have one. */
  function ReadField(u: Unit, s: string): Option<(int, string)> {
    if |s| >= 2 && IsDigit(s[0]) && IsDigit(s[1]) then Some((10 * Digit(s[0]) + Digit(s[1]), s[2..]))
    else if u == Hour && |s| >= 1 && IsDigit(s[0]) then Some((Digit(s[0]), s[1..]))
    else None
  }

  function DigitRun(s: string): (n: nat)
    ensures n <= |s|
  {
    if s != "" && IsDigit(s[0]) then 1 + DigitRun(s[1..]) else 0
  }

  function ScaleToNanos(s: string, digits: nat): int
    requires digits <= 9
    decreases 9 - digits
  {
    if digits == 9 then SignedDigits(s) else 10 * ScaleToNanos(s, digits + 1)
  }

  /** A fraction after the seconds is read even though no layout asks for it. */
  function ReadFraction(c: Clock): Option<Clock> {
    if |c.rest| >= 2 && c.rest[0] == '.' && IsDigit(c.rest[1]) then
      var n := DigitRun(c.rest[1..]);
      if n > 9 then None
      else Some(Clock(c.stamp, ScaleToNanos(c.rest[1..n + 1], n), c.rest[n + 1..]))
    else Some(c)
  }

  function SetField(st: Stamp, u: Unit, n: int): Option<Stamp> {
    match u
    case Year => None
    case Month => if 1 <= n <= 12 then Some(st.(unit := u, month := n)) else None
    case Day => Some(st.(unit := u, day := n))
    case Hour => if 0 <= n < 24 then Some(st.(unit := u, hour := n)) else None
    case Minute => if 0 <= n < 60 then Some(st.(unit := u, minute := n)) else None
    case Second => if 0 <= n < 60 then Some(st.(unit := u, second := n)) else None
  }

  /** The date fields of a layout that ends at a unit. */
  function ReadFields(u: Unit, s: string): Option<Clock>
    decreases Rank(u)
  {
    if u == Year then
      if |s| >= 4 && IsDigit(s[0]) && IsDigit(s[1]) && IsDigit(s[2]) && IsDigit(s[3]) then
        Some(Clock(Stamp(Year, 1000 * Digit(s[0]) + 100 * Digit(s[1]) + 10 * Digit(s[2]) + Digit(s[3]), 1, 1, 0, 0, 0), 0, s[4..]))
      else None
    else
      var c := ReadFields(Above(u), s);
      if c.None? then None else ReadNext(u, c.value)
  }

  function ReadNext(u: Unit, c: Clock): Option<Clock> {
    if c.rest == "" || c.rest[0] != Separator(u) then None
    else
      var d := ReadField(u, c.rest[1..]);
      if d.None? then None
      else
        var st := SetField(c.stamp, u, d.value.0);
        if st.None? then None
        else if u == Second then ReadFraction(Clock(st.value, 0, d.value.1))
        else Some(Clock(st.value, 0, d.value.1))
  }

  /** A zone: Z or a signed hh:mm, and nothing after it. */
  function ReadZone(s: string): Option<int> {
    if s == "Z" then Some(0)
    else if IsOffset(s) then
      var seconds := ((10 * Digit(s[1]) + Digit(s[2])) * 60 + 10 * Digit(s[4]) + Digit(s[5])) * 60;
      Some(if s[0] == '-' then 0 - seconds else seconds)
    else None
  }

  predicate IsOffset(s: string) {
    |s| == 6 && (s[0] == '+' || s[0] == '-') && IsDigit(s[1]) && IsDigit(s[2]) && s[3] == ':' && IsDigit(s[4]) && IsDigit(s[5])
  }

  /** The end of a layout: the zone, if the layout has one, and nothing else; the day must exist in its month. */
  function Finish(u: Unit, zoned: bool, local: int, read: Option<Clock>): (r: Option<Parsed>)
    ensures r.Some? ==> r.value.stamp.unit == u && Valid(r.value.stamp)
  {
    if read.None? then None
    else
      var c := read.value;
      var zone := if zoned then ReadZone(c.rest) else if c.rest == "" then Some(local) else None;
      if zone.Some? && Valid(c.stamp) && c.stamp.unit == u then Some(Parsed(c.stamp, c.nanos, zone.value)) else None
  }

  /** time.ParseInLocation with the layout of a unit, with or without a zone. */
  function ParseLayout(u: Unit, zoned: bool, local: int, s: string): (r: Option<Parsed>)
    ensures r.Some? ==> r.value.stamp.unit == u && Valid(r.value.stamp)
  {
    Finish(u, zoned, local, ReadFields(u, s))
  }

  /** RFC 3339 dates, as the documents carry them; a text that is none reads as the zero time. */
  function ParseRfc3339(s: string): Instant {
    var p := ParseLayout(Second, true, 0, s);
    if p.Some? then p.value.Time() else 0
  }

  predicate HasZone(s: string) {
    s != "" && (s[|s| - 1] == 'Z' || (|s| >= 6 && IsOffset(s[|s| - 6..])))
  }

  function SpacesToPlus(s: string): string {
    seq(|s|, i requires 0 <= i < |s| => if s[i] == ' ' then '+' else s[i])
  }

  function ParseFrom(u: Unit, zoned: bool, local: int, s: string): (r: Option<Parsed>)
    ensures r.Some? ==> Valid(r.value.stamp)
    decreases 5 - Rank(u)
  {
    var p := ParseLayout(u, zoned, local, s);
    if p.Some? || u == Second then p else ParseFrom(Below(u), zoned, local, s)
  }

  function Below(u: Unit): Unit {
    match u
    case Year => Month
    case Month => Day
    case Day => Hour
    case Hour => Minute
    case _ => Second
  }

  /** Layouts are tried from the year down; when none fits the filter keeps the zero time. */
  function ParseTimeFilter(suffix: string, timeString: string, local: int): TimeFilter {
    var s := SpacesToPlus(timeString);
    var comparison := if suffix in Suffixes() then Suffixes()[suffix] else Eq;
    var p := ParseFrom(Year, HasZone(s), local, s);
    if p.Some? then
      TimeFilter(Precision(p.value.stamp, p.value.offset), p.value.Time(), comparison)
    else TimeFilter(0, 0, comparison)
  }

  // ---------- writing ----------

  function DigitChar(d: int): (c: char)
    requires 0 <= d < 10
    ensures IsDigit(c) && Digit(c) == d
  {
    '0' + d as char
  }

  function TwoDigits(n: int): (s: string)
    ensures |s| == 2 && IsDigit(s[0]) && IsDigit(s[1])
    ensures 0 <= n < 100 ==> 10 * Digit(s[0]) + Digit(s[1]) == n
  {
    [DigitChar(n / 10 % 10), DigitChar(n % 10)]
  }

  function FieldOf(st: Stamp, u: Unit): int {
    match u
    case Year => st.year
    case Month => st.month
    case Day => st.day
    case Hour => st.hour
    case Minute => st.minute
    case Second => st.second
  }

  function Piece(st: Stamp, u: Unit): (s: string)
    ensures |s| == 3 && s[0] == Separator(u) && IsDigit(s[1]) && IsDigit(s[2])
  {
    [Separator(u)] + TwoDigits(FieldOf(st, u))
  }

  /** A truncated date in the form the API documents. */
  function Render(st: Stamp, u: Unit): string
    decreases Rank(u)
  {
    if u == Year then TwoDigits(st.year / 100) + TwoDigits(st.year % 100)
    else Render(st, Above(u)) + Piece(st, u)
  }

  datatype Zone = Local | Utc | Offset(negative: bool, hours: int, minutes: int) {
    predicate Valid() { Offset? ==> 0 <= hours < 100 && 0 <= minutes < 100 }

    function Render(): string
      requires Valid()
    {
      match this
      case Local => ""
      case Utc => "Z"
      case Offset(neg, h, m) => [if neg then '-' else '+'] + TwoDigits(h) + ":" + TwoDigits(m)
    }

    function Seconds(local: int): int {
      match this
      case Local => local
      case Utc => 0
      case Offset(neg, h, m) => if neg then 0 - (h * 60 + m) * 60 else (h * 60 + m) * 60
    }
  }

  // ---------- reading inverts writing ----------

  lemma TwoDigitsRead(u: Unit, n: int, rest: string)
    requires 0 <= n < 100
    ensures ReadField(u, TwoDigits(n) + rest) == Some((n, rest))
  {
    var s := TwoDigits(n) + rest;
    assert s[0] == TwoDigits(n)[0] && s[1] == TwoDigits(n)[1];
    assert s[2..] == rest;
  }

  lemma YearRead(st: Stamp, rest: string)
    requires Valid(st) && 0 <= st.year <= 9999
    ensures ReadFields(Year, Render(st, Year) + rest) == Some(Clock(Truncate(st, Year), 0, rest))
  {
    var s := Render(st, Year) + rest;
    var hi, lo := TwoDigits(st.year / 100), TwoDigits(st.year % 100);
    assert s[0] == hi[0] && s[1] == hi[1] && s[2] == lo[0] && s[3] == lo[1];
    assert s[4..] == rest;
  }

  predicate NoFraction(rest: string) { rest == "" || rest[0] != '.' }

  lemma NextRead(st: Stamp, u: Unit, rest: string)
    requires Valid(st) && u != Year && Rank(u) <= Rank(st.unit) && NoFraction(rest)
    ensures ReadNext(u, Clock(Truncate(st, Above(u)), 0, [Separator(u)] + (TwoDigits(FieldOf(st, u)) + rest)))
         == Some(Clock(Truncate(st, u), 0, rest))
  {
    var field := FieldOf(st, u);
    var tail := [Separator(u)] + (TwoDigits(field) + rest);
    assert tail[1..] == TwoDigits(field) + rest;
    TwoDigitsRead(u, field, rest);
    assert SetField(Truncate(st, Above(u)), u, field) == Some(Truncate(st, u));
  }

  lemma {:induction false} FieldsRead(st: Stamp, u: Unit, rest: string)
    requires Valid(st) && 0 <= st.year <= 9999 && Rank(u) <= Rank(st.unit) && NoFraction(rest)
    ensures ReadFields(u, Render(st, u) + rest) == Some(Clock(Truncate(st, u), 0, rest))
    decreases Rank(u)
  {
    if u == Year {
      YearRead(st, rest);
    } else {
      var tail := [Separator(u)] + (TwoDigits(FieldOf(st, u)) + rest);
      assert Piece(st, u) + rest == tail;
      assert Render(st, u) + rest == Render(st, Above(u)) + tail;
      FieldsRead(st, Above(u), tail);
      NextRead(st, u, rest);
    }
  }

  lemma ZoneRead(z: Zone, local: int)
    requires z.Valid() && !z.Local?
    ensures ReadZone(z.Render()) == Some(z.Seconds(local))
    ensures HasZone(z.Render()) && NoFraction(z.Render())
    ensures z.Utc? || |z.Render()| == 6
  {
    if z.Offset? {
      var s := z.Render();
      assert s == [if z.negative then '-' else '+', TwoDigits(z.hours)[0], TwoDigits(z.hours)[1], ':',
                   TwoDigits(z.minutes)[0], TwoDigits(z.minutes)[1]];
      assert s[|s| - 6..] == s;
    }
  }

  lemma HasZoneAppend(s: string, z: string)
    requires HasZone(z) && (z == "Z" || |z| == 6)
    ensures HasZone(s + z)
  {
    var t := s + z;
    assert t[|t| - 1] == z[|z| - 1];
    if |z| == 6 { assert t[|t| - 6..] == z; }
  }

  lemma {:induction false} RenderLength(st: Stamp, u: Unit)
    ensures |Render(st, u)| == 4 + 3 * Rank(u)
    decreases Rank(u)
  {
    if u != Year { RenderLength(st, Above(u)); }
  }

  /** A rendered date without zone is not mistaken for a zoned one, although months and days look like offsets. */
  lemma RenderHasNoZone(st: Stamp, u: Unit)
    ensures !HasZone(Render(st, u))
  {
    var s := Render(st, u);
    RenderLength(st, u);
    if u == Year {
      assert s[3] == TwoDigits(st.year % 100)[1];
    } else {
      var before, piece := Render(st, Above(u)), Piece(st, u);
      RenderLength(st, Above(u));
      assert s[|s| - 1] == piece[2];
      var t := s[|s| - 6..];
      assert t[3] == piece[0] && t[0] == before[|before| - 3];
      if Above(u) != Year {
        assert before[|before| - 3] == Piece(st, Above(u))[0];
      }
    }
  }

  /** What is left of a rendered date after a coarser layout. */
  function Tail(st: Stamp, v: Unit, u: Unit): string
    requires Rank(v) <= Rank(u)
    decreases Rank(u)
  {
    if u == v then "" else Tail(st, v, Above(u)) + Piece(st, u)
  }

  lemma Associate(a: string, b: string, c: string)
    ensures a + b + c == a + (b + c)
  {
  }

  lemma {:induction false} RenderSplits(st: Stamp, v: Unit, u: Unit)
    requires Rank(v) <= Rank(u)
    ensures Render(st, u) == Render(st, v) + Tail(st, v, u)
    decreases Rank(u)
  {
    if u != v {
      RenderSplits(st, v, Above(u));
      Associate(Render(st, v), Tail(st, v, Above(u)), Piece(st, u));
    }
  }

  /** It starts with the next field, and what follows that field is not a colon after a dash. */
  lemma {:induction false} TailHead(st: Stamp, v: Unit, u: Unit)
    requires Rank(v) < Rank(u)
    ensures var t := Tail(st, v, u);
            |t| == 3 * (Rank(u) - Rank(v)) && t[0] == Separator(Below(v)) && IsDigit(t[1])
            && (|t| > 3 ==> t[3] == Separator(Below(Below(v))))
    decreases Rank(u)
  {
    if Above(u) == v {
      assert Tail(st, v, u) == Piece(st, u);
    } else {
      TailHead(st, v, Above(u));
      if |Tail(st, v, Above(u))| == 3 {
        assert Tail(st, v, u)[3] == Piece(st, u)[0];
      }
    }
  }

  lemma TailIsNoZone(st: Stamp, v: Unit, u: Unit, z: string)
    requires Rank(v) < Rank(u) && MayBeZone(z)
    ensures var t := Tail(st, v, u) + z; t != "" && ReadZone(t).None? && NoFraction(t)
  {
    TailHead(st, v, u);
    var t := Tail(st, v, u) + z;
    assert t[0] == Tail(st, v, u)[0];
    if |t| == 6 {
      assert t[3] == if |Tail(st, v, u)| > 3 then Tail(st, v, u)[3] else z[0];
    }
  }

  lemma FinishTail(c: Clock, v: Unit, zoned: bool, local: int)
    requires c.rest != "" && ReadZone(c.rest).None?
    ensures Finish(v, zoned, local, Some(c)).None?
  {
  }

  predicate MayBeZone(z: string) {
    z == "" || z[0] == 'Z' || z[0] == '+' || z[0] == '-'
  }

  /** Coarser layouts do not fit. */
  lemma CoarserFails(st: Stamp, v: Unit, z: string, zoned: bool, local: int, s: string)
    requires Valid(st) && 0 <= st.year <= 9999 && MayBeZone(z) && Rank(v) < Rank(st.unit)
    requires s == Render(st, st.unit) + z
    ensures ParseLayout(v, zoned, local, s).None?
  {
    var tail := Tail(st, v, st.unit) + z;
    assert s == Render(st, v) + tail by {
      RenderSplits(st, v, st.unit);
      Associate(Render(st, v), Tail(st, v, st.unit), z);
    }
    TailIsNoZone(st, v, st.unit, z);
    FieldsRead(st, v, tail);
    FinishTail(Clock(Truncate(st, v), 0, tail), v, zoned, local);
  }

  lemma FinishOwn(st: Stamp, z: Zone, local: int)
    requires Valid(st) && z.Valid()
    ensures Finish(st.unit, !z.Local?, local, Some(Clock(st, 0, z.Render()))) == Some(Parsed(st, 0, z.Seconds(local)))
    ensures NoFraction(z.Render())
  {
    if !z.Local? { ZoneRead(z, local); }
  }

  lemma OwnLayoutFits(st: Stamp, z: Zone, local: int)
    requires Valid(st) && 0 <= st.year <= 9999 && z.Valid()
    ensures ParseLayout(st.unit, !z.Local?, local, Render(st, st.unit) + z.Render())
         == Some(Parsed(st, 0, z.Seconds(local)))
  {
    FinishOwn(st, z, local);
    FieldsRead(st, st.unit, z.Render());
    assert Truncate(st, st.unit) == st;
  }

  lemma {:induction false} ParseFromRendered(st: Stamp, v: Unit, z: string, zoned: bool, local: int, s: string, parsed: Option<Parsed>)
    requires Valid(st) && 0 <= st.year <= 9999 && MayBeZone(z) && Rank(v) <= Rank(st.unit)
    requires s == Render(st, st.unit) + z
    requires parsed.Some? && ParseLayout(st.unit, zoned, local, s) == parsed
    ensures ParseFrom(v, zoned, local, s) == parsed
    decreases 5 - Rank(v)
  {
    hide ParseLayout, Render, Valid;
    if v != st.unit {
      CoarserFails(st, v, z, zoned, local, s);
      ParseFromRendered(st, Below(v), z, zoned, local, s, parsed);
    }
  }

  lemma {:induction false} RenderHasNoSpace(st: Stamp, u: Unit)
    ensures ' ' !in Render(st, u)
    decreases Rank(u)
  {
    if u != Year { RenderHasNoSpace(st, Above(u)); }
  }

  lemma ZoneHasNoSpace(z: Zone)
    requires z.Valid()
    ensures ' ' !in z.Render() && MayBeZone(z.Render())
  {
  }

  /** The zone test sees a zone exactly when one was written, and there is no space to replace. */
  lemma ZoneSeen(st: Stamp, z: Zone, s: string)
    requires z.Valid() && s == Render(st, st.unit) + z.Render()
    ensures SpacesToPlus(s) == s
    ensures HasZone(s) <==> !z.Local?
    ensures MayBeZone(z.Render())
  {
    hide Render, HasZone, IsOffset;
    RenderHasNoSpace(st, st.unit);
    ZoneHasNoSpace(z);
    if z.Local? {
      assert s == Render(st, st.unit);
      RenderHasNoZone(st, st.unit);
    } else {
      ZoneRead(z, 0);
      HasZoneAppend(Render(st, st.unit), z.Render());
    }
  }

  /** The filter a truncated date stands for. */
  function RangeFilter(st: Stamp, offset: int, comparison: Comparison): TimeFilter
    requires 1 <= st.month <= 12
  {
    TimeFilter(Precision(st, offset), Start(st, offset), comparison)
  }

  /**
   A date written with any documented precision and zone is read back as the
   range it stands for, with the comparison its suffix names.
   */
  lemma ParseRendered(suffix: string, st: Stamp, z: Zone, local: int)
    requires suffix in Suffixes()
    requires Valid(st) && 0 <= st.year <= 9999 && z.Valid()
    ensures var offset := z.Seconds(local);
            ParseTimeFilter(suffix, Render(st, st.unit) + z.Render(), local) == RangeFilter(st, offset, Suffixes()[suffix])
  {
    var s := Render(st, st.unit) + z.Render();
    ZoneSeen(st, z, s);
    OwnLayoutFits(st, z, local);
    ParseFromRendered(st, Year, z.Render(), !z.Local?, local, s, Some(Parsed(st, 0, z.Seconds(local))));
  }

  /** In a URL a plus may arrive as a space. */
  lemma SpaceReadsAsPlus(suffix: string, before: string, after: string, local: int)
    ensures ParseTimeFilter(suffix, before + " " + after, local) == ParseTimeFilter(suffix, before + "+" + after, local)
  {
    hide ParseFrom, HasZone, Precision;
    assert SpacesToPlus(before + " " + after) == SpacesToPlus(before + "+" + after);
  }

  // ---------- fractions of a second ----------

  function Pow10(k: nat): nat { if k == 0 then 1 else 10 * Pow10(k - 1) }

  lemma {:induction false} DigitRunRead(ds: string, rest: string)
    requires AllDigits(ds) && (rest == "" || !IsDigit(rest[0]))
    ensures DigitRun(ds + rest) == |ds|
  {
    if ds == "" {
      assert ds + rest == rest;
    } else {
      assert ds[0] in ds && (ds + rest)[1..] == ds[1..] + rest;
      DigitRunRead(ds[1..], rest);
    }
  }

  lemma UnsignedDigits(ds: string)
    requires AllDigits(ds) && ds != ""
    ensures SignedDigits(ds) == DigitsValue(ds)
  {
    assert ds[0] in ds && ds[0] != '-';
  }

  lemma TenTimes(a: int, k: nat)
    ensures 10 * (a * Pow10(k)) == a * Pow10(k + 1)
  {
    var p := Pow10(k);
    assert Pow10(k + 1) == 10 * p;
    assert 10 * (a * p) == a * (10 * p);
  }

  lemma {:induction false} ScaleRead(ds: string, digits: nat)
    requires AllDigits(ds) && ds != "" && digits <= 9
    ensures ScaleToNanos(ds, digits) == DigitsValue(ds) * Pow10(9 - digits)
    decreases 9 - digits
  {
    hide DigitsValue, SignedDigits, AllDigits, Pow10;
    if digits == 9 {
      UnsignedDigits(ds);
      NoScale();
    } else {
      ScaleRead(ds, digits + 1);
      TenTimes(DigitsValue(ds), 8 - digits);
    }
  }

  lemma NoScale()
    ensures Pow10(0) == 1
  {
  }

  lemma FractionRead(st: Stamp, ds: string, rest: string)
    requires AllDigits(ds) && 1 <= |ds| <= 9 && (rest == "" || !IsDigit(rest[0]))
    ensures ReadFraction(Clock(st, 0, "." + (ds + rest))) == Some(Clock(st, DigitsValue(ds) * Pow10(9 - |ds|), rest))
  {
    hide DigitsValue, SignedDigits, AllDigits;
    var s := "." + (ds + rest);
    assert s[0] == '.' && s[1..] == ds + rest && s[1] == ds[0];
    FirstDigit(ds);
    DigitRunRead(ds, rest);
    assert s[1..|ds| + 1] == ds && s[|ds| + 1..] == rest;
    ScaleRead(ds, |ds|);
  }

  lemma FirstDigit(ds: string)
    requires AllDigits(ds) && ds != ""
    ensures IsDigit(ds[0])
  {
    assert ds[0] in ds;
  }

  lemma SecondRead(st: Stamp, ds: string, rest: string)
    requires Valid(st) && st.unit == Second && 0 <= st.year <= 9999
    requires AllDigits(ds) && 1 <= |ds| <= 9 && (rest == "" || !IsDigit(rest[0]))
    ensures ReadFields(Second, Render(st, Second) + ("." + (ds + rest))) == Some(Clock(st, DigitsValue(ds) * Pow10(9 - |ds|), rest))
  {
    hide ReadFraction, DigitsValue, AllDigits, Valid;
    var tail := "." + (ds + rest);
    var more := [Separator(Second)] + (TwoDigits(st.second) + tail);
    assert Piece(st, Second) + tail == more;
    assert Render(st, Second) + tail == Render(st, Minute) + more;
    FieldsRead(st, Minute, more);
    assert more[1..] == TwoDigits(st.second) + tail;
    SecondsInRange(st);
    TwoDigitsRead(Second, st.second, tail);
    assert SetField(Truncate(st, Minute), Second, st.second) == Some(st);
    FractionRead(st, ds, rest);
  }

  lemma SecondsInRange(st: Stamp)
    requires Valid(st) && st.unit == Second
    ensures 0 <= st.second < 60 && SetField(Truncate(st, Minute), Second, st.second) == Some(st)
  {
  }

  /** A document date in any zone, with or without a fraction of a second. */
  lemma DocumentDate(st: Stamp, ds: string, z: Zone)
    requires Valid(st) && st.unit == Second && 0 <= st.year <= 9999 && z.Valid() && !z.Local?
    requires AllDigits(ds) && 1 <= |ds| <= 9
    ensures ParseRfc3339(Render(st, Second) + z.Render()) == Start(st, 0) - z.Seconds(0) * SECOND
    ensures ParseRfc3339(Render(st, Second) + ("." + (ds + z.Render())))
         == Start(st, 0) - z.Seconds(0) * SECOND + DigitsValue(ds) * Pow10(9 - |ds|)
  {
    hide ReadFields, Render, DigitsValue, AllDigits, Start, Pow10;
    OwnLayoutFits(st, z, 0);
    ZoneIsNoDigit(z);
    SecondRead(st, ds, z.Render());
    ZoneRead(z, 0);
    OffsetShifts(st, z.Seconds(0), 0);
  }

  lemma ZoneIsNoDigit(z: Zone)
    requires z.Valid() && !z.Local?
    ensures z.Render() != "" && !IsDigit(z.Render()[0])
  {
  }

  lemma {:induction false} NothingRead(u: Unit)
    ensures ReadFields(u, "") == None
    decreases Rank(u)
  {
    if u != Year { NothingRead(Above(u)); }
  }

  lemma EmptyIsNoDate()
    ensures ParseRfc3339("") == 0
  {
    hide Valid;
    NothingRead(Second);
  }

  // ---------- what the comparisons mean ----------

  /**
   The comparisons behave as comparisons should, for every instant: exactly one of lt,
   eq, gt holds, le is the complement of gt and ge of lt.  The one date that starts at
   the zero time is the exception.
   */
  lemma ComparisonsAreTotal(st: Stamp, offset: int, x: Instant)
    requires Valid(st) && Start(st, offset) != 0
    ensures var lt, eq, gt := Selects(RangeFilter(st, offset, Lt), x), Selects(RangeFilter(st, offset, Eq), x),
                              Selects(RangeFilter(st, offset, Gt), x);
            && (lt || eq || gt) && !(lt && eq) && !(eq && gt) && !(lt && gt)
            && (Selects(RangeFilter(st, offset, Le), x) <==> !gt)
            && (Selects(RangeFilter(st, offset, Ge), x) <==> !lt)
  {
    hide Start, Precision;
    PrecisionPositive(st, offset);
  }

  /** ... and eq holds exactly for the instants whose civil time, which is unique, truncates to the date. */
  lemma ComparisonsOnCivilTime(st: Stamp, offset: int, x: Instant) returns (s: Stamp)
    requires Valid(st) && Start(st, offset) != 0
    ensures Valid(s) && s.unit == Second && Covers(s, offset, x)
    ensures forall t | Valid(t) && t.unit == Second && Covers(t, offset, x) :: t == s
    ensures var lt, eq, gt := Selects(RangeFilter(st, offset, Lt), x), Selects(RangeFilter(st, offset, Eq), x),
                              Selects(RangeFilter(st, offset, Gt), x);
            && (lt || eq || gt) && !(lt && eq) && !(eq && gt) && !(lt && gt)
            && (eq <==> Truncate(s, st.unit) == st)
            && (Selects(RangeFilter(st, offset, Le), x) <==> !gt)
            && (Selects(RangeFilter(st, offset, Ge), x) <==> !lt)
  {
    hide Start, Precision, Truncate;
    ComparisonsAreTotal(st, offset, x);
    s := CivilTime(offset, x);
    CoversIsTruncation(st, s, offset, x);
  }

  lemma SuffixTexts()
    ensures var m := Suffixes();
            && "" in m && "_eq" in m && "_le" in m && "_ge" in m && "_lt" in m && "_gt" in m
            && m[""] == Eq && m["_eq"] == Eq && m["_le"] == Le && m["_ge"] == Ge && m["_lt"] == Lt && m["_gt"] == Gt
    ensures Suffixes().Keys == {"", "_eq", "_le", "_ge", "_lt", "_gt"}
  {
    assert "_eq"[1] == 'e' && "_le"[1] == 'l' && "_ge"[1] == 'g' && "_lt"[1] == 'l' && "_gt"[1] == 'g';
    assert "_le"[2] == 'e' && "_lt"[2] == 't' && "_ge"[2] == 'e' && "_gt"[2] == 't';
  }

  /** A place with an offset reaches every date that much earlier than UTC. */
  lemma OffsetShifts(st: Stamp, offset: int, x: Instant)
    requires Valid(st)
    ensures Start(st, offset) == Start(st, 0) - offset * SECOND
    ensures Covers(st, offset, x) <==> Covers(st, 0, x + offset * SECOND)
  {
    hide Date;
  }

  /**
   What each suffix of a parameter asks of an instant, for every documented date and
   on the clock of its zone: no suffix and `_eq` ask that it lies in the range of the
   date, `_lt` that it comes before the range, `_gt` after it, `_le` not after and
   `_ge` not before.
   */
  lemma SuffixesMean(st: Stamp, z: Zone, local: int, x: Instant)
    requires Valid(st) && 0 <= st.year <= 9999 && z.Valid() && Start(st, z.Seconds(local)) != 0
    ensures var text, clock := Render(st, st.unit) + z.Render(), x + z.Seconds(local) * SECOND;
            var before, within := clock < Start(st, 0), Covers(st, 0, clock);
            && (Selects(ParseTimeFilter("", text, local), x) <==> within)
            && (Selects(ParseTimeFilter("_eq", text, local), x) <==> within)
            && (Selects(ParseTimeFilter("_lt", text, local), x) <==> before)
            && (Selects(ParseTimeFilter("_gt", text, local), x) <==> !before && !within)
            && (Selects(ParseTimeFilter("_le", text, local), x) <==> before || within)
            && (Selects(ParseTimeFilter("_ge", text, local), x) <==> !before)
  {
    hide Render, ParseTimeFilter, Start, Precision, Suffixes;
    SuffixTexts();
    OffsetShifts(st, z.Seconds(local), x);
    PrecisionPositive(st, z.Seconds(local));
    ParseRendered("", st, z, local);
    ParseRendered("_eq", st, z, local);
    ParseRendered("_lt", st, z, local);
    ParseRendered("_gt", st, z, local);
    ParseRendered("_le", st, z, local);
    ParseRendered("_ge", st, z, local);
  }

  lemma PrecisionPositive(st: Stamp, offset: int)
    requires Valid(st)
    ensures Precision(st, offset) > 0
  {
    if st.unit == Year { YearStep(st.year); }
    if st.unit == Month { MonthEnd(st, offset); }
  }

  /** Every zone that can be written is less than a month from UTC. */
  lemma WrittenIsNearUtc(z: Zone, local: int)
    requires z.Valid() && !z.Local?
    ensures NearUtc(z.Seconds(local))
  {
  }

  /**
   A documented date is taken for an unreadable one exactly when it is the date of
   the zero time at its own precision: 0001-01-01T00:00:00 in UTC, and that time
   shifted by the offset elsewhere.  (A local zone a month or more from UTC would
   shift it to another month; there the first clause still applies.)
   */
  lemma ZeroDateIsNoDate(suffix: string, st: Stamp, z: Zone, local: int)
    requires suffix in Suffixes()
    requires Valid(st) && 0 <= st.year <= 9999 && z.Valid()
    ensures var isNoDate := ParseTimeFilter(suffix, Render(st, st.unit) + z.Render(), local).IsZero();
            && (isNoDate <==> Start(st, z.Seconds(local)) == 0)
            && (!z.Local? || NearUtc(local) ==> (isNoDate <==> st == ZeroStamp(z.Seconds(local)).(unit := st.unit)))
  {
    ParseRendered(suffix, st, z, local);
    if !z.Local? { WrittenIsNearUtc(z, local); }
    if NearUtc(z.Seconds(local)) { StartsAtZero(st, z.Seconds(local)); }
  }

  lemma YearOneText()
    ensures Render(ZeroStamp(0), Year) == "0001"
  {
    assert TwoDigits(0) == "00" && TwoDigits(1) == "01";
  }

  lemma YearOneClock()
    ensures Render(ZeroStamp(0), Second) == "0001-01-01T00:00:00"
  {
    var st := ZeroStamp(0);
    YearOneText();
    assert TwoDigits(0) == "00" && TwoDigits(1) == "01";
    assert Render(st, Month) == "0001" + "-01";
    assert Render(st, Day) == "0001-01" + "-01";
    assert Render(st, Hour) == "0001-01-01" + "T00";
    assert Render(st, Minute) == "0001-01-01T00" + ":00";
    assert Render(st, Second) == "0001-01-01T00:00" + ":00";
  }

  /** Two such dates: a plain year on a server in UTC, and the full form anywhere. */
  lemma ZeroDates(local: int)
    ensures ParseTimeFilter("", "0001", 0).IsZero()
    ensures ParseTimeFilter("", "0001-01-01T00:00:00Z", local).IsZero()
  {
    var st := ZeroStamp(0);
    YearOneText();
    YearOneClock();
    assert Render(st, Year) == Render(st.(unit := Year), Year);
    assert "0001" + Local.Render() == "0001";
    assert "0001-01-01T00:00:00" + Utc.Render() == "0001-01-01T00:00:00Z";
    ZeroDateIsNoDate("", st.(unit := Year), Local, 0);
    ZeroDateIsNoDate("", st, Utc, local);
  }
}
