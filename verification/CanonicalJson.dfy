/**
 The normalising comparison of ValidateUpdated: decode both texts, print both
 values with sorted keys, compare the prints.  The module proves that the prints
 are equal exactly when the values are, whatever the documents look like.
 */
module CanonicalJson {
  import opened Options
  import opened Json
  import opened JsonEquality

  // ---------- number printing, kept abstract ----------

  predicate IsNumberChar(c: char) {
    IsDigit(c) || c == '-' || c == '+' || c == '.' || c == 'e' || c == 'E'
  }

  /** All the comparison needs to know of the printer of doubles: different doubles print differently, as number tokens. */
  ghost predicate PrintsDoubles(format: nat -> string) {
    && (forall n :: format(n) != "" && forall c <- format(n) :: IsNumberChar(c))
    && (forall m, n :: format(m) == format(n) ==> m == n)
  }

  type DoubleFormat = format: nat -> string | PrintsDoubles(format)
    ghost witness UnaryFormat()

  /** A printer with these properties exists. */
  function UnaryFormat(): (format: nat -> string)
    ensures PrintsDoubles(format)
  {
    var f := (n: nat) => seq(n + 1, _ => '1');
    assert forall m: nat, n: nat :: f(m) == f(n) ==> m == n by {
      forall m: nat, n: nat | f(m) == f(n) ensures m == n {
        assert |f(m)| == m + 1 && |f(n)| == n + 1;
      }
    }
    f
  }

  // ---------- string printing ----------

  function HexDigit(d: nat): (c: char)
    requires d < 16
    ensures IsDigit(c) || 'a' <= c <= 'f'
  {
    if d < 10 then '0' + d as char else 'a' + (d - 10) as char
  }

  lemma HexDigitInjective(d: nat, e: nat)
    requires d < 16 && e < 16 && HexDigit(d) == HexDigit(e)
    ensures d == e
  {
    assert (HexDigit(d) as int) == if d < 10 then 48 + d else 87 + d;
    assert (HexDigit(e) as int) == if e < 10 then 48 + e else 87 + e;
  }

  /** Characters the encoder writes as a \u escape: control characters without a short form, and < > & for HTML. */
  predicate EscapedAsHex(c: char) {
    c < ' ' || c == '<' || c == '>' || c == '&'
  }

  function EscapeChar(c: char): (s: string)
    ensures s != "" && s[0] != '"'
  {
    if c == '"' then "\\\""
    else if c == '\\' then "\\\\"
    else if c == '\n' then "\\n"
    else if c == '\r' then "\\r"
    else if c == '\t' then "\\t"
    else if EscapedAsHex(c) then ['\\', 'u', '0', '0', HexDigit(c as int / 16), HexDigit(c as int % 16)]
    else if c == '\U{2028}' then "\\u2028"
    else if c == '\U{2029}' then "\\u2029"
    else [c]
  }

  /** The closing part of a quoted string, in front of the rest of the text. */
  function Escape(s: string, rest: string): string {
    if s == "" then "\"" + rest else EscapeChar(s[0]) + Escape(s[1..], rest)
  }

  lemma EscapeCharPrefixFree(c: char, d: char, r: string, q: string)
    requires EscapeChar(c) + r == EscapeChar(d) + q
    ensures c == d && r == q
  {
    var left, right := EscapeChar(c) + r, EscapeChar(d) + q;
    assert left[0] == EscapeChar(c)[0] && right[0] == EscapeChar(d)[0];
    if EscapeChar(c)[0] == '\\' {
      assert left[1] == EscapeChar(c)[1] && right[1] == EscapeChar(d)[1];
      if EscapeChar(c)[1] == 'u' {
        assert left[2] == EscapeChar(c)[2] && right[2] == EscapeChar(d)[2];
        assert left[4] == EscapeChar(c)[4] && right[4] == EscapeChar(d)[4];
        assert left[5] == EscapeChar(c)[5] && right[5] == EscapeChar(d)[5];
        if EscapedAsHex(c) {
          assert EscapedAsHex(d);
          assert c as int < 256 && d as int < 256;
          HexDigitInjective(c as int / 16, d as int / 16);
          HexDigitInjective(c as int % 16, d as int % 16);
        }
      }
    }
    assert c == d;
    assert left[|EscapeChar(c)|..] == r && right[|EscapeChar(d)|..] == q;
  }

  /** A quoted string can be read back from the front of any text. */
  lemma {:induction false} EscapePrefixFree(s: string, t: string, r: string, q: string)
    requires Escape(s, r) == Escape(t, q)
    ensures s == t && r == q
    decreases |s| + |t|
  {
    assert Escape(s, r)[0] == if s == "" then '"' else EscapeChar(s[0])[0];
    assert Escape(t, q)[0] == if t == "" then '"' else EscapeChar(t[0])[0];
    if s == "" {
      DropEqual("\"", r, q);
    } else {
      EscapeCharPrefixFree(s[0], t[0], Escape(s[1..], r), Escape(t[1..], q));
      EscapePrefixFree(s[1..], t[1..], r, q);
      assert s == [s[0]] + s[1..] && t == [t[0]] + t[1..];
    }
  }

  lemma DropEqual(a: string, r: string, q: string)
    requires a + r == a + q
    ensures r == q
  {
    assert (a + r)[|a|..] == r && (a + q)[|a|..] == q;
  }

  // ---------- key order ----------

  predicate LexLeq(a: string, b: string) {
    a == "" || (b != "" && (a[0] < b[0] || (a[0] == b[0] && LexLeq(a[1..], b[1..]))))
  }

  lemma {:induction false} LexTotal(a: string, b: string)
    ensures LexLeq(a, b) || LexLeq(b, a)
  {
    if a != "" && b != "" { LexTotal(a[1..], b[1..]); }
  }

  lemma {:induction false} LexAntisymmetric(a: string, b: string)
    requires LexLeq(a, b) && LexLeq(b, a)
    ensures a == b
  {
    if a != "" && b != "" {
      LexAntisymmetric(a[1..], b[1..]);
      assert a == [a[0]] + a[1..] && b == [b[0]] + b[1..];
    }
  }

  lemma {:induction false} LexTransitive(a: string, b: string, c: string)
    requires LexLeq(a, b) && LexLeq(b, c)
    ensures LexLeq(a, c)
  {
    if a != "" && a[0] == b[0] == c[0] { LexTransitive(a[1..], b[1..], c[1..]); }
  }

  predicate IsLeast(k: string, s: set<string>) {
    k in s && forall x <- s :: LexLeq(k, x)
  }

  lemma {:induction false} LeastExists(s: set<string>) returns (k: string)
    requires s != {}
    ensures IsLeast(k, s)
  {
    var x :| x in s;
    if s == {x} {
      LexTotal(x, x);
      k := x;
    } else {
      var y := LeastExists(s - {x});
      LexTotal(x, y);
      if LexLeq(x, y) {
        k := x;
        forall z | z in s ensures LexLeq(x, z) {
          if z == x { LexTotal(x, x); } else { LexTransitive(x, y, z); }
        }
      } else {
        k := y;
      }
    }
  }

  lemma LeastUnique(s: set<string>)
    ensures forall k, l :: IsLeast(k, s) && IsLeast(l, s) ==> k == l
  {
    forall k, l | IsLeast(k, s) && IsLeast(l, s) ensures k == l {
      LexAntisymmetric(k, l);
    }
  }

  function Least(s: set<string>): (k: string)
    requires s != {}
    ensures IsLeast(k, s)
  {
    assert exists k :: IsLeast(k, s) by { var k := LeastExists(s); }
    LeastUnique(s);
    var k :| k in s && IsLeast(k, s);
    k
  }

  predicate Sorted(ks: seq<string>) {
    forall i, j :: 0 <= i < j < |ks| ==> LexLeq(ks[i], ks[j]) && ks[i] != ks[j]
  }

  /** The order in which an object's members are printed. */
  function SortedKeys(s: set<string>): (ks: seq<string>)
    ensures forall k :: k in ks <==> k in s
    ensures Sorted(ks)
  {
    if s == {} then []
    else
      var k := Least(s);
      [k] + SortedKeys(s - {k})
  }

  // ---------- the printer ----------

  /** The print of a value, written in front of the rest of the text. */
  function Print(format: DoubleFormat, v: Value, rest: string): string
    decreases v
  {
    match v
    case VNull => "null" + rest
    case VBool(b) => (if b then "true" else "false") + rest
    case VNum(bits) => format(bits) + rest
    case VStr(s) => Quote(s, rest)
    case VArr(items) =>
      "[" + if items == [] then "]" + rest else Print(format, items[0], PrintItems(format, items[1..], rest))
    case VObj(fields) =>
      var ks := SortedKeys(fields.Keys);
      "{" + if ks == [] then "}" + rest else
              assert ks[0] in ks;
              assert forall k <- ks[1..] :: k in ks;
              Quote(ks[0], ":" + Print(format, fields[ks[0]], PrintFields(format, v, ks[1..], rest)))
  }

  function Quote(s: string, rest: string): string {
    "\"" + Escape(s, rest)
  }

  function PrintItems(format: DoubleFormat, items: seq<Value>, rest: string): string
    decreases items
  {
    if items == [] then "]" + rest
    else "," + Print(format, items[0], PrintItems(format, items[1..], rest))
  }

  function PrintFields(format: DoubleFormat, v: Value, ks: seq<string>, rest: string): string
    requires v.VObj? && forall k <- ks :: k in v.fields
    decreases v, |ks|
  {
    if ks == [] then "}" + rest
    else "," + Quote(ks[0], ":" + Print(format, v.fields[ks[0]], PrintFields(format, v, ks[1..], rest)))
  }

  // ---------- the printer is injective ----------

  /** What may follow a printed value inside a larger text. */
  predicate Delimited(r: string) {
    r == "" || r[0] == ',' || r[0] == ']' || r[0] == '}'
  }

  lemma NumberEnds(format: DoubleFormat, n: nat, r: string)
    requires Delimited(r)
    ensures forall i :: 0 <= i < |format(n)| ==> IsNumberChar((format(n) + r)[i])
    ensures r != "" ==> !IsNumberChar((format(n) + r)[|format(n)|])
  {
    forall i | 0 <= i < |format(n)| ensures IsNumberChar((format(n) + r)[i]) {
      assert (format(n) + r)[i] == format(n)[i] && format(n)[i] in format(n);
    }
  }

  lemma NumberPrefixFree(format: DoubleFormat, m: nat, n: nat, r: string, q: string)
    requires Delimited(r) && Delimited(q)
    requires format(m) + r == format(n) + q
    ensures m == n && r == q
  {
    NumberEnds(format, m, r);
    NumberEnds(format, n, q);
    var text := format(m) + r;
    assert |format(m)| == |format(n)|;
    assert text[..|format(m)|] == format(m) && text[..|format(n)|] == format(n);
    DropEqual(format(m), r, q);
  }

  lemma QuotePrefixFree(s: string, t: string, r: string, q: string)
    requires Quote(s, r) == Quote(t, q)
    ensures s == t && r == q
  {
    DropEqual("\"", Escape(s, r), Escape(t, q));
    EscapePrefixFree(s, t, r, q);
  }

  /** The first character tells the kind of a value. */
  function Kind(c: char): int {
    if c == 'n' then 0 else if c == 't' then 1 else if c == 'f' then 2 else if c == '"' then 3
    else if c == '[' then 4 else if c == '{' then 5 else if IsNumberChar(c) then 6 else 7
  }

  function KindOf(v: Value): int {
    match v
    case VNull => 0
    case VBool(b) => if b then 1 else 2
    case VStr(_) => 3
    case VArr(_) => 4
    case VObj(_) => 5
    case VNum(_) => 6
  }

  lemma FirstChar(format: DoubleFormat, v: Value, r: string)
    ensures Print(format, v, r) != ""
    ensures Kind(Print(format, v, r)[0]) == KindOf(v)
  {
    match v
    case VNull => assert ("null" + r)[0] == 'n';
    case VBool(b) => assert ("true" + r)[0] == 't' && ("false" + r)[0] == 'f';
    case VNum(bits) => NumberEnds(format, bits, "");
      assert (format(bits) + "")[0] == (format(bits) + r)[0];
    case VStr(s) => assert Quote(s, r)[0] == '"';
    case VArr(_) => assert Print(format, v, r)[0] == '[';
    case VObj(_) => assert Print(format, v, r)[0] == '{';
  }

  lemma {:induction false} PrintPrefixFree(format: DoubleFormat, v: Value, w: Value, r: string, q: string)
    requires Delimited(r) && Delimited(q)
    requires Print(format, v, r) == Print(format, w, q)
    ensures v == w && r == q
    decreases v
  {
    FirstChar(format, v, r);
    FirstChar(format, w, q);
    match v
    case VNull => DropEqual("null", r, q);
    case VBool(b) => DropEqual(if b then "true" else "false", r, q);
    case VNum(bits) => NumberPrefixFree(format, bits, w.bits, r, q);
    case VStr(s) => QuotePrefixFree(s, w.s, r, q);
    case VArr(items) => ArrayPrefixFree(format, v, w, r, q);
    case VObj(_) => ObjectPrefixFree(format, v, w, r, q);
  }

  lemma {:induction false} ArrayPrefixFree(format: DoubleFormat, v: Value, w: Value, r: string, q: string)
    requires v.VArr? && w.VArr?
    requires Delimited(r) && Delimited(q)
    requires Print(format, v, r) == Print(format, w, q)
    ensures v == w && r == q
    decreases v, 0
  {
    var xs, ys := v.items, w.items;
    DropEqual("[", ArrayBody(format, xs, r), ArrayBody(format, ys, q));
    ArrayBodyKind(format, xs, r);
    ArrayBodyKind(format, ys, q);
    if xs == [] {
      DropEqual("]", r, q);
    } else {
      PrintPrefixFree(format, xs[0], ys[0], PrintItems(format, xs[1..], r), PrintItems(format, ys[1..], q));
      ItemsPrefixFree(format, xs[1..], ys[1..], r, q);
      assert xs == [xs[0]] + xs[1..] && ys == [ys[0]] + ys[1..];
    }
  }

  /** What follows the opening bracket of a printed array. */
  function ArrayBody(format: DoubleFormat, xs: seq<Value>, rest: string): string {
    if xs == [] then "]" + rest else Print(format, xs[0], PrintItems(format, xs[1..], rest))
  }

  lemma ArrayBodyKind(format: DoubleFormat, xs: seq<Value>, r: string)
    ensures ArrayBody(format, xs, r) != ""
    ensures xs == [] <==> Kind(ArrayBody(format, xs, r)[0]) == 7
  {
    if xs != [] { FirstChar(format, xs[0], PrintItems(format, xs[1..], r)); }
  }

  lemma {:induction false} ItemsPrefixFree(format: DoubleFormat, xs: seq<Value>, ys: seq<Value>, r: string, q: string)
    requires Delimited(r) && Delimited(q)
    requires PrintItems(format, xs, r) == PrintItems(format, ys, q)
    ensures xs == ys && r == q
    decreases xs
  {
    assert PrintItems(format, xs, r)[0] == (if xs == [] then ']' else ',');
    assert PrintItems(format, ys, q)[0] == (if ys == [] then ']' else ',');
    if xs == [] {
      DropEqual("]", r, q);
    } else {
      var xr, yr := PrintItems(format, xs[1..], r), PrintItems(format, ys[1..], q);
      DropEqual(",", Print(format, xs[0], xr), Print(format, ys[0], yr));
      PrintPrefixFree(format, xs[0], ys[0], xr, yr);
      ItemsPrefixFree(format, xs[1..], ys[1..], r, q);
      assert xs == [xs[0]] + xs[1..] && ys == [ys[0]] + ys[1..];
    }
  }

  lemma {:induction false} ObjectPrefixFree(format: DoubleFormat, v: Value, w: Value, r: string, q: string)
    requires v.VObj? && w.VObj?
    requires Delimited(r) && Delimited(q)
    requires Print(format, v, r) == Print(format, w, q)
    ensures v == w && r == q
    decreases v, 0
  {
    var ks, ls := SortedKeys(v.fields.Keys), SortedKeys(w.fields.Keys);
    assert Print(format, v, r)[1] == (if ks == [] then '}' else '"');
    assert Print(format, w, q)[1] == (if ls == [] then '}' else '"');
    if ks == [] {
      DropEqual("{", "}" + r, "}" + q);
      DropEqual("}", r, q);
      EmptyFields(v, ks);
      EmptyFields(w, ls);
    } else {
      assert ks[0] in ks && ls[0] in ls;
      assert forall k <- ks[1..] :: k in ks;
      assert forall l <- ls[1..] :: l in ls;
      EntryPrefixFree(format, v, w, "{", ks, ls, r, q);
      SameFields(v, w, ks);
    }
  }

  lemma EmptyFields(v: Value, ks: seq<string>)
    requires v.VObj? && ks == [] && forall k :: k in ks <==> k in v.fields
    ensures v.fields == map[]
  {
  }

  lemma SameFields(v: Value, w: Value, ks: seq<string>)
    requires v.VObj? && w.VObj?
    requires forall k :: k in ks <==> k in v.fields
    requires forall k :: k in ks <==> k in w.fields
    requires forall k <- ks :: v.fields[k] == w.fields[k]
    ensures v == w
  {
    assert v.fields.Keys == w.fields.Keys;
    assert v.fields == w.fields;
  }

  /** A run of printed `"key":value` entries after its opening character. */
  lemma {:induction false} EntryPrefixFree(format: DoubleFormat, v: Value, w: Value, open: string, ks: seq<string>, ls: seq<string>, r: string, q: string)
    requires v.VObj? && w.VObj? && (forall k <- ks :: k in v.fields) && (forall l <- ls :: l in w.fields)
    requires Delimited(r) && Delimited(q) && ks != [] && ls != []
    requires open + Quote(ks[0], ":" + Print(format, v.fields[ks[0]], PrintFields(format, v, ks[1..], r)))
          == open + Quote(ls[0], ":" + Print(format, w.fields[ls[0]], PrintFields(format, w, ls[1..], q)))
    ensures ks == ls && (forall k <- ks :: v.fields[k] == w.fields[k]) && r == q
    decreases v, 0, |ks|, 0
  {
    var vr, wr := PrintFields(format, v, ks[1..], r), PrintFields(format, w, ls[1..], q);
    var vt, wt := Print(format, v.fields[ks[0]], vr), Print(format, w.fields[ls[0]], wr);
    DropEqual(open, Quote(ks[0], ":" + vt), Quote(ls[0], ":" + wt));
    QuotePrefixFree(ks[0], ls[0], ":" + vt, ":" + wt);
    DropEqual(":", vt, wt);
    PrintPrefixFree(format, v.fields[ks[0]], w.fields[ls[0]], vr, wr);
    FieldsPrefixFree(format, v, w, ks[1..], ls[1..], r, q);
    assert ks == [ks[0]] + ks[1..] && ls == [ls[0]] + ls[1..];
  }

  lemma {:induction false} FieldsPrefixFree(format: DoubleFormat, v: Value, w: Value, ks: seq<string>, ls: seq<string>, r: string, q: string)
    requires v.VObj? && w.VObj? && (forall k <- ks :: k in v.fields) && (forall l <- ls :: l in w.fields)
    requires Delimited(r) && Delimited(q)
    requires PrintFields(format, v, ks, r) == PrintFields(format, w, ls, q)
    ensures ks == ls && (forall k <- ks :: v.fields[k] == w.fields[k]) && r == q
    decreases v, 0, |ks|, 1
  {
    assert PrintFields(format, v, ks, r)[0] == (if ks == [] then '}' else ',');
    assert PrintFields(format, w, ls, q)[0] == (if ls == [] then '}' else ',');
    if ks == [] {
      DropEqual("}", r, q);
    } else {
      EntryPrefixFree(format, v, w, ",", ks, ls, r, q);
    }
  }

  /** Equal prints mean equal values: the comparison loses nothing. */
  lemma PrintInjective(format: DoubleFormat, v: Value, w: Value)
    requires Print(format, v, "") == Print(format, w, "")
    ensures v == w
  {
    PrintPrefixFree(format, v, w, "", "");
  }

  /**
   The helper of ValidateUpdated.  Two missing values pass; otherwise both must be
   present, decode, and be the same JSON value at every depth.
   */
  method CheckEqual(format: DoubleFormat, a: Option<Json>, b: Option<Json>) returns (ok: bool)
    ensures ok <==> SameValue(a, b)
    ensures ok <==> EqualAsJson(a, b)
  {
    SameValueIff(a, b);
    if a.None? || b.None? {
      return a.None? && b.None?;
    }
    var va := Decode(a.value);
    if va.None? { return false; }
    var vb := Decode(b.value);
    if vb.None? { return false; }
    var normalizedA := Print(format, va.value, "");
    var normalizedB := Print(format, vb.value, "");
    if normalizedA == normalizedB {
      PrintInjective(format, va.value, vb.value);
    }
    ok := normalizedA == normalizedB;
  }

  // ---------- what equality as JSON values ignores and what it does not ----------

  lemma EntriesSwap(a: string, v: Value, b: string, w: Value, fields: map<string, Value>)
    requires a != b
    ensures map[a := v] + (map[b := w] + fields) == map[b := w] + (map[a := v] + fields)
  {
  }

  /** Swapping two adjacent members with different keys changes nothing. */
  lemma {:induction false} KeyOrderIgnored(before: seq<Member>, x: Member, y: Member, after: seq<Member>)
    requires x.key != y.key
    ensures DecodeMembers(before + [x, y] + after) == DecodeMembers(before + [y, x] + after)
  {
    hide Decode;
    var s, t := before + [x, y] + after, before + [y, x] + after;
    if before == [] {
      assert s[1..] == [y] + after && t[1..] == [x] + after;
      assert s[1..][1..] == after && t[1..][1..] == after;
      var fs, vx, vy := DecodeMembers(after), Decode(x.value), Decode(y.value);
      if fs.Some? && vx.Some? && vy.Some? { EntriesSwap(x.key, vx.value, y.key, vy.value, fs.value); }
    } else {
      KeyOrderIgnored(before[1..], x, y, after);
      assert s[1..] == before[1..] + [x, y] + after && t[1..] == before[1..] + [y, x] + after;
    }
  }

  /** A member whose key occurs again later is ignored, provided its own numbers are in range. */
  lemma {:induction false} ShadowedMemberIgnored(before: seq<Member>, x: Member, after: seq<Member>)
    requires x.key in Keys(after) && Decode(x.value).Some?
    ensures DecodeMembers(before + [x] + after) == DecodeMembers(before + after)
  {
    var s := before + [x] + after;
    if before == [] {
      assert s[1..] == after && before + after == after;
      var fs := DecodeMembers(after);
      if fs.Some? { Overridden(x.key, Decode(x.value).value, fs.value); }
    } else {
      ShadowedMemberIgnored(before[1..], x, after);
      assert s[1..] == before[1..] + [x] + after;
      assert (before + after)[1..] == before[1..] + after;
    }
  }

  /** Array order counts: decodable arrays are equal exactly when they are equal element by element, in place. */
  lemma {:induction false} ArrayOrderCounts(xs: seq<Json>, ys: seq<Json>)
    requires DecodeItems(xs).Some? && DecodeItems(ys).Some?
    ensures DecodeItems(xs) == DecodeItems(ys) <==>
            |xs| == |ys| && forall i :: 0 <= i < |xs| ==> SameValue(Some(xs[i]), Some(ys[i]))
  {
    if xs != [] && ys != [] {
      ArrayOrderCounts(xs[1..], ys[1..]);
      var x, y := DecodeItems(xs).value, DecodeItems(ys).value;
      assert x[0] == Decode(xs[0]).value && x[1..] == DecodeItems(xs[1..]).value;
      assert y[0] == Decode(ys[0]).value && y[1..] == DecodeItems(ys[1..]).value;
      if |xs| == |ys| && forall i :: 0 <= i < |xs| ==> SameValue(Some(xs[i]), Some(ys[i])) {
        forall i | 0 <= i < |xs[1..]| ensures SameValue(Some(xs[1..][i]), Some(ys[1..][i])) {
          assert xs[1..][i] == xs[i + 1] && ys[1..][i] == ys[i + 1];
        }
      }
      if DecodeItems(xs) == DecodeItems(ys) {
        forall i | 0 <= i < |xs| ensures |xs| == |ys| && SameValue(Some(xs[i]), Some(ys[i])) {
          if i > 0 {
            assert xs[1..][i - 1] == xs[i] && ys[1..][i - 1] == ys[i];
          }
        }
      }
    }
  }
}
