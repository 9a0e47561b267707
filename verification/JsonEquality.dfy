/**
 Equality of documents as JSON values, read off the documents themselves: no
 decoding, no maps.  Decoding and comparing the results comes to the same.
 */
module JsonEquality {
  import opened Options
  import opened Json

  /** Every number has a double, at any depth, also in members that a later one shadows. */
  predicate InRange(j: Json)
    decreases j
  {
    match j
    case Num(n) => n.bits.Some?
    case Arr(items) => forall i | 0 <= i < |items| :: InRange(items[i])
    case Obj(ms) => forall i | 0 <= i < |ms| :: InRange(ms[i].value)
    case _ => true
  }

  /** No later member has the same key. */
  predicate IsLast(ms: seq<Member>, i: nat)
    requires i < |ms|
  {
    forall k :: i < k < |ms| ==> ms[k].key != ms[i].key
  }

  /**
   Scalars of one kind with one value, arrays element by element, objects with the
   same keys whose last members are alike.
   */
  predicate Alike(a: Json, b: Json)
    decreases a
  {
    match (a, b)
    case (Null, Null) => true
    case (Bool(x), Bool(y)) => x == y
    case (Num(m), Num(n)) => m.bits == n.bits
    case (Str(s), Str(t)) => s == t
    case (Arr(xs), Arr(ys)) => |xs| == |ys| && forall i | 0 <= i < |xs| :: Alike(xs[i], ys[i])
    case (Obj(ms), Obj(ns)) =>
      && Keys(ms) == Keys(ns)
      && forall i, j | 0 <= i < |ms| && 0 <= j < |ns| && ms[i].key == ns[j].key && IsLast(ms, i) && IsLast(ns, j) ::
           Alike(ms[i].value, ns[j].value)
    case _ => false
  }

  /** Two lookup results that the update check takes for equal. */
  predicate EqualAsJson(a: Option<Json>, b: Option<Json>) {
    (a.None? && b.None?) || (a.Some? && b.Some? && InRange(a.value) && InRange(b.value) && Alike(a.value, b.value))
  }

  // ---------- decoding ----------

  lemma {:induction false} DecodesIff(j: Json)
    ensures Decode(j).Some? <==> InRange(j)
    decreases j
  {
    match j
    case Arr(items) => ItemsDecodeIff(items);
    case Obj(ms) => MembersDecodeIff(ms);
    case _ =>
  }

  lemma {:induction false} ItemsDecodeIff(items: seq<Json>)
    ensures DecodeItems(items).Some? <==> forall i | 0 <= i < |items| :: InRange(items[i])
    decreases items
  {
    if items != [] {
      DecodesIff(items[0]);
      ItemsDecodeIff(items[1..]);
      assert items == [items[0]] + items[1..];
    }
  }

  lemma {:induction false} MembersDecodeIff(ms: seq<Member>)
    ensures DecodeMembers(ms).Some? <==> forall i | 0 <= i < |ms| :: InRange(ms[i].value)
    decreases ms
  {
    if ms != [] {
      DecodesIff(ms[0].value);
      MembersDecodeIff(ms[1..]);
      assert ms == [ms[0]] + ms[1..];
    }
  }

  lemma {:induction false} DecodedItem(items: seq<Json>, i: nat)
    requires DecodeItems(items).Some? && i < |items|
    ensures |DecodeItems(items).value| == |items|
    ensures Decode(items[i]) == Some(DecodeItems(items).value[i])
  {
    if i > 0 {
      DecodedItem(items[1..], i - 1);
    } else if |items| > 1 {
      DecodedItem(items[1..], 0);
    }
  }

  lemma {:induction false} DecodedLength(items: seq<Json>)
    requires DecodeItems(items).Some?
    ensures |DecodeItems(items).value| == |items|
  {
    if items != [] { DecodedItem(items, 0); }
  }

  /** A decoded object holds the value of the last member of each key. */
  lemma {:induction false} DecodedMember(ms: seq<Member>, i: nat)
    requires DecodeMembers(ms).Some? && i < |ms| && IsLast(ms, i)
    ensures ms[i].key in DecodeMembers(ms).value && Decode(ms[i].value) == Some(DecodeMembers(ms).value[ms[i].key])
  {
    if i > 0 {
      assert IsLast(ms[1..], i - 1) && ms[1..][i - 1] == ms[i];
      DecodedMember(ms[1..], i - 1);
    } else {
      assert ms[0].key !in Keys(ms[1..]);
    }
  }

  lemma {:induction false} LastIndex(ms: seq<Member>, key: string) returns (i: nat)
    requires key in Keys(ms)
    ensures i < |ms| && ms[i].key == key && IsLast(ms, i)
  {
    KeysCons(ms);
    if key in Keys(ms[1..]) {
      var k := LastIndex(ms[1..], key);
      i := k + 1;
      assert ms[i] == ms[1..][k];
      assert forall l :: i < l < |ms| ==> ms[l] == ms[1..][l - 1];
    } else {
      i := 0;
      assert forall l :: 0 < l < |ms| ==> ms[l] == ms[1..][l - 1] && ms[l].key in Keys(ms[1..]);
    }
  }

  lemma {:induction false} ItemsEqualIff(xs: seq<Json>, ys: seq<Json>)
    requires InRange(Arr(xs)) && InRange(Arr(ys))
    ensures DecodeItems(xs) == DecodeItems(ys) <==> |xs| == |ys| && forall i | 0 <= i < |xs| :: Alike(xs[i], ys[i])
    decreases xs
  {
    ItemsDecodeIff(xs);
    ItemsDecodeIff(ys);
    DecodedLength(xs);
    DecodedLength(ys);
    if |xs| == |ys| {
      var vs, ws := DecodeItems(xs).value, DecodeItems(ys).value;
      forall i | 0 <= i < |xs| ensures vs[i] == ws[i] <==> Alike(xs[i], ys[i]) {
        DecodedItem(xs, i);
        DecodedItem(ys, i);
        DecodeEqualIff(xs[i], ys[i]);
      }
      assert vs == ws <==> forall i | 0 <= i < |xs| :: vs[i] == ws[i];
    }
  }

  lemma {:induction false} MembersEqualIff(ms: seq<Member>, ns: seq<Member>)
    requires InRange(Obj(ms)) && InRange(Obj(ns))
    ensures DecodeMembers(ms) == DecodeMembers(ns) <==> Alike(Obj(ms), Obj(ns))
    decreases ms
  {
    MembersDecodeIff(ms);
    MembersDecodeIff(ns);
    var vs, ws := DecodeMembers(ms).value, DecodeMembers(ns).value;
    forall i, j | 0 <= i < |ms| && 0 <= j < |ns| && ms[i].key == ns[j].key && IsLast(ms, i) && IsLast(ns, j)
      ensures vs[ms[i].key] == ws[ms[i].key] <==> Alike(ms[i].value, ns[j].value)
    {
      DecodedMember(ms, i);
      DecodedMember(ns, j);
      DecodeEqualIff(ms[i].value, ns[j].value);
    }
    if Alike(Obj(ms), Obj(ns)) {
      forall key | key in vs ensures vs[key] == ws[key] {
        var i := LastIndex(ms, key);
        var j := LastIndex(ns, key);
      }
      assert vs == ws;
    }
  }

  /** Two documents that decode have one value exactly when they are alike. */
  lemma {:induction false} DecodeEqualIff(a: Json, b: Json)
    requires InRange(a) && InRange(b)
    ensures Decode(a) == Decode(b) <==> Alike(a, b)
    decreases a
  {
    DecodesIff(a);
    DecodesIff(b);
    match (a, b)
    case (Arr(xs), Arr(ys)) => ItemsEqualIff(xs, ys);
    case (Obj(ms), Obj(ns)) => MembersEqualIff(ms, ns);
    case _ =>
  }

  /** Comparing decoded values is comparing the documents. */
  lemma SameValueIff(a: Option<Json>, b: Option<Json>)
    ensures SameValue(a, b) <==> EqualAsJson(a, b)
  {
    hide InRange, Alike, Decode;
    if a.Some? && b.Some? {
      DecodesIff(a.value);
      DecodesIff(b.value);
      if InRange(a.value) && InRange(b.value) { DecodeEqualIff(a.value, b.value); }
    }
  }
}
