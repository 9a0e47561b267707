/**
 JSON documents as the service meets them.

 A document that arrives over the wire is text, so an object is an ordered list
 of members that may repeat a key.  Three readers look at it and they do not
 agree on repeated keys: the path lookup takes the first match, the jsonb column
 and the standard decoder keep the last one.
 */
module Json {
  import opened Options

  /**
   A number token.  `text` is its spelling, `numeric` the spelling a jsonb column
   gives it, `bits` the double it decodes to (None when it is out of range) and
   `whole` the integer the path library reads from it.
   */
  datatype Number = Number(text: string, numeric: string, bits: Option<nat>, whole: int)

  datatype Json =
    | Null
    | Bool(b: bool)
    | Num(n: Number)
    | Str(s: string)
    | Arr(items: seq<Json>)
    | Obj(members: seq<Member>)

  datatype Member = Member(key: string, value: Json)

  function Keys(ms: seq<Member>): set<string> {
    set i | 0 <= i < |ms| :: ms[i].key
  }

  // ---------- path lookup: first full match, in document order ----------

  function Lookup(j: Json, path: seq<string>): Option<Json>
    decreases j
  {
    if path == [] then Some(j)
    else
      match j
      case Obj(ms) => LookupMember(ms, path)
      case _ => None
  }

  function LookupMember(ms: seq<Member>, path: seq<string>): Option<Json>
    requires path != []
    decreases ms
  {
    if ms == [] then None
    else
      var hit := if ms[0].key == path[0] then Lookup(ms[0].value, path[1..]) else None;
      if hit.Some? then hit else LookupMember(ms[1..], path)
  }

  // ---------- last-wins lookup: what survives in the jsonb column ----------

  function LastMember(ms: seq<Member>, key: string): Option<Json>
    ensures LastMember(ms, key).Some? <==> key in Keys(ms)
  {
    if ms == [] then None
    else
      assert forall k :: k in Keys(ms) <==> k == ms[0].key || k in Keys(ms[1..]) by { KeysCons(ms); }
      var later := LastMember(ms[1..], key);
      if later.Some? then later
      else if ms[0].key == key then Some(ms[0].value) else None
  }

  lemma KeysCons(ms: seq<Member>)
    requires ms != []
    ensures Keys(ms) == {ms[0].key} + Keys(ms[1..])
  {
    forall k | k in Keys(ms)
      ensures k in {ms[0].key} + Keys(ms[1..])
    {
      var i :| 0 <= i < |ms| && ms[i].key == k;
      if i > 0 { assert ms[1..][i - 1].key == k; }
    }
    forall k | k in Keys(ms[1..])
      ensures k in Keys(ms)
    {
      var i :| 0 <= i < |ms[1..]| && ms[1..][i].key == k;
      assert ms[i + 1].key == k;
    }
  }

  function LastLookup(j: Json, path: seq<string>): Option<Json>
    decreases |path|
  {
    if path == [] then Some(j)
    else if !j.Obj? then None
    else
      var m := LastMember(j.members, path[0]);
      if m.None? then None else LastLookup(m.value, path[1..])
  }

  // ---------- the jsonb column ----------

  /** The value a jsonb column holds after a document was written to it. */
  function Jsonb(j: Json): Json {
    match j
    case Num(n) => Num(n.(text := n.numeric))
    case Arr(items) => Arr(JsonbItems(items))
    case Obj(ms) => Obj(JsonbMembers(ms))
    case _ => j
  }

  function JsonbItems(items: seq<Json>): seq<Json> {
    if items == [] then [] else [Jsonb(items[0])] + JsonbItems(items[1..])
  }

  function JsonbMembers(ms: seq<Member>): (r: seq<Member>)
    ensures Keys(r) == Keys(ms)
  {
    if ms == [] then []
    else
      assert Keys(ms) == {ms[0].key} + Keys(ms[1..]) by { KeysCons(ms); }
      var rest := JsonbMembers(ms[1..]);
      if ms[0].key in Keys(ms[1..]) then
        rest
      else
        var r := [Member(ms[0].key, Jsonb(ms[0].value))] + rest;
        assert r[1..] == rest;
        assert Keys(r) == {r[0].key} + Keys(r[1..]) by { KeysCons(r); }
        r
  }

  function JsonbOption(o: Option<Json>): Option<Json> {
    match o
    case None => None
    case Some(j) => Some(Jsonb(j))
  }

  lemma {:induction false} JsonbIdempotent(j: Json)
    ensures Jsonb(Jsonb(j)) == Jsonb(j)
    decreases j
  {
    match j
    case Arr(items) => JsonbItemsIdempotent(items);
    case Obj(ms) => JsonbMembersIdempotent(ms);
    case _ =>
  }

  lemma {:induction false} JsonbItemsIdempotent(items: seq<Json>)
    ensures JsonbItems(JsonbItems(items)) == JsonbItems(items)
    decreases items
  {
    if items != [] {
      JsonbIdempotent(items[0]);
      JsonbItemsIdempotent(items[1..]);
      assert JsonbItems(items)[1..] == JsonbItems(items[1..]);
    }
  }

  lemma {:induction false} JsonbMembersIdempotent(ms: seq<Member>)
    ensures JsonbMembers(JsonbMembers(ms)) == JsonbMembers(ms)
    decreases ms
  {
    if ms != [] {
      JsonbMembersIdempotent(ms[1..]);
      if ms[0].key !in Keys(ms[1..]) {
        JsonbIdempotent(ms[0].value);
        assert JsonbMembers(ms)[1..] == JsonbMembers(ms[1..]);
      }
    }
  }

  /** The jsonb column keeps, for every key, the last member that has it. */
  lemma {:induction false} LastMemberJsonb(ms: seq<Member>, key: string)
    ensures LastMember(JsonbMembers(ms), key) == JsonbOption(LastMember(ms, key))
  {
    if ms != [] {
      LastMemberJsonb(ms[1..], key);
      KeysCons(ms);
      if ms[0].key !in Keys(ms[1..]) {
        assert JsonbMembers(ms)[1..] == JsonbMembers(ms[1..]);
      }
    }
  }

  predicate DistinctKeys(ms: seq<Member>) {
    forall i, j :: 0 <= i < j < |ms| ==> ms[i].key != ms[j].key
  }

  lemma {:induction false} JsonbMembersDistinct(ms: seq<Member>)
    ensures DistinctKeys(JsonbMembers(ms))
  {
    if ms != [] {
      JsonbMembersDistinct(ms[1..]);
      var rest := JsonbMembers(ms[1..]);
      if ms[0].key !in Keys(ms[1..]) {
        forall j | 0 <= j < |rest| ensures rest[j].key != ms[0].key {
          assert rest[j].key in Keys(rest);
        }
      }
    }
  }

  /** No object repeats a key, at any depth. */
  predicate NoRepeats(j: Json)
    decreases j
  {
    match j
    case Arr(items) => forall i | 0 <= i < |items| :: NoRepeats(items[i])
    case Obj(ms) => DistinctKeys(ms) && forall i | 0 <= i < |ms| :: NoRepeats(ms[i].value)
    case _ => true
  }

  lemma {:induction false} JsonbHasNoRepeats(j: Json)
    ensures NoRepeats(Jsonb(j))
    decreases j
  {
    match j
    case Arr(items) => JsonbItemsHaveNoRepeats(items);
    case Obj(ms) =>
      JsonbMembersDistinct(ms);
      JsonbMembersHaveNoRepeats(ms);
    case _ =>
  }

  lemma {:induction false} JsonbItemsHaveNoRepeats(items: seq<Json>)
    ensures forall i | 0 <= i < |JsonbItems(items)| :: NoRepeats(JsonbItems(items)[i])
    decreases items
  {
    if items != [] {
      JsonbHasNoRepeats(items[0]);
      JsonbItemsHaveNoRepeats(items[1..]);
    }
  }

  lemma {:induction false} JsonbMembersHaveNoRepeats(ms: seq<Member>)
    ensures forall i | 0 <= i < |JsonbMembers(ms)| :: NoRepeats(JsonbMembers(ms)[i].value)
    decreases ms
  {
    if ms != [] {
      JsonbHasNoRepeats(ms[0].value);
      JsonbMembersHaveNoRepeats(ms[1..]);
    }
  }

  /** Where keys are distinct the first match and the last one coincide. */
  lemma {:induction false} LookupDistinct(ms: seq<Member>, path: seq<string>)
    requires DistinctKeys(ms) && path != []
    ensures LookupMember(ms, path) ==
            var m := LastMember(ms, path[0]);
            if m.None? then None else Lookup(m.value, path[1..])
  {
    if ms != [] {
      KeysCons(ms);
      LookupDistinct(ms[1..], path);
      if ms[0].key == path[0] {
        assert path[0] !in Keys(ms[1..]);
      }
    }
  }

  /** Where no object repeats a key, the two readings of a path agree. */
  lemma {:induction false} OneReading(j: Json, path: seq<string>)
    requires NoRepeats(j)
    ensures Lookup(j, path) == LastLookup(j, path)
    decreases |path|
  {
    if path != [] && j.Obj? {
      LookupDistinct(j.members, path);
      var m := LastMember(j.members, path[0]);
      if m.Some? {
        LastMemberHasNoRepeats(j.members, path[0]);
        OneReading(m.value, path[1..]);
      }
    }
  }

  lemma {:induction false} LastMemberHasNoRepeats(ms: seq<Member>, key: string)
    requires (forall i | 0 <= i < |ms| :: NoRepeats(ms[i].value)) && LastMember(ms, key).Some?
    ensures NoRepeats(LastMember(ms, key).value)
  {
    hide NoRepeats;
    if LastMember(ms[1..], key).Some? { LastMemberHasNoRepeats(ms[1..], key); }
  }

  /** A path lookup in the stored document finds what the last-wins reading of the written one says. */
  lemma {:induction false} LookupJsonb(j: Json, path: seq<string>)
    ensures Lookup(Jsonb(j), path) == JsonbOption(LastLookup(j, path))
    decreases |path|
  {
    if path != [] && j.Obj? {
      var ms := j.members;
      JsonbMembersDistinct(ms);
      LookupDistinct(JsonbMembers(ms), path);
      LastMemberJsonb(ms, path[0]);
      var m := LastMember(ms, path[0]);
      if m.Some? { LookupJsonb(m.value, path[1..]); }
    }
  }

  // ---------- the shallow merge of the patch statement ----------

  /**
   `blob || patch`.  On two objects, members of the patch replace members of the same
   name.  None stands for the statement error where no side is an array and one is
   no object.
   */
  function Concat(blob: Json, patch: Json): Option<Json> {
    match (blob, patch)
    case (Obj(ms), Obj(ps)) => Some(Obj(JsonbMembers(ms + ps)))
    case (Arr(xs), Arr(ys)) => Some(Jsonb(Arr(xs + ys)))
    case (Arr(xs), _) => Some(Jsonb(Arr(xs + [patch])))
    case (_, Arr(ys)) => Some(Jsonb(Arr([blob] + ys)))
    case _ => None
  }

  lemma {:induction false} JsonbItemsAt(items: seq<Json>, i: nat)
    requires i < |items|
    ensures |JsonbItems(items)| == |items| && JsonbItems(items)[i] == Jsonb(items[i])
  {
    if i > 0 {
      JsonbItemsAt(items[1..], i - 1);
    } else if |items| > 1 {
      JsonbItemsAt(items[1..], 0);
    }
  }

  /** A patch that meets an array on either side is appended, item by item. */
  lemma ConcatArrays(xs: seq<Json>, ys: seq<Json>, other: Json, i: nat)
    requires !other.Arr?
    ensures var r := Concat(Arr(xs), Arr(ys)).value.items;
            i < |xs| + |ys| ==> |r| == |xs| + |ys| && r[i] == if i < |xs| then Jsonb(xs[i]) else Jsonb(ys[i - |xs|])
    ensures var r := Concat(Arr(xs), other).value.items;
            i <= |xs| ==> |r| == |xs| + 1 && r[i] == if i < |xs| then Jsonb(xs[i]) else Jsonb(other)
    ensures var r := Concat(other, Arr(ys)).value.items;
            i <= |ys| ==> |r| == |ys| + 1 && r[i] == if i == 0 then Jsonb(other) else Jsonb(ys[i - 1])
  {
    hide JsonbItems;
    if i < |xs| + |ys| { JsonbItemsAt(xs + ys, i); }
    if i <= |xs| { JsonbItemsAt(xs + [other], i); }
    if i <= |ys| { JsonbItemsAt([other] + ys, i); }
  }

  lemma {:induction false} LastMemberAppend(ms: seq<Member>, ps: seq<Member>, key: string)
    ensures LastMember(ms + ps, key) == if LastMember(ps, key).Some? then LastMember(ps, key) else LastMember(ms, key)
  {
    if ms == [] {
      assert ms + ps == ps;
    } else {
      assert (ms + ps)[1..] == ms[1..] + ps;
      LastMemberAppend(ms[1..], ps, key);
    }
  }

  /** The merge is pointwise on top-level keys: a path sees the patch where it has the key, the old document elsewhere. */
  lemma {:induction false} LookupConcat(blob: Json, patch: Json, path: seq<string>)
    requires blob.Obj? && patch.Obj? && path != [] && Jsonb(blob) == blob
    ensures Lookup(Concat(blob, patch).value, path) ==
            if path[0] in Keys(patch.members) then JsonbOption(LastLookup(patch, path)) else Lookup(blob, path)
  {
    var both := Obj(blob.members + patch.members);
    LookupJsonb(both, path);
    LastMemberAppend(blob.members, patch.members, path[0]);
    if path[0] !in Keys(patch.members) {
      LookupJsonb(blob, path);
    }
  }

  /** sjson's set of one top-level key: the first member of that name is replaced, otherwise one is added. */
  function SetMember(ms: seq<Member>, key: string, value: Json): seq<Member> {
    if ms == [] then [Member(key, value)]
    else if ms[0].key == key then [Member(key, value)] + ms[1..]
    else [ms[0]] + SetMember(ms[1..], key, value)
  }

  lemma {:induction false} LookupSetMember(ms: seq<Member>, key: string, value: Json, path: seq<string>)
    requires path != [] && path[0] != key
    ensures LookupMember(SetMember(ms, key, value), path) == LookupMember(ms, path)
  {
    if ms != [] && ms[0].key != key {
      LookupSetMember(ms[1..], key, value, path);
      assert SetMember(ms, key, value)[1..] == SetMember(ms[1..], key, value);
    } else if ms != [] {
      assert SetMember(ms, key, value)[1..] == ms[1..];
    }
  }

  // ---------- scalar readings of a lookup result ----------

  /** The string reading of a lookup result; a missing value reads as the empty string. */
  function Text(o: Option<Json>): string {
    if o.None? then "" else TextOf(o.value)
  }

  function TextOf(j: Json): string {
    match j
    case Null => ""
    case Bool(b) => if b then "true" else "false"
    case Num(n) => n.text
    case Str(s) => s
    case _ => RawText(j)
  }

  /** The source text of a value, without insignificant white space. */
  function RawText(j: Json): string {
    match j
    case Null => "null"
    case Bool(b) => if b then "true" else "false"
    case Num(n) => n.text
    case Str(s) => "\"" + s + "\""
    case Arr(items) => "[" + RawItems(items) + "]"
    case Obj(ms) => "{" + RawMembers(ms) + "}"
  }

  function RawItems(items: seq<Json>): string {
    if items == [] then ""
    else RawText(items[0]) + (if |items| == 1 then "" else "," + RawItems(items[1..]))
  }

  function RawMembers(ms: seq<Member>): string {
    if ms == [] then ""
    else
      "\"" + ms[0].key + "\":" + RawText(ms[0].value) + (if |ms| == 1 then "" else "," + RawMembers(ms[1..]))
  }

  /** The integer reading of a lookup result. */
  function Whole(o: Option<Json>): int {
    match o
    case Some(Num(n)) => n.whole
    case Some(Bool(true)) => 1
    case Some(Str(s)) => SignedDigits(s)
    case _ => 0
  }

  predicate IsDigit(c: char) { '0' <= c <= '9' }

  predicate AllDigits(s: string) { forall c <- s :: IsDigit(c) }

  function DigitsValue(s: string): nat
    requires AllDigits(s)
  {
    if s == "" then 0
    else
      assert s[|s| - 1] in s;
      10 * DigitsValue(s[..|s| - 1]) + (s[|s| - 1] as int - '0' as int)
  }

  function SignedDigits(s: string): int {
    if s != "" && s[0] == '-' && AllDigits(s[1..]) then 0 - DigitsValue(s[1..])
    else if AllDigits(s) then DigitsValue(s)
    else 0
  }

  /** How values of the other kinds read: as text, and as integers. */
  lemma ScalarsRead(n: Number, s: string)
    ensures Text(Some(Null)) == "" && Text(None) == "" && Text(Some(Bool(true))) == "true" && Text(Some(Bool(false))) == "false"
    ensures Text(Some(Num(n))) == n.text && Text(Some(Str(s))) == s
    ensures Whole(Some(Null)) == 0 && Whole(None) == 0 && Whole(Some(Bool(true))) == 1 && Whole(Some(Bool(false))) == 0
    ensures Whole(Some(Num(n))) == n.whole
    ensures Whole(Some(Str("85"))) == 85 && Whole(Some(Str("-7"))) == -7 && Whole(Some(Str("8x"))) == 0 && Whole(Some(Str(""))) == 0
  {
    DigitText("85", 8, 5);
    assert "-7"[1..] == "7" && "7"[..0] == "";
    assert !IsDigit("8x"[1]) && "8x"[1] in "8x";
  }

  lemma DigitText(s: string, high: nat, low: nat)
    requires |s| == 2 && high < 10 && low < 10 && s[0] == '0' + high as char && s[1] == '0' + low as char
    ensures SignedDigits(s) == 10 * high + low
  {
    assert s[..1][..0] == "" && s[..1][0] == s[0];
    assert DigitsValue(s[..1]) == high;
  }

  // ---------- decoding into values ----------

  /** What the standard decoder produces for an untyped target: objects become maps. */
  datatype Value =
    | VNull
    | VBool(b: bool)
    | VNum(bits: nat)
    | VStr(s: string)
    | VArr(items: seq<Value>)
    | VObj(fields: map<string, Value>)

  /** None when some number token, shadowed or not, has no double. */
  function Decode(j: Json): Option<Value> {
    match j
    case Null => Some(VNull)
    case Bool(b) => Some(VBool(b))
    case Num(n) => if n.bits.Some? then Some(VNum(n.bits.value)) else None
    case Str(s) => Some(VStr(s))
    case Arr(items) =>
      var vs := DecodeItems(items);
      if vs.Some? then Some(VArr(vs.value)) else None
    case Obj(ms) =>
      var fs := DecodeMembers(ms);
      if fs.Some? then Some(VObj(fs.value)) else None
  }

  function DecodeItems(items: seq<Json>): Option<seq<Value>> {
    if items == [] then Some([])
    else
      var v := Decode(items[0]);
      var vs := DecodeItems(items[1..]);
      if v.Some? && vs.Some? then Some([v.value] + vs.value) else None
  }

  function DecodeMembers(ms: seq<Member>): (r: Option<map<string, Value>>)
    ensures r.Some? ==> r.value.Keys == Keys(ms)
  {
    if ms == [] then Some(map[])
    else
      assert Keys(ms) == {ms[0].key} + Keys(ms[1..]) by { KeysCons(ms); }
      var v := Decode(ms[0].value);
      var fs := DecodeMembers(ms[1..]);
      if v.Some? && fs.Some? then Some(map[ms[0].key := v.value] + fs.value) else None
  }

  /** Storing a document does not change its value. */
  lemma {:induction false} DecodeJsonb(j: Json)
    requires Decode(j).Some?
    ensures Decode(Jsonb(j)) == Decode(j)
    decreases j
  {
    match j
    case Arr(items) => DecodeJsonbItems(items);
    case Obj(ms) => DecodeJsonbMembers(ms);
    case _ =>
  }

  lemma {:induction false} DecodeJsonbItems(items: seq<Json>)
    requires DecodeItems(items).Some?
    ensures DecodeItems(JsonbItems(items)) == DecodeItems(items)
    decreases items
  {
    if items != [] {
      DecodeJsonb(items[0]);
      DecodeJsonbItems(items[1..]);
      assert JsonbItems(items)[1..] == JsonbItems(items[1..]);
    }
  }

  lemma DecodeMembersCons(key: string, value: Json, ms: seq<Member>)
    requires Decode(value).Some? && DecodeMembers(ms).Some?
    ensures DecodeMembers([Member(key, value)] + ms)
         == Some(map[key := Decode(value).value] + DecodeMembers(ms).value)
  {
    assert ([Member(key, value)] + ms)[1..] == ms;
  }

  lemma Overridden(key: string, v: Value, fields: map<string, Value>)
    requires key in fields
    ensures map[key := v] + fields == fields
  {
  }

  lemma {:induction false} DecodeJsonbMembers(ms: seq<Member>)
    requires DecodeMembers(ms).Some?
    ensures DecodeMembers(JsonbMembers(ms)) == DecodeMembers(ms)
    decreases ms
  {
    if ms != [] {
      DecodeJsonbMembers(ms[1..]);
      var fs := DecodeMembers(ms[1..]).value;
      if ms[0].key in Keys(ms[1..]) {
        Overridden(ms[0].key, Decode(ms[0].value).value, fs);
      } else {
        DecodeJsonb(ms[0].value);
        DecodeMembersCons(ms[0].key, Jsonb(ms[0].value), JsonbMembers(ms[1..]));
      }
    }
  }

  /** Equality of two lookup results as JSON values; two missing ones are equal, an undecodable one equals nothing. */
  predicate SameValue(a: Option<Json>, b: Option<Json>) {
    if a.None? || b.None? then a.None? && b.None?
    else Decode(a.value).Some? && Decode(a.value) == Decode(b.value)
  }
}
