/**
 Creating datasets.  All creations of a schema share one template that keeps what
 earlier calls wrote into it, so a created document depends on the calls before.
 */
module Creation {
  import opened Options
  import opened Json
  import opened Datasets
  import opened Updates

  datatype Call = Call(id: Id, family: int, schema: string, blob: Json, extra: Extra)

  function Document(templates: map<string, Template>, c: Call): Result<Json, DataError> {
    CreatedBlob(templates, c.id, c.family, c.schema, c.blob, c.extra)
  }

  function After(templates: map<string, Template>, c: Call): map<string, Template> {
    CreatedTemplates(templates, c.id, c.family, c.schema, c.blob, c.extra)
  }

  /** The template store after a history of calls, accepted or not. */
  function Run(calls: seq<Call>): map<string, Template> {
    if calls == [] then FreshTemplates() else After(Run(calls[..|calls| - 1]), calls[|calls| - 1])
  }

  predicate Writes(c: Call, schema: string) { c.family != 0 && c.schema == schema }

  // ---------- what a history leaves behind ----------

  function LastOrg(calls: seq<Call>, schema: string): string {
    if calls == [] then ""
    else
      var c := calls[|calls| - 1];
      if Writes(c, schema) && c.extra.org != "" then c.extra.org else LastOrg(calls[..|calls| - 1], schema)
  }

  function LastUser(calls: seq<Call>, schema: string): string {
    if calls == [] then ""
    else
      var c := calls[|calls| - 1];
      if Writes(c, schema) && c.extra.identity != "" then c.extra.identity else LastUser(calls[..|calls| - 1], schema)
  }

  function LastCumulative(calls: seq<Call>, schema: string): Embedded {
    if calls == [] then Absent
    else
      var c := calls[|calls| - 1];
      if Writes(c, schema) && c.extra.cumulative != Absent then c.extra.cumulative
      else LastCumulative(calls[..|calls| - 1], schema)
  }

  /** A template remembers, field by field, the last call that gave the field a value. */
  lemma {:induction false} TemplateRemembers(calls: seq<Call>, schema: string)
    requires schema == IDA || schema == ATT
    ensures Run(calls).Keys == {IDA, ATT}
    ensures var t := Run(calls)[schema];
            && t.catalog == (if schema == IDA then CATALOG_IDA else CATALOG_ATT)
            && t.org == LastOrg(calls, schema) && t.user == LastUser(calls, schema)
            && t.cumulative == LastCumulative(calls, schema)
    decreases |calls|
  {
    if calls == [] {
      assert |IDA| == |ATT| && IDA[6] == 'i' && ATT[6] == 'a';
    } else {
      TemplateRemembers(calls[..|calls| - 1], schema);
    }
  }

  predicate Independent(calls: seq<Call>, c: Call) {
    && (c.extra.identity != "" || LastUser(calls, c.schema) == "")
    && (c.extra.org != "" || LastOrg(calls, c.schema) == "")
    && (c.extra.cumulative != Absent || LastCumulative(calls, c.schema) == Absent)
  }

  /**
   A creation gives what it would give on a fresh server exactly when it supplies
   every optional value that some earlier creation of the schema supplied (or its
   own embedded text is no JSON, which fails either way).
   */
  lemma HistoryMattersIff(calls: seq<Call>, c: Call)
    requires c.family != 0 && (c.schema == IDA || c.schema == ATT)
    ensures Document(Run(calls), c) == Document(FreshTemplates(), c) <==> c.extra.cumulative.Malformed? || Independent(calls, c)
  {
    TemplateRemembers(calls, c.schema);
    TemplateRemembers([], c.schema);
    var t, f := Filled(Run(calls)[c.schema], c.id, c.blob, c.extra), Filled(FreshTemplates()[c.schema], c.id, c.blob, c.extra);
    if TemplateBlob(t) == TemplateBlob(f) { TemplateBlobInjective(t, f); }
    assert Independent(calls, c) || c.extra.cumulative.Malformed? || t != f;
  }

  lemma TemplateBlobInjective(t: Template, u: Template)
    requires t.editor.Some? && u.editor.Some?
    requires TemplateBlob(t) == TemplateBlob(u)
    ensures t == u || (t.cumulative.Malformed? && u.cumulative.Malformed?)
  {
    if !t.cumulative.Malformed? {
      var ms, ns := TemplateBlob(t).value.members, TemplateBlob(u).value.members;
      var n := |ms|;
      assert ms[n - 1] == Member(RESEARCH, t.research) && ns[n - 1] == Member(RESEARCH, u.research);
      assert ms[n - 2].value == Str(t.user) && ns[n - 2].value == Str(u.user);
      assert ms[n - 3].value == Str(t.org) && ns[n - 3].value == Str(u.org);
      assert ms[n - 4].value == t.editor.value && ns[n - 4].value == u.editor.value;
      assert ms[n - 5].value == Str(t.catalog) && ns[n - 5].value == Str(u.catalog);
      if n == 6 { assert ms[0].value == t.cumulative.j && ns[0].value == u.cumulative.j; }
    }
  }

  // ---------- which creations are accepted ----------

  function Effective(calls: seq<Call>, c: Call): Embedded {
    if c.extra.cumulative != Absent then c.extra.cumulative else LastCumulative(calls, c.schema)
  }

  /** The states a draft may have. */
  predicate DraftState(e: Embedded) {
    match e
    case Absent => true
    case Malformed => false
    case Given(j) => j.Num? && (j.n.text == "0" || j.n.text == "1")
  }

  predicate CreationAccepted(templates: map<string, Template>, c: Call) {
    Document(templates, c).Ok? && CreateAllowed(Document(templates, c).value)
  }

  lemma TemplateLookups(t: Template)
    requires t.editor.Some? && !t.cumulative.Malformed?
    ensures var blob := TemplateBlob(t).value;
            && Lookup(blob, [CUMULATIVE]) == (if t.cumulative.Given? then Some(t.cumulative.j) else None)
            && Lookup(blob, [PRESERVATION]) == None && Lookup(blob, [IDENTIFIER]) == None
            && (forall name :: Lookup(blob, [RESEARCH, name]) == Lookup(t.research, [name]))
  {
    var ms := TemplateBlob(t).value.members;
    TemplateKeys(t);
    if t.cumulative.Given? { DistinctMember(ms, 0); }
    DistinctMember(ms, |ms| - 1);
    LookupDistinct(ms, [CUMULATIVE]);
    LookupDistinct(ms, [PRESERVATION]);
    LookupDistinct(ms, [IDENTIFIER]);
    assert [CUMULATIVE][1..] == [];
    forall name ensures Lookup(Obj(ms), [RESEARCH, name]) == Lookup(t.research, [name]) {
      assert [RESEARCH, name][1..] == [name];
      LookupDistinct(ms, [RESEARCH, name]);
    }
  }

  lemma TemplateKeys(t: Template)
    requires t.editor.Some? && !t.cumulative.Malformed?
    ensures var ms := TemplateBlob(t).value.members;
            && DistinctKeys(ms) && PRESERVATION !in Keys(ms) && IDENTIFIER !in Keys(ms)
            && ms[|ms| - 1] == Member(RESEARCH, t.research)
            && (if t.cumulative.Given? then ms[0] == Member(CUMULATIVE, t.cumulative.j) else CUMULATIVE !in Keys(ms))
  {
    var org, user := "metadata_provider_org", "metadata_provider_user";
    assert |CUMULATIVE| == 16 && |CATALOG| == 12 && |EDITOR| == 6 && |org| == 21 && |user| == 22 && |RESEARCH| == 16;
    assert CUMULATIVE[0] == 'c' && RESEARCH[0] == 'r' && |PRESERVATION| == 18 && |IDENTIFIER| == 10;
  }

  lemma CreateAllowedIff(blob: Json)
    ensures CreateAllowed(blob) <==>
              CumulativeStateOk(blob, false) && Lookup(blob, [PRESERVATION]).None?
              && forall name <- READ_ONLY_NAMES :: Lookup(blob, [RESEARCH, name]).None?
  {
    var ps, ns := COMMON_READ_ONLY, READ_ONLY_NAMES;
    assert ps[0] == [RESEARCH, ns[0]] && ps[1] == [RESEARCH, ns[1]] && ps[2] == [RESEARCH, ns[2]] && ps[3] == [PRESERVATION];
    assert (forall p <- ps :: Lookup(blob, p).None?) <==> forall i :: 0 <= i < 4 ==> Lookup(blob, ps[i]).None?;
    assert (forall name <- ns :: Lookup(blob, [RESEARCH, name]).None?) <==> forall i :: 0 <= i < 3 ==> Lookup(blob, [RESEARCH, ns[i]]).None?;
  }

  /**
   Whether a draft is accepted depends on the history only through the last
   cumulative state given for the schema: a creation that gives none is judged by
   somebody else's.
   */
  lemma AcceptedIff(calls: seq<Call>, c: Call)
    requires c.family != 0 && (c.schema == IDA || c.schema == ATT)
    ensures CreationAccepted(Run(calls), c) <==>
              DraftState(Effective(calls, c)) && forall name <- READ_ONLY_NAMES :: Lookup(c.blob, [name]).None?
  {
    TemplateRemembers(calls, c.schema);
    var t := Filled(Run(calls)[c.schema], c.id, c.blob, c.extra);
    if !t.cumulative.Malformed? {
      TemplateLookups(t);
      CreateAllowedIff(TemplateBlob(t).value);
    }
  }

  /**
   After one creation with an unacceptable cumulative state, every later creation
   of the schema that gives none is refused, however many there are.
   */
  lemma {:induction false} OneBadCallSticks(calls: seq<Call>, bad: Call, later: seq<Call>, c: Call)
    requires Writes(bad, c.schema) && bad.extra.cumulative != Absent && !DraftState(bad.extra.cumulative)
    requires forall l <- later :: Writes(l, c.schema) ==> l.extra.cumulative == Absent
    requires c.family != 0 && (c.schema == IDA || c.schema == ATT) && c.extra.cumulative == Absent
    ensures !CreationAccepted(Run(calls + [bad] + later), c)
    decreases |later|
  {
    BadCallRemembered(calls, bad, later, c.schema);
    AcceptedIff(calls + [bad] + later, c);
  }

  lemma {:induction false} BadCallRemembered(calls: seq<Call>, bad: Call, later: seq<Call>, schema: string)
    requires Writes(bad, schema) && bad.extra.cumulative != Absent
    requires forall l <- later :: Writes(l, schema) ==> l.extra.cumulative == Absent
    ensures LastCumulative(calls + [bad] + later, schema) == bad.extra.cumulative
    decreases |later|
  {
    var all := calls + [bad] + later;
    if later == [] {
      assert all[..|all| - 1] == calls && all[|all| - 1] == bad;
    } else {
      var init, last := later[..|later| - 1], later[|later| - 1];
      assert all[..|all| - 1] == calls + [bad] + init && all[|all| - 1] == last;
      assert last in later;
      BadCallRemembered(calls, bad, init, schema);
    }
  }

  // ---------- the link back ----------

  /**
   A record that carries the editor object of a created or updated dataset
   resolves to that dataset again.
   */
  lemma LinkRoundTrip(raw: Json, id: Id, now: int)
    requires HasCatalog(raw) && RecordTyped(raw) && raw.Obj? && id < Pow16(32)
    requires LastMember(raw.members, EDITOR) == Some(EditorJson(id))
    requires CatalogSchema(Record(raw).catalog.value).Some?
    ensures var r := ToQvain(raw, now); r.Ok? && !r.value.isNew && r.value.id == id
  {
    hide UuidText, Pow16, ParseUuid, CatalogSchema, StringOrAbsent, DateOrAbsent;
    var editor := EditorJson(id);
    var ms := editor.members;
    assert |IDENTIFIER| == 10 && |"record_id"| == 9;
    DistinctMember(ms, 0);
    DistinctMember(ms, 1);
    assert Field(editor, IDENTIFIER) == Some(Str(APP_IDENT));
    assert Field(editor, "record_id") == Some(Str(UuidText(id)));
    UuidRoundTrip(id);
  }
}
