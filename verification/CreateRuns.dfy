/**
 The create handler over whole runs: which requests get a row depends on what earlier
 ones, accepted or not, have left in the shared templates.
 */
module CreateRuns {
  import opened Options
  import opened Json
  import opened Calendar
  import opened Datasets
  import opened Updates
  import opened Store
  import opened Handlers
  import opened Service
  import Creation

  /** A create request from which a Metax document is built. */
  predicate Builds(req: CreateRequest) {
    && !req.hasId && req.family == Some(2) && req.schema.Some? && req.dataset.Some?
  }

  predicate BuildsFor(q: Request, schema: string) { q.CreateCall? && Builds(q.create) && q.create.schema.value == schema }

  /** The last cumulative state a request of the run gave for the schema. */
  function LastGiven(qs: seq<Request>, schema: string): Embedded {
    if qs == [] then Absent
    else
      var q := qs[|qs| - 1];
      if BuildsFor(q, schema) && q.create.cumulative != Absent then q.create.cumulative else LastGiven(qs[..|qs| - 1], schema)
  }

  // ---------- a run is a history of creations ----------

  function CallOf(q: Request): Creation.Call
    requires q.CreateCall? && Builds(q.create)
  {
    Creation.Call(q.id, 2, q.create.schema.value, q.create.dataset.value, Extra(q.user.identity, q.user.org, q.create.cumulative))
  }

  function CallsOf(qs: seq<Request>): seq<Creation.Call> {
    if qs == [] then []
    else
      var q := qs[|qs| - 1];
      CallsOf(qs[..|qs| - 1]) + if q.CreateCall? && Builds(q.create) then [CallOf(q)] else []
  }

  lemma TemplatesStep(s: State, q: Request)
    ensures Apply(s, q).templates
         == if q.CreateCall? && Builds(q.create) then Creation.After(s.templates, CallOf(q)) else s.templates
  {
    hide NextRows, NewEntries, Wrote, Taken, Careless, CreatedTemplates;
  }

  lemma CallsStep(qs: seq<Request>)
    requires qs != []
    ensures var q, before := qs[|qs| - 1], CallsOf(qs[..|qs| - 1]);
            && (q.CreateCall? && Builds(q.create) ==> CallsOf(qs) == before + [CallOf(q)])
            && (!(q.CreateCall? && Builds(q.create)) ==> CallsOf(qs) == before)
  {
    hide CallOf, Builds;
  }

  lemma RunStep(calls: seq<Creation.Call>, c: Creation.Call, schema: string)
    ensures Creation.Run(calls + [c]) == Creation.After(Creation.Run(calls), c)
    ensures Creation.LastCumulative(calls + [c], schema)
         == if Creation.Writes(c, schema) && c.extra.cumulative != Absent then c.extra.cumulative else Creation.LastCumulative(calls, schema)
  {
    hide Creation.After;
    var all := calls + [c];
    assert all[..|all| - 1] == calls && all[|all| - 1] == c;
  }

  lemma {:induction false} TemplatesOfRun(qs: seq<Request>, schema: string)
    ensures RunFrom(Initial(), qs).templates == Creation.Run(CallsOf(qs))
    ensures Creation.LastCumulative(CallsOf(qs), schema) == LastGiven(qs, schema)
    decreases |qs|
  {
    hide Apply, Creation.After, CallsOf, Creation.Run, Creation.LastCumulative;
    if qs == [] {
      NothingCalled(schema);
    } else {
      var init, q := qs[..|qs| - 1], qs[|qs| - 1];
      TemplatesOfRun(init, schema);
      TemplatesStep(RunFrom(Initial(), init), q);
      CallsStep(qs);
      if q.CreateCall? && Builds(q.create) { RunStep(CallsOf(init), CallOf(q), schema); }
    }
  }

  lemma NothingCalled(schema: string)
    ensures CallsOf([]) == [] && Creation.Run([]) == Initial().templates && Creation.LastCumulative([], schema) == Absent
  {
  }

  // ---------- which requests get a row ----------

  /** A state of a draft: none, 0 or 1. */
  predicate OfDraft(cumulative: Embedded) {
    cumulative.Absent? || (cumulative.Given? && cumulative.j.Num? && (cumulative.j.n.text == "0" || cumulative.j.n.text == "1"))
  }

  /**
   In every state the service can reach, a well-formed create request for a Metax
   dataset gets a row if and only if its schema is one of the two, its dataset sets no
   read-only field, the id is free, the statement works, and the cumulative state is
   one of a draft: its own or, if it gives none, the last one any request gave for the
   schema.
   */
  lemma CreatedIff(qs: seq<Request>, user: User, req: CreateRequest, id: Id, now: Instant, fault: bool)
    requires Builds(req)
    ensures var s, dataset := RunFrom(Initial(), qs), req.dataset.value;
            var cumulative := if req.cumulative != Absent then req.cumulative else LastGiven(qs, req.schema.value);
            CreateRows(s.rows, s.templates, user, req, id, now, fault) != s.rows <==>
              && (req.schema == Some("metax-ida") || req.schema == Some("metax-att")) && OfDraft(cumulative)
              && Lookup(dataset, ["metadata_version_identifier"]).None? && Lookup(dataset, ["preferred_identifier"]).None?
              && Lookup(dataset, ["total_files_byte_size"]).None? && id !in s.rows && !fault
  {
    hide RunFrom, CreateAllowed, Jsonb, Filled, TemplateBlob, Lookup, LastGiven;
    var s, schema := RunFrom(Initial(), qs), req.schema.value;
    var call := CallOf(CreateCall(user, req, id, now, fault));
    TemplatesOfRun(qs, schema);
    Creation.TemplateRemembers(CallsOf(qs), IDA);
    if schema == IDA || schema == ATT {
      Creation.AcceptedIff(CallsOf(qs), call);
      ThreeNames(req.dataset.value);
      assert Creation.CreationAccepted(s.templates, call) <==> CreateDoc(s.templates, id, user, req).Ok?;
    }
    NewRowDiffers(s.rows, s.templates, user, req, id, now, fault);
  }

  lemma NewRowDiffers(rows: Rows, templates: map<string, Template>, user: User, req: CreateRequest, id: Id, now: Instant, fault: bool)
    requires Builds(req)
    ensures CreateRows(rows, templates, user, req, id, now, fault) != rows
       <==> CreateDoc(templates, id, user, req).Ok? && id !in rows && !fault
  {
    hide CreateDoc, Jsonb;
    if CreateDoc(templates, id, user, req).Ok? && id !in rows && !fault {
      assert id in CreateRows(rows, templates, user, req, id, now, fault);
    }
  }

  lemma ThreeNames(dataset: Json)
    ensures (forall name <- READ_ONLY_NAMES :: Lookup(dataset, [name]).None?) <==>
              Lookup(dataset, ["metadata_version_identifier"]).None? && Lookup(dataset, ["preferred_identifier"]).None?
              && Lookup(dataset, ["total_files_byte_size"]).None?
  {
    hide Lookup;
    var ns := READ_ONLY_NAMES;
    assert (forall name <- ns :: Lookup(dataset, [name]).None?) <==> forall i :: 0 <= i < 3 ==> Lookup(dataset, [ns[i]]).None?;
    assert ns[0] == "metadata_version_identifier" && ns[1] == "preferred_identifier" && ns[2] == "total_files_byte_size";
  }

  lemma {:induction false} GivenBefore(before: seq<Request>, bad: Request, later: seq<Request>, schema: string)
    requires BuildsFor(bad, schema) && bad.create.cumulative != Absent
    requires forall q <- later :: BuildsFor(q, schema) ==> q.create.cumulative == Absent
    ensures LastGiven(before + [bad] + later, schema) == bad.create.cumulative
    decreases |later|
  {
    var all := before + [bad] + later;
    if later == [] {
      assert all[..|all| - 1] == before && all[|all| - 1] == bad;
    } else {
      var init, last := later[..|later| - 1], later[|later| - 1];
      assert all[..|all| - 1] == before + [bad] + init && all[|all| - 1] == last;
      assert last in later;
      GivenBefore(before, bad, init, schema);
    }
  }

  /**
   After one create request with an unacceptable cumulative state, itself refused, no
   later one for the schema that gives none gets a row, whatever the requests between,
   until some request gives one again.
   */
  lemma OneBadRequestSticks(before: seq<Request>, bad: Request, later: seq<Request>,
                            user: User, req: CreateRequest, id: Id, now: Instant, fault: bool)
    requires Builds(req) && req.cumulative == Absent
    requires BuildsFor(bad, req.schema.value) && !OfDraft(bad.create.cumulative)
    requires forall q <- later :: BuildsFor(q, req.schema.value) ==> q.create.cumulative == Absent
    ensures var s := RunFrom(Initial(), before + [bad] + later);
            CreateRows(s.rows, s.templates, user, req, id, now, fault) == s.rows
    ensures var s := RunFrom(Initial(), before);
            CreateRows(s.rows, s.templates, bad.user, bad.create, bad.id, bad.now, bad.fault) == s.rows
  {
    hide RunFrom, CreateRows, LastGiven, Lookup;
    GivenBefore(before, bad, later, req.schema.value);
    CreatedIff(before + [bad] + later, user, req, id, now, fault);
    CreatedIff(before, bad.user, bad.create, bad.id, bad.now, bad.fault);
  }

  // ---------- what the row holds ----------

  /**
   The stored document of a created dataset: the submitted dataset, the link to its own
   row, the catalog of its schema, and the user and organisation of the creator where
   they are known.
   */
  lemma CreatedDocument(qs: seq<Request>, user: User, req: CreateRequest, id: Id, now: Instant, fault: bool, path: seq<string>)
    requires Builds(req) && path != []
    requires var s := RunFrom(Initial(), qs); CreateRows(s.rows, s.templates, user, req, id, now, fault) != s.rows
    ensures var s := RunFrom(Initial(), qs);
            var after := CreateRows(s.rows, s.templates, user, req, id, now, fault);
            && id in after && after == s.rows[id := after[id]] && id !in s.rows
            && after[id] == Row(user.uid, user.uid, now, now, None, 0, false, false, 2, req.schema.value, after[id].blob)
            && (path[0] == "research_dataset" ==> Lookup(after[id].blob, path) == JsonbOption(LastLookup(req.dataset.value, path[1..])))
            && (path[0] == "editor" ==> Lookup(after[id].blob, path) == JsonbOption(LastLookup(EditorJson(id), path[1..])))
            && (path == ["metadata_provider_user"] && user.identity != "" ==> Lookup(after[id].blob, path) == Some(Str(user.identity)))
            && (path == ["metadata_provider_org"] && user.org != "" ==> Lookup(after[id].blob, path) == Some(Str(user.org)))
            && (path == ["data_catalog"] ==>
                  Lookup(after[id].blob, path) == Some(Str(if req.schema.value == "metax-ida" then "urn:nbn:fi:att:data-catalog-ida"
                                                           else "urn:nbn:fi:att:data-catalog-att")))
  {
    hide RunFrom, Jsonb, Lookup, LastLookup, EditorJson, CreateDoc, TemplateBlob;
    var s, schema := RunFrom(Initial(), qs), req.schema.value;
    TemplatesOfRun(qs, schema);
    Creation.TemplateRemembers(CallsOf(qs), IDA);
    Creation.TemplateRemembers(CallsOf(qs), ATT);
    NewRowDiffers(s.rows, s.templates, user, req, id, now, fault);
    DocIsFilled(s.templates, id, user, req);
    var t := FilledTemplate(s.templates, id, user, req);
    FilledMembers(t, path);
    LookupJsonb(TemplateBlob(t).value, path);
    StringStored(t.user);
    StringStored(t.org);
    StringStored(t.catalog);
  }

  function FilledTemplate(templates: map<string, Template>, id: Id, user: User, req: CreateRequest): Template
    requires Builds(req) && req.schema.value in templates
  {
    Filled(templates[req.schema.value], id, req.dataset.value, Extra(user.identity, user.org, req.cumulative))
  }

  lemma DocIsFilled(templates: map<string, Template>, id: Id, user: User, req: CreateRequest)
    requires Builds(req) && CreateDoc(templates, id, user, req).Ok?
    ensures req.schema.value in templates
    ensures var t := FilledTemplate(templates, id, user, req);
            !t.cumulative.Malformed? && TemplateBlob(t) == Ok(CreateDoc(templates, id, user, req).value)
  {
    hide CreateAllowed, EditorJson;
  }

  lemma MemberPath(ms: seq<Member>, i: nat, path: seq<string>)
    requires DistinctKeys(ms) && i < |ms| && path != []
    ensures path[0] == ms[i].key ==> LastLookup(Obj(ms), path) == LastLookup(ms[i].value, path[1..])
    ensures path == [ms[i].key] ==> LastLookup(Obj(ms), path) == Some(ms[i].value)
  {
    DistinctMember(ms, i);
  }

  lemma FilledMembers(t: Template, path: seq<string>)
    requires t.editor.Some? && !t.cumulative.Malformed? && path != []
    ensures var blob := TemplateBlob(t).value;
            && (path[0] == "research_dataset" ==> LastLookup(blob, path) == LastLookup(t.research, path[1..]))
            && (path[0] == "editor" ==> LastLookup(blob, path) == LastLookup(t.editor.value, path[1..]))
            && (path == ["metadata_provider_user"] ==> LastLookup(blob, path) == Some(Str(t.user)))
            && (path == ["metadata_provider_org"] ==> LastLookup(blob, path) == Some(Str(t.org)))
            && (path == ["data_catalog"] ==> LastLookup(blob, path) == Some(Str(t.catalog)))
  {
    hide LastLookup, LastMember, Keys;
    var ms := TemplateBlob(t).value.members;
    Creation.TemplateKeys(t);
    var n := |ms|;
    assert ms[n - 5] == Member(CATALOG, Str(t.catalog)) && ms[n - 4] == Member(EDITOR, t.editor.value);
    MemberPath(ms, n - 1, path);
    MemberPath(ms, n - 2, path);
    MemberPath(ms, n - 3, path);
    MemberPath(ms, n - 4, path);
    MemberPath(ms, n - 5, path);
  }
}
