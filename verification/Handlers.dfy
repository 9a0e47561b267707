/** The create and update requests of the dataset API. */
module Handlers {
  import opened Options
  import opened Json
  import opened CanonicalJson
  import opened Calendar
  import opened Datasets
  import opened Store

  datatype User = User(uid: Id, identity: string, org: string)

  datatype Reason = BadRequest | Refused | Panicked | DatabaseError

  // ---------- create ----------

  /** The decoded body; `cumulative` is the embedded cumulative_state, `hasId` whether an id was sent. */
  datatype CreateRequest = CreateRequest(hasId: bool, family: Option<int>, schema: Option<string>, dataset: Option<Json>, cumulative: Embedded)

  /** The checks before any document is built. */
  predicate CreateWellFormed(req: CreateRequest) {
    !req.hasId && req.family.Some? && req.schema.Some? && req.dataset.Some? && KnownFamily(req.family.value)
  }

  function ExtraOf(user: User, req: CreateRequest): Extra { Extra(user.identity, user.org, req.cumulative) }

  function CreateDoc(templates: map<string, Template>, id: Id, user: User, req: CreateRequest): Result<Json, Reason>
    requires CreateWellFormed(req)
  {
    if req.family.value == METAX_FAMILY then
      var r := CreatedBlob(templates, id, METAX_FAMILY, req.schema.value, req.dataset.value, ExtraOf(user, req));
      if r.Err? then Err(BadRequest)
      else if CreateAllowed(r.value) then Ok(r.value) else Err(Refused)
    else if req.schema.value == "" then Err(BadRequest)
    else Ok(req.dataset.value)
  }

  function CreateRows(rows: Rows, templates: map<string, Template>, user: User, req: CreateRequest, id: Id, now: Instant, fault: bool): Rows {
    if !CreateWellFormed(req) then rows
    else
      var doc := CreateDoc(templates, id, user, req);
      if doc.Err? || fault || id in rows then rows
      else rows[id := DraftRow(user.uid, now, req.family.value, req.schema.value, doc.value)]
  }

  function CreateReason(rows: Rows, templates: map<string, Template>, user: User, req: CreateRequest, id: Id, fault: bool): Option<Reason> {
    if !CreateWellFormed(req) then Some(BadRequest)
    else
      var doc := CreateDoc(templates, id, user, req);
      if doc.Err? then Some(doc.error) else if fault || id in rows then Some(DatabaseError) else None
  }

  /** The template store is written even when the creation is then refused. */
  function TemplatesAfter(templates: map<string, Template>, user: User, req: CreateRequest, id: Id): map<string, Template> {
    if CreateWellFormed(req) && req.family.value == METAX_FAMILY then
      CreatedTemplates(templates, id, METAX_FAMILY, req.schema.value, req.dataset.value, ExtraOf(user, req))
    else templates
  }

  method CreateDataset(db: Database, store: TemplateStore, user: User, req: CreateRequest, id: Id, now: Instant, fault: bool)
    returns (r: Option<Reason>)
    modifies db`rows, store
    ensures db.rows == CreateRows(old(db.rows), old(store.parsed), user, req, id, now, fault)
    ensures store.parsed == TemplatesAfter(old(store.parsed), user, req, id)
    ensures r.None? <==> id !in old(db.rows) && id in db.rows
    ensures r == CreateReason(old(db.rows), old(store.parsed), user, req, id, fault)
    ensures r.Some? ==> db.rows == old(db.rows)
    ensures req.hasId || req.family.None? || req.schema.None? || req.dataset.None? || !(0 <= req.family.value <= 2) ==>
              r == Some(BadRequest) && store.parsed == old(store.parsed)
    ensures CreateWellFormed(req) && req.family.value == 2 ==>
              var doc := CreatedBlob(old(store.parsed), id, 2, req.schema.value, req.dataset.value, Extra(user.identity, user.org, req.cumulative));
              && (r.None? <==> doc.Ok? && CreateAllowed(doc.value) && id !in old(db.rows) && !fault)
              && (r.None? ==> req.schema.value in old(store.parsed)
                              && db.rows == old(db.rows)[id := Row(user.uid, user.uid, now, now, None, 0, false, false,
                                                                  2, req.schema.value, Jsonb(doc.value))])
    ensures CreateWellFormed(req) && req.family.value != 2 ==>
              && (r.None? <==> req.schema.value != "" && id !in old(db.rows) && !fault)
              && (r.None? ==> db.rows == old(db.rows)[id := Row(user.uid, user.uid, now, now, None, 0, false, false,
                                                               req.family.value, req.schema.value, Jsonb(req.dataset.value))])
  {
    hide CreateAllowed, Jsonb, Filled, TemplateBlob;
    if req.hasId || req.family.None? || req.schema.None? || req.dataset.None? || !KnownFamily(req.family.value) {
      return Some(BadRequest);
    }
    var doc: Json;
    if req.family.value == METAX_FAMILY {
      var created := store.CreateData(id, METAX_FAMILY, req.schema.value, req.dataset.value, ExtraOf(user, req));
      if created.Err? {
        return Some(BadRequest);
      }
      doc := created.value;
      var problem := ValidateCreated(doc);
      if problem.Some? {
        return Some(Refused);
      }
    } else {
      if req.schema.value == "" {
        return Some(BadRequest);
      }
      doc := req.dataset.value;
    }
    var e := db.Create(id, user.uid, now, req.family.value, req.schema.value, doc, fault);
    if e.Some? {
      return Some(DatabaseError);
    }
    return None;
  }

  // ---------- update ----------

  datatype UpdateRequest = UpdateRequest(id: Option<Id>, family: int, schema: string, dataset: Option<Json>, cumulative: Embedded)

  /** The patch or replacement document of a request; a missing dataset is dereferenced and panics. */
  function UpdateDoc(req: UpdateRequest): Result<Json, Reason> {
    if req.id.None? || !KnownFamily(req.family) then Err(BadRequest)
    else if req.dataset.None? then Err(Panicked)
    else if req.family == METAX_FAMILY then
      if req.schema != IDA && req.schema != ATT then Err(BadRequest)
      else if req.cumulative.Malformed? then Err(BadRequest)
      else Ok(UpdatePatch(req.id.value, req.dataset.value, "", if req.cumulative.Given? then Some(req.cumulative.j) else None))
    else if req.schema == "" then Err(BadRequest)
    else Ok(req.dataset.value)
  }

  function StoredOf(r: Row): Stored { Stored(r.family, r.schema, r.published, r.blob) }

  /** The submitted document as the validation sees it: with the published flag of the row. */
  function SubmittedOf(req: UpdateRequest, doc: Json, r: Row): Stored { Stored(req.family, req.schema, r.published, doc) }

  predicate UpdateAccepted(rows: Rows, user: User, id: Id, req: UpdateRequest, now: Instant) {
    && UpdateDoc(req).Ok?
    && id in rows && rows[id].owner == user.uid
    && (rows[id].family == METAX_FAMILY ==> UpdateAllowed(StoredOf(rows[id]), SubmittedOf(req, UpdateDoc(req).value, rows[id])))
    && UpdatedRow(rows[id], now, UpdateDoc(req).value).Some?
  }

  /** The owner's row is there, and the validation turns the document down. */
  predicate Refuses(rows: Rows, user: User, id: Id, req: UpdateRequest)
    requires UpdateDoc(req).Ok?
  {
    && id in rows && rows[id].owner == user.uid && rows[id].family == METAX_FAMILY
    && !UpdateAllowed(StoredOf(rows[id]), SubmittedOf(req, UpdateDoc(req).value, rows[id]))
  }

  function UpdateRows(rows: Rows, user: User, id: Id, req: UpdateRequest, now: Instant, fault: bool): Rows {
    if !fault && UpdateAccepted(rows, user, id, req, now) then rows[id := UpdatedRow(rows[id], now, UpdateDoc(req).value).value]
    else rows
  }

  lemma LockedNeverAccepted(rows: Rows, user: User, id: Id, req: UpdateRequest, now: Instant)
    requires id in rows && rows[id].family == 2
    ensures var state := Whole(Lookup(rows[id].blob, ["preservation_state"]));
            80 <= state <= 99 || 101 <= state <= 129 || state > 130 ==> !UpdateAccepted(rows, user, id, req, now)
  {
    hide UpdateDoc, Lookup, Whole, CumulativeStateOk, ReadOnlyKept, IsPas, IsOldVersion, SameValue, UpdatedRow;
  }

  /** The row is chosen by the id of the URL; loading and storing are two transactions. */
  method UpdateDataset(db: Database, format: DoubleFormat, user: User, id: Id, req: UpdateRequest, now: Instant, loadFault: bool, storeFault: bool)
    returns (r: Option<Reason>)
    modifies db`rows
    ensures db.rows == UpdateRows(old(db.rows), user, id, req, now, loadFault || storeFault)
    ensures r.None? <==> !loadFault && !storeFault && UpdateAccepted(old(db.rows), user, id, req, now)
    ensures UpdateDoc(req).Err? ==> r == Some(UpdateDoc(req).error)
    ensures UpdateDoc(req).Ok? ==>
              (r == Some(Refused) <==> !loadFault && Refuses(old(db.rows), user, id, req))
    ensures id in old(db.rows) && old(db.rows)[id].family == 2 ==>
              var state := Whole(Lookup(old(db.rows)[id].blob, ["preservation_state"]));
              80 <= state <= 99 || 101 <= state <= 129 || state > 130 ==> r.Some? && db.rows == old(db.rows)
  {
    hide Lookup, Whole, Locked, IsPas, IsOldVersion;
    if id in db.rows && db.rows[id].family == 2 { LockedNeverAccepted(db.rows, user, id, req, now); }
    var doc := UpdateDoc(req);
    if doc.Err? {
      return Some(doc.error);
    }
    var loaded := db.GetWithOwner(id, user.uid, loadFault);
    if loaded.Err? {
      return Some(DatabaseError);
    }
    var row := loaded.value;
    if row.family == METAX_FAMILY {
      var problem := ValidateUpdated(format, StoredOf(row), SubmittedOf(req, doc.value, row));
      if problem.Some? {
        return Some(Refused);
      }
    }
    var e := db.SmartUpdateWithOwner(id, doc.value, user.uid, now, storeFault);
    if e.Some? {
      return Some(DatabaseError);
    }
    return None;
  }
}
