/**
 Publishing and deleting: steps that alternate between Metax and the table, each
 of which may fail.  The journal records the requests to Metax and the local
 changes in the order in which they happen.
 */
module Publishing {
  import opened Options
  import opened Json
  import opened Calendar
  import opened Datasets
  import opened Store
  import opened Handlers

  /** Metax's answer to a request, or no answer. */
  datatype Response = NoAnswer | Reply(status: int, json: bool, body: Option<Json>)

  datatype Entry =
    | Post(row: Id, family: int, doc: Json, accepted: bool)
    | Put(row: Id, family: int, identifier: string, doc: Json, accepted: bool)
    | Fetch(identifier: string, found: bool)
    | Unpublish(row: Id, family: int, identifier: string, accepted: bool)
    | MarkedPublished(row: Id)
    | AddedVersion(base: Id, row: Id)
    | Dropped(row: Id, published: bool)

  // ---------- reading responses ----------

  /** Store: None is an API error; a success may come without a body (204). */
  function StoreReply(r: Response): Option<Option<Json>> {
    if r.NoAnswer? then None
    else
      var expectJson := r.status != 204 && r.status != 403 && r.status != 404;
      if expectJson && (!r.json || r.body.None?) then None
      else if r.status == 200 || r.status == 201 then Some(r.body)
      else if r.status == 204 then Some(None)
      else None
  }

  predicate DeleteAccepted(r: Response) { r.Reply? && r.status == 204 }

  /** GetId: the body of a 200 JSON response; it may be empty. */
  function FetchReply(r: Response): Option<Option<Json>> {
    if r.Reply? && r.json && r.status == 200 then Some(r.body) else None
  }

  function IdentifierOf(body: Option<Json>): string {
    if body.Some? then GetIdentifier(body.value) else ""
  }

  // ---------- publish ----------

  /** Everything a publish run meets: responses, clocks, the id generator, database faults. */
  datatype PublishEnv = PublishEnv(
    loadFault: bool, store: Response, storeClock: Instant, markFault: bool,
    fetch: Response, newId: Option<Id>, fetchClock: Instant, versionFault: bool)

  datatype PublishError = NotLoaded | NotAnObject | RejectedByMetax | NoIdentifier | NotMarked | VersionNotFetched | NoNewId | VersionNotStored

  datatype PublishResult = PublishResult(versionId: string, newVersionId: string, newRow: Option<Id>, error: Option<PublishError>)

  function UserKey(r: Row): string { if r.published then "user_modified" else "user_created" }

  /** The document sent to Metax. */
  function Outgoing(r: Row, user: User): Json
    requires r.blob.Obj?
  {
    Obj(SetMember(r.blob.members, UserKey(r), Str(user.identity)))
  }

  /** POST without an identifier, otherwise PUT to it. */
  function StoreCall(id: Id, r: Row, user: User, accepted: bool): Entry
    requires r.blob.Obj?
  {
    var doc := Outgoing(r, user);
    if GetIdentifier(doc) == "" then Post(id, r.family, doc, accepted) else Put(id, r.family, GetIdentifier(doc), doc, accepted)
  }

  function SyncedAt(doc: Json, clock: Instant): Instant {
    if ModificationDate(doc) == 0 then clock else ModificationDate(doc)
  }

  predicate Loads(rows: Rows, user: User, id: Id, env: PublishEnv) {
    !env.loadFault && id in rows && rows[id].owner == user.uid && rows[id].blob.Obj?
  }

  /** Metax took the document and answered with one that has an identifier. */
  predicate StoredInMetax(env: PublishEnv) {
    StoreReply(env.store).Some? && IdentifierOf(StoreReply(env.store).value) != ""
  }

  function StoredDoc(env: PublishEnv): Json
    requires StoredInMetax(env)
  {
    StoreReply(env.store).value.value
  }

  predicate Marks(env: PublishEnv) { StoredInMetax(env) && !env.markFault }

  function MarkedRows(rows: Rows, id: Id, env: PublishEnv): Rows
    requires Marks(env) && id in rows
  {
    rows[id := PublishedRow(rows[id], SyncedAt(StoredDoc(env), env.storeClock), StoredDoc(env))]
  }

  predicate HasNewVersion(env: PublishEnv)
    requires StoredInMetax(env)
  {
    MaybeNewVersionId(StoredDoc(env)) != ""
  }

  predicate AddsVersion(rows: Rows, id: Id, env: PublishEnv) {
    && Marks(env) && HasNewVersion(env)
    && FetchReply(env.fetch).Some? && env.newId.Some? && FetchReply(env.fetch).value.Some?
    && !env.versionFault && env.newId.value !in rows && env.newId.value != id
  }

  function FetchedDoc(env: PublishEnv): Json
    requires FetchReply(env.fetch).Some? && FetchReply(env.fetch).value.Some?
  {
    FetchReply(env.fetch).value.value
  }

  function PublishRows(rows: Rows, user: User, id: Id, env: PublishEnv): Rows {
    if !Loads(rows, user, id, env) || !Marks(env) then rows
    else
      var marked := MarkedRows(rows, id, env);
      if !AddsVersion(rows, id, env) then marked
      else marked[env.newId.value := VersionRow(marked[id], SyncedAt(FetchedDoc(env), env.fetchClock), FetchedDoc(env))]
  }

  function PublishJournal(rows: Rows, user: User, id: Id, env: PublishEnv): seq<Entry> {
    if !Loads(rows, user, id, env) then []
    else
      [StoreCall(id, rows[id], user, StoreReply(env.store).Some?)]
      + (if !Marks(env) then [] else
           [MarkedPublished(id)]
           + (if !HasNewVersion(env) then [] else
                [Fetch(MaybeNewVersionId(StoredDoc(env)), FetchReply(env.fetch).Some?)]
                + (if AddsVersion(rows, id, env) then [AddedVersion(id, env.newId.value)] else [])))
  }

  /** The error of a run that stops, by the step that stops it. */
  function PublishErrorOf(rows: Rows, id: Id, env: PublishEnv): Option<PublishError>
    requires id in rows
  {
    if !rows[id].blob.Obj? then Some(NotAnObject)
    else if StoreReply(env.store).None? then Some(RejectedByMetax)
    else if !StoredInMetax(env) then Some(NoIdentifier)
    else if env.markFault then Some(NotMarked)
    else if !HasNewVersion(env) then None
    else if FetchReply(env.fetch).None? then Some(VersionNotFetched)
    else if env.newId.None? then Some(NoNewId)
    else if !AddsVersion(rows, id, env) then Some(VersionNotStored)
    else None
  }

  /** The identifiers reported are those Metax gave, also when a later step fails. */
  function PublishReport(rows: Rows, user: User, id: Id, env: PublishEnv): PublishResult {
    if env.loadFault || id !in rows || rows[id].owner != user.uid then PublishResult("", "", None, Some(NotLoaded))
    else
      var e := PublishErrorOf(rows, id, env);
      if !rows[id].blob.Obj? || !StoredInMetax(env) then PublishResult("", "", None, e)
      else if env.markFault then PublishResult(GetIdentifier(StoredDoc(env)), "", None, e)
      else
        PublishResult(GetIdentifier(StoredDoc(env)), MaybeNewVersionId(StoredDoc(env)),
                      if HasNewVersion(env) && FetchReply(env.fetch).Some? then env.newId else None, e)
  }

  method Publish(db: Database, user: User, id: Id, env: PublishEnv) returns (r: PublishResult, journal: seq<Entry>)
    modifies db`rows
    ensures db.rows == PublishRows(old(db.rows), user, id, env)
    ensures journal == PublishJournal(old(db.rows), user, id, env)
    ensures r.error.None? <==> Loads(old(db.rows), user, id, env) && Marks(env) && (HasNewVersion(env) ==> AddsVersion(old(db.rows), id, env))
    ensures r == PublishReport(old(db.rows), user, id, env)
  {
    hide ModificationDate, GetIdentifier, MaybeNewVersionId, Jsonb, IsLatest, StoreReply, FetchReply, StoreCall, VersionRow, PublishedRow;
    journal := [];
    var loaded := db.GetWithOwner(id, user.uid, env.loadFault);
    if loaded.Err? {
      return PublishResult("", "", None, Some(NotLoaded)), journal;
    }
    var row := loaded.value;
    if !row.blob.Obj? {
      return PublishResult("", "", None, Some(NotAnObject)), journal;
    }
    var reply := StoreReply(env.store);
    journal := journal + [StoreCall(id, row, user, reply.Some?)];
    if reply.None? {
      return PublishResult("", "", None, Some(RejectedByMetax)), journal;
    }
    var versionId := IdentifierOf(reply.value);
    if versionId == "" {
      return PublishResult("", "", None, Some(NoIdentifier)), journal;
    }
    var res := reply.value.value;
    var synced := GetModificationDate(res);
    if synced == 0 {
      synced := env.storeClock;
    }
    var e := db.StorePublished(id, res, synced, env.markFault);
    if e.Some? {
      return PublishResult(versionId, "", None, Some(NotMarked)), journal;
    }
    journal := journal + [MarkedPublished(id)];
    var newVersionId := MaybeNewVersionId(res);
    if newVersionId == "" {
      return PublishResult(versionId, "", None, None), journal;
    }
    var newRow, error, more := PublishVersion(db, id, newVersionId, env);
    return PublishResult(versionId, newVersionId, newRow, error), journal + more;
  }

  /** The second half: fetch the new version and add a row for it. */
  method PublishVersion(db: Database, id: Id, newVersionId: string, env: PublishEnv)
    returns (newRow: Option<Id>, error: Option<PublishError>, journal: seq<Entry>)
    requires id in db.rows
    modifies db`rows
    ensures var stored := FetchReply(env.fetch).Some? && env.newId.Some? && FetchReply(env.fetch).value.Some?
                          && !env.versionFault && env.newId.value !in old(db.rows);
            && (FetchReply(env.fetch).Some? <==> env.fetch.Reply? && env.fetch.status == 200 && env.fetch.json)
            && newRow == (if FetchReply(env.fetch).Some? then env.newId else None)
            && error == (if FetchReply(env.fetch).None? then Some(VersionNotFetched) else if env.newId.None? then Some(NoNewId)
                         else if !stored then Some(VersionNotStored) else None)
            && db.rows == (if stored then
                 old(db.rows)[env.newId.value := VersionRow(old(db.rows)[id], SyncedAt(FetchedDoc(env), env.fetchClock), FetchedDoc(env))]
               else old(db.rows))
            && (stored ==>
                  var base, row := old(db.rows)[id], db.rows[env.newId.value];
                  && env.fetch.body.Some? && row.blob == Jsonb(env.fetch.body.value)
                  && (ModificationDate(env.fetch.body.value) != 0 ==> row.created == ModificationDate(env.fetch.body.value))
                  && (ModificationDate(env.fetch.body.value) == 0 ==> row.created == env.fetchClock)
                  && row == Row(base.creator, base.owner, row.created, row.created, Some(row.created), 0, true, true,
                                base.family, base.schema, row.blob))
            && journal == [Fetch(newVersionId, FetchReply(env.fetch).Some?)] + if stored then [AddedVersion(id, env.newId.value)] else []
  {
    hide ModificationDate, Jsonb;
    var reply := FetchReply(env.fetch);
    journal := [Fetch(newVersionId, reply.Some?)];
    if reply.None? {
      return None, Some(VersionNotFetched), journal;
    }
    if env.newId.None? {
      return None, Some(NoNewId), journal;
    }
    if reply.value.None? {
      // an empty text is no jsonb value: the insert fails
      return env.newId, Some(VersionNotStored), journal;
    }
    var doc := reply.value.value;
    var synced := GetModificationDate(doc);
    if synced == 0 {
      synced := env.fetchClock;
    }
    var e := db.StoreNewVersion(id, env.newId.value, synced, doc, env.versionFault);
    if e.Some? {
      return env.newId, Some(VersionNotStored), journal;
    }
    return env.newId, None, journal + [AddedVersion(id, env.newId.value)];
  }

  // ---------- delete ----------

  datatype DeleteEnv = DeleteEnv(loadFault: bool, reloadFault: bool, response: Response, deleteFault: bool)

  predicate CanDelete(rows: Rows, uid: Id, id: Id, env: DeleteEnv) {
    !env.loadFault && id in rows && rows[id].owner == uid && (rows[id].published ==> !env.reloadFault)
  }

  function DeleteRows(rows: Rows, uid: Id, id: Id, env: DeleteEnv): Rows {
    if CanDelete(rows, uid, id, env) && (rows[id].published ==> DeleteAccepted(env.response)) && !env.deleteFault then rows - {id}
    else rows
  }

  function DeleteJournal(rows: Rows, uid: Id, id: Id, env: DeleteEnv): seq<Entry> {
    if !CanDelete(rows, uid, id, env) then []
    else
      var r := rows[id];
      if r.published then
        [Unpublish(id, r.family, GetIdentifier(r.blob), DeleteAccepted(env.response))]
        + (if DeleteAccepted(env.response) && !env.deleteFault then [Dropped(id, true)] else [])
      else if env.deleteFault then []
      else [Dropped(id, false)]
  }

  /** A published dataset is first removed in Metax, then locally. */
  method UnpublishAndDelete(db: Database, uid: Id, id: Id, env: DeleteEnv) returns (ok: bool, journal: seq<Entry>)
    modifies db`rows
    ensures var rows := old(db.rows);
            var loads := !env.reloadFault && id in rows && rows[id].owner == uid;
            && (ok <==> loads && env.response.Reply? && env.response.status == 204 && !env.deleteFault)
            && db.rows == (if ok then rows - {id} else rows)
            && journal == (if !loads then [] else
                 [Unpublish(id, rows[id].family, GetIdentifier(rows[id].blob), DeleteAccepted(env.response))]
                 + if ok then [Dropped(id, rows[id].published)] else [])
  {
    hide GetIdentifier;
    var loaded := db.GetWithOwner(id, uid, env.reloadFault);
    if loaded.Err? {
      return false, [];
    }
    var row := loaded.value;
    journal := [Unpublish(id, row.family, GetIdentifier(row.blob), DeleteAccepted(env.response))];
    if !DeleteAccepted(env.response) {
      return false, journal;
    }
    var e := db.Delete(id, uid, env.deleteFault);
    if e.Some? {
      return false, journal;
    }
    return true, journal + [Dropped(id, row.published)];
  }

  method DeleteDataset(db: Database, uid: Id, id: Id, env: DeleteEnv) returns (ok: bool, journal: seq<Entry>)
    modifies db`rows
    ensures db.rows == DeleteRows(old(db.rows), uid, id, env)
    ensures journal == DeleteJournal(old(db.rows), uid, id, env)
    ensures ok <==> id in old(db.rows) && id !in db.rows
    ensures ok <==> !env.loadFault && id in old(db.rows) && old(db.rows)[id].owner == uid && !env.deleteFault
                    && (old(db.rows)[id].published ==> !env.reloadFault && env.response.Reply? && env.response.status == 204)
    ensures db.rows == if ok then old(db.rows) - {id} else old(db.rows)
  {
    hide GetIdentifier;
    var loaded := db.GetWithOwner(id, uid, env.loadFault);
    if loaded.Err? {
      return false, [];
    }
    if loaded.value.published {
      ok, journal := UnpublishAndDelete(db, uid, id, env);
    } else {
      var e := db.Delete(id, uid, env.deleteFault);
      if e.Some? {
        return false, [];
      }
      return true, [Dropped(id, false)];
    }
  }
}
