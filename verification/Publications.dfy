/** What one publication tells Metax, does to the table and reports, whatever Metax answers. */
module Publications {
  import opened Options
  import opened Json
  import opened Calendar
  import opened Datasets
  import opened Records
  import opened Store
  import opened Handlers
  import opened Publishing

  predicate AcceptedStore(e: Entry, id: Id) { (e.Post? || e.Put?) && e.row == id && e.accepted }

  /** A row with an identifier is PUT to it; one without is POSTed. */
  lemma StoreGoesToIdentifier(id: Id, r: Row, user: User, accepted: bool)
    requires r.blob.Obj?
    ensures var call, identifier := StoreCall(id, r, user, accepted), Text(Lookup(r.blob, ["identifier"]));
            && identifier == GetIdentifier(r.blob)
            && (call.Post? || call.Put?) && call.row == id && call.family == r.family && call.accepted == accepted
            && (call.Post? <==> identifier == "")
            && (call.Put? <==> identifier != "")
            && (call.Put? ==> call.identifier == identifier)
  {
    assert |IDENTIFIER| == 10 && |"user_created"| == 12 && |"user_modified"| == 13;
    LookupSetMember(r.blob.members, UserKey(r), Str(user.identity), [IDENTIFIER]);
  }

  /** Metax answered a store with 200 or 201 and a JSON document that has an identifier. */
  predicate TookDocument(r: Response) {
    r.Reply? && (r.status == 200 || r.status == 201) && r.json && r.body.Some? && Text(Lookup(r.body.value, ["identifier"])) != ""
  }

  predicate GaveDocument(r: Response) { r.Reply? && r.status == 200 && r.json && r.body.Some? }

  function DateOr(doc: Json, clock: Instant): Instant {
    if ModificationDate(doc) != 0 then ModificationDate(doc) else clock
  }

  /**
   A publication changes the table only after Metax accepted the document: then the
   row holds Metax's answer, dated by it, and is published, and at most one more row
   appears.  That one holds the document fetched under the identifier of the new
   version, is dated by it, and takes creator, owner, family and schema from its base.
   */
  lemma PublishChangesAfterAccept(rows: Rows, user: User, id: Id, env: PublishEnv)
    requires PublishRows(rows, user, id, env) != rows
    ensures var after, journal := PublishRows(rows, user, id, env), PublishJournal(rows, user, id, env);
            && |journal| >= 2 && AcceptedStore(journal[0], id) && journal[1] == MarkedPublished(id)
            && id in rows && id in after && rows[id].owner == user.uid && TookDocument(env.store)
            && after[id] == rows[id].(blob := Jsonb(env.store.body.value), published := true,
                                      synced := Some(DateOr(env.store.body.value, env.storeClock)), revision := rows[id].revision + 1)
            && (forall x <- rows :: x in after && (x != id ==> after[x] == rows[x]))
            && (forall x <- after :: x !in rows ==>
                  && env.newId == Some(x) && GaveDocument(env.fetch)
                  && |journal| == 4 && journal[3] == AddedVersion(id, x)
                  && journal[2] == Fetch(Text(Lookup(env.store.body.value, ["new_version_created", "identifier"])), true)
                  && var date := DateOr(env.fetch.body.value, env.fetchClock);
                     after[x] == Row(rows[id].creator, rows[id].owner, date, date, Some(date), 0, true, true,
                                     rows[id].family, rows[id].schema, Jsonb(env.fetch.body.value)))
  {
    hide Jsonb, Lookup, ModificationDate;
    StoreGoesToIdentifier(id, rows[id], user, StoreReply(env.store).Some?);
  }

  /** So the version row is published under the identifier of the fetched document. */
  lemma VersionHasOwnIdentifier(rows: Rows, user: User, id: Id, env: PublishEnv, x: Id)
    requires x in PublishRows(rows, user, id, env) && x !in rows
    ensures GaveDocument(env.fetch)
    ensures LastText(env.fetch.body.value, "identifier").Some? ==>
              Text(Lookup(PublishRows(rows, user, id, env)[x].blob, ["identifier"])) == LastText(env.fetch.body.value, "identifier").value
  {
    hide Jsonb, Lookup, ModificationDate, PublishRows, PublishJournal;
    PublishChangesAfterAccept(rows, user, id, env);
    if LastText(env.fetch.body.value, "identifier").Some? { StoredText(env.fetch.body.value, "identifier"); }
  }

  lemma StoredText(doc: Json, key: string)
    requires LastText(doc, key).Some?
    ensures Text(Lookup(Jsonb(doc), [key])) == LastText(doc, key).value
  {
    LookupJsonb(doc, [key]);
    assert [key][1..] == [];
  }

  /**
   A publication goes through if and only if the row could be loaded, Metax took its
   document and the row could be marked; and a row is added if and only if besides Metax
   named a new version and gave it, and a new id and the insert worked.
   */
  lemma PublishWorksIff(rows: Rows, user: User, id: Id, env: PublishEnv)
    ensures PublishRows(rows, user, id, env) != rows <==>
              !env.loadFault && id in rows && rows[id].owner == user.uid && rows[id].blob.Obj? && TookDocument(env.store) && !env.markFault
    ensures forall x :: x in PublishRows(rows, user, id, env) && x !in rows <==>
              PublishRows(rows, user, id, env) != rows && x !in rows && env.newId == Some(x) && GaveDocument(env.fetch)
              && Text(Lookup(env.store.body.value, ["new_version_created", "identifier"])) != "" && !env.versionFault
  {
    hide Jsonb, Lookup, ModificationDate;
    var after := PublishRows(rows, user, id, env);
    if Loads(rows, user, id, env) && Marks(env) {
      assert after[id].revision != rows[id].revision;
    }
  }

  /** The document sent names the user, and is the stored one otherwise. */
  lemma SentDocument(id: Id, r: Row, user: User, accepted: bool, path: seq<string>)
    requires r.blob.Obj? && path != []
    ensures var key := if r.published then "user_modified" else "user_created";
            && Lookup(StoreCall(id, r, user, accepted).doc, [key]) == Some(Str(user.identity))
            && (path[0] != key ==> Lookup(StoreCall(id, r, user, accepted).doc, path) == Lookup(r.blob, path))
  {
    var key := UserKey(r);
    SetIsRead(r.blob.members, key, Str(user.identity));
    if path[0] != key { LookupSetMember(r.blob.members, key, Str(user.identity), path); }
  }

  lemma {:induction false} SetIsRead(ms: seq<Member>, key: string, value: Json)
    ensures LookupMember(SetMember(ms, key, value), [key]) == Some(value)
  {
    assert [key][1..] == [] && Lookup(value, []) == Some(value);
    if ms != [] && ms[0].key != key {
      SetIsRead(ms[1..], key, value);
      assert SetMember(ms, key, value)[1..] == SetMember(ms[1..], key, value);
    }
  }

  /** The text at a path of the body Metax answered with. */
  function BodyText(r: Response, path: seq<string>): string {
    if r.Reply? && r.body.Some? then Text(Lookup(r.body.value, path)) else ""
  }

  /** All that happened is one request to store the row. */
  predicate OnlyStored(journal: seq<Entry>, id: Id, accepted: bool) {
    |journal| == 1 && (journal[0].Post? || journal[0].Put?) && journal[0].row == id && journal[0].accepted == accepted
  }

  /** What the reported step says of the table and the journal. */
  predicate ReportFits(report: PublishResult, rows: Rows, after: Rows, journal: seq<Entry>, user: User, id: Id, env: PublishEnv) {
    var version, newer := BodyText(env.store, ["identifier"]), BodyText(env.store, ["new_version_created", "identifier"]);
    match report.error
    case None =>
      after != rows && report.versionId == version && report.newVersionId == newer
      && (newer != "" ==> report.newRow == env.newId && env.newId.Some? && env.newId.value in after && env.newId.value !in rows)
      && (newer == "" ==> report.newRow == None && after.Keys == rows.Keys)
    case Some(NotLoaded) => after == rows && journal == [] && (env.loadFault || id !in rows || rows[id].owner != user.uid)
    case Some(NotAnObject) => after == rows && journal == [] && id in rows && !rows[id].blob.Obj?
    case Some(RejectedByMetax) => after == rows && OnlyStored(journal, id, false)
    case Some(NoIdentifier) => after == rows && OnlyStored(journal, id, true) && !TookDocument(env.store)
    case Some(NotMarked) => after == rows && OnlyStored(journal, id, true) && env.markFault && report.versionId == version
    case Some(_) => after != rows && after.Keys == rows.Keys && report.versionId == version && report.newVersionId == newer
  }

  lemma ReportTells(rows: Rows, user: User, id: Id, env: PublishEnv)
    ensures ReportFits(PublishReport(rows, user, id, env), rows, PublishRows(rows, user, id, env), PublishJournal(rows, user, id, env), user, id, env)
  {
    hide Jsonb, Lookup, ModificationDate, SetMember;
    PublishWorksIff(rows, user, id, env);
  }
}
