/**
 Whole runs of the service: requests and sync batches, one at a time, in any order
 and with any failures.
 */
module Service {
  import opened Json
  import opened Calendar
  import opened Datasets
  import opened Updates
  import opened Store
  import opened Sync
  import opened SyncMerge
  import opened SyncTwice
  import opened Handlers
  import opened Publishing

  /** One request with everything it meets on its way: clocks, new ids, Metax's answers, faults. */
  datatype Request =
    | CreateCall(user: User, create: CreateRequest, id: Id, now: Instant, fault: bool)
    | UpdateCall(user: User, id: Id, update: UpdateRequest, now: Instant, fault: bool)
    | PublishCall(user: User, id: Id, publish: PublishEnv)
    | DeleteCall(user: User, id: Id, delete: DeleteEnv)
    | SyncCall(env: Env, ctx: Context, stream: seq<Incoming>, closed: bool)

  /**
   The table, the templates and the journal, and three records of the past: the ids
   handed out so far, for every row the document a service step last wrote (a
   creation, a publication or a sync), and the fields of a row that an update was ambiguous
   about since.
   */
  datatype State = State(rows: Rows, templates: map<string, Template>, journal: seq<Entry>,
                         used: set<Id>, base: map<Id, Json>, careless: set<(Id, string)>)

  function Initial(): State { State(map[], FreshTemplates(), [], {}, map[], {}) }

  // ---------- one request ----------

  function BatchAfter(rows: Rows, q: Request): Batch
    requires q.SyncCall?
  {
    Steps(q.env, q.ctx, Batch(rows, false), q.stream)
  }

  function NextRows(s: State, q: Request): Rows {
    match q
    case CreateCall(user, create, id, now, fault) => CreateRows(s.rows, s.templates, user, create, id, now, fault)
    case UpdateCall(user, id, update, now, fault) => UpdateRows(s.rows, user, id, update, now, fault)
    case PublishCall(user, id, publish) => PublishRows(s.rows, user, id, publish)
    case DeleteCall(user, id, delete) => DeleteRows(s.rows, user.uid, id, delete)
    case SyncCall(_, _, _, closed) => if closed && !BatchAfter(s.rows, q).aborted then BatchAfter(s.rows, q).rows else s.rows
  }

  function NewEntries(s: State, q: Request): seq<Entry> {
    match q
    case PublishCall(user, id, publish) => PublishJournal(s.rows, user, id, publish)
    case DeleteCall(user, id, delete) => DeleteJournal(s.rows, user.uid, id, delete)
    case _ => []
  }

  /** The ids the generator hands out during a request. */
  function Taken(q: Request): set<Id> {
    match q
    case CreateCall(_, _, id, _, _) => {id}
    case PublishCall(_, _, publish) => if publish.newId.Some? then {publish.newId.value} else {}
    case SyncCall(_, _, stream, _) => set inc | inc in stream && inc.newId.Some? :: inc.newId.value
    case _ => {}
  }

  predicate Writes(p: Plan, id: Id) { Hits(p, id) && (p.Insert? || p.Overwrite?) }

  /** The request is a service step that writes the document of the row. */
  predicate Wrote(s: State, q: Request, id: Id) {
    match q
    case CreateCall(_, _, new', _, _) => id == new' && id !in s.rows
    case PublishCall(user, row, publish) =>
      Loads(s.rows, user, row, publish) && Marks(publish)
      && (id == row || (AddsVersion(s.rows, row, publish) && id == publish.newId.value))
    case SyncCall(env, ctx, stream, closed) =>
      closed && !BatchAfter(s.rows, q).aborted && exists p <- PlansOf(env, ctx, stream) :: Writes(p, id)
    case _ => false
  }

  const FILE_NAMES := ["files", "directories"]

  /** The checked names about which the submitted dataset tells the check one thing and the column another. */
  function AmbiguousNames(r: Row, dataset: Json): set<string> {
    (set name | name in READ_ONLY_NAMES && !Unambiguous(dataset, name))
    + if IsPas(r.blob) || IsOldVersion(r.blob) then set name | name in FILE_NAMES && !ValuesAgree(dataset, name) else {}
  }

  /** The fields that an update which really changes its row leaves unguarded, each with the row. */
  function Careless(s: State, q: Request): set<(Id, string)> {
    if q.UpdateCall? && !q.fault && UpdateAccepted(s.rows, q.user, q.id, q.update, q.now) && s.rows[q.id].family == METAX_FAMILY then
      set name | name in AmbiguousNames(s.rows[q.id], q.update.dataset.value) :: (q.id, name)
    else {}
  }

  function Apply(s: State, q: Request): State {
    var rows := NextRows(s, q);
    State(rows,
          if q.CreateCall? then TemplatesAfter(s.templates, q.user, q.create, q.id) else s.templates,
          s.journal + NewEntries(s, q),
          s.used + Taken(q),
          map id | id in rows :: if id !in s.base || Wrote(s, q, id) then rows[id].blob else s.base[id],
          (set c | c in s.careless && !Wrote(s, q, c.0)) + Careless(s, q))
  }

  // ---------- what a run may assume ----------

  /** The index of a batch: empty, or built from some listing of the user's rows. */
  ghost predicate IndexOf(ctx: Context, rows: Rows, uid: Id) {
    ctx == NO_CONTEXT || exists list :: ListsOwned(list, rows, uid) && ctx == BuildContext(rows, list)
  }

  predicate Named(doc: Json) { GetIdentifier(Jsonb(doc)) != "" }

  /** Generated ids are new, and documents from Metax carry an identifier that survives storing them. */
  ghost predicate Plausible(s: State, q: Request) {
    && Taken(q) !! s.used
    && match q
       case PublishCall(_, _, publish) =>
         (StoredInMetax(publish) ==> Named(StoredDoc(publish)))
         && (FetchReply(publish.fetch).Some? && FetchReply(publish.fetch).value.Some? ==> Named(FetchedDoc(publish)))
       case SyncCall(env, ctx, stream, _) =>
         IndexOf(ctx, s.rows, env.uid) && forall inc <- stream :: Good(inc.record) ==> Named(inc.record)
       case _ => true
  }

  function RunFrom(s: State, qs: seq<Request>): State {
    if qs == [] then s else Apply(RunFrom(s, qs[..|qs| - 1]), qs[|qs| - 1])
  }

  ghost predicate PlausibleRun(s: State, qs: seq<Request>) {
    forall i :: 0 <= i < |qs| ==> Plausible(RunFrom(s, qs[..i]), qs[i])
  }

  // ---------- what one request does to the rows ----------

  /** Columns that stay with a row for good; the published flag only ever rises. */
  predicate Continues(r: Row, t: Row) {
    && r.creator == t.creator && r.owner == t.owner && r.created == t.created
    && r.family == t.family && r.schema == t.schema && (r.published ==> t.published)
  }

  /** New rows have new ids, old rows go on. */
  predicate RowsGoOn(rows: Rows, taken: set<Id>, after: Rows) {
    && (forall id <- after :: id !in rows ==> id in taken)
    && (forall id <- after :: id in rows ==> Continues(rows[id], after[id]))
  }

  lemma SyncRowsGoOn(s: State, q: Request)
    requires q.SyncCall? && Plausible(s, q) && s.rows.Keys <= s.used
    ensures NewIdsUnused(PlansOf(q.env, q.ctx, q.stream), s.rows)
    ensures RowsGoOn(s.rows, Taken(q), NextRows(s, q))
    ensures Explained(PlansOf(q.env, q.ctx, q.stream), s.rows, BatchAfter(s.rows, q).rows)
  {
    hide Decide, Jsonb, GetIdentifier, Steps, IndexOf;
    var plans := PlansOf(q.env, q.ctx, q.stream);
    forall p | p in plans && p.Insert? ensures p.id in Taken(q) {
      var i :| 0 <= i < |q.stream| && plans[i] == p;
      InsertMeans(q.env, q.ctx, q.stream[i], p.id, p.row);
      assert q.stream[i] in q.stream;
    }
    BatchIsExplained(q.env, q.ctx, s.rows, q.stream);
    var after := BatchAfter(s.rows, q).rows;
    forall id | id in after
      ensures id !in s.rows ==> id in Taken(q)
      ensures id in s.rows ==> Continues(s.rows[id], after[id])
    {
      assert ExplainedAt(plans, Cell(s.rows, id), Cell(after, id), id);
    }
  }

  lemma UpdateGoesOn(rows: Rows, user: User, id: Id, req: UpdateRequest, now: Instant, fault: bool)
    ensures RowsGoOn(rows, {}, UpdateRows(rows, user, id, req, now, fault))
  {
    hide UpdateAllowed, Concat, Jsonb, UpdateDoc;
  }

  lemma RequestGoesOn(s: State, q: Request)
    requires Plausible(s, q) && s.rows.Keys <= s.used
    ensures Taken(q) !! s.used && RowsGoOn(s.rows, Taken(q), NextRows(s, q))
  {
    hide UpdateAllowed, Jsonb, GetIdentifier, CreateDoc, CreateWellFormed, StoreReply, ModificationDate;
    hide MaybeNewVersionId, UpdateRows, Steps;
    match q
    case SyncCall(_, _, _, _) => SyncRowsGoOn(s, q);
    case UpdateCall(user, id, update, now, fault) => UpdateGoesOn(s.rows, user, id, update, now, fault);
    case _ =>
  }

  // ---------- histories ----------

  /** What a later state owes an earlier one. */
  predicate Later(s: State, t: State) {
    && s.used <= t.used && s.journal <= t.journal
    && (forall id <- t.rows :: id in s.used ==> id in s.rows)
    && (forall id <- t.rows :: id in s.rows ==> Continues(s.rows[id], t.rows[id]))
  }

  /**
   Over any run: an id that was handed out and has no row never gets one again;
   creator, owner, creation time, family and schema of a row never change; and a
   published row never becomes unpublished.
   */
  lemma {:induction false} HistoryIsKept(s: State, qs: seq<Request>)
    requires s.rows.Keys <= s.used && PlausibleRun(s, qs)
    ensures RunFrom(s, qs).rows.Keys <= RunFrom(s, qs).used
    ensures Later(s, RunFrom(s, qs))
    decreases |qs|
  {
    hide NextRows, Taken, Wrote, Careless, NewEntries, TemplatesAfter, Continues, Plausible;
    if qs == [] {
      forall id | id in s.rows ensures Continues(s.rows[id], s.rows[id]) { ContinuesReflexive(s.rows[id]); }
    } else {
      var init, q := qs[..|qs| - 1], qs[|qs| - 1];
      RunPrefix(s, qs);
      HistoryIsKept(s, init);
      var m := RunFrom(s, init);
      RequestGoesOn(m, q);
      LaterStep(s, m, q);
    }
  }

  lemma RunPrefix(s: State, qs: seq<Request>)
    requires qs != [] && PlausibleRun(s, qs)
    ensures PlausibleRun(s, qs[..|qs| - 1]) && Plausible(RunFrom(s, qs[..|qs| - 1]), qs[|qs| - 1])
  {
    hide RunFrom, Plausible;
    var init := qs[..|qs| - 1];
    forall i | 0 <= i < |init| ensures Plausible(RunFrom(s, init[..i]), init[i]) {
      assert init[..i] == qs[..i] && init[i] == qs[i];
    }
  }

  lemma ContinuesReflexive(r: Row)
    ensures Continues(r, r)
  {
  }

  lemma LaterStep(s: State, m: State, q: Request)
    requires s.rows.Keys <= s.used && Later(s, m) && m.rows.Keys <= m.used && Taken(q) !! m.used && RowsGoOn(m.rows, Taken(q), NextRows(m, q))
    ensures Later(s, Apply(m, q)) && Apply(m, q).rows.Keys <= Apply(m, q).used
  {
    hide NextRows, Taken, Wrote, Careless, NewEntries, TemplatesAfter, UpdateAccepted;
    var t := Apply(m, q);
    forall id | id in t.rows && id in s.used ensures id in s.rows {
      assert id in m.used;
    }
    forall id | id in t.rows && id in s.rows ensures Continues(s.rows[id], t.rows[id]) {
      assert id in m.rows ==> Continues(m.rows[id], t.rows[id]);
    }
  }
}
