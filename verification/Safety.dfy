/**
 What holds of the table in every state the service can reach.
 */
module Safety {
  import opened Options
  import opened Json
  import opened Calendar
  import opened Datasets
  import opened Updates
  import opened Acceptance
  import opened Store
  import opened Sync
  import opened SyncReadings
  import opened SyncMerge
  import opened SyncTwice
  import opened Handlers
  import opened Publishing
  import opened Service

  // ---------- a document and the one a service step last wrote ----------

  /** Every path into a field that only the services write finds the same. */
  ghost predicate SameServiceFields(a: Json, b: Json) {
    forall path | path != [] && ServiceKey(path[0]) :: Lookup(a, path) == Lookup(b, path)
  }

  /** What users never change, however they submit. */
  ghost predicate Kept(blob: Json, published: bool, base: Json) {
    && SameServiceFields(blob, base)
    && (published ==> Lookup(blob, [CUMULATIVE]) == Lookup(base, [CUMULATIVE]))
    && (Locked(base) ==> blob == base)
  }

  /** Unchanged, or at least equal as a JSON value. */
  predicate KeptValue(a: Option<Json>, b: Option<Json>) { a == b || SameValue(a, b) }

  /** What users do not change either, name by name, except under the exempted names. */
  predicate ResearchKept(blob: Json, base: Json, exempt: set<string>) {
    && (forall name <- READ_ONLY_NAMES :: name !in exempt ==> Lookup(blob, [RESEARCH, name]) == Lookup(base, [RESEARCH, name]))
    && (IsPas(base) || IsOldVersion(base) ==>
          forall name <- FILE_NAMES :: name !in exempt ==> KeptValue(Lookup(base, [RESEARCH, name]), Lookup(blob, [RESEARCH, name])))
  }

  lemma SameStatus(a: Json, b: Json)
    requires SameServiceFields(a, b)
    ensures GetIdentifier(a) == GetIdentifier(b) && (Locked(a) <==> Locked(b))
            && (IsPas(a) <==> IsPas(b)) && (IsOldVersion(a) <==> IsOldVersion(b))
  {
    hide Lookup;
    assert ServiceKey([PRESERVATION][0]) && ServiceKey([CATALOG][0]) && ServiceKey([CATALOG, IDENTIFIER][0])
        && ServiceKey([IDENTIFIER][0]) && ServiceKey([NEXT_VERSION, IDENTIFIER][0]);
  }

  // ---------- an accepted update ----------

  /** The update of a Metax row is the merge of its document with a patch that the validation accepted. */
  lemma UpdateIsAccepted(r: Row, req: UpdateRequest)
    requires r.family == METAX_FAMILY && IsStored(r.blob) && UpdateDoc(req).Ok?
    requires UpdateAllowed(StoredOf(r), SubmittedOf(req, UpdateDoc(req).value, r))
    ensures req.id.Some? && req.dataset.Some?
    ensures var cumulative := if req.cumulative.Given? then Some(req.cumulative.j) else None;
            && UpdateDoc(req).value == UpdatePatch(req.id.value, req.dataset.value, "", cumulative)
            && Accepted(StoredOf(r), req.id.value, req.dataset.value, "", cumulative)
  {
    hide UpdatePatch, CumulativeStateOk, Locked, ReadOnlyKept, IsPas, IsOldVersion, SameValue;
  }

  lemma UpdateKeeps(before: Stored, base: Json, id: Id, dataset: Json, cumulative: Option<Json>)
    requires IsStored(before.blob) && Accepted(before, id, dataset, "", cumulative)
    requires Kept(before.blob, before.published, base)
    ensures var after := Merged(before.blob, UpdatePatch(id, dataset, "", cumulative));
            IsStored(after) && Kept(after, before.published, base) && GetIdentifier(after) == GetIdentifier(before.blob)
  {
    hide Lookup, Jsonb, Merged, EditorJson, Locked, GetIdentifier, IsPas, IsOldVersion;
    var after := Merged(before.blob, UpdatePatch(id, dataset, "", cumulative));
    UpdateIsStored(before.blob, id, dataset, cumulative);
    forall path | path != [] && ServiceKey(path[0]) ensures Lookup(after, path) == Lookup(base, path) {
      ServiceFieldsKept(before.blob, id, dataset, "", cumulative, path);
    }
    SameStatus(after, base);
    SameStatus(before.blob, base);
    if before.published { CumulativeKept(before, id, dataset, "", cumulative); }
  }

  lemma UpdateIsStored(blob: Json, id: Id, dataset: Json, cumulative: Option<Json>)
    requires IsStored(blob)
    ensures IsStored(Merged(blob, UpdatePatch(id, dataset, "", cumulative)))
  {
    hide Jsonb, Merged, EditorJson;
    MergedIsStored(blob, UpdatePatch(id, dataset, "", cumulative));
  }

  lemma SameValueTransitive(a: Option<Json>, b: Option<Json>, c: Option<Json>)
    requires KeptValue(a, b) && SameValue(b, c)
    ensures KeptValue(a, c)
  {
    hide Decode;
  }

  lemma UpdateKeepsResearch(r: Row, base: Json, exempt: set<string>, id: Id, dataset: Json, cumulative: Option<Json>)
    requires IsStored(r.blob) && Accepted(StoredOf(r), id, dataset, "", cumulative)
    requires SameServiceFields(r.blob, base) && ResearchKept(r.blob, base, exempt)
    ensures ResearchKept(Merged(r.blob, UpdatePatch(id, dataset, "", cumulative)), base, exempt + AmbiguousNames(r, dataset))
  {
    hide Lookup, Jsonb, Merged, EditorJson, UpdateAllowed, Unambiguous, ValuesAgree, SameValue, IsPas, IsOldVersion;
    var before := StoredOf(r);
    var after := Merged(r.blob, UpdatePatch(id, dataset, "", cumulative));
    var still := exempt + AmbiguousNames(r, dataset);
    forall name | name in READ_ONLY_NAMES && name !in still ensures Lookup(after, [RESEARCH, name]) == Lookup(base, [RESEARCH, name]) {
      ReadOnlyKeptIff(before, id, dataset, "", cumulative, name);
    }
    SameStatus(r.blob, base);
    if IsPas(base) || IsOldVersion(base) {
      forall name | name in FILE_NAMES && name !in still
        ensures KeptValue(Lookup(base, [RESEARCH, name]), Lookup(after, [RESEARCH, name]))
      {
        FilesKeptIff(before, id, dataset, "", cumulative, name);
        SameValueTransitive(Lookup(base, [RESEARCH, name]), Lookup(r.blob, [RESEARCH, name]), Lookup(after, [RESEARCH, name]));
      }
    }
  }

  // ---------- the invariant ----------

  /** The exempted names of one row. */
  function NamesOf(careless: set<(Id, string)>, id: Id): set<string> {
    set c | c in careless && c.0 == id :: c.1
  }

  ghost predicate RowIsSound(r: Row, base: Json, exempt: set<string>) {
    r.family == METAX_FAMILY ==>
      && IsStored(r.blob)
      && (r.published ==> GetIdentifier(r.blob) != "")
      && Kept(r.blob, r.published, base)
      && ResearchKept(r.blob, base, exempt)
  }

  ghost predicate Sound(s: State) {
    && s.rows.Keys <= s.used && s.base.Keys == s.rows.Keys
    && forall id <- s.rows :: RowIsSound(s.rows[id], s.base[id], NamesOf(s.careless, id))
  }

  /** A row whose document a service step has just written. */
  lemma FreshIsSound(r: Row, exempt: set<string>)
    requires r.family == METAX_FAMILY ==> IsStored(r.blob) && (r.published ==> GetIdentifier(r.blob) != "")
    ensures RowIsSound(r, r.blob, exempt)
  {
  }

  /** What a service step writes is a stored document, with an identifier if the row is published. */
  lemma WrittenIsSound(s: State, q: Request, id: Id)
    requires Sound(s) && Plausible(s, q) && Wrote(s, q, id) && id in NextRows(s, q)
    ensures var r := NextRows(s, q)[id];
            r.family == METAX_FAMILY ==> IsStored(r.blob) && (r.published ==> GetIdentifier(r.blob) != "")
  {
    hide Jsonb, GetIdentifier, IsStored, ModificationDate, Steps, Sound, CreatedBlob, Decide;
    match q
    case CreateCall(_, _, _, _, _) => CreatedIsStored(s, q);
    case PublishCall(_, _, _) => PublishedIsStored(s, q, id);
    case SyncCall(_, _, _, _) => SyncedIsStored(s, q, id);
    case _ =>
  }

  lemma NamedIsStored(doc: Json)
    requires Named(doc)
    ensures IsStored(Jsonb(doc))
  {
    hide JsonbMembers;
    JsonbIdempotent(doc);
  }

  lemma CreatedIsStored(s: State, q: Request)
    requires q.CreateCall? && q.id !in s.rows && q.id in NextRows(s, q)
    ensures var r := NextRows(s, q)[q.id]; !r.published && (r.family == METAX_FAMILY ==> IsStored(r.blob))
  {
    hide Jsonb, CreateAllowed, Filled;
    var doc := CreateDoc(s.templates, q.id, q.user, q.create).value;
    assert NextRows(s, q)[q.id].blob == Jsonb(doc);
    if q.create.family.value == METAX_FAMILY {
      assert doc.Obj?;
      ObjectIsStored(doc);
    }
  }

  lemma ObjectIsStored(doc: Json)
    requires doc.Obj?
    ensures IsStored(Jsonb(doc))
  {
    hide JsonbMembers;
    JsonbIdempotent(doc);
  }

  lemma PublishedIsStored(s: State, q: Request, id: Id)
    requires q.PublishCall? && Plausible(s, q) && Wrote(s, q, id)
    ensures id in NextRows(s, q)
    ensures var r := NextRows(s, q)[id]; IsStored(r.blob) && GetIdentifier(r.blob) != ""
  {
    hide Jsonb, GetIdentifier, IsStored, ModificationDate, MaybeNewVersionId, StoreReply, FetchReply;
    NamedIsStored(StoredDoc(q.publish));
    if AddsVersion(s.rows, q.id, q.publish) { NamedIsStored(FetchedDoc(q.publish)); }
  }

  /** A document a plan writes is a record of the stream. */
  lemma PlanBlobIsStored(s: State, q: Request, p: Plan, id: Id, r: Row)
    requires q.SyncCall? && Plausible(s, q) && p in PlansOf(q.env, q.ctx, q.stream) && BlobFrom(p, id, r)
    ensures Writes(p, id) && IsStored(r.blob) && GetIdentifier(r.blob) != ""
  {
    hide Jsonb, GetIdentifier, IsStored, Decide, Good, Named, Plausible, NewerFor;
    var i :| 0 <= i < |q.stream| && Decide(q.env, q.ctx, q.stream[i]) == p;
    var inc := q.stream[i];
    if !Good(inc.record) {
      DecideIs(q.env, q.ctx, inc);
    } else {
      if p.Insert? { InsertMeans(q.env, q.ctx, inc, id, p.row); } else { OverwriteMeans(q.env, q.ctx, inc, id, p.blob); }
      RecordIsNamed(s, q, i);
      NamedIsStored(inc.record);
    }
  }

  lemma RecordIsNamed(s: State, q: Request, i: nat)
    requires q.SyncCall? && Plausible(s, q) && i < |q.stream| && Good(q.stream[i].record)
    ensures Named(q.stream[i].record) && GetIdentifier(Jsonb(q.stream[i].record)) != ""
  {
    hide Good, IndexOf, GetIdentifier, Jsonb;
    assert q.stream[i] in q.stream;
  }

  lemma SyncedIsStored(s: State, q: Request, id: Id)
    requires q.SyncCall? && Sound(s) && Plausible(s, q) && id in NextRows(s, q)
    ensures var r := NextRows(s, q)[id];
            && (r.family == METAX_FAMILY ==> IsStored(r.blob) && (r.published ==> GetIdentifier(r.blob) != ""))
            && (!Wrote(s, q, id) ==> id in s.rows && r.blob == s.rows[id].blob && SameOrigin(s.rows[id], r))
  {
    hide Jsonb, GetIdentifier, IsStored, Steps, Decide, Plausible, Writes, Kept, ResearchKept;
    if id in s.rows { assert RowIsSound(s.rows[id], s.base[id], NamesOf(s.careless, id)); }
    if q.closed && !BatchAfter(s.rows, q).aborted {
      SyncRowsGoOn(s, q);
      var plans, after := PlansOf(q.env, q.ctx, q.stream), BatchAfter(s.rows, q).rows;
      assert ExplainedAt(plans, Cell(s.rows, id), Cell(after, id), id);
      if id !in s.rows || after[id].blob != s.rows[id].blob {
        var p :| p in plans && BlobFrom(p, id, after[id]);
        PlanBlobIsStored(s, q, p, id, after[id]);
      }
    }
  }

  /** A row no service step writes is the old row, or the old row after an accepted update. */
  lemma UnwrittenRow(s: State, q: Request, id: Id)
    requires Sound(s) && Plausible(s, q) && id in NextRows(s, q) && !Wrote(s, q, id)
    ensures id in s.rows
    ensures var r, t := s.rows[id], NextRows(s, q)[id];
            || (t.family == r.family && t.published == r.published && t.blob == r.blob)
            || (q.UpdateCall? && !q.fault && q.id == id && UpdateAccepted(s.rows, q.user, id, q.update, q.now)
                && Some(t) == UpdatedRow(r, q.now, UpdateDoc(q.update).value))
  {
    hide Jsonb, GetIdentifier, IsStored, Steps, Sound, Plausible, ModificationDate, MaybeNewVersionId, StoreReply;
    hide UpdateAccepted, CreateDoc, CreateWellFormed, UpdatedRow;
    match q
    case SyncCall(_, _, _, _) => SyncedIsStored(s, q, id);
    case UpdateCall(user, row, update, now, fault) => UpdatedRows(s.rows, user, row, update, now, fault, id);
    case _ =>
  }

  lemma UpdatedRows(rows: Rows, user: User, row: Id, update: UpdateRequest, now: Instant, fault: bool, id: Id)
    requires id in UpdateRows(rows, user, row, update, now, fault)
    ensures id in rows
    ensures var t := UpdateRows(rows, user, row, update, now, fault)[id];
            t == rows[id] || (!fault && id == row && UpdateAccepted(rows, user, id, update, now)
                              && Some(t) == UpdatedRow(rows[id], now, UpdateDoc(update).value))
  {
    hide Jsonb, UpdateAllowed, UpdateDoc, UpdatedRow;
  }

  /** The row an accepted update leaves. */
  lemma UpdatedIsSound(r: Row, base: Json, exempt: set<string>, user: User, id: Id, req: UpdateRequest, now: Instant)
    requires RowIsSound(r, base, exempt) && UpdateAccepted(map[id := r], user, id, req, now)
    ensures var t := UpdatedRow(r, now, UpdateDoc(req).value).value;
            RowIsSound(t, base, exempt + if r.family == METAX_FAMILY then AmbiguousNames(r, req.dataset.value) else {})
  {
    hide Jsonb, Lookup, EditorJson, UpdateAllowed, Locked, IsPas, IsOldVersion, GetIdentifier, Unambiguous, ValuesAgree;
    hide ResearchKept, AmbiguousNames;
    if r.family == METAX_FAMILY {
      UpdateIsAccepted(r, req);
      var cumulative := if req.cumulative.Given? then Some(req.cumulative.j) else None;
      UpdateKeeps(StoredOf(r), base, req.id.value, req.dataset.value, cumulative);
      UpdateKeepsResearch(r, base, exempt, req.id.value, req.dataset.value, cumulative);
    }
  }

  lemma RequestIsSound(s: State, q: Request, id: Id)
    requires Sound(s) && Plausible(s, q) && id in NextRows(s, q)
    ensures var t := Apply(s, q); RowIsSound(t.rows[id], t.base[id], NamesOf(t.careless, id))
  {
    hide NextRows, NewEntries, Wrote, Taken, TemplatesAfter, Jsonb, RowIsSound, Plausible, UpdateAllowed, UpdatedRow, UpdatePatch;
    hide AmbiguousNames;
    var t := Apply(s, q);
    if Wrote(s, q, id) {
      WrittenIsSound(s, q, id);
      FreshIsSound(t.rows[id], NamesOf(t.careless, id));
    } else {
      UnwrittenRow(s, q, id);
      var exempt := NamesOf(s.careless, id);
      assert RowIsSound(s.rows[id], s.base[id], exempt);
      assert exempt <= NamesOf(t.careless, id);
      if t.rows[id].family == s.rows[id].family && t.rows[id].published == s.rows[id].published && t.rows[id].blob == s.rows[id].blob {
        SameRowIsSound(s.rows[id], t.rows[id], s.base[id], exempt, NamesOf(t.careless, id));
      } else {
        UpdatedIsSound(s.rows[id], s.base[id], exempt, q.user, id, q.update, q.now);
        var more := exempt + if s.rows[id].family == METAX_FAMILY then AmbiguousNames(s.rows[id], q.update.dataset.value) else {};
        assert more <= NamesOf(t.careless, id);
        SameRowIsSound(t.rows[id], t.rows[id], s.base[id], more, NamesOf(t.careless, id));
      }
    }
  }

  lemma SameRowIsSound(r: Row, t: Row, base: Json, exempt: set<string>, still: set<string>)
    requires RowIsSound(r, base, exempt) && t.family == r.family && t.published == r.published && t.blob == r.blob
    requires exempt <= still
    ensures RowIsSound(t, base, still)
  {
    hide Kept, KeptValue, Lookup, IsStored, GetIdentifier, IsPas, IsOldVersion;
  }

  lemma RequestKeepsSound(s: State, q: Request)
    requires Sound(s) && Plausible(s, q)
    ensures Sound(Apply(s, q))
  {
    hide NextRows, NewEntries, Wrote, Taken, TemplatesAfter, Careless, Jsonb, RowIsSound, Plausible, RowsGoOn;
    RequestGoesOn(s, q);
    var t := Apply(s, q);
    assert t.rows.Keys <= t.used by { NewIdsAreUsed(s, q); }
    forall id | id in t.rows ensures RowIsSound(t.rows[id], t.base[id], NamesOf(t.careless, id)) {
      RequestIsSound(s, q, id);
    }
  }

  lemma NewIdsAreUsed(s: State, q: Request)
    requires s.rows.Keys <= s.used && RowsGoOn(s.rows, Taken(q), NextRows(s, q))
    ensures NextRows(s, q).Keys <= s.used + Taken(q)
  {
    hide NextRows, Taken;
  }

  lemma {:induction false} RunKeepsSound(s: State, qs: seq<Request>)
    requires Sound(s) && PlausibleRun(s, qs)
    ensures Sound(RunFrom(s, qs))
    decreases |qs|
  {
    hide NextRows, NewEntries, Wrote, Taken, TemplatesAfter, Careless, Jsonb, RowIsSound, Plausible, Apply;
    if qs != [] {
      RunPrefix(s, qs);
      RunKeepsSound(s, qs[..|qs| - 1]);
      RequestKeepsSound(RunFrom(s, qs[..|qs| - 1]), qs[|qs| - 1]);
    }
  }

  /**
   In every reachable state, for every Metax row: its document is in stored form; if
   it is published it has an identifier; the fields only services write, and the
   cumulative state once published, are those of the document a service step last
   wrote; a row locked for preservation still has exactly that document; and so are
   its read-only research fields and, where it is preserved or superseded, its files
   and directories as JSON values, each except when an update that was ambiguous about
   that very name has changed the row since.
   */
  lemma AlwaysSound(qs: seq<Request>)
    requires PlausibleRun(Initial(), qs)
    ensures Sound(RunFrom(Initial(), qs))
  {
    hide RunFrom, Plausible, RowIsSound;
    RunKeepsSound(Initial(), qs);
  }

  // ---------- the exemption is exact ----------

  /** A field is exempted only by an update that really changes it. */
  lemma CarelessChanges(s: State, q: Request, id: Id, name: string)
    requires Sound(s) && (id, name) in Careless(s, q)
    ensures id in s.rows && id in NextRows(s, q) && (name in READ_ONLY_NAMES || name in FILE_NAMES)
    ensures var before, after := Lookup(s.rows[id].blob, [RESEARCH, name]), Lookup(NextRows(s, q)[id].blob, [RESEARCH, name]);
            (name in READ_ONLY_NAMES ==> after != before) && (name in FILE_NAMES ==> !SameValue(before, after))
  {
    hide Jsonb, Lookup, EditorJson, UpdateAllowed, Locked, IsPas, IsOldVersion, GetIdentifier, Unambiguous, ValuesAgree, SameValue;
    hide Kept, ResearchKept;
    var r, req := s.rows[id], q.update;
    assert RowIsSound(r, s.base[id], NamesOf(s.careless, id));
    UpdateIsAccepted(r, req);
    var cumulative := if req.cumulative.Given? then Some(req.cumulative.j) else None;
    NamesApart(name);
    if name in READ_ONLY_NAMES {
      ReadOnlyKeptIff(StoredOf(r), req.id.value, req.dataset.value, "", cumulative, name);
    } else {
      FilesKeptIff(StoredOf(r), req.id.value, req.dataset.value, "", cumulative, name);
    }
  }

  lemma NamesApart(name: string)
    ensures !(name in READ_ONLY_NAMES && name in FILE_NAMES)
  {
    assert |"files"| == 5 && |"directories"| == 11;
    assert |READ_ONLY_NAMES[0]| == 27 && |READ_ONLY_NAMES[1]| == 20 && |READ_ONLY_NAMES[2]| == 21;
  }

  // ---------- which steps write a document ----------

  /** The row holds an answer of Metax. */
  predicate HoldsAnswer(blob: Json, r: Response) { r.Reply? && r.body.Some? && blob == Jsonb(r.body.value) }

  /**
   A step that counts as writing a row is a creation of it, a publication that leaves in
   it one of Metax's two answers, or a sync that leaves in it a record of its stream or
   what it held; updates and deletions never count.
   */
  lemma WroteMeans(s: State, q: Request, id: Id)
    requires s.rows.Keys <= s.used && Plausible(s, q) && Wrote(s, q, id) && id in NextRows(s, q)
    ensures !q.UpdateCall? && !q.DeleteCall?
    ensures var blob := NextRows(s, q)[id].blob;
            && (q.CreateCall? ==> id == q.id && id !in s.rows)
            && (q.PublishCall? ==> HoldsAnswer(blob, q.publish.store) || HoldsAnswer(blob, q.publish.fetch))
            && (q.SyncCall? ==> (id in s.rows && blob == s.rows[id].blob) || exists inc <- q.stream :: blob == Jsonb(inc.record))
  {
    hide Jsonb, GetIdentifier, IsStored, ModificationDate, Steps, CreateDoc, CreateWellFormed, Decide, Writes, MaybeNewVersionId;
    if q.SyncCall? {
      SyncRowsGoOn(s, q);
      var plans, after := PlansOf(q.env, q.ctx, q.stream), BatchAfter(s.rows, q).rows;
      assert ExplainedAt(plans, Cell(s.rows, id), Cell(after, id), id);
      if id !in s.rows || after[id].blob != s.rows[id].blob { WrittenRecord(q, plans, id, after[id]); }
    }
  }

  lemma WrittenRecord(q: Request, plans: seq<Plan>, id: Id, r: Row)
    requires q.SyncCall? && plans == PlansOf(q.env, q.ctx, q.stream) && exists p <- plans :: BlobFrom(p, id, r)
    ensures exists inc <- q.stream :: r.blob == Jsonb(inc.record)
  {
    hide Jsonb, Decide;
    var i :| 0 <= i < |plans| && BlobFrom(plans[i], id, r);
    PlanCarriesRecord(q.env, q.ctx, q.stream[i]);
    assert q.stream[i] in q.stream;
  }

  // ---------- runs in which no service step writes a row ----------

  ghost predicate Unwritten(s: State, qs: seq<Request>, id: Id) {
    forall k | 0 <= k < |qs| :: !Wrote(RunFrom(s, qs[..k]), qs[k], id)
  }

  lemma UnwrittenPrefix(s: State, qs: seq<Request>, id: Id)
    requires qs != [] && Unwritten(s, qs, id)
    ensures Unwritten(s, qs[..|qs| - 1], id) && !Wrote(RunFrom(s, qs[..|qs| - 1]), qs[|qs| - 1], id)
  {
    hide RunFrom, Wrote;
    var init := qs[..|qs| - 1];
    forall k | 0 <= k < |init| ensures !Wrote(RunFrom(s, init[..k]), init[k], id) {
      assert init[..k] == qs[..k] && init[k] == qs[k];
    }
  }

  /** Outside sync, a step that does not write a locked row leaves all its columns alone. */
  lemma LockedStep(s: State, q: Request, id: Id)
    requires Sound(s) && Plausible(s, q) && !q.SyncCall? && !Wrote(s, q, id) && id in s.rows && id in NextRows(s, q)
    requires s.rows[id].family == METAX_FAMILY && Locked(s.rows[id].blob)
    ensures NextRows(s, q)[id] == s.rows[id]
  {
    hide Jsonb, Lookup, GetIdentifier, Sound, Locked, RunFrom, ModificationDate, MaybeNewVersionId, StoreReply;
    hide CreateDoc, CreateWellFormed, UpdateDoc, UpdatedRow, AmbiguousNames;
    hide UpdateRows, CumulativeStateOk, ReadOnlyKept, IsPas, IsOldVersion;
    if q.UpdateCall? {
      UpdatedRows(s.rows, q.user, q.id, q.update, q.now, q.fault, id);
    }
  }

  /**
   The preservation, PAS and version status of a row change only at a step that
   writes its document, whatever syncs and publications the run holds besides; the
   document of a row locked for preservation does not change before, and in a run
   without a sync none of its columns does.
   */
  lemma {:induction false} StatusNeedsService(s: State, qs: seq<Request>, id: Id)
    requires Sound(s) && PlausibleRun(s, qs) && Unwritten(s, qs, id)
    requires id in s.rows && s.rows[id].family == METAX_FAMILY && id in RunFrom(s, qs).rows
    ensures var before, after := s.rows[id], RunFrom(s, qs).rows[id];
            && (IsPas(after.blob) <==> IsPas(before.blob)) && (IsOldVersion(after.blob) <==> IsOldVersion(before.blob))
            && (Locked(after.blob) <==> Locked(before.blob)) && (Locked(before.blob) ==> after.blob == before.blob)
            && (Locked(before.blob) && (forall q <- qs :: !q.SyncCall?) ==> after == before)
            && (var state := Whole(Lookup(before.blob, ["preservation_state"]));
                80 <= state <= 99 || 101 <= state <= 129 || state > 130 ==> after.blob == before.blob)
            && after.family == METAX_FAMILY
    decreases |qs|
  {
    hide NextRows, NewEntries, Wrote, Taken, TemplatesAfter, Careless, Jsonb, RowIsSound, Plausible, Sound;
    hide Locked, IsPas, IsOldVersion, Unwritten, Lookup, Whole;
    BandIsLocked(s.rows[id].blob);
    if qs != [] {
      var init, q := qs[..|qs| - 1], qs[|qs| - 1];
      RunPrefix(s, qs);
      UnwrittenPrefix(s, qs, id);
      RunKeepsSound(s, init);
      var m := RunFrom(s, init);
      UnwrittenRow(m, q, id);
      assert s.rows.Keys <= s.used by { SoundIds(s); }
      HistoryIsKept(s, init);
      assert m.rows.Keys <= m.used by { SoundIds(m); }
      RequestGoesOn(m, q);
      assert q in qs && forall p <- init :: p in qs;
      StatusNeedsService(s, init, id);
      SameBaseSameStatus(m, q, id);
      if !q.SyncCall? && Locked(m.rows[id].blob) { LockedStep(m, q, id); }
    }
  }

  lemma SoundIds(s: State)
    requires Sound(s)
    ensures s.rows.Keys <= s.used
  {
  }

  lemma SameBaseSameStatus(s: State, q: Request, id: Id)
    requires Sound(s) && Plausible(s, q) && id in s.rows && id in NextRows(s, q) && !Wrote(s, q, id)
    requires s.rows[id].family == METAX_FAMILY && NextRows(s, q)[id].family == METAX_FAMILY
    ensures var before, after := s.rows[id].blob, NextRows(s, q)[id].blob;
            && (IsPas(after) <==> IsPas(before)) && (IsOldVersion(after) <==> IsOldVersion(before))
            && (Locked(after) <==> Locked(before)) && (Locked(before) ==> after == before)
  {
    hide NextRows, NewEntries, Wrote, Taken, TemplatesAfter, Careless, Jsonb, Plausible, Lookup;
    hide SameServiceFields, ResearchKept, IsStored, Locked, IsPas, IsOldVersion, GetIdentifier;
    RequestIsSound(s, q, id);
    assert RowIsSound(s.rows[id], s.base[id], NamesOf(s.careless, id));
    SameStatus(s.rows[id].blob, s.base[id]);
    SameStatus(NextRows(s, q)[id].blob, s.base[id]);
  }

  /** So the document of a Metax row never repeats a key, at any depth, and its paths have one reading. */
  lemma NeverRepeatsKeys(qs: seq<Request>, id: Id)
    requires PlausibleRun(Initial(), qs) && id in RunFrom(Initial(), qs).rows
    requires RunFrom(Initial(), qs).rows[id].family == METAX_FAMILY
    ensures var blob := RunFrom(Initial(), qs).rows[id].blob;
            NoRepeats(blob) && forall path :: Lookup(blob, path) == LastLookup(blob, path)
  {
    hide RunFrom, Plausible, Jsonb, NoRepeats, Lookup, LastLookup;
    AlwaysSound(qs);
    var s := RunFrom(Initial(), qs);
    assert RowIsSound(s.rows[id], s.base[id], NamesOf(s.careless, id));
    JsonbHasNoRepeats(s.rows[id].blob);
    forall path ensures Lookup(s.rows[id].blob, path) == LastLookup(s.rows[id].blob, path) {
      OneReading(s.rows[id].blob, path);
    }
  }
}
