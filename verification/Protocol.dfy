/** The order of what is told to Metax and what is done to the table. */
module Protocol {
  import opened Options
  import opened Json
  import opened Calendar
  import opened Datasets
  import opened Updates
  import opened Store
  import opened Sync
  import opened SyncMerge
  import opened SyncTwice
  import opened Handlers
  import opened Publishing
  import opened Publications
  import opened Service
  import opened Safety

  // ---------- a publication and the next sync ----------

  /** The table after a publication, with the sync time of the row as the column keeps it. */
  predicate PublishedAs(rows: Rows, user: User, id: Id, env: PublishEnv, kept: Instant, after: Rows) {
    var published := PublishRows(rows, user, id, env);
    id in published && after == published[id := published[id].(synced := Some(kept))]
  }

  /**
   A sync that later delivers the very document Metax answered with overwrites the
   published row if and only if the document carries no date, or the column keeps its
   date as an earlier time; otherwise it only refreshes the row.
   */
  lemma SyncAfterPublish(rows: Rows, user: User, id: Id, env: PublishEnv, kept: Instant, after: Rows,
                         batch: Env, ctx: Context, inc: Incoming)
    requires Loads(rows, user, id, env) && Marks(env) && rows[id].family == METAX_FAMILY && batch.uid == user.uid
    requires PublishedAs(rows, user, id, env, kept, after) && Describes(ctx, after, user.uid)
    requires inc.record == StoredDoc(env) && Good(inc.record) && !Removed(inc.record) && Resolve(ctx, inc.record) == Some(id)
    ensures var date := ModificationDate(StoredDoc(env));
            Decide(batch, ctx, inc) == if date == 0 || kept < date then Overwrite(id, inc.record) else Refresh(id)
    ensures PublishRows(rows, user, id, env)[id].synced == Some(SyncedAt(StoredDoc(env), env.storeClock))
  {
    hide Jsonb, GetIdentifier, ModificationDate, MaybeNewVersionId, StoreReply, FetchReply, Decide, Convert, Describes;
    DecideIs(batch, ctx, inc);
    TimeIsOwned(ctx, after, user.uid, id);
  }

  // ---------- runs ----------

  function Subject(e: Entry): Option<Id> {
    match e
    case Fetch(_, _) => None
    case AddedVersion(_, row) => Some(row)
    case _ => Some(e.row)
  }

  /** The entry says that the row is published. */
  predicate Announces(e: Entry, id: Id) {
    e == MarkedPublished(id) || (e.AddedVersion? && e.row == id)
  }

  /** What must have gone before an entry. */
  predicate InPlace(before: seq<Entry>, e: Entry) {
    var n := |before|;
    && (e.MarkedPublished? ==> n >= 1 && AcceptedStore(before[n - 1], e.row))
    && (e.AddedVersion? ==> n >= 2 && before[n - 2] == MarkedPublished(e.base) && before[n - 1].Fetch? && before[n - 1].found)
    && (e.Dropped? && e.published ==> n >= 1 && before[n - 1].Unpublish? && before[n - 1].row == e.row && before[n - 1].accepted)
    && (e.Unpublish? && e.family == METAX_FAMILY ==> e.identifier != "")
    && (e.Post? && e.family == METAX_FAMILY ==> forall b <- before :: !Announces(b, e.row))
    && (forall b <- before :: b.Dropped? ==> Subject(e) != Some(b.row))
  }

  predicate InOrder(journal: seq<Entry>) { forall i | 0 <= i < |journal| :: InPlace(journal[..i], journal[i]) }

  /** The journal and the table agree on who is published and who is gone. */
  ghost predicate Agrees(s: State) {
    forall e, id | e in s.journal && Subject(e) == Some(id) ::
      && id in s.used
      && (e.Dropped? ==> id !in s.rows)
      && (id in s.rows && Announces(e, id) ==> s.rows[id].published)
  }

  lemma AppendInOrder(journal: seq<Entry>, e: Entry)
    requires InOrder(journal) && InPlace(journal, e)
    ensures InOrder(journal + [e])
  {
    hide InPlace;
    var all := journal + [e];
    forall i | 0 <= i < |all| ensures InPlace(all[..i], all[i]) {
      assert all[..i] == if i < |journal| then journal[..i] else journal;
    }
  }

  /** A row that is here was not dropped, and one without an identifier was not published. */
  lemma LivingRow(s: State, id: Id)
    requires Sound(s) && Agrees(s) && id in s.rows
    ensures forall e <- s.journal :: e.Dropped? ==> e.row != id
    ensures s.rows[id].family == METAX_FAMILY && GetIdentifier(s.rows[id].blob) == "" ==>
              !s.rows[id].published && forall e <- s.journal :: !Announces(e, id)
  {
    hide GetIdentifier, Kept, ResearchKept, IsStored;
    assert RowIsSound(s.rows[id], s.base[id], NamesOf(s.careless, id));
    forall e | e in s.journal && Announces(e, id) ensures s.rows[id].published {
      assert Subject(e) == Some(id);
    }
    forall e | e in s.journal && e.Dropped? ensures e.row != id {
      assert Subject(e) == Some(e.row);
    }
  }

  /** What a publication writes into the journal, at most four entries. */
  predicate IsPublication(more: seq<Entry>, id: Id) {
    && |more| <= 4
    && (|more| > 0 ==> (more[0].Post? || more[0].Put?) && more[0].row == id)
    && (|more| > 1 ==> more[0].accepted && more[1] == MarkedPublished(id))
    && (|more| > 2 ==> more[2].Fetch?)
    && (|more| > 3 ==> more[2].found && more[3].AddedVersion? && more[3].base == id)
  }

  lemma PublishShape(s: State, q: Request)
    requires q.PublishCall? && Sound(s) && Agrees(s) && Plausible(s, q) && NewEntries(s, q) != []
    ensures IsPublication(NewEntries(s, q), q.id) && q.id in s.rows
    ensures NewEntries(s, q)[0].Post? ==> NewEntries(s, q)[0].family == s.rows[q.id].family && GetIdentifier(s.rows[q.id].blob) == ""
    ensures |NewEntries(s, q)| > 3 ==> NewEntries(s, q)[3].row !in s.used && NewEntries(s, q)[3].row != q.id
  {
    hide Jsonb, GetIdentifier, ModificationDate, MaybeNewVersionId, StoreReply, FetchReply, Sound, Agrees, StoreCall;
    StoreGoesToIdentifier(q.id, s.rows[q.id], q.user, StoreReply(q.publish.store).Some?);
  }

  lemma {:induction false} PublicationInOrder(journal: seq<Entry>, more: seq<Entry>, id: Id, k: nat)
    requires InOrder(journal) && IsPublication(more, id) && k <= |more|
    requires forall e <- journal :: e.Dropped? ==> e.row != id
    requires |more| > 0 && more[0].Post? && more[0].family == METAX_FAMILY ==> forall e <- journal :: !Announces(e, id)
    requires |more| > 3 ==> forall e <- journal :: e.Dropped? ==> e.row != more[3].row
    ensures InOrder(journal + more[..k])
  {
    hide InOrder;
    if k == 0 {
      assert journal + more[..0] == journal;
    } else {
      PublicationInOrder(journal, more, id, k - 1);
      var before := journal + more[..k - 1];
      assert journal + more[..k] == before + [more[k - 1]];
      PublicationInPlace(journal, more, id, k - 1);
      AppendInOrder(before, more[k - 1]);
    }
  }

  lemma PublicationInPlace(journal: seq<Entry>, more: seq<Entry>, id: Id, k: nat)
    requires IsPublication(more, id) && k < |more|
    requires forall e <- journal :: e.Dropped? ==> e.row != id
    requires more[0].Post? && more[0].family == METAX_FAMILY ==> forall e <- journal :: !Announces(e, id)
    requires k == 3 ==> forall e <- journal :: e.Dropped? ==> e.row != more[3].row
    ensures InPlace(journal + more[..k], more[k])
  {
    var before, n := journal + more[..k], |journal|;
    assert forall b <- before :: b in journal || b in more[..k];
    assert forall b <- more[..k] :: !b.Dropped?;
    if k > 0 { assert before[n + k - 1] == more[k - 1]; }
    if k > 1 { assert before[n + k - 2] == more[k - 2]; }
  }

  lemma PublishInOrder(s: State, q: Request)
    requires Sound(s) && Agrees(s) && Plausible(s, q) && q.PublishCall? && InOrder(s.journal)
    ensures InOrder(s.journal + NewEntries(s, q))
  {
    hide Jsonb, GetIdentifier, Sound, Agrees, Plausible, NewEntries, InOrder;
    var more := NewEntries(s, q);
    if more == [] {
      assert s.journal + more == s.journal;
    } else {
      PublishShape(s, q);
      LivingRow(s, q.id);
      if |more| > 3 { NewSubject(s, more[3].row); }
      PublicationInOrder(s.journal, more, q.id, |more|);
      assert more[..|more|] == more;
    }
  }

  lemma NewSubject(s: State, id: Id)
    requires Agrees(s) && id !in s.used
    ensures forall e <- s.journal :: Subject(e) != Some(id)
  {
    forall e | e in s.journal && Subject(e).Some? ensures Subject(e).value in s.used {
    }
  }

  lemma DeleteInOrder(s: State, q: Request)
    requires Sound(s) && Agrees(s) && q.DeleteCall? && InOrder(s.journal)
    ensures InOrder(s.journal + NewEntries(s, q))
  {
    hide GetIdentifier, Sound, Agrees, InOrder;
    var more := NewEntries(s, q);
    if more == [] {
      assert s.journal + more == s.journal;
    } else {
      LivingRow(s, q.id);
      AppendInOrder(s.journal, more[0]);
      if |more| == 1 {
        assert more == [more[0]];
      } else {
        assert s.journal + more == (s.journal + [more[0]]) + [more[1]];
        AppendInOrder(s.journal + [more[0]], more[1]);
      }
    }
  }

  lemma RequestInOrder(s: State, q: Request)
    requires Sound(s) && Agrees(s) && Plausible(s, q) && InOrder(s.journal)
    ensures InOrder(Apply(s, q).journal)
  {
    hide Sound, Agrees, Plausible, InPlace, InOrder, NextRows, Wrote, Taken, TemplatesAfter, Careless;
    hide PublishJournal, DeleteJournal;
    match q
    case PublishCall(_, _, _) => PublishInOrder(s, q);
    case DeleteCall(_, _, _) => DeleteInOrder(s, q);
    case _ => assert s.journal + [] == s.journal;
  }

  lemma NewAgrees(s: State, q: Request, e: Entry, id: Id)
    requires s.rows.Keys <= s.used && Plausible(s, q) && e in NewEntries(s, q) && Subject(e) == Some(id)
    ensures id in s.used + Taken(q)
    ensures e.Dropped? ==> id !in NextRows(s, q)
    ensures id in NextRows(s, q) && Announces(e, id) ==> NextRows(s, q)[id].published
  {
    hide Jsonb, GetIdentifier, ModificationDate, MaybeNewVersionId, StoreReply, FetchReply, StoreCall;
    if q.PublishCall? {
      StoreGoesToIdentifier(q.id, s.rows[q.id], q.user, StoreReply(q.publish.store).Some?);
    }
  }

  lemma RequestAgrees(s: State, q: Request)
    requires Sound(s) && Agrees(s) && Plausible(s, q)
    ensures Agrees(Apply(s, q))
  {
    hide Sound, Plausible, NextRows, Wrote, Taken, TemplatesAfter, Careless, NewEntries, Announces;
    SoundIds(s);
    RequestGoesOn(s, q);
    var t := Apply(s, q);
    forall e, id | e in t.journal && Subject(e) == Some(id)
      ensures id in t.used && (e.Dropped? ==> id !in t.rows) && (id in t.rows && Announces(e, id) ==> t.rows[id].published)
    {
      if e in NewEntries(s, q) {
        NewAgrees(s, q, e, id);
      } else {
        assert e in s.journal && id in s.used && id !in Taken(q);
      }
    }
  }

  /**
   In every run: a row is marked published right after Metax accepted it, a version
   row is added only after its base was marked and the version fetched, a published
   row is dropped right after Metax accepted its removal, a removal always names an
   identifier, a Metax row is never POSTed again once it was published, and a dropped
   row is never mentioned again.
   */
  lemma {:induction false} AlwaysInOrder(qs: seq<Request>)
    requires PlausibleRun(Initial(), qs)
    ensures var s := RunFrom(Initial(), qs); InOrder(s.journal) && Agrees(s)
    decreases |qs|
  {
    hide NextRows, NewEntries, Wrote, Taken, TemplatesAfter, Careless, Plausible, Apply, InPlace, Sound;
    if qs != [] {
      RunPrefix(Initial(), qs);
      AlwaysInOrder(qs[..|qs| - 1]);
      AlwaysSound(qs[..|qs| - 1]);
      RequestInOrder(RunFrom(Initial(), qs[..|qs| - 1]), qs[|qs| - 1]);
      RequestAgrees(RunFrom(Initial(), qs[..|qs| - 1]), qs[|qs| - 1]);
    }
  }

  // ---------- once published, never POSTed again ----------

  lemma PostedIsUnpublished(s: State, q: Request, e: Entry)
    requires Sound(s) && Agrees(s) && Plausible(s, q) && e in NewEntries(s, q) && e.Post?
    ensures e.row in s.rows && (s.rows[e.row].family == METAX_FAMILY ==> !s.rows[e.row].published)
  {
    hide Jsonb, GetIdentifier, Sound, Agrees, PublishJournal, IsPublication;
    if q.PublishCall? {
      PublishShape(s, q);
      OnlyFirstPosts(NewEntries(s, q), q.id, e);
      LivingRow(s, q.id);
    }
  }

  lemma OnlyFirstPosts(more: seq<Entry>, id: Id, e: Entry)
    requires IsPublication(more, id) && e in more && e.Post?
    ensures e == more[0] && e.row == id
  {
  }

  /**
   Whatever follows, a Metax row that is published, by a publication, as a new version
   or by a sync that imported it, is not POSTed again.
   */
  lemma {:induction false} NeverPostedAgain(s: State, qs: seq<Request>, id: Id)
    requires Sound(s) && Agrees(s) && InOrder(s.journal) && PlausibleRun(s, qs)
    requires id in s.rows && s.rows[id].family == METAX_FAMILY && s.rows[id].published
    ensures var t := RunFrom(s, qs);
            && Sound(t) && Agrees(t) && s.journal <= t.journal
            && forall e <- t.journal[|s.journal|..] :: e.Post? ==> e.row != id
    decreases |qs|
  {
    hide NextRows, NewEntries, Wrote, Taken, TemplatesAfter, Careless, Plausible, Sound, Agrees;
    if qs != [] {
      var init, q := qs[..|qs| - 1], qs[|qs| - 1];
      RunPrefix(s, qs);
      NeverPostedAgain(s, init, id);
      var m := RunFrom(s, init);
      SoundIds(s);
      HistoryIsKept(s, init);
      RequestKeepsSound(m, q);
      RequestAgrees(m, q);
      var t := RunFrom(s, qs);
      assert t.journal == m.journal + NewEntries(m, q);
      assert t.journal[|s.journal|..] == m.journal[|s.journal|..] + NewEntries(m, q);
      forall e | e in NewEntries(m, q) && e.Post? ensures e.row != id {
        PostedIsUnpublished(m, q, e);
      }
    }
  }

  // ---------- how a published row can go ----------

  /** Its owner deleted it, after Metax removed the dataset that its document names, or a sync removed it. */
  ghost predicate Leaves(s: State, q: Request, id: Id)
    requires id in s.rows
  {
    match q
    case DeleteCall(user, row, delete) =>
      row == id && s.rows[id].owner == user.uid && delete.response.Reply? && delete.response.status == 204
      && NewEntries(s, q) == [Unpublish(id, s.rows[id].family, GetIdentifier(s.rows[id].blob), true), Dropped(id, true)]
    case SyncCall(env, ctx, stream, _) => exists inc <- stream :: RemovalFor(ctx, s.rows, env.uid, inc, id)
    case _ => false
  }

  lemma NoContextRemovesNothing(env: Env, inc: Incoming)
    ensures !Decide(env, NO_CONTEXT, inc).Remove?
  {
    hide ToQvain, ModificationDate, GetIdentifier;
  }

  lemma DeletedRowLeaves(s: State, q: Request, id: Id)
    requires q.DeleteCall? && id in s.rows && s.rows[id].published && id !in NextRows(s, q)
    ensures Leaves(s, q, id)
  {
    hide GetIdentifier;
  }

  lemma SyncedRowLeaves(s: State, q: Request, id: Id)
    requires q.SyncCall? && s.rows.Keys <= s.used && Plausible(s, q) && id in s.rows && id !in NextRows(s, q)
    ensures Leaves(s, q, id)
  {
    hide Jsonb, GetIdentifier, Steps, Decide, RemovalFor, BuildContext;
    SyncRowsGoOn(s, q);
    var plans := PlansOf(q.env, q.ctx, q.stream);
    assert ExplainedAt(plans, Cell(s.rows, id), Cell(BatchAfter(s.rows, q).rows, id), id);
    var i :| 0 <= i < |q.stream| && plans[i] == Remove(id);
    if q.ctx == NO_CONTEXT {
      NoContextRemovesNothing(q.env, q.stream[i]);
    } else {
      var list :| ListsOwned(list, s.rows, q.env.uid) && q.ctx == BuildContext(s.rows, list);
      ContextDescribes(s.rows, list, q.env.uid);
      RemoveMeans(q.env, q.ctx, s.rows, q.stream[i], id);
      assert q.stream[i] in q.stream;
    }
  }

  lemma RowLeaves(s: State, q: Request, id: Id)
    requires s.rows.Keys <= s.used && Plausible(s, q)
    requires id in s.rows && s.rows[id].published && id !in NextRows(s, q)
    ensures Leaves(s, q, id)
  {
    hide Jsonb, GetIdentifier, ModificationDate, Steps, StoreReply, FetchReply, Loads, Plausible, Leaves;
    hide CreateDoc, CreateWellFormed, UpdateAccepted;
    match q
    case SyncCall(_, _, _, _) => SyncedRowLeaves(s, q, id);
    case DeleteCall(_, _, _) => DeletedRowLeaves(s, q, id);
    case _ =>
  }

  ghost predicate LeftAt(s: State, qs: seq<Request>, id: Id, k: nat) {
    k < |qs| && id in RunFrom(s, qs[..k]).rows && Leaves(RunFrom(s, qs[..k]), qs[k], id)
  }

  lemma LeftEarlier(s: State, qs: seq<Request>, id: Id, k: nat)
    requires qs != [] && LeftAt(s, qs[..|qs| - 1], id, k)
    ensures LeftAt(s, qs, id, k)
  {
    hide RunFrom, Leaves;
    assert qs[..|qs| - 1][..k] == qs[..k];
  }

  lemma RunUnfolds(s: State, qs: seq<Request>)
    requires qs != []
    ensures RunFrom(s, qs).rows == NextRows(RunFrom(s, qs[..|qs| - 1]), qs[|qs| - 1])
  {
    hide NextRows, NewEntries, Wrote, Taken, TemplatesAfter, Careless;
  }

  /** A published row that is gone at the end of a run went in one of these two ways. */
  lemma {:induction false} PublishedRowsLeaveProperly(s: State, qs: seq<Request>, id: Id)
    requires s.rows.Keys <= s.used && PlausibleRun(s, qs)
    requires id in s.rows && s.rows[id].published && id !in RunFrom(s, qs).rows
    ensures exists k :: LeftAt(s, qs, id, k)
    decreases |qs|
  {
    hide RunFrom, NextRows, Plausible, PlausibleRun, Leaves, LeftAt;
    if qs == [] {
      assert RunFrom(s, qs) == s by { EmptyRun(s); }
    } else {
      var init, q := qs[..|qs| - 1], qs[|qs| - 1];
      RunPrefix(s, qs);
      RunUnfolds(s, qs);
      HistoryIsKept(s, init);
      if id in RunFrom(s, init).rows {
        RowLeaves(RunFrom(s, init), q, id);
        assert LeftAt(s, qs, id, |init|) by { LeftNow(s, qs, id); }
      } else {
        PublishedRowsLeaveProperly(s, init, id);
        var k :| LeftAt(s, init, id, k);
        LeftEarlier(s, qs, id, k);
      }
    }
  }

  lemma EmptyRun(s: State)
    ensures RunFrom(s, []) == s
  {
  }

  lemma LeftNow(s: State, qs: seq<Request>, id: Id)
    requires qs != [] && id in RunFrom(s, qs[..|qs| - 1]).rows && Leaves(RunFrom(s, qs[..|qs| - 1]), qs[|qs| - 1], id)
    ensures LeftAt(s, qs, id, |qs| - 1)
  {
    hide RunFrom, Leaves;
  }
}
