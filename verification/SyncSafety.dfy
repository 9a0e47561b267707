/**
 What a sync may and may not touch.  The index lists only the user's own Metax rows,
 so the test against the recorded sync protects only those.
 */
module SyncSafety {
  import opened Options
  import opened Json
  import opened Datasets
  import opened Records
  import opened Store
  import opened Sync
  import opened SyncReadings
  import opened SyncMerge
  import opened SyncTwice
  import opened SyncWithoutIndex

  /** A live record that is taken to be the row. */
  predicate Names(ctx: Context, rec: Record, id: Id) {
    Good(rec) && !Removed(rec) && Resolve(ctx, rec) == Some(id)
  }

  /** The words of these theorems, told from the members of the record. */
  lemma WordsMean(ctx: Context, rec: Record, id: Id)
    ensures var removed := rec.Obj? && LastMember(rec.members, "removed") == Some(Bool(true));
            && (Names(ctx, rec, id) <==> Good(rec) && !removed && Denotes(ctx, rec, id))
            && (WritesTo(rec, id) <==> Good(rec) && !removed && LinkedTo(rec, id))
            && (MakesRow(rec) <==> Good(rec) && !removed && !HasLink(rec))
    ensures Good(rec) <==>
              WellTyped(rec) && (exists schema :: SchemaOf(CatalogOf(rec), schema)) && (HasLink(rec) ==> exists other: Id :: LinkedTo(rec, other))
  {
    hide ToQvain, Denotes, HasLink, LinkedTo, LastMember, SchemaOf, WellTyped, Target;
    ConvertsIff(rec, 0);
    if Good(rec) {
      ConvertedReads(rec, 0);
      TargetIsDenoted(ctx, rec, 0, id);
    }
  }

  /** The record is dated, and the row was synced at that date or later. */
  predicate NotNewer(rec: Record, r: Row) {
    ModificationDate(rec) != 0 && ModificationDate(rec) <= SyncTime(r)
  }

  /**
   A live record overwrites the row it names if and only if it is not dated at or
   before the row's recorded sync, or the row is none of the user's Metax rows, which
   only a linked record can name.  Otherwise it only refreshes the row.
   */
  lemma OverwritesIff(env: Env, ctx: Context, rows: Rows, inc: Incoming, id: Id)
    requires Describes(ctx, rows, env.uid) && id in rows && Names(ctx, inc.record, id)
    ensures Decide(env, ctx, inc) == Overwrite(id, inc.record)
       <==> !NotNewer(inc.record, rows[id]) || !IsOwned(rows, env.uid, id)
    ensures Decide(env, ctx, inc) == Overwrite(id, inc.record) || Decide(env, ctx, inc) == Refresh(id)
    ensures !IsOwned(rows, env.uid, id) ==> Linked(inc.record)
  {
    hide Decide, Convert, GetIdentifier, ModificationDate;
    DecideIs(env, ctx, inc);
    TimeIsOwned(ctx, rows, env.uid, id);
    DateNotNegative(inc.record);
    if !Linked(inc.record) { NamedIsOwned(ctx, rows, env.uid, inc.record, id); }
  }

  lemma NamedIsOwned(ctx: Context, rows: Rows, uid: Id, rec: Record, id: Id)
    requires Describes(ctx, rows, uid) && Names(ctx, rec, id) && !Linked(rec)
    ensures IsOwned(rows, uid, id)
  {
    hide ToQvain, GetIdentifier;
    ConvertAnyTime(rec, 0);
  }

  /** A record that may overwrite the document of the row. */
  predicate MayOverwrite(ctx: Context, rows: Rows, uid: Id, rec: Record, id: Id)
    requires id in rows
  {
    && Names(ctx, rec, id)
    && (IsOwned(rows, uid, id) ==> !NotNewer(rec, rows[id]))
    && (!IsOwned(rows, uid, id) ==> Linked(rec))
  }

  lemma OverwriteIsAllowed(env: Env, ctx: Context, rows: Rows, inc: Incoming, id: Id, blob: Json)
    requires Describes(ctx, rows, env.uid) && id in rows && Decide(env, ctx, inc) == Overwrite(id, blob)
    ensures blob == inc.record && MayOverwrite(ctx, rows, env.uid, inc.record, id)
  {
    hide Decide, Convert, GetIdentifier, ModificationDate, NotNewer, Linked;
    DecideIs(env, ctx, inc);
    OverwritesIff(env, ctx, rows, inc, id);
  }

  /**
   Sync safety, for any stream and any faults: a row disappears only if a removed
   record resolves to it and it was one of the user's Metax rows, synced before; the
   document of such a row is overwritten only by a record that names it and is
   undated or newer than its recorded sync, and the document of any other row only by
   a record that is linked to it; origin columns and the published flag never change;
   and new rows belong to the user, are published, and are Metax rows.
   */
  lemma SyncIsSafe(env: Env, ctx: Context, rows: Rows, stream: seq<Incoming>)
    requires Describes(ctx, rows, env.uid) && NewIdsUnused(PlansOf(env, ctx, stream), rows)
    ensures var after := Steps(env, ctx, Batch(rows, false), stream).rows;
            && (forall id <- rows :: id !in after ==> exists inc <- stream :: RemovalFor(ctx, rows, env.uid, inc, id))
            && (forall id <- rows :: id in after ==> SameOrigin(rows[id], after[id]))
            && (forall id <- rows :: id in after && after[id].blob != rows[id].blob ==>
                  exists inc <- stream :: MayOverwrite(ctx, rows, env.uid, inc.record, id) && after[id].blob == Jsonb(inc.record))
            && (forall id <- after :: id !in rows ==>
                  after[id].owner == after[id].creator == env.uid && after[id].published && after[id].family == METAX_FAMILY)
  {
    hide Decide, Execute, Jsonb, ToQvain, ModificationDate, GetIdentifier, Steps, MayOverwrite;
    var plans := PlansOf(env, ctx, stream);
    var after := Steps(env, ctx, Batch(rows, false), stream).rows;
    BatchIsExplained(env, ctx, rows, stream);
    forall id | id in rows && id !in after ensures exists inc <- stream :: RemovalFor(ctx, rows, env.uid, inc, id) {
      assert ExplainedAt(plans, Cell(rows, id), Cell(after, id), id);
      var i :| 0 <= i < |stream| && plans[i] == Remove(id);
      RemoveMeans(env, ctx, rows, stream[i], id);
      assert stream[i] in stream;
    }
    forall id | id in rows && id in after ensures SameOrigin(rows[id], after[id]) {
      assert ExplainedAt(plans, Cell(rows, id), Cell(after, id), id);
    }
    forall id | id in rows && id in after && after[id].blob != rows[id].blob
      ensures exists inc <- stream :: MayOverwrite(ctx, rows, env.uid, inc.record, id) && after[id].blob == Jsonb(inc.record)
    {
      assert ExplainedAt(plans, Cell(rows, id), Cell(after, id), id);
      var i :| 0 <= i < |stream| && plans[i].Overwrite? && plans[i].id == id && after[id].blob == Jsonb(plans[i].blob);
      OverwriteIsAllowed(env, ctx, rows, stream[i], id, plans[i].blob);
      assert stream[i] in stream;
    }
    forall id | id in after && id !in rows
      ensures after[id].owner == after[id].creator == env.uid && after[id].published && after[id].family == METAX_FAMILY
    {
      assert ExplainedAt(plans, Cell(rows, id), Cell(after, id), id);
      var i :| 0 <= i < |stream| && plans[i].Insert? && plans[i].id == id && SameOrigin(plans[i].row, after[id]);
      InsertMeans(env, ctx, stream[i], id, plans[i].row);
    }
  }

  /**
   Without an index nothing is protected by its recorded sync and nothing is removed:
   for any stream and any faults every row stays with its origin, and its document is
   overwritten only by a live record that is linked to it, whatever the dates.
   */
  lemma SafeWithoutIndex(env: Env, rows: Rows, stream: seq<Incoming>)
    requires NewIdsUnused(PlansOf(env, NO_CONTEXT, stream), rows)
    ensures var after := Steps(env, NO_CONTEXT, Batch(rows, false), stream).rows;
            forall id <- rows :: id in after && SameOrigin(rows[id], after[id])
              && (after[id].blob != rows[id].blob ==>
                    exists inc <- stream :: WritesTo(inc.record, id) && after[id].blob == Jsonb(inc.record))
  {
    hide Decide, Execute, Jsonb, Steps, WritesTo;
    var plans := PlansOf(env, NO_CONTEXT, stream);
    var after := Steps(env, NO_CONTEXT, Batch(rows, false), stream).rows;
    BatchIsExplained(env, NO_CONTEXT, rows, stream);
    forall id | id in rows
      ensures id in after && SameOrigin(rows[id], after[id])
      ensures after[id].blob != rows[id].blob ==> exists inc <- stream :: WritesTo(inc.record, id) && after[id].blob == Jsonb(inc.record)
    {
      forall i | 0 <= i < |stream| ensures plans[i] != Remove(id) { PlanWithoutIndex(env, stream[i]); }
      assert ExplainedAt(plans, Cell(rows, id), Cell(after, id), id);
      if after[id].blob != rows[id].blob {
        var i :| 0 <= i < |stream| && plans[i].Overwrite? && plans[i].id == id && after[id].blob == Jsonb(plans[i].blob);
        PlanWithoutIndex(env, stream[i]);
        assert stream[i] in stream;
      }
    }
  }

  // ---------- an older document over another user's row ----------

  /** The batch of one live record that is linked to somebody else's row, synced since. */
  lemma OlderOverwritesForeign(env: Env, list: seq<Id>, rows: Rows, inc: Incoming, id: Id)
    requires ListsOwned(list, rows, env.uid) && id in rows && rows[id].owner != env.uid && !inc.fault
    requires WritesTo(inc.record, id) && NotNewer(inc.record, rows[id])
    ensures Step(env, BuildContext(rows, list), Batch(rows, false), inc)
         == Batch(rows[id := OverwrittenRow(rows[id], env.now, inc.record)], false)
  {
    hide Decide, Convert, GetIdentifier, ModificationDate, BuildContext, Jsonb, NotNewer;
    ContextDescribes(rows, list, env.uid);
    OverwritesIff(env, BuildContext(rows, list), rows, inc, id);
  }
}
