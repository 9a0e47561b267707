/**
 What a sync does with one record, told from the members of the record, the index
 and the clocks.
 */
module SyncReadings {
  import opened Options
  import opened Json
  import opened Calendar
  import opened TimeFilters
  import opened Datasets
  import opened Records
  import opened Store
  import opened Sync

  /** The row a record stands for: the one it is linked to, or else the one indexed under its identifier. */
  predicate Denotes(ctx: Context, raw: Json, id: Id) {
    || LinkedTo(raw, id)
    || (!HasLink(raw) && var s := Text(Lookup(raw, ["identifier"])); s != "" && s in ctx.index && ctx.index[s] == id)
  }

  predicate SyncedBefore(ctx: Context, id: Id) { id in ctx.times && ctx.times[id] != 0 }

  /** Not after the recorded sync of the row, the zero time if there is none. */
  predicate BySync(ctx: Context, id: Id, date: Instant) { date <= if id in ctx.times then ctx.times[id] else 0 }

  lemma TargetIsDenoted(ctx: Context, raw: Json, now: Instant, id: Id)
    requires HasCatalog(raw) && ToQvain(raw, now).Ok?
    ensures Target(ctx, ToQvain(raw, now).value) == Some(id) <==> Denotes(ctx, raw, id)
  {
    hide ToQvain, HasLink, Lookup, LastMember;
    ConvertedReads(raw, now);
    LinkOrNot(raw, id);
  }

  lemma LinkOrNot(raw: Json, id: Id)
    ensures LinkedTo(raw, id) ==> HasLink(raw)
  {
    hide ParseUuid, LastText, LastObject;
  }

  /**
   A record that stands for a row: if its last `removed` member is true the row is
   removed, provided it was synced before; otherwise the row is overwritten with the
   record, unless the record is dated and its date not after the recorded sync.
   */
  lemma DenotedPlan(env: Env, ctx: Context, inc: Incoming, id: Id)
    requires ToQvain(inc.record, inc.clock).Ok? && Denotes(ctx, inc.record, id)
    ensures var removed := inc.record.Obj? && LastMember(inc.record.members, "removed") == Some(Bool(true));
            var date := ModificationDate(inc.record);
            && (Decide(env, ctx, inc) == Remove(id) <==> removed && SyncedBefore(ctx, id))
            && (Decide(env, ctx, inc) == Nothing(Skipped) <==> removed && !SyncedBefore(ctx, id))
            && (Decide(env, ctx, inc) == Refresh(id) <==> !removed && date != 0 && BySync(ctx, id, date))
            && (Decide(env, ctx, inc) == Overwrite(id, inc.record) <==> !removed && (date == 0 || !BySync(ctx, id, date)))
  {
    hide ToQvain, Target, Denotes, ModificationDate, LastMember, ImportedRow;
    ConvertedReads(inc.record, inc.clock);
    TargetIsDenoted(ctx, inc.record, inc.clock, id);
  }

  /**
   A record that stands for no row: unless it is removed it becomes a new row of the
   user, with every column as given here.
   */
  lemma StrangerPlan(env: Env, ctx: Context, inc: Incoming)
    requires ToQvain(inc.record, inc.clock).Ok? && forall id :: !Denotes(ctx, inc.record, id)
    ensures var removed := inc.record.Obj? && LastMember(inc.record.members, "removed") == Some(Bool(true));
            var plan, created := Decide(env, ctx, inc), LastText(inc.record, "date_created");
            && (removed ==> plan == if SyncedBefore(ctx, ZERO_ID) then Remove(ZERO_ID) else Nothing(Skipped))
            && (!removed && inc.newId.None? ==> plan == Nothing(Failed))
            && (!removed && inc.newId.Some? ==>
                  && plan.Insert? && plan.id == inc.newId.value
                  && plan.row == Row(env.uid, env.uid, if created.Some? then ParseRfc3339(created.value) else inc.clock, env.now, Some(env.at), 0,
                                     true, true, 2, plan.row.schema, Jsonb(inc.record))
                  && SchemaOf(CatalogOf(inc.record), plan.row.schema))
  {
    hide ToQvain, Target, Denotes, ModificationDate, LastMember, ParseRfc3339, Jsonb, SchemaOf, LastText;
    ConvertedReads(inc.record, inc.clock);
    NewHasNoLink(inc.record, inc.clock);
    if Target(ctx, ToQvain(inc.record, inc.clock).value).Some? {
      TargetIsDenoted(ctx, inc.record, inc.clock, Target(ctx, ToQvain(inc.record, inc.clock).value).value);
    }
    if !ToQvain(inc.record, inc.clock).value.isNew { LinkedIsDenoted(ctx, inc.record, inc.clock); }
  }

  lemma NewHasNoLink(raw: Json, now: Instant)
    requires HasCatalog(raw) && ToQvain(raw, now).Ok?
    ensures ToQvain(raw, now).value.isNew ==> !HasLink(raw)
  {
    hide ToQvain, HasLink;
    ConvertedReads(raw, now);
  }

  lemma LinkedIsDenoted(ctx: Context, raw: Json, now: Instant)
    requires HasCatalog(raw) && ToQvain(raw, now).Ok? && !ToQvain(raw, now).value.isNew
    ensures Denotes(ctx, raw, ToQvain(raw, now).value.id)
  {
    hide ToQvain, HasLink, LinkedTo;
    ConvertedReads(raw, now);
  }

  // ---------- what the outcome of a record says of the table ----------

  /** Every row is as before, except that its sync time and counter may have moved. */
  predicate SameDocuments(before: Rows, after: Rows) {
    after.Keys == before.Keys
    && forall id <- before :: after[id] == before[id].(synced := after[id].synced, revision := after[id].revision)
  }

  /**
   A record that was written is the document of a row; one that was deleted said so and
   took exactly one row with it; one that was skipped or failed leaves every document.
   */
  lemma StatusTells(env: Env, ctx: Context, b: Batch, inc: Incoming)
    ensures var after, status := Step(env, ctx, b, inc).rows, StepStatus(env, ctx, b, inc);
            && (status == Written ==> exists id :: id in after && after == b.rows[id := after[id]] && after[id].blob == Jsonb(inc.record))
            && (status == Deleted ==> exists id :: id in b.rows && after == b.rows - {id})
            && (status == Skipped ==> SameDocuments(b.rows, after))
            && (status == Failed ==> after == b.rows)
  {
    hide Decide, Jsonb;
    var plan := Decide(env, ctx, inc);
    PlanCarriesRecord(env, ctx, inc);
    PlanTells(env, b, plan, inc.fault, Jsonb(inc.record));
  }

  lemma PlanCarriesRecord(env: Env, ctx: Context, inc: Incoming)
    ensures var plan := Decide(env, ctx, inc);
            && (plan.Insert? ==> plan.row.blob == Jsonb(inc.record)) && (plan.Overwrite? ==> plan.blob == inc.record)
            && (plan.Nothing? ==> plan.status == Skipped || plan.status == Failed)
  {
    hide ToQvain, Target, ModificationDate, Jsonb;
    if ToQvain(inc.record, inc.clock).Ok? { ConvertedReads(inc.record, inc.clock); }
  }

  lemma PlanTells(env: Env, b: Batch, plan: Plan, fault: bool, stored: Json)
    requires (plan.Insert? ==> plan.row.blob == stored) && (plan.Overwrite? ==> Jsonb(plan.blob) == stored)
    requires plan.Nothing? ==> plan.status == Skipped || plan.status == Failed
    ensures var (after, status) := Outcome(env, b, plan, fault);
            && (status == Written ==> exists id :: id in after.rows && after.rows == b.rows[id := after.rows[id]] && after.rows[id].blob == stored)
            && (status == Deleted ==> exists id :: id in b.rows && after.rows == b.rows - {id})
            && (status == Skipped ==> SameDocuments(b.rows, after.rows))
            && (status == Failed ==> after.rows == b.rows)
  {
    hide Jsonb;
    var (after, status) := Outcome(env, b, plan, fault);
    if status == Written {
      assert after.rows == b.rows[plan.id := after.rows[plan.id]];
    }
  }
}
