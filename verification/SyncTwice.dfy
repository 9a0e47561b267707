/**
 Syncing the same stream twice, and what a batch does to the uniqueness of
 identifiers among a user's rows.
 */
module SyncTwice {
  import opened Options
  import opened Json
  import opened Calendar
  import opened Datasets
  import opened Store
  import opened Sync
  import opened SyncMerge

  // ---------- records, without clocks ----------

  function Convert(rec: Record): Result<Dataset, RecordError> { ToQvain(rec, 0) }

  predicate Good(rec: Record) { Convert(rec).Ok? }

  predicate Removed(rec: Record)
    requires Good(rec)
  {
    Convert(rec).value.removed
  }

  predicate Linked(rec: Record)
    requires Good(rec)
  {
    !Convert(rec).value.isNew
  }

  function Resolve(ctx: Context, rec: Record): Option<Id>
    requires Good(rec)
  {
    Target(ctx, Convert(rec).value)
  }

  lemma ConvertAnyTime(rec: Record, clock: Instant)
    ensures var q, c := ToQvain(rec, clock), Convert(rec);
            && (q.Ok? <==> c.Ok?)
            && (q.Ok? ==> q.value.(created := 0) == c.value.(created := 0) && q.value.blob == rec)
  {
    hide Datasets.Record, HasCatalog, RecordTyped, QvainId, CatalogSchema;
  }

  /** The plan of a record, read off its resolution. */
  lemma DecideIs(env: Env, ctx: Context, inc: Incoming)
    ensures !Good(inc.record) ==> Decide(env, ctx, inc) == Nothing(Failed)
    ensures Good(inc.record) ==>
              var target := Resolve(ctx, inc.record);
              var id := if target.Some? then target.value else ZERO_ID;
              var plan := Decide(env, ctx, inc);
              if Removed(inc.record) then plan == if TimeOf(ctx, id) == 0 then Nothing(Skipped) else Remove(id)
              else if target.Some? then plan == PlanExisting(id, TimeOf(ctx, id), inc.record)
              else if inc.newId.None? then plan == Nothing(Failed)
              else plan.Insert? && plan.id == inc.newId.value
                   && plan.row.owner == env.uid && plan.row.family == METAX_FAMILY && plan.row.blob == Jsonb(inc.record)
  {
    hide ToQvain, ModificationDate, GetIdentifier, Jsonb, PlanExisting;
    ConvertAnyTime(inc.record, inc.clock);
  }

  // ---------- the first sync ----------

  /** No two of the user's Metax rows carry the same identifier. */
  ghost predicate UniqueIdentifiers(rows: Rows, uid: Id) {
    forall a, b | IsOwned(rows, uid, a) && IsOwned(rows, uid, b) ::
      GetIdentifier(rows[a].blob) != "" && GetIdentifier(rows[a].blob) == GetIdentifier(rows[b].blob) ==> a == b
  }

  /** One batch: its clocks, its index, the table before, the stream, and the table after. */
  datatype First = First(env: Env, ctx: Context, rows: Rows, stream: seq<Incoming>, after: Rows) {
    function Plan(i: nat): Plan
      requires i < |stream|
    {
      Decide(env, ctx, stream[i])
    }
  }

  /** The identifier of a record survives storing it. */
  predicate IdentifierStored(rec: Record) { GetIdentifier(Jsonb(rec)) == GetIdentifier(rec) }

  /** Stream records have distinct non-empty identifiers. */
  predicate DistinctIdentifiers(stream: seq<Incoming>) {
    && (forall inc <- stream :: Good(inc.record) ==> GetIdentifier(inc.record) != "" && IdentifierStored(inc.record))
    && (forall i, j :: 0 <= i < j < |stream| && Good(stream[i].record) && Good(stream[j].record) ==>
          GetIdentifier(stream[i].record) != GetIdentifier(stream[j].record))
  }

  /** Records resolve to distinct rows. */
  predicate DistinctRows(ctx: Context, stream: seq<Incoming>) {
    forall i, j | 0 <= i < j < |stream| && Good(stream[i].record) && Good(stream[j].record) ::
      Resolve(ctx, stream[i].record).Some? ==> Resolve(ctx, stream[i].record) != Resolve(ctx, stream[j].record)
  }

  /** Generated ids are new: not in the table, not repeated, not linked to by a record, not the zero id. */
  predicate NewIds(ctx: Context, rows: Rows, stream: seq<Incoming>) {
    && ZERO_ID !in rows
    && (forall inc <- stream :: inc.newId.Some? && inc.newId.value !in rows && inc.newId.value != ZERO_ID)
    && (forall i, j :: 0 <= i < j < |stream| ==> stream[i].newId != stream[j].newId)
    && (forall i, j :: 0 <= i < |stream| && 0 <= j < |stream| && Good(stream[j].record) ==>
          stream[i].newId != Resolve(ctx, stream[j].record))
  }

  /** A batch in which nothing fails, on a table and a stream with unique identifiers. */
  ghost predicate Settled(f: First) {
    && Describes(f.ctx, f.rows, f.env.uid) && UniqueIdentifiers(f.rows, f.env.uid)
    && NoFaults(f.stream) && DistinctIdentifiers(f.stream) && NewIds(f.ctx, f.rows, f.stream)
    && f.after == Steps(f.env, f.ctx, Batch(f.rows, false), f.stream).rows
  }

  ghost predicate Orderly(f: First) { Settled(f) && DistinctRows(f.ctx, f.stream) }

  /** The clock of the batch is not behind the recorded sync times. */
  predicate ClockCurrent(f: First) {
    forall id <- f.ctx.times :: f.ctx.times[id] <= f.env.now
  }

  /** The row a record ends up in. */
  ghost predicate LandsIn(f: First, i: nat, id: Id)
    requires i < |f.stream|
  {
    Good(f.stream[i].record) &&
    var target := Resolve(f.ctx, f.stream[i].record);
    target == Some(id) || (target == None && f.stream[i].newId == Some(id))
  }

  lemma TimeIsOwned(ctx: Context, rows: Rows, uid: Id, id: Id)
    requires Describes(ctx, rows, uid)
    ensures TimeOf(ctx, id) == if IsOwned(rows, uid, id) then SyncTime(rows[id]) else 0
  {
    hide GetIdentifier;
  }

  /** A plan touches only the row its record lands in. */
  lemma PlanLands(f: First, i: nat, id: Id)
    requires Orderly(f) && i < |f.stream| && Hits(f.Plan(i), id)
    ensures LandsIn(f, i, id)
    ensures f.Plan(i).Insert? <==> Resolve(f.ctx, f.stream[i].record) == None
    ensures f.Plan(i).Remove? <==> Removed(f.stream[i].record)
  {
    hide Decide, Convert, ModificationDate, GetIdentifier, Jsonb, Steps, NoFaults, DistinctIdentifiers;
    hide UniqueIdentifiers;
    DecideIs(f.env, f.ctx, f.stream[i]);
    TimeIsOwned(f.ctx, f.rows, f.env.uid, ZERO_ID);
  }

  /** Different records land in different rows. */
  lemma LandApart(f: First, i: nat, j: nat, id: Id)
    requires Orderly(f) && i < |f.stream| && j < |f.stream| && LandsIn(f, i, id) && LandsIn(f, j, id)
    ensures i == j
  {
    hide Convert, GetIdentifier, Jsonb, Steps, NoFaults, DistinctIdentifiers, UniqueIdentifiers, Describes, Resolve;
  }

  lemma OrderlyMerges(f: First)
    requires Orderly(f)
    ensures IsMerge(f.env, f.rows, PlansOf(f.env, f.ctx, f.stream), f.after)
  {
    hide Decide, Convert, GetIdentifier, Jsonb, Steps, IsMerge, LandsIn, Resolve, Orderly;
    var plans := PlansOf(f.env, f.ctx, f.stream);
    forall i, j | 0 <= i < j < |plans| && !plans[i].Nothing? && !plans[j].Nothing? ensures plans[i].id != plans[j].id {
      PlanLands(f, i, plans[i].id);
      PlanLands(f, j, plans[j].id);
      if plans[i].id == plans[j].id { LandApart(f, i, j, plans[i].id); }
    }
    forall p | p in plans && p.Insert? ensures p.id !in f.rows {
      var i :| 0 <= i < |plans| && plans[i] == p;
      InsertIsNew(f, i);
    }
    OrderlyBatch(f, plans);
  }

  lemma InsertIsNew(f: First, i: nat)
    requires Orderly(f) && i < |f.stream| && f.Plan(i).Insert?
    ensures f.Plan(i).id !in f.rows && f.stream[i].newId == Some(f.Plan(i).id)
  {
    hide Decide, Convert, GetIdentifier, Jsonb, Steps, NoFaults, DistinctIdentifiers, UniqueIdentifiers, Describes;
    DecideIs(f.env, f.ctx, f.stream[i]);
    assert f.stream[i] in f.stream;
  }

  lemma OrderlyBatch(f: First, plans: seq<Plan>)
    requires Orderly(f) && plans == PlansOf(f.env, f.ctx, f.stream) && Separate(plans) && NewIdsUnused(plans, f.rows)
    ensures IsMerge(f.env, f.rows, plans, f.after)
  {
    hide Decide, Convert, GetIdentifier, Jsonb, IsMerge;
    BatchIsMerge(f.env, f.ctx, f.rows, f.stream);
  }

  /** The cell a record lands in, after the batch. */
  lemma CellAfter(f: First, i: nat, id: Id)
    requires Orderly(f) && i < |f.stream| && LandsIn(f, i, id)
    ensures Cell(f.after, id) == if f.Plan(i).Nothing? then Cell(f.rows, id) else Applied(f.env, f.Plan(i), Cell(f.rows, id))
  {
    hide Decide, Convert, GetIdentifier, Jsonb, Steps, Applied, Cell;
    OrderlyMerges(f);
    var plans := PlansOf(f.env, f.ctx, f.stream);
    if f.Plan(i).Nothing? {
      forall j | 0 <= j < |plans| ensures !Hits(plans[j], id) {
        if Hits(plans[j], id) {
          PlanLands(f, j, id);
          LandApart(f, i, j, id);
        }
      }
    } else {
      PlanLands(f, i, plans[i].id);
      assert plans[i].id == id by { LandsOnce(f, i, plans[i].id, id); }
      assert Hits(plans[i], id);
    }
  }

  lemma LandsOnce(f: First, i: nat, a: Id, b: Id)
    requires i < |f.stream| && LandsIn(f, i, a) && LandsIn(f, i, b)
    ensures a == b
  {
    hide Resolve;
  }

  /** A cell no record lands in stays. */
  lemma CellKept(f: First, id: Id)
    requires Orderly(f) && forall i: nat :: i < |f.stream| ==> !Hits(f.Plan(i), id)
    ensures Cell(f.after, id) == Cell(f.rows, id)
  {
    hide Decide, Convert, GetIdentifier, Jsonb, Steps, Applied, Cell;
    OrderlyMerges(f);
    var plans := PlansOf(f.env, f.ctx, f.stream);
    forall i | 0 <= i < |plans| ensures !Hits(plans[i], id) {
      assert plans[i] == f.Plan(i);
    }
  }

  // ---------- identifiers after the batch ----------

  /**
   Where a row's identifier comes from: it was there before, in a row of the same
   owner and family, or the row now holds a record of the stream.
   */
  lemma IdentifierOrigin(f: First, id: Id)
    requires Orderly(f) && id in f.after
    ensures (id in f.rows && f.rows[id].owner == f.after[id].owner && f.rows[id].family == f.after[id].family
             && f.after[id].blob == f.rows[id].blob)
         || exists i: nat :: i < |f.stream| && LandsIn(f, i, id) && f.after[id].blob == Jsonb(f.stream[i].record)
                             && Hits(f.Plan(i), id) && (f.Plan(i).Insert? || f.Plan(i).Overwrite?)
  {
    hide Decide, Convert, GetIdentifier, Jsonb, Steps, LandsIn, Resolve, Orderly, Removed;
    if i: nat :| i < |f.stream| && Hits(f.Plan(i), id) {
      PlanLands(f, i, id);
      CellAfter(f, i, id);
      DecideIs(f.env, f.ctx, f.stream[i]);
      PlanBlob(f, i, id);
    } else {
      CellKept(f, id);
    }
  }

  lemma PlanBlob(f: First, i: nat, id: Id)
    requires Orderly(f) && i < |f.stream| && Hits(f.Plan(i), id)
    ensures f.Plan(i).Overwrite? ==> f.Plan(i).blob == f.stream[i].record
    ensures f.Plan(i).Insert? ==> f.Plan(i).row.blob == Jsonb(f.stream[i].record) && f.rows.Keys !! {id}
                                  && f.Plan(i).row.owner == f.env.uid && f.Plan(i).row.family == METAX_FAMILY
  {
    hide Decide, Convert, GetIdentifier, Jsonb, Steps, NoFaults, DistinctIdentifiers, UniqueIdentifiers, Describes;
    hide Resolve, Removed, ModificationDate;
    DecideIs(f.env, f.ctx, f.stream[i]);
    if f.Plan(i).Insert? { InsertIsNew(f, i); }
  }

  /** Unlinked records keep landing in the row that carries their identifier. */
  lemma IdentifierLands(f: First, i: nat, id: Id)
    requires Orderly(f) && i < |f.stream| && Good(f.stream[i].record) && !Linked(f.stream[i].record)
    requires IsOwned(f.after, f.env.uid, id) && GetIdentifier(f.after[id].blob) == GetIdentifier(f.stream[i].record)
    ensures LandsIn(f, i, id)
  {
    hide Decide, Convert, GetIdentifier, Jsonb, Steps, Hits, ModificationDate;
    IdentifierOrigin(f, id);
    assert f.stream[i] in f.stream;
    if j: nat :| j < |f.stream| && LandsIn(f, j, id) && f.after[id].blob == Jsonb(f.stream[j].record) {
      assert f.stream[j] in f.stream;
      assert IdentifierStored(f.stream[j].record);
      assert i == j;
    } else {
      assert IsOwned(f.rows, f.env.uid, id);
      var s := GetIdentifier(f.stream[i].record);
      assert s in f.ctx.index;
      assert f.ctx.index[s] == id;
      UnlinkedResolves(f.ctx, f.stream[i].record);
    }
  }

  lemma UnlinkedResolves(ctx: Context, rec: Record)
    requires Good(rec) && !Linked(rec) && GetIdentifier(rec) != ""
    ensures Resolve(ctx, rec) == if GetIdentifier(rec) in ctx.index then Some(ctx.index[GetIdentifier(rec)]) else None
  {
    hide GetIdentifier, ToQvain;
    ConvertAnyTime(rec, 0);
  }

  lemma LinkedResolves(ctx: Context, other: Context, rec: Record)
    requires Good(rec) && Linked(rec)
    ensures Resolve(ctx, rec) == Resolve(other, rec) && Resolve(ctx, rec).Some?
  {
    hide GetIdentifier, ToQvain;
  }

  /** Unlinked records with distinct identifiers resolve to distinct rows of themselves. */
  lemma UnlinkedIsOrderly(f: First)
    requires Settled(f)
    requires forall inc <- f.stream :: Good(inc.record) ==> !Linked(inc.record)
    ensures Orderly(f)
  {
    hide Convert, GetIdentifier, Steps, Resolve, Linked, UniqueIdentifiers, NoFaults, NewIds;
    var stream := f.stream;
    forall i, j | 0 <= i < j < |stream| && Good(stream[i].record) && Good(stream[j].record)
      ensures Resolve(f.ctx, stream[i].record).Some? ==> Resolve(f.ctx, stream[i].record) != Resolve(f.ctx, stream[j].record)
    {
      assert stream[i] in stream && stream[j] in stream;
      UnlinkedResolves(f.ctx, stream[i].record);
      UnlinkedResolves(f.ctx, stream[j].record);
    }
  }

  /** A batch of unlinked records with distinct identifiers keeps identifiers unique among the user's rows. */
  lemma UniquenessKept(f: First)
    requires Settled(f)
    requires forall inc <- f.stream :: Good(inc.record) ==> !Linked(inc.record)
    ensures UniqueIdentifiers(f.after, f.env.uid)
  {
    hide Decide, Convert, GetIdentifier, Jsonb, Steps, Hits, LandsIn, Resolve, Linked, Orderly, Settled;
    UnlinkedIsOrderly(f);
    forall a, b | IsOwned(f.after, f.env.uid, a) && IsOwned(f.after, f.env.uid, b)
                  && GetIdentifier(f.after[a].blob) != "" && GetIdentifier(f.after[a].blob) == GetIdentifier(f.after[b].blob)
      ensures a == b
    {
      IdentifierOrigin(f, a);
      IdentifierOrigin(f, b);
      if i: nat :| i < |f.stream| && LandsIn(f, i, a) && f.after[a].blob == Jsonb(f.stream[i].record) {
        SameLanding(f, i, a, b);
      } else if i: nat :| i < |f.stream| && LandsIn(f, i, b) && f.after[b].blob == Jsonb(f.stream[i].record) {
        SameLanding(f, i, b, a);
      } else {
        OldRowsUnique(f, a, b);
      }
    }
  }

  lemma OldRowsUnique(f: First, a: Id, b: Id)
    requires Orderly(f) && IsOwned(f.rows, f.env.uid, a) && IsOwned(f.rows, f.env.uid, b)
    requires GetIdentifier(f.rows[a].blob) != "" && GetIdentifier(f.rows[a].blob) == GetIdentifier(f.rows[b].blob)
    ensures a == b
  {
    hide Describes, NoFaults, DistinctIdentifiers, DistinctRows, NewIds, GetIdentifier, Steps;
  }

  lemma SameLanding(f: First, i: nat, a: Id, b: Id)
    requires Orderly(f) && i < |f.stream| && LandsIn(f, i, a) && f.after.Keys >= {a, b} && f.after[a].blob == Jsonb(f.stream[i].record)
    requires forall inc <- f.stream :: Good(inc.record) ==> !Linked(inc.record)
    requires IsOwned(f.after, f.env.uid, b) && GetIdentifier(f.after[a].blob) == GetIdentifier(f.after[b].blob)
    ensures a == b
  {
    hide Decide, Convert, GetIdentifier, Jsonb, Steps, Hits, Resolve, Linked;
    assert f.stream[i] in f.stream;
    assert IdentifierStored(f.stream[i].record);
    IdentifierLands(f, i, b);
    LandsOnce(f, i, a, b);
  }

  // ---------- the second sync ----------

  /** What a repeated sync must not change. */
  predicate SameContent(a: Rows, b: Rows) {
    a.Keys == b.Keys && forall id <- a :: SameOrigin(a[id], b[id]) && a[id].blob == b[id].blob
  }

  predicate SameRecords(stream: seq<Incoming>, second: seq<Incoming>) {
    |stream| == |second| && forall i :: 0 <= i < |stream| ==> second[i].record == stream[i].record
  }

  /** A plan that leaves the content of a table alone. */
  predicate Harmless(rows: Rows, p: Plan) {
    match p
    case Nothing(_) => true
    case Refresh(_) => true
    case Overwrite(id, blob) => id in rows ==> rows[id].blob == Jsonb(blob)
    case _ => false
  }

  lemma HarmlessStep(env: Env, rows: Rows, b: Batch, p: Plan, fault: bool)
    requires SameContent(rows, b.rows) && Harmless(rows, p)
    ensures SameContent(rows, Execute(env, b, p, fault).0.rows)
  {
    hide Jsonb;
  }

  lemma {:induction false} HarmlessSteps(env: Env, ctx: Context, rows: Rows, stream: seq<Incoming>)
    requires forall inc <- stream :: Harmless(rows, Decide(env, ctx, inc))
    ensures SameContent(rows, Steps(env, ctx, Batch(rows, false), stream).rows)
    decreases |stream|
  {
    hide Decide, Execute, Jsonb, Harmless;
    if stream != [] {
      var init, last := stream[..|stream| - 1], stream[|stream| - 1];
      assert stream == init + [last];
      HarmlessSteps(env, ctx, rows, init);
      HarmlessStep(env, rows, Steps(env, ctx, Batch(rows, false), init), Decide(env, ctx, last), last.fault);
    }
  }

  /** A record lands in the same row again, unless its row is gone. */
  lemma ResolvesAgain(f: First, again: Context, i: nat)
    requires Orderly(f) && Describes(again, f.after, f.env.uid) && i < |f.stream| && Good(f.stream[i].record)
    ensures var r := Resolve(again, f.stream[i].record); r.Some? ==> LandsIn(f, i, r.value)
    ensures Linked(f.stream[i].record) ==> Resolve(again, f.stream[i].record).Some?
  {
    hide Decide, Convert, GetIdentifier, Jsonb, Steps, Hits, Linked;
    var rec := f.stream[i].record;
    assert f.stream[i] in f.stream;
    if Linked(rec) {
      LinkedResolves(f.ctx, again, rec);
    } else {
      UnlinkedResolves(again, rec);
      if GetIdentifier(rec) in again.index {
        IdentifierLands(f, i, again.index[GetIdentifier(rec)]);
      }
    }
  }

  /** The zero id names no row, before or after. */
  lemma ZeroStaysOut(f: First)
    requires Orderly(f)
    ensures ZERO_ID !in f.after
  {
    hide Decide, Convert, GetIdentifier, Jsonb, Steps, LandsIn, Resolve, Describes, UniqueIdentifiers, NoFaults;
    hide DistinctIdentifiers;
    if i: nat :| i < |f.stream| && Hits(f.Plan(i), ZERO_ID) {
      PlanLands(f, i, ZERO_ID);
      CellAfter(f, i, ZERO_ID);
      assert f.stream[i] in f.stream;
      if f.Plan(i).Insert? { InsertIsNew(f, i); }
    } else {
      CellKept(f, ZERO_ID);
    }
  }

  /** A removed record has nothing left to remove. */
  lemma RemovedAgain(f: First, env: Env, again: Context, i: nat, inc: Incoming)
    requires Orderly(f) && Describes(again, f.after, f.env.uid) && i < |f.stream|
    requires inc.record == f.stream[i].record && Good(inc.record) && Removed(inc.record)
    ensures Decide(env, again, inc) == Nothing(Skipped)
  {
    hide Convert, GetIdentifier, Jsonb, Steps, Hits, PlanExisting, Removed, Describes, Resolve;
    hide Decide;
    DecideIs(env, again, inc);
    DecideIs(f.env, f.ctx, f.stream[i]);
    ResolvesAgain(f, again, i);
    var r := Resolve(again, inc.record);
    var id := if r.Some? then r.value else ZERO_ID;
    TimeIsOwned(again, f.after, f.env.uid, id);
    if r.None? {
      ZeroStaysOut(f);
    } else {
      CellAfter(f, i, id);
      RemovedCell(f, i, id);
    }
  }

  lemma RemovedCell(f: First, i: nat, id: Id)
    requires Orderly(f) && i < |f.stream| && LandsIn(f, i, id) && Removed(f.stream[i].record)
    requires Cell(f.after, id) == if f.Plan(i).Nothing? then Cell(f.rows, id) else Applied(f.env, f.Plan(i), Cell(f.rows, id))
    ensures IsOwned(f.after, f.env.uid, id) ==> SyncTime(f.after[id]) == 0
  {
    hide Convert, GetIdentifier, Jsonb, Steps, PlanExisting, Describes, Resolve, UniqueIdentifiers, NoFaults;
    hide DistinctIdentifiers;
    hide Decide;
    DecideIs(f.env, f.ctx, f.stream[i]);
    TimeIsOwned(f.ctx, f.rows, f.env.uid, id);
    if Resolve(f.ctx, f.stream[i].record).None? {
      TimeIsOwned(f.ctx, f.rows, f.env.uid, ZERO_ID);
      assert f.stream[i] in f.stream;
    }
  }

  /** A record that is not removed finds its own document in the row, or a row already synced after it. */
  lemma WrittenAgain(f: First, env: Env, again: Context, i: nat, inc: Incoming)
    requires Orderly(f) && ClockCurrent(f) && Describes(again, f.after, f.env.uid) && i < |f.stream|
    requires inc.record == f.stream[i].record && Good(inc.record) && !Removed(inc.record)
    ensures Harmless(f.after, Decide(env, again, inc))
  {
    hide Convert, GetIdentifier, Jsonb, Steps, Removed, Describes, Resolve, UniqueIdentifiers, NoFaults;
    hide ModificationDate;
    hide Decide;
    DecideIs(env, again, inc);
    ResolvesAgain(f, again, i);
    var r := Resolve(again, inc.record);
    if r.Some? {
      CellAfter(f, i, r.value);
      TimeIsOwned(again, f.after, f.env.uid, r.value);
      WrittenCell(f, again, i, r.value);
    } else {
      FoundAgain(f, again, i);
    }
  }

  lemma WrittenCell(f: First, again: Context, i: nat, id: Id)
    requires Orderly(f) && ClockCurrent(f) && i < |f.stream| && LandsIn(f, i, id) && !Removed(f.stream[i].record)
    requires Cell(f.after, id) == if f.Plan(i).Nothing? then Cell(f.rows, id) else Applied(f.env, f.Plan(i), Cell(f.rows, id))
    requires TimeOf(again, id) == if IsOwned(f.after, f.env.uid, id) then SyncTime(f.after[id]) else 0
    ensures Harmless(f.after, PlanExisting(id, TimeOf(again, id), f.stream[i].record))
  {
    hide Convert, GetIdentifier, Jsonb, Steps, Describes, Resolve, UniqueIdentifiers, NoFaults, DistinctIdentifiers;
    hide ModificationDate;
    hide Decide;
    DecideIs(f.env, f.ctx, f.stream[i]);
    TimeIsOwned(f.ctx, f.rows, f.env.uid, id);
    assert f.stream[i] in f.stream;
    if f.Plan(i).Refresh? {
      DateNotNegative(f.stream[i].record);
      OwnedTime(f.ctx, f.rows, f.env.uid, id);
    }
  }

  lemma DateNotNegative(blob: Json)
    ensures ModificationDate(blob) >= 0
  {
  }

  lemma OwnedTime(ctx: Context, rows: Rows, uid: Id, id: Id)
    requires Describes(ctx, rows, uid)
    ensures IsOwned(rows, uid, id) <==> id in ctx.times
    ensures TimeOf(ctx, id) != 0 ==> id in ctx.times && ctx.times[id] == TimeOf(ctx, id)
  {
    hide GetIdentifier;
  }

  /** A record that was not removed is resolved the second time: a row with its identifier is there. */
  lemma FoundAgain(f: First, again: Context, i: nat)
    requires Orderly(f) && Describes(again, f.after, f.env.uid) && i < |f.stream|
    requires Good(f.stream[i].record) && !Removed(f.stream[i].record)
    ensures Resolve(again, f.stream[i].record).Some?
  {
    hide Decide, Convert, GetIdentifier, Jsonb, Steps, Linked, Removed, Hits, Resolve, UniqueIdentifiers, NoFaults;
    hide ModificationDate;
    var rec := f.stream[i].record;
    assert f.stream[i] in f.stream;
    if Linked(rec) {
      LinkedResolves(f.ctx, again, rec);
    } else {
      UnlinkedResolves(f.ctx, rec);
      UnlinkedResolves(again, rec);
      var id := if Resolve(f.ctx, rec).Some? then Resolve(f.ctx, rec).value else f.stream[i].newId.value;
      CellAfter(f, i, id);
      DecideIs(f.env, f.ctx, f.stream[i]);
      assert IdentifierStored(rec);
      RowHasIdentifier(f, i, id);
    }
  }

  lemma RowHasIdentifier(f: First, i: nat, id: Id)
    requires Orderly(f) && i < |f.stream| && LandsIn(f, i, id) && !Removed(f.stream[i].record) && !Linked(f.stream[i].record)
    requires Cell(f.after, id) == if f.Plan(i).Nothing? then Cell(f.rows, id) else Applied(f.env, f.Plan(i), Cell(f.rows, id))
    ensures IsOwned(f.after, f.env.uid, id) && GetIdentifier(f.after[id].blob) == GetIdentifier(f.stream[i].record)
  {
    hide Decide, Convert, GetIdentifier, Jsonb, Steps, Linked, Removed, Resolve, UniqueIdentifiers, NoFaults;
    hide ModificationDate;
    var rec := f.stream[i].record;
    assert f.stream[i] in f.stream;
    DecideIs(f.env, f.ctx, f.stream[i]);
    UnlinkedResolves(f.ctx, rec);
    assert IdentifierStored(rec);
  }

  /**
   Idempotence.  After a batch whose records have distinct identifiers and resolve
   to distinct rows, with a clock not behind the recorded sync times, syncing the
   same records again changes no row's existence, origin, published flag or
   document, whatever the clocks, new ids and faults of the second batch.
   */
  lemma SyncIsIdempotent(f: First, env: Env, again: Context, stream: seq<Incoming>)
    requires Orderly(f) && ClockCurrent(f)
    requires Describes(again, f.after, f.env.uid)
    requires SameRecords(f.stream, stream)
    ensures SameContent(f.after, Steps(env, again, Batch(f.after, false), stream).rows)
  {
    hide Decide, Convert, GetIdentifier, Jsonb, Steps, Orderly, Describes, Harmless, ClockCurrent, Removed;
    forall inc | inc in stream ensures Harmless(f.after, Decide(env, again, inc)) {
      var i :| 0 <= i < |stream| && stream[i] == inc;
      if !Good(inc.record) {
        DecideIs(env, again, inc);
        NothingIsHarmless(f.after, Failed);
      } else if Removed(inc.record) {
        RemovedAgain(f, env, again, i, inc);
        NothingIsHarmless(f.after, Skipped);
      } else {
        WrittenAgain(f, env, again, i, inc);
      }
    }
    HarmlessSteps(env, again, f.after, stream);
  }

  lemma NothingIsHarmless(rows: Rows, s: Status)
    ensures Harmless(rows, Nothing(s))
  {
  }
}
