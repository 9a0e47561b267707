/**
 What a batch does to the table: pointwise merge, order independence, and what a
 sync may never touch.
 */
module SyncMerge {
  import opened Options
  import opened Json
  import opened Datasets
  import opened Store
  import opened Sync
  import opened SyncReadings

  function Cell(rows: Rows, id: Id): Option<Row> {
    if id in rows then Some(rows[id]) else None
  }

  predicate Hits(p: Plan, id: Id) { !p.Nothing? && p.id == id }

  /** What a plan makes of the one row it names. */
  function Applied(env: Env, p: Plan, c: Option<Row>): Option<Row> {
    match p
    case Nothing(_) => c
    case Remove(_) => None
    case Insert(_, row) => if c.None? then Some(row) else c
    case Refresh(_) => if c.None? then None else Some(RefreshedRow(c.value, env.now))
    case Overwrite(_, blob) => if c.None? then None else Some(OverwrittenRow(c.value, env.now, blob))
  }

  function PlansOf(env: Env, ctx: Context, stream: seq<Incoming>): seq<Plan> {
    seq(|stream|, i requires 0 <= i < |stream| => Decide(env, ctx, stream[i]))
  }

  /** No two plans of the batch name the same row. */
  predicate Separate(plans: seq<Plan>) {
    forall i, j :: 0 <= i < j < |plans| && !plans[i].Nothing? && !plans[j].Nothing? ==> plans[i].id != plans[j].id
  }

  /** The id generator never returned an id that is in use. */
  predicate NewIdsUnused(plans: seq<Plan>, rows: Rows) {
    forall p <- plans :: p.Insert? ==> p.id !in rows
  }

  predicate NoFaults(stream: seq<Incoming>) { forall inc <- stream :: !inc.fault }

  /** The declarative merge: each row is decided by the one plan that names it, or kept. */
  ghost predicate IsMerge(env: Env, rows: Rows, plans: seq<Plan>, after: Rows) {
    && (forall i, id :: 0 <= i < |plans| && Hits(plans[i], id) ==> Cell(after, id) == Applied(env, plans[i], Cell(rows, id)))
    && (forall id :: (forall i :: 0 <= i < |plans| ==> !Hits(plans[i], id)) ==> Cell(after, id) == Cell(rows, id))
  }

  /** One statement changes one row. */
  lemma ExecuteIsLocal(env: Env, b: Batch, p: Plan)
    requires !b.aborted && (p.Insert? ==> p.id !in b.rows)
    ensures var after := Execute(env, b, p, false).0;
            && !after.aborted
            && (forall id :: Hits(p, id) ==> Cell(after.rows, id) == Applied(env, p, Cell(b.rows, id)))
            && (forall id :: !Hits(p, id) ==> Cell(after.rows, id) == Cell(b.rows, id))
  {
  }

  /** When records resolve to distinct rows, the loop over the stale index computes the row-by-row merge. */
  lemma {:induction false} BatchIsMerge(env: Env, ctx: Context, rows: Rows, stream: seq<Incoming>)
    requires NoFaults(stream) && Separate(PlansOf(env, ctx, stream)) && NewIdsUnused(PlansOf(env, ctx, stream), rows)
    ensures var after := Steps(env, ctx, Batch(rows, false), stream);
            !after.aborted && IsMerge(env, rows, PlansOf(env, ctx, stream), after.rows)
    decreases |stream|
  {
    hide Decide, Execute, Jsonb;
    if stream != [] {
      var init, inc := stream[..|stream| - 1], stream[|stream| - 1];
      var plans := PlansOf(env, ctx, stream);
      var p := plans[|plans| - 1];
      assert plans[..|plans| - 1] == PlansOf(env, ctx, init);
      assert forall q <- PlansOf(env, ctx, init) :: q in plans;
      BatchIsMerge(env, ctx, rows, init);
      var before := Steps(env, ctx, Batch(rows, false), init);
      assert p in plans && inc in stream;
      LastPlan(env, rows, plans, before);
    }
  }

  lemma LastPlan(env: Env, rows: Rows, plans: seq<Plan>, before: Batch)
    requires plans != [] && Separate(plans) && NewIdsUnused(plans, rows) && !before.aborted
    requires IsMerge(env, rows, plans[..|plans| - 1], before.rows)
    ensures var after := Execute(env, before, plans[|plans| - 1], false).0;
            !after.aborted && IsMerge(env, rows, plans, after.rows)
  {
    hide Execute, Applied, Jsonb;
    var n := |plans| - 1;
    var p := plans[n];
    forall i, id | 0 <= i < n && Hits(plans[i], id) ensures !Hits(p, id) && Hits(plans[..n][i], id) {
    }
    forall id | Hits(p, id) ensures Cell(before.rows, id) == Cell(rows, id) {
      assert forall i :: 0 <= i < n ==> !Hits(plans[..n][i], id);
    }
    assert p in plans;
    if p.Insert? { assert Hits(p, p.id); }
    ExecuteIsLocal(env, before, p);
    var after := Execute(env, before, p, false).0;
    forall id | forall i :: 0 <= i < |plans| ==> !Hits(plans[i], id)
      ensures Cell(after.rows, id) == Cell(rows, id)
    {
      assert !Hits(plans[n], id);
      assert forall i :: 0 <= i < n ==> !Hits(plans[..n][i], id) by {
        forall i | 0 <= i < n ensures !Hits(plans[..n][i], id) { assert !Hits(plans[i], id); }
      }
    }
  }

  // ---------- what a sync may not touch, with any faults and any stream ----------

  /** Columns a sync never changes in an existing row. */
  predicate SameOrigin(r: Row, s: Row) {
    && r.creator == s.creator && r.owner == s.owner && r.created == s.created
    && r.family == s.family && r.schema == s.schema && r.published == s.published && r.valid == s.valid
  }

  /** The plan wrote the document of the row. */
  predicate BlobFrom(p: Plan, id: Id, s: Row) {
    Hits(p, id) && if p.Insert? then s.blob == p.row.blob else p.Overwrite? && s.blob == Jsonb(p.blob)
  }

  /** The difference between two cells of a row is the work of a plan of the batch. */
  ghost predicate ExplainedAt(plans: seq<Plan>, c: Option<Row>, d: Option<Row>, id: Id) {
    match (c, d)
    case (Some(r), None) => exists p <- plans :: p == Remove(id)
    case (Some(r), Some(s)) =>
      SameOrigin(r, s) && (s.blob == r.blob || exists p <- plans :: p.Overwrite? && p.id == id && s.blob == Jsonb(p.blob))
    case (None, Some(s)) =>
      (exists p <- plans :: p.Insert? && p.id == id && SameOrigin(p.row, s)) && exists p <- plans :: BlobFrom(p, id, s)
    case (None, None) => true
  }

  ghost predicate Explained(plans: seq<Plan>, rows: Rows, after: Rows) {
    forall id :: ExplainedAt(plans, Cell(rows, id), Cell(after, id), id)
  }

  /** Even with faults a statement changes at most the row it names. */
  lemma ExecuteTouches(env: Env, b: Batch, p: Plan, fault: bool, id: Id)
    ensures var after := Execute(env, b, p, fault).0.rows;
            Cell(after, id) == Cell(b.rows, id) || (Hits(p, id) && Cell(after, id) == Applied(env, p, Cell(b.rows, id)))
  {
  }

  lemma ExplainedByPlan(env: Env, plans: seq<Plan>, p: Plan, c: Option<Row>, before: Option<Row>, id: Id)
    requires p in plans && Hits(p, id) && (p.Insert? ==> c.None?) && ExplainedAt(plans, c, before, id)
    ensures ExplainedAt(plans, c, Applied(env, p, before), id)
  {
    hide Jsonb;
  }

  lemma ExplainedStep(env: Env, rows: Rows, plans: seq<Plan>, before: Batch, fault: bool)
    requires plans != [] && NewIdsUnused(plans, rows)
    requires Explained(plans[..|plans| - 1], rows, before.rows)
    ensures Explained(plans, rows, Execute(env, before, plans[|plans| - 1], fault).0.rows)
  {
    hide Jsonb, Execute, Applied, SameOrigin;
    var init, p := plans[..|plans| - 1], plans[|plans| - 1];
    var after := Execute(env, before, p, fault).0.rows;
    assert forall q <- init :: q in plans;
    assert p in plans;
    forall id ensures ExplainedAt(plans, Cell(rows, id), Cell(after, id), id) {
      assert ExplainedAt(init, Cell(rows, id), Cell(before.rows, id), id);
      assert ExplainedAt(plans, Cell(rows, id), Cell(before.rows, id), id);
      ExecuteTouches(env, before, p, fault, id);
      if Hits(p, id) {
        ExplainedByPlan(env, plans, p, Cell(rows, id), Cell(before.rows, id), id);
      }
    }
  }

  lemma {:induction false} BatchIsExplained(env: Env, ctx: Context, rows: Rows, stream: seq<Incoming>)
    requires NewIdsUnused(PlansOf(env, ctx, stream), rows)
    ensures Explained(PlansOf(env, ctx, stream), rows, Steps(env, ctx, Batch(rows, false), stream).rows)
    decreases |stream|
  {
    hide Decide, Execute, Jsonb;
    if stream != [] {
      var init, inc := stream[..|stream| - 1], stream[|stream| - 1];
      var plans := PlansOf(env, ctx, stream);
      assert plans[..|plans| - 1] == PlansOf(env, ctx, init);
      assert forall q <- PlansOf(env, ctx, init) :: q in plans;
      BatchIsExplained(env, ctx, rows, init);
      ExplainedStep(env, rows, plans, Steps(env, ctx, Batch(rows, false), init), inc.fault);
    }
  }

  /** A record that says it is removed and stands for a row the user owns and that was synced before. */
  ghost predicate RemovalFor(ctx: Context, rows: Rows, uid: Id, inc: Incoming, id: Id) {
    && inc.record.Obj? && LastMember(inc.record.members, "removed") == Some(Bool(true))
    && (Denotes(ctx, inc.record, id) || (id == ZERO_ID && forall other: Id :: !Denotes(ctx, inc.record, other)))
    && IsOwned(rows, uid, id) && SyncTime(rows[id]) != 0
  }

  /**
   A record that resolves to the row and has no date, or one later than the time the
   index has for the row.  That is the zero time for a row the index does not list.
   */
  predicate NewerFor(ctx: Context, inc: Incoming, id: Id) {
    var q := ToQvain(inc.record, inc.clock);
    q.Ok? && !q.value.removed && Target(ctx, q.value) == Some(id)
    && (ModificationDate(inc.record) == 0 || ModificationDate(inc.record) > TimeOf(ctx, id))
  }

  lemma RemoveMeans(env: Env, ctx: Context, rows: Rows, inc: Incoming, id: Id)
    requires Describes(ctx, rows, env.uid) && Decide(env, ctx, inc) == Remove(id)
    ensures RemovalFor(ctx, rows, env.uid, inc, id)
  {
    hide ToQvain, ModificationDate, GetIdentifier, Denotes, LastMember;
    RemoveSaysRemoved(env, ctx, inc);
    forall other: Id ensures Target(ctx, ToQvain(inc.record, inc.clock).value) == Some(other) <==> Denotes(ctx, inc.record, other) {
      TargetIsDenoted(ctx, inc.record, inc.clock, other);
    }
  }

  lemma ToQvainKeepsRecord(inc: Incoming)
    ensures var q := ToQvain(inc.record, inc.clock); q.Ok? ==> q.value.blob == inc.record
  {
  }

  lemma OverwriteMeans(env: Env, ctx: Context, inc: Incoming, id: Id, blob: Json)
    requires Decide(env, ctx, inc) == Overwrite(id, blob)
    ensures NewerFor(ctx, inc, id) && blob == inc.record
  {
    hide ToQvain, ModificationDate, GetIdentifier;
    ToQvainKeepsRecord(inc);
  }

  lemma InsertMeans(env: Env, ctx: Context, inc: Incoming, id: Id, row: Row)
    requires Decide(env, ctx, inc) == Insert(id, row)
    ensures inc.newId == Some(id) && row.owner == env.uid && row.creator == env.uid && row.published && row.valid
            && row.family == METAX_FAMILY && row.synced == Some(env.at) && row.blob == Jsonb(inc.record)
  {
    hide ToQvain, ModificationDate, GetIdentifier, Jsonb;
    ToQvainKeepsRecord(inc);
  }

  // ---------- the index ----------

  lemma {:induction false} ContextTimes(rows: Rows, list: seq<Id>)
    requires forall id <- list :: id in rows
    ensures var ctx := BuildContext(rows, list);
            && (forall id :: id in ctx.times <==> id in list && rows[id].family == METAX_FAMILY)
            && (forall id <- ctx.times :: ctx.times[id] == SyncTime(rows[id]))
    decreases |list|
  {
    hide GetIdentifier;
    if list != [] {
      ContextTimes(rows, list[..|list| - 1]);
      assert list == list[..|list| - 1] + [list[|list| - 1]];
    }
  }

  lemma {:induction false} FirstMatchAppend(rows: Rows, list: seq<Id>, id: Id, identifier: string)
    requires id in rows && forall x <- list :: x in rows
    ensures FirstMatch(rows, list + [id], identifier) ==
            if FirstMatch(rows, list, identifier).Some? then FirstMatch(rows, list, identifier)
            else FirstMatch(rows, [id], identifier)
  {
    hide GetIdentifier;
    if list == [] {
      assert list + [id] == [id];
    } else {
      assert (list + [id])[1..] == list[1..] + [id];
      FirstMatchAppend(rows, list[1..], id, identifier);
    }
  }

  /** The identifier map is a first-match scan of the owner's Metax rows. */
  lemma {:induction false} IndexIsFirstMatch(rows: Rows, list: seq<Id>, identifier: string)
    requires (forall id <- list :: id in rows) && identifier != ""
    ensures var ctx := BuildContext(rows, list);
            (if identifier in ctx.index then Some(ctx.index[identifier]) else None) == FirstMatch(rows, list, identifier)
    ensures "" !in BuildContext(rows, list).index
    decreases |list|
  {
    hide GetIdentifier;
    if list != [] {
      var init, last := list[..|list| - 1], list[|list| - 1];
      IndexIsFirstMatch(rows, init, identifier);
      assert list == init + [last];
      FirstMatchAppend(rows, init, last, identifier);
      assert [last][1..] == [];
    }
  }

  lemma {:induction false} FirstMatchFinds(rows: Rows, list: seq<Id>, identifier: string)
    requires forall id <- list :: id in rows
    ensures var m := FirstMatch(rows, list, identifier);
            && (m.Some? ==> m.value in list && rows[m.value].family == METAX_FAMILY && GetIdentifier(rows[m.value].blob) == identifier)
            && (m.None? ==> forall id <- list :: !(rows[id].family == METAX_FAMILY && GetIdentifier(rows[id].blob) == identifier))
  {
    hide GetIdentifier;
    if list != [] { FirstMatchFinds(rows, list[1..], identifier); }
  }

  /** However the owner's rows are listed, the context describes the table. */
  lemma ContextDescribes(rows: Rows, list: seq<Id>, uid: Id)
    requires ListsOwned(list, rows, uid)
    ensures Describes(BuildContext(rows, list), rows, uid)
  {
    hide GetIdentifier, BuildContext;
    var ctx := BuildContext(rows, list);
    ContextTimes(rows, list);
    forall s | s != ""
      ensures s in ctx.index <==> exists id :: IsOwned(rows, uid, id) && GetIdentifier(rows[id].blob) == s
      ensures s in ctx.index ==> IsOwned(rows, uid, ctx.index[s]) && GetIdentifier(rows[ctx.index[s]].blob) == s
    {
      IndexIsFirstMatch(rows, list, s);
      FirstMatchFinds(rows, list, s);
    }
    IndexIsFirstMatch(rows, list, "x");
  }
}
