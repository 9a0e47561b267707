/**
 The order of a stream.  Ids and times are drawn while records are handled, so two
 orders draw different ones; everything else of the table comes out the same.
 */
module SyncOrder {
  import opened Options
  import opened Json
  import opened Datasets
  import opened Store
  import opened Sync
  import opened SyncMerge
  import opened SyncTwice

  /** The second stream holds the records of the first in another order; `place` says where each one went. */
  predicate Reorders(stream: seq<Incoming>, shuffled: seq<Incoming>, place: seq<nat>) {
    && |place| == |stream| == |shuffled|
    && (forall i :: 0 <= i < |place| ==> place[i] < |shuffled| && shuffled[place[i]].record == stream[i].record)
    && (forall i, j :: 0 <= i < j < |place| ==> place[i] != place[j])
    && (forall j :: 0 <= j < |shuffled| ==> j in place)
  }

  /** The record makes a new row. */
  predicate Inserts(ctx: Context, rec: Record) {
    Good(rec) && !Removed(rec) && Resolve(ctx, rec) == None
  }

  /** A batch in which nothing fails, the id generator included, and records name different rows. */
  predicate RunsSmoothly(env: Env, ctx: Context, rows: Rows, stream: seq<Incoming>) {
    && NoFaults(stream) && (forall inc <- stream :: inc.newId.Some?)
    && Separate(PlansOf(env, ctx, stream)) && NewIdsUnused(PlansOf(env, ctx, stream), rows)
  }

  /** A row without the times a sync stamps on it. */
  function Unstamped(r: Row): Row { r.(modified := 0, synced := None) }

  /** Two existing rows agree but for these times, and wholly if the batches share their clocks. */
  predicate AlikeKept(env: Env, other: Env, c: Option<Row>, d: Option<Row>) {
    && (c.Some? <==> d.Some?) && (c.Some? ==> Unstamped(c.value) == Unstamped(d.value))
    && (env == other ==> c == d)
  }

  /** Two inserted rows agree but for the times: an undated record is created when it is handled. */
  predicate AlikeNew(env: Env, other: Env, r: Row, t: Row) {
    && Unstamped(r).(created := 0) == Unstamped(t).(created := 0)
    && (env == other ==> r.(created := 0) == t.(created := 0))
  }

  /** One record, handled at two times: the same plan, up to the new id and the times of a new row. */
  lemma PlansAgree(env: Env, other: Env, ctx: Context, x: Incoming, y: Incoming)
    requires x.record == y.record && x.newId.Some? && y.newId.Some? && env.uid == other.uid
    ensures var p, q := Decide(env, ctx, x), Decide(other, ctx, y);
            if Inserts(ctx, x.record) then
              p.Insert? && q.Insert? && p.id == x.newId.value && q.id == y.newId.value && AlikeNew(env, other, p.row, q.row)
            else !p.Insert? && p == q
  {
    hide ToQvain, ModificationDate, GetIdentifier, Jsonb;
    ConvertAnyTime(x.record, x.clock);
    ConvertAnyTime(y.record, y.clock);
    DecideIs(env, ctx, x);
    DecideIs(other, ctx, y);
  }

  lemma AppliedAlike(env: Env, other: Env, p: Plan, c: Option<Row>)
    requires !p.Insert?
    ensures AlikeKept(env, other, Applied(env, p, c), Applied(other, p, c))
  {
    hide Jsonb;
  }

  /** A row that was there comes out alike. */
  lemma KeptRow(env: Env, other: Env, ctx: Context, rows: Rows, stream: seq<Incoming>, shuffled: seq<Incoming>, place: seq<nat>,
                a: Rows, b: Rows, id: Id)
    requires env.uid == other.uid && Reorders(stream, shuffled, place) && id in rows
    requires RunsSmoothly(env, ctx, rows, stream) && RunsSmoothly(other, ctx, rows, shuffled)
    requires IsMerge(env, rows, PlansOf(env, ctx, stream), a) && IsMerge(other, rows, PlansOf(other, ctx, shuffled), b)
    ensures AlikeKept(env, other, Cell(a, id), Cell(b, id))
  {
    hide Decide, Applied, Inserts, Cell, AlikeKept, Jsonb;
    var plans, others := PlansOf(env, ctx, stream), PlansOf(other, ctx, shuffled);
    if i :| 0 <= i < |plans| && Hits(plans[i], id) {
      assert plans[i] in plans && stream[i] in stream && shuffled[place[i]] in shuffled;
      PlansAgree(env, other, ctx, stream[i], shuffled[place[i]]);
      assert others[place[i]] == plans[i];
      AppliedAlike(env, other, plans[i], Cell(rows, id));
    } else {
      forall j | 0 <= j < |others| ensures !Hits(others[j], id) {
        assert j in place;
        var i :| 0 <= i < |place| && place[i] == j;
        assert others[j] in others && stream[i] in stream && shuffled[j] in shuffled;
        PlansAgree(env, other, ctx, stream[i], shuffled[j]);
        assert !Hits(plans[i], id);
      }
      AlikeSelf(env, other, Cell(rows, id));
    }
  }

  lemma AlikeSelf(env: Env, other: Env, c: Option<Row>)
    ensures AlikeKept(env, other, c, c)
  {
  }

  /** A record that makes a new row makes it under the id drawn for it. */
  lemma NewRow(env: Env, ctx: Context, rows: Rows, stream: seq<Incoming>, after: Rows, i: nat)
    requires RunsSmoothly(env, ctx, rows, stream) && IsMerge(env, rows, PlansOf(env, ctx, stream), after)
    requires i < |stream| && Inserts(ctx, stream[i].record)
    ensures var p := Decide(env, ctx, stream[i]);
            && p.Insert? && stream[i].newId == Some(p.id) && p.id !in rows && p.id in after && after[p.id] == p.row
  {
    hide Decide, Inserts, Jsonb;
    assert stream[i] in stream;
    PlansAgree(env, env, ctx, stream[i], stream[i]);
    var plans := PlansOf(env, ctx, stream);
    assert plans[i] in plans && Hits(plans[i], plans[i].id);
    assert Cell(after, plans[i].id) == Applied(env, plans[i], Cell(rows, plans[i].id));
  }

  /** Whatever row is new sits under the id drawn for a record that makes one. */
  ghost predicate OnlyInserted(ctx: Context, rows: Rows, stream: seq<Incoming>, after: Rows) {
    forall id <- after :: id !in rows ==>
      exists i :: 0 <= i < |stream| && Inserts(ctx, stream[i].record) && stream[i].newId == Some(id)
  }

  lemma NewRowsAreInserted(env: Env, ctx: Context, rows: Rows, stream: seq<Incoming>, after: Rows)
    requires RunsSmoothly(env, ctx, rows, stream) && IsMerge(env, rows, PlansOf(env, ctx, stream), after)
    ensures OnlyInserted(ctx, rows, stream, after)
  {
    hide Decide, Inserts, Jsonb;
    var plans := PlansOf(env, ctx, stream);
    forall id | id in after && id !in rows
      ensures exists i :: 0 <= i < |stream| && Inserts(ctx, stream[i].record) && stream[i].newId == Some(id)
    {
      assert Cell(after, id) != Cell(rows, id);
      var i :| 0 <= i < |plans| && Hits(plans[i], id);
      assert Cell(after, id) == Applied(env, plans[i], Cell(rows, id));
      assert stream[i] in stream;
      PlansAgree(env, env, ctx, stream[i], stream[i]);
    }
  }

  /** The row a record makes in one run, and the row it makes in the other. */
  predicate MadeAlike(env: Env, other: Env, rows: Rows, a: Rows, b: Rows, x: Incoming, y: Incoming) {
    && x.newId.Some? && x.newId.value in a && x.newId.value !in rows
    && y.newId.Some? && y.newId.value in b && y.newId.value !in rows
    && AlikeNew(env, other, a[x.newId.value], b[y.newId.value])
    && (env == other && x == y ==> a[x.newId.value] == b[y.newId.value])
  }

  lemma RowsMadeAlike(env: Env, other: Env, ctx: Context, rows: Rows, stream: seq<Incoming>, shuffled: seq<Incoming>,
                      place: seq<nat>, a: Rows, b: Rows, i: nat)
    requires env.uid == other.uid && Reorders(stream, shuffled, place)
    requires RunsSmoothly(env, ctx, rows, stream) && RunsSmoothly(other, ctx, rows, shuffled)
    requires IsMerge(env, rows, PlansOf(env, ctx, stream), a) && IsMerge(other, rows, PlansOf(other, ctx, shuffled), b)
    requires i < |stream| && Inserts(ctx, stream[i].record)
    ensures MadeAlike(env, other, rows, a, b, stream[i], shuffled[place[i]])
  {
    hide Decide, Inserts, IsMerge, AlikeNew, Jsonb;
    assert stream[i] in stream && shuffled[place[i]] in shuffled;
    NewRow(env, ctx, rows, stream, a, i);
    NewRow(other, ctx, rows, shuffled, b, place[i]);
    PlansAgree(env, other, ctx, stream[i], shuffled[place[i]]);
  }

  /**
   The order of a stream does not matter, up to fresh ids and times.  For two batches
   of one user over the same records in any two orders, with any clocks and any ids
   drawn: every row that was there has the same columns and document in both results,
   or is gone from both; the row a record makes sits under the id drawn for it in
   each run, with the same columns and document; and no other rows appear.  Where the
   draws and clocks agree as well, so do the rows.
   */
  lemma OrderDoesNotMatter(env: Env, other: Env, ctx: Context, rows: Rows,
                           stream: seq<Incoming>, shuffled: seq<Incoming>, place: seq<nat>)
    requires env.uid == other.uid && Reorders(stream, shuffled, place)
    requires RunsSmoothly(env, ctx, rows, stream) && RunsSmoothly(other, ctx, rows, shuffled)
    ensures var a, b := Steps(env, ctx, Batch(rows, false), stream), Steps(other, ctx, Batch(rows, false), shuffled);
            && !a.aborted && !b.aborted
            && (forall id <- rows :: AlikeKept(env, other, Cell(a.rows, id), Cell(b.rows, id)))
            && (forall i | 0 <= i < |stream| && Inserts(ctx, stream[i].record) ::
                  MadeAlike(env, other, rows, a.rows, b.rows, stream[i], shuffled[place[i]]))
            && OnlyInserted(ctx, rows, stream, a.rows) && OnlyInserted(ctx, rows, shuffled, b.rows)
  {
    hide Decide, Inserts, Steps, Cell, IsMerge, AlikeKept, MadeAlike, OnlyInserted, Jsonb;
    BatchIsMerge(env, ctx, rows, stream);
    BatchIsMerge(other, ctx, rows, shuffled);
    var a, b := Steps(env, ctx, Batch(rows, false), stream).rows, Steps(other, ctx, Batch(rows, false), shuffled).rows;
    forall id | id in rows ensures AlikeKept(env, other, Cell(a, id), Cell(b, id)) {
      KeptRow(env, other, ctx, rows, stream, shuffled, place, a, b, id);
    }
    forall i | 0 <= i < |stream| && Inserts(ctx, stream[i].record)
      ensures MadeAlike(env, other, rows, a, b, stream[i], shuffled[place[i]])
    {
      RowsMadeAlike(env, other, ctx, rows, stream, shuffled, place, a, b, i);
    }
    NewRowsAreInserted(env, ctx, rows, stream, a);
    NewRowsAreInserted(other, ctx, rows, shuffled, b);
  }
}
