/**
 A fetch runs two batches, the current records of a user and then the removed ones,
 each with an index of its own.  Fetching the same records twice.
 */
module SyncPair {
  import opened Options
  import opened Json
  import opened Datasets
  import opened Store
  import opened Sync
  import opened SyncMerge
  import opened SyncTwice

  /** The two batches of a fetch. */
  datatype Pair = Pair(current: First, removed: First)

  /**
   A removed record never names the row of an unlinked current one.  It may name the row
   of a linked one, as long as the first batch stamps that row with a time at all.
   */
  ghost predicate Apart(p: Pair) {
    forall i: nat, j: nat, id: Id | i < |p.current.stream| && j < |p.removed.stream| && LandsIn(p.current, i, id) ::
      Good(p.removed.stream[j].record) && Resolve(p.removed.ctx, p.removed.stream[j].record) == Some(id) ==>
        Linked(p.current.stream[i].record) && p.current.env.now != 0
  }

  ghost predicate IsFetch(p: Pair) {
    && Orderly(p.current) && ClockCurrent(p.current) && Orderly(p.removed)
    && p.removed.rows == p.current.after && p.removed.env.uid == p.current.env.uid
    && (forall inc <- p.current.stream :: Good(inc.record) ==> !Removed(inc.record))
    && (forall inc <- p.removed.stream :: Good(inc.record) ==> Removed(inc.record))
    && Apart(p)
  }

  // ---------- what the removed records do ----------

  /** The second batch only removes rows, and only those a removed record resolves to. */
  lemma RemovedOnlyRemoves(p: Pair, id: Id)
    requires IsFetch(p)
    ensures id in p.removed.after ==> id in p.current.after && p.removed.after[id] == p.current.after[id]
    ensures id in p.current.after && id !in p.removed.after ==>
              exists j: nat :: j < |p.removed.stream| && Good(p.removed.stream[j].record)
                               && Resolve(p.removed.ctx, p.removed.stream[j].record) == Some(id)
  {
    hide Decide, Convert, GetIdentifier, Jsonb, Steps, Resolve, Orderly, Removed, Apart;
    var g := p.removed;
    if j: nat :| j < |g.stream| && Hits(g.Plan(j), id) {
      PlanLands(g, j, id);
      CellAfter(g, j, id);
      assert g.stream[j] in g.stream;
    } else {
      CellKept(g, id);
    }
  }

  /** A row an unlinked current record landed in stays through the second batch. */
  lemma LandedStays(p: Pair, i: nat, id: Id)
    requires IsFetch(p) && i < |p.current.stream| && LandsIn(p.current, i, id) && id in p.current.after
    requires Good(p.current.stream[i].record) && !Linked(p.current.stream[i].record)
    ensures id in p.removed.after && p.removed.after[id] == p.current.after[id]
  {
    hide Decide, Convert, GetIdentifier, Jsonb, Steps, Resolve, Orderly, Removed, LandsIn, Hits;
    RemovedOnlyRemoves(p, id);
  }

  /** The row of a linked current record is stamped with the time of its batch. */
  lemma LandedIsStamped(f: First, i: nat, id: Id)
    requires Orderly(f) && i < |f.stream| && LandsIn(f, i, id) && id in f.after
    requires Good(f.stream[i].record) && !Removed(f.stream[i].record) && Linked(f.stream[i].record)
    ensures f.after[id].synced == Some(f.env.now)
  {
    hide Decide, ToQvain, GetIdentifier, Jsonb, Steps, Removed, Orderly, ModificationDate;
    CellAfter(f, i, id);
    DecideIs(f.env, f.ctx, f.stream[i]);
  }

  // ---------- the current records, again ----------

  /** A current record lands in the same row again, or in none that is there. */
  lemma CurrentResolves(p: Pair, again: Context, i: nat)
    requires IsFetch(p) && Describes(again, p.removed.after, p.current.env.uid)
    requires i < |p.current.stream| && Good(p.current.stream[i].record)
    ensures var r := Resolve(again, p.current.stream[i].record); r.Some? && LandsIn(p.current, i, r.value)
  {
    hide Decide, Convert, GetIdentifier, Jsonb, Steps, Hits, Linked, Removed, Resolve, UniqueIdentifiers, NoFaults, Apart;
    hide ModificationDate;
    var f, rec := p.current, p.current.stream[i].record;
    assert f.stream[i] in f.stream;
    if Linked(rec) {
      LinkedResolves(f.ctx, again, rec);
    } else {
      UnlinkedResolves(f.ctx, rec);
      UnlinkedResolves(again, rec);
      var id := if Resolve(f.ctx, rec).Some? then Resolve(f.ctx, rec).value else f.stream[i].newId.value;
      CellAfter(f, i, id);
      RowHasIdentifier(f, i, id);
      LandedStays(p, i, id);
      assert IsOwned(p.removed.after, f.env.uid, id);
      var found := again.index[GetIdentifier(rec)];
      RemovedOnlyRemoves(p, found);
      IdentifierLands(f, i, found);
    }
  }

  /** ... and finds its own document there, or a row already synced after it. */
  lemma CurrentIsHarmless(p: Pair, env: Env, again: Context, i: nat, inc: Incoming)
    requires IsFetch(p) && Describes(again, p.removed.after, p.current.env.uid)
    requires i < |p.current.stream| && inc.record == p.current.stream[i].record && Good(inc.record)
    ensures Harmless(p.removed.after, Decide(env, again, inc))
    ensures forall id :: Hits(Decide(env, again, inc), id) ==> LandsIn(p.current, i, id)
  {
    hide Convert, GetIdentifier, Jsonb, Steps, Removed, Describes, Resolve, UniqueIdentifiers, NoFaults, ModificationDate;
    hide Decide, Apart, LandsIn, Orderly, ClockCurrent;
    var f := p.current;
    assert f.stream[i] in f.stream;
    DecideIs(env, again, inc);
    CurrentResolves(p, again, i);
    var id := Resolve(again, inc.record).value;
    CellAfter(f, i, id);
    RemovedOnlyRemoves(p, id);
    TimeIsOwned(again, p.removed.after, f.env.uid, id);
    if id in p.removed.after { WrittenCell(f, again, i, id); }
  }

  // ---------- a batch that leaves a row alone ----------

  lemma {:induction false} StepsLeave(env: Env, ctx: Context, rows: Rows, stream: seq<Incoming>, id: Id)
    requires forall inc <- stream :: !Hits(Decide(env, ctx, inc), id)
    ensures Cell(Steps(env, ctx, Batch(rows, false), stream).rows, id) == Cell(rows, id)
    decreases |stream|
  {
    hide Decide, Execute, Hits, Jsonb;
    if stream != [] {
      var init, last := stream[..|stream| - 1], stream[|stream| - 1];
      assert stream == init + [last];
      StepsLeave(env, ctx, rows, init, id);
      ExecuteTouches(env, Steps(env, ctx, Batch(rows, false), init), Decide(env, ctx, last), last.fault, id);
    }
  }

  // ---------- the removed records, again ----------

  /** What the first batch of the second fetch may have done. */
  ghost predicate Between(p: Pair, rows: Rows) {
    && SameContent(p.removed.after, rows)
    && forall id | forall i: nat :: i < |p.current.stream| ==> !LandsIn(p.current, i, id) ::
         Cell(rows, id) == Cell(p.removed.after, id)
  }

  /** A removed record that resolves again resolves to the row it resolved to before. */
  lemma RemovedResolves(p: Pair, rows: Rows, again: Context, j: nat)
    requires IsFetch(p) && SameContent(p.removed.after, rows) && Describes(again, rows, p.current.env.uid)
    requires j < |p.removed.stream| && Good(p.removed.stream[j].record)
    ensures var r := Resolve(again, p.removed.stream[j].record);
            r.Some? && IsOwned(rows, p.current.env.uid, r.value) ==> Resolve(p.removed.ctx, p.removed.stream[j].record) == r
  {
    hide Decide, Convert, GetIdentifier, Jsonb, Steps, Hits, Linked, Removed, Resolve, NoFaults, Apart;
    hide ModificationDate;
    var g, rec := p.removed, p.removed.stream[j].record;
    assert g.stream[j] in g.stream;
    if Linked(rec) {
      LinkedResolves(g.ctx, again, rec);
    } else {
      UnlinkedResolves(g.ctx, rec);
      UnlinkedResolves(again, rec);
      if GetIdentifier(rec) in again.index {
        var id := again.index[GetIdentifier(rec)];
        assert IsOwned(rows, g.env.uid, id);
        RemovedOnlyRemoves(p, id);
        assert IsOwned(g.rows, g.env.uid, id) && GetIdentifier(g.rows[id].blob) == GetIdentifier(rec);
        assert GetIdentifier(rec) in g.ctx.index;
      }
    }
  }

  /** ... and there is nothing left to remove. */
  lemma RemovedIsSkipped(p: Pair, rows: Rows, env: Env, again: Context, j: nat, inc: Incoming)
    requires IsFetch(p) && Between(p, rows) && Describes(again, rows, p.current.env.uid)
    requires j < |p.removed.stream| && inc.record == p.removed.stream[j].record && Good(inc.record)
    ensures Decide(env, again, inc) == Nothing(Skipped)
  {
    hide Convert, GetIdentifier, Jsonb, Steps, Hits, PlanExisting, Removed, Describes, Resolve, Decide, SameContent;
    var g := p.removed;
    assert g.stream[j] in g.stream;
    DecideIs(env, again, inc);
    RemovedResolves(p, rows, again, j);
    var r := Resolve(again, inc.record);
    var id := if r.Some? then r.value else ZERO_ID;
    TimeIsOwned(again, rows, g.env.uid, id);
    if IsOwned(rows, g.env.uid, id) {
      if r.None? {
        ZeroStaysOut(g);
        SameKeys(g.after, rows);
      } else {
        CellAfter(g, j, id);
        RemovedCell(g, j, id);
        if i: nat :| i < |p.current.stream| && LandsIn(p.current, i, id) {
          StampedStays(p, rows, i, j, id);
        } else {
          assert Cell(rows, id) == Cell(g.after, id);
        }
      }
    }
  }

  /** A row both a current and a removed record named, if it is still there, has a sync time. */
  lemma StampedStays(p: Pair, rows: Rows, i: nat, j: nat, id: Id)
    requires IsFetch(p) && SameContent(p.removed.after, rows) && IsOwned(rows, p.current.env.uid, id)
    requires i < |p.current.stream| && LandsIn(p.current, i, id)
    requires j < |p.removed.stream| && Good(p.removed.stream[j].record)
    requires Resolve(p.removed.ctx, p.removed.stream[j].record) == Some(id)
    ensures IsOwned(p.removed.after, p.current.env.uid, id) && SyncTime(p.removed.after[id]) != 0
  {
    hide Decide, Convert, GetIdentifier, Jsonb, Steps, Resolve, Orderly, Removed, Hits, Linked;
    assert p.current.stream[i] in p.current.stream;
    RemovedOnlyRemoves(p, id);
    LandedIsStamped(p.current, i, id);
  }

  lemma SameKeys(a: Rows, b: Rows)
    requires SameContent(a, b)
    ensures a.Keys == b.Keys
  {
  }

  // ---------- the second fetch ----------

  lemma CurrentAgain(p: Pair, env: Env, ctx: Context, stream: seq<Incoming>)
    requires IsFetch(p) && Describes(ctx, p.removed.after, p.current.env.uid) && SameRecords(p.current.stream, stream)
    ensures Between(p, Steps(env, ctx, Batch(p.removed.after, false), stream).rows)
  {
    hide Decide, Convert, GetIdentifier, Jsonb, Steps, IsFetch, Describes, Harmless, Hits, LandsIn, SameContent, Removed;
    forall inc | inc in stream ensures Harmless(p.removed.after, Decide(env, ctx, inc)) {
      CurrentStep(p, env, ctx, stream, inc);
    }
    HarmlessSteps(env, ctx, p.removed.after, stream);
    var rows := Steps(env, ctx, Batch(p.removed.after, false), stream).rows;
    forall id: Id | forall i: nat :: i < |p.current.stream| ==> !LandsIn(p.current, i, id)
      ensures Cell(rows, id) == Cell(p.removed.after, id)
    {
      forall inc | inc in stream ensures !Hits(Decide(env, ctx, inc), id) {
        CurrentStep(p, env, ctx, stream, inc);
      }
      StepsLeave(env, ctx, p.removed.after, stream, id);
    }
  }

  lemma CurrentStep(p: Pair, env: Env, ctx: Context, stream: seq<Incoming>, inc: Incoming)
    requires IsFetch(p) && Describes(ctx, p.removed.after, p.current.env.uid) && SameRecords(p.current.stream, stream)
    requires inc in stream
    ensures Harmless(p.removed.after, Decide(env, ctx, inc))
    ensures forall id: Id | forall i: nat :: i < |p.current.stream| ==> !LandsIn(p.current, i, id) ::
              !Hits(Decide(env, ctx, inc), id)
  {
    hide Decide, Convert, GetIdentifier, Jsonb, IsFetch, Describes, Harmless, Hits, LandsIn, Removed;
    var i :| 0 <= i < |stream| && stream[i] == inc;
    if Good(inc.record) {
      CurrentIsHarmless(p, env, ctx, i, inc);
    } else {
      DecideIs(env, ctx, inc);
      FailedIsHarmless(p.removed.after);
    }
  }

  lemma FailedIsHarmless(rows: Rows)
    ensures Harmless(rows, Nothing(Failed)) && Harmless(rows, Nothing(Skipped)) && forall id, s :: !Hits(Nothing(s), id)
  {
  }

  /**
   Fetching the same current and removed records again changes no row's existence,
   origin, published flag or document, whatever the clocks, new ids and faults of the
   second fetch, if both batches of the first were orderly and no removed record
   names the row of a current one.
   */
  lemma FetchIsIdempotent(p: Pair, env: Env, ctx: Context, current: seq<Incoming>, env': Env, ctx': Context, removed: seq<Incoming>)
    requires IsFetch(p) && SameRecords(p.current.stream, current) && SameRecords(p.removed.stream, removed)
    requires Describes(ctx, p.removed.after, p.current.env.uid)
    requires Describes(ctx', Steps(env, ctx, Batch(p.removed.after, false), current).rows, p.current.env.uid)
    ensures var between := Steps(env, ctx, Batch(p.removed.after, false), current).rows;
            SameContent(p.removed.after, Steps(env', ctx', Batch(between, false), removed).rows)
  {
    hide Decide, Convert, GetIdentifier, Jsonb, Steps, IsFetch, Describes, Harmless, LandsIn, Removed;
    CurrentAgain(p, env, ctx, current);
    var between := Steps(env, ctx, Batch(p.removed.after, false), current).rows;
    forall inc | inc in removed ensures Harmless(between, Decide(env', ctx', inc)) {
      var j :| 0 <= j < |removed| && removed[j] == inc;
      if Good(inc.record) {
        RemovedIsSkipped(p, between, env', ctx', j, inc);
      } else {
        DecideIs(env', ctx', inc);
      }
      FailedIsHarmless(between);
    }
    HarmlessSteps(env', ctx', between, removed);
  }
}
