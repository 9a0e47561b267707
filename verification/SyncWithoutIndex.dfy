/**
 Syncing without an index, as it happens when the count header is missing or the
 rows cannot be listed: what a batch adds, and when it can be repeated.
 */
module SyncWithoutIndex {
  import opened Options
  import opened Json
  import opened Datasets
  import opened Store
  import opened Sync
  import opened SyncMerge
  import opened SyncTwice

  /** A live record that is linked to no row. */
  predicate MakesRow(rec: Record) { Good(rec) && !Removed(rec) && !Linked(rec) }

  /** A live record that is linked to the row. */
  predicate WritesTo(rec: Record, id: Id) {
    Good(rec) && !Removed(rec) && Linked(rec) && Convert(rec).value.id == id
  }

  function RowsMade(stream: seq<Incoming>): nat {
    if stream == [] then 0
    else RowsMade(stream[..|stream| - 1]) + if MakesRow(stream[|stream| - 1].record) then 1 else 0
  }

  /** Nothing fails, and the ids drawn are unused and distinct. */
  predicate Draws(rows: Rows, stream: seq<Incoming>) {
    && NoFaults(stream) && (forall inc <- stream :: inc.newId.Some? && inc.newId.value !in rows)
    && forall i, j :: 0 <= i < j < |stream| ==> stream[i].newId != stream[j].newId
  }

  function IdsMade(stream: seq<Incoming>): set<Id> {
    set inc | inc in stream && MakesRow(inc.record) && inc.newId.Some? :: inc.newId.value
  }

  /** What the column holds after the last record that writes to the row. */
  function LastWrite(stream: seq<Incoming>, id: Id): Option<Json> {
    if stream == [] then None
    else
      var last := stream[|stream| - 1].record;
      if WritesTo(last, id) then Some(Jsonb(last)) else LastWrite(stream[..|stream| - 1], id)
  }

  /** The plan of a record: always insert what is unlinked, always overwrite what is linked, never remove. */
  lemma PlanWithoutIndex(env: Env, inc: Incoming)
    ensures var p := Decide(env, NO_CONTEXT, inc);
            if MakesRow(inc.record) && inc.newId.Some? then p.Insert? && p.id == inc.newId.value
            else p.Nothing? || (p.Overwrite? && p.blob == inc.record && WritesTo(inc.record, p.id))
    ensures forall id :: WritesTo(inc.record, id) ==> Decide(env, NO_CONTEXT, inc) == Overwrite(id, inc.record)
  {
    hide Decide, Jsonb, GetIdentifier, ToQvain, ModificationDate;
    DecideIs(env, NO_CONTEXT, inc);
    DateNotNegative(inc.record);
  }

  lemma StepWithoutIndex(env: Env, b: Batch, inc: Incoming)
    requires !b.aborted && !inc.fault && inc.newId.Some? && inc.newId.value !in b.rows
    ensures var after := Step(env, NO_CONTEXT, b, inc);
            && !after.aborted
            && after.rows.Keys == b.rows.Keys + (if MakesRow(inc.record) then {inc.newId.value} else {})
            && (forall id <- b.rows :: id in after.rows && SameOrigin(b.rows[id], after.rows[id])
                  && after.rows[id].blob == if WritesTo(inc.record, id) then Jsonb(inc.record) else b.rows[id].blob)
  {
    hide Decide, Jsonb, MakesRow, WritesTo;
    PlanWithoutIndex(env, inc);
  }

  lemma DrawsPrefix(rows: Rows, stream: seq<Incoming>)
    requires stream != [] && Draws(rows, stream)
    ensures Draws(rows, stream[..|stream| - 1])
    ensures stream[|stream| - 1].newId.Some? && stream[|stream| - 1].newId.value !in rows.Keys + IdsMade(stream[..|stream| - 1])
    ensures IdsMade(stream) == IdsMade(stream[..|stream| - 1])
                               + if MakesRow(stream[|stream| - 1].record) then {stream[|stream| - 1].newId.value} else {}
  {
    hide MakesRow;
    var init, last := stream[..|stream| - 1], stream[|stream| - 1];
    assert stream == init + [last];
    forall inc | inc in init ensures inc in stream && inc.newId != last.newId {
      var i :| 0 <= i < |init| && init[i] == inc;
      assert stream[i] == inc && stream[|stream| - 1] == last;
    }
    assert last in stream;
  }

  /** The rows there are. */
  predicate Adds(rows: Rows, stream: seq<Incoming>, after: Rows) {
    after.Keys == rows.Keys + IdsMade(stream) && |after.Keys| == |rows.Keys| + RowsMade(stream)
  }

  /** What the rows that were there hold. */
  predicate HoldsLast(rows: Rows, stream: seq<Incoming>, after: Rows) {
    forall id <- rows :: id in after && SameOrigin(rows[id], after[id])
      && after[id].blob == if LastWrite(stream, id).Some? then LastWrite(stream, id).value else rows[id].blob
  }

  /**
   Without an index a batch adds one row for every live unlinked record, under the id
   drawn for it, whether or not the table holds the dataset already; it removes none,
   and a row that was there holds the last record linked to it, if there is one.
   */
  lemma {:induction false} NoIndexDuplicates(env: Env, rows: Rows, stream: seq<Incoming>)
    requires Draws(rows, stream)
    ensures var after := Steps(env, NO_CONTEXT, Batch(rows, false), stream);
            !after.aborted && Adds(rows, stream, after.rows) && HoldsLast(rows, stream, after.rows)
    decreases |stream|
  {
    hide Step, Jsonb, MakesRow, WritesTo, Draws, Adds, HoldsLast;
    if stream == [] {
      NothingAdded(rows);
    } else {
      var init, last := stream[..|stream| - 1], stream[|stream| - 1];
      DrawsPrefix(rows, stream);
      LastIsFine(rows, stream);
      NoIndexDuplicates(env, rows, init);
      var b := Steps(env, NO_CONTEXT, Batch(rows, false), init);
      assert last.newId.value !in b.rows by { AddsKeys(rows, init, b.rows); }
      StepWithoutIndex(env, b, last);
      AddsOne(rows, stream, b.rows, Step(env, NO_CONTEXT, b, last).rows);
      HoldsOne(rows, stream, b.rows, Step(env, NO_CONTEXT, b, last).rows);
    }
  }

  lemma NothingAdded(rows: Rows)
    ensures Adds(rows, [], rows) && HoldsLast(rows, [], rows)
  {
  }

  lemma AddsKeys(rows: Rows, stream: seq<Incoming>, after: Rows)
    requires Adds(rows, stream, after)
    ensures after.Keys == rows.Keys + IdsMade(stream)
  {
  }

  lemma RowsMadeLast(stream: seq<Incoming>)
    requires stream != []
    ensures RowsMade(stream) == RowsMade(stream[..|stream| - 1]) + if MakesRow(stream[|stream| - 1].record) then 1 else 0
  {
    hide MakesRow, HasCatalog;
  }

  lemma OneMore(rows: set<Id>, made: set<Id>, before: set<Id>, id: Id, new': bool)
    requires before == rows + made && id !in before
    ensures var more := if new' then {id} else {};
            before + more == rows + (made + more) && |before + more| == |before| + if new' then 1 else 0
  {
    if !new' { assert before + {} == before && made + {} == made; }
  }

  lemma AddsOne(rows: Rows, stream: seq<Incoming>, before: Rows, after: Rows)
    requires stream != [] && Draws(rows, stream) && Adds(rows, stream[..|stream| - 1], before)
    requires after.Keys == before.Keys
                           + if MakesRow(stream[|stream| - 1].record) then {stream[|stream| - 1].newId.value} else {}
    ensures Adds(rows, stream, after)
  {
    hide MakesRow, Draws, IdsMade, RowsMade, HasCatalog;
    var init, last := stream[..|stream| - 1], stream[|stream| - 1];
    var new' := MakesRow(last.record);
    DrawsPrefix(rows, stream);
    RowsMadeLast(stream);
    AddsKeys(rows, init, before);
    OneMore(rows.Keys, IdsMade(init), before.Keys, last.newId.value, new');
  }

  lemma HoldsOne(rows: Rows, stream: seq<Incoming>, before: Rows, after: Rows)
    requires stream != [] && HoldsLast(rows, stream[..|stream| - 1], before)
    requires var last := stream[|stream| - 1].record;
             forall id <- before :: id in after && SameOrigin(before[id], after[id])
               && after[id].blob == if WritesTo(last, id) then Jsonb(last) else before[id].blob
    ensures HoldsLast(rows, stream, after)
  {
    hide WritesTo, Jsonb;
  }

  lemma LastIsFine(rows: Rows, stream: seq<Incoming>)
    requires stream != [] && Draws(rows, stream)
    ensures !stream[|stream| - 1].fault
  {
    assert stream[|stream| - 1] in stream;
  }

  lemma {:induction false} RecordsDecide(stream: seq<Incoming>, second: seq<Incoming>, id: Id)
    requires SameRecords(stream, second)
    ensures RowsMade(stream) == RowsMade(second) && LastWrite(stream, id) == LastWrite(second, id)
    decreases |stream|
  {
    hide MakesRow, WritesTo, Jsonb;
    if stream != [] { RecordsDecide(stream[..|stream| - 1], second[..|second| - 1], id); }
  }

  lemma {:induction false} NoneMade(stream: seq<Incoming>)
    ensures RowsMade(stream) == 0 <==> forall inc <- stream :: !MakesRow(inc.record)
    decreases |stream|
  {
    hide MakesRow;
    if stream != [] {
      NoneMade(stream[..|stream| - 1]);
      assert stream == stream[..|stream| - 1] + [stream[|stream| - 1]];
    }
  }

  /**
   A second sync of the same records adds as many rows again.  Repeating the batch
   changes nothing, neither rows nor documents, if and only if the stream holds no
   live unlinked record.
   */
  lemma RepeatableIff(env: Env, again: Env, rows: Rows, stream: seq<Incoming>, second: seq<Incoming>)
    requires Draws(rows, stream) && SameRecords(stream, second)
    requires Draws(Steps(env, NO_CONTEXT, Batch(rows, false), stream).rows, second)
    ensures var once := Steps(env, NO_CONTEXT, Batch(rows, false), stream).rows;
            var twice := Steps(again, NO_CONTEXT, Batch(once, false), second).rows;
            && |twice.Keys| == |rows.Keys| + 2 * RowsMade(stream)
            && (once.Keys == rows.Keys <==> forall inc <- stream :: !MakesRow(inc.record))
            && (SameContent(once, twice) <==> forall inc <- stream :: !MakesRow(inc.record))
  {
    hide Steps, MakesRow, WritesTo, Draws, Jsonb, RowsMade, LastWrite;
    var once := Steps(env, NO_CONTEXT, Batch(rows, false), stream).rows;
    var twice := Steps(again, NO_CONTEXT, Batch(once, false), second).rows;
    NoIndexDuplicates(env, rows, stream);
    NoIndexDuplicates(again, once, second);
    forall id ensures RowsMade(stream) == RowsMade(second) && LastWrite(stream, id) == LastWrite(second, id) {
      RecordsDecide(stream, second, id);
    }
    NoneMade(stream);
    NoneMade(second);
    if RowsMade(stream) == 0 {
      NothingMade(stream);
      NothingMade(second);
      assert once.Keys == rows.Keys && twice.Keys == once.Keys;
    }
  }

  lemma NothingMade(stream: seq<Incoming>)
    requires forall inc <- stream :: !MakesRow(inc.record)
    ensures IdsMade(stream) == {}
  {
  }
}
