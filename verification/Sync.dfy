/**
 Synchronising a user's datasets from Metax: every record of the stream is
 resolved through an index built before the batch, then merged into the table
 inside one transaction.
 */
module Sync {
  import opened Options
  import opened Json
  import opened Calendar
  import opened Datasets
  import opened Records
  import opened Store

  // ---------- the index ----------

  /** Metax identifier to row id, and row id to time of last sync, for one owner's Metax rows. */
  datatype Context = Context(index: map<string, Id>, times: map<Id, Instant>)

  const NO_CONTEXT := Context(map[], map[])

  function TimeOf(ctx: Context, id: Id): Instant {
    if id in ctx.times then ctx.times[id] else 0
  }

  function SyncTime(r: Row): Instant {
    if r.synced.Some? then r.synced.value else 0
  }

  function Indexed(ctx: Context, id: Id, r: Row): Context {
    if r.family != METAX_FAMILY then ctx
    else
      var identifier := GetIdentifier(r.blob);
      Context(if identifier == "" || identifier in ctx.index then ctx.index else ctx.index[identifier := id],
              ctx.times[id := SyncTime(r)])
  }

  function BuildContext(rows: Rows, list: seq<Id>): Context
    requires forall id <- list :: id in rows
  {
    if list == [] then NO_CONTEXT
    else Indexed(BuildContext(rows, list[..|list| - 1]), list[|list| - 1], rows[list[|list| - 1]])
  }

  /** An error while listing the rows is only logged; the maps are then empty. */
  method GetSyncInfo(db: Database, uid: Id, fault: bool) returns (ctx: Context, list: seq<Id>)
    ensures fault ==> ctx == NO_CONTEXT
    ensures !fault ==> ListsOwned(list, db.rows, uid) && ctx == BuildContext(db.rows, list)
  {
    if fault {
      return NO_CONTEXT, [];
    }
    list := db.GetAllForUid(uid);
    var index: map<string, Id>, times: map<Id, Instant> := map[], map[];
    for i := 0 to |list|
      invariant Context(index, times) == BuildContext(db.rows, list[..i])
    {
      var id := list[i];
      assert id in list && list[..i + 1][..i] == list[..i];
      var row := db.rows[id];
      if row.family == METAX_FAMILY {
        times := times[id := if row.synced.Some? then row.synced.value else 0];
        var identifier := GetIdentifier(row.blob);
        if identifier != "" && identifier !in index {
          index := index[identifier := id];
        }
      }
    }
    assert list[..|list|] == list;
    ctx := Context(index, times);
  }

  predicate IsOwned(rows: Rows, uid: Id, id: Id) {
    id in rows && rows[id].owner == uid && rows[id].family == METAX_FAMILY
  }

  /** What a context says of the table, whatever order the rows were listed in. */
  ghost predicate Describes(ctx: Context, rows: Rows, uid: Id) {
    && (forall id :: id in ctx.times <==> IsOwned(rows, uid, id))
    && (forall id <- ctx.times :: ctx.times[id] == SyncTime(rows[id]))
    && (forall s :: s in ctx.index <==> s != "" && exists id :: IsOwned(rows, uid, id) && GetIdentifier(rows[id].blob) == s)
    && (forall s <- ctx.index :: IsOwned(rows, uid, ctx.index[s]) && GetIdentifier(rows[ctx.index[s]].blob) == s)
  }

  /** A scan for an identifier takes the first Metax row that has it. */
  function FirstMatch(rows: Rows, list: seq<Id>, identifier: string): Option<Id>
    requires forall id <- list :: id in rows
  {
    if list == [] then None
    else if rows[list[0]].family == METAX_FAMILY && GetIdentifier(rows[list[0]].blob) == identifier then Some(list[0])
    else FirstMatch(rows, list[1..], identifier)
  }

  // ---------- one record ----------

  /** A record the conversion can handle: if it decodes, it names its catalog. */
  type Record = j: Json | HasCatalog(j) witness Bool(true)

  /**
   A record as it is handled: `clock` is the time then, `newId` what the id
   generator would return, `fault` whether its database statement fails.
   */
  datatype Incoming = Incoming(record: Record, clock: Instant, newId: Option<Id>, fault: bool)

  datatype Status = Written | Deleted | Skipped | Failed

  /** What the code decides to do from the record and the index alone. */
  datatype Plan =
    | Nothing(status: Status)
    | Remove(id: Id)
    | Insert(id: Id, row: Row)
    | Refresh(id: Id)
    | Overwrite(id: Id, blob: Json)

  /** The user and the two clocks of a batch: `at` when it was opened, `now` the transaction's now(). */
  datatype Env = Env(uid: Id, at: Instant, now: Instant)

  /** The row a record is taken to be: its link, or else the index entry of its identifier. */
  function Target(ctx: Context, d: Dataset): Option<Id> {
    if !d.isNew then Some(d.id)
    else
      var identifier := GetIdentifier(d.blob);
      if identifier != "" && identifier in ctx.index then Some(ctx.index[identifier]) else None
  }

  /** A row that is already here: skip it if the record is not newer than the last sync, else overwrite it. */
  function PlanExisting(id: Id, synced: Instant, blob: Json): Plan {
    if ModificationDate(blob) != 0 && ModificationDate(blob) <= synced then Refresh(id) else Overwrite(id, blob)
  }

  /** What to do with a converted record once its row is resolved. */
  function DecideFor(env: Env, ctx: Context, d: Dataset, target: Option<Id>, newId: Option<Id>): Plan {
    var id := if target.Some? then target.value else ZERO_ID;
    if d.removed then
      if TimeOf(ctx, id) == 0 then Nothing(Skipped) else Remove(id)
    else if target.None? then
      if newId.None? then Nothing(Failed)
      else Insert(newId.value, ImportedRow(env.uid, d.created, env.at, env.now, d.schema, d.blob))
    else PlanExisting(id, TimeOf(ctx, id), d.blob)
  }

  function Decide(env: Env, ctx: Context, inc: Incoming): Plan {
    var q := ToQvain(inc.record, inc.clock);
    if q.Err? then Nothing(Failed) else DecideFor(env, ctx, q.value, Target(ctx, q.value), inc.newId)
  }

  // ---------- the transaction ----------

  /** The rows as the transaction sees them; after a failed statement it accepts no more. */
  datatype Batch = Batch(rows: Rows, aborted: bool)

  function Execute(env: Env, b: Batch, plan: Plan, fault: bool): (Batch, bool) {
    if plan.Nothing? then (b, false)
    else if b.aborted || fault then (b.(aborted := true), false)
    else
      match plan
      case Insert(id, row) =>
        if id in b.rows then (b.(aborted := true), false) else (b.(rows := b.rows[id := row]), true)
      case Remove(id) =>
        if id !in b.rows then (b, false) else (b.(rows := b.rows - {id}), true)
      case Refresh(id) =>
        if id !in b.rows then (b, false) else (b.(rows := b.rows[id := RefreshedRow(b.rows[id], env.now)]), true)
      case Overwrite(id, blob) =>
        if id !in b.rows then (b, false) else (b.(rows := b.rows[id := OverwrittenRow(b.rows[id], env.now, blob)]), true)
      case Nothing(_) => (b, false)
  }

  function StatusOf(plan: Plan, ok: bool): Status {
    match plan
    case Nothing(s) => s
    case Remove(_) => if ok then Deleted else Failed
    case Refresh(_) => if ok then Skipped else Failed
    case _ => if ok then Written else Failed
  }

  function Outcome(env: Env, b: Batch, plan: Plan, fault: bool): (Batch, Status) {
    var (after, ok) := Execute(env, b, plan, fault);
    (after, StatusOf(plan, ok))
  }

  /** The row a record ended up in, if any. */
  function RowOf(plan: Plan, s: Status): Option<Id> {
    if !plan.Nothing? && (s == Written || s == Skipped) then Some(plan.id) else None
  }

  function Step(env: Env, ctx: Context, b: Batch, inc: Incoming): Batch {
    Outcome(env, b, Decide(env, ctx, inc), inc.fault).0
  }

  function StepStatus(env: Env, ctx: Context, b: Batch, inc: Incoming): Status {
    Outcome(env, b, Decide(env, ctx, inc), inc.fault).1
  }

  /** The batch after a stream of records. */
  function Steps(env: Env, ctx: Context, b: Batch, stream: seq<Incoming>): Batch {
    if stream == [] then b
    else Step(env, ctx, Steps(env, ctx, b, stream[..|stream| - 1]), stream[|stream| - 1])
  }

  class BatchManager {
    const db: Database
    const env: Env
    var batch: Batch

    constructor (db: Database, env: Env)
      ensures this.db == db && this.env == env && batch == Batch(db.rows, false)
    {
      this.db := db;
      this.env := env;
      batch := Batch(db.rows, false);
    }

    method CreateWithMetadata(id: Id, created: Instant, schema: string, blob: Json, fault: bool) returns (ok: bool)
      modifies this
      ensures (batch, ok) == Execute(env, old(batch), Insert(id, ImportedRow(env.uid, created, env.at, env.now, schema, blob)), fault)
      ensures ok <==> !old(batch.aborted) && !fault && id !in old(batch.rows)
      ensures batch == if ok then Batch(old(batch.rows)[id := Row(env.uid, env.uid, created, env.now, Some(env.at), 0,
                                                                  true, true, 2, schema, Jsonb(blob))], false)
                       else Batch(old(batch.rows), true)
    {
      if batch.aborted || fault || id in batch.rows {
        batch := batch.(aborted := true);
        return false;
      }
      batch := batch.(rows := batch.rows[id := ImportedRow(env.uid, created, env.at, env.now, schema, blob)]);
      return true;
    }

    method UpdateSynced(id: Id, fault: bool) returns (ok: bool)
      modifies this
      ensures (batch, ok) == Execute(env, old(batch), Refresh(id), fault)
      ensures ok <==> !old(batch.aborted) && !fault && id in old(batch.rows)
      ensures batch.rows == if ok then old(batch.rows)[id := old(batch.rows[id]).(synced := Some(env.now), revision := old(batch.rows[id]).revision + 1)]
                            else old(batch.rows)
    {
      if batch.aborted || fault {
        batch := batch.(aborted := true);
        return false;
      }
      if id !in batch.rows {
        return false;
      }
      var row := batch.rows[id];
      batch := batch.(rows := batch.rows[id := row.(synced := Some(env.now), revision := row.revision + 1)]);
      return true;
    }

    method Update(id: Id, blob: Json, fault: bool) returns (ok: bool)
      modifies this
      ensures (batch, ok) == Execute(env, old(batch), Overwrite(id, blob), fault)
      ensures ok <==> !old(batch.aborted) && !fault && id in old(batch.rows)
      ensures batch.rows == if ok then old(batch.rows)[id := old(batch.rows[id]).(synced := Some(env.now), modified := env.now,
                                                          revision := old(batch.rows[id]).revision + 1, blob := Jsonb(blob))]
                            else old(batch.rows)
    {
      if batch.aborted || fault {
        batch := batch.(aborted := true);
        return false;
      }
      if id !in batch.rows {
        return false;
      }
      var row := batch.rows[id];
      batch := batch.(rows := batch.rows[id := row.(synced := Some(env.now), modified := env.now, revision := row.revision + 1, blob := Jsonb(blob))]);
      return true;
    }

    method Delete(id: Id, fault: bool) returns (ok: bool)
      modifies this
      ensures (batch, ok) == Execute(env, old(batch), Remove(id), fault)
      ensures ok <==> !old(batch.aborted) && !fault && id in old(batch.rows)
      ensures batch.rows == if ok then old(batch.rows) - {id} else old(batch.rows)
    {
      if batch.aborted || fault {
        batch := batch.(aborted := true);
        return false;
      }
      if id !in batch.rows {
        return false;
      }
      batch := batch.(rows := batch.rows - {id});
      return true;
    }

    /** The stamp and the rows commit together or not at all. */
    method Commit(stamp: Instant, fault: bool) returns (ok: bool)
      modifies db
      ensures ok <==> !batch.aborted && !fault
      ensures db.rows == if ok then batch.rows else old(db.rows)
      ensures db.lastsync == if ok then old(db.lastsync)[env.uid := stamp] else old(db.lastsync)
    {
      if batch.aborted || fault {
        return false;
      }
      db.rows := batch.rows;
      db.lastsync := db.lastsync[env.uid := stamp];
      return true;
    }
  }

  method UpdateExisting(batch: BatchManager, row: Id, synced: Instant, blob: Json, fault: bool) returns (id: Option<Id>, status: Status)
    modifies batch
    ensures (batch.batch, status) == Outcome(batch.env, old(batch.batch), PlanExisting(row, synced, blob), fault)
    ensures id == RowOf(PlanExisting(row, synced, blob), status)
  {
    hide ModificationDate, Jsonb, Execute, IsLatest;
    var modified := GetModificationDate(blob);
    if modified != 0 && modified <= synced {
      var ok := batch.UpdateSynced(row, fault);
      return if ok then Some(row) else None, if ok then Skipped else Failed;
    }
    var ok := batch.Update(row, blob, fault);
    return if ok then Some(row) else None, if ok then Written else Failed;
  }

  /** The second half of syncRecord: delete, create, skip or update. */
  method MergeRecord(batch: BatchManager, ctx: Context, dataset: Dataset, isNew: bool, newId: Option<Id>, fault: bool)
    returns (id: Option<Id>, status: Status)
    requires isNew ==> dataset.id == ZERO_ID
    modifies batch
    ensures (batch.batch, status)
         == Outcome(batch.env, old(batch.batch), DecideFor(batch.env, ctx, dataset, if isNew then None else Some(dataset.id), newId), fault)
    ensures id == RowOf(DecideFor(batch.env, ctx, dataset, if isNew then None else Some(dataset.id), newId), status)
  {
    if dataset.removed {
      if TimeOf(ctx, dataset.id) == 0 {
        return None, Skipped;
      }
      var ok := batch.Delete(dataset.id, fault);
      return None, if ok then Deleted else Failed;
    }
    if isNew {
      if newId.None? {
        return None, Failed;
      }
      var ok := batch.CreateWithMetadata(newId.value, dataset.created, dataset.schema, dataset.blob, fault);
      return if ok then newId else None, if ok then Written else Failed;
    }
    id, status := UpdateExisting(batch, dataset.id, TimeOf(ctx, dataset.id), dataset.blob, fault);
  }

  lemma RemoveSaysRemoved(env: Env, ctx: Context, inc: Incoming)
    requires Decide(env, ctx, inc).Remove?
    ensures inc.record.Obj? && LastMember(inc.record.members, "removed") == Some(Bool(true))
  {
    hide ToQvain, Target, ModificationDate, ImportedRow, LastMember;
    ConvertedReads(inc.record, inc.clock);
  }

  lemma OnlyRemovesDelete(env: Env, b: Batch, plan: Plan, fault: bool)
    requires plan.Nothing? ==> plan.status != Deleted
    ensures var (after, status) := Outcome(env, b, plan, fault);
            status == Deleted || !(b.rows.Keys <= after.rows.Keys) ==> plan.Remove?
  {
    hide RefreshedRow, OverwrittenRow;
  }

  /** A row goes only with a record whose last `removed` member is true. */
  lemma OnlyRemovedRecordsDelete(env: Env, ctx: Context, b: Batch, inc: Incoming)
    ensures StepStatus(env, ctx, b, inc) == Deleted || !(b.rows.Keys <= Step(env, ctx, b, inc).rows.Keys) ==>
              inc.record.Obj? && LastMember(inc.record.members, "removed") == Some(Bool(true))
  {
    hide Decide, Outcome, LastMember;
    NothingDeleted(env, ctx, inc);
    OnlyRemovesDelete(env, b, Decide(env, ctx, inc), inc.fault);
    if Decide(env, ctx, inc).Remove? { RemoveSaysRemoved(env, ctx, inc); }
  }

  lemma NothingDeleted(env: Env, ctx: Context, inc: Incoming)
    ensures Decide(env, ctx, inc).Nothing? ==> Decide(env, ctx, inc).status != Deleted
  {
    hide ToQvain, Target, ModificationDate, ImportedRow;
  }

  /** syncRecord: its effect on the batch is the plan decided from record and index. */
  method SyncRecord(batch: BatchManager, ctx: Context, inc: Incoming) returns (id: Option<Id>, status: Status)
    modifies batch
    ensures status == Deleted || !(old(batch.batch.rows.Keys) <= batch.batch.rows.Keys) ==>
              inc.record.Obj? && LastMember(inc.record.members, "removed") == Some(Bool(true))
    ensures batch.batch == Step(batch.env, ctx, old(batch.batch), inc)
    ensures status == StepStatus(batch.env, ctx, old(batch.batch), inc)
    ensures id == RowOf(Decide(batch.env, ctx, inc), status)
  {
    hide LastMember;
    OnlyRemovedRecordsDelete(batch.env, ctx, batch.batch, inc);
    var q := ToQvain(inc.record, inc.clock);
    if q.Err? {
      return None, Failed;
    }
    var dataset := q.value;
    var isNew := dataset.isNew;
    if isNew {
      var identifier := GetIdentifier(inc.record);
      if identifier != "" && identifier in ctx.index {
        isNew := false;
        dataset := dataset.(id := ctx.index[identifier]);
      }
    }
    id, status := MergeRecord(batch, ctx, dataset, isNew, inc.newId, inc.fault);
  }

  // ---------- the select loop ----------

  /** What the select of syncBatch may receive next. */
  datatype Event = Received(inc: Incoming) | Closed | StreamError | Timeout

  /** The events of one batch: records, then one event that ends the loop. */
  predicate IsTrace(events: seq<Event>) {
    events != [] && !events[|events| - 1].Received? && forall i :: 0 <= i < |events| - 1 ==> events[i].Received?
  }

  function RecordsOf(events: seq<Event>): seq<Incoming>
    requires forall e <- events :: e.Received?
  {
    seq(|events|, i requires 0 <= i < |events| => assert events[i] in events; events[i].inc)
  }

  datatype Counters = Counters(read: nat, written: nat, deleted: nat, skipped: nat, failed: nat)

  function Counted(c: Counters, s: Status): Counters {
    match s
    case Written => c.(read := c.read + 1, written := c.written + 1)
    case Deleted => c.(read := c.read + 1, deleted := c.deleted + 1)
    case Skipped => c.(read := c.read + 1, skipped := c.skipped + 1)
    case Failed => c.(read := c.read + 1, failed := c.failed + 1)
  }

  predicate Balanced(c: Counters) { c.read == c.written + c.deleted + c.skipped + c.failed }

  /** How each record of a stream was handled. */
  function Statuses(env: Env, ctx: Context, b: Batch, stream: seq<Incoming>): (r: seq<Status>)
    ensures |r| == |stream|
  {
    if stream == [] then []
    else
      var init := stream[..|stream| - 1];
      Statuses(env, ctx, b, init) + [StepStatus(env, ctx, Steps(env, ctx, b, init), stream[|stream| - 1])]
  }

  /** What the counters of a batch should say. */
  function CountersOf(statuses: seq<Status>): Counters {
    var m := multiset(statuses);
    Counters(|statuses|, m[Written], m[Deleted], m[Skipped], m[Failed])
  }

  lemma CountOne(statuses: seq<Status>, s: Status)
    ensures CountersOf(statuses + [s]) == Counted(CountersOf(statuses), s)
  {
    assert multiset(statuses + [s]) == multiset(statuses) + multiset{s};
  }

  /** Every record is counted once: read = written + deleted + skipped + failed. */
  lemma {:induction false} CountersBalance(statuses: seq<Status>)
    ensures Balanced(CountersOf(statuses))
    decreases |statuses|
  {
    if statuses != [] {
      var init, last := statuses[..|statuses| - 1], statuses[|statuses| - 1];
      CountersBalance(init);
      assert statuses == init + [last];
      CountOne(init, last);
    }
  }

  lemma NoneCounted()
    ensures CountersOf([]) == Counters(0, 0, 0, 0, 0)
  {
  }

  lemma AllCounted(statuses: seq<Status>)
    ensures CountersOf(statuses).read == |statuses| && Balanced(CountersOf(statuses))
  {
    CountersBalance(statuses);
  }

  lemma NoSteps(env: Env, ctx: Context, b: Batch)
    ensures Steps(env, ctx, b, []) == b && Statuses(env, ctx, b, []) == []
  {
  }

  lemma StepsAppend(env: Env, ctx: Context, b: Batch, stream: seq<Incoming>, inc: Incoming)
    ensures Steps(env, ctx, b, stream + [inc]) == Step(env, ctx, Steps(env, ctx, b, stream), inc)
    ensures Statuses(env, ctx, b, stream + [inc]) == Statuses(env, ctx, b, stream) + [StepStatus(env, ctx, Steps(env, ctx, b, stream), inc)]
  {
    hide Step, StepStatus;
    var longer := stream + [inc];
    assert longer[..|longer| - 1] == stream && longer[|longer| - 1] == inc;
  }

  lemma NextStep(env: Env, ctx: Context, b: Batch, events: seq<Event>, i: nat)
    requires i < |events| && forall e <- events[..i + 1] :: e.Received?
    ensures forall e <- events[..i] :: e.Received?
    ensures Steps(env, ctx, b, RecordsOf(events[..i + 1])) == Step(env, ctx, Steps(env, ctx, b, RecordsOf(events[..i])), events[i].inc)
    ensures Statuses(env, ctx, b, RecordsOf(events[..i + 1]))
         == Statuses(env, ctx, b, RecordsOf(events[..i])) + [StepStatus(env, ctx, Steps(env, ctx, b, RecordsOf(events[..i])), events[i].inc)]
  {
    hide Steps, Statuses, Step, StepStatus;
    assert forall e <- events[..i] :: e in events[..i + 1];
    StepsAppend(env, ctx, b, RecordsOf(events[..i]), events[i].inc);
    assert RecordsOf(events[..i + 1]) == RecordsOf(events[..i]) + [events[i].inc];
  }

  /**
   What a batch meets: its clocks, the X-Count header (zero when it is missing), the
   events of its stream, the stamp it would leave, and two possible faults.
   */
  datatype BatchRun = BatchRun(env: Env, total: int, listFault: bool, events: seq<Event>, stamp: Instant, commitFault: bool) {
    function Records(): seq<Incoming>
      requires IsTrace(events)
    {
      RecordsOf(events[..|events| - 1])
    }

    function End(): Event
      requires IsTrace(events)
    {
      events[|events| - 1]
    }
  }

  datatype Table = Table(rows: Rows, stamps: map<Id, Instant>)

  /** How a batch ended: the index it used, whether it committed, whether it returned an error, its counters. */
  datatype Finish = Finish(ctx: Context, committed: bool, failed: bool, counters: Counters)

  /** The index is only built when the count is positive and the rows can be listed. */
  ghost predicate IsIndex(run: BatchRun, rows: Rows, ctx: Context) {
    if run.total <= 0 || run.listFault then ctx == NO_CONTEXT
    else exists list :: ListsOwned(list, rows, run.env.uid) && ctx == BuildContext(rows, list)
  }

  /**
   What a batch does.  Nothing is committed unless the channel was closed; then all
   records received before are in, together with the stamp.  An error is returned for
   a stream error and for a failed commit, but not for a timeout.
   */
  ghost predicate IsOutcome(run: BatchRun, before: Table, after: Table, f: Finish)
    requires IsTrace(run.events)
  {
    var start := Batch(before.rows, false);
    var end := Steps(run.env, f.ctx, start, run.Records());
    && (f.committed <==> run.End().Closed? && !end.aborted && !run.commitFault)
    && (f.failed <==> run.End().StreamError? || (run.End().Closed? && !f.committed))
    && after == (if f.committed then Table(end.rows, before.stamps[run.env.uid := run.stamp]) else before)
    && f.counters == CountersOf(Statuses(run.env, f.ctx, start, run.Records()))
  }

  method SyncBatch(db: Database, run: BatchRun) returns (f: Finish)
    requires IsTrace(run.events)
    modifies db
    ensures IsIndex(run, old(db.rows), f.ctx)
    ensures IsOutcome(run, Table(old(db.rows), old(db.lastsync)), Table(db.rows, db.lastsync), f)
    ensures f.counters.read == |run.events| - 1 && Balanced(f.counters)
    ensures run.total <= 0 || run.listFault ==> f.ctx == Context(map[], map[])
    ensures run.total > 0 && !run.listFault ==> exists list :: ListsOwned(list, old(db.rows), run.env.uid) && f.ctx == BuildContext(old(db.rows), list)
    ensures f.committed ==> run.End().Closed? && db.lastsync == old(db.lastsync)[run.env.uid := run.stamp]
    ensures !f.committed ==> db.rows == old(db.rows) && db.lastsync == old(db.lastsync)
    ensures run.End().StreamError? ==> f.failed
    ensures run.End().Timeout? ==> !f.failed && !f.committed
    ensures run.End().Closed? ==> (f.failed <==> !f.committed)
  {
    hide Steps, Step, StepStatus, Statuses, Counted, CountersOf, Decide, RowOf, BuildContext;
    var events, env := run.events, run.env;
    var batch := new BatchManager(db, env);
    var ctx := NO_CONTEXT;
    if run.total > 0 {
      var list;
      ctx, list := GetSyncInfo(db, env.uid, run.listFault);
    }
    var counters := Counters(0, 0, 0, 0, 0);
    NoneCounted();
    NoSteps(env, ctx, Batch(db.rows, false));
    var i := 0;
    while events[i].Received?
      invariant 0 <= i < |events|
      invariant fresh(batch) && batch.db == db && batch.env == env
      invariant db.rows == old(db.rows) && db.lastsync == old(db.lastsync)
      invariant batch.batch == Steps(env, ctx, Batch(db.rows, false), RecordsOf(events[..i]))
      invariant counters == CountersOf(Statuses(env, ctx, Batch(db.rows, false), RecordsOf(events[..i])))
      decreases |events| - i
    {
      var id, status := SyncRecord(batch, ctx, events[i].inc);
      CountOne(Statuses(env, ctx, Batch(db.rows, false), RecordsOf(events[..i])), status);
      NextStep(env, ctx, Batch(db.rows, false), events, i);
      counters := Counted(counters, status);
      i := i + 1;
    }
    AllCounted(Statuses(env, ctx, Batch(db.rows, false), RecordsOf(events[..i])));
    if events[i].StreamError? || events[i].Timeout? {
      // on a timeout the outer error is returned, and it is nil
      return Finish(ctx, false, events[i].StreamError?, counters);
    }
    var committed := batch.Commit(run.stamp, run.commitFault);
    return Finish(ctx, committed, !committed, counters);
  }

  /**
   A fetch is two batches, the current records and then the removed ones; the second
   is skipped only when the first returned an error.
   */
  method Fetch(db: Database, current: BatchRun, removed: BatchRun)
    returns (failed: bool, ghost between: Table, ghost first: Finish, ghost second: Finish)
    requires IsTrace(current.events) && IsTrace(removed.events)
    modifies db
    ensures IsIndex(current, old(db.rows), first.ctx)
    ensures IsOutcome(current, Table(old(db.rows), old(db.lastsync)), between, first)
    ensures if first.failed then failed && Table(db.rows, db.lastsync) == between
            else IsIndex(removed, between.rows, second.ctx) && failed == second.failed
                 && IsOutcome(removed, between, Table(db.rows, db.lastsync), second)
  {
    hide IsOutcome, IsIndex;
    var f := SyncBatch(db, current);
    first, second := f, f;
    between := Table(db.rows, db.lastsync);
    failed := f.failed;
    if !failed {
      f := SyncBatch(db, removed);
      second := f;
      failed := f.failed;
    }
  }

  /**
   Fetching one dataset: a batch of one record, which is not committed when the
   record fails.  `reply` is the record Metax answered with, if it did.
   */
  method FetchDataset(db: Database, env: Env, reply: Option<Incoming>, listFault: bool, stamp: Instant, commitFault: bool)
    returns (id: Option<Id>, committed: bool, ctx: Context)
    modifies db
    ensures reply.Some? ==> if listFault then ctx == NO_CONTEXT
                            else exists list :: ListsOwned(list, old(db.rows), env.uid) && ctx == BuildContext(old(db.rows), list)
    ensures committed <==>
              reply.Some? && !commitFault && StepStatus(env, ctx, Batch(old(db.rows), false), reply.value) != Failed
              && !Step(env, ctx, Batch(old(db.rows), false), reply.value).aborted
    ensures db.rows == if committed then Step(env, ctx, Batch(old(db.rows), false), reply.value).rows else old(db.rows)
    ensures db.lastsync == if committed then old(db.lastsync)[env.uid := stamp] else old(db.lastsync)
    ensures id == if committed then RowOf(Decide(env, ctx, reply.value), StepStatus(env, ctx, Batch(old(db.rows), false), reply.value)) else None
  {
    hide Decide, Outcome;
    ctx := NO_CONTEXT;
    if reply.None? {
      return None, false, ctx;
    }
    var batch := new BatchManager(db, env);
    var list;
    ctx, list := GetSyncInfo(db, env.uid, listFault);
    var status;
    id, status := SyncRecord(batch, ctx, reply.value);
    if status == Failed {
      return None, false, ctx;
    }
    committed := batch.Commit(stamp, commitFault);
    if !committed {
      id := None;
    }
  }
}
