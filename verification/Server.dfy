/**
 The server at work: each request runs the methods of the other modules, and what
 the runs are proved to keep holds after every one of them.
 */
module Server {
  import opened Options
  import opened CanonicalJson
  import opened Calendar
  import opened Datasets
  import opened Store
  import opened Sync
  import opened Handlers
  import opened Publishing
  import opened Service
  import opened Safety
  import opened Protocol

  class DatasetApi {
    const db: Database
    const templates: TemplateStore
    ghost var state: State

    /** The table and the templates are those of a sound state whose journal is in order. */
    ghost predicate Valid()
      reads this, db, templates
    {
      && db.rows == state.rows && templates.parsed == state.templates
      && Sound(state) && Agrees(state) && InOrder(state.journal)
    }

    constructor ()
      ensures Valid() && state == Initial() && fresh(db) && fresh(templates)
    {
      db := new Database();
      templates := new TemplateStore();
      state := Initial();
    }

    ghost method Record(q: Request)
      requires Sound(state) && Agrees(state) && InOrder(state.journal) && Plausible(state, q)
      requires db.rows == NextRows(state, q)
      requires templates.parsed == if q.CreateCall? then TemplatesAfter(state.templates, q.user, q.create, q.id) else state.templates
      modifies this`state
      ensures Valid() && state == Apply(old(state), q)
    {
      hide Sound, Agrees, InOrder, Plausible, NextRows, NewEntries, Wrote, Taken, TemplatesAfter, Careless;
      RequestKeepsSound(state, q);
      RequestAgrees(state, q);
      RequestInOrder(state, q);
      state := Apply(state, q);
    }

    method Create(user: User, req: CreateRequest, id: Id, now: Instant, fault: bool) returns (r: Option<Reason>)
      requires Valid() && Plausible(state, CreateCall(user, req, id, now, fault))
      modifies this`state, db`rows, templates
      ensures Valid() && state == Apply(old(state), CreateCall(user, req, id, now, fault))
    {
      hide Sound, Agrees, InOrder, Plausible, CreateRows, TemplatesAfter, Apply;
      r := CreateDataset(db, templates, user, req, id, now, fault);
      Record(CreateCall(user, req, id, now, fault));
    }

    method Update(format: DoubleFormat, user: User, id: Id, req: UpdateRequest, now: Instant, loadFault: bool, storeFault: bool)
      returns (r: Option<Reason>)
      requires Valid()
      modifies this`state, db`rows
      ensures Valid() && state == Apply(old(state), UpdateCall(user, id, req, now, loadFault || storeFault))
    {
      hide Sound, Agrees, InOrder, UpdateRows, UpdateAccepted, Apply;
      r := UpdateDataset(db, format, user, id, req, now, loadFault, storeFault);
      Record(UpdateCall(user, id, req, now, loadFault || storeFault));
    }

    method Publish(user: User, id: Id, env: PublishEnv) returns (r: PublishResult)
      requires Valid() && Plausible(state, PublishCall(user, id, env))
      modifies this`state, db`rows
      ensures Valid() && state == Apply(old(state), PublishCall(user, id, env))
    {
      hide Sound, Agrees, InOrder, Plausible, PublishRows, PublishJournal, Apply;
      var journal;
      r, journal := Publishing.Publish(db, user, id, env);
      Record(PublishCall(user, id, env));
    }

    method Delete(user: User, id: Id, env: DeleteEnv) returns (ok: bool)
      requires Valid()
      modifies this`state, db`rows
      ensures Valid() && state == Apply(old(state), DeleteCall(user, id, env))
    {
      hide Sound, Agrees, InOrder, DeleteRows, DeleteJournal, Apply;
      var journal;
      ok, journal := Publishing.DeleteDataset(db, user.uid, id, env);
      Record(DeleteCall(user, id, env));
    }

    /** One batch of a sync; the index may come from any listing of the user's rows. */
    method Sync(run: BatchRun) returns (f: Finish, ghost q: Request)
      requires Valid() && IsTrace(run.events)
      requires forall ctx | IndexOf(ctx, state.rows, run.env.uid) :: Plausible(state, BatchCall(run, ctx))
      modifies this`state, db
      ensures Valid() && state == Apply(old(state), q) && Plausible(old(state), q) && q == BatchCall(run, f.ctx)
      ensures f.counters.read == |run.events| - 1 && Balanced(f.counters)
    {
      hide Sound, Agrees, InOrder, Plausible, Apply, Steps, Statuses, CountersOf, Balanced, RecordsOf, BuildContext;
      f := SyncBatch(db, run);
      assert IndexOf(f.ctx, state.rows, run.env.uid);
      q := BatchCall(run, f.ctx);
      Record(q);
    }

    /** Fetching one dataset is a batch of one record. */
    method Fetch(env: Env, inc: Incoming, listFault: bool, stamp: Instant, commitFault: bool)
      returns (id: Option<Id>, committed: bool, ghost q: Request)
      requires Valid()
      requires forall ctx, closed | IndexOf(ctx, state.rows, env.uid) :: Plausible(state, SyncCall(env, ctx, [inc], closed))
      modifies this`state, db
      ensures Valid() && state == Apply(old(state), q) && Plausible(old(state), q)
      ensures q.SyncCall? && q == SyncCall(env, q.ctx, [inc], committed)
    {
      hide Sound, Agrees, InOrder, Plausible, Apply, Step, StepStatus, Decide, RowOf, BuildContext;
      var ctx;
      id, committed, ctx := FetchDataset(db, env, Some(inc), listFault, stamp, commitFault);
      assert IndexOf(ctx, state.rows, env.uid);
      q := SyncCall(env, ctx, [inc], committed);
      BatchOfOne(env, ctx, Batch(state.rows, false), inc);
      Record(q);
    }
  }

  lemma BatchOfOne(env: Env, ctx: Context, b: Batch, inc: Incoming)
    ensures Steps(env, ctx, b, [inc]) == Step(env, ctx, b, inc)
  {
    hide Step;
    assert [inc][..0] == [];
    assert Steps(env, ctx, b, []) == b;
  }

  /** The request a batch amounts to. */
  function BatchCall(run: BatchRun, ctx: Context): Request
    requires IsTrace(run.events)
  {
    SyncCall(run.env, ctx, run.Records(), run.End().Closed? && !run.commitFault)
  }
}
