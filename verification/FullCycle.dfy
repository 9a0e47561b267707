/**
 One run from beginning to end: a draft is created, published and deleted.  The run is
 plausible, so the theorems about runs speak of something; and every state of it is
 computed.
 */
module FullCycle {
  import opened Options
  import opened Json
  import opened TimeFilters
  import opened Datasets
  import opened Store
  import opened Handlers
  import opened Publishing
  import opened Publications
  import opened Service
  import opened CreateRuns

  const ALICE := User(1, "alice", "csc")

  function CreateDraft(): Request {
    CreateCall(ALICE, CreateRequest(false, Some(2), Some("metax-ida"), Some(Obj([])), Absent), 7, 100, false)
  }

  /** Metax answers 201 with a document that names an identifier and no date. */
  function Answer(): Json { Obj([Member("identifier", Str("urn:a"))]) }

  function PublishDraft(): Request {
    PublishCall(ALICE, 7, PublishEnv(false, Reply(201, true, Some(Answer())), 200, false, NoAnswer, None, 0, false))
  }

  function DeletePublished(): Request {
    DeleteCall(ALICE, 7, DeleteEnv(false, false, Reply(204, false, None), false))
  }

  // ---------- the answer ----------

  lemma AnswerLookup(path: seq<string>)
    requires path != []
    ensures Lookup(Answer(), path) == if path == ["identifier"] then Some(Str("urn:a")) else None
  {
    var ms := Answer().members;
    assert ms[1..] == [] && LookupMember(ms[1..], path) == None;
    if path[0] == "identifier" {
      assert path == [path[0]] + path[1..];
      assert Lookup(ms[0].value, path[1..]) == if path[1..] == [] then Some(ms[0].value) else None;
    }
  }

  lemma AnswerIsStored()
    ensures Jsonb(Answer()) == Answer()
  {
    var ms := Answer().members;
    assert ms[1..] == [] && JsonbMembers(ms) == ms;
  }

  lemma AnswerIsUndated()
    ensures ModificationDate(Answer()) == 0
  {
    hide ParseRfc3339, MaxDate, Lookup;
    LatestDate(Answer());
    AnswerLookup(["date_created"]);
    AnswerLookup(["date_modified"]);
    AnswerLookup(["date_deprecated"]);
    AnswerLookup(["date_removed"]);
    EmptyIsNoDate();
  }

  // ---------- the run ----------

  /** The draft as the request leaves it; its document has no identifier yet. */
  predicate IsDraft(r: Row) {
    r == Row(1, 1, 100, 100, None, 0, false, false, 2, "metax-ida", r.blob) && r.blob.Obj? && Lookup(r.blob, ["identifier"]) == None
  }

  lemma DraftHasNoIdentifier(t: Template)
    requires t.editor.Some? && !t.cumulative.Malformed?
    ensures var stored := Jsonb(TemplateBlob(t).value); stored.Obj? && Lookup(stored, ["identifier"]) == None
  {
    var doc := TemplateBlob(t).value;
    Creation.TemplateKeys(t);
    LookupJsonb(doc, ["identifier"]);
  }

  lemma Created()
    ensures var rows := NextRows(Initial(), CreateDraft()); rows.Keys == {7} && IsDraft(rows[7])
  {
    hide Jsonb, Lookup, TemplateBlob, CreateRows, CreateDoc, FilledTemplate, FreshTemplates, LastGiven;
    var req := CreateDraft().create;
    RequestsSoFar(req.schema.value);
    NothingSet();
    CreatedIff([], ALICE, req, 7, 100, false);
    NewRowDiffers(map[], FreshTemplates(), ALICE, req, 7, 100, false);
    DraftIsFilled(req);
    RowIsDoc(req);
  }

  lemma RequestsSoFar(schema: string)
    ensures RunFrom(Initial(), []) == Initial() && LastGiven([], schema) == Absent
  {
  }

  lemma DraftIsFilled(req: CreateRequest)
    requires req == CreateDraft().create && CreateDoc(FreshTemplates(), 7, ALICE, req).Ok?
    ensures var stored := Jsonb(CreateDoc(FreshTemplates(), 7, ALICE, req).value); stored.Obj? && Lookup(stored, ["identifier"]) == None
  {
    hide Jsonb, Lookup, TemplateBlob, CreateDoc;
    DocIsFilled(FreshTemplates(), 7, ALICE, req);
    DraftHasNoIdentifier(FilledTemplate(FreshTemplates(), 7, ALICE, req));
  }

  lemma NothingSet()
    ensures forall name :: Lookup(Obj([]), [name]) == None
  {
  }

  lemma RowIsDoc(req: CreateRequest)
    requires req == CreateDraft().create && CreateDoc(FreshTemplates(), 7, ALICE, req).Ok?
    ensures CreateRows(map[], FreshTemplates(), ALICE, req, 7, 100, false)
         == map[7 := Row(1, 1, 100, 100, None, 0, false, false, 2, "metax-ida", Jsonb(CreateDoc(FreshTemplates(), 7, ALICE, req).value))]
  {
    hide CreateDoc, Jsonb;
  }

  /** The row after Metax took the draft. */
  predicate IsPublished(r: Row) {
    r == Row(1, 1, 100, 100, Some(200), 1, true, false, 2, "metax-ida", Answer())
  }

  lemma Published(rows: Rows)
    requires rows.Keys == {7} && IsDraft(rows[7])
    ensures var env := PublishDraft().publish;
            && PublishRows(rows, ALICE, 7, env).Keys == {7} && IsPublished(PublishRows(rows, ALICE, 7, env)[7])
            && PublishJournal(rows, ALICE, 7, env) == [Post(7, 2, Outgoing(rows[7], ALICE), true), MarkedPublished(7)]
  {
    hide Jsonb, Lookup, ModificationDate, Answer, SetMember;
    var env := PublishDraft().publish;
    AnswerLookup(["identifier"]);
    AnswerLookup(["new_version_created", "identifier"]);
    AnswerIsStored();
    AnswerIsUndated();
    PublishWorksIff(rows, ALICE, 7, env);
    PublishChangesAfterAccept(rows, ALICE, 7, env);
    StoreGoesToIdentifier(7, rows[7], ALICE, true);
  }

  lemma Deleted(rows: Rows)
    requires rows.Keys == {7} && IsPublished(rows[7])
    ensures var env := DeletePublished().delete;
            && DeleteRows(rows, 1, 7, env) == map[]
            && DeleteJournal(rows, 1, 7, env) == [Unpublish(7, 2, "urn:a", true), Dropped(7, true)]
  {
    hide Lookup, Answer;
    AnswerLookup(["identifier"]);
  }

  lemma OneStep(s: State, q: Request)
    ensures Apply(s, q).rows == NextRows(s, q) && Apply(s, q).journal == s.journal + NewEntries(s, q) && Apply(s, q).used == s.used + Taken(q)
  {
    hide NextRows, NewEntries, Taken, Wrote, Careless, TemplatesAfter;
  }

  lemma AnswerIsNamed()
    ensures Named(Answer())
  {
    hide Lookup;
    AnswerIsStored();
    AnswerLookup(["identifier"]);
  }

  lemma RunsFrom(a: Request, b: Request, c: Request)
    ensures var qs := [a, b, c];
            && RunFrom(Initial(), qs[..0]) == Initial()
            && RunFrom(Initial(), qs[..1]) == Apply(Initial(), a)
            && RunFrom(Initial(), qs[..2]) == Apply(Apply(Initial(), a), b)
            && RunFrom(Initial(), qs) == Apply(Apply(Apply(Initial(), a), b), c)
  {
    hide Apply;
    var qs := [a, b, c];
    assert qs[..1][..0] == [] && qs[..2][..1] == qs[..1] && qs[..3][..2] == qs[..2] && qs[..3] == qs;
  }

  /**
   The run is plausible.  After two requests the row holds Metax's answer and is
   published; after three the table is empty again, and the journal tells the story.
   */
  lemma CycleRuns()
    ensures var qs := [CreateDraft(), PublishDraft(), DeletePublished()];
            && PlausibleRun(Initial(), qs)
            && RunFrom(Initial(), qs[..2]).rows == map[7 := Row(1, 1, 100, 100, Some(200), 1, true, false, 2, "metax-ida", Answer())]
            && RunFrom(Initial(), qs).rows == map[]
            && exists doc :: RunFrom(Initial(), qs).journal
                  == [Post(7, 2, doc, true), MarkedPublished(7), Unpublish(7, 2, "urn:a", true), Dropped(7, true)]
  {
    hide Apply, NextRows, NewEntries, Answer, PublishRows, PublishJournal, DeleteRows, DeleteJournal, CreateRows, Named, RunFrom;
    var a, b, c := CreateDraft(), PublishDraft(), DeletePublished();
    RunsFrom(a, b, c);
    var s1 := Apply(Initial(), a);
    var s2 := Apply(s1, b);
    OneStep(Initial(), a);
    OneStep(s1, b);
    OneStep(s2, c);
    Created();
    StepsAre(s1, s2);
    Published(s1.rows);
    Deleted(s2.rows);
    assert s2.rows == map[7 := s2.rows[7]];
    AnswerIsNamed();
    var qs := [a, b, c];
    var doc := Outgoing(s1.rows[7], ALICE);
    assert NewEntries(Initial(), a) == [] by { NoEntries(); }
    assert Apply(s2, c).journal == [Post(7, 2, doc, true), MarkedPublished(7), Unpublish(7, 2, "urn:a", true), Dropped(7, true)];
    forall i | 0 <= i < 3 ensures Plausible(RunFrom(Initial(), qs[..i]), qs[i]) {
    }
  }

  lemma NoEntries()
    ensures NewEntries(Initial(), CreateDraft()) == []
  {
  }

  lemma StepsAre(s1: State, s2: State)
    ensures NextRows(s1, PublishDraft()) == PublishRows(s1.rows, ALICE, 7, PublishDraft().publish)
    ensures NewEntries(s1, PublishDraft()) == PublishJournal(s1.rows, ALICE, 7, PublishDraft().publish)
    ensures NextRows(s2, DeletePublished()) == DeleteRows(s2.rows, 1, 7, DeletePublished().delete)
    ensures NewEntries(s2, DeletePublished()) == DeleteJournal(s2.rows, 1, 7, DeletePublished().delete)
  {
    hide PublishRows, PublishJournal, DeleteRows, DeleteJournal;
  }
}
