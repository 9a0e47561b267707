/** A few Metax records, and what a sync does with them. */
module SampleRecords {
  import opened Options
  import opened Json
  import opened Calendar
  import opened TimeFilters
  import opened Datasets
  import opened Updates
  import opened Creation
  import opened Store
  import opened Sync
  import opened SyncMerge
  import opened SyncWithoutIndex
  import opened SyncReadings
  import opened SyncSafety
  import opened Records

  function InIda(): Member { Member(CATALOG, Obj([Member(IDENTIFIER, Str(CATALOG_IDA))])) }

  const MODIFIED := "date_modified"

  /** A record that names its catalog and nothing else. */
  function Bare(): Json { Obj([InIda()]) }

  function NewYear(): Stamp { Stamp(Second, 2019, 1, 1, 0, 0, 0) }

  /** A record that carries the link to a row, modified at the beginning of 2019; Metax says of every record whether it is removed. */
  function Linking(id: Id, removed: bool): Json {
    Obj([InIda(), Member(EDITOR, EditorJson(id)), Member(MODIFIED, Str(Render(NewYear(), Second) + Utc.Render())),
         Member("removed", Bool(removed))])
  }

  // ---------- reading them ----------

  lemma MemberOf(ms: seq<Member>, i: nat)
    requires DistinctKeys(ms) && i < |ms|
    ensures LastMember(ms, ms[i].key) == Some(ms[i].value)
  {
    DistinctMember(ms, i);
  }

  lemma CatalogField(raw: Json)
    requires raw.Obj? && LastMember(raw.members, CATALOG) == Some(InIda().value)
    ensures Field(raw, CATALOG) == Some(InIda().value) && StringOf(Field(InIda().value, IDENTIFIER)) == Some(CATALOG_IDA)
  {
    var ms := InIda().value.members;
    assert ms[1..] == [];
  }

  lemma BareFields(key: string)
    ensures Field(Bare(), key) == if key == CATALOG then Some(InIda().value) else None
  {
    assert Bare().members[1..] == [];
  }

  lemma KeysApart()
    ensures |CATALOG| == 12 && |EDITOR| == 6 && |MODIFIED| == 13 && |IDENTIFIER| == 10 && |"removed"| == 7 && |"id"| == 2
    ensures |"metadata_provider_user"| == 22 && |"date_created"| == 12 && CATALOG != "date_created"
  {
    assert CATALOG[3] == 'a' && "date_created"[3] == 'e';
  }

  lemma BareIsTyped()
    ensures RecordTyped(Bare()) && HasCatalog(Bare())
    ensures Datasets.Record(Bare()) == MetaxRecord(Some(CATALOG_IDA), false, None, None)
  {
    KeysApart();
    BareFields(CATALOG);
    CatalogField(Bare());
    BareFields("id");
    BareFields(IDENTIFIER);
    BareFields("metadata_provider_user");
    BareFields("removed");
    BareFields("date_created");
    BareFields(MODIFIED);
    BareFields(EDITOR);
  }

  /** So without an index every sync of it makes a new row. */
  lemma BareMakesRow()
    ensures HasCatalog(Bare()) && MakesRow(Bare())
  {
    BareIsTyped();
  }

  lemma LinkingKeys(id: Id, removed: bool)
    ensures var ms := Linking(id, removed).members;
            && DistinctKeys(ms) && Keys(ms) == {CATALOG, EDITOR, MODIFIED, "removed"}
            && LastMember(ms, CATALOG) == Some(InIda().value) && LastMember(ms, EDITOR) == Some(EditorJson(id))
            && LastMember(ms, MODIFIED) == Some(ms[2].value) && LastMember(ms, "removed") == Some(Bool(removed))
  {
    hide EditorJson, Render;
    KeysApart();
    var ms := Linking(id, removed).members;
    assert ms[0].key == CATALOG && ms[1].key == EDITOR && ms[2].key == MODIFIED && ms[3].key == "removed";
    MemberOf(ms, 0);
    MemberOf(ms, 1);
    MemberOf(ms, 2);
    MemberOf(ms, 3);
  }

  lemma LinkingFields(id: Id, removed: bool, key: string)
    ensures key == EDITOR ==> Field(Linking(id, removed), key) == Some(EditorJson(id))
    ensures key == CATALOG ==> Field(Linking(id, removed), key) == Some(InIda().value)
    ensures key == MODIFIED ==> Field(Linking(id, removed), key) == Some(Str(Render(NewYear(), Second) + Utc.Render()))
    ensures key == "removed" ==> Field(Linking(id, removed), key) == Some(Bool(removed))
    ensures key != EDITOR && key != CATALOG && key != MODIFIED && key != "removed" ==> Field(Linking(id, removed), key) == None
  {
    hide Render;
    LinkingKeys(id, removed);
  }

  lemma EditorFields(id: Id, key: string)
    ensures key == IDENTIFIER ==> Field(EditorJson(id), key) == Some(Str(APP_IDENT))
    ensures key == "record_id" ==> Field(EditorJson(id), key) == Some(Str(UuidText(id)))
    ensures key != IDENTIFIER && key != "record_id" ==> Field(EditorJson(id), key) == None
  {
    hide UuidText;
    var ms := EditorJson(id).members;
    assert |IDENTIFIER| == 10 && |"record_id"| == 9;
    MemberOf(ms, 0);
    MemberOf(ms, 1);
  }

  lemma EditorIsTyped(id: Id)
    ensures EditorTyped(Some(EditorJson(id)))
  {
    hide UuidText;
    EditorFields(id, IDENTIFIER);
    EditorFields(id, "record_id");
    EditorFields(id, "creator_id");
    EditorFields(id, "owner_id");
    EditorFields(id, "fd_id");
  }

  lemma NewYearRead()
    ensures ParseLayout(Second, true, 0, Render(NewYear(), Second) + Utc.Render()) == Some(Parsed(NewYear(), 0, 0))
  {
    OwnLayoutFits(NewYear(), Utc, 0);
  }

  lemma LinkingIsTyped(id: Id, removed: bool)
    ensures RecordTyped(Linking(id, removed)) && HasCatalog(Linking(id, removed))
    ensures Datasets.Record(Linking(id, removed)).catalog == Some(CATALOG_IDA)
    ensures Datasets.Record(Linking(id, removed)).removed <==> removed
  {
    hide Render, ParseLayout, EditorTyped, EditorJson;
    KeysApart();
    LinkingFields(id, removed, CATALOG);
    CatalogField(Linking(id, removed)) by { LinkingKeys(id, removed); }
    LinkingFields(id, removed, "id");
    LinkingFields(id, removed, IDENTIFIER);
    LinkingFields(id, removed, "metadata_provider_user");
    LinkingFields(id, removed, "removed");
    LinkingFields(id, removed, "date_created");
    LinkingFields(id, removed, MODIFIED);
    LinkingFields(id, removed, EDITOR);
    EditorIsTyped(id);
    NewYearRead();
  }

  lemma {:induction false} Pow16Grows(k: nat)
    ensures Pow16(k) > k
  {
    if k > 0 { Pow16Grows(k - 1); }
  }

  lemma LinkingConverts(id: Id, removed: bool, now: Instant)
    requires id < Pow16(32)
    ensures HasCatalog(Linking(id, removed)) && ToQvain(Linking(id, removed), now).Ok?
    ensures var d := ToQvain(Linking(id, removed), now).value; !d.isNew && d.id == id && (d.removed <==> removed)
  {
    hide Render, QvainId, EditorJson;
    LinkingIsTyped(id, removed);
    LinkingKeys(id, removed);
    LinkRoundTrip(Linking(id, removed), id, now);
  }

  /** The record is live and linked to the row. */
  lemma LinkingWrites(id: Id)
    requires id < Pow16(32)
    ensures HasCatalog(Linking(id, false)) && WritesTo(Linking(id, false), id)
  {
    hide Linking, ToQvain;
    LinkingConverts(id, false, 0);
  }

  lemma LookupOne(j: Json, key: string)
    requires j.Obj? && DistinctKeys(j.members)
    ensures Lookup(j, [key]) == LastMember(j.members, key)
  {
    LookupDistinct(j.members, [key]);
    assert [key][1..] == [];
  }

  lemma LinkingDateAt(id: Id, removed: bool, key: string)
    ensures key == MODIFIED ==> DateAt(Linking(id, removed), key) == Start(NewYear(), 0)
    ensures key != CATALOG && key != EDITOR && key != MODIFIED && key != "removed" ==> DateAt(Linking(id, removed), key) == 0
  {
    hide Render, ParseLayout, EditorJson, InIda;
    LinkingKeys(id, removed);
    LookupOne(Linking(id, removed), key);
    if key == MODIFIED { NewYearRead(); }
    EmptyIsNoDate();
  }

  lemma NewYearStarts()
    ensures Start(NewYear(), 0) > 0
  {
    assert Date(2019, 1, 1) == DaysBeforeYear(2019);
  }

  lemma DateKeysApart()
    ensures forall k <- DATE_KEYS :: k != CATALOG && k != EDITOR && k != "removed"
    ensures MODIFIED in DATE_KEYS
  {
    assert DATE_KEYS[1] == MODIFIED;
    forall i | 0 <= i < 4 ensures DATE_KEYS[i][3] == 'e' && |DATE_KEYS[i]| > 7 {
    }
    assert CATALOG[3] == 'a' && |EDITOR| == 6 && |"removed"| == 7;
  }

  /** ... and its date is the beginning of 2019. */
  lemma LinkingDate(id: Id, removed: bool)
    ensures ModificationDate(Linking(id, removed)) == Start(NewYear(), 0) > 0
  {
    hide DateAt, Linking, Start, MaxDate;
    var d := ModificationDate(Linking(id, removed));
    NewYearStarts();
    DateKeysApart();
    LinkingDateAt(id, removed, MODIFIED);
    assert DateAt(Linking(id, removed), MODIFIED) <= d;
    var k :| k in DATE_KEYS && DateAt(Linking(id, removed), k) == d;
    LinkingDateAt(id, removed, k);
  }

  // ---------- a batch of one ----------

  /** A row of user 2, synced in 2019. */
  function ForeignRow(): Row {
    Row(2, 2, 0, 0, Some(Start(NewYear(), 0)), 0, true, true, METAX_FAMILY, IDA, Obj([]))
  }

  /**
   A sync of user 1 whose stream holds the record linked to row 7 overwrites that row
   of user 2, although the record is no newer than the row's recorded sync.
   */
  lemma ForeignRowIsOverwritten(env: Env)
    requires env.uid == 1
    ensures HasCatalog(Linking(7, false)) && NotNewer(Linking(7, false), ForeignRow())
    ensures var rows, inc := map[7 := ForeignRow()], Incoming(Linking(7, false), 0, None, false);
            && ListsOwned([], rows, 1)
            && Step(env, BuildContext(rows, []), Batch(rows, false), inc)
               == Batch(map[7 := OverwrittenRow(ForeignRow(), env.now, Linking(7, false))], false)
            && Jsonb(Linking(7, false)) != ForeignRow().blob
  {
    hide Linking, Start, Step, ModificationDate, WritesTo, BuildContext, Jsonb;
    Pow16Grows(32);
    LinkingWrites(7);
    LinkingDate(7, false);
    var rows := map[7 := ForeignRow()];
    OlderOverwritesForeign(env, [], rows, Incoming(Linking(7, false), 0, None, false), 7);
    assert rows[7 := OverwrittenRow(rows[7], env.now, Linking(7, false))] == map[7 := OverwrittenRow(ForeignRow(), env.now, Linking(7, false))];
    LinkingNotEmpty();
  }

  /** A row of user 1, synced once. */
  function OwnRow(synced: Instant): Row {
    Row(1, 1, 0, 0, Some(synced), 0, true, true, METAX_FAMILY, IDA, Obj([]))
  }

  /**
   User 1 syncs the record linked to their row 7.  If it says `"removed": true` the row
   is removed; if it says `"removed": false` the row is refreshed or overwritten,
   depending on whether it was synced since the record's date.
   */
  lemma RemovedMemberDecides(env: Env, synced: Instant)
    requires env.uid == 1 && synced != 0
    ensures HasCatalog(Linking(7, true)) && HasCatalog(Linking(7, false))
    ensures var rows := map[7 := OwnRow(synced)];
            var ctx := BuildContext(rows, [7]);
            && ListsOwned([7], rows, 1)
            && Decide(env, ctx, Incoming(Linking(7, true), 0, None, false)) == Remove(7)
            && Decide(env, ctx, Incoming(Linking(7, false), 0, None, false))
               == if Start(NewYear(), 0) <= synced then Refresh(7) else Overwrite(7, Linking(7, false))
  {
    hide Linking, Start, ToQvain, ModificationDate, BuildContext, Decide, LastMember;
    var rows := map[7 := OwnRow(synced)];
    var ctx := BuildContext(rows, [7]);
    SevenIsListed(synced);
    Pow16Grows(32);
    LinkingDenotes(ctx, 7, true);
    LinkingDenotes(ctx, 7, false);
    LinkingDate(7, false);
    DenotedPlan(env, ctx, Incoming(Linking(7, true), 0, None, false), 7);
    DenotedPlan(env, ctx, Incoming(Linking(7, false), 0, None, false), 7);
  }

  lemma SevenIsListed(synced: Instant)
    ensures var rows := map[7 := OwnRow(synced)];
            ListsOwned([7], rows, 1) && 7 in BuildContext(rows, [7]).times && BuildContext(rows, [7]).times[7] == synced
  {
    hide BuildContext, GetIdentifier;
    var rows := map[7 := OwnRow(synced)];
    ContextDescribes(rows, [7], 1);
    assert IsOwned(rows, 1, 7);
  }

  lemma LinkingDenotes(ctx: Context, id: Id, removed: bool)
    requires id < Pow16(32)
    ensures HasCatalog(Linking(id, removed)) && ToQvain(Linking(id, removed), 0).Ok? && Denotes(ctx, Linking(id, removed), id)
    ensures Linking(id, removed).Obj? && LastMember(Linking(id, removed).members, "removed") == Some(Bool(removed))
  {
    hide ToQvain, LinkedTo, Render, EditorJson, HasLink;
    LinkingConverts(id, removed, 0);
    LinkingKeys(id, removed);
    ConvertedReads(Linking(id, removed), 0);
  }

  lemma LinkingNotEmpty()
    ensures Jsonb(Linking(7, false)) != Obj([])
  {
    hide EditorJson, Render, InIda;
    LinkingKeys(7, false);
    var ms := Linking(7, false).members;
    assert Keys(JsonbMembers(ms)) == Keys(ms) && CATALOG in Keys(ms);
    assert CATALOG !in Keys([]);
  }
}
