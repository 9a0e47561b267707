/**
 What the conversion reads out of a Metax record, key by key.  The wire names are
 spelt out here, and a repeated key counts with its last member.
 */
module Records {
  import opened Options
  import opened Json
  import opened Calendar
  import opened TimeFilters
  import opened Datasets

  /** The text a key of an object holds last. */
  function LastText(j: Json, key: string): Option<string> {
    if !j.Obj? then None
    else
      match LastMember(j.members, key)
      case Some(Str(s)) => Some(s)
      case _ => None
  }

  /** The object a key of an object holds last; anything else reads as an object without members. */
  function LastObject(j: Json, key: string): Json {
    if !j.Obj? then Obj([])
    else
      match LastMember(j.members, key)
      case Some(Obj(ms)) => Obj(ms)
      case _ => Obj([])
  }

  predicate SaysRemoved(raw: Json) { raw.Obj? && LastMember(raw.members, "removed") == Some(Bool(true)) }

  /** The record carries a Qvain link, whatever it says. */
  predicate HasLink(raw: Json) {
    var editor := LastObject(raw, "editor");
    LastText(editor, "identifier") == Some("qvain") && LastText(editor, "record_id").Some?
  }

  /** The record is linked to the row. */
  predicate LinkedTo(raw: Json, id: Id) {
    HasLink(raw) && ParseUuid(LastText(LastObject(raw, "editor"), "record_id").value) == Some(id)
  }

  function CatalogOf(raw: Json): Option<string> { LastText(LastObject(raw, "data_catalog"), "identifier") }

  /** The catalogs the service knows; the preservation catalog shares the schema of IDA. */
  predicate SchemaOf(catalog: Option<string>, schema: string) {
    || (catalog == Some("urn:nbn:fi:att:data-catalog-ida") && schema == "metax-ida")
    || (catalog == Some("urn:nbn:fi:att:data-catalog-pas") && schema == "metax-ida")
    || (catalog == Some("urn:nbn:fi:att:data-catalog-att") && schema == "metax-att")
  }

  lemma FieldIsLast(j: Json, key: string)
    ensures StringOf(Field(j, key)) == LastText(j, key)
    ensures Field(j, key).Some? && Field(j, key).value.Obj? ==> LastObject(j, key) == Field(j, key).value
    ensures Field(j, key).None? || !Field(j, key).value.Obj? ==> LastObject(j, key) == Obj([])
  {
  }

  lemma NothingIn(key: string)
    ensures LastText(Obj([]), key) == None
  {
  }

  lemma RecordReads(raw: Json)
    requires RecordTyped(raw)
    ensures var record := Record(raw);
            && record.catalog == CatalogOf(raw)
            && (record.removed <==> SaysRemoved(raw))
            && (HasLink(raw) <==> record.editor.Some? && record.editor.value.identifier == Some("qvain") && record.editor.value.recordId.Some?)
            && (HasLink(raw) ==> record.editor.value.recordId == LastText(LastObject(raw, "editor"), "record_id"))
            && record.created == (if LastText(raw, "date_created").Some? then Some(ParseRfc3339(LastText(raw, "date_created").value)) else None)
  {
    hide ParseRfc3339, ParseLayout, Field, LastText, LastObject;
    FieldIsLast(raw, "data_catalog");
    FieldIsLast(raw, "editor");
    FieldIsLast(raw, "date_created");
    FieldIsLast(LastObject(raw, "data_catalog"), "identifier");
    FieldIsLast(LastObject(raw, "editor"), "identifier");
    FieldIsLast(LastObject(raw, "editor"), "record_id");
    NothingIn("identifier");
    NothingIn("record_id");
    RemovedReads(raw);
  }

  lemma RemovedReads(raw: Json)
    ensures Field(raw, "removed") == Some(Bool(true)) <==> SaysRemoved(raw)
  {
  }

  lemma SchemaReads(catalog: string, schema: string)
    ensures CatalogSchema(catalog) == Some(schema) <==> SchemaOf(Some(catalog), schema)
  {
    assert CATALOG_IDA[28] == 'i' && CATALOG_ATT[28] == 'a' && CATALOG_PAS[28] == 'p';
  }

  /** The value a key holds last is missing, null, or of a kind. */
  predicate TextOrNothing(j: Json, key: string) {
    j.Obj? ==> var m := LastMember(j.members, key); m.None? || m.value.Null? || m.value.Str?
  }

  predicate DateOrNothing(j: Json, key: string) {
    TextOrNothing(j, key) && (LastText(j, key).Some? ==> ParseLayout(Second, true, 0, LastText(j, key).value).Some?)
  }

  predicate ObjectOrNothing(j: Json, key: string) {
    j.Obj? ==> var m := LastMember(j.members, key); m.None? || m.value.Null? || m.value.Obj?
  }

  /** The members of a record have the types the decoder asks for; null is as good as nothing. */
  predicate WellTyped(raw: Json) {
    && (raw.Obj? || raw.Null?)
    && (raw.Obj? ==> var m := LastMember(raw.members, "id"); m.None? || m.value.Null? || m.value.Num?)
    && (raw.Obj? ==> var m := LastMember(raw.members, "removed"); m.None? || m.value.Null? || m.value.Bool?)
    && TextOrNothing(raw, "identifier") && TextOrNothing(raw, "metadata_provider_user")
    && DateOrNothing(raw, "date_created") && DateOrNothing(raw, "date_modified")
    && ObjectOrNothing(raw, "data_catalog") && TextOrNothing(LastObject(raw, "data_catalog"), "identifier")
    && ObjectOrNothing(raw, "editor")
    && TextOrNothing(LastObject(raw, "editor"), "identifier") && TextOrNothing(LastObject(raw, "editor"), "record_id")
    && TextOrNothing(LastObject(raw, "editor"), "creator_id") && TextOrNothing(LastObject(raw, "editor"), "owner_id")
    && TextOrNothing(LastObject(raw, "editor"), "fd_id")
  }

  lemma FieldTypes(j: Json, key: string)
    ensures StringOrAbsent(Field(j, key)) <==> TextOrNothing(j, key)
    ensures DateOrAbsent(Field(j, key)) <==> DateOrNothing(j, key)
    ensures (Field(j, key).None? || Field(j, key).value.Obj?) <==> ObjectOrNothing(j, key)
  {
    hide ParseLayout;
  }

  lemma NoTypesIn(key: string)
    ensures TextOrNothing(Obj([]), key)
  {
  }

  lemma EditorTypes(raw: Json)
    ensures EditorTyped(Field(raw, "editor")) <==>
              && ObjectOrNothing(raw, "editor")
              && TextOrNothing(LastObject(raw, "editor"), "identifier") && TextOrNothing(LastObject(raw, "editor"), "record_id")
              && TextOrNothing(LastObject(raw, "editor"), "creator_id") && TextOrNothing(LastObject(raw, "editor"), "owner_id")
              && TextOrNothing(LastObject(raw, "editor"), "fd_id")
  {
    hide Field, LastObject, StringOrAbsent, TextOrNothing, ObjectOrNothing;
    var editor := LastObject(raw, "editor");
    FieldIsLast(raw, "editor");
    FieldTypes(raw, "editor");
    FieldTypes(editor, "identifier");
    FieldTypes(editor, "record_id");
    FieldTypes(editor, "creator_id");
    FieldTypes(editor, "owner_id");
    FieldTypes(editor, "fd_id");
    NoTypesIn("identifier");
    NoTypesIn("record_id");
    NoTypesIn("creator_id");
    NoTypesIn("owner_id");
    NoTypesIn("fd_id");
  }

  lemma CatalogTypes(raw: Json)
    ensures (Field(raw, CATALOG).None? || (Field(raw, CATALOG).value.Obj? && StringOrAbsent(Field(Field(raw, CATALOG).value, IDENTIFIER)))) <==>
              ObjectOrNothing(raw, "data_catalog") && TextOrNothing(LastObject(raw, "data_catalog"), "identifier")
  {
    hide Field, LastObject, StringOrAbsent, TextOrNothing, ObjectOrNothing;
    FieldIsLast(raw, "data_catalog");
    FieldTypes(raw, "data_catalog");
    FieldTypes(LastObject(raw, "data_catalog"), "identifier");
    NoTypesIn("identifier");
  }

  lemma ScalarTypes(raw: Json)
    ensures (Field(raw, "id").None? || Field(raw, "id").value.Num?) <==>
              (raw.Obj? ==> var m := LastMember(raw.members, "id"); m.None? || m.value.Null? || m.value.Num?)
    ensures (Field(raw, "removed").None? || Field(raw, "removed").value.Bool?) <==>
              (raw.Obj? ==> var m := LastMember(raw.members, "removed"); m.None? || m.value.Null? || m.value.Bool?)
  {
  }

  lemma TypedIff(raw: Json)
    ensures RecordTyped(raw) <==> WellTyped(raw)
  {
    hide Field, LastMember, LastObject, StringOrAbsent, DateOrAbsent, EditorTyped, TextOrNothing, DateOrNothing, ObjectOrNothing;
    ScalarTypes(raw);
    CatalogTypes(raw);
    EditorTypes(raw);
    FieldTypes(raw, "identifier");
    FieldTypes(raw, "metadata_provider_user");
    FieldTypes(raw, "date_created");
    FieldTypes(raw, "date_modified");
  }

  /**
   A record of the right types converts if and only if its catalog is a known one and
   its link, if it has one, names an id.
   */
  lemma ConvertsIff(raw: Json, now: Instant)
    requires HasCatalog(raw)
    ensures ToQvain(raw, now).Ok? <==>
              WellTyped(raw) && (exists schema :: SchemaOf(CatalogOf(raw), schema)) && (HasLink(raw) ==> exists id :: LinkedTo(raw, id))
  {
    hide Datasets.Record, RecordTyped, WellTyped, ParseUuid, CatalogSchema, LastText, LastObject, SchemaOf;
    TypedIff(raw);
    if RecordTyped(raw) {
      RecordReads(raw);
      var catalog := Datasets.Record(raw).catalog.value;
      forall schema ensures CatalogSchema(catalog) == Some(schema) <==> SchemaOf(Some(catalog), schema) { SchemaReads(catalog, schema); }
      if CatalogSchema(catalog).Some? { assert SchemaOf(CatalogOf(raw), CatalogSchema(catalog).value); }
      if HasLink(raw) { LinkParses(raw); }
    }
  }

  lemma LinkParses(raw: Json)
    requires HasLink(raw)
    ensures (exists id :: LinkedTo(raw, id)) <==> ParseUuid(LastText(LastObject(raw, "editor"), "record_id").value).Some?
  {
    hide ParseUuid, LastText, LastObject;
    var id := ParseUuid(LastText(LastObject(raw, "editor"), "record_id").value);
    if id.Some? { assert LinkedTo(raw, id.value); }
  }

  /**
   What a record that converts becomes: whether it is removed, the row it is linked to
   or else that it is new, its schema, the time it was created, and itself as document.
   */
  lemma ConvertedReads(raw: Json, now: Instant)
    requires HasCatalog(raw) && ToQvain(raw, now).Ok?
    ensures var d := ToQvain(raw, now).value;
            && d.blob == raw && (d.removed <==> SaysRemoved(raw))
            && (d.isNew <==> !HasLink(raw)) && (d.isNew ==> d.id == 0)
            && (forall id :: LinkedTo(raw, id) <==> !d.isNew && d.id == id)
            && SchemaOf(CatalogOf(raw), d.schema)
            && (d.isNew ==> d.created == if LastText(raw, "date_created").Some? then ParseRfc3339(LastText(raw, "date_created").value) else now)
  {
    hide Datasets.Record, RecordTyped, ParseUuid, CatalogSchema, LastText, LastObject, SchemaOf, ParseRfc3339;
    RecordReads(raw);
    SchemaReads(Datasets.Record(raw).catalog.value, ToQvain(raw, now).value.schema);
    if HasLink(raw) { LinkParses(raw); }
  }
}
