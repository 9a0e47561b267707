/**
 Metax datasets: what the service reads out of a document, how it builds the
 documents and patches it stores, and the checks before a user's change is saved.
 */
module Datasets {
  import opened Options
  import opened Json
  import opened CanonicalJson
  import opened Calendar
  import opened TimeFilters

  // ---------- identifiers ----------

  /** A dataset or user id: the number behind a UUID. */
  type Id = nat

  const ZERO_ID: Id := 0

  function Pow16(k: nat): nat { if k == 0 then 1 else 16 * Pow16(k - 1) }

  function HexText(n: nat, digits: nat): string {
    if digits == 0 then "" else HexText(n / 16, digits - 1) + [HexDigit(n % 16)]
  }

  /** A UUID as the service writes it: 32 hexadecimal digits. */
  function UuidText(id: Id): string { HexText(id, 32) }

  function HexDigitValue(c: char): Option<nat> {
    if IsDigit(c) then Some(c as int - '0' as int)
    else if 'a' <= c <= 'f' then Some(c as int - 'a' as int + 10)
    else if 'A' <= c <= 'F' then Some(c as int - 'A' as int + 10)
    else None
  }

  function HexValue(s: string): Option<nat> {
    if s == "" then Some(0)
    else
      var high, low := HexValue(s[..|s| - 1]), HexDigitValue(s[|s| - 1]);
      if high.Some? && low.Some? then Some(16 * high.value + low.value) else None
  }

  /** uuid.FromString: 32 digits, with or without the four dashes. */
  function ParseUuid(s: string): Option<Id> {
    if |s| == 32 then HexValue(s)
    else if |s| == 36 && s[8] == '-' && s[13] == '-' && s[18] == '-' && s[23] == '-' then
      HexValue(s[..8] + s[9..13] + s[14..18] + s[19..23] + s[24..])
    else None
  }

  lemma {:induction false} HexTextValue(n: nat, digits: nat)
    requires n < Pow16(digits)
    ensures |HexText(n, digits)| == digits && HexValue(HexText(n, digits)) == Some(n)
    decreases digits
  {
    if digits > 0 {
      HexTextValue(n / 16, digits - 1);
      var s := HexText(n, digits);
      assert s[..|s| - 1] == HexText(n / 16, digits - 1) && s[|s| - 1] == HexDigit(n % 16);
    }
  }

  /** Reading a written UUID gives the id back. */
  lemma UuidRoundTrip(id: Id)
    requires id < Pow16(32)
    ensures ParseUuid(UuidText(id)) == Some(id)
  {
    HexTextValue(id, 32);
  }

  /** ... and so does reading it with the usual four dashes. */
  lemma DashedUuid(id: Id)
    requires id < Pow16(32)
    ensures |UuidText(id)| == 32
    ensures var s := UuidText(id);
            ParseUuid(s[..8] + "-" + s[8..12] + "-" + s[12..16] + "-" + s[16..20] + "-" + s[20..]) == Some(id)
  {
    hide HexValue, HexText, Pow16;
    HexTextValue(id, 32);
    var s := UuidText(id);
    var t := s[..8] + "-" + s[8..12] + "-" + s[12..16] + "-" + s[16..20] + "-" + s[20..];
    assert t[8] == '-' && t[13] == '-' && t[18] == '-' && t[23] == '-';
    assert t[..8] == s[..8] && t[9..13] == s[8..12] && t[14..18] == s[12..16] && t[19..23] == s[16..20] && t[24..] == s[20..];
    assert s[..8] + s[8..12] + s[12..16] + s[16..20] + s[20..] == s;
  }

  function UpperHex(c: char): char {
    if 'a' <= c <= 'f' then 'A' + (c - 'a') else c
  }

  function Uppercase(s: string): string { seq(|s|, i requires 0 <= i < |s| => UpperHex(s[i])) }

  lemma {:induction false} UppercaseValue(s: string)
    ensures HexValue(Uppercase(s)) == HexValue(s)
    decreases |s|
  {
    if s != "" {
      UppercaseValue(s[..|s| - 1]);
      assert Uppercase(s)[..|s| - 1] == Uppercase(s[..|s| - 1]);
    }
  }

  lemma UppercaseParts(s: string)
    requires |s| == 36
    ensures var u := Uppercase(s);
            u[..8] + u[9..13] + u[14..18] + u[19..23] + u[24..] == Uppercase(s[..8] + s[9..13] + s[14..18] + s[19..23] + s[24..])
  {
  }

  /** Upper and lower case read the same. */
  lemma UuidCaseIgnored(s: string)
    ensures ParseUuid(Uppercase(s)) == ParseUuid(s)
  {
    hide HexValue;
    UppercaseValue(s);
    if |s| == 36 {
      UppercaseParts(s);
      UppercaseValue(s[..8] + s[9..13] + s[14..18] + s[19..23] + s[24..]);
    }
  }

  // ---------- families, schemas, catalogs ----------

  const METAX_FAMILY := 2
  const APP_IDENT := "qvain"

  predicate KnownFamily(family: int) { 0 <= family <= 2 }

  const IDA := "metax-ida"
  const ATT := "metax-att"
  const CATALOG_IDA := "urn:nbn:fi:att:data-catalog-ida"
  const CATALOG_ATT := "urn:nbn:fi:att:data-catalog-att"
  const CATALOG_PAS := "urn:nbn:fi:att:data-catalog-pas"

  function CatalogSchema(catalog: string): Option<string> {
    if catalog == CATALOG_IDA then Some(IDA)
    else if catalog == CATALOG_ATT then Some(ATT)
    else if catalog == CATALOG_PAS then Some(IDA)
    else None
  }

  // ---------- what is read out of a document ----------

  const RESEARCH := "research_dataset"
  const EDITOR := "editor"
  const CUMULATIVE := "cumulative_state"
  const PRESERVATION := "preservation_state"
  const IDENTIFIER := "identifier"
  const CATALOG := "data_catalog"
  const NEXT_VERSION := "next_dataset_version"

  function GetIdentifier(blob: Json): string { Text(Lookup(blob, [IDENTIFIER])) }

  function MaybeNewVersionId(blob: Json): string { Text(Lookup(blob, ["new_version_created", IDENTIFIER])) }

  function DateAt(blob: Json, key: string): Instant { ParseRfc3339(Text(Lookup(blob, [key]))) }

  const DATE_KEYS := ["date_created", "date_modified", "date_deprecated", "date_removed"]

  function MaxDate(blob: Json, keys: seq<string>): (d: Instant)
    ensures d >= 0
    ensures forall k <- keys :: DateAt(blob, k) <= d
    ensures d == 0 || exists k <- keys :: DateAt(blob, k) == d
  {
    if keys == [] then 0
    else
      var d := MaxDate(blob, keys[..|keys| - 1]);
      var last := keys[|keys| - 1];
      assert forall k <- keys :: k in keys[..|keys| - 1] || k == last;
      assert last in keys && forall k <- keys[..|keys| - 1] :: k in keys;
      if DateAt(blob, last) > d then DateAt(blob, last) else d
  }

  /** The latest of the dates of a document, the zero time if it has none. */
  function ModificationDate(blob: Json): Instant { MaxDate(blob, DATE_KEYS) }

  /** No date of the document is later, and it is one of them or the zero time. */
  predicate IsLatest(blob: Json, date: Instant) {
    var created, modified := ParseRfc3339(Text(Lookup(blob, ["date_created"]))), ParseRfc3339(Text(Lookup(blob, ["date_modified"])));
    var deprecated, removed := ParseRfc3339(Text(Lookup(blob, ["date_deprecated"]))), ParseRfc3339(Text(Lookup(blob, ["date_removed"])));
    && created <= date && modified <= date && deprecated <= date && removed <= date
    && (date == 0 || date == created || date == modified || date == deprecated || date == removed)
  }

  lemma LatestDate(blob: Json)
    ensures ModificationDate(blob) >= 0 && IsLatest(blob, ModificationDate(blob))
  {
    hide ParseRfc3339, MaxDate, Lookup;
    var d, keys := ModificationDate(blob), DATE_KEYS;
    assert keys[0] in keys && keys[1] in keys && keys[2] in keys && keys[3] in keys;
    assert DateAt(blob, keys[0]) <= d && DateAt(blob, keys[1]) <= d && DateAt(blob, keys[2]) <= d && DateAt(blob, keys[3]) <= d;
    if d != 0 {
      var i :| 0 <= i < 4 && DateAt(blob, keys[i]) == d;
    }
  }

  method GetModificationDate(blob: Json) returns (date: Instant)
    ensures date == ModificationDate(blob)
    ensures date >= 0 && IsLatest(blob, date)
  {
    hide DateAt, IsLatest;
    date := 0;
    for i := 0 to |DATE_KEYS|
      invariant date == MaxDate(blob, DATE_KEYS[..i])
    {
      var d := DateAt(blob, DATE_KEYS[i]);
      if d > date {
        date := d;
      }
      assert DATE_KEYS[..i + 1][..i] == DATE_KEYS[..i];
    }
    assert DATE_KEYS[..|DATE_KEYS|] == DATE_KEYS;
    LatestDate(blob);
  }

  // ---------- a record of the Metax stream ----------

  datatype Editor = Editor(identifier: Option<string>, recordId: Option<string>)

  datatype MetaxRecord = MetaxRecord(catalog: Option<string>, removed: bool, created: Option<Instant>, editor: Option<Editor>)

  datatype RecordError = BadRecord | InvalidId | UnknownSchema

  /** A field of an object; null counts as absent. */
  function Field(j: Json, key: string): Option<Json> {
    if !j.Obj? then None
    else
      var m := LastMember(j.members, key);
      if m == Some(Null) then None else m
  }

  predicate StringOrAbsent(f: Option<Json>) { f.None? || f.value.Str? }

  predicate DateOrAbsent(f: Option<Json>) {
    f.None? || (f.value.Str? && ParseLayout(Second, true, 0, f.value.s).Some?)
  }

  function StringOf(f: Option<Json>): Option<string> {
    if f.Some? && f.value.Str? then Some(f.value.s) else None
  }

  predicate EditorTyped(f: Option<Json>) {
    f.None? || (f.value.Obj? && StringOrAbsent(Field(f.value, IDENTIFIER)) && StringOrAbsent(Field(f.value, "record_id"))
                && StringOrAbsent(Field(f.value, "creator_id")) && StringOrAbsent(Field(f.value, "owner_id")) && StringOrAbsent(Field(f.value, "fd_id")))
  }

  /** The typed decoding of a record succeeds. */
  predicate RecordTyped(raw: Json) {
    && (raw.Obj? || raw.Null?)
    && (Field(raw, "id").None? || Field(raw, "id").value.Num?)
    && StringOrAbsent(Field(raw, IDENTIFIER)) && StringOrAbsent(Field(raw, "metadata_provider_user"))
    && (Field(raw, CATALOG).None? || (Field(raw, CATALOG).value.Obj? && StringOrAbsent(Field(Field(raw, CATALOG).value, IDENTIFIER))))
    && (Field(raw, "removed").None? || Field(raw, "removed").value.Bool?)
    && DateOrAbsent(Field(raw, "date_created")) && DateOrAbsent(Field(raw, "date_modified"))
    && EditorTyped(Field(raw, EDITOR))
  }

  function Record(raw: Json): MetaxRecord
    requires RecordTyped(raw)
  {
    var catalog, editor, created := Field(raw, CATALOG), Field(raw, EDITOR), Field(raw, "date_created");
    MetaxRecord(
      if catalog.Some? then StringOf(Field(catalog.value, IDENTIFIER)) else None,
      Field(raw, "removed") == Some(Bool(true)),
      if created.Some? then Some(ParseRfc3339(created.value.s)) else None,
      if editor.Some? then Some(Editor(StringOf(Field(editor.value, IDENTIFIER)), StringOf(Field(editor.value, "record_id")))) else None)
  }

  /** The conversion dereferences the catalog identifier without a check. */
  predicate HasCatalog(raw: Json) { RecordTyped(raw) ==> Record(raw).catalog.Some? }

  /** The Qvain id a record is linked to; None when the record does not come from Qvain. */
  function QvainId(record: MetaxRecord): Result<Option<Id>, RecordError> {
    if record.editor.None? || record.editor.value.identifier != Some(APP_IDENT) || record.editor.value.recordId.None? then Ok(None)
    else
      var id := ParseUuid(record.editor.value.recordId.value);
      if id.None? then Err(InvalidId) else Ok(id)
  }

  datatype Dataset = Dataset(id: Id, isNew: bool, removed: bool, created: Instant, schema: string, blob: Json)

  function ToQvain(raw: Json, now: Instant): Result<Dataset, RecordError>
    requires HasCatalog(raw)
  {
    if !RecordTyped(raw) then Err(BadRecord)
    else
      var record := Record(raw);
      var qid := QvainId(record);
      if qid.Err? then Err(qid.error)
      else
        var isNew := qid.value.None?;
        var schema := CatalogSchema(record.catalog.value);
        if schema.None? then Err(UnknownSchema)
        else
          Ok(Dataset(if isNew then ZERO_ID else qid.value.value, isNew, record.removed,
                     if !isNew then 0 else if record.created.Some? then record.created.value else now,
                     schema.value, raw))
  }

  // ---------- documents the service builds ----------

  function EditorJson(id: Id): Json {
    Obj([Member(IDENTIFIER, Str(APP_IDENT)), Member("record_id", Str(UuidText(id)))])
  }

  /**
   Optional text that is embedded as raw JSON: absent, not JSON at all, or the
   JSON value it denotes.
   */
  datatype Embedded = Absent | Malformed | Given(j: Json)

  /** The template of a schema, as the calls so far have left it. */
  datatype Template = Template(catalog: string, org: string, user: string, research: Json, editor: Option<Json>, cumulative: Embedded)

  function FreshTemplates(): map<string, Template> {
    map[IDA := Template(CATALOG_IDA, "", "", Obj([]), None, Absent),
        ATT := Template(CATALOG_ATT, "", "", Obj([]), None, Absent)]
  }

  datatype Extra = Extra(identity: string, org: string, cumulative: Embedded)

  datatype DataError = NeedFamily | NeedSchema | UnknownTemplate | BadJson

  /** What one call writes into the shared template. */
  function Filled(t: Template, id: Id, blob: Json, extra: Extra): Template {
    t.(research := blob, editor := Some(EditorJson(id)),
       user := if extra.identity != "" then extra.identity else t.user,
       org := if extra.org != "" then extra.org else t.org,
       cumulative := if extra.cumulative != Absent then extra.cumulative else t.cumulative)
  }

  /** The document of a filled template, its keys in sorted order. */
  function TemplateBlob(t: Template): Result<Json, DataError> {
    if t.cumulative.Malformed? then Err(BadJson)
    else
      Ok(Obj((if t.cumulative.Given? then [Member(CUMULATIVE, t.cumulative.j)] else [])
             + [Member(CATALOG, Str(t.catalog))]
             + (if t.editor.Some? then [Member(EDITOR, t.editor.value)] else [])
             + [Member("metadata_provider_org", Str(t.org)), Member("metadata_provider_user", Str(t.user)), Member(RESEARCH, t.research)]))
  }

  function CreatedBlob(templates: map<string, Template>, id: Id, family: int, schema: string, blob: Json, extra: Extra): Result<Json, DataError> {
    if family == 0 then Err(NeedFamily)
    else if schema !in templates then Err(UnknownTemplate)
    else TemplateBlob(Filled(templates[schema], id, blob, extra))
  }

  function CreatedTemplates(templates: map<string, Template>, id: Id, family: int, schema: string, blob: Json, extra: Extra): map<string, Template> {
    if family == 0 || schema !in templates then templates
    else templates[schema := Filled(templates[schema], id, blob, extra)]
  }

  /** The package-level template store; every creation writes into it. */
  class TemplateStore {
    var parsed: map<string, Template>

    constructor ()
      ensures parsed == FreshTemplates()
    {
      parsed := FreshTemplates();
    }

    method CreateData(id: Id, family: int, schema: string, blob: Json, extra: Extra) returns (r: Result<Json, DataError>)
      modifies this
      ensures r == CreatedBlob(old(parsed), id, family, schema, blob, extra)
      ensures parsed == CreatedTemplates(old(parsed), id, family, schema, blob, extra)
    {
      if family == 0 {
        return Err(NeedFamily);
      }
      if schema !in parsed {
        return Err(UnknownTemplate);
      }
      var template := parsed[schema];
      template := template.(research := blob, editor := Some(EditorJson(id)));
      if extra.identity != "" {
        template := template.(user := extra.identity);
      }
      if extra.org != "" {
        template := template.(org := extra.org);
      }
      if extra.cumulative != Absent {
        template := template.(cumulative := extra.cumulative);
      }
      parsed := parsed[schema := template];
      r := TemplateBlob(template);
    }
  }

  /** The patch UpdateData builds. */
  function UpdatePatch(recordId: Id, dataset: Json, extid: string, cumulative: Option<Json>): Json {
    Obj([Member(RESEARCH, dataset), Member(EDITOR, EditorJson(recordId))]
        + (if extid != "" then [Member("metadata_provider_user", Str(extid))] else [])
        + (if cumulative.Some? then [Member(CUMULATIVE, cumulative.value)] else []))
  }

  // ---------- validation ----------

  datatype Stored = Stored(family: int, schema: string, published: bool, blob: Json)

  datatype ValidationError =
    | FamilyMismatch
    | SchemaMismatch
    | BadCumulativeState
    | PreservationLocked
    | ReadOnlyChanged(path: seq<string>)
    | ReadOnlySet(path: seq<string>)
    | FilesChanged
    | DirectoriesChanged

  /** validateCumulativeState on the raw text of the value. */
  predicate CumulativeStateOk(blob: Json, published: bool) {
    var v := Lookup(blob, [CUMULATIVE]);
    v.None? || (v.value.Num? && (v.value.n.text == "0" || v.value.n.text == "1" || (v.value.n.text == "2" && published)))
  }

  const READ_ONLY_NAMES := ["metadata_version_identifier", "preferred_identifier", "total_files_byte_size"]

  const COMMON_READ_ONLY: seq<seq<string>> :=
    [[RESEARCH, "metadata_version_identifier"], [RESEARCH, "preferred_identifier"], [RESEARCH, "total_files_byte_size"], [PRESERVATION]]

  function ReadOnlyPaths(published: bool): seq<seq<string>> {
    COMMON_READ_ONLY + if published then [[CUMULATIVE]] else []
  }

  /** Characters the marshaller of the patch writes as an escape, and the database does not. */
  predicate Rewritten(c: char) { c == '<' || c == '>' || c == '&' || c == '\U{2028}' || c == '\U{2029}' }

  /**
   The text of a value is the same in the stored document and in an indented patch:
   no character is rewritten, and no white space is put into a container.
   */
  predicate SpeltAlike(j: Json) {
    match j
    case Str(s) => forall c <- s :: !Rewritten(c)
    case Arr(items) => items == []
    case Obj(ms) => ms == []
    case _ => true
  }

  predicate SameText(a: Option<Json>, b: Option<Json>) { a == b && (a.Some? ==> SpeltAlike(a.value)) }

  /** A read-only field is untouched, as text; a top-level one may also be left out of the patch. */
  predicate ReadOnlyKept(stored: Json, updated: Json, path: seq<string>) {
    SameText(Lookup(stored, path), Lookup(updated, path)) || (|path| == 1 && Lookup(updated, path).None?)
  }

  function PreservationState(blob: Json): int { Whole(Lookup(blob, [PRESERVATION])) }

  /** The preservation states in which a user may not change anything. */
  predicate Locked(blob: Json) {
    var s := PreservationState(blob);
    s >= 80 && s != 100 && s != 130
  }

  function Catalog(blob: Json): string {
    var c := Text(Lookup(blob, [CATALOG, IDENTIFIER]));
    if c == "" then Text(Lookup(blob, [CATALOG])) else c
  }

  predicate IsPas(blob: Json) { PreservationState(blob) > 0 || Catalog(blob) == CATALOG_PAS }

  predicate IsOldVersion(blob: Json) { Text(Lookup(blob, [NEXT_VERSION, IDENTIFIER])) != "" }

  const FILES := [RESEARCH, "files"]
  const DIRECTORIES := [RESEARCH, "directories"]

  predicate UpdateAllowed(stored: Stored, updated: Stored) {
    && stored.family == updated.family && stored.schema == updated.schema
    && CumulativeStateOk(updated.blob, updated.published)
    && !Locked(stored.blob)
    && (forall p <- ReadOnlyPaths(stored.published) :: ReadOnlyKept(stored.blob, updated.blob, p))
    && (IsPas(stored.blob) || IsOldVersion(stored.blob) ==>
          SameValue(Lookup(stored.blob, FILES), Lookup(updated.blob, FILES))
          && SameValue(Lookup(stored.blob, DIRECTORIES), Lookup(updated.blob, DIRECTORIES)))
  }

  /** Every reported error names a check that really fails. */
  predicate Justified(e: ValidationError, stored: Stored, updated: Stored) {
    match e
    case FamilyMismatch => stored.family != updated.family
    case SchemaMismatch => stored.schema != updated.schema
    case BadCumulativeState => !CumulativeStateOk(updated.blob, updated.published)
    case PreservationLocked => Locked(stored.blob)
    case ReadOnlyChanged(p) => p in ReadOnlyPaths(stored.published) && !ReadOnlyKept(stored.blob, updated.blob, p)
    case ReadOnlySet(_) => false
    case FilesChanged => !SameValue(Lookup(stored.blob, FILES), Lookup(updated.blob, FILES))
    case DirectoriesChanged => !SameValue(Lookup(stored.blob, DIRECTORIES), Lookup(updated.blob, DIRECTORIES))
  }

  method ValidateUpdated(format: DoubleFormat, stored: Stored, updated: Stored) returns (r: Option<ValidationError>)
    ensures r.None? <==> UpdateAllowed(stored, updated)
    ensures r.Some? ==> Justified(r.value, stored, updated)
    ensures var state := Whole(Lookup(stored.blob, ["preservation_state"]));
            80 <= state <= 99 || 101 <= state <= 129 || state > 130 ==> r.Some?
  {
    if stored.family != updated.family {
      return Some(FamilyMismatch);
    }
    if stored.schema != updated.schema {
      return Some(SchemaMismatch);
    }
    if !CumulativeStateOk(updated.blob, updated.published) {
      return Some(BadCumulativeState);
    }
    if Locked(stored.blob) {
      return Some(PreservationLocked);
    }
    var paths := ReadOnlyPaths(stored.published);
    for i := 0 to |paths|
      invariant forall j :: 0 <= j < i ==> ReadOnlyKept(stored.blob, updated.blob, paths[j])
    {
      if !ReadOnlyKept(stored.blob, updated.blob, paths[i]) {
        assert paths[i] in paths;
        return Some(ReadOnlyChanged(paths[i]));
      }
    }
    if IsPas(stored.blob) || IsOldVersion(stored.blob) {
      var sameFiles := CheckEqual(format, Lookup(stored.blob, FILES), Lookup(updated.blob, FILES));
      if !sameFiles {
        return Some(FilesChanged);
      }
      var sameDirectories := CheckEqual(format, Lookup(stored.blob, DIRECTORIES), Lookup(updated.blob, DIRECTORIES));
      if !sameDirectories {
        return Some(DirectoriesChanged);
      }
    }
    return None;
  }

  predicate CreateAllowed(blob: Json) {
    CumulativeStateOk(blob, false) && forall p <- COMMON_READ_ONLY :: Lookup(blob, p).None?
  }

  /** The reported error names a check that a created document really fails. */
  predicate IsProblem(e: ValidationError, blob: Json) {
    match e
    case BadCumulativeState => !CumulativeStateOk(blob, false)
    case ReadOnlySet(p) => p in COMMON_READ_ONLY && Lookup(blob, p).Some?
    case _ => false
  }

  method ValidateCreated(blob: Json) returns (r: Option<ValidationError>)
    ensures r.None? <==> CreateAllowed(blob)
    ensures r.Some? ==> IsProblem(r.value, blob)
  {
    if !CumulativeStateOk(blob, false) {
      return Some(BadCumulativeState);
    }
    for i := 0 to |COMMON_READ_ONLY|
      invariant forall j :: 0 <= j < i ==> Lookup(blob, COMMON_READ_ONLY[j]).None?
    {
      if Lookup(blob, COMMON_READ_ONLY[i]).Some? {
        assert COMMON_READ_ONLY[i] in COMMON_READ_ONLY;
        return Some(ReadOnlySet(COMMON_READ_ONLY[i]));
      }
    }
    return None;
  }
}
