/**
 What an accepted user update can and cannot do to a stored Metax document.
 The stored document is the shallow merge of the old one with the patch.
 */
module Updates {
  import opened Options
  import opened Json
  import opened Datasets

  /** A document as a jsonb column holds it, with an object at the root. */
  predicate IsStored(blob: Json) { blob.Obj? && Jsonb(blob) == blob }

  /** The stored document after the patch statement. */
  function Merged(blob: Json, patch: Json): (r: Json)
    requires blob.Obj? && patch.Obj?
    ensures r.Obj? && Concat(blob, patch) == Some(r)
  {
    Concat(blob, patch).value
  }

  lemma MergedIsStored(blob: Json, patch: Json)
    requires blob.Obj? && patch.Obj?
    ensures IsStored(Merged(blob, patch))
  {
    JsonbMembersIdempotent(blob.members + patch.members);
  }

  /** Whatever a path finds in a stored document is itself in stored form. */
  lemma StoredParts(blob: Json, path: seq<string>)
    requires Jsonb(blob) == blob
    ensures JsonbOption(Lookup(blob, path)) == Lookup(blob, path)
  {
    LookupJsonb(blob, path);
    var w := LastLookup(blob, path);
    if w.Some? { JsonbIdempotent(w.value); }
  }

  // ---------- the shape of the patch ----------

  lemma {:induction false} DistinctMember(ms: seq<Member>, i: nat)
    requires DistinctKeys(ms) && i < |ms|
    ensures LastMember(ms, ms[i].key) == Some(ms[i].value)
  {
    KeysCons(ms);
    if i == 0 {
      assert ms[0].key !in Keys(ms[1..]);
    } else {
      DistinctMember(ms[1..], i - 1);
    }
  }

  const USER := "metadata_provider_user"

  lemma PatchKeys(id: Id, dataset: Json, extid: string, cumulative: Option<Json>)
    ensures var ms := UpdatePatch(id, dataset, extid, cumulative).members;
            && DistinctKeys(ms) && |ms| >= 2 && ms[0] == Member(RESEARCH, dataset)
            && (forall k <- Keys(ms) :: k == RESEARCH || k == EDITOR || k == USER || k == CUMULATIVE)
            && (CUMULATIVE in Keys(ms) <==> cumulative.Some?)
            && (cumulative.Some? ==> LastMember(ms, CUMULATIVE) == cumulative)
  {
    var ms := UpdatePatch(id, dataset, extid, cumulative).members;
    assert RESEARCH[0] == 'r' && CUMULATIVE[0] == 'c' && |EDITOR| == 6 && |USER| == 22;
    if cumulative.Some? {
      assert ms[|ms| - 1] == Member(CUMULATIVE, cumulative.value);
      DistinctMember(ms, |ms| - 1);
    }
  }

  /** The patch has one research_dataset, so a path into it sees what it sees in the submitted dataset. */
  lemma PatchResearch(id: Id, dataset: Json, extid: string, cumulative: Option<Json>, name: string)
    ensures var patch := UpdatePatch(id, dataset, extid, cumulative);
            && Lookup(patch, [RESEARCH, name]) == Lookup(dataset, [name])
            && LastLookup(patch, [RESEARCH, name]) == LastLookup(dataset, [name])
            && RESEARCH in Keys(patch.members)
  {
    var patch := UpdatePatch(id, dataset, extid, cumulative);
    PatchKeys(id, dataset, extid, cumulative);
    DistinctMember(patch.members, 0);
    assert [RESEARCH, name][1..] == [name];
    LookupDistinct(patch.members, [RESEARCH, name]);
  }

  // ---------- fields outside the patch ----------

  predicate ServiceKey(k: string) { k == PRESERVATION || k == IDENTIFIER || k == CATALOG || k == NEXT_VERSION }

  /** The fields only the services write are not even part of a patch: no update changes them, accepted or not. */
  lemma ServiceFieldsKept(blob: Json, id: Id, dataset: Json, extid: string, cumulative: Option<Json>, path: seq<string>)
    requires IsStored(blob) && path != [] && ServiceKey(path[0])
    ensures Lookup(Merged(blob, UpdatePatch(id, dataset, extid, cumulative)), path) == Lookup(blob, path)
  {
    var patch := UpdatePatch(id, dataset, extid, cumulative);
    PatchKeys(id, dataset, extid, cumulative);
    assert |PRESERVATION| == 18 && |IDENTIFIER| == 10 && |CATALOG| == 12 && |NEXT_VERSION| == 20
        && |RESEARCH| == 16 && |EDITOR| == 6 && |USER| == 22 && |CUMULATIVE| == 16;
    assert path[0] !in Keys(patch.members);
    LookupConcat(blob, patch, path);
  }

  /** ... so neither the identifier nor the preservation, PAS or version status of a row is up to its user. */
  lemma StatusKept(blob: Json, id: Id, dataset: Json, extid: string, cumulative: Option<Json>)
    requires IsStored(blob)
    ensures var after := Merged(blob, UpdatePatch(id, dataset, extid, cumulative));
            && GetIdentifier(after) == GetIdentifier(blob)
            && PreservationState(after) == PreservationState(blob) && (Locked(after) <==> Locked(blob))
            && (IsPas(after) <==> IsPas(blob)) && (IsOldVersion(after) <==> IsOldVersion(blob))
  {
    ServiceFieldsKept(blob, id, dataset, extid, cumulative, [IDENTIFIER]);
    ServiceFieldsKept(blob, id, dataset, extid, cumulative, [PRESERVATION]);
    ServiceFieldsKept(blob, id, dataset, extid, cumulative, [CATALOG]);
    ServiceFieldsKept(blob, id, dataset, extid, cumulative, [CATALOG, IDENTIFIER]);
    ServiceFieldsKept(blob, id, dataset, extid, cumulative, [NEXT_VERSION, IDENTIFIER]);
  }

  // ---------- read-only fields of research_dataset ----------

  /**
   In the submitted dataset, the first member of that name (which the checks see)
   and the last one (which the column keeps) store alike.
   */
  predicate Unambiguous(dataset: Json, name: string) {
    JsonbOption(Lookup(dataset, [name])) == JsonbOption(LastLookup(dataset, [name]))
  }

  /** The row and the decoded request of an update. */
  predicate Accepted(before: Stored, id: Id, dataset: Json, extid: string, cumulative: Option<Json>) {
    UpdateAllowed(before, before.(blob := UpdatePatch(id, dataset, extid, cumulative)))
  }

  lemma ReadOnlyNames(name: string, published: bool)
    requires name in READ_ONLY_NAMES
    ensures [RESEARCH, name] in ReadOnlyPaths(published)
  {
    var i :| 0 <= i < |READ_ONLY_NAMES| && READ_ONLY_NAMES[i] == name;
    assert COMMON_READ_ONLY[i] == [RESEARCH, name];
    assert ReadOnlyPaths(published)[i] == COMMON_READ_ONLY[i];
  }

  /**
   An accepted update keeps a read-only research field exactly when the submitted
   dataset is unambiguous about it: with a repeated key the check reads one member
   and the column keeps another.
   */
  lemma ReadOnlyKeptIff(before: Stored, id: Id, dataset: Json, extid: string, cumulative: Option<Json>, name: string)
    requires IsStored(before.blob) && Accepted(before, id, dataset, extid, cumulative) && name in READ_ONLY_NAMES
    ensures var after := Merged(before.blob, UpdatePatch(id, dataset, extid, cumulative));
            Lookup(after, [RESEARCH, name]) == Lookup(before.blob, [RESEARCH, name]) <==> Unambiguous(dataset, name)
  {
    var patch := UpdatePatch(id, dataset, extid, cumulative);
    ReadOnlyNames(name, before.published);
    assert ReadOnlyKept(before.blob, patch, [RESEARCH, name]);
    PatchResearch(id, dataset, extid, cumulative, name);
    LookupConcat(before.blob, patch, [RESEARCH, name]);
    StoredParts(before.blob, [RESEARCH, name]);
  }

  /**
   A row whose read-only research field holds a value that marshalling spells
   differently, or a filled container, takes no update at all.
   */
  lemma RespeltIsRefused(before: Stored, id: Id, dataset: Json, extid: string, cumulative: Option<Json>, name: string)
    requires name in READ_ONLY_NAMES && Lookup(before.blob, [RESEARCH, name]).Some?
    requires !SpeltAlike(Lookup(before.blob, [RESEARCH, name]).value)
    ensures !Accepted(before, id, dataset, extid, cumulative)
  {
    hide Lookup, Locked, IsPas, IsOldVersion, UpdatePatch;
    ReadOnlyNames(name, before.published);
  }

  // ---------- files and directories ----------

  predicate ValuesAgree(dataset: Json, name: string) {
    SameValue(Lookup(dataset, [name]), JsonbOption(LastLookup(dataset, [name])))
  }

  /**
   On a preserved (PAS) or superseded row an accepted update keeps files and
   directories, as JSON values, exactly when the submitted dataset has the same
   value first and last under that name.
   */
  lemma FilesKeptIff(before: Stored, id: Id, dataset: Json, extid: string, cumulative: Option<Json>, name: string)
    requires IsStored(before.blob) && Accepted(before, id, dataset, extid, cumulative)
    requires IsPas(before.blob) || IsOldVersion(before.blob)
    requires name == "files" || name == "directories"
    ensures var after := Merged(before.blob, UpdatePatch(id, dataset, extid, cumulative));
            SameValue(Lookup(before.blob, [RESEARCH, name]), Lookup(after, [RESEARCH, name])) <==> ValuesAgree(dataset, name)
  {
    var patch := UpdatePatch(id, dataset, extid, cumulative);
    PatchResearch(id, dataset, extid, cumulative, name);
    LookupConcat(before.blob, patch, [RESEARCH, name]);
    assert [RESEARCH, name] == if name == "files" then FILES else DIRECTORIES;
    assert SameValue(Lookup(before.blob, [RESEARCH, name]), Lookup(patch, [RESEARCH, name]));
  }

  /** Without repeated keys a submitted dataset is never ambiguous. */
  lemma DistinctIsUnambiguous(dataset: Json, name: string)
    requires dataset.Obj? ==> DistinctKeys(dataset.members)
    ensures Unambiguous(dataset, name)
    ensures Lookup(dataset, [name]).Some? && Decode(Lookup(dataset, [name]).value).Some? ==> ValuesAgree(dataset, name)
    ensures Lookup(dataset, [name]).None? ==> ValuesAgree(dataset, name)
  {
    if dataset.Obj? {
      LookupDistinct(dataset.members, [name]);
      assert [name][1..] == [];
    }
    var v := Lookup(dataset, [name]);
    if v.Some? && Decode(v.value).Some? { DecodeJsonb(v.value); }
  }

  // ---------- cumulative_state ----------

  lemma PatchCumulative(id: Id, dataset: Json, extid: string, cumulative: Option<Json>)
    ensures Lookup(UpdatePatch(id, dataset, extid, cumulative), [CUMULATIVE]) == cumulative
    ensures LastLookup(UpdatePatch(id, dataset, extid, cumulative), [CUMULATIVE]) == cumulative
  {
    var patch := UpdatePatch(id, dataset, extid, cumulative);
    PatchKeys(id, dataset, extid, cumulative);
    LookupDistinct(patch.members, [CUMULATIVE]);
    assert [CUMULATIVE][1..] == [];
    assert CUMULATIVE in Keys(patch.members) <==> LastMember(patch.members, CUMULATIVE).Some?;
  }

  /** Once a row is published an accepted update leaves its cumulative state alone. */
  lemma CumulativeKept(before: Stored, id: Id, dataset: Json, extid: string, cumulative: Option<Json>)
    requires IsStored(before.blob) && Accepted(before, id, dataset, extid, cumulative) && before.published
    ensures Lookup(Merged(before.blob, UpdatePatch(id, dataset, extid, cumulative)), [CUMULATIVE])
         == Lookup(before.blob, [CUMULATIVE])
  {
    var patch := UpdatePatch(id, dataset, extid, cumulative);
    PatchKeys(id, dataset, extid, cumulative);
    PatchCumulative(id, dataset, extid, cumulative);
    LookupConcat(before.blob, patch, [CUMULATIVE]);
    StoredParts(before.blob, [CUMULATIVE]);
    assert ReadOnlyPaths(true)[4] == [CUMULATIVE];
    assert ReadOnlyKept(before.blob, patch, [CUMULATIVE]);
  }

  // ---------- the editor object ----------

  /**
   After an update the document's link names the id of the request body, so it
   names the updated row exactly when that id agrees with the one of the URL.
   */
  lemma EditorLinkIff(blob: Json, bodyId: Id, dataset: Json, extid: string, cumulative: Option<Json>, row: Id)
    requires IsStored(blob) && bodyId < Pow16(32) && row < Pow16(32)
    ensures Lookup(Merged(blob, UpdatePatch(bodyId, dataset, extid, cumulative)), [EDITOR, "record_id"]) == Some(Str(UuidText(row)))
       <==> bodyId == row
  {
    hide UuidText, Pow16, Jsonb;
    var patch, key := UpdatePatch(bodyId, dataset, extid, cumulative), "record_id";
    EditorInPatch(bodyId, dataset, extid, cumulative, key);
    LookupConcat(blob, patch, [EDITOR, key]);
    UuidRoundTrip(bodyId);
    UuidRoundTrip(row);
    StringStored(UuidText(bodyId));
  }

  lemma StringStored(s: string)
    ensures Jsonb(Str(s)) == Str(s)
  {
  }

  lemma LastLookupTwo(j: Json, a: string, b: string, inner: Json, leaf: Json)
    requires j.Obj? && inner.Obj? && LastMember(j.members, a) == Some(inner) && LastMember(inner.members, b) == Some(leaf)
    ensures LastLookup(j, [a, b]) == Some(leaf)
  {
    assert [a, b][1..] == [b] && [b][1..] == [];
    assert LastLookup(inner, [b]) == Some(leaf);
  }

  lemma EditorInPatch(id: Id, dataset: Json, extid: string, cumulative: Option<Json>, key: string)
    requires key == "record_id"
    ensures var patch := UpdatePatch(id, dataset, extid, cumulative);
            EDITOR in Keys(patch.members) && LastLookup(patch, [EDITOR, key]) == Some(Str(UuidText(id)))
  {
    var ms, es := UpdatePatch(id, dataset, extid, cumulative).members, EditorJson(id).members;
    PatchKeys(id, dataset, extid, cumulative);
    DistinctMember(ms, 1);
    assert |IDENTIFIER| == 10 && |key| == 9;
    assert DistinctKeys(es) && es[1] == Member(key, Str(UuidText(id)));
    DistinctMember(es, 1);
    LastLookupTwo(UpdatePatch(id, dataset, extid, cumulative), EDITOR, key, EditorJson(id), Str(UuidText(id)));
  }
}
