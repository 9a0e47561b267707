/**
 Which update requests are accepted and what they leave, told field by field from
 the stored row and the submitted dataset.  The names of the fields, the preservation
 states and the catalog are spelt out here.
 */
module Acceptance {
  import opened Options
  import opened Json
  import opened JsonEquality
  import opened Calendar
  import opened Datasets
  import opened Updates
  import opened Submissions
  import opened Store
  import opened Handlers

  // ---------- the checks, field by field ----------

  /** The value is unchanged, and its text survives the marshaller that escapes five characters and indents containers. */
  predicate Repeated(stored: Option<Json>, submitted: Option<Json>) {
    stored == submitted &&
    match stored
    case Some(Str(s)) => '<' !in s && '>' !in s && '&' !in s && '\U{2028}' !in s && '\U{2029}' !in s
    case Some(Arr(items)) => items == []
    case Some(Obj(ms)) => ms == []
    case _ => true
  }

  lemma RepeatedIsSameText(stored: Option<Json>, submitted: Option<Json>)
    ensures SameText(stored, submitted) <==> Repeated(stored, submitted)
  {
  }

  function State(blob: Json): int { Whole(Lookup(blob, ["preservation_state"])) }

  /** The states in which nothing may be changed. */
  predicate InLockedBand(state: int) { 80 <= state <= 99 || 101 <= state <= 129 || state > 130 }

  lemma BandIsLocked(blob: Json)
    ensures Locked(blob) <==> InLockedBand(State(blob))
  {
    hide Lookup, Whole;
  }

  /** Preserved, in the preservation catalog, or superseded by a newer version. */
  predicate FilesFixed(blob: Json) {
    var inside, direct := Text(Lookup(blob, ["data_catalog", "identifier"])), Text(Lookup(blob, ["data_catalog"]));
    || State(blob) > 0
    || (if inside != "" then inside else direct) == "urn:nbn:fi:att:data-catalog-pas"
    || Text(Lookup(blob, ["next_dataset_version", "identifier"])) != ""
  }

  /** A cumulative state as it is written: 0 or 1, and 2 for a published dataset. */
  predicate StateAllowed(cumulative: Option<Json>, published: bool) {
    cumulative.Some? ==> cumulative.value.Num? && var text := cumulative.value.n.text;
      text == "0" || text == "1" || (published && text == "2")
  }

  /** The update may replace the research dataset of the row by the submitted one. */
  predicate Permits(stored: Stored, dataset: Json, cumulative: Option<Json>) {
    && !InLockedBand(State(stored.blob)) && StateAllowed(cumulative, stored.published)
    && (stored.published && cumulative.Some? ==> Repeated(Lookup(stored.blob, ["cumulative_state"]), cumulative))
    && Repeated(Lookup(stored.blob, ["research_dataset", "preferred_identifier"]), Lookup(dataset, ["preferred_identifier"]))
    && Repeated(Lookup(stored.blob, ["research_dataset", "metadata_version_identifier"]), Lookup(dataset, ["metadata_version_identifier"]))
    && Repeated(Lookup(stored.blob, ["research_dataset", "total_files_byte_size"]), Lookup(dataset, ["total_files_byte_size"]))
    && (FilesFixed(stored.blob) ==>
          EqualAsJson(Lookup(stored.blob, ["research_dataset", "files"]), Lookup(dataset, ["files"]))
          && EqualAsJson(Lookup(stored.blob, ["research_dataset", "directories"]), Lookup(dataset, ["directories"])))
  }

  /** The read-only check of a patch, path by path. */
  lemma ReadOnlyIff(stored: Stored, id: Id, dataset: Json, extid: string, cumulative: Option<Json>)
    ensures var patch := UpdatePatch(id, dataset, extid, cumulative);
            (forall p <- ReadOnlyPaths(stored.published) :: ReadOnlyKept(stored.blob, patch, p)) <==>
              && SameText(Lookup(stored.blob, [RESEARCH, READ_ONLY_NAMES[0]]), Lookup(dataset, [READ_ONLY_NAMES[0]]))
              && SameText(Lookup(stored.blob, [RESEARCH, READ_ONLY_NAMES[1]]), Lookup(dataset, [READ_ONLY_NAMES[1]]))
              && SameText(Lookup(stored.blob, [RESEARCH, READ_ONLY_NAMES[2]]), Lookup(dataset, [READ_ONLY_NAMES[2]]))
              && (stored.published && cumulative.Some? ==> SameText(Lookup(stored.blob, [CUMULATIVE]), cumulative))
  {
    hide UpdatePatch, Lookup, SpeltAlike;
    var patch := UpdatePatch(id, dataset, extid, cumulative);
    PatchCumulative(id, dataset, extid, cumulative);
    NoPreservationInPatch(id, dataset, extid, cumulative);
    PatchResearch(id, dataset, extid, cumulative, READ_ONLY_NAMES[0]);
    PatchResearch(id, dataset, extid, cumulative, READ_ONLY_NAMES[1]);
    PatchResearch(id, dataset, extid, cumulative, READ_ONLY_NAMES[2]);
    var paths := ReadOnlyPaths(stored.published);
    assert paths[0] == [RESEARCH, READ_ONLY_NAMES[0]] && paths[1] == [RESEARCH, READ_ONLY_NAMES[1]]
        && paths[2] == [RESEARCH, READ_ONLY_NAMES[2]] && paths[3] == [PRESERVATION];
    assert stored.published ==> |paths| == 5 && paths[4] == [CUMULATIVE];
    assert !stored.published ==> |paths| == 4;
    assert (forall p <- paths :: ReadOnlyKept(stored.blob, patch, p))
      <==> forall i :: 0 <= i < |paths| ==> ReadOnlyKept(stored.blob, patch, paths[i]);
  }

  lemma NoPreservationInPatch(id: Id, dataset: Json, extid: string, cumulative: Option<Json>)
    ensures Lookup(UpdatePatch(id, dataset, extid, cumulative), [PRESERVATION]) == None
  {
    PatchKeys(id, dataset, extid, cumulative);
    var ms := UpdatePatch(id, dataset, extid, cumulative).members;
    assert |PRESERVATION| == 18 && |RESEARCH| == 16 && |EDITOR| == 6 && |USER| == 22 && |CUMULATIVE| == 16;
    assert PRESERVATION !in Keys(ms);
    LookupDistinct(ms, [PRESERVATION]);
  }

  lemma FilesFixedIff(blob: Json)
    ensures FilesFixed(blob) <==> IsPas(blob) || IsOldVersion(blob)
  {
    hide Lookup, Text, Whole;
  }

  lemma StateAllowedIff(id: Id, dataset: Json, extid: string, cumulative: Option<Json>, published: bool)
    ensures CumulativeStateOk(UpdatePatch(id, dataset, extid, cumulative), published) <==> StateAllowed(cumulative, published)
  {
    hide UpdatePatch, Lookup;
    PatchCumulative(id, dataset, extid, cumulative);
  }

  /**
   A patch is accepted if and only if the row is not in the locked band of preservation
   states, the cumulative state is an allowed one, and unchanged once published, the
   three read-only fields are repeated, and files and directories keep their JSON
   value where they are fixed.
   */
  lemma AcceptedIff(stored: Stored, id: Id, dataset: Json, extid: string, cumulative: Option<Json>)
    ensures Accepted(stored, id, dataset, extid, cumulative) <==> Permits(stored, dataset, cumulative)
  {
    hide UpdatePatch, Lookup, Locked, IsPas, IsOldVersion, FilesFixed, InLockedBand, SameText, Repeated, StateAllowed, CumulativeStateOk;
    hide SameValue, EqualAsJson, ReadOnlyKept, ReadOnlyPaths;
    BandIsLocked(stored.blob);
    FilesFixedIff(stored.blob);
    StateAllowedIff(id, dataset, extid, cumulative, stored.published);
    ReadOnlyIff(stored, id, dataset, extid, cumulative);
    RepeatedIsSameText(Lookup(stored.blob, [RESEARCH, READ_ONLY_NAMES[0]]), Lookup(dataset, [READ_ONLY_NAMES[0]]));
    RepeatedIsSameText(Lookup(stored.blob, [RESEARCH, READ_ONLY_NAMES[1]]), Lookup(dataset, [READ_ONLY_NAMES[1]]));
    RepeatedIsSameText(Lookup(stored.blob, [RESEARCH, READ_ONLY_NAMES[2]]), Lookup(dataset, [READ_ONLY_NAMES[2]]));
    RepeatedIsSameText(Lookup(stored.blob, [CUMULATIVE]), cumulative);
    PatchResearch(id, dataset, extid, cumulative, "files");
    PatchResearch(id, dataset, extid, cumulative, "directories");
    SameValueIff(Lookup(stored.blob, FILES), Lookup(dataset, ["files"]));
    SameValueIff(Lookup(stored.blob, DIRECTORIES), Lookup(dataset, ["directories"]));
  }

  /**
   The column respells numbers: where a document was stored with a read-only number that
   has another spelling there, sending back what was stored is refused, whatever else is
   submitted, and only the column's spelling will do.
   */
  lemma NumbersAreRespelt(stored: Stored, doc: Json, n: Number, id: Id, dataset: Json, extid: string, cumulative: Option<Json>)
    requires stored.blob == Jsonb(doc) && LastLookup(doc, ["research_dataset", "total_files_byte_size"]) == Some(Num(n))
    ensures Lookup(dataset, ["total_files_byte_size"]) == Some(Num(n)) && n.text != n.numeric ==>
              !Accepted(stored, id, dataset, extid, cumulative)
    ensures Accepted(stored, id, dataset, extid, cumulative) ==>
              Lookup(dataset, ["total_files_byte_size"]) == Some(Num(n.(text := n.numeric)))
  {
    hide Accepted, Lookup, LastLookup;
    LookupJsonb(doc, ["research_dataset", "total_files_byte_size"]);
    NumberStored(n);
    AcceptedIff(stored, id, dataset, extid, cumulative);
  }

  lemma NumberStored(n: Number)
    ensures Jsonb(Num(n)) == Num(n.(text := n.numeric))
  {
  }

  // ---------- update requests ----------

  function CumulativeOf(req: UpdateRequest): Option<Json> {
    if req.cumulative.Given? then Some(req.cumulative.j) else None
  }

  /** A request body for a Metax dataset from which a patch can be built. */
  predicate IsMetaxRequest(req: UpdateRequest) {
    && req.id.Some? && req.family == 2 && (req.schema == "metax-ida" || req.schema == "metax-att")
    && req.dataset.Some? && !req.cumulative.Malformed?
  }

  lemma PatchIsBuilt(req: UpdateRequest)
    requires IsMetaxRequest(req)
    ensures UpdateDoc(req) == Ok(UpdatePatch(req.id.value, req.dataset.value, "", CumulativeOf(req)))
  {
    hide UpdatePatch;
  }

  /** Any other body is turned down before the row is looked at, or is not for a Metax row. */
  lemma OtherDocs(req: UpdateRequest)
    requires UpdateDoc(req).Ok? && !IsMetaxRequest(req)
    ensures req.family != 2
  {
    hide UpdatePatch;
  }

  /**
   An update of a Metax row is accepted if and only if the user owns the row, the body
   is one for a Metax dataset of the row's schema, the update is permitted, and the
   stored document is one that can be merged with an object.
   */
  lemma RequestAcceptedIff(rows: Rows, user: User, id: Id, req: UpdateRequest, now: Instant)
    requires id in rows && rows[id].family == 2
    ensures UpdateAccepted(rows, user, id, req, now) <==>
              && rows[id].owner == user.uid && IsMetaxRequest(req) && req.schema == rows[id].schema
              && Permits(StoredOf(rows[id]), req.dataset.value, CumulativeOf(req))
              && (rows[id].blob.Obj? || rows[id].blob.Arr?)
  {
    hide UpdatePatch, Permits, UpdateDoc;
    if IsMetaxRequest(req) {
      PatchIsBuilt(req);
      PatchFits(rows[id], req, now);
    } else if UpdateDoc(req).Ok? {
      OtherDocs(req);
      assert !UpdateAllowed(StoredOf(rows[id]), SubmittedOf(req, UpdateDoc(req).value, rows[id]));
    }
  }

  lemma PatchFits(r: Row, req: UpdateRequest, now: Instant)
    requires r.family == 2 && IsMetaxRequest(req)
    ensures var patch := UpdatePatch(req.id.value, req.dataset.value, "", CumulativeOf(req));
            && (UpdateAllowed(StoredOf(r), SubmittedOf(req, patch, r)) <==>
                  req.schema == r.schema && Permits(StoredOf(r), req.dataset.value, CumulativeOf(req)))
            && (UpdatedRow(r, now, patch).Some? <==> r.blob.Obj? || r.blob.Arr?)
  {
    hide Permits, CumulativeStateOk, Locked, ReadOnlyKept, IsPas, IsOldVersion, SameValue, Jsonb, EditorJson;
    AcceptedIff(StoredOf(r), req.id.value, req.dataset.value, "", CumulativeOf(req));
  }

  /**
   What an accepted update stores: under research_dataset what the submitted dataset
   says last, under editor the link to the id of the body, under cumulative_state the
   submitted one if there is one, and under every other key what was there.
   */
  lemma UpdatedDocument(rows: Rows, user: User, id: Id, req: UpdateRequest, now: Instant, path: seq<string>)
    requires id in rows && rows[id].family == 2 && IsStored(rows[id].blob) && UpdateAccepted(rows, user, id, req, now) && path != []
    ensures var before, after := rows[id], UpdateRows(rows, user, id, req, now, false)[id];
            && after == before.(modified := now, revision := before.revision + 1, blob := after.blob)
            && req.dataset.Some? && req.id.Some?
            && (path[0] == "research_dataset" ==> Lookup(after.blob, path) == JsonbOption(LastLookup(req.dataset.value, path[1..])))
            && (path[0] == "editor" ==> Lookup(after.blob, path) == JsonbOption(LastLookup(EditorJson(req.id.value), path[1..])))
            && (path[0] == "cumulative_state" && req.cumulative.Given? ==>
                  Lookup(after.blob, path) == JsonbOption(LastLookup(req.cumulative.j, path[1..])))
            && (path[0] != "research_dataset" && path[0] != "editor" && (path[0] != "cumulative_state" || !req.cumulative.Given?) ==>
                  Lookup(after.blob, path) == Lookup(before.blob, path))
  {
    hide Permits, Lookup, LastLookup, Jsonb, UpdatePatch, EditorJson, UpdateDoc, IsMetaxRequest, UpdateAccepted;
    RequestAcceptedIff(rows, user, id, req, now);
    assert IsMetaxRequest(req);
    PatchIsBuilt(req);
    RowIsMerged(rows, user, id, req, now);
    BodyParts(req);
    PatchMembers(req.id.value, req.dataset.value, CumulativeOf(req), path);
    LookupConcat(rows[id].blob, UpdatePatch(req.id.value, req.dataset.value, "", CumulativeOf(req)), path);
  }

  lemma BodyParts(req: UpdateRequest)
    requires IsMetaxRequest(req)
    ensures req.id.Some? && req.dataset.Some?
    ensures UpdatePatch(req.id.value, req.dataset.value, "", CumulativeOf(req)).Obj?
  {
  }

  lemma RowIsMerged(rows: Rows, user: User, id: Id, req: UpdateRequest, now: Instant)
    requires id in rows && rows[id].family == 2 && rows[id].blob.Obj? && UpdateAccepted(rows, user, id, req, now) && IsMetaxRequest(req)
    ensures var before, after := rows[id], UpdateRows(rows, user, id, req, now, false)[id];
            after == before.(modified := now, revision := before.revision + 1,
                             blob := Concat(before.blob, UpdatePatch(req.id.value, req.dataset.value, "", CumulativeOf(req))).value)
  {
    hide UpdatePatch, UpdateDoc, Jsonb, UpdateAllowed;
    PatchIsBuilt(req);
    BodyParts(req);
  }

  /** The members of the patch, by the first key of a path. */
  lemma PatchMembers(id: Id, dataset: Json, cumulative: Option<Json>, path: seq<string>)
    requires path != []
    ensures var patch := UpdatePatch(id, dataset, "", cumulative);
            && (path[0] == "research_dataset" ==> path[0] in Keys(patch.members) && LastLookup(patch, path) == LastLookup(dataset, path[1..]))
            && (path[0] == "editor" ==> path[0] in Keys(patch.members) && LastLookup(patch, path) == LastLookup(EditorJson(id), path[1..]))
            && (path[0] == "cumulative_state" && cumulative.Some? ==>
                  path[0] in Keys(patch.members) && LastLookup(patch, path) == LastLookup(cumulative.value, path[1..]))
            && (path[0] != "research_dataset" && path[0] != "editor" && (path[0] != "cumulative_state" || cumulative.None?) ==>
                  path[0] !in Keys(patch.members))
  {
    hide EditorJson;
    var patch := UpdatePatch(id, dataset, "", cumulative);
    var ms := patch.members;
    PatchKeys(id, dataset, "", cumulative);
    DistinctMember(ms, 0);
    DistinctMember(ms, 1);
    if cumulative.Some? { DistinctMember(ms, 2); }
    assert |ms| == if cumulative.Some? then 3 else 2;
    assert ms[0].key == RESEARCH && ms[1].key == EDITOR;
    assert forall k :: k in Keys(ms) <==> k == RESEARCH || k == EDITOR || (cumulative.Some? && k == CUMULATIVE);
  }

  // ---------- rows in preservation ----------

  /** A row of which nothing but its preservation state is known. */
  function StateRow(text: string, state: nat): Stored {
    Stored(2, "metax-ida", true, Obj([Member("preservation_state", Count(text, state))]))
  }

  lemma StateRowLookup(text: string, state: nat, path: seq<string>)
    requires path != []
    ensures Lookup(StateRow(text, state).blob, path) == if path == ["preservation_state"] then Some(Count(text, state)) else None
  {
    var ms := StateRow(text, state).blob.members;
    var value := ms[0].value;
    assert ms[1..] == [] && LookupMember(ms[1..], path) == None;
    if path[0] == "preservation_state" {
      assert Lookup(value, path[1..]) == if path[1..] == [] then Some(value) else None;
      assert path == [path[0]] + path[1..];
    }
  }

  /** An update that submits an empty dataset for such a row: its state alone decides. */
  lemma StateDecides(text: string, state: nat)
    ensures Accepted(StateRow(text, state), 7, Obj([]), "", None) <==> state < 80 || state == 100 || state == 130
  {
    hide Accepted, Lookup, Text, EqualAsJson;
    var row := StateRow(text, state);
    AcceptedIff(row, 7, Obj([]), "", None);
    StateRowLookup(text, state, ["preservation_state"]);
    NothingElse(text, state, "preferred_identifier");
    NothingElse(text, state, "metadata_version_identifier");
    NothingElse(text, state, "total_files_byte_size");
    NothingElse(text, state, "files");
    NothingElse(text, state, "directories");
    assert EqualAsJson(None, None) by { BothMissing(); }
  }

  lemma BothMissing()
    ensures EqualAsJson(None, None)
  {
  }

  lemma NothingElse(text: string, state: nat, name: string)
    ensures Lookup(StateRow(text, state).blob, ["research_dataset", name]) == None && Lookup(Obj([]), [name]) == None
  {
    StateRowLookup(text, state, ["research_dataset", name]);
  }

  lemma SampleStates()
    ensures Accepted(StateRow("79", 79), 7, Obj([]), "", None) && !Accepted(StateRow("80", 80), 7, Obj([]), "", None)
    ensures Accepted(StateRow("100", 100), 7, Obj([]), "", None) && !Accepted(StateRow("120", 120), 7, Obj([]), "", None)
    ensures Accepted(StateRow("130", 130), 7, Obj([]), "", None) && !Accepted(StateRow("140", 140), 7, Obj([]), "", None)
  {
    hide Accepted;
    StateDecides("79", 79);
    StateDecides("80", 80);
    StateDecides("100", 100);
    StateDecides("120", 120);
    StateDecides("130", 130);
    StateDecides("140", 140);
  }
}
