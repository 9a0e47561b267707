/**
 Submitted datasets on which the update checks and the column disagree: a repeated
 key passes although it changes a field, a respelt string is refused although it
 changes none.
 */
module Submissions {
  import opened Options
  import opened Json
  import opened Datasets
  import opened Updates

  // ---------- the read-only check ----------

  lemma ReadOnlyPathForms(published: bool, p: seq<string>)
    requires p in ReadOnlyPaths(published)
    ensures (|p| == 2 && p[0] == RESEARCH) || p == [PRESERVATION] || p == [CUMULATIVE]
  {
  }

  /** Every read-only field in the research dataset is spelt as the patch will spell it. */
  predicate PlainlySpelt(blob: Json) {
    forall name <- READ_ONLY_NAMES :: SameText(Lookup(blob, [RESEARCH, name]), Lookup(blob, [RESEARCH, name]))
  }

  lemma ReadOnlyNameOf(published: bool, p: seq<string>)
    requires p in ReadOnlyPaths(published) && |p| == 2
    ensures p[1] in READ_ONLY_NAMES && p == [RESEARCH, p[1]]
  {
    var i :| 0 <= i < |ReadOnlyPaths(published)| && ReadOnlyPaths(published)[i] == p;
    assert i < 3 && COMMON_READ_ONLY[i] == [RESEARCH, READ_ONLY_NAMES[i]];
  }

  /** A patch that says first what is stored, and nothing of the top-level fields, passes the read-only check. */
  lemma AllReadOnlyKept(blob: Json, id: Id, dataset: Json)
    requires PlainlySpelt(blob) && forall name :: Lookup(blob, [RESEARCH, name]) == Lookup(dataset, [name])
    ensures forall p <- ReadOnlyPaths(true) :: ReadOnlyKept(blob, UpdatePatch(id, dataset, "", None), p)
  {
    hide UpdatePatch;
    var patch := UpdatePatch(id, dataset, "", None);
    PatchCumulative(id, dataset, "", None);
    NoPreservationState(id, dataset);
    forall p | p in ReadOnlyPaths(true) ensures ReadOnlyKept(blob, patch, p) {
      ReadOnlyPathForms(true, p);
      if |p| == 2 {
        ReadOnlyNameOf(true, p);
        PatchResearch(id, dataset, "", None, p[1]);
      }
    }
  }

  lemma NoPreservationState(id: Id, dataset: Json)
    ensures Lookup(UpdatePatch(id, dataset, "", None), [PRESERVATION]) == None
  {
    var patch := UpdatePatch(id, dataset, "", None);
    PatchKeys(id, dataset, "", None);
    assert |PRESERVATION| == 18 && |RESEARCH| == 16 && |EDITOR| == 6 && |USER| == 22 && |CUMULATIVE| == 16;
    assert PRESERVATION !in Keys(patch.members);
    LookupDistinct(patch.members, [PRESERVATION]);
  }

  /**
   On a row whose preservation state is below 80, or 100, or 130, and whose files and
   directories decode, such a patch is accepted if and only if the stored read-only
   fields are plainly spelt, whatever the later members of the dataset say.
   */
  lemma SameFirstIsAccepted(row: Stored, id: Id, dataset: Json)
    requires var state := Whole(Lookup(row.blob, ["preservation_state"])); state < 80 || state == 100 || state == 130
    requires forall name :: Lookup(row.blob, [RESEARCH, name]) == Lookup(dataset, [name])
    requires SameValue(Lookup(row.blob, FILES), Lookup(row.blob, FILES))
    requires SameValue(Lookup(row.blob, DIRECTORIES), Lookup(row.blob, DIRECTORIES))
    ensures Accepted(row, id, dataset, "", None) <==> PlainlySpelt(row.blob)
  {
    hide UpdatePatch, IsPas, IsOldVersion, SameValue, Lookup, ReadOnlyKept, SpeltAlike, Whole;
    PatchCumulative(id, dataset, "", None);
    PatchResearch(id, dataset, "", None, "files");
    PatchResearch(id, dataset, "", None, "directories");
    if PlainlySpelt(row.blob) {
      AllReadOnlyKept(row.blob, id, dataset);
    } else {
      var name :| name in READ_ONLY_NAMES && !SameText(Lookup(row.blob, [RESEARCH, name]), Lookup(row.blob, [RESEARCH, name]));
      RespeltIsRefused(row, id, dataset, "", None, name);
    }
  }

  /** An identifier with an ampersand: its row takes no update. */
  lemma AmpersandLocks(before: Stored, id: Id, dataset: Json, extid: string, cumulative: Option<Json>)
    requires Lookup(before.blob, [RESEARCH, "preferred_identifier"]) == Some(Str("doi:a&b"))
    ensures !Accepted(before, id, dataset, extid, cumulative)
  {
    hide Lookup, Accepted;
    assert READ_ONLY_NAMES[1] == "preferred_identifier";
    assert "doi:a&b"[5] == '&' && Rewritten("doi:a&b"[5]);
    assert !SpeltAlike(Str("doi:a&b"));
    RespeltIsRefused(before, id, dataset, extid, cumulative, "preferred_identifier");
  }

  // ---------- a read-only field ----------

  function Count(text: string, whole: nat): Json { Num(Number(text, text, Some(whole), whole)) }

  /** A dataset that says the size twice: first the stored one, then another. */
  function TwoSizes(): Json {
    Obj([Member("total_files_byte_size", Count("200", 200)), Member("total_files_byte_size", Count("1", 1))])
  }

  function SizedRow(): Stored {
    Stored(METAX_FAMILY, IDA, true, Obj([Member(RESEARCH, Obj([Member("total_files_byte_size", Count("200", 200))]))]))
  }

  lemma TwoSizesLookups(name: string)
    ensures Lookup(TwoSizes(), [name]) == if name == "total_files_byte_size" then Some(Count("200", 200)) else None
    ensures LastLookup(TwoSizes(), [name]) == if name == "total_files_byte_size" then Some(Count("1", 1)) else None
  {
    var ms := TwoSizes().members;
    assert ms[1..][1..] == [];
    assert [name][1..] == [];
  }

  lemma SizedRowLookups(name: string)
    ensures Lookup(SizedRow().blob, [RESEARCH, name]) == if name == "total_files_byte_size" then Some(Count("200", 200)) else None
  {
    var ms := SizedRow().blob.members;
    assert ms[1..] == [] && [RESEARCH, name][1..] == [name] && [name][1..] == [];
    assert ms[0].value.members[1..] == [];
  }

  lemma SizedRowTop(path: seq<string>)
    requires path != [] && path[0] != RESEARCH
    ensures Lookup(SizedRow().blob, path) == None
  {
    assert SizedRow().blob.members[1..] == [];
  }

  /** The update with the repeated key is accepted, and the stored size is no longer the one Metax wrote. */
  lemma ReadOnlyCanChange()
    ensures IsStored(SizedRow().blob) && Accepted(SizedRow(), 7, TwoSizes(), "", None)
    ensures !Unambiguous(TwoSizes(), "total_files_byte_size")
    ensures Lookup(Merged(SizedRow().blob, UpdatePatch(7, TwoSizes(), "", None)), [RESEARCH, "total_files_byte_size"])
         == Some(Count("1", 1))
  {
    var row, patch := SizedRow(), UpdatePatch(7, TwoSizes(), "", None);
    SizedRowIsStored();
    forall name ensures Lookup(row.blob, [RESEARCH, name]) == Lookup(TwoSizes(), [name]) {
      SizedRowLookups(name);
      TwoSizesLookups(name);
    }
    SizedRowIsPlain();
    SizedRowLookups("files");
    SizedRowLookups("directories");
    forall name | name in READ_ONLY_NAMES ensures SameText(Lookup(row.blob, [RESEARCH, name]), Lookup(row.blob, [RESEARCH, name])) {
      SizedRowLookups(name);
    }
    SameFirstIsAccepted(row, 7, TwoSizes());
    TwoSizesLookups("total_files_byte_size");
    PatchResearch(7, TwoSizes(), "", None, "total_files_byte_size");
    LookupConcat(row.blob, patch, [RESEARCH, "total_files_byte_size"]);
    assert Count("1", 1) != Count("200", 200);
  }

  lemma SizedRowIsStored()
    ensures IsStored(SizedRow().blob)
  {
    var ms := SizedRow().blob.members;
    assert ms[1..] == [];
    var inner := ms[0].value.members;
    assert inner[1..] == [];
    assert JsonbMembers(inner) == inner;
  }

  lemma SizedRowIsPlain()
    ensures !Locked(SizedRow().blob) && !IsPas(SizedRow().blob) && !IsOldVersion(SizedRow().blob)
  {
    SizedRowTop([PRESERVATION]);
    SizedRowTop([CATALOG, IDENTIFIER]);
    SizedRowTop([CATALOG]);
    SizedRowTop([NEXT_VERSION, IDENTIFIER]);
  }

  // ---------- files of a preserved row ----------

  function FileList(name: string): Json { Arr([Str(name)]) }

  /** A dataset that lists its files twice: first the stored ones, then others. */
  function TwoFileLists(): Json {
    Obj([Member("files", FileList("a")), Member("files", FileList("b"))])
  }

  /** A row in preservation, with files. */
  function PreservedRow(): Stored {
    Stored(METAX_FAMILY, IDA, true,
           Obj([Member(PRESERVATION, Count("10", 10)), Member(RESEARCH, Obj([Member("files", FileList("a"))]))]))
  }

  lemma FileListStored(name: string)
    ensures Jsonb(FileList(name)) == FileList(name) && Decode(FileList(name)) == Some(VArr([VStr(name)]))
  {
    var items := [Str(name)];
    assert items[1..] == [] && JsonbItems(items) == items;
    assert Decode(items[0]) == Some(VStr(name)) && DecodeItems(items[1..]) == Some([]);
    assert DecodeItems(items) == Some([VStr(name)] + []) && [VStr(name)] + [] == [VStr(name)];
  }

  lemma TwoFileListsLookups(name: string)
    ensures Lookup(TwoFileLists(), [name]) == if name == "files" then Some(FileList("a")) else None
    ensures LastLookup(TwoFileLists(), [name]) == if name == "files" then Some(FileList("b")) else None
  {
    var ms := TwoFileLists().members;
    assert ms[1..][1..] == [] && [name][1..] == [];
  }

  lemma PreservedRowLookups(name: string)
    ensures Lookup(PreservedRow().blob, [RESEARCH, name]) == if name == "files" then Some(FileList("a")) else None
  {
    var ms := PreservedRow().blob.members;
    assert |PRESERVATION| == 18 && |RESEARCH| == 16;
    assert ms[1..][1..] == [] && [RESEARCH, name][1..] == [name] && [name][1..] == [];
    assert ms[1].value.members[1..] == [];
  }

  lemma PreservedRowTop(path: seq<string>)
    requires path != [] && path[0] != RESEARCH
    ensures Lookup(PreservedRow().blob, path) == if path == [PRESERVATION] then Some(Count("10", 10)) else None
  {
    var ms := PreservedRow().blob.members;
    assert ms[1..][1..] == [];
    if path[0] == PRESERVATION && |path| > 1 { assert Lookup(Count("10", 10), path[1..]) == None; }
    if |path| == 1 { assert path == [path[0]] && path[1..] == []; }
  }

  lemma PreservedRowIsStored()
    ensures IsStored(PreservedRow().blob)
  {
    var ms := PreservedRow().blob.members;
    assert |PRESERVATION| == 18 && |RESEARCH| == 16;
    var inner := ms[1].value.members;
    FileListStored("a");
    assert inner[1..] == [] && JsonbMembers(inner) == inner;
    assert ms[1..][1..] == [] && Jsonb(ms[1].value) == ms[1].value;
    assert JsonbMembers(ms[1..]) == ms[1..];
  }

  lemma PreservedRowIsPas()
    ensures !Locked(PreservedRow().blob) && IsPas(PreservedRow().blob)
  {
    PreservedRowTop([PRESERVATION]);
  }

  lemma NotFiles(name: string)
    requires name in READ_ONLY_NAMES
    ensures name != "files"
  {
    assert |"files"| == 5 && |READ_ONLY_NAMES[0]| == 27 && |READ_ONLY_NAMES[1]| == 20 && |READ_ONLY_NAMES[2]| == 21;
  }

  lemma FilesAccepted()
    ensures IsPas(PreservedRow().blob) && Accepted(PreservedRow(), 7, TwoFileLists(), "", None)
  {
    hide Locked, IsPas, Accepted, Jsonb;
    PreservedRowIsPas();
    forall name ensures Lookup(PreservedRow().blob, [RESEARCH, name]) == Lookup(TwoFileLists(), [name]) {
      PreservedRowLookups(name);
      TwoFileListsLookups(name);
    }
    FileListStored("a");
    PreservedRowLookups("files");
    PreservedRowLookups("directories");
    forall name | name in READ_ONLY_NAMES
      ensures SameText(Lookup(PreservedRow().blob, [RESEARCH, name]), Lookup(PreservedRow().blob, [RESEARCH, name]))
    {
      PreservedRowLookups(name);
      NotFiles(name);
    }
    SameFirstIsAccepted(PreservedRow(), 7, TwoFileLists());
  }

  /** The update is accepted although the row is in preservation, and the stored files are no longer the ones it had. */
  lemma FilesCanChange()
    ensures IsStored(PreservedRow().blob) && IsPas(PreservedRow().blob) && Accepted(PreservedRow(), 7, TwoFileLists(), "", None)
    ensures !ValuesAgree(TwoFileLists(), "files")
    ensures var after := Merged(PreservedRow().blob, UpdatePatch(7, TwoFileLists(), "", None));
            && Lookup(PreservedRow().blob, FILES) == Some(FileList("a")) && Lookup(after, FILES) == Some(FileList("b"))
            && !SameValue(Lookup(PreservedRow().blob, FILES), Lookup(after, FILES))
  {
    hide Locked, IsPas, Accepted;
    FilesAccepted();
    PreservedRowIsStored();
    TwoFileListsLookups("files");
    PreservedRowLookups("files");
    FileListStored("a");
    FileListStored("b");
    ListsDiffer();
    PatchResearch(7, TwoFileLists(), "", None, "files");
    LookupConcat(PreservedRow().blob, UpdatePatch(7, TwoFileLists(), "", None), FILES);
  }

  lemma ListsDiffer()
    ensures VArr([VStr("a")]) != VArr([VStr("b")])
  {
    assert VArr([VStr("a")]).items[0].s == "a" && VArr([VStr("b")]).items[0].s == "b";
    assert "a"[0] != "b"[0];
  }
}
