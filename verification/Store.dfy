/** The datasets table and the statements that change it. */
module Store {
  import opened Options
  import opened Json
  import opened Calendar
  import opened Datasets

  /** A row of the table; `revision` is its seq column. */
  datatype Row = Row(creator: Id, owner: Id, created: Instant, modified: Instant, synced: Option<Instant>, revision: int,
                     published: bool, valid: bool, family: int, schema: string, blob: Json)

  type Rows = map<Id, Row>

  datatype DbError = NotFound | NotOwner | Exists | InvalidFamily | StatementFailed

  // ---------- rows as statements leave them ----------

  /** An insert with the column defaults. */
  function DraftRow(owner: Id, now: Instant, family: int, schema: string, blob: Json): Row {
    Row(owner, owner, now, now, None, 0, false, false, family, schema, Jsonb(blob))
  }

  /** createWithMetadata for a record that Metax created: published and valid, synced when the batch began. */
  function ImportedRow(uid: Id, created: Instant, at: Instant, now: Instant, schema: string, blob: Json): Row {
    Row(uid, uid, created, now, Some(at), 0, true, true, METAX_FAMILY, schema, Jsonb(blob))
  }

  function VersionRow(base: Row, created: Instant, blob: Json): Row {
    Row(base.creator, base.owner, created, created, Some(created), 0, true, true, base.family, base.schema, Jsonb(blob))
  }

  function RefreshedRow(r: Row, now: Instant): Row {
    r.(synced := Some(now), revision := r.revision + 1)
  }

  function OverwrittenRow(r: Row, now: Instant, blob: Json): Row {
    r.(synced := Some(now), modified := now, revision := r.revision + 1, blob := Jsonb(blob))
  }

  function PublishedRow(r: Row, synced: Instant, blob: Json): Row {
    r.(blob := Jsonb(blob), published := true, synced := Some(synced), revision := r.revision + 1)
  }

  function ReplacedRow(r: Row, now: Instant, blob: Json): Row {
    r.(modified := now, revision := r.revision + 1, blob := Jsonb(blob))
  }

  /** The patch statement; None when the merge itself is an error. */
  function PatchedRow(r: Row, now: Instant, patch: Json): Option<Row> {
    match Concat(r.blob, patch)
    case None => None
    case Some(merged) => Some(r.(modified := now, revision := r.revision + 1, blob := merged))
  }

  // ---------- transactions on rows ----------

  function CheckOwner(rows: Rows, id: Id, owner: Id): Option<DbError> {
    if id !in rows then Some(NotFound) else if rows[id].owner != owner then Some(NotOwner) else None
  }

  function IsPartial(family: int): bool { family == METAX_FAMILY }

  /** SmartUpdateWithOwner: families that are shown in part are patched, the others replaced. */
  function UpdatedRow(r: Row, now: Instant, blob: Json): Option<Row> {
    if !KnownFamily(r.family) then None
    else if IsPartial(r.family) then PatchedRow(r, now, blob)
    else Some(ReplacedRow(r, now, blob))
  }

  /** The rows a list of ids names: all rows of an owner, each once, in any order. */
  ghost predicate ListsOwned(list: seq<Id>, rows: Rows, uid: Id) {
    && (forall id :: id in list <==> id in rows && rows[id].owner == uid)
    && forall i, j :: 0 <= i < j < |list| ==> list[i] != list[j]
  }

  class Database {
    var rows: Rows
    var lastsync: map<Id, Instant>

    constructor ()
      ensures rows == map[] && lastsync == map[]
    {
      rows, lastsync := map[], map[];
    }

    /** `fault` stands for a statement or connection error that rolls the transaction back. */
    method Create(id: Id, owner: Id, now: Instant, family: int, schema: string, blob: Json, fault: bool) returns (e: Option<DbError>)
      modifies this`rows
      ensures e == if fault then Some(StatementFailed) else if id in old(rows) then Some(Exists) else None
      ensures rows == if e.None? then old(rows)[id := Row(owner, owner, now, now, None, 0, false, false, family, schema, Jsonb(blob))]
                      else old(rows)
    {
      if fault {
        return Some(StatementFailed);
      }
      if id in rows {
        return Some(Exists);
      }
      rows := rows[id := Row(owner, owner, now, now, None, 0, false, false, family, schema, Jsonb(blob))];
      return None;
    }

    method GetWithOwner(id: Id, owner: Id, fault: bool) returns (r: Result<Row, DbError>)
      ensures r.Ok? <==> !fault && id in rows && rows[id].owner == owner
      ensures r.Ok? ==> r.value == rows[id]
      ensures r.Err? ==> r.error == if fault then StatementFailed else if id !in rows then NotFound else NotOwner
    {
      if fault {
        return Err(StatementFailed);
      }
      var e := CheckOwner(rows, id, owner);
      if e.Some? {
        return Err(e.value);
      }
      return Ok(rows[id]);
    }

    method SmartUpdateWithOwner(id: Id, blob: Json, owner: Id, now: Instant, fault: bool) returns (e: Option<DbError>)
      modifies this`rows
      ensures e.None? <==> !fault && id in old(rows) && old(rows)[id].owner == owner && UpdatedRow(old(rows)[id], now, blob).Some?
      ensures e.None? <==> !fault && id in old(rows) && old(rows)[id].owner == owner && 0 <= old(rows)[id].family <= 2
                           && (old(rows)[id].family == 2 ==> Concat(old(rows)[id].blob, blob).Some?)
      ensures !fault && id !in old(rows) ==> e == Some(NotFound)
      ensures !fault && id in old(rows) && old(rows)[id].owner != owner ==> e == Some(NotOwner)
      ensures rows == if e.None? then old(rows)[id := UpdatedRow(old(rows)[id], now, blob).value] else old(rows)
      ensures e.None? ==> var r := old(rows)[id];
                rows == old(rows)[id := r.(modified := now, revision := r.revision + 1,
                                           blob := if r.family == 2 then Concat(r.blob, blob).value else Jsonb(blob))]
    {
      if fault {
        return Some(StatementFailed);
      }
      var check := CheckOwner(rows, id, owner);
      if check.Some? {
        return check;
      }
      var row := rows[id];
      if !KnownFamily(row.family) {
        return Some(InvalidFamily);
      }
      if IsPartial(row.family) {
        var merged := Concat(row.blob, blob);
        if merged.None? {
          return Some(StatementFailed);
        }
        row := row.(modified := now, revision := row.revision + 1, blob := merged.value);
      } else {
        row := row.(modified := now, revision := row.revision + 1, blob := Jsonb(blob));
      }
      rows := rows[id := row];
      return None;
    }

    method StorePublished(id: Id, blob: Json, synced: Instant, fault: bool) returns (e: Option<DbError>)
      modifies this`rows
      ensures e == if fault then Some(StatementFailed) else if id !in old(rows) then Some(NotFound) else None
      ensures rows == if e.None? then old(rows)[id := PublishedRow(old(rows)[id], synced, blob)] else old(rows)
      ensures e.None? ==> var r := old(rows)[id];
                rows == old(rows)[id := r.(blob := Jsonb(blob), published := true, synced := Some(synced), revision := r.revision + 1)]
    {
      if fault {
        return Some(StatementFailed);
      }
      if id !in rows {
        return Some(NotFound);
      }
      rows := rows[id := rows[id].(blob := Jsonb(blob), published := true, synced := Some(synced), revision := rows[id].revision + 1)];
      return None;
    }

    method StoreNewVersion(basedOn: Id, id: Id, created: Instant, blob: Json, fault: bool) returns (e: Option<DbError>)
      modifies this`rows
      ensures e == if fault then Some(StatementFailed) else if basedOn !in old(rows) then Some(NotFound)
                   else if id in old(rows) then Some(Exists) else None
      ensures rows == if e.None? then old(rows)[id := VersionRow(old(rows)[basedOn], created, blob)] else old(rows)
      ensures e.None? ==> var base := old(rows)[basedOn];
                rows == old(rows)[id := Row(base.creator, base.owner, created, created, Some(created), 0, true, true,
                                            base.family, base.schema, Jsonb(blob))]
    {
      if fault {
        return Some(StatementFailed);
      }
      if basedOn !in rows {
        return Some(NotFound);
      }
      if id in rows {
        return Some(Exists);
      }
      var base := rows[basedOn];
      rows := rows[id := Row(base.creator, base.owner, created, created, Some(created), 0, true, true, base.family, base.schema, Jsonb(blob))];
      return None;
    }

    method Delete(id: Id, owner: Id, fault: bool) returns (e: Option<DbError>)
      modifies this`rows
      ensures e == if fault then Some(StatementFailed) else if id !in old(rows) then Some(NotFound)
                   else if old(rows)[id].owner != owner then Some(NotOwner) else None
      ensures rows == if e.None? then old(rows) - {id} else old(rows)
    {
      if fault {
        return Some(StatementFailed);
      }
      var check := CheckOwner(rows, id, owner);
      if check.Some? {
        return check;
      }
      rows := rows - {id};
      return None;
    }

    /** The select has no order: the rows come in whatever order the database finds them. */
    method GetAllForUid(uid: Id) returns (list: seq<Id>)
      ensures ListsOwned(list, rows, uid)
    {
      list := [];
      var left := rows.Keys;
      while left != {}
        invariant left <= rows.Keys
        invariant forall id :: id in list <==> id in rows.Keys - left && rows[id].owner == uid
        invariant forall i, j :: 0 <= i < j < |list| ==> list[i] != list[j]
        decreases left
      {
        var id :| id in left;
        left := left - {id};
        if rows[id].owner == uid {
          list := list + [id];
        }
      }
    }
  }
}
