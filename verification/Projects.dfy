/** The proxy's checks and edits of decoded JSON bodies. */
module Projects {
  import opened Options
  import opened Json

  const PROJECT := "project_identifier"

  // ---------- paths into a value ----------

  datatype Hop = Key(key: string) | Index(i: nat)

  function Next(v: Value, hop: Hop): Option<Value> {
    match (v, hop)
    case (VObj(fields), Key(k)) => if k in fields then Some(fields[k]) else None
    case (VArr(items), Index(i)) => if i < |items| then Some(items[i]) else None
    case _ => None
  }

  function At(v: Value, path: seq<Hop>): Option<Value> {
    if path == [] then Some(v)
    else
      var n := Next(v, path[0]);
      if n.None? then None else At(n.value, path[1..])
  }

  /** Every entry named project_identifier that holds a string, at any depth, names one of the projects. */
  ghost predicate OnlyProjects(projects: seq<string>, v: Value) {
    forall path: seq<Hop>, p | At(v, path) == Some(VStr(p)) && path != [] && path[|path| - 1] == Key("project_identifier") :: p in projects
  }

  // ---------- the check ----------

  predicate EntryOk(projects: seq<string>, key: string, v: Value) {
    v.VStr? && key == PROJECT ==> v.s in projects
  }

  /** The check, level by level. */
  predicate Clean(projects: seq<string>, v: Value)
    decreases v
  {
    match v
    case VObj(fields) => forall k <- fields :: EntryOk(projects, k, fields[k]) && Clean(projects, fields[k])
    case VArr(items) => forall i | 0 <= i < |items| :: Clean(projects, items[i])
    case _ => true
  }

  method HasProject(projects: seq<string>, project: string) returns (has: bool)
    ensures has <==> project in projects
  {
    for i := 0 to |projects|
      invariant project !in projects[..i]
    {
      if projects[i] == project {
        return true;
      }
    }
    assert projects[..|projects|] == projects;
    return false;
  }

  method CheckProjectIdentifierMap(projects: seq<string>, m: Value) returns (ok: bool)
    requires m.VObj?
    ensures ok <==> Clean(projects, m)
    decreases m, 0
  {
    // the language visits the entries of a map in any order
    var left := m.fields.Keys;
    while left != {}
      invariant left <= m.fields.Keys
      invariant forall k <- m.fields.Keys - left :: EntryOk(projects, k, m.fields[k]) && Clean(projects, m.fields[k])
      decreases left
    {
      var key :| key in left;
      left := left - {key};
      var v := m.fields[key];
      match v {
        case VStr(s) =>
          if key == PROJECT {
            var has := HasProject(projects, s);
            if !has {
              return false;
            }
          }
        case VObj(_) =>
          var nested := CheckProjectIdentifierMap(projects, v);
          if !nested {
            return false;
          }
        case VArr(_) =>
          var nested := CheckProjectIdentifierArray(projects, v);
          if !nested {
            return false;
          }
        case _ =>
      }
    }
    return true;
  }

  method CheckProjectIdentifierArray(projects: seq<string>, a: Value) returns (ok: bool)
    requires a.VArr?
    ensures ok <==> Clean(projects, a)
    decreases a, 0
  {
    for i := 0 to |a.items|
      invariant forall j | 0 <= j < i :: Clean(projects, a.items[j])
    {
      var v := a.items[i];
      match v {
        case VObj(_) =>
          var nested := CheckProjectIdentifierMap(projects, v);
          if !nested {
            return false;
          }
        case VArr(_) =>
          var nested := CheckProjectIdentifierArray(projects, v);
          if !nested {
            return false;
          }
        case _ =>
      }
    }
    return true;
  }

  /** The check passes exactly when the whole body names only projects of the user. */
  method CheckProjectIdentifier(projects: seq<string>, obj: Value) returns (ok: bool)
    ensures ok <==> OnlyProjects(projects, obj)
  {
    CleanIffOnlyProjects(projects, obj);
    match obj {
      case VObj(_) =>
        ok := CheckProjectIdentifierMap(projects, obj);
      case VArr(_) =>
        ok := CheckProjectIdentifierArray(projects, obj);
      case _ =>
        ok := true;
    }
  }

  lemma {:induction false} CleanBelow(projects: seq<string>, v: Value, path: seq<Hop>)
    requires Clean(projects, v) && path != [] && At(v, path).Some? && path[|path| - 1] == Key(PROJECT)
    ensures EntryOk(projects, PROJECT, At(v, path).value)
    decreases |path|
  {
    var n := Next(v, path[0]);
    assert Clean(projects, n.value);
    if |path| == 1 {
      assert path[1..] == [];
    } else {
      CleanBelow(projects, n.value, path[1..]);
    }
  }

  lemma BelowHop(projects: seq<string>, v: Value, hop: Hop)
    requires OnlyProjects(projects, v) && Next(v, hop).Some?
    ensures OnlyProjects(projects, Next(v, hop).value)
    ensures hop == Key(PROJECT) ==> EntryOk(projects, PROJECT, Next(v, hop).value)
  {
    var w := Next(v, hop).value;
    forall path: seq<Hop>, p | At(w, path) == Some(VStr(p)) && path != [] && path[|path| - 1] == Key(PROJECT)
      ensures p in projects
    {
      var longer := [hop] + path;
      assert longer[1..] == path;
      assert At(v, longer) == Some(VStr(p)) && longer[|longer| - 1] == Key(PROJECT);
    }
    if hop == Key(PROJECT) && w.VStr? {
      assert [hop][1..] == [];
      assert At(v, [hop]) == Some(VStr(w.s)) && [hop][|[hop]| - 1] == Key(PROJECT);
    }
  }

  lemma {:induction false} OnlyProjectsIsClean(projects: seq<string>, v: Value)
    requires OnlyProjects(projects, v)
    ensures Clean(projects, v)
    decreases v
  {
    match v
    case VObj(fields) =>
      forall k | k in fields ensures EntryOk(projects, k, fields[k]) && Clean(projects, fields[k]) {
        assert Next(v, Key(k)) == Some(fields[k]);
        BelowHop(projects, v, Key(k));
        OnlyProjectsIsClean(projects, fields[k]);
      }
    case VArr(items) =>
      forall i | 0 <= i < |items| ensures Clean(projects, items[i]) {
        assert Next(v, Index(i)) == Some(items[i]);
        BelowHop(projects, v, Index(i));
        OnlyProjectsIsClean(projects, items[i]);
      }
    case _ =>
  }

  lemma CleanIffOnlyProjects(projects: seq<string>, v: Value)
    ensures Clean(projects, v) <==> OnlyProjects(projects, v)
  {
    if Clean(projects, v) {
      forall path: seq<Hop>, p | At(v, path) == Some(VStr(p)) && path != [] && path[|path| - 1] == Key(PROJECT)
        ensures p in projects
      {
        CleanBelow(projects, v, path);
      }
    }
    if OnlyProjects(projects, v) { OnlyProjectsIsClean(projects, v); }
  }

  // ---------- the edit of a request body ----------

  /** An object with one entry set; other values have no entries. */
  function Set(v: Value, key: string, value: string): Value {
    if v.VObj? then VObj(v.fields[key := VStr(value)]) else v
  }

  function Edited(data: Value, key: string, value: string): Value {
    if data.VArr? then VArr(seq(|data.items|, i requires 0 <= i < |data.items| => Set(data.items[i], key, value)))
    else Set(data, key, value)
  }

  /** Sets an entry of the root object, or of each object in a root array. */
  method AddProperty(body: Value, key: string, value: string) returns (data: Value)
    ensures data == Edited(body, key, value)
  {
    data := body;
    match body {
      case VObj(fields) =>
        data := VObj(fields[key := VStr(value)]);
      case VArr(items) =>
        var objects := items;
        for i := 0 to |items|
          invariant |objects| == |items|
          invariant forall j | 0 <= j < |items| :: objects[j] == if j < i then Set(items[j], key, value) else items[j]
        {
          if objects[i].VObj? {
            objects := objects[i := VObj(objects[i].fields[key := VStr(value)])];
          }
        }
        data := VArr(objects);
      case _ =>
    }
  }

  /** The path reaches the edited entry of the root object, or of an object in a root array. */
  predicate Through(body: Value, path: seq<Hop>, key: string) {
    || (body.VObj? && path != [] && path[0] == Key(key))
    || (body.VArr? && |path| >= 2 && path[1] == Key(key) && Next(body, path[0]).Some? && Next(body, path[0]).value.VObj?)
  }

  lemma SetAt(v: Value, key: string, value: string, path: seq<Hop>)
    requires path != []
    ensures At(Set(v, key, value), path) ==
            if v.VObj? && path[0] == Key(key) then (if |path| == 1 then Some(VStr(value)) else None) else At(v, path)
  {
    if v.VObj? && path[0] == Key(key) && |path| > 1 {
      assert Next(VStr(value), path[1..][0]) == None;
    }
  }

  /** The edited entries hold the value with nothing below them, and every scalar elsewhere is as before. */
  lemma EditAt(body: Value, key: string, value: string, path: seq<Hop>, leaf: Value)
    requires !leaf.VObj? && !leaf.VArr?
    ensures Through(body, path, key) ==>
              At(Edited(body, key, value), path) == if |path| == (if body.VObj? then 1 else 2) then Some(VStr(value)) else None
    ensures !Through(body, path, key) ==>
              (At(Edited(body, key, value), path) == Some(leaf) <==> At(body, path) == Some(leaf))
  {
    if path == [] {
    } else if !body.VArr? {
      SetAt(body, key, value, path);
    } else if Next(body, path[0]).Some? {
      var item := Next(body, path[0]).value;
      assert Next(Edited(body, key, value), path[0]) == Some(Set(item, key, value));
      if |path| > 1 { SetAt(item, key, value, path[1..]); }
    }
  }

  /** Setting another property does not add a project to a body. */
  lemma EditStaysClean(projects: seq<string>, body: Value, key: string, value: string)
    requires OnlyProjects(projects, body) && key != PROJECT
    ensures OnlyProjects(projects, Edited(body, key, value))
  {
    var r := Edited(body, key, value);
    forall path: seq<Hop>, p | At(r, path) == Some(VStr(p)) && path != [] && path[|path| - 1] == Key(PROJECT)
      ensures p in projects
    {
      EditAt(body, key, value, path, VStr(p));
    }
  }
}
