/**
 Creating a collection and patching its schema (db/collection.go): what an accepted patch may change, and what
 every later version of a collection keeps.
 */
module Schema {
  import opened Options

  datatype Relation = Relation(schema: string, name: string, kind: nat)

  datatype Field = Field(name: string, id: nat, kind: nat, typ: nat, relation: Relation)

  datatype Description = Description(
    name: string, id: nat, schemaName: string, schemaID: string, versionID: string, fields: seq<Field>)

  const KEY_FIELD_NAME := "_key"

  const KIND_NONE: nat := 0
  const KIND_DOC_KEY: nat := 1
  const KIND_FOREIGN_OBJECT: nat := 16
  const KIND_FOREIGN_OBJECT_ARRAY: nat := 17

  const NONE_CRDT: nat := 0
  const LWW_REGISTER: nat := 1

  predicate IsObject(f: Field) { f.kind == KIND_FOREIGN_OBJECT || f.kind == KIND_FOREIGN_OBJECT_ARRAY }

  // ---------- Well-formed descriptions ----------

  ghost predicate DistinctNames(fields: seq<Field>) {
    forall i, j :: 0 <= i < j < |fields| ==> fields[i].name != fields[j].name
  }

  /** The key field comes first, names are distinct, and every identifier is an index. */
  ghost predicate WellFormed(fields: seq<Field>) {
    && fields != [] && fields[0].name == KEY_FIELD_NAME
    && DistinctNames(fields)
    && forall i :: 0 <= i < |fields| ==> fields[i].id == i
  }

  /** Every old field keeps its name, identifier and kind at its index. */
  ghost predicate Extends(old': seq<Field>, new': seq<Field>) {
    && |old'| <= |new'|
    && forall i :: 0 <= i < |old'| ==>
         new'[i].name == old'[i].name && new'[i].id == old'[i].id && new'[i].kind == old'[i].kind
  }

  ghost predicate HasKeyField(fields: seq<Field>) {
    exists i :: 0 <= i < |fields| && fields[i].name == KEY_FIELD_NAME
  }

  // ---------- Creating ----------

  predicate Creatable(f: Field) {
    f.name != "" && f.kind != KIND_NONE && (f.kind == KIND_DOC_KEY || IsObject(f) || f.typ != NONE_CRDT)
  }

  method NewCollection(desc: Description) returns (r: Option<Description>)
    ensures r.Some? <==> desc.name != "" && desc.fields != []
                         && desc.fields[0].kind == KIND_DOC_KEY && desc.fields[0].name == KEY_FIELD_NAME
                         && forall i :: 0 <= i < |desc.fields| ==> Creatable(desc.fields[i])
    ensures r.Some? ==> r.value == desc.(fields := r.value.fields) && |r.value.fields| == |desc.fields|
                        && forall i :: 0 <= i < |desc.fields| ==> r.value.fields[i] == desc.fields[i].(id := i)
    ensures r.Some? && DistinctNames(desc.fields) ==> WellFormed(r.value.fields)
  {
    if desc.name == "" || |desc.fields| == 0 {
      return None;
    }
    if desc.fields[0].kind != KIND_DOC_KEY || desc.fields[0].name != KEY_FIELD_NAME {
      return None;
    }
    var fields := desc.fields;
    for i := 0 to |desc.fields|
      invariant |fields| == |desc.fields|
      invariant forall j :: 0 <= j < i ==> Creatable(desc.fields[j]) && fields[j] == desc.fields[j].(id := j)
      invariant forall j :: i <= j < |fields| ==> fields[j] == desc.fields[j]
    {
      if !Creatable(fields[i]) {
        return None;
      }
      fields := fields[i := fields[i].(id := i)];
    }
    return Some(desc.(fields := fields));
  }

  // ---------- Validating ----------

  function ById(fields: seq<Field>, id: nat): Option<Field> {
    if fields == [] then None
    else if fields[|fields| - 1].id == id then Some(fields[|fields| - 1])
    else ById(fields[..|fields| - 1], id)
  }

  function IndexOf(fields: seq<Field>, name: string): nat {
    if fields == [] then 0
    else if fields[|fields| - 1].name == name then |fields| - 1
    else IndexOf(fields[..|fields| - 1], name)
  }

  /** The existing field that a proposed one claims to be: only fields with an identifier, and the key field, claim. */
  function Claimed(existing: seq<Field>, f: Field): Option<Field> {
    if f.id != 0 || f.name == KEY_FIELD_NAME then ById(existing, f.id) else None
  }

  predicate FieldAccepted(existing: seq<Field>, proposed: seq<Field>, i: nat)
    requires i < |proposed|
  {
    var f := proposed[i];
    var known := Claimed(existing, f);
    && (f.id != 0 ==> known.Some?)
    && (known == None ==> !IsObject(f))
    && (forall j :: 0 <= j < i ==> proposed[j].name != f.name)
    && (known.Some? ==> f == known.value && i == IndexOf(existing, f.name))
    && (f.typ == NONE_CRDT || f.typ == LWW_REGISTER)
  }

  predicate HeaderAccepted(e: Description, p: Description) {
    && p.id == e.id && p.schemaID == e.schemaID && p.schemaName == e.schemaName
    && (p.versionID == "" || p.versionID == e.versionID)
  }

  ghost predicate Accepted(e: Description, p: Description) {
    && HeaderAccepted(e, p)
    && (forall i :: 0 <= i < |p.fields| ==> FieldAccepted(e.fields, p.fields, i))
    && (forall i :: 0 <= i < |e.fields| ==> exists j :: 0 <= j < |p.fields| && p.fields[j].id == e.fields[i].id)
  }

  ghost predicate Changes(e: Description, p: Description) {
    exists i :: 0 <= i < |p.fields| && Claimed(e.fields, p.fields[i]) == None
  }

  lemma {:induction false} ByIdNone(fields: seq<Field>, id: nat)
    ensures ById(fields, id) == None <==> forall i :: 0 <= i < |fields| ==> fields[i].id != id
    ensures ById(fields, id).Some? ==> ById(fields, id).value in fields && ById(fields, id).value.id == id
  {
    if fields != [] {
      ByIdNone(fields[..|fields| - 1], id);
    }
  }

  function Get<K, V>(m: map<K, V>, k: K): Option<V> { if k in m then Some(m[k]) else None }

  /** The fields by identifier, and their indexes by name; a later field overrides an earlier one. */
  method IndexFields(fields: seq<Field>) returns (byId: map<nat, Field>, indexes: map<string, nat>)
    ensures forall id :: Get(byId, id) == ById(fields, id)
    ensures forall name :: IndexOf(fields, name) == if name in indexes then indexes[name] else 0
  {
    byId, indexes := map[], map[];
    for i := 0 to |fields|
      invariant forall id :: Get(byId, id) == ById(fields[..i], id)
      invariant forall name :: IndexOf(fields[..i], name) == if name in indexes then indexes[name] else 0
    {
      assert fields[..i + 1][..i] == fields[..i];
      indexes := indexes[fields[i].name := i];
      byId := byId[fields[i].id := fields[i]];
    }
    assert fields[..|fields|] == fields;
  }

  method ValidateFields(e: seq<Field>, p: seq<Field>) returns (ok: bool, hasChanged: bool, ids: set<nat>)
    ensures ok <==> forall i :: 0 <= i < |p| ==> FieldAccepted(e, p, i)
    ensures ok ==> (hasChanged <==> exists i :: 0 <= i < |p| && Claimed(e, p[i]) == None)
    ensures ok ==> forall id :: id in ids <==> exists i :: 0 <= i < |p| && p[i].id == id
  {
    var byId, indexes := IndexFields(e);
    var names: set<string> := {};
    hasChanged, ids := false, {};
    for i := 0 to |p|
      invariant forall j :: 0 <= j < i ==> FieldAccepted(e, p, j)
      invariant hasChanged <==> exists j :: 0 <= j < i && Claimed(e, p[j]) == None
      invariant forall n :: n in names <==> exists j :: 0 <= j < i && p[j].name == n
      invariant forall id :: id in ids <==> exists j :: 0 <= j < i && p[j].id == id
    {
      var f := p[i];
      var known := None;
      if f.id != 0 || f.name == KEY_FIELD_NAME {
        known := Get(byId, f.id);
      }
      assert known == Claimed(e, f);
      var exists' := known.Some?;
      if f.id != 0 && !exists' {
        assert !FieldAccepted(e, p, i);
        return false, hasChanged, ids;
      }
      hasChanged := hasChanged || !exists';
      if !exists' && IsObject(f) {
        assert !FieldAccepted(e, p, i);
        return false, hasChanged, ids;
      }
      if f.name in names {
        assert !FieldAccepted(e, p, i);
        return false, hasChanged, ids;
      }
      if exists' && f != known.value {
        assert !FieldAccepted(e, p, i);
        return false, hasChanged, ids;
      }
      var existingIndex := if f.name in indexes then indexes[f.name] else 0;
      assert existingIndex == IndexOf(e, f.name);
      if exists' && i != existingIndex {
        assert !FieldAccepted(e, p, i);
        return false, hasChanged, ids;
      }
      if f.typ != NONE_CRDT && f.typ != LWW_REGISTER {
        assert !FieldAccepted(e, p, i);
        return false, hasChanged, ids;
      }
      names := names + {f.name};
      ids := ids + {f.id};
    }
    return true, hasChanged, ids;
  }

  /** A patch of an existing collection is valid exactly when it is accepted, and says whether it adds a field. */
  method ValidateUpdate(existing: Option<Description>, p: Description) returns (ok: bool, hasChanged: bool)
    ensures ok <==> existing.Some? && Accepted(existing.value, p)
    ensures ok ==> (hasChanged <==> Changes(existing.value, p))
  {
    hasChanged := false;
    if existing == None {
      return false, false;
    }
    var e := existing.value;
    if !HeaderAccepted(e, p) {
      return false, false;
    }
    var ids;
    ok, hasChanged, ids := ValidateFields(e.fields, p.fields);
    if !ok {
      return;
    }
    for i := 0 to |e.fields|
      invariant forall k :: 0 <= k < i ==> e.fields[k].id in ids
    {
      if e.fields[i].id !in ids {
        return false, hasChanged;
      }
    }
  }

  // ---------- Updating ----------

  /** New fields get their index as identifier, and the default CRDT type is filled in. */
  function Completed(f: Field, i: nat): Field {
    f.(id := if f.id == 0 then i else f.id, typ := if f.typ == NONE_CRDT then LWW_REGISTER else f.typ)
  }

  function CompletedAll(fields: seq<Field>): seq<Field> {
    seq(|fields|, i requires 0 <= i < |fields| => Completed(fields[i], i))
  }

  /** The persisted description after a valid patch; a patch that changes nothing leaves it as it is. */
  method UpdateCollection(existing: Option<Description>, p: Description, newVersionID: string)
    returns (r: Option<Description>)
    ensures r.Some? <==> existing.Some? && Accepted(existing.value, p)
    ensures r.Some? ==>
              r.value == if Changes(existing.value, p)
                         then p.(fields := CompletedAll(p.fields), versionID := newVersionID) else existing.value
  {
    var ok, hasChanged := ValidateUpdate(existing, p);
    if !ok {
      return None;
    }
    if !hasChanged {
      return existing;
    }
    var fields := p.fields;
    for i := 0 to |fields|
      invariant |fields| == |p.fields|
      invariant forall j :: 0 <= j < i ==> fields[j] == Completed(p.fields[j], j)
      invariant forall j :: i <= j < |fields| ==> fields[j] == p.fields[j]
    {
      if fields[i].id == 0 {
        fields := fields[i := fields[i].(id := i)];
      }
      if fields[i].typ == NONE_CRDT {
        fields := fields[i := fields[i].(typ := LWW_REGISTER)];
      }
    }
    assert fields == CompletedAll(p.fields);
    return Some(p.(fields := fields, versionID := newVersionID));
  }

  // ---------- Patches only extend ----------

  lemma {:induction false} IndexOfDistinct(fields: seq<Field>, i: nat)
    requires DistinctNames(fields) && i < |fields|
    ensures IndexOf(fields, fields[i].name) == i
  {
    if i < |fields| - 1 {
      IndexOfDistinct(fields[..|fields| - 1], i);
    }
  }

  /** A claim on a well-formed description names the field at the claimed identifier. */
  lemma ClaimIsIndex(e: seq<Field>, p: seq<Field>, j: nat)
    requires WellFormed(e) && j < |p| && FieldAccepted(e, p, j) && Claimed(e, p[j]).Some?
    ensures p[j].id == j < |e| && p[j] == e[j]
  {
    ByIdNone(e, p[j].id);
    var i :| 0 <= i < |e| && e[i] == p[j];
    IndexOfDistinct(e, i);
  }

  /** An accepted patch keeps every old field in place if and only if it keeps a key field. */
  lemma PatchExtendsExactly(e: Description, p: Description)
    requires WellFormed(e.fields) && Accepted(e, p)
    ensures Extends(e.fields, CompletedAll(p.fields)) <==> HasKeyField(p.fields)
    ensures HasKeyField(p.fields) ==> WellFormed(CompletedAll(p.fields))
  {
    if Extends(e.fields, CompletedAll(p.fields)) {
      assert CompletedAll(p.fields)[0].name == KEY_FIELD_NAME;
      assert p.fields[0].name == KEY_FIELD_NAME;
    }
    if HasKeyField(p.fields) {
      forall i | 0 <= i < |e.fields|
        ensures i < |p.fields| && CompletedAll(p.fields)[i] == Completed(e.fields[i], i)
      {
        KeptInPlace(e, p, i);
      }
      KeptInPlace(e, p, |e.fields| - 1);
      assert Extends(e.fields, CompletedAll(p.fields));
      forall i | 0 <= i < |p.fields| ensures CompletedAll(p.fields)[i].id == i {
        assert FieldAccepted(e.fields, p.fields, i);
        if Claimed(e.fields, p.fields[i]).Some? {
          ClaimIsIndex(e.fields, p.fields, i);
        }
      }
      forall i, j | 0 <= i < j < |p.fields|
        ensures CompletedAll(p.fields)[i].name != CompletedAll(p.fields)[j].name
      {
        assert FieldAccepted(e.fields, p.fields, j);
      }
    }
  }

  lemma KeptInPlace(e: Description, p: Description, i: nat)
    requires WellFormed(e.fields) && Accepted(e, p) && HasKeyField(p.fields) && i < |e.fields|
    ensures i < |p.fields| && p.fields[i] == e.fields[i]
  {
    var j;
    if i == 0 {
      j :| 0 <= j < |p.fields| && p.fields[j].name == KEY_FIELD_NAME;
    } else {
      j :| 0 <= j < |p.fields| && p.fields[j].id == e.fields[i].id;
    }
    assert FieldAccepted(e.fields, p.fields, j);
    ByIdNone(e.fields, p.fields[j].id);
    ClaimIsIndex(e.fields, p.fields, j);
  }

  /** The persisted description that a patch leads to. */
  ghost predicate IsUpdate(e: Description, p: Description, e': Description) {
    && Accepted(e, p)
    && e' == if Changes(e, p) then p.(fields := CompletedAll(p.fields), versionID := e'.versionID) else e
  }

  /** In every sequence of accepted patches that keep a key field, each version extends every earlier one. */
  lemma {:induction false} PatchesOnlyExtend(versions: seq<Description>, patches: seq<Description>, i: nat, j: nat)
    requires |versions| == |patches| + 1 && WellFormed(versions[0].fields) && i <= j < |versions|
    requires forall k :: 0 <= k < |patches| ==>
               HasKeyField(patches[k].fields) && IsUpdate(versions[k], patches[k], versions[k + 1])
    ensures WellFormed(versions[j].fields) && Extends(versions[i].fields, versions[j].fields)
    decreases j
  {
    if j > 0 {
      var k := j - 1;
      PatchesOnlyExtend(versions, patches, if i < j then i else k, k);
      assert HasKeyField(patches[k].fields) && IsUpdate(versions[k], patches[k], versions[k + 1]);
      PatchExtendsExactly(versions[k], patches[k]);
    }
  }

  /** Without the key field the claim fails: dropping it while adding a field is accepted. */
  lemma KeyFieldCanBeDropped() returns (e: Description, p: Description)
    ensures WellFormed(e.fields) && Accepted(e, p) && !Extends(e.fields, CompletedAll(p.fields))
  {
    var none := Relation("", "", 0);
    var key := Field(KEY_FIELD_NAME, 0, KIND_DOC_KEY, NONE_CRDT, none);
    var age := Field("age", 0, 4, LWW_REGISTER, none);
    e := Description("User", 1, "User", "s", "v", [key]);
    p := e.(fields := [age]);
    assert ById([], 0) == None;
    assert FieldAccepted(e.fields, p.fields, 0);
    assert p.fields[0].id == e.fields[0].id;
    assert CompletedAll(p.fields)[0].name == "age";
    assert "age"[0] == 'a' && KEY_FIELD_NAME[0] == '_';
  }
}
