/**
 * The scene's two CPU-side tables (Scene.hpp): the material table, an
 * append-only vector of `Material` records with a name-to-index map in front
 * of it, and the append-only object list.
 */
module SceneTables {
  import opened Vectors
  import opened Geometry
  import opened Results

  /** Material.hpp: three four-component fields. */
  datatype Material = Material(albedo: Vec4, specular_roughness: Vec4, emission_ior: Vec4)

  /** `emplace_back()` value-initialises the record: every component is zero. */
  const DefaultMaterial: Material := Material(Zero4, Zero4, Zero4)

  datatype MaterialTable = MaterialTable(materials: seq<Material>, indices: map<string, int>)

  const EmptyTable: MaterialTable := MaterialTable([], map[])

  /**
   * The table's invariant: every mapped index addresses a record, distinct
   * names map to distinct records, and there are as many names as records
   * (so every record has exactly one name).
   */
  ghost predicate Valid(t: MaterialTable) {
    && (forall n :: n in t.indices ==> 0 <= t.indices[n] < |t.materials|)
    && (forall n, m :: n in t.indices && m in t.indices && n != m ==> t.indices[n] != t.indices[m])
    && |t.indices| == |t.materials|
  }

  lemma EmptyTableValid()
    ensures Valid(EmptyTable)
  {
  }

  /** The lookup-only query: the record's index, or -1 for an unknown name. */
  function GetMaterialIndex(t: MaterialTable, name: string): (r: int)
    ensures name !in t.indices ==> r == -1
    ensures name in t.indices ==> r == t.indices[name]
    ensures Valid(t) ==> (r == -1 <==> name !in t.indices)
    ensures Valid(t) && r != -1 ==> 0 <= r < |t.materials|
  {
    if name !in t.indices then -1 else t.indices[name]
  }

  /** The outcome of lookup-or-create: the table afterwards and the index of the record returned by reference. */
  datatype Lookup = Lookup(table: MaterialTable, index: int)

  /** Lookup-or-create: an existing name returns its record; a new name appends a zero record. */
  function GetMaterial(t: MaterialTable, name: string): (r: Lookup)
    ensures name in t.indices ==> r.table == t && r.index == t.indices[name]
    ensures name !in t.indices ==>
              && r.table.materials == t.materials + [DefaultMaterial]
              && r.table.indices == t.indices[name := |t.materials|]
              && r.index == |t.materials|
    ensures name in r.table.indices && r.table.indices[name] == r.index
    ensures t.materials <= r.table.materials
    ensures forall n :: n in t.indices ==> n in r.table.indices && r.table.indices[n] == t.indices[n]
    ensures Valid(t) ==> Valid(r.table) && 0 <= r.index < |r.table.materials|
  {
    if name in t.indices then
      Lookup(t, t.indices[name])
    else
      AppendValid(t, name);
      Lookup(MaterialTable(t.materials + [DefaultMaterial], t.indices[name := |t.materials|]), |t.materials|)
  }

  lemma AppendValid(t: MaterialTable, name: string)
    requires name !in t.indices
    ensures Valid(t) ==> Valid(MaterialTable(t.materials + [DefaultMaterial], t.indices[name := |t.materials|]))
  {
    assert |t.indices[name := |t.materials|]| == |t.indices| + 1;
  }

  /** A run of `getMaterial` calls, in order. */
  function GetMaterials(t: MaterialTable, names: seq<string>): MaterialTable
    decreases |names|
  {
    if |names| == 0 then t else GetMaterials(GetMaterial(t, names[0]).table, names[1..])
  }

  /**
   * Once a name has been registered, every later run of lookups keeps it at
   * the same index and keeps the records before it.
   */
  lemma {:induction false} GetMaterialsKeeps(t: MaterialTable, names: seq<string>, n: string)
    requires n in t.indices
    ensures n in GetMaterials(t, names).indices
    ensures GetMaterials(t, names).indices[n] == t.indices[n]
    ensures t.materials <= GetMaterials(t, names).materials
    decreases |names|
  {
    if |names| > 0 {
      var t1 := GetMaterial(t, names[0]).table;
      GetMaterialsKeeps(t1, names[1..], n);
    }
  }

  /**
   * Lookup idempotence: after `getMaterial(n)` returns index i, the query
   * `getMaterialIndex(n)` answers i after any later sequence of lookups.
   */
  lemma LookupStable(t: MaterialTable, n: string, later: seq<string>)
    ensures GetMaterialIndex(GetMaterials(GetMaterial(t, n).table, later), n) == GetMaterial(t, n).index
  {
    GetMaterialsKeeps(GetMaterial(t, n).table, later, n);
  }

  /** The names a run of lookups has touched. */
  function NameSet(names: seq<string>): set<string> {
    set i | 0 <= i < |names| :: names[i]
  }

  /**
   * Starting from the empty table, a run of lookups registers exactly the
   * names it asked for, one record per distinct name, and keeps the table valid.
   */
  lemma {:induction false} GetMaterialsFromEmpty(names: seq<string>)
    ensures Valid(GetMaterials(EmptyTable, names))
    ensures GetMaterials(EmptyTable, names).indices.Keys == NameSet(names)
    ensures |GetMaterials(EmptyTable, names).materials| == |NameSet(names)|
  {
    GetMaterialsGrowth(EmptyTable, names);
    var t := GetMaterials(EmptyTable, names);
    assert |t.indices.Keys| == |t.indices|;
  }

  lemma {:induction false} GetMaterialsGrowth(t: MaterialTable, names: seq<string>)
    requires Valid(t)
    ensures Valid(GetMaterials(t, names))
    ensures GetMaterials(t, names).indices.Keys == t.indices.Keys + NameSet(names)
    decreases |names|
  {
    if |names| > 0 {
      var t1 := GetMaterial(t, names[0]).table;
      assert GetMaterials(t, names) == GetMaterials(t1, names[1..]);
      GetMaterialsGrowth(t1, names[1..]);
      StepKeys(t, names[0]);
      NameSetCons(names);
      AssocUnion(t.indices.Keys, {names[0]}, NameSet(names[1..]));
    } else {
      assert NameSet(names) == {};
    }
  }

  lemma StepKeys(t: MaterialTable, n: string)
    ensures GetMaterial(t, n).table.indices.Keys == t.indices.Keys + {n}
  {
  }

  lemma AssocUnion<T>(a: set<T>, b: set<T>, c: set<T>)
    ensures a + b + c == a + (b + c)
  {
  }

  lemma NameSetCons(names: seq<string>)
    requires |names| > 0
    ensures NameSet(names) == {names[0]} + NameSet(names[1..])
  {
    forall x | x in NameSet(names) ensures x in {names[0]} + NameSet(names[1..]) {
      var i :| 0 <= i < |names| && names[i] == x;
      if i > 0 { assert names[1..][i - 1] == x; }
    }
    forall x | x in NameSet(names[1..]) ensures x in NameSet(names) {
      var i :| 0 <= i < |names[1..]| && names[1..][i] == x;
      assert names[i + 1] == x;
    }
  }

  /** `getObject`: always appends a fresh, empty object, even for a name already used. */
  function GetObject(objects: seq<Object>, name: string): (r: seq<Object>)
    ensures |r| == |objects| + 1
    ensures r[..|objects|] == objects
    ensures r[|objects|].name == name && r[|objects|].triangles == []
    ensures r[|objects|].material_index.None?
    ensures CountNamed(r, name) == CountNamed(objects, name) + 1
  {
    var r := objects + [Object(name, [], None)];
    CountNamedAppend(objects, Object(name, [], None), name);
    r
  }

  /** How many objects carry a given name. */
  function CountNamed(objects: seq<Object>, name: string): nat {
    if |objects| == 0 then 0
    else CountNamed(objects[..|objects| - 1], name) + (if objects[|objects| - 1].name == name then 1 else 0)
  }

  lemma CountNamedAppend(objects: seq<Object>, o: Object, name: string)
    ensures CountNamed(objects + [o], name) == CountNamed(objects, name) + (if o.name == name then 1 else 0)
  {
    assert (objects + [o])[..|objects|] == objects;
  }
}
