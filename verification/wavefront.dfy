/**
 * The Wavefront loaders of Scene.cpp (`addWavefrontModel`, `readWFMaterial`),
 * structural part: how lines are classified by prefix, how faces are buffered
 * per `o` group and flushed into triangles, and which material field each MTL
 * key writes. Number parsing (`sscanf`) and `glm::normalize` are supplied as
 * functions in a `Numerics` record; the file contents are sequences of lines.
 */
module Wavefront {
  import opened Words
  import opened Vectors
  import opened Results
  import opened Geometry
  import opened SceneTables

  datatype Idx3 = Idx3(i0: U32, i1: U32, i2: U32)

  /** `st_wf_face`: 1-based position, texture and normal indices of three corners. */
  datatype Face = Face(pos: Idx3, tex: Idx3, nrm: Idx3)

  const ZeroFace: Face := Face(Idx3(0, 0, 0), Idx3(0, 0, 0), Idx3(0, 0, 0))

  /**
   * The floating-point collaborators. Each scanning function receives the
   * line and the destination's current value, because `sscanf` leaves the
   * destinations it cannot match unchanged.
   */
  datatype Numerics = Numerics(
    floats3: (string, Vec3) -> Vec3,
    floats2: (string, Vec2) -> Vec2,
    float1: (string, real) -> real,
    face: (string, Face) -> Face,
    normalize: Vec3 -> Vec3)

  /** `line.compare(0, |p|, p) == 0`. */
  predicate StartsWith(line: string, p: string) {
    |line| >= |p| && line[..|p|] == p
  }

  /** The string `c_str()` exposes: everything before the first NUL. */
  function CStr(s: string): (r: string)
    ensures r <= s
    ensures forall i :: 0 <= i < |r| ==> r[i] != '\0'
    ensures |r| < |s| ==> s[|r|] == '\0'
  {
    if |s| == 0 || s[0] == '\0' then "" else [s[0]] + CStr(s[1..])
  }

  // ---------------------------------------------------------------- OBJ

  /** The loader's locals: the object list, the current object, the attribute pools and the buffered faces. */
  datatype ObjState = ObjState(
    objects: seq<Object>,
    current: Option<nat>,
    positions: seq<Vec3>,
    normals: seq<Vec3>,
    uvs: seq<Vec2>,
    faces: seq<Face>)

  /** The current object, when there is one, is the last one appended. */
  ghost predicate Wf(s: ObjState) {
    s.current.Some? ==> s.current.value == |s.objects| - 1
  }

  predicate IndexInRange(i: Idx3, n: int) {
    1 <= i.i0 <= n && 1 <= i.i1 <= n && 1 <= i.i2 <= n
  }

  /** A face's indices all address existing positions and normals. */
  predicate FaceInRange(f: Face, positions: seq<Vec3>, normals: seq<Vec3>) {
    IndexInRange(f.pos, |positions|) && IndexInRange(f.nrm, |normals|)
  }

  /**
   * The triangle a buffered face becomes. The source calls a seven-argument
   * constructor without texture coordinates; it is the ten-argument one with
   * zero texture coordinates here.
   */
  function FaceTriangle(f: Face, positions: seq<Vec3>, normals: seq<Vec3>, mat: int, num: Numerics): (t: Triangle)
    requires FaceInRange(f, positions, normals)
    ensures Vertices(t) == (positions[f.pos.i0 - 1], positions[f.pos.i1 - 1], positions[f.pos.i2 - 1])
    ensures t.normals == Corners(normals[f.nrm.i0 - 1], normals[f.nrm.i1 - 1], normals[f.nrm.i2 - 1])
    ensures t.true_normal == Cross(t.u, t.v)
    ensures t.material_id == ToU32(mat)
  {
    MakeTriangle(positions[f.pos.i0 - 1], positions[f.pos.i1 - 1], positions[f.pos.i2 - 1],
                 normals[f.nrm.i0 - 1], normals[f.nrm.i1 - 1], normals[f.nrm.i2 - 1],
                 Zero2, Zero2, Zero2, ToU32(mat), num.normalize)
  }

  /**
   * The flush loop: every buffered face, in order, becomes a triangle carrying
   * the object's material index as it is at flush time. Reading the index
   * while it is still uninitialised, or an index out of range, is undefined.
   */
  function FlushFaces(faces: seq<Face>, positions: seq<Vec3>, normals: seq<Vec3>,
                      mat: Option<int>, num: Numerics): (r: Result<seq<Triangle>, Fault>)
    ensures r.Ok? <==> (|faces| == 0 || (mat.Some? && forall i :: 0 <= i < |faces| ==> FaceInRange(faces[i], positions, normals)))
    ensures r.Err? ==> r.error == Undefined
    ensures r.Ok? ==> |r.value| == |faces|
    ensures r.Ok? ==> forall i :: 0 <= i < |faces| ==>
              FaceInRange(faces[i], positions, normals) && mat.Some? &&
              r.value[i] == FaceTriangle(faces[i], positions, normals, mat.value, num)
  {
    if |faces| == 0 then Ok([])
    else if mat.None? || exists i :: 0 <= i < |faces| && !FaceInRange(faces[i], positions, normals) then Err(Undefined)
    else Ok(seq(|faces|, i requires 0 <= i < |faces| => FaceTriangle(faces[i], positions, normals, mat.value, num)))
  }

  /** Flushing into the current object, if any; without one the faces are dropped. */
  function Flush(s: ObjState, num: Numerics): (r: Result<seq<Object>, Fault>)
    requires Wf(s)
    ensures s.current.None? ==> r == Ok(s.objects)
    ensures r.Ok? ==> |r.value| == |s.objects|
    ensures r.Ok? && s.current.Some? ==>
              var k := s.current.value;
              && r.value[..k] == s.objects[..k]
              && r.value[k].name == s.objects[k].name
              && r.value[k].material_index == s.objects[k].material_index
              && s.objects[k].triangles <= r.value[k].triangles
              && FlushFaces(s.faces, s.positions, s.normals, s.objects[k].material_index, num).Ok?
              && r.value[k].triangles == s.objects[k].triangles
                   + FlushFaces(s.faces, s.positions, s.normals, s.objects[k].material_index, num).value
  {
    if s.current.None? then Ok(s.objects)
    else
      var k := s.current.value;
      var obj := s.objects[k];
      var tris :- FlushFaces(s.faces, s.positions, s.normals, obj.material_index, num);
      Ok(s.objects[k := obj.(triangles := obj.triangles + tris)])
  }

  /** A line that opens a new object: longer than two characters and starting with `o`. */
  predicate IsObjectLine(line: string) {
    |line| > 2 && line[0] == 'o'
  }

  /** One iteration of the read loop. */
  function ObjStep(s: ObjState, line: string, table: MaterialTable, num: Numerics): (r: Result<ObjState, Fault>)
    requires Wf(s)
    ensures r.Ok? ==> Wf(r.value)
    // Short lines are skipped.
    ensures |line| <= 2 ==> r == Ok(s)
    // An object line flushes the buffered faces into the current object (or
    // drops them when there is none) and appends a fresh, current object.
    ensures IsObjectLine(line) ==>
              && (r.Ok? <==> Flush(s, num).Ok?)
              && (r.Ok? ==>
                    && r.value.objects == Flush(s, num).value + [Object(line[2..], [], None)]
                    && r.value.current == Some(|s.objects|)
                    && r.value.faces == []
                    && r.value.positions == s.positions && r.value.normals == s.normals)
    ensures IsObjectLine(line) && s.current.None? ==> r.Ok? && r.value.objects == s.objects + [Object(line[2..], [], None)]
    // Only object lines change the object list's length or the current object.
    ensures r.Ok? && !IsObjectLine(line) ==> |r.value.objects| == |s.objects| && r.value.current == s.current
    // ... and every object other than the current one is left as it was.
    ensures r.Ok? && !IsObjectLine(line) ==>
              forall i :: 0 <= i < |s.objects| && s.current != Some(i) ==> r.value.objects[i] == s.objects[i]
    // `usemtl` is honoured only inside an object, and stores the lookup-only index (-1 when unknown).
    ensures |line| > 2 && line[0] != 'o' && line[0] != 'v' && s.current.Some? && StartsWith(line, "usemtl") ==>
              if |line| == 6 then r == Err(OutOfRange)
              else r.Ok? && r.value == s.(objects := s.objects[s.current.value :=
                     s.objects[s.current.value].(material_index := Some(GetMaterialIndex(table, line[7..])))])
    ensures |line| > 2 && s.current.None? && StartsWith(line, "usemtl") ==> r == Ok(s)
    // Faces are only buffered: the object list is untouched.
    ensures |line| > 2 && line[0] == 'f' ==> r == Ok(s.(faces := s.faces + [num.face(line, ZeroFace)]))
    ensures r.Err? ==> IsObjectLine(line) || (s.current.Some? && |line| == 6 && StartsWith(line, "usemtl"))
  {
    if |line| <= 2 then Ok(s)
    else if line[0] == 'o' then
      var flushed :- Flush(s, num);
      Ok(ObjState(GetObject(flushed, line[2..]), Some(|flushed|), s.positions, s.normals, s.uvs, []))
    else if line[0] == 'v' then
      if line[1] == ' ' then Ok(s.(positions := s.positions + [num.floats3(line, Zero3)]))
      else if line[1] == 't' then Ok(s.(uvs := s.uvs + [num.floats2(line, Zero2)]))
      else if line[1] == 'n' then Ok(s.(normals := s.normals + [num.floats3(line, Zero3)]))
      else Ok(s)
    else if s.current.Some? && StartsWith(line, "usemtl") then
      if |line| < 7 then Err(OutOfRange)
      else
        var k := s.current.value;
        Ok(s.(objects := s.objects[k := s.objects[k].(material_index := Some(GetMaterialIndex(table, line[7..])))]))
    else if line[0] == 'f' then Ok(s.(faces := s.faces + [num.face(line, ZeroFace)]))
    else Ok(s)
  }

  /** The read loop over all lines. */
  function ObjLines(s: ObjState, lines: seq<string>, table: MaterialTable, num: Numerics): (r: Result<ObjState, Fault>)
    requires Wf(s)
    ensures r.Ok? ==> Wf(r.value)
    decreases |lines|
  {
    if |lines| == 0 then Ok(s)
    else
      var s1 :- ObjStep(s, lines[0], table, num);
      ObjLines(s1, lines[1..], table, num)
  }

  function InitialObjState(objects: seq<Object>): ObjState {
    ObjState(objects, None, [], [], [], [])
  }

  /** The whole OBJ pass: the read loop, then the final flush at end of file. */
  function ParseObj(objects: seq<Object>, lines: seq<string>, table: MaterialTable, num: Numerics): Result<seq<Object>, Fault> {
    var s :- ObjLines(InitialObjState(objects), lines, table, num);
    Flush(s, num)
  }

  function CountObjectLines(lines: seq<string>): nat {
    if |lines| == 0 then 0 else (if IsObjectLine(lines[0]) then 1 else 0) + CountObjectLines(lines[1..])
  }

  /** Every object line, and only an object line, adds exactly one object. */
  lemma {:induction false} ObjLinesCount(s: ObjState, lines: seq<string>, table: MaterialTable, num: Numerics)
    requires Wf(s)
    ensures ObjLines(s, lines, table, num).Ok? ==>
              |ObjLines(s, lines, table, num).value.objects| == |s.objects| + CountObjectLines(lines)
    decreases |lines|
  {
    if |lines| > 0 {
      var r1 := ObjStep(s, lines[0], table, num);
      if r1.Ok? {
        ObjLinesCount(r1.value, lines[1..], table, num);
      }
    }
  }

  /** A successful load appends one object per object line to the scene's list. */
  lemma ParseObjCount(objects: seq<Object>, lines: seq<string>, table: MaterialTable, num: Numerics)
    ensures ParseObj(objects, lines, table, num).Ok? ==>
              |ParseObj(objects, lines, table, num).value| == |objects| + CountObjectLines(lines)
  {
    ObjLinesCount(InitialObjState(objects), lines, table, num);
  }

  /** The loader only ever touches objects it created itself. */
  ghost predicate KeepsBase(s: ObjState, base: seq<Object>) {
    && |base| <= |s.objects|
    && s.objects[..|base|] == base
    && (s.current.Some? ==> s.current.value >= |base|)
  }

  lemma {:induction false} ObjLinesKeepBase(s: ObjState, lines: seq<string>, table: MaterialTable, num: Numerics, base: seq<Object>)
    requires Wf(s) && KeepsBase(s, base)
    ensures ObjLines(s, lines, table, num).Ok? ==> KeepsBase(ObjLines(s, lines, table, num).value, base)
    decreases |lines|
  {
    if |lines| > 0 {
      var r1 := ObjStep(s, lines[0], table, num);
      if r1.Ok? {
        ObjStepKeepsBase(s, lines[0], table, num, base);
        ObjLinesKeepBase(r1.value, lines[1..], table, num, base);
      }
    }
  }

  lemma ObjStepKeepsBase(s: ObjState, line: string, table: MaterialTable, num: Numerics, base: seq<Object>)
    requires Wf(s) && KeepsBase(s, base)
    ensures ObjStep(s, line, table, num).Ok? ==> KeepsBase(ObjStep(s, line, table, num).value, base)
  {
    var r := ObjStep(s, line, table, num);
    if r.Ok? {
      if IsObjectLine(line) {
        var f := Flush(s, num).value;
        if s.current.Some? {
          assert f[..|base|] == f[..s.current.value][..|base|];
        }
        assert r.value.objects[..|base|] == f[..|base|];
      } else {
        assert forall i :: 0 <= i < |base| ==> r.value.objects[..|base|][i] == s.objects[..|base|][i];
      }
    }
  }

  /** Loading a model never alters the objects the scene already held. */
  lemma ParseObjKeepsScene(objects: seq<Object>, lines: seq<string>, table: MaterialTable, num: Numerics)
    ensures ParseObj(objects, lines, table, num).Ok? ==>
              var r := ParseObj(objects, lines, table, num).value;
              |objects| <= |r| && r[..|objects|] == objects
  {
    var s0 := InitialObjState(objects);
    assert s0.objects[..|objects|] == objects;
    ObjLinesKeepBase(s0, lines, table, num, objects);
    var rs := ObjLines(s0, lines, table, num);
    if rs.Ok? && rs.value.current.Some? && Flush(rs.value, num).Ok? {
      var f := Flush(rs.value, num).value;
      var k := rs.value.current.value;
      assert f[..|objects|] == f[..k][..|objects|];
    }
  }

  /**
   * A file without object lines leaves the scene exactly as it was: faces
   * read before the first `o` line are discarded.
   */
  lemma {:induction false} NoObjectLinesNoChange(s: ObjState, lines: seq<string>, table: MaterialTable, num: Numerics)
    requires s.current.None?
    requires forall i :: 0 <= i < |lines| ==> !IsObjectLine(lines[i])
    ensures ObjLines(s, lines, table, num).Ok?
    ensures ObjLines(s, lines, table, num).value.objects == s.objects
    ensures ObjLines(s, lines, table, num).value.current.None?
    decreases |lines|
  {
    if |lines| > 0 {
      var r1 := ObjStep(s, lines[0], table, num);
      assert r1.Ok? && r1.value.objects == s.objects && r1.value.current.None?;
      NoObjectLinesNoChange(r1.value, lines[1..], table, num);
    }
  }

  lemma ParseObjWithoutObjects(objects: seq<Object>, lines: seq<string>, table: MaterialTable, num: Numerics)
    requires forall i :: 0 <= i < |lines| ==> !IsObjectLine(lines[i])
    ensures ParseObj(objects, lines, table, num) == Ok(objects)
  {
    NoObjectLinesNoChange(InitialObjState(objects), lines, table, num);
  }

  // ---------------------------------------------------------------- MTL

  /** The MTL loader's locals: the material table and the record `material_ptr` designates. */
  datatype MtlState = MtlState(table: MaterialTable, current: Option<int>)

  ghost predicate MtlWf(st: MtlState) {
    Valid(st.table) && (st.current.Some? ==> 0 <= st.current.value < |st.table.materials|)
  }

  /** The field a recognised MTL key writes; other keys leave the record as it is. */
  function ApplyKey(m: Material, line: string, num: Numerics): (r: Material)
    requires |line| >= 2
    ensures line[..2] == "Kd" ==> r == m.(albedo := r.albedo) && Rgb(r.albedo) == num.floats3(line, Rgb(m.albedo)) && r.albedo.a == m.albedo.a
    ensures line[..2] == "Ks" ==>
              && r == m.(specular_roughness := r.specular_roughness)
              && Rgb(r.specular_roughness) == num.floats3(line, Rgb(m.specular_roughness))
              && r.specular_roughness.a == m.specular_roughness.a
    ensures line[..2] == "Ke" ==>
              && r == m.(emission_ior := r.emission_ior)
              && Rgb(r.emission_ior) == num.floats3(line, Rgb(m.emission_ior))
              && r.emission_ior.a == m.emission_ior.a
    ensures line[..2] == "Ni" ==> r == m.(emission_ior := m.emission_ior.(a := num.float1(line, m.emission_ior.a)))
    ensures line[..2] == "Ns" ==> r == m.(specular_roughness := m.specular_roughness.(a := num.float1(line, m.specular_roughness.a)))
    ensures line[..2] !in {"Kd", "Ks", "Ke", "Ni", "Ns"} ==> r == m
  {
    var key := line[..2];
    if key == "Kd" then m.(albedo := WithRgb(m.albedo, num.floats3(line, Rgb(m.albedo))))
    else if key == "Ks" then m.(specular_roughness := WithRgb(m.specular_roughness, num.floats3(line, Rgb(m.specular_roughness))))
    else if key == "Ke" then m.(emission_ior := WithRgb(m.emission_ior, num.floats3(line, Rgb(m.emission_ior))))
    else if key == "Ni" then m.(emission_ior := m.emission_ior.(a := num.float1(line, m.emission_ior.a)))
    else if key == "Ns" then m.(specular_roughness := m.specular_roughness.(a := num.float1(line, m.specular_roughness.a)))
    else m
  }

  /** A `newmtl` line long enough to carry a name; the name starts at offset 7. */
  predicate IsNewmtlLine(line: string) {
    |line| > 3 && StartsWith(line, "newmtl")
  }

  /** `newmtl`: look the name up, registering it if new, and make its record current. */
  function SelectMaterial(st: MtlState, line: string): (r: Result<MtlState, Fault>)
    requires MtlWf(st) && IsNewmtlLine(line)
    ensures r.Err? <==> |line| == 6
    ensures r.Err? ==> r.error == OutOfRange
    ensures r.Ok? ==> MtlWf(r.value)
    ensures r.Ok? ==>
              var l := GetMaterial(st.table, CStr(line[7..]));
              r.value == MtlState(l.table, Some(l.index))
    ensures r.Ok? ==> forall n :: n in st.table.indices ==> n in r.value.table.indices && r.value.table.indices[n] == st.table.indices[n]
  {
    if |line| < 7 then Err(OutOfRange)
    else
      var l := GetMaterial(st.table, CStr(line[7..]));
      Ok(MtlState(l.table, Some(l.index)))
  }

  /** A key line rewrites the current record, if any, by its key; the names are untouched. */
  function ApplyToCurrent(st: MtlState, line: string, num: Numerics): (r: MtlState)
    requires MtlWf(st) && |line| >= 2
    ensures MtlWf(r) && r.table.indices == st.table.indices && r.current == st.current
    ensures st.current.None? ==> r == st
    ensures st.current.Some? ==>
              var k := st.current.value;
              r == st.(table := st.table.(materials := st.table.materials[k := ApplyKey(st.table.materials[k], line, num)]))
    // a `newmtl` line matches none of the keys
    ensures StartsWith(line, "newmtl") ==> r == st
  {
    if st.current.None? then st
    else
      var k := st.current.value;
      var m' := ApplyKey(st.table.materials[k], line, num);
      assert StartsWith(line, "newmtl") ==> line[..2] == "ne" && st.table.materials[k := m'] == st.table.materials;
      st.(table := st.table.(materials := st.table.materials[k := m']))
  }

  /** One iteration of the MTL read loop. */
  function MtlStep(st: MtlState, line: string, num: Numerics): (r: Result<MtlState, Fault>)
    requires MtlWf(st)
    ensures r.Ok? ==> MtlWf(r.value)
    ensures |line| <= 3 ==> r == Ok(st)
    ensures r.Err? <==> IsNewmtlLine(line) && |line| == 6
    ensures r.Err? ==> r.error == OutOfRange
    // Before the first `newmtl` nothing is written.
    ensures st.current.None? && !IsNewmtlLine(line) ==> r == Ok(st)
    // `newmtl` is lookup-or-create, and the record it designates becomes current.
    ensures IsNewmtlLine(line) && |line| >= 7 ==>
              var l := GetMaterial(st.table, CStr(line[7..]));
              r == Ok(MtlState(l.table, Some(l.index)))
    // Otherwise exactly the current record is rewritten by its key; the names are untouched.
    ensures st.current.Some? && |line| > 3 && !IsNewmtlLine(line) ==>
              var k := st.current.value;
              r == Ok(st.(table := st.table.(materials := st.table.materials[k := ApplyKey(st.table.materials[k], line, num)])))
    ensures r.Ok? ==> forall n :: n in st.table.indices ==> n in r.value.table.indices && r.value.table.indices[n] == st.table.indices[n]
  {
    if |line| <= 3 then Ok(st)
    else
      var st1 :- if IsNewmtlLine(line) then SelectMaterial(st, line) else Ok(st);
      Ok(ApplyToCurrent(st1, line, num))
  }

  function MtlLines(st: MtlState, lines: seq<string>, num: Numerics): (r: Result<MtlState, Fault>)
    requires MtlWf(st)
    ensures r.Ok? ==> MtlWf(r.value)
    decreases |lines|
  {
    if |lines| == 0 then Ok(st)
    else
      var st1 :- MtlStep(st, lines[0], num);
      MtlLines(st1, lines[1..], num)
  }

  /**
   * `readWFMaterial`: false, with the table untouched, when the file cannot
   * be opened (`None`); otherwise true and the table after every line.
   */
  function ReadWFMaterial(table: MaterialTable, file: Option<seq<string>>, num: Numerics): (r: Result<(bool, MaterialTable), Fault>)
    requires Valid(table)
    ensures file.None? ==> r == Ok((false, table))
    ensures r.Ok? && file.Some? ==> r.value.0
    ensures r.Ok? ==> Valid(r.value.1)
  {
    if file.None? then Ok((false, table))
    else
      var st :- MtlLines(MtlState(table, None), file.value, num);
      Ok((true, st.table))
  }

  /** The names a file's `newmtl` lines declare. */
  function DeclaredNames(lines: seq<string>): set<string>
  {
    set i | 0 <= i < |lines| && IsNewmtlLine(lines[i]) && |lines[i]| >= 7 :: CStr(lines[i][7..])
  }

  /** After a successful read, every declared material has a record, and earlier names keep their index. */
  lemma {:induction false} MtlLinesRegisters(st: MtlState, lines: seq<string>, num: Numerics)
    requires MtlWf(st)
    ensures MtlLines(st, lines, num).Ok? ==>
              var t := MtlLines(st, lines, num).value.table;
              && DeclaredNames(lines) <= t.indices.Keys
              && (forall n :: n in st.table.indices ==> n in t.indices && t.indices[n] == st.table.indices[n])
    decreases |lines|
  {
    if |lines| > 0 {
      var r1 := MtlStep(st, lines[0], num);
      if r1.Ok? {
        assert MtlLines(st, lines, num) == MtlLines(r1.value, lines[1..], num);
        MtlLinesRegisters(r1.value, lines[1..], num);
        var t := MtlLines(st, lines, num);
        if t.Ok? {
          forall n | n in DeclaredNames(lines) ensures n in t.value.table.indices {
            var i :| 0 <= i < |lines| && IsNewmtlLine(lines[i]) && |lines[i]| >= 7 && CStr(lines[i][7..]) == n;
            if i > 0 {
              assert lines[1..][i - 1] == lines[i];
              assert n in DeclaredNames(lines[1..]);
            } else {
              NewmtlRegisters(st, lines[0], num);
            }
          }
        }
      }
    }
  }

  /** A successful `newmtl` step registers its name. */
  lemma NewmtlRegisters(st: MtlState, line: string, num: Numerics)
    requires MtlWf(st) && IsNewmtlLine(line) && |line| >= 7
    ensures MtlStep(st, line, num).Ok? && CStr(line[7..]) in MtlStep(st, line, num).value.table.indices
  {
    var l := GetMaterial(st.table, CStr(line[7..]));
    assert MtlStep(st, line, num) == Ok(MtlState(l.table, Some(l.index)));
  }

  // ---------------------------------------------------------------- loading

  datatype SceneData = SceneData(objects: seq<Object>, table: MaterialTable)

  /**
   * `addWavefrontModel`: false and no change when the OBJ file or the MTL
   * file cannot be opened (the MTL file is read first); otherwise the
   * material table after the MTL pass and the objects after the OBJ pass.
   */
  function AddWavefrontModel(scene: SceneData, obj: Option<seq<string>>, mtl: Option<seq<string>>, num: Numerics): (r: Result<(bool, SceneData), Fault>)
    requires Valid(scene.table)
    ensures obj.None? || mtl.None? ==> r == Ok((false, scene))
    ensures r.Ok? && r.value.0 ==>
              && obj.Some? && mtl.Some?
              && Valid(r.value.1.table)
              && |scene.objects| <= |r.value.1.objects|
              && r.value.1.objects[..|scene.objects|] == scene.objects
              && |r.value.1.objects| == |scene.objects| + CountObjectLines(obj.value)
              && DeclaredNames(mtl.value) <= r.value.1.table.indices.Keys
  {
    if obj.None? then Ok((false, scene))
    else
      var (ok, table) :- ReadWFMaterial(scene.table, mtl, num);
      if !ok then Ok((false, scene))
      else
        MtlLinesRegisters(MtlState(scene.table, None), mtl.value, num);
        var objects :- ParseObj(scene.objects, obj.value, table, num);
        ParseObjCount(scene.objects, obj.value, table, num);
        ParseObjKeepsScene(scene.objects, obj.value, table, num);
        Ok((true, SceneData(objects, table)))
  }
}
