/** piEnsight/core.py: the Geometry class (one part of a mesh, with its
    element-wise variables) and the loading of an element-wise variable into
    it. Reading and writing whole files are in CoreRead and CoreWrite. */
module Core {
  import opened Tokens
  import opened Blocks

  /** An element as read_geometry collects it: its type line and its 0-based
      connectivity. */
  datatype Element = Element(elementType: Line, structure: seq<int>)

  /** An element after conversion: an nsided polygon (its vertex loop) or an
      nfaced polyhedron (its faces, each a vertex loop). */
  datatype Cell = Polygon(vertices: seq<int>) | Polyhedron(faces: seq<seq<int>>)

  /** len(element): the vertex count of a polygon, the face count of a
      polyhedron. */
  function Size(c: Cell): nat {
    match c
    case Polygon(vs) => |vs|
    case Polyhedron(fs) => |fs|
  }

  /** The data of an element-wise variable: one value per element (a 1-D
      array) or one triple per element (an N x 3 array). */
  datatype Field = Scalars(values: seq<real>) | Vectors(triples: seq<Vec3>)

  /** The helpers of piEnsight/utils.py and piEnsight/config.py that core.py
      calls and that are not part of this model, as total functions:
      - splitParts: utils.split_parts_description, cutting lines into part chunks;
      - dimensionOf: utils.get_dimension, None where it raises;
      - toPolygon, toFaces: utils.convert2nsided / convert2nfaced;
      - elementNames: config.element_names, the type-marker lines of a dimension. */
  datatype Library = Library(
    splitParts: seq<Line> -> seq<seq<Line>>,
    dimensionOf: Line -> Option<int>,
    toPolygon: Element -> seq<int>,
    toFaces: Element -> seq<seq<int>>,
    elementNames: int -> set<Line>)

  /** The values of a Geometry that never change after construction. */
  datatype PartData = PartData(id: int, name: Line, dim: int, nodes: seq<Vec3>, elements: seq<Cell>)

  /** len(element) for every element. */
  function Sizes(cells: seq<Cell>): (r: seq<nat>)
    ensures |r| == |cells|
  {
    seq(|cells|, k requires 0 <= k < |cells| => Size(cells[k]))
  }

  /** Python's indexing of a list of length n: a negative index counts from
      the end; None where it raises IndexError. */
  function PyIndex(idx: int, n: nat): (r: Option<nat>)
    ensures r.Some? <==> -(n as int) <= idx < n
    ensures r.Some? ==> r.value < n && (r.value == idx || r.value == idx + n)
  {
    if 0 <= idx < n then Some(idx) else if -(n as int) <= idx < 0 then Some(idx + n) else None
  }

  /** One part of a mesh. Every field is set once by the constructor except
      the maps of variables; each Geometry has maps of its own. */
  class Geometry {
    const filename: string
    const id: int
    const name: Line
    const dim: int
    const nodes: seq<Vec3>
    const elements: seq<Cell>
    var variablesElement: map<string, Field>
    var variablesNode: map<string, Field>

    constructor (filename: string, id: int, name: Line, dim: int, nodes: seq<Vec3>, elements: seq<Cell>)
      ensures this.filename == filename && Data() == PartData(id, name, dim, nodes, elements)
      ensures variablesElement == map[] && variablesNode == map[]
    {
      this.filename := filename;
      this.id := id;
      this.name := name;
      this.dim := dim;
      this.nodes := nodes;
      this.elements := elements;
      variablesElement := map[];
      variablesNode := map[];
    }

    function Data(): PartData {
      PartData(id, name, dim, nodes, elements)
    }

    /** number_of_nodes: the rows of the node array. */
    function NumberOfNodes(): (n: nat)
      ensures n == |Data().nodes|
    {
      |nodes|
    }

    /** number_of_elements */
    function NumberOfElements(): (n: nat)
      ensures n == |Data().elements|
    {
      |elements|
    }

    /** number_of_points(): only for dim 2, len of every element. */
    function NumberOfPoints(): (r: Result<seq<nat>>)
      ensures r.Ok? <==> dim == 2
      ensures r.Err? ==> r.error == WrongDimension
      ensures r.Ok? ==> |r.value| == NumberOfElements() && forall k :: 0 <= k < |r.value| ==> r.value[k] == Size(elements[k])
    {
      if dim != 2 then Err(WrongDimension) else Ok(Sizes(elements))
    }

    /** number_of_points(idx): only for dim 2, checked before the element
      is looked up with Python's indexing. */
    function NumberOfPointsAt(idx: int): (r: Result<nat>)
      ensures dim != 2 ==> r == Err(WrongDimension)
      ensures dim == 2 ==> (r.Ok? <==> -(NumberOfElements() as int) <= idx < NumberOfElements())
      ensures r.Ok? ==> r.value == NumberOfPoints().value[PyIndex(idx, NumberOfElements()).value]
    {
      if dim != 2 then Err(WrongDimension)
      else match PyIndex(idx, |elements|)
        case None => Err(ElementIndexOutOfRange)
        case Some(k) => Ok(Size(elements[k]))
    }

    /** number_of_faces(): only for dim 3, len of every element. */
    function NumberOfFaces(): (r: Result<seq<nat>>)
      ensures r.Ok? <==> dim == 3
      ensures r.Err? ==> r.error == WrongDimension
      ensures r.Ok? ==> |r.value| == NumberOfElements() && forall k :: 0 <= k < |r.value| ==> r.value[k] == Size(elements[k])
    {
      if dim != 3 then Err(WrongDimension) else Ok(Sizes(elements))
    }

    /** number_of_faces(idx) */
    function NumberOfFacesAt(idx: int): (r: Result<nat>)
      ensures dim != 3 ==> r == Err(WrongDimension)
      ensures dim == 3 ==> (r.Ok? <==> -(NumberOfElements() as int) <= idx < NumberOfElements())
      ensures r.Ok? ==> r.value == NumberOfFaces().value[PyIndex(idx, NumberOfElements()).value]
    {
      if dim != 3 then Err(WrongDimension)
      else match PyIndex(idx, |elements|)
        case None => Err(ElementIndexOutOfRange)
        case Some(k) => Ok(Size(elements[k]))
    }

    /** load_variable_element: on success the field is stored under
      `varName` (replacing any earlier one); on an exception nothing changes. */
    method LoadVariableElement(lib: Library, file: seq<Line>, varName: string, varType: string) returns (err: Option<Error>)
      modifies this
      ensures var f := ElementField(lib, id, dim, file, varType);
        && (f.Ok? ==> err == None && variablesElement == old(variablesElement)[varName := f.value])
        && (f.Err? ==> err == Some(f.error) && variablesElement == old(variablesElement))
      ensures variablesNode == old(variablesNode)
    {
      var lines := Body(file, 1);
      var partLines := lib.splitParts(lines);
      var idSeries := IdSeries(partLines);
      if idSeries.Err? {
        return Some(idSeries.error);
      }
      var k := IndexOf(idSeries.value, id);
      if k.Err? {
        return Some(k.error);
      }
      var pl := partLines[k.value];
      var data: Field;
      if varType == "scalar" {
        var values := ScalarValues(pl, lib.elementNames(dim), 2);
        if values.Err? {
          return Some(values.error);
        }
        data := Scalars(values.value);
      } else {
        var triples := VectorField(pl, lib.elementNames(dim));
        if triples.Err? {
          return Some(triples.error);
        }
        data := Vectors(triples.value);
      }
      variablesElement := variablesElement[varName := data];
      return None;
    }
  }

  // ================================================================ the section of a part

  /** [int(pl[1]) for pl in part_lines], over every chunk. */
  function IdSeries(chunks: seq<seq<Line>>): (r: Result<seq<int>>)
    ensures r.Ok? ==> |r.value| == |chunks| && forall i :: 0 <= i < |chunks| ==> |chunks[i]| >= 2 && ToInt(chunks[i][1]) == Some(r.value[i])
    ensures r.Ok? <==> forall i :: 0 <= i < |chunks| ==> |chunks[i]| >= 2 && ToInt(chunks[i][1]).Some?
    decreases |chunks|
  {
    if chunks == [] then Ok([])
    else if |chunks[0]| < 2 then Err(Truncated(1))
    else match ToInt(chunks[0][1])
      case None => Err(NotAnInteger(1))
      case Some(n) =>
        match IdSeries(chunks[1..])
        case Err(e) => Err(e)
        case Ok(rest) =>
          assert forall i :: 1 <= i < |chunks| ==> chunks[i] == chunks[1..][i - 1];
          Ok([n] + rest)
  }

  /** list.index: the first position holding `id`. */
  function IndexOf(ids: seq<int>, id: int): (r: Result<nat>)
    ensures r.Ok? <==> id in ids
    ensures r.Ok? ==> r.value < |ids| && ids[r.value] == id && forall j :: 0 <= j < r.value ==> ids[j] != id
    ensures r.Err? ==> r.error == PartNotFound
  {
    if ids == [] then Err(PartNotFound)
    else if ids[0] == id then Ok(0)
    else match IndexOf(ids[1..], id)
      case Err(e) => Err(e)
      case Ok(k) => Ok(k + 1)
  }

  /** [float(line) for line in pl[idx:] if line not in names]: every line
      that is not a type marker, in order. */
  function ScalarValues(pl: seq<Line>, names: set<Line>, idx: nat): (r: Result<seq<real>>)
    ensures r.Err? ==> r.error.NotAValue?
    decreases |pl| - idx
  {
    if idx >= |pl| then Ok([])
    else if pl[idx] in names then ScalarValues(pl, names, idx + 1)
    else match ToValue(pl[idx])
      case None => Err(NotAValue(idx))
      case Some(v) =>
        match ScalarValues(pl, names, idx + 1)
        case Err(e) => Err(e)
        case Ok(rest) => Ok([v] + rest)
  }

  /** The indices from `idx` on of the lines that are type markers, when
      `marked`, or of those that are not, in file order. */
  function Indices(pl: seq<Line>, names: set<Line>, idx: nat, marked: bool): (ks: seq<nat>)
    ensures forall k :: 0 <= k < |ks| ==> idx <= ks[k] < |pl| && (pl[ks[k]] in names) == marked
    ensures forall k :: 0 < k < |ks| ==> ks[k - 1] < ks[k]
    decreases |pl| - idx
  {
    if idx >= |pl| then []
    else if (pl[idx] in names) == marked then [idx] + Indices(pl, names, idx + 1, marked)
    else Indices(pl, names, idx + 1, marked)
  }

  /** The values of one group and the index of the marker (or the end) that
      stops it. */
  datatype Run = Run(values: seq<real>, next: nat)

  /** The inner while loop of load_variable_element from `idx`: values up to
      the next type marker or the end of the section. */
  function Group(pl: seq<Line>, names: set<Line>, idx: nat): (r: Result<Run>)
    ensures idx > |pl| ==> r == Ok(Run([], idx))
    ensures r.Ok? ==> idx <= r.value.next && |r.value.values| == r.value.next - idx
    ensures r.Ok? && idx <= |pl| ==> r.value.next <= |pl| && (r.value.next == |pl| || pl[r.value.next] in names)
    ensures r.Err? ==> r.error.NotAValue? && idx <= r.error.at < |pl| && pl[r.error.at] !in names && ToValue(pl[r.error.at]).None?
    decreases |pl| - idx
  {
    if idx >= |pl| || pl[idx] in names then Ok(Run([], idx))
    else match ToValue(pl[idx])
      case None => Err(NotAValue(idx))
      case Some(v) =>
        match Group(pl, names, idx + 1)
        case Err(e) => Err(e)
        case Ok(rest) => Ok(Run([v] + rest.values, rest.next))
  }

  /** The run Group takes is the values of the non-marker lines from idx on,
      in order; the run fails at the first such line that is not a number. */
  lemma {:induction false} GroupSpec(pl: seq<Line>, names: set<Line>, idx: nat)
    ensures var r := Group(pl, names, idx);
      r.Ok? ==> forall i :: idx <= i < r.value.next ==> pl[i] !in names && ToValue(pl[i]) == Some(r.value.values[i - idx])
    ensures var r := Group(pl, names, idx);
      r.Err? ==> forall i :: idx <= i < r.error.at ==> pl[i] !in names && ToValue(pl[i]).Some?
    decreases |pl| - idx
  {
    if idx < |pl| && pl[idx] !in names && ToValue(pl[idx]).Some? {
      GroupSpec(pl, names, idx + 1);
    }
  }

  /** np.array(d).reshape((3, -1)).T: 3m values become m triples, the k-th
      from values k, m+k and 2m+k. */
  function Reshape(d: seq<real>): (r: Result<seq<Vec3>>)
    ensures r.Ok? <==> |d| % 3 == 0
    ensures r.Err? ==> r.error == ReshapeFailed
    ensures r.Ok? ==> 3 * |r.value| == |d| && forall k :: 0 <= k < |r.value| ==>
      r.value[k] == Vec3(d[k], d[|r.value| + k], d[2 * |r.value| + k])
  {
    if |d| % 3 != 0 then Err(ReshapeFailed)
    else
      var m := |d| / 3;
      Ok(seq(m, k requires 0 <= k < m => Vec3(d[k], d[m + k], d[2 * m + k])))
  }

  /** array.flatten("F") of an N x 3 array: all x, then all y, then all z. */
  function FlattenF(ts: seq<Vec3>): (r: seq<real>)
    ensures |r| == 3 * |ts|
    ensures forall k {:trigger ts[k]} :: 0 <= k < |ts| ==> r[k] == ts[k].x && r[|ts| + k] == ts[k].y && r[2 * |ts| + k] == ts[k].z
  {
    seq(|ts|, k requires 0 <= k < |ts| => ts[k].x) + seq(|ts|, k requires 0 <= k < |ts| => ts[k].y) + seq(|ts|, k requires 0 <= k < |ts| => ts[k].z)
  }

  /** Reshaping undoes flattening. */
  lemma ReshapeOfFlatten(ts: seq<Vec3>)
    ensures Reshape(FlattenF(ts)) == Ok(ts)
  {
    var r := Reshape(FlattenF(ts));
    assert |FlattenF(ts)| % 3 == 0;
    assert |r.value| == |ts|;
    forall k | 0 <= k < |ts| ensures r.value[k] == ts[k] {
    }
    assert r.value == ts;
  }

  /** The i-th flattened value of a reshaped run is the i-th value of the run. */
  lemma FlattenOfReshapeAt(d: seq<real>, i: nat)
    requires Reshape(d).Ok? && i < |d|
    ensures |FlattenF(Reshape(d).value)| == |d| && FlattenF(Reshape(d).value)[i] == d[i]
  {
    var ts := Reshape(d).value;
    var m := |ts|;
    var f := FlattenF(ts);
    if i < m {
      var t := ts[i];
      assert f[i] == t.x;
    } else if i < 2 * m {
      var k := i - m;
      var t := ts[k];
      assert f[m + k] == t.y;
    } else {
      var k := i - 2 * m;
      var t := ts[k];
      assert f[2 * m + k] == t.z;
    }
  }

  /** Flattening undoes reshaping. */
  lemma FlattenOfReshape(d: seq<real>)
    requires Reshape(d).Ok?
    ensures FlattenF(Reshape(d).value) == d
  {
    forall i | 0 <= i < |d| ensures FlattenF(Reshape(d).value)[i] == d[i] {
      FlattenOfReshapeAt(d, i);
    }
  }

  /** The outer while loop of load_variable_element from `idx`: a type line,
      then a group of values reshaped into triples, as long as lines remain. */
  function Groups(pl: seq<Line>, names: set<Line>, idx: nat): (r: Result<seq<seq<Vec3>>>)
    ensures r.Err? ==> r.error.NotAValue? || r.error == ReshapeFailed
    ensures r.Ok? && idx < |pl| ==> |r.value| >= 1
    decreases |pl| - idx
  {
    if idx >= |pl| then Ok([])
    else match Group(pl, names, idx + 1)
      case Err(e) => Err(e)
      case Ok(run) =>
        match Reshape(run.values)
        case Err(e) => Err(e)
        case Ok(ts) =>
          match Groups(pl, names, run.next)
          case Err(e) => Err(e)
          case Ok(rest) => Ok([ts] + rest)
  }

  /** The vector branch of load_variable_element on a section: the groups
      from line 2, concatenated; np.concatenate fails on no group at all. */
  function VectorValues(pl: seq<Line>, names: set<Line>): (r: Result<seq<Vec3>>)
    ensures |pl| <= 2 ==> r == Err(NoElements)
  {
    match Groups(pl, names, 2)
    case Err(e) => Err(e)
    case Ok(arrays) => if arrays == [] then Err(NoElements) else Ok(Concat(arrays))
  }

  /** What load_variable_element stores for the part `id` of dimension `dim`:
      the description line is dropped, the first section whose id line is
      `id` is taken, and it is read as a scalar or, for any other var_type,
      as a vector. */
  function ElementField(lib: Library, id: int, dim: int, file: seq<Line>, varType: string): (r: Result<Field>)
    ensures r.Ok? ==> (varType == "scalar" <==> r.value.Scalars?)
  {
    var chunks := lib.splitParts(Body(file, 1));
    match IdSeries(chunks)
    case Err(e) => Err(e)
    case Ok(ids) =>
      match IndexOf(ids, id)
      case Err(e) => Err(e)
      case Ok(k) =>
        if varType == "scalar" then
          match ScalarValues(chunks[k], lib.elementNames(dim), 2)
          case Err(e) => Err(e)
          case Ok(vs) => Ok(Scalars(vs))
        else
          match VectorValues(chunks[k], lib.elementNames(dim))
          case Err(e) => Err(e)
          case Ok(ts) => Ok(Vectors(ts))
  }

  // ---------------------------------------------------------------- the loops

  function WithRun(done: seq<real>, r: Result<Run>): Result<Run> {
    match r
    case Err(e) => Err(e)
    case Ok(run) => Ok(Run(done + run.values, run.next))
  }

  function WithGroups(done: seq<seq<Vec3>>, r: Result<seq<seq<Vec3>>>): Result<seq<seq<Vec3>>> {
    match r
    case Err(e) => Err(e)
    case Ok(rest) => Ok(done + rest)
  }

  lemma WithRunStep(pl: seq<Line>, names: set<Line>, start: nat, idx: nat, d: seq<real>, v: real)
    requires idx < |pl| && pl[idx] !in names && ToValue(pl[idx]) == Some(v)
    requires Group(pl, names, start) == WithRun(d, Group(pl, names, idx))
    ensures Group(pl, names, start) == WithRun(d + [v], Group(pl, names, idx + 1))
  {
    var r := Group(pl, names, idx + 1);
    if r.Ok? {
      assert d + ([v] + r.value.values) == (d + [v]) + r.value.values;
    }
  }

  /** One group read by the inner while loop of load_variable_element. */
  method ReadGroup(pl: seq<Line>, names: set<Line>, start: nat) returns (r: Result<Run>)
    ensures r == Group(pl, names, start)
  {
    var currentIdx := start;
    var d: seq<real> := [];
    if Group(pl, names, start).Ok? {
      assert [] + Group(pl, names, start).value.values == Group(pl, names, start).value.values;
    }
    while currentIdx < |pl| && pl[currentIdx] !in names
      invariant start <= currentIdx
      invariant Group(pl, names, start) == WithRun(d, Group(pl, names, currentIdx))
      decreases |pl| - currentIdx
    {
      var v := ToValue(pl[currentIdx]);
      if v.None? {
        return Err(NotAValue(currentIdx));
      }
      WithRunStep(pl, names, start, currentIdx, d, v.value);
      d := d + [v.value];
      currentIdx := currentIdx + 1;
    }
    assert d + [] == d;
    return Ok(Run(d, currentIdx));
  }

  /** One iteration of the outer loop, as its invariant sees it. */
  lemma GroupsAdvance(pl: seq<Line>, names: set<Line>, idx: nat, data: seq<seq<Vec3>>)
    requires idx < |pl|
    requires Groups(pl, names, 2) == WithGroups(data, Groups(pl, names, idx))
    ensures Group(pl, names, idx + 1).Err? ==> Groups(pl, names, 2) == Err(Group(pl, names, idx + 1).error)
    ensures Group(pl, names, idx + 1).Ok? && Reshape(Group(pl, names, idx + 1).value.values).Err? ==>
      Groups(pl, names, 2) == Err(ReshapeFailed)
    ensures Group(pl, names, idx + 1).Ok? && Reshape(Group(pl, names, idx + 1).value.values).Ok? ==>
      Groups(pl, names, 2) == WithGroups(data + [Reshape(Group(pl, names, idx + 1).value.values).value], Groups(pl, names, Group(pl, names, idx + 1).value.next))
  {
    var g := Group(pl, names, idx + 1);
    if g.Ok? && Reshape(g.value.values).Ok? {
      var ts := Reshape(g.value.values).value;
      var r := Groups(pl, names, g.value.next);
      if r.Ok? {
        assert data + ([ts] + r.value) == (data + [ts]) + r.value;
      }
    }
  }

  /** The vector branch of load_variable_element: the nested while loops. */
  method VectorField(pl: seq<Line>, names: set<Line>) returns (r: Result<seq<Vec3>>)
    ensures r == VectorValues(pl, names)
  {
    var data: seq<seq<Vec3>> := [];
    var currentIdx: nat := 2;
    if Groups(pl, names, 2).Ok? {
      assert [] + Groups(pl, names, 2).value == Groups(pl, names, 2).value;
    }
    while currentIdx < |pl|
      invariant Groups(pl, names, 2) == WithGroups(data, Groups(pl, names, currentIdx))
      invariant currentIdx > 2 ==> |data| >= 1
      decreases |pl| - currentIdx
    {
      GroupsAdvance(pl, names, currentIdx, data);
      currentIdx := currentIdx + 1;
      var run := ReadGroup(pl, names, currentIdx);
      if run.Err? {
        return Err(run.error);
      }
      var d := Reshape(run.value.values);
      if d.Err? {
        return Err(d.error);
      }
      data := data + [d.value];
      currentIdx := run.value.next;
    }
    assert data + [] == data;
    if data == [] {
      return Err(NoElements);
    }
    return Ok(Concat(data));
  }

  // ================================================================ what a written section loads back

  /** No value line is ever taken for a type marker. */
  predicate MarkersAreNotValues(names: set<Line>) {
    forall l :: l in names ==> !l.Num?
  }

  /** A run of written values followed by a marker or by the end of the
      section is one group. */
  lemma {:induction false} GroupOfNums(pl: seq<Line>, names: set<Line>, at: nat, vs: seq<real>)
    requires MarkersAreNotValues(names)
    requires at + |vs| <= |pl| && pl[at..at + |vs|] == Nums(vs)
    requires at + |vs| == |pl| || pl[at + |vs|] in names
    ensures Group(pl, names, at) == Ok(Run(vs, at + |vs|))
    decreases |vs|
  {
    if vs != [] {
      assert pl[at] == pl[at..at + |vs|][0] == Num(vs[0]);
      assert pl[at + 1..at + |vs|] == pl[at..at + |vs|][1..] == Nums(vs[1..]);
      GroupOfNums(pl, names, at + 1, vs[1..]);
      assert [vs[0]] + vs[1..] == vs;
    }
  }

  /** Written value lines are read as themselves, before whatever follows them. */
  lemma {:induction false} ScalarValuesOfNums(pl: seq<Line>, names: set<Line>, at: nat, vs: seq<real>)
    requires MarkersAreNotValues(names)
    requires at + |vs| <= |pl| && pl[at..at + |vs|] == Nums(vs)
    ensures ScalarValues(pl, names, at + |vs|).Ok? ==>
      ScalarValues(pl, names, at) == Ok(vs + ScalarValues(pl, names, at + |vs|).value)
    decreases |vs|
  {
    if vs != [] {
      assert pl[at] == pl[at..at + |vs|][0] == Num(vs[0]);
      assert pl[at + 1..at + |vs|] == pl[at..at + |vs|][1..] == Nums(vs[1..]);
      ScalarValuesOfNums(pl, names, at + 1, vs[1..]);
      var after := ScalarValues(pl, names, at + |vs|);
      if after.Ok? {
        assert [vs[0]] + (vs[1..] + after.value) == vs + after.value;
      }
    } else if ScalarValues(pl, names, at).Ok? {
      assert [] + ScalarValues(pl, names, at).value == ScalarValues(pl, names, at).value;
    }
  }

  /** The groups of a section whose line 2 is a marker and whose other lines
      are the values. */
  lemma GroupsOfSection(pl: seq<Line>, names: set<Line>, vs: seq<real>)
    requires MarkersAreNotValues(names)
    requires 3 + |vs| == |pl| && pl[3..] == Nums(vs) && |vs| % 3 == 0
    ensures Groups(pl, names, 2) == Ok([Reshape(vs).value])
  {
    assert pl[3..3 + |vs|] == pl[3..];
    GroupOfNums(pl, names, 3, vs);
    var run := Group(pl, names, 3).value;
    assert run == Run(vs, |pl|);
    var ts := Reshape(vs).value;
    assert Reshape(run.values) == Ok(ts);
    assert Groups(pl, names, run.next) == Ok([]);
    assert Groups(pl, names, 2) == WithGroups([ts], Groups(pl, names, run.next));
    assert [ts] + [] == [ts];
  }

  /** A section of `part`, the id, one marker of the dimension and a vector
      field flattened column-major loads back into the same triples. */
  lemma VectorSectionRoundTrip(id: int, marker: Line, names: set<Line>, ts: seq<Vec3>)
    requires marker in names && MarkersAreNotValues(names)
    ensures VectorValues([PART, Ints([id]), marker] + Nums(FlattenF(ts)), names) == Ok(ts)
  {
    var pl := [PART, Ints([id]), marker] + Nums(FlattenF(ts));
    assert pl[3..] == Nums(FlattenF(ts));
    ReshapeOfFlatten(ts);
    GroupsOfSection(pl, names, FlattenF(ts));
    assert [ts][1..] == [];
    assert Concat([ts]) == ts + Concat([]);
    assert ts + [] == ts;
  }

  /** A section of `part`, the id, one marker and scalar values loads back
      into the same values: the marker is dropped, every other line kept in order. */
  lemma ScalarSectionRoundTrip(id: int, marker: Line, names: set<Line>, vs: seq<real>)
    requires marker in names && MarkersAreNotValues(names)
    ensures ScalarValues([PART, Ints([id]), marker] + Nums(vs), names, 2) == Ok(vs)
  {
    var pl := [PART, Ints([id]), marker] + Nums(vs);
    assert pl[3..3 + |vs|] == Nums(vs);
    ScalarValuesOfNums(pl, names, 3, vs);
    assert vs + [] == vs;
  }

  // ================================================================ what the loaders take from any section

  /** Every line from `idx` on of the asked kind is among the indices. */
  lemma {:induction false} IndicesComplete(pl: seq<Line>, names: set<Line>, idx: nat, marked: bool, i: nat)
    requires idx <= i < |pl| && (pl[i] in names) == marked
    ensures i in Indices(pl, names, idx, marked)
    decreases i - idx
  {
    if idx < i {
      IndicesComplete(pl, names, idx + 1, marked, i);
    }
  }

  /** Lines of the other kind between `a` and `b` add no index. */
  lemma {:induction false} IndicesSkip(pl: seq<Line>, names: set<Line>, a: nat, b: nat, marked: bool)
    requires a <= b <= |pl|
    requires forall i :: a <= i < b ==> (pl[i] in names) != marked
    ensures Indices(pl, names, a, marked) == Indices(pl, names, b, marked)
    decreases b - a
  {
    if a < b {
      IndicesSkip(pl, names, a + 1, b, marked);
    }
  }

  /** The scalar branch keeps exactly the lines that are not type markers:
      it succeeds iff each of them is a value, value k then comes from the
      k-th of them, and otherwise it fails at the first that is not. */
  lemma {:induction false} ScalarValuesSpec(pl: seq<Line>, names: set<Line>, idx: nat)
    ensures ScalarValues(pl, names, idx).Ok? <==> forall i :: idx <= i < |pl| && pl[i] !in names ==> ToValue(pl[i]).Some?
    ensures ScalarValues(pl, names, idx).Ok? ==>
      var ks := Indices(pl, names, idx, false);
      && |ScalarValues(pl, names, idx).value| == |ks|
      && forall k :: 0 <= k < |ks| ==> ToValue(pl[ks[k]]) == Some(ScalarValues(pl, names, idx).value[k])
    ensures ScalarValues(pl, names, idx).Err? ==>
      var at := ScalarValues(pl, names, idx).error.at;
      && idx <= at < |pl| && pl[at] !in names && ToValue(pl[at]).None?
      && forall i :: idx <= i < at && pl[i] !in names ==> ToValue(pl[i]).Some?
    decreases |pl| - idx
  {
    if idx < |pl| {
      ScalarValuesSpec(pl, names, idx + 1);
      if pl[idx] !in names && ToValue(pl[idx]).Some? {
        var r := ScalarValues(pl, names, idx);
        var rest := ScalarValues(pl, names, idx + 1);
        if rest.Ok? {
          var ks := Indices(pl, names, idx, false);
          var ks' := Indices(pl, names, idx + 1, false);
          assert ks == [idx] + ks';
          assert r.value == [ToValue(pl[idx]).value] + rest.value;
          forall k | 0 < k < |ks| ensures ToValue(pl[ks[k]]) == Some(r.value[k]) {
            assert ks[k] == ks'[k - 1] && r.value[k] == rest.value[k - 1];
          }
        }
      }
    }
  }

  /** The outer loop makes one group for the type line it starts at and one
      for every type marker after it. */
  lemma {:induction false} GroupsCount(pl: seq<Line>, names: set<Line>, idx: nat)
    requires idx < |pl| && Groups(pl, names, idx).Ok?
    ensures |Groups(pl, names, idx).value| == 1 + |Indices(pl, names, idx + 1, true)|
    decreases |pl| - idx
  {
    var run := Group(pl, names, idx + 1).value;
    var next := run.next;
    GroupSpec(pl, names, idx + 1);
    IndicesSkip(pl, names, idx + 1, next, true);
    if next < |pl| {
      GroupsCount(pl, names, next);
      assert Indices(pl, names, next, true) == [next] + Indices(pl, names, next + 1, true);
    }
  }

  /** The value runs of a list of vector groups, each flattened column-major. */
  function Flattened(tss: seq<seq<Vec3>>): (r: seq<seq<real>>)
    ensures |r| == |tss|
    decreases |tss|
  {
    if tss == [] then [] else [FlattenF(tss[0])] + Flattened(tss[1..])
  }

  /** The lines of a section after `part` and its id, laid out group by
      group: a type marker, then the group's values, one per line. */
  function GroupLines(markers: seq<Line>, groups: seq<seq<real>>): (r: seq<Line>)
    requires |markers| == |groups|
    decreases |groups|
  {
    if groups == [] then [] else [markers[0]] + Nums(groups[0]) + GroupLines(markers[1..], groups[1..])
  }

  predicate AllMarkers(markers: seq<Line>, names: set<Line>) {
    forall k :: 0 <= k < |markers| ==> markers[k] in names
  }

  /** The first group of a laid-out section: its marker, its values, then
      the lines of the other groups. */
  lemma GroupLinesCons(pl: seq<Line>, at: nat, markers: seq<Line>, groups: seq<seq<real>>)
    requires |markers| == |groups| && groups != []
    requires at <= |pl| && pl[at..] == GroupLines(markers, groups)
    ensures at + 1 + |groups[0]| <= |pl| && pl[at] == markers[0]
    ensures pl[at + 1..at + 1 + |groups[0]|] == Nums(groups[0])
    ensures pl[at + 1 + |groups[0]|..] == GroupLines(markers[1..], groups[1..])
  {
    var n := |groups[0]|;
    var tail := GroupLines(markers[1..], groups[1..]);
    assert pl[at..] == [markers[0]] + Nums(groups[0]) + tail;
    assert pl[at] == pl[at..][0];
    assert pl[at + 1..at + 1 + n] == pl[at..][1..1 + n];
    assert pl[at + 1 + n..] == pl[at..][1 + n..];
  }

  /** The same layout, group by group, at absolute positions of `pl`. */
  predicate LaidOut(pl: seq<Line>, at: nat, markers: seq<Line>, groups: seq<seq<real>>)
    requires |markers| == |groups|
    decreases |groups|
  {
    if groups == [] then at == |pl|
    else
      var next := at + 1 + |groups[0]|;
      && next <= |pl| && pl[at] == markers[0] && pl[at + 1..next] == Nums(groups[0])
      && LaidOut(pl, next, markers[1..], groups[1..])
  }

  lemma {:induction false} LaidOutOfLines(pl: seq<Line>, at: nat, markers: seq<Line>, groups: seq<seq<real>>)
    requires |markers| == |groups| && at <= |pl| && pl[at..] == GroupLines(markers, groups)
    ensures LaidOut(pl, at, markers, groups)
    decreases |groups|
  {
    if groups != [] {
      GroupLinesCons(pl, at, markers, groups);
      LaidOutOfLines(pl, at + 1 + |groups[0]|, markers[1..], groups[1..]);
    }
  }

  /** The first group of a laid-out section is read as its values, up to
      the marker of the next group or the end. */
  lemma FirstGroupLaidOut(pl: seq<Line>, names: set<Line>, at: nat, markers: seq<Line>, groups: seq<seq<real>>)
    requires MarkersAreNotValues(names) && AllMarkers(markers, names) && |markers| == |groups| && groups != []
    requires LaidOut(pl, at, markers, groups)
    ensures Group(pl, names, at + 1) == Ok(Run(groups[0], at + 1 + |groups[0]|))
  {
    var next := at + 1 + |groups[0]|;
    if |groups| > 1 {
      assert pl[next] == markers[1];
    }
    GroupOfNums(pl, names, at + 1, groups[0]);
  }

  /** The groups after the first of a laid-out vector section are laid out
      in the same way. */
  lemma RestLaidOut(pl: seq<Line>, names: set<Line>, at: nat, markers: seq<Line>, tss: seq<seq<Vec3>>)
    requires AllMarkers(markers, names) && |markers| == |tss| && tss != []
    requires LaidOut(pl, at, markers, Flattened(tss))
    ensures LaidOut(pl, at + 1 + 3 * |tss[0]|, markers[1..], Flattened(tss[1..]))
    ensures AllMarkers(markers[1..], names)
  {
    var fs := Flattened(tss);
    assert fs == [FlattenF(tss[0])] + Flattened(tss[1..]);
    assert forall k :: 0 <= k < |markers[1..]| ==> markers[1..][k] == markers[k + 1];
  }

  /** One iteration of the outer loop: a group of flattened triples,
      reshaped, before the rest. */
  lemma GroupsStep(pl: seq<Line>, names: set<Line>, at: nat, next: nat, t: seq<Vec3>, vs: seq<real>, rest: seq<seq<Vec3>>)
    requires at < |pl| && Reshape(vs) == Ok(t) && Group(pl, names, at + 1) == Ok(Run(vs, next))
    requires Groups(pl, names, next) == Ok(rest)
    ensures Groups(pl, names, at) == Ok([t] + rest)
  {
  }

  /** One iteration of the outer loop on a laid-out vector section: the
      first group, reshaped, before the groups of the rest. */
  lemma GroupsLaidOutCons(pl: seq<Line>, names: set<Line>, at: nat, markers: seq<Line>, vs: seq<real>, fs: seq<seq<real>>, t: seq<Vec3>, rest: seq<seq<Vec3>>)
    requires MarkersAreNotValues(names) && AllMarkers(markers, names) && |markers| == 1 + |fs|
    requires Reshape(vs) == Ok(t) && LaidOut(pl, at, markers, [vs] + fs)
    requires Groups(pl, names, at + 1 + |vs|) == Ok(rest)
    ensures Groups(pl, names, at) == Ok([t] + rest)
  {
    FirstGroupLaidOut(pl, names, at, markers, [vs] + fs);
    GroupsStep(pl, names, at, at + 1 + |vs|, t, vs, rest);
  }

  /** One group of a laid-out vector section: the rest is laid out the same
      way, and the whole loads once the rest does. */
  lemma GroupsLaidOutStep(pl: seq<Line>, names: set<Line>, at: nat, markers: seq<Line>, tss: seq<seq<Vec3>>)
    requires MarkersAreNotValues(names) && AllMarkers(markers, names) && |markers| == |tss| && tss != []
    requires LaidOut(pl, at, markers, Flattened(tss))
    ensures LaidOut(pl, at + 1 + 3 * |tss[0]|, markers[1..], Flattened(tss[1..]))
    ensures AllMarkers(markers[1..], names)
    ensures Groups(pl, names, at + 1 + 3 * |tss[0]|) == Ok(tss[1..]) ==> Groups(pl, names, at) == Ok(tss)
  {
    RestLaidOut(pl, names, at, markers, tss);
    if Groups(pl, names, at + 1 + 3 * |tss[0]|) == Ok(tss[1..]) {
      assert Flattened(tss) == [FlattenF(tss[0])] + Flattened(tss[1..]);
      ReshapeOfFlatten(tss[0]);
      GroupsLaidOutCons(pl, names, at, markers, FlattenF(tss[0]), Flattened(tss[1..]), tss[0], tss[1..]);
      assert [tss[0]] + tss[1..] == tss;
    }
  }

  /** A vector section of several groups loads back group by group. */
  lemma {:induction false} GroupsOfLaidOut(pl: seq<Line>, names: set<Line>, at: nat, markers: seq<Line>, tss: seq<seq<Vec3>>)
    requires MarkersAreNotValues(names) && AllMarkers(markers, names) && |markers| == |tss|
    requires LaidOut(pl, at, markers, Flattened(tss))
    ensures Groups(pl, names, at) == Ok(tss)
    decreases |tss|
  {
    if tss != [] {
      GroupsLaidOutStep(pl, names, at, markers, tss);
      GroupsOfLaidOut(pl, names, at + 1 + 3 * |tss[0]|, markers[1..], tss[1..]);
    }
  }

  /** A vector section of marker-led groups, as core.py writes them (one group
      per type line), loads back into all their triples in order; with no
      group at all np.concatenate fails. */
  lemma VectorSectionOfLines(id: int, markers: seq<Line>, names: set<Line>, tss: seq<seq<Vec3>>)
    requires MarkersAreNotValues(names) && AllMarkers(markers, names) && |markers| == |tss|
    ensures var pl := [PART, Ints([id])] + GroupLines(markers, Flattened(tss));
      VectorValues(pl, names) == if tss == [] then Err(NoElements) else Ok(Concat(tss))
  {
    var pl := [PART, Ints([id])] + GroupLines(markers, Flattened(tss));
    assert pl[2..] == GroupLines(markers, Flattened(tss));
    LaidOutOfLines(pl, 2, markers, Flattened(tss));
    GroupsOfLaidOut(pl, names, 2, markers, tss);
  }

  /** The scalar branch on a section of marker-led groups takes all their
      values in order. */
  lemma {:induction false} ScalarValuesOfLines(pl: seq<Line>, names: set<Line>, at: nat, markers: seq<Line>, groups: seq<seq<real>>)
    requires MarkersAreNotValues(names) && AllMarkers(markers, names) && |markers| == |groups|
    requires at <= |pl| && pl[at..] == GroupLines(markers, groups)
    ensures ScalarValues(pl, names, at) == Ok(Concat(groups))
    decreases |groups|
  {
    if groups != [] {
      var g := groups[0];
      var next := at + 1 + |g|;
      GroupLinesCons(pl, at, markers, groups);
      ScalarValuesOfLines(pl, names, next, markers[1..], groups[1..]);
      ScalarValuesOfNums(pl, names, at + 1, g);
    }
  }

  lemma ScalarSectionOfLines(id: int, markers: seq<Line>, names: set<Line>, groups: seq<seq<real>>)
    requires MarkersAreNotValues(names) && AllMarkers(markers, names) && |markers| == |groups|
    ensures ScalarValues([PART, Ints([id])] + GroupLines(markers, groups), names, 2) == Ok(Concat(groups))
  {
    var pl := [PART, Ints([id])] + GroupLines(markers, groups);
    assert pl[2..] == GroupLines(markers, groups);
    ScalarValuesOfLines(pl, names, 2, markers, groups);
  }
}
