/** piEnsight/core.py: write_geometries and write_variable_element. Parts are
    written in the order of np.argsort of their ids, which is taken as a
    parameter: any permutation that sorts the ids, equal ids in any order. */
module CoreWrite {
  import opened Tokens
  import opened Blocks
  import opened Core
  import CoreRead
  import Utils

  // ================================================================ the part order

  function Ids(ds: seq<PartData>): (r: seq<int>)
    ensures |r| == |ds| && forall i :: 0 <= i < |ds| ==> r[i] == ds[i].id
  {
    seq(|ds|, i requires 0 <= i < |ds| => ds[i].id)
  }

  function Datas(gs: seq<Geometry>): (r: seq<PartData>)
    ensures |r| == |gs| && forall i :: 0 <= i < |gs| ==> r[i] == gs[i].Data()
  {
    seq(|gs|, i requires 0 <= i < |gs| => gs[i].Data())
  }

  /** What np.argsort(ids) may return: a permutation of the positions that
      lists the ids in ascending order. */
  predicate IsArgsort(order: seq<int>, ids: seq<int>) {
    && |order| == |ids|
    && (forall k :: 0 <= k < |order| ==> 0 <= order[k] < |ids|)
    && (forall j, k :: 0 <= j < k < |order| ==> order[j] != order[k])
    && (forall j, k :: 0 <= j < k < |order| ==> ids[order[j]] <= ids[order[k]])
  }

  /** The ids taken in the given order. */
  function Arranged(ids: seq<int>, order: seq<int>): (r: seq<int>)
    requires forall k :: 0 <= k < |order| ==> 0 <= order[k] < |ids|
    ensures |r| == |order| && forall k :: 0 <= k < |order| ==> r[k] == ids[order[k]]
  {
    seq(|order|, k requires 0 <= k < |order| => ids[order[k]])
  }

  predicate Distinct(ids: seq<int>) {
    forall i, j :: 0 <= i < j < |ids| ==> ids[i] != ids[j]
  }

  /** The positions 0 .. n - 1 of a sequence of length n. */
  function Positions(n: nat): (r: set<int>)
    ensures |r| == n
    ensures forall j :: j in r <==> 0 <= j < n
  {
    if n == 0 then {} else Positions(n - 1) + {n - 1}
  }

  /** The positions an order lists. */
  function Listed(order: seq<int>): (r: set<int>)
    ensures forall j :: j in r <==> j in order
  {
    set k | 0 <= k < |order| :: order[k]
  }

  lemma {:induction false} ListedSize(order: seq<int>)
    requires forall j, k :: 0 <= j < k < |order| ==> order[j] != order[k]
    ensures |Listed(order)| == |order|
    decreases |order|
  {
    if order != [] {
      var last := |order| - 1;
      var front := order[..last];
      ListedSize(front);
      assert order == front + [order[last]];
      assert Listed(order) == Listed(front) + {order[last]};
    }
  }

  /** Every position appears in an argsort. */
  lemma ArgsortCovers(order: seq<int>, ids: seq<int>, i: int)
    requires IsArgsort(order, ids) && 0 <= i < |ids|
    ensures i in order
  {
    var seen, all := Listed(order), Positions(|ids|);
    assert seen <= all;
    ListedSize(order);
    assert |all - seen| + |seen - all| + |all * seen| == |all + seen|;
    assert all + seen == all && all * seen == seen && seen - all == {};
    assert all - seen == {};
    assert i in all;
  }

  /** With distinct ids, np.argsort has only one possible result, so the
      written order is determined by the ids. */
  lemma ArgsortUnique(o1: seq<int>, o2: seq<int>, ids: seq<int>)
    requires IsArgsort(o1, ids) && IsArgsort(o2, ids) && Distinct(ids)
    ensures o1 == o2
  {
    ArgsortPrefix(o1, o2, ids, |o1|);
    assert o1 == o1[..|o1|] && o2 == o2[..|o2|];
  }

  lemma {:induction false} ArgsortPrefix(o1: seq<int>, o2: seq<int>, ids: seq<int>, n: nat)
    requires IsArgsort(o1, ids) && IsArgsort(o2, ids) && Distinct(ids) && n <= |o1|
    ensures o1[..n] == o2[..n]
    decreases n
  {
    if n > 0 {
      var k := n - 1;
      ArgsortPrefix(o1, o2, ids, k);
      var i, j := o1[k], o2[k];
      SamePlace(o1, o2, ids, k);
      assert o1[..n] == o1[..k] + [i] && o2[..n] == o2[..k] + [j];
    }
  }

  /** Two argsorts that agree before position k agree at k: the id each
      lists there is the least id not listed yet. */
  lemma SamePlace(o1: seq<int>, o2: seq<int>, ids: seq<int>, k: nat)
    requires IsArgsort(o1, ids) && IsArgsort(o2, ids) && Distinct(ids)
    requires k < |o1| && o1[..k] == o2[..k]
    ensures o1[k] == o2[k]
  {
    var i, j := o1[k], o2[k];
    ArgsortCovers(o1, ids, j);
    ArgsortCovers(o2, ids, i);
    forall r | 0 <= r < k
      ensures o1[r] != j && o2[r] != i
    {
      assert o1[r] == o1[..k][r] == o2[r];
    }
    var p :| 0 <= p < |o1| && o1[p] == j;
    var q :| 0 <= q < |o2| && o2[q] == i;
    assert k <= p && k <= q;
    assert ids[i] <= ids[j] && ids[j] <= ids[i];
  }

  // ================================================================ write_geometries

  const HEADER: seq<Line> := [Word("Geometry of Ensigh gold format"), Word("This file was written by piEnsight"),
                              Word("node id assign"), Word("element id assign")]

  /** One count line per element: number_of_points() / number_of_faces(). */
  function SizeLines(cells: seq<Cell>): (r: seq<Line>)
    ensures |r| == |cells| && forall k :: 0 <= k < |cells| ==> r[k] == Ints([Size(cells[k])])
  {
    seq(|cells|, k requires 0 <= k < |cells| => Ints([Size(cells[k])]))
  }

  /** arr2str(element + 1) for a dim-2 element; `+ 1` raises on a list of faces. */
  function PolygonLine(c: Cell): Output {
    match c
    case Polygon(vs) => Emit([Ints(Shift(vs, 1))])
    case Polyhedron(_) => Fail(ShapeMismatch)
  }

  /** len(face) for every face of a dim-3 element; a 1-D array has no faces
      with a length, unless it is empty. */
  function FaceSizeLines(c: Cell): Output {
    match c
    case Polyhedron(fs) => Emit(seq(|fs|, j requires 0 <= j < |fs| => Ints([|fs[j]|])))
    case Polygon(vs) => if vs == [] then Emit([]) else Fail(ShapeMismatch)
  }

  /** arr2str(face + 1) for every face of a dim-3 element. */
  function FaceLines(c: Cell): Output {
    match c
    case Polyhedron(fs) => Emit(ConnectivityLines(fs))
    case Polygon(vs) => if vs == [] then Emit([]) else Fail(ShapeMismatch)
  }

  function PolygonOutputs(cells: seq<Cell>): (r: seq<Output>)
    ensures |r| == |cells|
  {
    seq(|cells|, k requires 0 <= k < |cells| => PolygonLine(cells[k]))
  }

  function FaceSizeOutputs(cells: seq<Cell>): (r: seq<Output>)
    ensures |r| == |cells|
  {
    seq(|cells|, k requires 0 <= k < |cells| => FaceSizeLines(cells[k]))
  }

  function FaceOutputs(cells: seq<Cell>): (r: seq<Output>)
    ensures |r| == |cells|
  {
    seq(|cells|, k requires 0 <= k < |cells| => FaceLines(cells[k]))
  }

  /** Lines 233 to 253: the one nsided or nfaced sub-block of a part.
      number_of_faces asserts dim 3 for every dim other than 2. */
  function ConnectivityOutput(d: PartData): Output {
    var n := |d.elements|;
    if d.dim == 2 then
      Then(Emit([NSIDED, Ints([n])] + SizeLines(d.elements)), Each(PolygonOutputs(d.elements)))
    else if d.dim != 3 then
      Output([NFACED, Ints([n])], Some(WrongDimension))
    else
      Then(Emit([NFACED, Ints([n])] + SizeLines(d.elements)),
           Then(Each(FaceSizeOutputs(d.elements)), Each(FaceOutputs(d.elements))))
  }

  /** Lines 221 to 231: `part`, id, name, `coordinates`, node count, then all
      x, all y, all z. */
  function GeometryHead(d: PartData): (r: seq<Line>)
    ensures |r| == 5 + 3 * |d.nodes|
  {
    [PART, Ints([d.id]), d.name, Word("coordinates"), Ints([|d.nodes|])] + NodeLines(d.nodes)
  }

  function GeometryLines(d: PartData): Output {
    Then(Emit(GeometryHead(d)), ConnectivityOutput(d))
  }

  function OrderedOutputs(ds: seq<PartData>, order: seq<int>): (r: seq<Output>)
    requires forall k :: 0 <= k < |order| ==> 0 <= order[k] < |ds|
    ensures |r| == |order|
  {
    seq(|order|, k requires 0 <= k < |order| => GeometryLines(ds[order[k]]))
  }

  /** write_geometries: the header, then the parts in argsort order. */
  function WriteGeometriesSpec(ds: seq<PartData>, order: seq<int>): Output
    requires forall k :: 0 <= k < |order| ==> 0 <= order[k] < |ds|
  {
    Then(Emit(HEADER), Each(OrderedOutputs(ds, order)))
  }

  // ---------------------------------------------------------------- the loops

  /** for n in number_of_points() / number_of_faces(): one count per line. */
  method AppendSizes(out: seq<Line>, cells: seq<Cell>) returns (res: seq<Line>)
    ensures res == out + SizeLines(cells)
  {
    res := out;
    for k := 0 to |cells|
      invariant res == out + SizeLines(cells[..k])
    {
      assert SizeLines(cells[..k + 1]) == SizeLines(cells[..k]) + [Ints([Size(cells[k])])];
      res := res + [Ints([Size(cells[k])])];
    }
    assert cells[..|cells|] == cells;
  }

  /** for element in elements: arr2str(element + 1) */
  method AppendPolygons(out: seq<Line>, cells: seq<Cell>) returns (o: Output)
    ensures o == Then(Emit(out), Each(PolygonOutputs(cells)))
  {
    ghost var outs := PolygonOutputs(cells);
    var res := out;
    assert outs[0..] == outs;
    for k := 0 to |cells|
      invariant Then(Emit(res), Each(outs[k..])) == Then(Emit(out), Each(outs))
    {
      EachStep(outs, k);
      ThenAssoc(Emit(res), outs[k], Each(outs[k + 1..]));
      match cells[k] {
        case Polyhedron(_) => return Output(res, Some(ShapeMismatch));
        case Polygon(vs) => res := res + [Ints(Shift(vs, 1))];
      }
    }
    assert outs[|cells|..] == [];
    return Emit(res);
  }

  /** for face in element: len(face) */
  method AppendFaceSizes(out: seq<Line>, c: Cell) returns (o: Output)
    ensures o == Then(Emit(out), FaceSizeLines(c))
  {
    match c {
      case Polygon(vs) =>
        if vs != [] {
          return Output(out, Some(ShapeMismatch));
        }
        assert out + [] == out;
        return Emit(out);
      case Polyhedron(fs) =>
        var res := out;
        for j := 0 to |fs|
          invariant res == out + seq(j, i requires 0 <= i < j => Ints([|fs[i]|]))
        {
          assert seq(j + 1, i requires 0 <= i < j + 1 => Ints([|fs[i]|])) == seq(j, i requires 0 <= i < j => Ints([|fs[i]|])) + [Ints([|fs[j]|])];
          res := res + [Ints([|fs[j]|])];
        }
        return Emit(res);
    }
  }

  /** for face in element: arr2str(face + 1) */
  method AppendFaces(out: seq<Line>, c: Cell) returns (o: Output)
    ensures o == Then(Emit(out), FaceLines(c))
  {
    match c {
      case Polygon(vs) =>
        if vs != [] {
          return Output(out, Some(ShapeMismatch));
        }
        assert out + [] == out;
        return Emit(out);
      case Polyhedron(fs) =>
        var res := out;
        for j := 0 to |fs|
          invariant res == out + ConnectivityLines(fs[..j])
        {
          assert ConnectivityLines(fs[..j + 1]) == ConnectivityLines(fs[..j]) + [Ints(Shift(fs[j], 1))];
          res := res + [Ints(Shift(fs[j], 1))];
        }
        assert fs[..|fs|] == fs;
        return Emit(res);
    }
  }

  /** The outer loop over elements around AppendFaceSizes. */
  method AppendAllFaceSizes(out: seq<Line>, cells: seq<Cell>) returns (o: Output)
    ensures o == Then(Emit(out), Each(FaceSizeOutputs(cells)))
  {
    ghost var outs := FaceSizeOutputs(cells);
    var res := out;
    assert outs[0..] == outs;
    for k := 0 to |cells|
      invariant Then(Emit(res), Each(outs[k..])) == Then(Emit(out), Each(outs))
    {
      EachStep(outs, k);
      ThenAssoc(Emit(res), outs[k], Each(outs[k + 1..]));
      var step := AppendFaceSizes(res, cells[k]);
      if step.failure.Some? {
        return step;
      }
      res := step.lines;
    }
    assert outs[|cells|..] == [];
    return Emit(res);
  }

  /** The outer loop over elements around AppendFaces. */
  method AppendAllFaces(out: seq<Line>, cells: seq<Cell>) returns (o: Output)
    ensures o == Then(Emit(out), Each(FaceOutputs(cells)))
  {
    ghost var outs := FaceOutputs(cells);
    var res := out;
    assert outs[0..] == outs;
    for k := 0 to |cells|
      invariant Then(Emit(res), Each(outs[k..])) == Then(Emit(out), Each(outs))
    {
      EachStep(outs, k);
      ThenAssoc(Emit(res), outs[k], Each(outs[k + 1..]));
      var step := AppendFaces(res, cells[k]);
      if step.failure.Some? {
        return step;
      }
      res := step.lines;
    }
    assert outs[|cells|..] == [];
    return Emit(res);
  }

  /** The nsided branch: count, point counts, connectivity. */
  method AppendNsided(out: seq<Line>, cells: seq<Cell>) returns (o: Output)
    ensures o == Then(Emit(out), Then(Emit([NSIDED, Ints([|cells|])] + SizeLines(cells)), Each(PolygonOutputs(cells))))
  {
    ThenAssoc(Emit(out), Emit([NSIDED, Ints([|cells|])] + SizeLines(cells)), Each(PolygonOutputs(cells)));
    assert out + ([NSIDED, Ints([|cells|])] + SizeLines(cells)) == out + [NSIDED, Ints([|cells|])] + SizeLines(cells);
    var res := AppendSizes(out + [NSIDED, Ints([|cells|])], cells);
    o := AppendPolygons(res, cells);
  }

  /** The nfaced branch of a dim-3 part: count, face counts, face sizes, faces. */
  method AppendNfaced(out: seq<Line>, cells: seq<Cell>) returns (o: Output)
    ensures o == Then(Emit(out), Then(Emit([NFACED, Ints([|cells|])] + SizeLines(cells)),
                                      Then(Each(FaceSizeOutputs(cells)), Each(FaceOutputs(cells)))))
  {
    ThenAssoc(Emit(out), Emit([NFACED, Ints([|cells|])] + SizeLines(cells)),
              Then(Each(FaceSizeOutputs(cells)), Each(FaceOutputs(cells))));
    assert out + ([NFACED, Ints([|cells|])] + SizeLines(cells)) == out + [NFACED, Ints([|cells|])] + SizeLines(cells);
    var res := AppendSizes(out + [NFACED, Ints([|cells|])], cells);
    ThenAssoc(Emit(res), Each(FaceSizeOutputs(cells)), Each(FaceOutputs(cells)));
    var sizes := AppendAllFaceSizes(res, cells);
    if sizes.failure.Some? {
      return sizes;
    }
    o := AppendAllFaces(sizes.lines, cells);
  }

  /** Lines 233 to 253 of one part. */
  method AppendConnectivity(out: seq<Line>, d: PartData) returns (o: Output)
    ensures o == Then(Emit(out), ConnectivityOutput(d))
  {
    if d.dim == 2 {
      o := AppendNsided(out, d.elements);
    } else if d.dim != 3 {
      o := Output(out + [NFACED, Ints([|d.elements|])], Some(WrongDimension));
    } else {
      o := AppendNfaced(out, d.elements);
    }
  }

  /** One iteration of write_geometries' loop. */
  method AppendGeometry(out: seq<Line>, d: PartData) returns (o: Output)
    ensures o == Then(Emit(out), GeometryLines(d))
  {
    ThenAssoc(Emit(out), Emit(GeometryHead(d)), ConnectivityOutput(d));
    var res := AppendNodes(out + [PART, Ints([d.id]), d.name, Word("coordinates"), Ints([|d.nodes|])], d.nodes);
    assert res == out + GeometryHead(d);
    o := AppendConnectivity(res, d);
  }

  /** write_geometries */
  method WriteGeometries(gs: seq<Geometry>, order: seq<int>) returns (o: Output)
    requires IsArgsort(order, Ids(Datas(gs)))
    ensures o == WriteGeometriesSpec(Datas(gs), order)
  {
    ghost var outs := OrderedOutputs(Datas(gs), order);
    var out := HEADER;
    assert outs[0..] == outs;
    for k := 0 to |order|
      invariant Then(Emit(out), Each(outs[k..])) == WriteGeometriesSpec(Datas(gs), order)
    {
      EachStep(outs, k);
      ThenAssoc(Emit(out), outs[k], Each(outs[k + 1..]));
      var step := AppendGeometry(out, gs[order[k]].Data());
      if step.failure.Some? {
        return step;
      }
      out := step.lines;
    }
    assert outs[|order|..] == [];
    return Emit(out);
  }

  // ================================================================ what write_geometries promises

  /** A part write_geometries can write: dim 2 with polygons only, or dim 3
      with polyhedra (an element without vertices passes as one without faces). */
  predicate WellShaped(d: PartData) {
    || (d.dim == 2 && forall k :: 0 <= k < |d.elements| ==> d.elements[k].Polygon?)
    || (d.dim == 3 && forall k :: 0 <= k < |d.elements| ==> d.elements[k].Polyhedron? || d.elements[k].vertices == [])
  }

  predicate AllInts(ls: seq<Line>) {
    forall i :: 0 <= i < |ls| ==> ls[i].Ints?
  }

  lemma {:induction false} EachInts(outs: seq<Output>)
    requires forall k :: 0 <= k < |outs| ==> AllInts(outs[k].lines)
    ensures AllInts(Each(outs).lines)
    decreases |outs|
  {
    if outs != [] {
      assert forall k :: 0 <= k < |outs| - 1 ==> outs[1..][k] == outs[k + 1];
      EachInts(outs[1..]);
      assert AllInts(outs[0].lines);
    }
  }

  /** The connectivity sub-block starts with its marker and the element count;
      every later line is a line of integers, whatever stops the writer. */
  lemma ConnectivityShape(d: PartData)
    ensures var ls := ConnectivityOutput(d).lines;
      && |ls| >= 2 && ls[0] == (if d.dim == 2 then NSIDED else NFACED) && ls[1] == Ints([|d.elements|])
      && AllInts(ls[1..])
  {
    var els := d.elements;
    EachInts(PolygonOutputs(els));
    EachInts(FaceSizeOutputs(els));
    EachInts(FaceOutputs(els));
  }

  lemma PolygonsSucceed(els: seq<Cell>)
    ensures Each(PolygonOutputs(els)).failure.None? <==> forall k :: 0 <= k < |els| ==> els[k].Polygon?
    ensures Each(PolygonOutputs(els)).failure.None? || Each(PolygonOutputs(els)).failure == Some(ShapeMismatch)
  {
    var outs := PolygonOutputs(els);
    EachSucceeds(outs);
    EachFails(outs, ShapeMismatch);
    assert forall k :: 0 <= k < |els| ==> outs[k] == PolygonLine(els[k]);
  }

  lemma FacesSucceed(els: seq<Cell>)
    ensures var o := Then(Each(FaceSizeOutputs(els)), Each(FaceOutputs(els)));
      && (o.failure.None? <==> forall k :: 0 <= k < |els| ==> els[k].Polyhedron? || els[k].vertices == [])
      && (o.failure.None? || o.failure == Some(ShapeMismatch))
  {
    var sizes, faces := FaceSizeOutputs(els), FaceOutputs(els);
    EachSucceeds(sizes);
    EachSucceeds(faces);
    EachFails(sizes, ShapeMismatch);
    EachFails(faces, ShapeMismatch);
    assert forall k :: 0 <= k < |els| ==> sizes[k] == FaceSizeLines(els[k]) && faces[k] == FaceLines(els[k]);
  }

  /** A part is written without an exception exactly when it is well shaped;
      otherwise the exception is a dimension assertion or a shape error. */
  lemma GeometryLinesSucceed(d: PartData)
    ensures GeometryLines(d).failure.None? <==> WellShaped(d)
    ensures GeometryLines(d).failure.Some? ==>
      GeometryLines(d).failure == Some(WrongDimension) || GeometryLines(d).failure == Some(ShapeMismatch)
  {
    if d.dim == 2 {
      PolygonsSucceed(d.elements);
    } else if d.dim == 3 {
      FacesSucceed(d.elements);
    }
  }

  /** A file is written to the end exactly when every part is well shaped. */
  lemma WriteGeometriesSucceed(ds: seq<PartData>, order: seq<int>)
    requires IsArgsort(order, Ids(ds))
    ensures WriteGeometriesSpec(ds, order).failure.None? <==> forall i :: 0 <= i < |ds| ==> WellShaped(ds[i])
  {
    var outs := OrderedOutputs(ds, order);
    EachSucceeds(outs);
    assert WriteGeometriesSpec(ds, order).failure == Each(outs).failure;
    forall k | 0 <= k < |order| ensures outs[k].failure.None? <==> WellShaped(ds[order[k]]) {
      GeometryLinesSucceed(ds[order[k]]);
    }
    if exists i :: 0 <= i < |ds| && !WellShaped(ds[i]) {
      var i :| 0 <= i < |ds| && !WellShaped(ds[i]);
      ArgsortCovers(order, Ids(ds), i);
      var k :| 0 <= k < |order| && order[k] == i;
      assert outs[k].failure.Some?;
    }
  }

  /** A written part as a block: `part`, its id, its name, then no `part` line. */
  function WrittenBlock(d: PartData): (b: Utils.Block)
    ensures Utils.BlockLines(b) == GeometryLines(d).lines
    ensures b.id == Ints([d.id]) && b.name == d.name && Utils.Unmarked(b.body)
  {
    var ls := GeometryLines(d).lines;
    ConnectivityShape(d);
    var b := Utils.Block(Ints([d.id]), d.name, ls[3..]);
    assert Utils.BlockLines(b) == ls;
    assert Utils.Unmarked(b.body) by {
      var c := ConnectivityOutput(d).lines;
      assert ls == GeometryHead(d) + c;
      forall i | 0 <= i < |b.body| ensures b.body[i] != PART {
        var n := |d.nodes|;
        if i < 2 {
        } else if i < 2 + n {
          assert b.body[i] == Num(Xs(d.nodes)[i - 2]);
        } else if i < 2 + 2 * n {
          assert b.body[i] == Num(Ys(d.nodes)[i - 2 - n]);
        } else if i < 2 + 3 * n {
          assert b.body[i] == Num(Zs(d.nodes)[i - 2 - 2 * n]);
        } else if i == 2 + 3 * n {
          assert b.body[i] == c[0];
        } else {
          assert b.body[i] == c[1..][i - 3 - 3 * n];
        }
      }
    }
    b
  }

  function WrittenBlocks(ds: seq<PartData>, order: seq<int>): (bs: seq<Utils.Block>)
    requires forall k :: 0 <= k < |order| ==> 0 <= order[k] < |ds|
    ensures |bs| == |order| && forall k :: 0 <= k < |order| ==> bs[k] == WrittenBlock(ds[order[k]])
  {
    seq(|order|, k requires 0 <= k < |order| => WrittenBlock(ds[order[k]]))
  }

  lemma {:induction false} LinesOfWritten(ds: seq<PartData>, order: seq<int>)
    requires forall k :: 0 <= k < |order| ==> 0 <= order[k] < |ds|
    ensures LinesOf(OrderedOutputs(ds, order)) == Utils.BlocksLines(WrittenBlocks(ds, order))
    decreases |order|
  {
    if order != [] {
      LinesOfWritten(ds, order[1..]);
      assert OrderedOutputs(ds, order)[1..] == OrderedOutputs(ds, order[1..]);
      assert WrittenBlocks(ds, order)[1..] == WrittenBlocks(ds, order[1..]);
    }
  }

  /** A fully written file: the four header lines, then one block per part. */
  lemma WrittenFileLayout(ds: seq<PartData>, order: seq<int>)
    requires IsArgsort(order, Ids(ds))
    requires forall i :: 0 <= i < |ds| ==> WellShaped(ds[i])
    ensures WriteGeometriesSpec(ds, order).failure.None?
    ensures WriteGeometriesSpec(ds, order).lines == HEADER + Utils.BlocksLines(WrittenBlocks(ds, order))
  {
    var outs := OrderedOutputs(ds, order);
    WriteGeometriesSucceed(ds, order);
    EachSucceeds(outs);
    LinesOfWritten(ds, order);
  }

  /** The written blocks hold the parts' ids and names in ascending id order,
      and none of their bodies holds a `part` line. */
  lemma WrittenBlocksOrdered(ds: seq<PartData>, order: seq<int>)
    requires IsArgsort(order, Ids(ds))
    ensures var bs := WrittenBlocks(ds, order);
      && Utils.BodiesUnmarked(bs)
      && (forall k :: 0 <= k < |bs| ==> bs[k].id == Ints([ds[order[k]].id]) && bs[k].name == ds[order[k]].name)
      && (forall j, k :: 0 <= j < k < |bs| ==> bs[j].id.ns[0] <= bs[k].id.ns[0])
  {
    var bs := WrittenBlocks(ds, order);
    forall j, k | 0 <= j < k < |bs| ensures bs[j].id.ns[0] <= bs[k].id.ns[0] {
      assert Ids(ds)[order[j]] <= Ids(ds)[order[k]];
    }
  }

  /** get_parts_names on a file write_geometries wrote lists the part names
      in ascending id order. */
  lemma NamesOfWrittenGeometries(ds: seq<PartData>, order: seq<int>)
    requires IsArgsort(order, Ids(ds))
    requires forall i :: 0 <= i < |ds| ==> WellShaped(ds[i])
    ensures Utils.PartsNames(WriteGeometriesSpec(ds, order).lines, 0) == Ok(seq(|order|, k requires 0 <= k < |order| => ds[order[k]].name))
  {
    WrittenFileLayout(ds, order);
    WrittenBlocksOrdered(ds, order);
    var bs := WrittenBlocks(ds, order);
    assert Utils.Unmarked(HEADER);
    Utils.NamesOfFile(HEADER, bs);
    assert Utils.BlockNames(bs) == seq(|order|, k requires 0 <= k < |order| => ds[order[k]].name);
  }

  /** Lines laid out as write_geometries lays out a part's head read back as
      that head. */
  lemma HeadOfLines(ls: seq<Line>, d: PartData)
    requires 5 + 3 * |d.nodes| <= |ls|
    requires ls[0] == PART && ls[1] == Ints([d.id]) && ls[2] == d.name && ls[4] == Ints([|d.nodes|])
    requires ls[5..5 + 3 * |d.nodes|] == NodeLines(d.nodes)
    ensures CoreRead.ReadHead(ls) == Ok(CoreRead.Head(d.id, d.name, d.nodes, 5 + 3 * |d.nodes|))
  {
    ReadNodesOfNodeLines(ls, 5, d.nodes, 5 + 3 * |d.nodes|);
  }

  /** read_geometry's head on a part write_geometries wrote: its id, name and
      nodes come back, and the marker and the element count follow them. */
  lemma WrittenHeadRead(d: PartData)
    ensures var ls := GeometryLines(d).lines; var n := |d.nodes|;
      && CoreRead.ReadHead(ls) == Ok(CoreRead.Head(d.id, d.name, d.nodes, 5 + 3 * n))
      && 6 + 3 * n < |ls| && (ls[5 + 3 * n] == NSIDED || ls[5 + 3 * n] == NFACED)
      && ToInt(ls[6 + 3 * n]) == Some(|d.elements|)
  {
    var ls := GeometryLines(d).lines;
    var n := |d.nodes|;
    var h := GeometryHead(d);
    var c := ConnectivityOutput(d).lines;
    ConnectivityShape(d);
    assert ls == h + c;
    assert h[5..] == NodeLines(d.nodes);
    assert ls[5..5 + 3 * n] == h[5..];
    HeadOfLines(ls, d);
    assert ls[5 + 3 * n] == c[0] && ls[6 + 3 * n] == c[1];
  }

  /** read_geometry on a part write_geometries wrote gets its id, name and
      nodes back, then refuses the nsided / nfaced marker that follows: the
      two sides of core.py do not round-trip. */
  lemma WrittenPartRejected(lib: Library, d: PartData)
    ensures var ls := GeometryLines(d).lines; var n := |d.nodes|;
      && CoreRead.ReadHead(ls) == Ok(CoreRead.Head(d.id, d.name, d.nodes, 5 + 3 * n))
      && CoreRead.ReadGeometrySpec(lib, ls) == Err(UnsupportedElementType(5 + 3 * n))
  {
    var ls := GeometryLines(d).lines;
    WrittenHeadRead(d);
    assert ReadSubBlock(ls, 5 + 3 * |d.nodes|) == Err(UnsupportedElementType(5 + 3 * |d.nodes|));
  }

  // ================================================================ write_variable_element

  /** The element-type line of a section: nsided for dim 2, nfaced otherwise. */
  function Marker(dim: int): Line {
    if dim == 2 then NSIDED else NFACED
  }

  /** The values of a section: the stored field as is for "scalar", flattened
      column-major for any other var_type (a 1-D field flattens to itself). */
  function ValueLines(g: Geometry, varName: string, varType: string): Output
    reads g
  {
    if varName !in g.variablesElement then Fail(MissingVariable)
    else match g.variablesElement[varName]
      case Scalars(vs) => Emit(Nums(vs))
      case Vectors(ts) => if varType == "scalar" then Fail(KindMismatch) else Emit(Nums(FlattenF(ts)))
  }

  /** `part`, the id, the marker, then the values. */
  function SectionLines(g: Geometry, varName: string, varType: string): Output
    reads g
  {
    Then(Emit([PART, Ints([g.id]), Marker(g.dim)]), ValueLines(g, varName, varType))
  }

  /** The sections of the geometries listed by `order`, in that order. */
  function Sections(gs: seq<Geometry>, order: seq<int>, varName: string, varType: string): Output
    requires forall k :: 0 <= k < |order| ==> 0 <= order[k] < |gs|
    reads gs
    decreases |order|
  {
    if order == [] then Emit([])
    else Then(SectionLines(gs[order[0]], varName, varType), Sections(gs, order[1..], varName, varType))
  }

  /** write_variable_element: the description line, then a section per part
      in argsort order. */
  function WriteVariableSpec(gs: seq<Geometry>, order: seq<int>, varName: string, varType: string): Output
    requires forall k :: 0 <= k < |order| ==> 0 <= order[k] < |gs|
    reads gs
  {
    Then(Emit([Word("variable " + varName)]), Sections(gs, order, varName, varType))
  }

  /** One iteration of write_variable_element's loop. */
  method AppendSection(out: seq<Line>, g: Geometry, varName: string, varType: string) returns (o: Output)
    ensures o == Then(Emit(out), SectionLines(g, varName, varType))
  {
    var res := out + [PART, Ints([g.id]), Marker(g.dim)];
    ThenAssoc(Emit(out), Emit([PART, Ints([g.id]), Marker(g.dim)]), ValueLines(g, varName, varType));
    if varName !in g.variablesElement {
      return Output(res, Some(MissingVariable));
    }
    match g.variablesElement[varName] {
      case Scalars(vs) =>
        res := AppendValues(res, vs);
      case Vectors(ts) =>
        if varType == "scalar" {
          return Output(res, Some(KindMismatch));
        }
        res := AppendValues(res, FlattenF(ts));
    }
    return Emit(res);
  }

  lemma SectionsStep(gs: seq<Geometry>, order: seq<int>, varName: string, varType: string, k: nat)
    requires forall k :: 0 <= k < |order| ==> 0 <= order[k] < |gs|
    requires k < |order|
    ensures Sections(gs, order[k..], varName, varType) ==
            Then(SectionLines(gs[order[k]], varName, varType), Sections(gs, order[k + 1..], varName, varType))
  {
    assert order[k..][1..] == order[k + 1..];
  }

  /** write_variable_element */
  method WriteVariableElement(gs: seq<Geometry>, order: seq<int>, varName: string, varType: string) returns (o: Output)
    requires IsArgsort(order, Ids(Datas(gs)))
    ensures o == WriteVariableSpec(gs, order, varName, varType)
  {
    var out := [Word("variable " + varName)];
    assert order[0..] == order;
    for k := 0 to |order|
      invariant Then(Emit(out), Sections(gs, order[k..], varName, varType)) == WriteVariableSpec(gs, order, varName, varType)
    {
      SectionsStep(gs, order, varName, varType, k);
      ThenAssoc(Emit(out), SectionLines(gs[order[k]], varName, varType), Sections(gs, order[k + 1..], varName, varType));
      var step := AppendSection(out, gs[order[k]], varName, varType);
      if step.failure.Some? {
        return step;
      }
      out := step.lines;
    }
    assert order[|order|..] == [];
    return Emit(out);
  }

  // ---------------------------------------------------------------- what write_variable_element promises

  /** A section write_variable_element can write in full: the variable is
      stored, and a vector field is not asked for as "scalar". */
  predicate HasField(g: Geometry, varName: string, varType: string)
    reads g
  {
    varName in g.variablesElement && (varType == "scalar" ==> g.variablesElement[varName].Scalars?)
  }

  lemma SectionSucceeds(g: Geometry, varName: string, varType: string)
    ensures SectionLines(g, varName, varType).failure.None? <==> HasField(g, varName, varType)
    ensures HasField(g, varName, varType) ==>
      SectionLines(g, varName, varType).lines ==
        [PART, Ints([g.id]), Marker(g.dim)] +
        match g.variablesElement[varName]
        case Scalars(vs) => Nums(vs)
        case Vectors(ts) => Nums(FlattenF(ts))
  {
  }

  /** The sections one by one, as the part splitter is to cut them apart. */
  function SectionChunks(gs: seq<Geometry>, order: seq<int>, varName: string, varType: string): (r: seq<seq<Line>>)
    requires forall k :: 0 <= k < |order| ==> 0 <= order[k] < |gs|
    reads gs
    ensures |r| == |order| && forall k :: 0 <= k < |order| ==> r[k] == SectionLines(gs[order[k]], varName, varType).lines
    decreases |order|
  {
    if order == [] then []
    else [SectionLines(gs[order[0]], varName, varType).lines] + SectionChunks(gs, order[1..], varName, varType)
  }

  /** The sections are written in full exactly when every one is. */
  lemma {:induction false} SectionsSucceed(gs: seq<Geometry>, order: seq<int>, varName: string, varType: string)
    requires forall k :: 0 <= k < |order| ==> 0 <= order[k] < |gs|
    ensures Sections(gs, order, varName, varType).failure.None? <==>
      forall k :: 0 <= k < |order| ==> HasField(gs[order[k]], varName, varType)
    decreases |order|
  {
    if order != [] {
      SectionSucceeds(gs[order[0]], varName, varType);
      SectionsSucceed(gs, order[1..], varName, varType);
      assert forall k :: 1 <= k < |order| ==> order[1..][k - 1] == order[k];
    }
  }

  /** A file is written to the end exactly when every geometry has the field. */
  lemma WriteVariableSucceeds(gs: seq<Geometry>, order: seq<int>, varName: string, varType: string)
    requires IsArgsort(order, Ids(Datas(gs)))
    ensures WriteVariableSpec(gs, order, varName, varType).failure.None? <==>
      forall i :: 0 <= i < |gs| ==> HasField(gs[i], varName, varType)
  {
    SectionsSucceed(gs, order, varName, varType);
    assert WriteVariableSpec(gs, order, varName, varType).failure == Sections(gs, order, varName, varType).failure;
    if exists i :: 0 <= i < |gs| && !HasField(gs[i], varName, varType) {
      var i :| 0 <= i < |gs| && !HasField(gs[i], varName, varType);
      ArgsortCovers(order, Ids(Datas(gs)), i);
      var k :| 0 <= k < |order| && order[k] == i;
      assert !HasField(gs[order[k]], varName, varType);
    }
  }

  /** The id series of the written sections lists the ids in argsort order. */
  lemma {:induction false} IdsOfSections(gs: seq<Geometry>, order: seq<int>, varName: string, varType: string)
    requires forall k :: 0 <= k < |order| ==> 0 <= order[k] < |gs|
    ensures IdSeries(SectionChunks(gs, order, varName, varType)) == Ok(Arranged(Ids(Datas(gs)), order))
  {
    var chunks := SectionChunks(gs, order, varName, varType);
    forall k | 0 <= k < |order| ensures |chunks[k]| >= 2 && ToInt(chunks[k][1]) == Some(gs[order[k]].id) {
      var g := gs[order[k]];
      assert chunks[k] == [PART, Ints([g.id]), Marker(g.dim)] + ValueLines(g, varName, varType).lines;
    }
    var r := IdSeries(chunks);
    var series := Arranged(Ids(Datas(gs)), order);
    assert r.Ok?;
    forall k | 0 <= k < |order| ensures r.value[k] == series[k] {
      assert ToInt(chunks[k][1]) == Some(r.value[k]);
      assert series[k] == Ids(Datas(gs))[order[k]] == Datas(gs)[order[k]].id;
      assert Datas(gs)[order[k]] == gs[order[k]].Data();
    }
    assert |r.value| == |series|;
    assert r.value == series;
  }

  /** With distinct ids, list.index finds geometry i's id at the section
      that writes geometry i. */
  lemma SectionFound(gs: seq<Geometry>, order: seq<int>, varName: string, varType: string, i: nat)
    requires IsArgsort(order, Ids(Datas(gs))) && Distinct(Ids(Datas(gs))) && i < |gs|
    ensures IdSeries(SectionChunks(gs, order, varName, varType)).Ok?
    ensures var k := IndexOf(IdSeries(SectionChunks(gs, order, varName, varType)).value, gs[i].id);
      k.Ok? && k.value < |order| && order[k.value] == i
  {
    var ids := Ids(Datas(gs));
    IdsOfSections(gs, order, varName, varType);
    var series := Arranged(ids, order);
    ArgsortCovers(order, ids, i);
    var at :| 0 <= at < |order| && order[at] == i;
    assert series[at] == gs[i].id;
    var k := IndexOf(series, gs[i].id).value;
    assert ids[order[k]] == ids[i];
  }

  /** load_variable_element on a file write_variable_element wrote gets every
      part's field back, when the ids are distinct, the splitter cuts the file
      into its sections, and the part's marker is one of its dimension's
      element names. */
  lemma FieldRoundTrip(lib: Library, gs: seq<Geometry>, order: seq<int>, varName: string, varType: string, i: nat)
    requires IsArgsort(order, Ids(Datas(gs))) && Distinct(Ids(Datas(gs)))
    requires i < |gs| && HasField(gs[i], varName, varType) && (varType == "scalar" <==> gs[i].variablesElement[varName].Scalars?)
    requires WriteVariableSpec(gs, order, varName, varType).failure.None?
    requires lib.splitParts(Body(WriteVariableSpec(gs, order, varName, varType).lines, 1)) == SectionChunks(gs, order, varName, varType)
    requires Marker(gs[i].dim) in lib.elementNames(gs[i].dim) && MarkersAreNotValues(lib.elementNames(gs[i].dim))
    ensures ElementField(lib, gs[i].id, gs[i].dim, WriteVariableSpec(gs, order, varName, varType).lines, varType) ==
            Ok(gs[i].variablesElement[varName])
  {
    var g := gs[i];
    SectionFound(gs, order, varName, varType, i);
    SectionSucceeds(g, varName, varType);
    var names := lib.elementNames(g.dim);
    match g.variablesElement[varName] {
      case Scalars(vs) =>
        ScalarSectionRoundTrip(g.id, Marker(g.dim), names, vs);
      case Vectors(ts) =>
        VectorSectionRoundTrip(g.id, Marker(g.dim), names, ts);
    }
  }
}
