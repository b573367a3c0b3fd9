/** piEnsight/core.py: read_geometries and its nested read_geometry and
    get_structures. A geometry file's body is cut into part chunks; each chunk
    becomes one Geometry, its elements converted to nsided (dim 2) or nfaced
    (any other dim) cells. */
module CoreRead {
  import opened Tokens
  import opened Blocks
  import opened Core

  // ================================================================ one chunk

  /** What the head of a chunk holds, and the cursor after the node block. */
  datatype Head = Head(id: int, name: Line, nodes: seq<Vec3>, next: nat)

  /** Lines 133 to 150 of read_geometry: `part`, the id, the name, the
      `coordinates` line (skipped unread), the node count and the node block. */
  function ReadHead(lines: seq<Line>): (r: Result<Head>)
    ensures r.Ok? ==>
      && 5 <= |lines| && lines[0] == PART
      && ToInt(lines[1]) == Some(r.value.id)
      && r.value.name == lines[2]
      && ToInt(lines[4]) == Some(|r.value.nodes|)
      && r.value.next == 5 + 3 * |r.value.nodes|
  {
    if |lines| == 0 then Err(Truncated(0))
    else if lines[0] != PART then Err(MissingPart(0))
    else if |lines| <= 1 then Err(Truncated(1))
    else match ToInt(lines[1])
      case None => Err(NotAnInteger(1))
      case Some(id) =>
        if |lines| <= 2 then Err(Truncated(2))
        else if |lines| <= 4 then Err(Truncated(4))
        else match ToInt(lines[4])
          case None => Err(NotAnInteger(4))
          case Some(n) =>
            if n < 0 then Err(NegativeCount(4))
            else match ReadNodes(lines, 5, n)
              case Err(e) => Err(e)
              case Ok(nodes) => Ok(Head(id, lines[2], nodes, 5 + 3 * n))
  }

  /** [{"type": t, "structure": s} for s in structures] */
  function Typed(t: Line, structures: seq<seq<int>>): (r: seq<Element>)
    ensures |r| == |structures| && forall k :: 0 <= k < |r| ==> r[k] == Element(t, structures[k])
  {
    seq(|structures|, k requires 0 <= k < |structures| => Element(t, structures[k]))
  }

  /** The while loop of read_geometry from cursor `at` (lines 177 to 184 with
      get_structures): sub-blocks until the end of the chunk. */
  function CollectElements(lines: seq<Line>, at: nat): (r: Result<seq<Element>>)
    decreases |lines| - at
  {
    if at >= |lines| then Ok([])
    else match ReadSubBlock(lines, at)
      case Err(e) => Err(e)
      case Ok(b) =>
        match CollectElements(lines, b.next)
        case Err(e) => Err(e)
        case Ok(rest) => Ok(Typed(b.elementType, b.connectivity) + rest)
  }

  /** [utils.get_dimension(e["type"]) for e in elements] */
  function Dimensions(lib: Library, es: seq<Element>): (r: Result<seq<int>>)
    ensures r.Ok? <==> forall k :: 0 <= k < |es| ==> lib.dimensionOf(es[k].elementType).Some?
    ensures r.Ok? ==> |r.value| == |es| && forall k :: 0 <= k < |es| ==> lib.dimensionOf(es[k].elementType) == Some(r.value[k])
    ensures r.Err? ==> r.error == UnknownElementType
    decreases |es|
  {
    if es == [] then Ok([])
    else match lib.dimensionOf(es[0].elementType)
      case None => Err(UnknownElementType)
      case Some(d) =>
        match Dimensions(lib, es[1..])
        case Err(e) =>
          assert !lib.dimensionOf(es[1..][0].elementType).Some? || exists k :: 0 <= k < |es[1..]| && !lib.dimensionOf(es[1..][k].elementType).Some?;
          Err(e)
        case Ok(rest) =>
          assert forall k :: 1 <= k < |es| ==> es[k] == es[1..][k - 1];
          Ok([d] + rest)
  }

  /** Lines 186 to 188 of read_geometry: dimension[0] of an empty list raises,
      and every element must report the first one's dimension. */
  function CommonDimension(lib: Library, es: seq<Element>): (r: Result<int>)
    ensures r.Ok? <==>
      && |es| > 0
      && (forall k :: 0 <= k < |es| ==> lib.dimensionOf(es[k].elementType).Some?)
      && (forall k :: 0 <= k < |es| ==> lib.dimensionOf(es[k].elementType) == lib.dimensionOf(es[0].elementType))
    ensures r.Ok? ==> forall k :: 0 <= k < |es| ==> lib.dimensionOf(es[k].elementType) == Some(r.value)
    ensures r.Err? && |es| > 0 && (forall k :: 0 <= k < |es| ==> lib.dimensionOf(es[k].elementType).Some?) ==> r.error == InconsistentDimension
    ensures |es| == 0 ==> r == Err(NoElements)
  {
    match Dimensions(lib, es)
    case Err(e) => Err(e)
    case Ok(ds) =>
      if |ds| == 0 then Err(NoElements)
      else if forall k :: 0 <= k < |ds| ==> ds[k] == ds[0] then Ok(ds[0])
      else Err(InconsistentDimension)
  }

  /** Line 190: convert2nsided for dim 2, convert2nfaced otherwise. */
  function Convert(lib: Library, dim: int, es: seq<Element>): (r: seq<Cell>)
    ensures |r| == |es|
  {
    seq(|es|, k requires 0 <= k < |es| => if dim == 2 then Polygon(lib.toPolygon(es[k])) else Polyhedron(lib.toFaces(es[k])))
  }

  /** read_geometry on one chunk. */
  function ReadGeometrySpec(lib: Library, lines: seq<Line>): (r: Result<PartData>)
  {
    match ReadHead(lines)
    case Err(e) => Err(e)
    case Ok(h) =>
      match CollectElements(lines, h.next)
      case Err(e) => Err(e)
      case Ok(es) =>
        match CommonDimension(lib, es)
        case Err(e) => Err(e)
        case Ok(dim) => Ok(PartData(h.id, h.name, dim, h.nodes, Convert(lib, dim, es)))
  }

  /** read_geometries: the four header lines are dropped, the rest is cut into
      chunks and every chunk is read, the first exception ending the read. */
  function ReadGeometriesSpec(lib: Library, file: seq<Line>): Result<seq<PartData>> {
    ReadChunks(lib, lib.splitParts(Body(file, 4)))
  }

  function ReadChunks(lib: Library, chunks: seq<seq<Line>>): (r: Result<seq<PartData>>)
    ensures r.Ok? <==> forall i :: 0 <= i < |chunks| ==> ReadGeometrySpec(lib, chunks[i]).Ok?
    ensures r.Ok? ==> |r.value| == |chunks| && forall i :: 0 <= i < |chunks| ==> r.value[i] == ReadGeometrySpec(lib, chunks[i]).value
  {
    var rs := seq(|chunks|, i requires 0 <= i < |chunks| => ReadGeometrySpec(lib, chunks[i]));
    assert forall i :: 0 <= i < |chunks| ==> rs[i] == ReadGeometrySpec(lib, chunks[i]);
    AllOf(rs)
  }

  /** The values of a list of results, or the first error among them. */
  function AllOf(rs: seq<Result<PartData>>): (r: Result<seq<PartData>>)
    ensures r.Ok? <==> forall i :: 0 <= i < |rs| ==> rs[i].Ok?
    ensures r.Ok? ==> |r.value| == |rs| && forall i :: 0 <= i < |rs| ==> r.value[i] == rs[i].value
    decreases |rs|
  {
    if rs == [] then Ok([])
    else match rs[0]
      case Err(e) => Err(e)
      case Ok(d) =>
        assert forall i :: 1 <= i < |rs| ==> rs[i] == rs[1..][i - 1];
        match AllOf(rs[1..])
        case Err(e) => Err(e)
        case Ok(rest) => Ok([d] + rest)
  }

  lemma {:induction false} AllOfFirstError(rs: seq<Result<PartData>>, i: nat)
    requires i < |rs| && rs[i].Err? && forall j :: 0 <= j < i ==> rs[j].Ok?
    ensures AllOf(rs) == Err(rs[i].error)
    decreases i
  {
    if i > 0 {
      assert forall j :: 0 <= j < i - 1 ==> rs[1..][j] == rs[j + 1];
      AllOfFirstError(rs[1..], i - 1);
    }
  }

  /** The read stops at the first chunk that does not read, with its error. */
  lemma ReadChunksFirstError(lib: Library, chunks: seq<seq<Line>>, i: nat)
    requires i < |chunks| && ReadGeometrySpec(lib, chunks[i]).Err?
    requires forall j :: 0 <= j < i ==> ReadGeometrySpec(lib, chunks[j]).Ok?
    ensures ReadChunks(lib, chunks) == Err(ReadGeometrySpec(lib, chunks[i]).error)
  {
    var rs := seq(|chunks|, i requires 0 <= i < |chunks| => ReadGeometrySpec(lib, chunks[i]));
    AllOfFirstError(rs, i);
  }

  // ================================================================ the loops

  function WithElements(done: seq<Element>, r: Result<seq<Element>>): Result<seq<Element>> {
    match r
    case Err(e) => Err(e)
    case Ok(rest) => Ok(done + rest)
  }

  /** What one iteration of read_geometry's loop does to its invariant. */
  lemma CollectAdvance(lines: seq<Line>, at: nat, here: nat, done: seq<Element>)
    requires here < |lines|
    requires CollectElements(lines, at) == WithElements(done, CollectElements(lines, here))
    ensures ReadSubBlock(lines, here).Err? ==> CollectElements(lines, at) == Err(ReadSubBlock(lines, here).error)
    ensures ReadSubBlock(lines, here).Ok? ==>
      var b := ReadSubBlock(lines, here).value;
      CollectElements(lines, at) == WithElements(done + Typed(b.elementType, b.connectivity), CollectElements(lines, b.next))
  {
    var sb := ReadSubBlock(lines, here);
    if sb.Ok? {
      var b := sb.value;
      var r := CollectElements(lines, b.next);
      if r.Ok? {
        assert done + (Typed(b.elementType, b.connectivity) + r.value) == (done + Typed(b.elementType, b.connectivity)) + r.value;
      }
    }
  }

  /** The while loop of read_geometry, from cursor `at`. */
  method ReadElements(lines: seq<Line>, at: nat) returns (r: Result<seq<Element>>)
    ensures r == CollectElements(lines, at)
  {
    var elements: seq<Element> := [];
    var currentIdx := at;
    if CollectElements(lines, at).Ok? {
      assert [] + CollectElements(lines, at).value == CollectElements(lines, at).value;
    }
    while currentIdx < |lines|
      invariant CollectElements(lines, at) == WithElements(elements, CollectElements(lines, currentIdx))
      decreases |lines| - currentIdx
    {
      CollectAdvance(lines, at, currentIdx, elements);
      var block := ReadSubBlockAt(lines, currentIdx);
      if block.Err? {
        return Err(block.error);
      }
      elements := elements + Typed(block.value.elementType, block.value.connectivity);
      currentIdx := block.value.next;
    }
    assert elements + [] == elements;
    return Ok(elements);
  }

  /** read_geometry: a fresh Geometry with empty maps of variables. */
  method ReadGeometry(lib: Library, filename: string, lines: seq<Line>) returns (r: Result<Geometry>)
    ensures r.Ok? <==> ReadGeometrySpec(lib, lines).Ok?
    ensures r.Err? ==> r.error == ReadGeometrySpec(lib, lines).error
    ensures r.Ok? ==>
      && fresh(r.value)
      && r.value.Data() == ReadGeometrySpec(lib, lines).value
      && r.value.filename == filename
      && r.value.variablesElement == map[] && r.value.variablesNode == map[]
  {
    var head := ReadHead(lines);
    if head.Err? {
      return Err(head.error);
    }
    var h := head.value;
    var elements := ReadElements(lines, h.next);
    if elements.Err? {
      return Err(elements.error);
    }
    var dim := CommonDimension(lib, elements.value);
    if dim.Err? {
      return Err(dim.error);
    }
    var g := new Geometry(filename, h.id, h.name, dim.value, h.nodes, Convert(lib, dim.value, elements.value));
    return Ok(g);
  }

  /** read_geometries: one fresh Geometry per chunk, each with maps of its own. */
  method ReadGeometries(lib: Library, filename: string, file: seq<Line>) returns (r: Result<seq<Geometry>>)
    ensures r.Ok? <==> ReadGeometriesSpec(lib, file).Ok?
    ensures r.Err? ==> r.error == ReadGeometriesSpec(lib, file).error
    ensures r.Ok? ==>
      && |r.value| == |ReadGeometriesSpec(lib, file).value|
      && (forall i :: 0 <= i < |r.value| ==> r.value[i].Data() == ReadGeometriesSpec(lib, file).value[i])
      && (forall x :: x in r.value ==> fresh(x) && x.variablesElement == map[] && x.variablesNode == map[])
      && (forall i, j :: 0 <= i < j < |r.value| ==> r.value[i] != r.value[j])
  {
    var lines := Body(file, 4);
    var partLines := lib.splitParts(lines);
    r := ReadChunksAt(lib, filename, partLines);
  }

  /** The list comprehension of read_geometries over the chunks. */
  method ReadChunksAt(lib: Library, filename: string, chunks: seq<seq<Line>>) returns (r: Result<seq<Geometry>>)
    ensures r.Ok? <==> ReadChunks(lib, chunks).Ok?
    ensures r.Err? ==> r.error == ReadChunks(lib, chunks).error
    ensures r.Ok? ==>
      && |r.value| == |chunks|
      && (forall i :: 0 <= i < |r.value| ==> r.value[i].Data() == ReadChunks(lib, chunks).value[i])
      && (forall x :: x in r.value ==> fresh(x) && x.variablesElement == map[] && x.variablesNode == map[])
      && (forall i, j :: 0 <= i < j < |r.value| ==> r.value[i] != r.value[j])
  {
    var geometries: seq<Geometry> := [];
    for i := 0 to |chunks|
      invariant |geometries| == i
      invariant forall j :: 0 <= j < i ==> ReadGeometrySpec(lib, chunks[j]) == Ok(geometries[j].Data())
      invariant forall x :: x in geometries ==> fresh(x) && x.variablesElement == map[] && x.variablesNode == map[]
      invariant forall j, k :: 0 <= j < k < i ==> geometries[j] != geometries[k]
    {
      var g := ReadGeometry(lib, filename, chunks[i]);
      if g.Err? {
        ReadChunksFirstError(lib, chunks, i);
        return Err(g.error);
      }
      assert g.value !in geometries;
      geometries := geometries + [g.value];
    }
    return Ok(geometries);
  }

  // ================================================================ properties

  /** A chunk that reads gives its id from line 1, its name from line 2, its
      node count from line 4, and node i from lines 5+i, 5+n+i and 5+2n+i. */
  lemma ReadGeometryHead(lib: Library, lines: seq<Line>)
    requires ReadGeometrySpec(lib, lines).Ok?
    ensures var d := ReadGeometrySpec(lib, lines).value; var n := |d.nodes|;
      && lines[0] == PART && ToInt(lines[1]) == Some(d.id) && d.name == lines[2] && ToInt(lines[4]) == Some(n)
      && 5 + 3 * n <= |lines|
      && forall i :: 0 <= i < n ==>
           && ToValue(lines[5 + i]) == Some(d.nodes[i].x)
           && ToValue(lines[5 + n + i]) == Some(d.nodes[i].y)
           && ToValue(lines[5 + 2 * n + i]) == Some(d.nodes[i].z)
  {
    var h := ReadHead(lines).value;
    ReadNodesSpec(lines, 5, |h.nodes|);
  }

  /** A chunk's dimension is the one every element reports, and a chunk whose
      known element types report different dimensions is refused. */
  lemma ReadGeometryDimension(lib: Library, lines: seq<Line>)
    requires ReadHead(lines).Ok? && CollectElements(lines, ReadHead(lines).value.next).Ok?
    ensures var es := CollectElements(lines, ReadHead(lines).value.next).value;
      && (ReadGeometrySpec(lib, lines).Ok? ==>
            && |ReadGeometrySpec(lib, lines).value.elements| == |es|
            && forall k :: 0 <= k < |es| ==> lib.dimensionOf(es[k].elementType) == Some(ReadGeometrySpec(lib, lines).value.dim))
      && ((exists j, k :: 0 <= j < |es| && 0 <= k < |es| && lib.dimensionOf(es[j].elementType) != lib.dimensionOf(es[k].elementType))
            ==> ReadGeometrySpec(lib, lines).Err?)
  {
  }

  /** A sub-block as a writer of the input format lays it out. */
  datatype TypedBlock = TypedBlock(elementType: Line, structures: seq<seq<int>>)

  function TypedBlocksLines(bs: seq<TypedBlock>): seq<Line>
    decreases |bs|
  {
    if bs == [] then [] else SubBlockLines(bs[0].elementType, bs[0].structures) + TypedBlocksLines(bs[1..])
  }

  function TypedBlocksElements(bs: seq<TypedBlock>): seq<Element>
    decreases |bs|
  {
    if bs == [] then [] else Typed(bs[0].elementType, bs[0].structures) + TypedBlocksElements(bs[1..])
  }

  /** Sub-blocks that run to the end of the chunk are read in file order,
      each element keeping its type, each cursor step being 2 + count. */
  lemma {:induction false} CollectElementsOfBlocks(lines: seq<Line>, at: nat, bs: seq<TypedBlock>)
    requires at <= |lines| && lines[at..] == TypedBlocksLines(bs)
    requires forall k :: 0 <= k < |bs| ==> bs[k].elementType != NSIDED && bs[k].elementType != NFACED
    ensures CollectElements(lines, at) == Ok(TypedBlocksElements(bs))
    decreases |bs|
  {
    if bs != [] {
      var b := bs[0];
      var e := at + 2 + |b.structures|;
      SliceSplit(lines, at, e, |lines|, SubBlockLines(b.elementType, b.structures), TypedBlocksLines(bs[1..]));
      ReadSubBlockOfLines(lines, at, b.elementType, b.structures, e);
      assert lines[e..] == lines[e..|lines|];
      CollectElementsOfBlocks(lines, e, bs[1..]);
    }
  }

  /** An nsided or nfaced sub-block anywhere in the chunk means no geometry. */
  lemma {:induction false} CollectRejectsPolygonBlocks(lines: seq<Line>, at: nat, bs: seq<TypedBlock>, k: nat)
    requires at <= |lines| && lines[at..] == TypedBlocksLines(bs)
    requires k < |bs| && (bs[k].elementType == NSIDED || bs[k].elementType == NFACED)
    ensures CollectElements(lines, at).Err?
    decreases k
  {
    var b := bs[0];
    var e := at + 2 + |b.structures|;
    SliceSplit(lines, at, e, |lines|, SubBlockLines(b.elementType, b.structures), TypedBlocksLines(bs[1..]));
    if k == 0 {
      assert lines[at] == lines[at..e][0];
    } else {
      if b.elementType != NSIDED && b.elementType != NFACED {
        ReadSubBlockOfLines(lines, at, b.elementType, b.structures, e);
        assert lines[e..] == lines[e..|lines|];
        CollectRejectsPolygonBlocks(lines, e, bs[1..], k - 1);
      } else {
        assert lines[at] == lines[at..e][0];
      }
    }
  }

  lemma PolygonBlockRejected(lib: Library, lines: seq<Line>, bs: seq<TypedBlock>, k: nat)
    requires ReadHead(lines).Ok? && ReadHead(lines).value.next <= |lines|
    requires lines[ReadHead(lines).value.next..] == TypedBlocksLines(bs)
    requires k < |bs| && (bs[k].elementType == NSIDED || bs[k].elementType == NFACED)
    ensures ReadGeometrySpec(lib, lines).Err?
  {
    CollectRejectsPolygonBlocks(lines, ReadHead(lines).value.next, bs, k);
  }

  // ================================================================ a negative count

  /** One iteration of read_geometry's loop as written, with Python's
      range() and cursor arithmetic: the cursor after it (None where it raises)
      and the structures it adds. A negative count reads no line and moves the
      cursor back. */
  function LoopStepAsWritten(lines: seq<Line>, idx: nat): (r: Option<(int, seq<seq<int>>)>)
  {
    if idx >= |lines| || idx + 1 >= |lines| then None
    else match ToInt(lines[idx + 1])
      case None => None
      case Some(c) =>
        if lines[idx] == NSIDED || lines[idx] == NFACED then None
        else if c <= 0 then Some((idx + 2 + c, []))
        else match ReadConnectivity(lines, idx + 2, c)
          case Err(_) => None
          case Ok(cs) => Some((idx + 2 + c, cs))
  }

  /** As written, the loop's state after an iteration at cursor 5 is its state
      before it: the cursor is back at 5, still below len(lines), and nothing
      was added, so read_geometry never returns. */
  lemma StallAsWritten()
    ensures 5 < |STALLING_CHUNK|
    ensures LoopStepAsWritten(STALLING_CHUNK, 5) == Some((5, []))
  {
  }

  /** The model refuses the negative count instead. */
  lemma NegativeCountRejected(lib: Library)
    ensures ReadHead(STALLING_CHUNK) == Ok(Head(1, Word("a"), [], 5))
    ensures ReadGeometrySpec(lib, STALLING_CHUNK) == Err(NegativeCount(6))
  {
    assert ReadNodes(STALLING_CHUNK, 5, 0) == Ok([]);
    assert ReadSubBlock(STALLING_CHUNK, 5) == Err(NegativeCount(6));
  }
}
