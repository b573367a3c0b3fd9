/** The blocks of a part that both geometry readers (piEnsight/core.py and
    piEnsight/geometry/io.py) parse identically, with the line layouts the
    writers emit for them: a run of values, the node block (all x, then all y,
    then all z), a run of connectivity lines and one element-type sub-block. */
module Blocks {
  import opened Tokens

  // ---------------------------------------------------------------- reading

  /** [float(lines[at+i].strip()) for i in range(n)] */
  function ReadValues(lines: seq<Line>, at: nat, n: nat): (r: Result<seq<real>>)
    ensures r.Ok? ==> |r.value| == n
    ensures r.Err? ==> r.error.Truncated? || r.error.NotAValue?
    decreases n
  {
    if n == 0 then Ok([])
    else if at >= |lines| then Err(Truncated(at))
    else match ToValue(lines[at])
      case None => Err(NotAValue(at))
      case Some(v) =>
        match ReadValues(lines, at + 1, n - 1)
        case Err(e) => Err(e)
        case Ok(rest) => Ok([v] + rest)
  }

  /** The run is read exactly when its `n` lines exist and each is a value,
      and value i is the one on line at+i. */
  lemma {:induction false} ReadValuesSpec(lines: seq<Line>, at: nat, n: nat)
    ensures ReadValues(lines, at, n).Ok? <==> (n == 0 || at + n <= |lines|) && forall i :: at <= i < at + n ==> ToValue(lines[i]).Some?
    ensures ReadValues(lines, at, n).Ok? ==> forall i :: 0 <= i < n ==> ToValue(lines[at + i]) == Some(ReadValues(lines, at, n).value[i])
    decreases n
  {
    if n > 0 && at < |lines| {
      ReadValuesSpec(lines, at + 1, n - 1);
      var r := ReadValues(lines, at, n);
      if r.Ok? {
        var rest := ReadValues(lines, at + 1, n - 1);
        assert r.value == [r.value[0]] + rest.value;
        forall i | 0 <= i < n ensures ToValue(lines[at + i]) == Some(r.value[i]) {
          if i > 0 { assert ToValue(lines[(at + 1) + (i - 1)]) == Some(rest.value[i - 1]); }
        }
      }
    }
  }

  /** np.column_stack((x, y, z)) / np.stack((x, y, z), axis=-1) */
  function Stack(xs: seq<real>, ys: seq<real>, zs: seq<real>): (r: seq<Vec3>)
    requires |xs| == |ys| == |zs|
    ensures |r| == |xs|
  {
    seq(|xs|, i requires 0 <= i < |xs| => Vec3(xs[i], ys[i], zs[i]))
  }

  /** The node block of `n` nodes starting at line `at`: n x-lines, n y-lines, n z-lines. */
  function ReadNodes(lines: seq<Line>, at: nat, n: nat): (r: Result<seq<Vec3>>)
    ensures r.Ok? ==> |r.value| == n
    ensures r.Err? ==> r.error.Truncated? || r.error.NotAValue?
  {
    match ReadValues(lines, at, n)
    case Err(e) => Err(e)
    case Ok(xs) =>
      match ReadValues(lines, at + n, n)
      case Err(e) => Err(e)
      case Ok(ys) =>
        match ReadValues(lines, at + 2 * n, n)
        case Err(e) => Err(e)
        case Ok(zs) => Ok(Stack(xs, ys, zs))
  }

  /** The node block is read exactly when its 3n lines exist and are values;
      node i takes its x from line at+i, its y from at+n+i, its z from at+2n+i. */
  lemma ReadNodesSpec(lines: seq<Line>, at: nat, n: nat)
    ensures ReadNodes(lines, at, n).Ok? <==> (n == 0 || at + 3 * n <= |lines|) && forall i :: at <= i < at + 3 * n ==> ToValue(lines[i]).Some?
    ensures ReadNodes(lines, at, n).Ok? ==> forall i :: 0 <= i < n ==>
      && ToValue(lines[at + i]) == Some(ReadNodes(lines, at, n).value[i].x)
      && ToValue(lines[at + n + i]) == Some(ReadNodes(lines, at, n).value[i].y)
      && ToValue(lines[at + 2 * n + i]) == Some(ReadNodes(lines, at, n).value[i].z)
  {
    ReadValuesSpec(lines, at, n);
    ReadValuesSpec(lines, at + n, n);
    ReadValuesSpec(lines, at + 2 * n, n);
    if n > 0 && at + 3 * n <= |lines| && (forall i :: at <= i < at + 3 * n ==> ToValue(lines[i]).Some?) {
      assert forall i :: at <= i < at + n ==> ToValue(lines[i]).Some?;
      assert forall i :: at + n <= i < at + n + n ==> ToValue(lines[i]).Some?;
      assert forall i :: at + 2 * n <= i < at + 2 * n + n ==> ToValue(lines[i]).Some?;
    }
    if ReadNodes(lines, at, n).Ok? {
      var xs := ReadValues(lines, at, n).value;
      var ys := ReadValues(lines, at + n, n).value;
      var zs := ReadValues(lines, at + 2 * n, n).value;
      assert ReadNodes(lines, at, n).value == Stack(xs, ys, zs);
      forall i | at <= i < at + 3 * n ensures ToValue(lines[i]).Some? {
        if i < at + n { assert ToValue(lines[at + (i - at)]).Some?; }
        else if i < at + 2 * n { assert ToValue(lines[at + n + (i - at - n)]).Some?; }
        else { assert ToValue(lines[at + 2 * n + (i - at - 2 * n)]).Some?; }
      }
    }
  }

  /** [np.array([int(n)-1 for n in lines[at+k].split()]) for k in range(count)]:
      each connectivity line converted to 0-based indices. */
  function ReadConnectivity(lines: seq<Line>, at: nat, count: nat): (r: Result<seq<seq<int>>>)
    ensures r.Ok? ==> |r.value| == count && (count == 0 || at + count <= |lines|)
    ensures r.Err? ==> r.error.Truncated? || r.error.NotAnInteger?
    decreases count
  {
    if count == 0 then Ok([])
    else if at >= |lines| then Err(Truncated(at))
    else match ToIndices(lines[at])
      case None => Err(NotAnInteger(at))
      case Some(ns) =>
        match ReadConnectivity(lines, at + 1, count - 1)
        case Err(e) => Err(e)
        case Ok(rest) => Ok([Shift(ns, -1)] + rest)
  }

  /** The connectivity is read exactly when its lines exist and each is a list
      of integers; element k is line at+k shifted to 0-based. */
  lemma {:induction false} ReadConnectivitySpec(lines: seq<Line>, at: nat, count: nat)
    ensures ReadConnectivity(lines, at, count).Ok? <==> (count == 0 || at + count <= |lines|) && forall i :: at <= i < at + count ==> lines[i].Ints?
    ensures ReadConnectivity(lines, at, count).Ok? ==> forall k :: 0 <= k < count ==>
      ToIndices(lines[at + k]) == Some(Shift(ReadConnectivity(lines, at, count).value[k], 1))
    decreases count
  {
    if count > 0 && at < |lines| {
      ReadConnectivitySpec(lines, at + 1, count - 1);
      var r := ReadConnectivity(lines, at, count);
      if r.Ok? {
        var rest := ReadConnectivity(lines, at + 1, count - 1);
        assert r.value == [Shift(lines[at].ns, -1)] + rest.value;
        ShiftBack(lines[at].ns, -1);
        forall k | 0 <= k < count ensures ToIndices(lines[at + k]) == Some(Shift(r.value[k], 1)) {
          if k > 0 { assert ToIndices(lines[(at + 1) + (k - 1)]) == Some(Shift(rest.value[k - 1], 1)); }
        }
      }
    }
  }

  /** One element-type sub-block as both readers see it. */
  datatype SubBlock = SubBlock(elementType: Line, count: nat, connectivity: seq<seq<int>>, next: nat)

  /** Type line, count line, then `count` connectivity lines starting at `at`
      (core.py: the body of read_geometry's loop with get_structures;
      geometry/io.py: the inner loop's body with read_node_info). nsided and
      nfaced are rejected once the count has been read. */
  function ReadSubBlock(lines: seq<Line>, at: nat): (r: Result<SubBlock>)
    ensures r.Ok? ==>
      && r.value.next == at + 2 + r.value.count <= |lines|
      && r.value.elementType == lines[at]
      && r.value.elementType != NSIDED && r.value.elementType != NFACED
      && ToInt(lines[at + 1]) == Some(r.value.count)
      && |r.value.connectivity| == r.value.count
    ensures at < |lines| && (lines[at] == NSIDED || lines[at] == NFACED) ==> r.Err?
  {
    if at >= |lines| then Err(Truncated(at))
    else if at + 1 >= |lines| then Err(Truncated(at + 1))
    else match ToInt(lines[at + 1])
      case None => Err(NotAnInteger(at + 1))
      case Some(c) =>
        if lines[at] == NSIDED || lines[at] == NFACED then Err(UnsupportedElementType(at))
        else if c < 0 then Err(NegativeCount(at + 1))
        else match ReadConnectivity(lines, at + 2, c)
          case Err(e) => Err(e)
          case Ok(cs) => Ok(SubBlock(lines[at], c, cs, at + 2 + c))
  }

  /** Element k of a sub-block is its (k+2)-th line, shifted to 0-based. */
  lemma ReadSubBlockConnectivity(lines: seq<Line>, at: nat)
    requires ReadSubBlock(lines, at).Ok?
    ensures forall k :: 0 <= k < ReadSubBlock(lines, at).value.count ==>
      ToIndices(lines[at + 2 + k]) == Some(Shift(ReadSubBlock(lines, at).value.connectivity[k], 1))
  {
    var b := ReadSubBlock(lines, at).value;
    ReadConnectivitySpec(lines, at + 2, b.count);
  }

  /** One sub-block as the readers' loops walk it: geometry/io.py's inner loop
      with read_node_info, core.py's loop body with get_structures. */
  method ReadSubBlockAt(lines: seq<Line>, at: nat) returns (r: Result<SubBlock>)
    ensures r == ReadSubBlock(lines, at)
  {
    var currentIdx := at;
    if currentIdx >= |lines| { return Err(Truncated(currentIdx)); }
    var elementType := lines[currentIdx];
    currentIdx := currentIdx + 1;
    if currentIdx >= |lines| { return Err(Truncated(currentIdx)); }
    var numberOfElement: nat;
    match ToInt(lines[currentIdx]) {
      case None => return Err(NotAnInteger(currentIdx));
      case Some(c) =>
        if elementType == NSIDED || elementType == NFACED { return Err(UnsupportedElementType(at)); }
        if c < 0 { return Err(NegativeCount(currentIdx)); }
        numberOfElement := c;
    }
    currentIdx := currentIdx + 1;
    var nodeInfo := ReadConnectivity(lines, currentIdx, numberOfElement);
    if nodeInfo.Err? { return Err(nodeInfo.error); }
    return Ok(SubBlock(elementType, numberOfElement, nodeInfo.value, currentIdx + numberOfElement));
  }

  // ---------------------------------------------------------------- writing

  /** One value per line. */
  function Nums(vs: seq<real>): (r: seq<Line>)
    ensures |r| == |vs| && forall i :: 0 <= i < |vs| ==> r[i] == Num(vs[i])
  {
    seq(|vs|, i requires 0 <= i < |vs| => Num(vs[i]))
  }

  function Xs(nodes: seq<Vec3>): (r: seq<real>)
    ensures |r| == |nodes|
  {
    seq(|nodes|, i requires 0 <= i < |nodes| => nodes[i].x)
  }

  function Ys(nodes: seq<Vec3>): (r: seq<real>)
    ensures |r| == |nodes|
  {
    seq(|nodes|, i requires 0 <= i < |nodes| => nodes[i].y)
  }

  function Zs(nodes: seq<Vec3>): (r: seq<real>)
    ensures |r| == |nodes|
  {
    seq(|nodes|, i requires 0 <= i < |nodes| => nodes[i].z)
  }

  /** The node block as the writers lay it out: all x, then all y, then all z. */
  function NodeLines(nodes: seq<Vec3>): (r: seq<Line>)
    ensures |r| == 3 * |nodes|
  {
    Nums(Xs(nodes)) + Nums(Ys(nodes)) + Nums(Zs(nodes))
  }

  /** One line of 1-based indices per element. */
  function ConnectivityLines(elements: seq<seq<int>>): (r: seq<Line>)
    ensures |r| == |elements|
  {
    seq(|elements|, k requires 0 <= k < |elements| => Ints(Shift(elements[k], 1)))
  }

  /** One coordinate loop of the geometry writers: a value per line. */
  method AppendValues(out: seq<Line>, vs: seq<real>) returns (res: seq<Line>)
    ensures res == out + Nums(vs)
  {
    res := out;
    for nn := 0 to |vs|
      invariant res == out + Nums(vs[..nn])
    {
      assert Nums(vs[..nn + 1]) == Nums(vs[..nn]) + [Num(vs[nn])];
      res := res + [Num(vs[nn])];
    }
    assert vs[..|vs|] == vs;
  }

  /** The three coordinate loops of the geometry writers: all x, then all y, then all z. */
  method AppendNodes(out: seq<Line>, nodes: seq<Vec3>) returns (res: seq<Line>)
    ensures res == out + NodeLines(nodes)
  {
    res := AppendValues(out, Xs(nodes));
    res := AppendValues(res, Ys(nodes));
    res := AppendValues(res, Zs(nodes));
  }

  // ---------------------------------------------------------------- inverses

  /** Reading what Nums writes gives back the values. */
  lemma ReadValuesOfNums(lines: seq<Line>, at: nat, vs: seq<real>, n: nat, e: nat)
    requires n == |vs| && e == at + n <= |lines| && lines[at..e] == Nums(vs)
    ensures ReadValues(lines, at, n) == Ok(vs)
  {
    forall i | at <= i < e ensures ToValue(lines[i]) == Some(vs[i - at]) {
      assert lines[i] == lines[at..e][i - at] == Num(vs[i - at]);
    }
    ReadValuesSpec(lines, at, |vs|);
    var r := ReadValues(lines, at, |vs|);
    assert r.Ok?;
    forall i | 0 <= i < |vs| ensures r.value[i] == vs[i] {
      assert ToValue(lines[at + i]) == Some(vs[at + i - at]);
    }
    assert r.value == vs;
  }

  /** The two halves of a slice that holds a concatenation. */
  lemma SliceSplit(lines: seq<Line>, at: nat, m: nat, e: nat, a: seq<Line>, b: seq<Line>)
    requires m == at + |a| && e == m + |b| <= |lines| && lines[at..e] == a + b
    ensures lines[at..m] == a && lines[m..e] == b
  {
    assert lines[at..m] == lines[at..e][..|a|];
    assert lines[m..e] == lines[at..e][|a|..];
  }

  /** Reading what NodeLines writes gives back the nodes. */
  lemma ReadNodesOfNodeLines(lines: seq<Line>, at: nat, nodes: seq<Vec3>, e: nat)
    requires e == at + 3 * |nodes| <= |lines| && lines[at..e] == NodeLines(nodes)
    ensures ReadNodes(lines, at, |nodes|) == Ok(nodes)
  {
    var n := |nodes|;
    var xs, ys, zs := Xs(nodes), Ys(nodes), Zs(nodes);
    assert |xs| == n && |ys| == n && |zs| == n;
    SliceSplit(lines, at, at + 2 * n, e, Nums(xs) + Nums(ys), Nums(zs));
    SliceSplit(lines, at, at + n, at + 2 * n, Nums(xs), Nums(ys));
    ReadValuesOfNums(lines, at, xs, n, at + n);
    ReadValuesOfNums(lines, at + n, ys, n, at + 2 * n);
    ReadValuesOfNums(lines, at + 2 * n, zs, n, e);
    ReadNodesOfValues(lines, at, n, xs, ys, zs);
    assert Stack(xs, ys, zs) == nodes;
  }

  lemma ReadNodesOfValues(lines: seq<Line>, at: nat, n: nat, xs: seq<real>, ys: seq<real>, zs: seq<real>)
    requires ReadValues(lines, at, n) == Ok(xs)
    requires ReadValues(lines, at + n, n) == Ok(ys)
    requires ReadValues(lines, at + 2 * n, n) == Ok(zs)
    ensures ReadNodes(lines, at, n) == Ok(Stack(xs, ys, zs))
  {
  }

  /** Reading what ConnectivityLines writes gives back the 0-based elements. */
  lemma ReadConnectivityOfLines(lines: seq<Line>, at: nat, elements: seq<seq<int>>, e: nat)
    requires e == at + |elements| <= |lines| && lines[at..e] == ConnectivityLines(elements)
    ensures ReadConnectivity(lines, at, |elements|) == Ok(elements)
  {
    forall i | at <= i < e ensures lines[i] == Ints(Shift(elements[i - at], 1)) {
      assert lines[i] == lines[at..e][i - at];
    }
    ReadConnectivitySpec(lines, at, |elements|);
    var r := ReadConnectivity(lines, at, |elements|);
    assert r.Ok?;
    forall k | 0 <= k < |elements| ensures r.value[k] == elements[k] {
      assert lines[at + k] == Ints(Shift(elements[at + k - at], 1));
      assert Shift(r.value[k], 1) == Shift(elements[k], 1);
      ShiftBack(r.value[k], 1);
      ShiftBack(elements[k], 1);
    }
    assert r.value == elements;
  }

  /** The lines of one sub-block: type, count, connectivity. */
  function SubBlockLines(elementType: Line, elements: seq<seq<int>>): (r: seq<Line>)
    ensures |r| == 2 + |elements|
  {
    [elementType, Ints([|elements|])] + ConnectivityLines(elements)
  }

  /** Reading a sub-block that was written by SubBlockLines. */
  lemma ReadSubBlockOfLines(lines: seq<Line>, at: nat, elementType: Line, elements: seq<seq<int>>, e: nat)
    requires elementType != NSIDED && elementType != NFACED
    requires e == at + 2 + |elements| <= |lines|
    requires lines[at..e] == SubBlockLines(elementType, elements)
    ensures ReadSubBlock(lines, at) == Ok(SubBlock(elementType, |elements|, elements, e))
  {
    SliceSplit(lines, at, at + 2, e, [elementType, Ints([|elements|])], ConnectivityLines(elements));
    assert lines[at] == lines[at..e][0] == elementType;
    assert lines[at + 1] == lines[at..e][1] == Ints([|elements|]);
    ReadConnectivityOfLines(lines, at + 2, elements, e);
  }

  /** A part with no nodes whose only sub-block announces -2 elements: both
      readers, as written, come back to the cursor they started the sub-block at. */
  const STALLING_CHUNK: seq<Line> := [PART, Ints([1]), Word("a"), Word("coordinates"), Ints([0]), Word("tria3"), Ints([-2])]
}
