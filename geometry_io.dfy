/** piEnsight/geometry/io.py: reading and writing a geometry file part by part,
    keeping every element-type sub-block as it appears in the file. */
module GeometryIo {
  import opened Tokens
  import opened Blocks
  import opened GeometryCore

  // ================================================================ reading

  /** What read_ascii's inner loop collects for one part, where its cursor
      stops, and whether it stopped at the end of the file. */
  datatype ElementBlocks = ElementBlocks(definitions: seq<Definition>, elements: seq<seq<int>>, next: nat, atEnd: bool)

  /** The inner `while True` of read_ascii from cursor `at`: one sub-block, then
      stop once the cursor reaches last_idx = |lines| - 1 (the end of the file,
      tolerating one trailing line) or the next line is `part`; otherwise read
      another sub-block. */
  function ReadElementBlocks(lines: seq<Line>, at: nat): (r: Result<ElementBlocks>)
    ensures r.Ok? ==>
      && at + 2 <= r.value.next <= |lines|
      && |r.value.definitions| >= 1
      && |r.value.elements| == TotalCount(r.value.definitions)
      && (r.value.atEnd <==> r.value.next >= |lines| - 1)
      && (!r.value.atEnd ==> lines[r.value.next] == PART)
    decreases |lines| - at
  {
    match ReadSubBlock(lines, at)
    case Err(e) => Err(e)
    case Ok(b) =>
      var d := Definition(b.elementType, b.count);
      if b.next >= |lines| - 1 then Ok(ElementBlocks([d], b.connectivity, b.next, true))
      else if lines[b.next] == PART then Ok(ElementBlocks([d], b.connectivity, b.next, false))
      else
        match ReadElementBlocks(lines, b.next)
        case Err(e) => Err(e)
        case Ok(rest) =>
          assert ([d] + rest.definitions)[1..] == rest.definitions;
          Ok(ElementBlocks([d] + rest.definitions, b.connectivity + rest.elements, rest.next, rest.atEnd))
  }

  /** One part read by the outer loop of read_ascii from cursor `at`. */
  datatype PartRead = PartRead(part: Part, next: nat, atEnd: bool)

  /** `part`, the id line (skipped, never parsed), the name, the `coordinates`
      line (skipped), the node count, the node block and the sub-blocks. */
  function ReadPart(lines: seq<Line>, at: nat): (r: Result<PartRead>)
    ensures r.Ok? ==>
      && at + 5 < r.value.next <= |lines|
      && lines[at] == PART
      && r.value.part.name == lines[at + 2]
      && ToInt(lines[at + 4]) == Some(|r.value.part.nodes|)
      && |r.value.part.definitions| >= 1
      && |r.value.part.elements| == TotalCount(r.value.part.definitions)
      && (r.value.atEnd <==> r.value.next >= |lines| - 1)
      && (!r.value.atEnd ==> lines[r.value.next] == PART)
  {
    if at >= |lines| then Err(Truncated(at))
    else if lines[at] != PART then Err(MissingPart(at))
    else if at + 2 >= |lines| then Err(Truncated(at + 2))
    else if at + 4 >= |lines| then Err(Truncated(at + 4))
    else match ToInt(lines[at + 4])
      case None => Err(NotAnInteger(at + 4))
      case Some(n) =>
        if n < 0 then Err(NegativeCount(at + 4))
        else match ReadNodes(lines, at + 5, n)
          case Err(e) => Err(e)
          case Ok(nodes) =>
            match ReadElementBlocks(lines, at + 5 + 3 * n)
            case Err(e) => Err(e)
            case Ok(b) => Ok(PartRead(Part(lines[at + 2], nodes, b.definitions, b.elements), b.next, b.atEnd))
  }

  /** The outer `while True` of read_ascii from cursor `at`. */
  function ReadParts(lines: seq<Line>, at: nat): (r: Result<seq<Part>>)
    ensures r.Ok? ==> |r.value| >= 1
    decreases |lines| - at
  {
    match ReadPart(lines, at)
    case Err(e) => Err(e)
    case Ok(pr) =>
      if pr.atEnd then Ok([pr.part])
      else
        match ReadParts(lines, pr.next)
        case Err(e) => Err(e)
        case Ok(rest) => Ok([pr.part] + rest)
  }

  /** read_ascii: the four header lines are skipped unread. */
  function ReadAscii(file: seq<Line>): (r: Result<Geometry>) {
    match ReadParts(Body(file, 4), 0)
    case Err(e) => Err(e)
    case Ok(parts) => Ok(Geometry(parts))
  }

  /** read: only the ascii format is implemented. */
  function Read(file: seq<Line>, format: string): (r: Result<Geometry>)
    ensures format != "ascii" ==> r == Err(UnsupportedFormat)
    ensures format == "ascii" ==> r == ReadAscii(file)
  {
    if format == "ascii" then ReadAscii(file) else Err(UnsupportedFormat)
  }

  /** Sequencing helpers for the loop invariants of ReadAsciiFile. */
  function WithParts(done: seq<Part>, r: Result<seq<Part>>): Result<seq<Part>> {
    match r
    case Err(e) => Err(e)
    case Ok(rest) => Ok(done + rest)
  }

  function WithBlocks(ds: seq<Definition>, es: seq<seq<int>>, r: Result<ElementBlocks>): Result<ElementBlocks> {
    match r
    case Err(e) => Err(e)
    case Ok(b) => Ok(ElementBlocks(ds + b.definitions, es + b.elements, b.next, b.atEnd))
  }

  lemma WithBlocksNothing(r: Result<ElementBlocks>)
    ensures WithBlocks([], [], r) == r
  {
    if r.Ok? {
      assert [] + r.value.definitions == r.value.definitions;
      assert [] + r.value.elements == r.value.elements;
    }
  }

  /** One step of ReadElementBlocks once its first sub-block is known. */
  lemma ElementBlocksStep(lines: seq<Line>, at: nat, b: SubBlock)
    requires ReadSubBlock(lines, at) == Ok(b)
    ensures b.next >= |lines| - 1 ==>
      ReadElementBlocks(lines, at) == Ok(ElementBlocks([Definition(b.elementType, b.count)], b.connectivity, b.next, true))
    ensures b.next < |lines| - 1 && lines[b.next] == PART ==>
      ReadElementBlocks(lines, at) == Ok(ElementBlocks([Definition(b.elementType, b.count)], b.connectivity, b.next, false))
    ensures b.next < |lines| - 1 && lines[b.next] != PART ==>
      ReadElementBlocks(lines, at) == WithBlocks([Definition(b.elementType, b.count)], b.connectivity, ReadElementBlocks(lines, b.next))
  {
  }

  lemma WithBlocksAssoc(ds: seq<Definition>, es: seq<seq<int>>, ds': seq<Definition>, es': seq<seq<int>>, r: Result<ElementBlocks>)
    ensures WithBlocks(ds, es, WithBlocks(ds', es', r)) == WithBlocks(ds + ds', es + es', r)
  {
    if r.Ok? {
      assert ds + (ds' + r.value.definitions) == (ds + ds') + r.value.definitions;
      assert es + (es' + r.value.elements) == (es + es') + r.value.elements;
    }
  }

  /** What one iteration of ReadElementBlocksAt does to its loop invariant. */
  lemma ElementBlocksAdvance(lines: seq<Line>, at: nat, here: nat, ds: seq<Definition>, es: seq<seq<int>>)
    requires ReadElementBlocks(lines, at) == WithBlocks(ds, es, ReadElementBlocks(lines, here))
    ensures ReadSubBlock(lines, here).Err? ==> ReadElementBlocks(lines, at) == Err(ReadSubBlock(lines, here).error)
    ensures ReadSubBlock(lines, here).Ok? ==>
      var b := ReadSubBlock(lines, here).value;
      var d := Definition(b.elementType, b.count);
      if b.next >= |lines| - 1 || lines[b.next] == PART then
        ReadElementBlocks(lines, at) == Ok(ElementBlocks(ds + [d], es + b.connectivity, b.next, b.next >= |lines| - 1))
      else
        ReadElementBlocks(lines, at) == WithBlocks(ds + [d], es + b.connectivity, ReadElementBlocks(lines, b.next))
  {
    var sb := ReadSubBlock(lines, here);
    if sb.Ok? {
      var b := sb.value;
      var d := Definition(b.elementType, b.count);
      ElementBlocksStep(lines, here, b);
      WithBlocksAssoc(ds, es, [d], b.connectivity, ReadElementBlocks(lines, b.next));
    }
  }

  /** The inner `while True` of read_ascii, from cursor `at`. */
  method ReadElementBlocksAt(lines: seq<Line>, at: nat) returns (r: Result<ElementBlocks>)
    ensures r == ReadElementBlocks(lines, at)
  {
    var currentIdx := at;
    var lastIdx := |lines| - 1;
    var definitions: seq<Definition> := [];
    var elements: seq<seq<int>> := [];
    WithBlocksNothing(ReadElementBlocks(lines, at));
    while true
      invariant at <= currentIdx
      invariant ReadElementBlocks(lines, at) == WithBlocks(definitions, elements, ReadElementBlocks(lines, currentIdx))
      decreases |lines| - currentIdx
    {
      var block := ReadSubBlockAt(lines, currentIdx);
      ElementBlocksAdvance(lines, at, currentIdx, definitions, elements);
      if block.Err? { return Err(block.error); }
      var b := block.value;
      definitions := definitions + [Definition(b.elementType, b.count)];
      elements := elements + b.connectivity;
      currentIdx := b.next;
      if currentIdx >= lastIdx || lines[currentIdx] == PART {
        return Ok(ElementBlocks(definitions, elements, currentIdx, currentIdx >= lastIdx));
      }
    }
  }

  /** One iteration of read_ascii's outer loop, from cursor `at`. */
  method ReadPartAt(lines: seq<Line>, at: nat) returns (r: Result<PartRead>)
    ensures r == ReadPart(lines, at)
  {
    var currentIdx := at;
    if currentIdx >= |lines| { return Err(Truncated(currentIdx)); }
    if lines[currentIdx] != PART { return Err(MissingPart(currentIdx)); }
    currentIdx := currentIdx + 2;
    if currentIdx >= |lines| { return Err(Truncated(currentIdx)); }
    var partName := lines[currentIdx];
    currentIdx := currentIdx + 2;
    if currentIdx >= |lines| { return Err(Truncated(currentIdx)); }
    var numberOfNodes: nat;
    match ToInt(lines[currentIdx]) {
      case None => return Err(NotAnInteger(currentIdx));
      case Some(n) =>
        if n < 0 { return Err(NegativeCount(currentIdx)); }
        numberOfNodes := n;
    }
    currentIdx := currentIdx + 1;
    var nodes := ReadNodes(lines, currentIdx, numberOfNodes);
    if nodes.Err? { return Err(nodes.error); }
    currentIdx := currentIdx + 3 * numberOfNodes;
    var blocks := ReadElementBlocksAt(lines, currentIdx);
    if blocks.Err? { return Err(blocks.error); }
    var b := blocks.value;
    return Ok(PartRead(Part(partName, nodes.value, b.definitions, b.elements), b.next, b.atEnd));
  }

  /** read_ascii: the outer `while True` with its read_allParts flag. */
  method ReadAsciiFile(file: seq<Line>) returns (r: Result<Geometry>)
    ensures r == ReadAscii(file)
  {
    var lines := Body(file, 4);
    var currentIdx: nat := 0;
    var parts: seq<Part> := [];
    var readAllParts := false;
    if ReadParts(lines, 0).Ok? {
      assert [] + ReadParts(lines, 0).value == ReadParts(lines, 0).value;
    }
    while true
      invariant !readAllParts
      invariant ReadParts(lines, 0) == WithParts(parts, ReadParts(lines, currentIdx))
      decreases |lines| - currentIdx
    {
      var pr := ReadPartAt(lines, currentIdx);
      if pr.Err? { return Err(pr.error); }
      ghost var done := parts;
      parts := parts + [pr.value.part];
      if pr.value.atEnd {
        assert ReadParts(lines, 0) == Ok(parts);
        readAllParts := true;
        break;
      }
      if ReadParts(lines, pr.value.next).Ok? {
        var rest := ReadParts(lines, pr.value.next).value;
        assert (done + [pr.value.part]) + rest == done + ([pr.value.part] + rest);
      }
      currentIdx := pr.value.next;
    }
    return Ok(Geometry(parts));
  }

  // ================================================================ writing

  const HEADER: seq<Line> := [Word("Ensight geometry file"), Word("Written by piEnsight"),
                              Word("node id assign"), Word("element id assign")]

  /** write_nodeInfo for element `k` of the flat element list: the index is
      looked up first, then nsided / nfaced are refused; the line is every
      index plus 1. */
  function ElementLine(elementType: Line, elements: seq<seq<int>>, k: nat): (o: Output)
    ensures k >= |elements| ==> o == Fail(ElementIndexOutOfRange)
    ensures k < |elements| && (elementType == NSIDED || elementType == NFACED) ==> o == Fail(UnsupportedOnWrite)
    ensures k < |elements| && elementType != NSIDED && elementType != NFACED ==>
      o == Emit([Ints(Shift(elements[k], 1))])
  {
    if k >= |elements| then Fail(ElementIndexOutOfRange)
    else if elementType == NSIDED || elementType == NFACED then Fail(UnsupportedOnWrite)
    else Emit([Ints(Shift(elements[k], 1))])
  }

  /** The connectivity lines of elements offset+n, ..., offset+count-1 of one definition. */
  function ElementLines(d: Definition, elements: seq<seq<int>>, offset: nat, n: nat): Output
    decreases d.count - n
  {
    if n >= d.count then Emit([])
    else Then(ElementLine(d.elementType, elements, offset + n), ElementLines(d, elements, offset, n + 1))
  }

  /** One definition: its type line, its count line, its elements. */
  function DefinitionLines(d: Definition, elements: seq<seq<int>>, offset: nat): Output {
    Then(Emit([d.elementType, Ints([d.count])]), ElementLines(d, elements, offset, 0))
  }

  /** The definitions of a part, with the running offset current_id. */
  function DefinitionsLines(defs: seq<Definition>, elements: seq<seq<int>>, offset: nat): Output
    decreases |defs|
  {
    if defs == [] then Emit([])
    else Then(DefinitionLines(defs[0], elements, offset), DefinitionsLines(defs[1..], elements, offset + defs[0].count))
  }

  /** The lines of a part before its sub-blocks. */
  function PartHead(id: int, p: Part): (r: seq<Line>)
    ensures |r| == 5 + 3 * |p.nodes|
  {
    [PART, Ints([id]), p.name, Word("coordinates"), Ints([|p.nodes|])] + NodeLines(p.nodes)
  }

  function PartLines(id: int, p: Part): Output {
    Then(Emit(PartHead(id, p)), DefinitionsLines(p.definitions, p.elements, 0))
  }

  /** Parts numbered by position: the k-th part (0-based) is written with id `first + k`. */
  function PartsLines(parts: seq<Part>, first: int): Output
    decreases |parts|
  {
    if parts == [] then Emit([])
    else Then(PartLines(first, parts[0]), PartsLines(parts[1..], first + 1))
  }

  /** write_ascii */
  function WriteAscii(g: Geometry): Output {
    Then(Emit(HEADER), PartsLines(g.parts, 1))
  }

  /** write: only the ascii format is implemented; nothing is written otherwise. */
  function Write(g: Geometry, format: string): (o: Output)
    ensures format != "ascii" ==> o == Fail(UnsupportedFormat)
    ensures format == "ascii" ==> o == WriteAscii(g)
  {
    if format == "ascii" then WriteAscii(g) else Fail(UnsupportedFormat)
  }

  /** One definition's element loop of write_ascii, elements offset .. offset+count-1. */
  method AppendElements(out: seq<Line>, d: Definition, elements: seq<seq<int>>, offset: nat) returns (o: Output)
    ensures o == Then(Emit(out), ElementLines(d, elements, offset, 0))
  {
    var res := out;
    for n := 0 to d.count
      invariant Then(Emit(res), ElementLines(d, elements, offset, n)) == Then(Emit(out), ElementLines(d, elements, offset, 0))
    {
      ThenAssoc(Emit(res), ElementLine(d.elementType, elements, offset + n), ElementLines(d, elements, offset, n + 1));
      if offset + n >= |elements| {
        return Output(res, Some(ElementIndexOutOfRange));
      }
      if d.elementType == NSIDED || d.elementType == NFACED {
        return Output(res, Some(UnsupportedOnWrite));
      }
      res := res + [Ints(Shift(elements[offset + n], 1))];
    }
    return Emit(res);
  }

  /** The definitions loop of write_ascii, with its running offset current_id. */
  method AppendDefinitions(out: seq<Line>, defs: seq<Definition>, elements: seq<seq<int>>) returns (o: Output)
    ensures o == Then(Emit(out), DefinitionsLines(defs, elements, 0))
  {
    var res := out;
    var currentId: nat := 0;
    for di := 0 to |defs|
      invariant Then(Emit(res), DefinitionsLines(defs[di..], elements, currentId)) == Then(Emit(out), DefinitionsLines(defs, elements, 0))
    {
      var d := defs[di];
      assert defs[di..][1..] == defs[di + 1..];
      ThenAssoc(Emit(res), DefinitionLines(d, elements, currentId), DefinitionsLines(defs[di + 1..], elements, currentId + d.count));
      ThenAssoc(Emit(res), Emit([d.elementType, Ints([d.count])]), ElementLines(d, elements, currentId, 0));
      var e := AppendElements(res + [d.elementType, Ints([d.count])], d, elements, currentId);
      if e.failure.Some? {
        return e;
      }
      res := e.lines;
      currentId := currentId + d.count;
    }
    return Emit(res);
  }

  lemma PartsLinesStep(parts: seq<Part>, i: nat, first: int)
    requires i < |parts|
    ensures PartsLines(parts[i..], first) == Then(PartLines(first, parts[i]), PartsLines(parts[i + 1..], first + 1))
  {
    assert parts[i..][1..] == parts[i + 1..];
  }

  /** One iteration of write_ascii's parts loop: the part's head and nodes,
      then its definitions. */
  method AppendPart(out: seq<Line>, id: int, part: Part) returns (o: Output)
    ensures o == Then(Emit(out), PartLines(id, part))
  {
    ThenAssoc(Emit(out), Emit(PartHead(id, part)), DefinitionsLines(part.definitions, part.elements, 0));
    var head := AppendNodes(out + [PART, Ints([id]), part.name, Word("coordinates"), Ints([|part.nodes|])], part.nodes);
    assert head == out + PartHead(id, part);
    o := AppendDefinitions(head, part.definitions, part.elements);
  }

  /** write_ascii: the header, then each part numbered from 1. */
  method WriteAsciiFile(g: Geometry) returns (o: Output)
    ensures o == WriteAscii(g)
  {
    var out := HEADER;
    assert g.parts[0..] == g.parts;
    for i := 0 to |g.parts|
      invariant Then(Emit(out), PartsLines(g.parts[i..], i + 1)) == WriteAscii(g)
    {
      PartsLinesStep(g.parts, i, i + 1);
      ThenAssoc(Emit(out), PartLines(i + 1, g.parts[i]), PartsLines(g.parts[i + 1..], i + 2));
      var p := AppendPart(out, i + 1, g.parts[i]);
      if p.failure.Some? {
        return p;
      }
      out := p.lines;
    }
    assert g.parts[|g.parts|..] == [];
    return Emit(out);
  }

  // ================================================================ write failures

  /** When write_ascii raises for a part's definitions, independently of the
      order it walks them in: some definition with at least one element is
      nsided / nfaced, or runs past the end of the element list. */
  predicate Writable(defs: seq<Definition>, elements: seq<seq<int>>, offset: nat) {
    forall i :: 0 <= i < |defs| && defs[i].count > 0 ==>
      && defs[i].elementType != NSIDED && defs[i].elementType != NFACED
      && offset + TotalCount(defs[..i + 1]) <= |elements|
  }

  lemma {:induction false} ElementLinesSucceed(d: Definition, elements: seq<seq<int>>, offset: nat, n: nat)
    requires n <= d.count
    ensures ElementLines(d, elements, offset, n).failure.None? <==>
      n == d.count || (d.elementType != NSIDED && d.elementType != NFACED && offset + d.count <= |elements|)
    decreases d.count - n
  {
    if n < d.count {
      ElementLinesSucceed(d, elements, offset, n + 1);
    }
  }

  /** Writable, split into the first definition and the rest. */
  lemma WritableCons(defs: seq<Definition>, elements: seq<seq<int>>, offset: nat)
    requires defs != []
    ensures Writable(defs, elements, offset) <==>
      && (defs[0].count == 0 || (defs[0].elementType != NSIDED && defs[0].elementType != NFACED && offset + defs[0].count <= |elements|))
      && Writable(defs[1..], elements, offset + defs[0].count)
  {
    var d := defs[0];
    assert TotalCount(defs[..1]) == d.count by {
      assert defs[..1][1..] == [];
    }
    forall i | 1 <= i < |defs| {
      TotalCountPrefix(defs, i);
    }
    if Writable(defs, elements, offset) {
      forall i | 0 <= i < |defs[1..]| && defs[1..][i].count > 0
        ensures defs[1..][i].elementType != NSIDED && defs[1..][i].elementType != NFACED
        ensures offset + d.count + TotalCount(defs[1..][..i + 1]) <= |elements|
      {
        assert defs[1..][i] == defs[i + 1];
      }
    }
    if Writable(defs[1..], elements, offset + d.count) && (d.count == 0 || (d.elementType != NSIDED && d.elementType != NFACED && offset + d.count <= |elements|)) {
      forall i | 0 <= i < |defs| && defs[i].count > 0
        ensures defs[i].elementType != NSIDED && defs[i].elementType != NFACED
        ensures offset + TotalCount(defs[..i + 1]) <= |elements|
      {
        if i > 0 {
          assert defs[1..][i - 1] == defs[i];
          assert defs[1..][..i - 1 + 1] == defs[1..][..i];
        }
      }
    }
  }

  lemma {:induction false} DefinitionsLinesSucceed(defs: seq<Definition>, elements: seq<seq<int>>, offset: nat)
    ensures DefinitionsLines(defs, elements, offset).failure.None? <==> Writable(defs, elements, offset)
    decreases |defs|
  {
    if defs != [] {
      DefinitionsLinesSucceed(defs[1..], elements, offset + defs[0].count);
      ElementLinesSucceed(defs[0], elements, offset, 0);
      WritableCons(defs, elements, offset);
    }
  }

  lemma {:induction false} PartsLinesSucceed(parts: seq<Part>, first: int)
    ensures PartsLines(parts, first).failure.None? <==>
      forall i :: 0 <= i < |parts| ==> Writable(parts[i].definitions, parts[i].elements, 0)
    decreases |parts|
  {
    if parts != [] {
      PartsLinesSucceed(parts[1..], first + 1);
      DefinitionsLinesSucceed(parts[0].definitions, parts[0].elements, 0);
      if forall i :: 0 <= i < |parts| ==> Writable(parts[i].definitions, parts[i].elements, 0) {
        forall i | 0 <= i < |parts[1..]| ensures Writable(parts[1..][i].definitions, parts[1..][i].elements, 0) {
          assert parts[1..][i] == parts[i + 1];
        }
      }
      if Writable(parts[0].definitions, parts[0].elements, 0) && forall i :: 0 <= i < |parts[1..]| ==> Writable(parts[1..][i].definitions, parts[1..][i].elements, 0) {
        forall i | 0 <= i < |parts| ensures Writable(parts[i].definitions, parts[i].elements, 0) {
          if i > 0 {
            assert parts[1..][i - 1] == parts[i];
          }
        }
      }
    }
  }

  /** write_ascii completes exactly when no part has a nsided / nfaced
      definition with elements, and no definition runs past its part's
      element list; otherwise the file holds what came before the error. */
  lemma WriteAsciiSucceeds(g: Geometry)
    ensures WriteAscii(g).failure.None? <==>
      forall i :: 0 <= i < |g.parts| ==> Writable(g.parts[i].definitions, g.parts[i].elements, 0)
  {
    PartsLinesSucceed(g.parts, 1);
  }

  // ================================================================ round trip

  /** What the writer can emit and the reader take back: at least one
      sub-block, the element list the definitions announce, and no sub-block
      type that the reader refuses or would take for the start of a part. */
  predicate WellFormedPart(p: Part) {
    && |p.definitions| >= 1
    && TotalCount(p.definitions) == |p.elements|
    && forall i :: 0 <= i < |p.definitions| ==>
         p.definitions[i].elementType != PART && p.definitions[i].elementType != NSIDED && p.definitions[i].elementType != NFACED
  }

  predicate WellFormed(g: Geometry) {
    |g.parts| >= 1 && forall i :: 0 <= i < |g.parts| ==> WellFormedPart(g.parts[i])
  }

  /** The sub-blocks in file order, each taking the next `count` elements. */
  function DefinitionsLayout(defs: seq<Definition>, elements: seq<seq<int>>): (r: seq<Line>)
    requires TotalCount(defs) == |elements|
    decreases |defs|
  {
    if defs == [] then []
    else SubBlockLines(defs[0].elementType, elements[..defs[0].count])
         + DefinitionsLayout(defs[1..], elements[defs[0].count..])
  }

  function PartLayout(id: int, p: Part): seq<Line>
    requires WellFormedPart(p)
  {
    PartHead(id, p) + DefinitionsLayout(p.definitions, p.elements)
  }

  function PartsLayout(parts: seq<Part>, first: int): seq<Line>
    requires forall i :: 0 <= i < |parts| ==> WellFormedPart(parts[i])
    decreases |parts|
  {
    if parts == [] then [] else PartLayout(first, parts[0]) + PartsLayout(parts[1..], first + 1)
  }

  lemma {:induction false} ElementLinesOfLayout(d: Definition, elements: seq<seq<int>>, offset: nat, n: nat)
    requires d.elementType != NSIDED && d.elementType != NFACED
    requires n <= d.count && offset + d.count <= |elements|
    ensures ElementLines(d, elements, offset, n) == Emit(ConnectivityLines(elements[offset + n..offset + d.count]))
    decreases d.count - n
  {
    if n < d.count {
      ElementLinesOfLayout(d, elements, offset, n + 1);
      var tail := elements[offset + n..offset + d.count];
      assert ConnectivityLines(tail) == [Ints(Shift(elements[offset + n], 1))] + ConnectivityLines(tail[1..]);
      assert tail[1..] == elements[offset + n + 1..offset + d.count];
    } else {
      assert elements[offset + n..offset + d.count] == [];
    }
  }

  lemma {:induction false} DefinitionsLinesOfLayout(defs: seq<Definition>, elements: seq<seq<int>>, offset: nat, stop: nat)
    requires forall i :: 0 <= i < |defs| ==> defs[i].elementType != NSIDED && defs[i].elementType != NFACED
    requires stop == offset + TotalCount(defs) <= |elements|
    ensures DefinitionsLines(defs, elements, offset) == Emit(DefinitionsLayout(defs, elements[offset..stop]))
    decreases |defs|
  {
    if defs != [] {
      var d := defs[0];
      var slice := elements[offset..stop];
      ElementLinesOfLayout(d, elements, offset, 0);
      DefinitionsLinesOfLayout(defs[1..], elements, offset + d.count, stop);
      assert slice[..d.count] == elements[offset..offset + d.count];
      assert slice[d.count..] == elements[offset + d.count..stop];
      assert DefinitionsLayout(defs, slice) ==
        SubBlockLines(d.elementType, slice[..d.count]) + DefinitionsLayout(defs[1..], slice[d.count..]);
    } else {
      assert elements[offset..stop] == [];
    }
  }

  lemma {:induction false} PartsLinesOfLayout(parts: seq<Part>, first: int)
    requires forall i :: 0 <= i < |parts| ==> WellFormedPart(parts[i])
    ensures PartsLines(parts, first) == Emit(PartsLayout(parts, first))
    decreases |parts|
  {
    if parts != [] {
      var p := parts[0];
      DefinitionsLinesOfLayout(p.definitions, p.elements, 0, |p.elements|);
      assert p.elements[0..TotalCount(p.definitions)] == p.elements;
      PartsLinesOfLayout(parts[1..], first + 1);
    }
  }

  /** write_ascii on a well-formed geometry: the header, then every part with
      its id 1..N, its nodes x-then-y-then-z and its sub-blocks in order. */
  lemma WriteAsciiLayout(g: Geometry)
    requires forall i :: 0 <= i < |g.parts| ==> WellFormedPart(g.parts[i])
    ensures WriteAscii(g) == Emit(HEADER + PartsLayout(g.parts, 1))
  {
    PartsLinesOfLayout(g.parts, 1);
  }

  /** The end of a part as the reader sees it at cursor `e`. */
  predicate EndsPart(lines: seq<Line>, e: nat) {
    e >= |lines| - 1 || (e < |lines| && lines[e] == PART)
  }

  /** The first written sub-block and what follows it. */
  lemma DefinitionsLayoutSplit(defs: seq<Definition>, elements: seq<seq<int>>)
    requires |defs| >= 1 && TotalCount(defs) == |elements|
    requires forall i :: 0 <= i < |defs| ==> defs[i].elementType != PART
    ensures DefinitionsLayout(defs, elements) ==
      SubBlockLines(defs[0].elementType, elements[..defs[0].count]) + DefinitionsLayout(defs[1..], elements[defs[0].count..])
    ensures |defs| > 1 ==>
      var rest := DefinitionsLayout(defs[1..], elements[defs[0].count..]);
      |rest| >= 2 && rest[0] != PART
  {
    if |defs| > 1 {
      var es := elements[defs[0].count..];
      assert DefinitionsLayout(defs[1..], es) ==
        SubBlockLines(defs[1..][0].elementType, es[..defs[1..][0].count]) + DefinitionsLayout(defs[1..][1..], es[defs[1..][0].count..]);
      assert defs[1..][0] == defs[1];
    }
  }

  /** The first written sub-block read back, with the cursor after it. */
  lemma FirstBlockOfLayout(lines: seq<Line>, at: nat, defs: seq<Definition>, elements: seq<seq<int>>, e: nat)
    requires |defs| >= 1 && TotalCount(defs) == |elements|
    requires forall i :: 0 <= i < |defs| ==>
      defs[i].elementType != PART && defs[i].elementType != NSIDED && defs[i].elementType != NFACED
    requires e == at + |DefinitionsLayout(defs, elements)| <= |lines|
    requires lines[at..e] == DefinitionsLayout(defs, elements)
    ensures
      var rest := DefinitionsLayout(defs[1..], elements[defs[0].count..]);
      var next := at + 2 + defs[0].count;
      && ReadSubBlock(lines, at) == Ok(SubBlock(defs[0].elementType, defs[0].count, elements[..defs[0].count], next))
      && next + |rest| == e
      && lines[next..e] == rest
      && (|defs| > 1 ==> next < |lines| - 1 && lines[next] != PART)
  {
    var d := defs[0];
    var first := SubBlockLines(d.elementType, elements[..d.count]);
    var rest := DefinitionsLayout(defs[1..], elements[d.count..]);
    var next := at + 2 + d.count;
    DefinitionsLayoutSplit(defs, elements);
    SliceSplit(lines, at, next, e, first, rest);
    ReadSubBlockOfLines(lines, at, d.elementType, elements[..d.count], next);
    if |defs| > 1 {
      assert lines[next] == lines[next..e][0] == rest[0];
    }
  }

  lemma {:induction false} ReadElementBlocksOfLayout(lines: seq<Line>, at: nat, defs: seq<Definition>, elements: seq<seq<int>>, e: nat)
    requires |defs| >= 1 && TotalCount(defs) == |elements|
    requires forall i :: 0 <= i < |defs| ==>
      defs[i].elementType != PART && defs[i].elementType != NSIDED && defs[i].elementType != NFACED
    requires e == at + |DefinitionsLayout(defs, elements)| <= |lines|
    requires lines[at..e] == DefinitionsLayout(defs, elements)
    requires EndsPart(lines, e)
    ensures ReadElementBlocks(lines, at) == Ok(ElementBlocks(defs, elements, e, e >= |lines| - 1))
    decreases |defs|
  {
    var d := defs[0];
    var next := at + 2 + d.count;
    FirstBlockOfLayout(lines, at, defs, elements, e);
    ElementBlocksStep(lines, at, SubBlock(d.elementType, d.count, elements[..d.count], next));
    if |defs| == 1 {
      assert defs == [d];
      assert elements[..d.count] == elements;
    } else {
      ReadElementBlocksOfLayout(lines, next, defs[1..], elements[d.count..], e);
      assert [d] + defs[1..] == defs;
      assert elements[..d.count] + elements[d.count..] == elements;
    }
  }

  /** One step of ReadPart once its node block and its sub-blocks are known. */
  lemma PartStep(lines: seq<Line>, at: nat, n: nat, nodes: seq<Vec3>, b: ElementBlocks)
    requires at + 4 < |lines| && lines[at] == PART && ToInt(lines[at + 4]) == Some(n)
    requires ReadNodes(lines, at + 5, n) == Ok(nodes)
    requires ReadElementBlocks(lines, at + 5 + 3 * n) == Ok(b)
    ensures ReadPart(lines, at) == Ok(PartRead(Part(lines[at + 2], nodes, b.definitions, b.elements), b.next, b.atEnd))
  {
  }

  /** The head of a written part read back: keyword, name, node count and nodes. */
  lemma PartHeadOfLayout(lines: seq<Line>, at: nat, id: int, p: Part, e: nat)
    requires e == at + |PartHead(id, p)| <= |lines|
    requires lines[at..e] == PartHead(id, p)
    ensures lines[at] == PART && lines[at + 2] == p.name && ToInt(lines[at + 4]) == Some(|p.nodes|)
    ensures ReadNodes(lines, at + 5, |p.nodes|) == Ok(p.nodes)
  {
    var fixed := [PART, Ints([id]), p.name, Word("coordinates"), Ints([|p.nodes|])];
    SliceSplit(lines, at, at + 5, e, fixed, NodeLines(p.nodes));
    assert lines[at] == lines[at..at + 5][0] == PART;
    assert lines[at + 2] == lines[at..at + 5][2] == p.name;
    assert lines[at + 4] == lines[at..at + 5][4] == Ints([|p.nodes|]);
    ReadNodesOfNodeLines(lines, at + 5, p.nodes, e);
  }

  lemma ReadPartOfLayout(lines: seq<Line>, at: nat, id: int, p: Part, e: nat)
    requires WellFormedPart(p)
    requires e == at + |PartLayout(id, p)| <= |lines|
    requires lines[at..e] == PartLayout(id, p)
    requires EndsPart(lines, e)
    ensures ReadPart(lines, at) == Ok(PartRead(p, e, e >= |lines| - 1))
  {
    var head := PartHead(id, p);
    var blocks := DefinitionsLayout(p.definitions, p.elements);
    var m := at + |head|;
    SliceSplit(lines, at, m, e, head, blocks);
    PartHeadOfLayout(lines, at, id, p, m);
    ReadElementBlocksOfLayout(lines, m, p.definitions, p.elements, e);
    PartStep(lines, at, |p.nodes|, p.nodes, ElementBlocks(p.definitions, p.elements, e, e >= |lines| - 1));
  }

  lemma PartsStep(lines: seq<Line>, at: nat, pr: PartRead)
    requires ReadPart(lines, at) == Ok(pr)
    ensures pr.atEnd ==> ReadParts(lines, at) == Ok([pr.part])
    ensures !pr.atEnd ==> ReadParts(lines, at) == WithParts([pr.part], ReadParts(lines, pr.next))
  {
  }

  lemma PartLayoutShape(id: int, p: Part)
    requires WellFormedPart(p)
    ensures |PartLayout(id, p)| >= 7 && PartLayout(id, p)[0] == PART
  {
    assert DefinitionsLayout(p.definitions, p.elements) ==
      SubBlockLines(p.definitions[0].elementType, p.elements[..p.definitions[0].count])
      + DefinitionsLayout(p.definitions[1..], p.elements[p.definitions[0].count..]);
  }

  /** The layout of the parts after the first, and where it starts. */
  lemma PartsLayoutSplit(parts: seq<Part>, first: int)
    requires |parts| >= 1 && forall i :: 0 <= i < |parts| ==> WellFormedPart(parts[i])
    ensures PartsLayout(parts, first) == PartLayout(first, parts[0]) + PartsLayout(parts[1..], first + 1)
    ensures |parts| > 1 ==> |PartsLayout(parts[1..], first + 1)| >= 7 && PartsLayout(parts[1..], first + 1)[0] == PART
  {
    if |parts| > 1 {
      assert parts[1..][0] == parts[1];
      PartLayoutShape(first + 1, parts[1]);
    }
  }

  /** Reading the first written part, and what ReadParts then does. */
  lemma ReadPartsStepOfLayout(lines: seq<Line>, at: nat, id: int, p: Part, e: nat)
    requires WellFormedPart(p)
    requires e == at + |PartLayout(id, p)| <= |lines|
    requires lines[at..e] == PartLayout(id, p)
    requires EndsPart(lines, e)
    ensures e >= |lines| - 1 ==> ReadParts(lines, at) == Ok([p])
    ensures e < |lines| - 1 ==> ReadParts(lines, at) == WithParts([p], ReadParts(lines, e))
  {
    ReadPartOfLayout(lines, at, id, p, e);
    PartsStep(lines, at, PartRead(p, e, e >= |lines| - 1));
  }

  lemma {:induction false} ReadPartsOfLayout(lines: seq<Line>, at: nat, parts: seq<Part>, first: int, e: nat)
    requires |parts| >= 1 && forall i :: 0 <= i < |parts| ==> WellFormedPart(parts[i])
    requires e == at + |PartsLayout(parts, first)| && e <= |lines| <= e + 1
    requires lines[at..e] == PartsLayout(parts, first)
    ensures ReadParts(lines, at) == Ok(parts)
    decreases |parts|
  {
    var p := parts[0];
    var a := PartLayout(first, p);
    var b := PartsLayout(parts[1..], first + 1);
    PartsLayoutSplit(parts, first);
    var mid := at + |a|;
    SliceSplit(lines, at, mid, e, a, b);
    if |parts| == 1 {
      ReadPartsStepOfLayout(lines, at, first, p, mid);
      assert parts == [p];
    } else {
      assert lines[mid] == b[0];
      assert mid < |lines| - 1;
      ReadPartsStepOfLayout(lines, at, first, p, mid);
      ReadPartsOfLayout(lines, mid, parts[1..], first + 1, e);
      assert ReadParts(lines, at) == WithParts([p], Ok(parts[1..]));
      assert [p] + parts[1..] == parts;
    }
  }

  /** Reading what write_ascii emits gives back the geometry: part by part and
      in order, the same names, nodes and sub-blocks. */
  lemma RoundTrip(g: Geometry)
    requires WellFormed(g)
    ensures WriteAscii(g).failure.None?
    ensures ReadAscii(WriteAscii(g).lines) == Ok(g)
  {
    WriteAsciiLayout(g);
    var file := HEADER + PartsLayout(g.parts, 1);
    assert Body(file, 4) == PartsLayout(g.parts, 1);
    ReadPartsOfLayout(Body(file, 4), 0, g.parts, 1, |PartsLayout(g.parts, 1)|);
  }

  /** Because the reader stops at the last index, one extra line after the
      last part is never looked at. */
  lemma TrailingLineTolerated(g: Geometry, extra: Line)
    requires WellFormed(g)
    ensures ReadAscii(WriteAscii(g).lines + [extra]) == Ok(g)
  {
    WriteAsciiLayout(g);
    var body := PartsLayout(g.parts, 1);
    var lines := body + [extra];
    assert WriteAscii(g).lines + [extra] == HEADER + lines;
    assert |HEADER| == 4 && (HEADER + lines)[4..] == lines;
    assert lines[0..|body|] == body;
    ReadPartsOfLayout(lines, 0, g.parts, 1, |body|);
  }

  // ================================================================ a negative count

  /** One iteration of read_ascii's inner loop as written, with Python's
      range() and cursor arithmetic: the cursor after it, None where it
      raises. A negative count reads no line and moves the cursor back. */
  function InnerStepAsWritten(lines: seq<Line>, at: nat): (r: Option<int>)
  {
    if at + 1 >= |lines| then None
    else match ToInt(lines[at + 1])
      case None => None
      case Some(c) =>
        if lines[at] == NSIDED || lines[at] == NFACED then None
        else if c <= 0 then Some(at + 2 + c)
        else if ReadConnectivity(lines, at + 2, c).Err? then None
        else Some(at + 2 + c)
  }

  /** As written, the inner loop at cursor 5 comes back to cursor 5, which is
      below last_idx and not a `part` line, so it runs again from the same
      state and read_ascii never returns. */
  lemma InnerStallAsWritten()
    ensures InnerStepAsWritten(STALLING_CHUNK, 5) == Some(5)
    ensures 5 < |STALLING_CHUNK| - 1 && STALLING_CHUNK[5] != PART
  {
  }

  /** The model refuses the negative count instead. */
  lemma InnerNegativeCountRejected()
    ensures ReadElementBlocks(STALLING_CHUNK, 5) == Err(NegativeCount(6))
    ensures ReadParts(STALLING_CHUNK, 0) == Err(NegativeCount(6))
  {
    assert ReadSubBlock(STALLING_CHUNK, 5) == Err(NegativeCount(6));
    assert ReadNodes(STALLING_CHUNK, 5, 0) == Ok([]);
  }
}
