/** piEnsight/utils.py: get_parts_names, the scan of a geometry file that
    collects the name written two lines below every `part` line it lands on. */
module Utils {
  import opened Tokens
  import opened Blocks
  import opened GeometryCore
  import GeometryIo

  // ================================================================ the scan

  /** get_parts_names from index `idx`: on a `part` line the scan jumps two
      lines, takes that line as a name and goes on after it; any other line is
      passed over. A `part` whose name line does not exist is an IndexError. */
  function PartsNames(lines: seq<Line>, idx: nat): (r: Result<seq<Line>>)
    ensures r.Err? ==> r.error.Truncated?
    decreases |lines| - idx
  {
    if idx >= |lines| then Ok([])
    else if lines[idx] == PART then
      if idx + 2 >= |lines| then Err(Truncated(idx + 2))
      else match PartsNames(lines, idx + 3)
        case Err(e) => Err(e)
        case Ok(rest) => Ok([lines[idx + 2]] + rest)
    else PartsNames(lines, idx + 1)
  }

  function WithNames(done: seq<Line>, r: Result<seq<Line>>): Result<seq<Line>> {
    match r
    case Err(e) => Err(e)
    case Ok(rest) => Ok(done + rest)
  }

  /** get_parts_names: the while loop over current_idx, which moves on by 1
      after any other line and by 3 after a `part` line. */
  method GetPartsNames(lines: seq<Line>) returns (r: Result<seq<Line>>)
    ensures r == PartsNames(lines, 0)
  {
    var namelist: seq<Line> := [];
    var currentIdx: nat := 0;
    if PartsNames(lines, 0).Ok? {
      assert [] + PartsNames(lines, 0).value == PartsNames(lines, 0).value;
    }
    while currentIdx < |lines|
      invariant PartsNames(lines, 0) == WithNames(namelist, PartsNames(lines, currentIdx))
      decreases |lines| - currentIdx
    {
      if lines[currentIdx] == PART {
        if currentIdx + 2 < |lines| && PartsNames(lines, currentIdx + 3).Ok? {
          var rest := PartsNames(lines, currentIdx + 3).value;
          assert namelist + ([lines[currentIdx + 2]] + rest) == (namelist + [lines[currentIdx + 2]]) + rest;
        }
        currentIdx := currentIdx + 2;
        if currentIdx >= |lines| {
          return Err(Truncated(currentIdx));
        }
        namelist := namelist + [lines[currentIdx]];
      }
      currentIdx := currentIdx + 1;
    }
    assert namelist + [] == namelist;
    return Ok(namelist);
  }

  // ================================================================ where the names come from

  /** The indices of the `part` lines the scan lands on, from index `idx`. */
  function Landings(lines: seq<Line>, idx: nat): (ps: seq<nat>)
    decreases |lines| - idx
  {
    if idx >= |lines| then []
    else if lines[idx] == PART then [idx] + Landings(lines, idx + 3)
    else Landings(lines, idx + 1)
  }

  /** Every landing is a `part` line at or after `idx`, and each one lies at
      least three lines after the one before it: the id and name lines below
      a `part` are never compared with `part`. */
  lemma {:induction false} LandingsOrdered(lines: seq<Line>, idx: nat)
    ensures forall k :: 0 <= k < |Landings(lines, idx)| ==>
      idx <= Landings(lines, idx)[k] < |lines| && lines[Landings(lines, idx)[k]] == PART
    ensures forall k :: 0 < k < |Landings(lines, idx)| ==> Landings(lines, idx)[k - 1] + 3 <= Landings(lines, idx)[k]
    decreases |lines| - idx
  {
    if idx < |lines| {
      if lines[idx] == PART {
        LandingsOrdered(lines, idx + 3);
        var rest := Landings(lines, idx + 3);
        var ps := [idx] + rest;
        assert Landings(lines, idx) == ps;
        forall k | 0 <= k < |ps|
          ensures idx <= ps[k] < |lines| && lines[ps[k]] == PART
        {
          if k > 0 { assert ps[k] == rest[k - 1]; }
        }
        forall k | 0 < k < |ps|
          ensures ps[k - 1] + 3 <= ps[k]
        {
          assert ps[k] == rest[k - 1];
          if k > 1 { assert ps[k - 1] == rest[k - 2]; }
        }
      } else {
        LandingsOrdered(lines, idx + 1);
        assert Landings(lines, idx) == Landings(lines, idx + 1);
      }
    }
  }

  /** A `part` line that the scan does not land on is the id or name line of
      a `part` it did land on. */
  lemma {:induction false} LandingsCover(lines: seq<Line>, idx: nat, i: nat)
    requires idx <= i < |lines| && lines[i] == PART
    ensures i in Landings(lines, idx) || exists k :: 0 <= k < |Landings(lines, idx)| && Landings(lines, idx)[k] < i <= Landings(lines, idx)[k] + 2
    decreases |lines| - idx
  {
    var ps := Landings(lines, idx);
    if lines[idx] == PART {
      if i > idx + 2 {
        LandingsCover(lines, idx + 3, i);
        var rest := Landings(lines, idx + 3);
        assert ps == [idx] + rest;
        if i !in rest {
          var k :| 0 <= k < |rest| && rest[k] < i <= rest[k] + 2;
          assert ps[k + 1] == rest[k];
        }
      } else if i > idx {
        assert ps[0] == idx;
      }
    } else {
      LandingsCover(lines, idx + 1, i);
    }
  }

  /** The names are the lines two below the landings, in file order; the
      scan fails exactly when the last landing has no name line. */
  predicate NamedAt(lines: seq<Line>, r: Result<seq<Line>>, ps: seq<nat>) {
    && (r.Ok? <==> (|ps| == 0 || ps[|ps| - 1] + 2 < |lines|))
    && (r.Ok? ==>
      && |r.value| == |ps|
      && forall k :: 0 <= k < |ps| ==> ps[k] + 2 < |lines| && r.value[k] == lines[ps[k] + 2])
  }

  predicate NamedAtLandings(lines: seq<Line>, idx: nat) {
    NamedAt(lines, PartsNames(lines, idx), Landings(lines, idx))
  }

  lemma {:induction false} PartsNamesOfLandings(lines: seq<Line>, idx: nat)
    ensures NamedAtLandings(lines, idx)
    decreases |lines| - idx
  {
    if idx < |lines| {
      if lines[idx] == PART {
        if idx + 2 < |lines| {
          PartsNamesOfLandings(lines, idx + 3);
          LandingStep(lines, idx, idx + 3);
        } else {
          LastLanding(lines, idx);
        }
      } else {
        PartsNamesOfLandings(lines, idx + 1);
        assert Landings(lines, idx) == Landings(lines, idx + 1);
      }
    }
  }

  /** A landing whose name line is missing is the last one. */
  lemma LastLanding(lines: seq<Line>, idx: nat)
    requires idx < |lines| <= idx + 2 && lines[idx] == PART
    ensures Landings(lines, idx) == [idx]
  {
    assert Landings(lines, idx + 3) == [];
  }

  /** A landing with its name line, in front of what the scan finds after it. */
  lemma LandingStep(lines: seq<Line>, idx: nat, next: nat)
    requires next == idx + 3 && idx + 2 < |lines| && lines[idx] == PART
    requires NamedAtLandings(lines, next)
    ensures NamedAtLandings(lines, idx)
  {
    assert Landings(lines, idx) == [idx] + Landings(lines, next);
    assert PartsNames(lines, idx) == WithNames([lines[idx + 2]], PartsNames(lines, next));
    NamedAtCons(lines, idx, PartsNames(lines, next), Landings(lines, next));
  }

  lemma NamedAtCons(lines: seq<Line>, idx: nat, r: Result<seq<Line>>, rest: seq<nat>)
    requires idx + 2 < |lines| && NamedAt(lines, r, rest)
    ensures NamedAt(lines, WithNames([lines[idx + 2]], r), [idx] + rest)
  {
    var ps := [idx] + rest;
    assert ps[|ps| - 1] == if rest == [] then idx else rest[|rest| - 1];
    if r.Ok? {
      var names := [lines[idx + 2]] + r.value;
      forall k | 0 <= k < |ps| ensures ps[k] + 2 < |lines| && names[k] == lines[ps[k] + 2] {
        if k > 0 { assert ps[k] == rest[k - 1] && names[k] == r.value[k - 1]; }
      }
    }
  }

  // ================================================================ lines that are not `part`

  predicate Unmarked(ls: seq<Line>) {
    forall i :: 0 <= i < |ls| ==> ls[i] != PART
  }

  /** A run of lines none of which is `part` adds nothing to the names. */
  lemma {:induction false} SkipUnmarked(lines: seq<Line>, idx: nat, e: nat)
    requires idx <= e <= |lines| && forall i :: idx <= i < e ==> lines[i] != PART
    ensures PartsNames(lines, idx) == PartsNames(lines, e)
    decreases e - idx
  {
    if idx < e {
      SkipUnmarked(lines, idx + 1, e);
    }
  }

  // ================================================================ names of a written file

  /** A part as the writers lay it out: `part`, an id line, the name line,
      then lines none of which is `part`. */
  datatype Block = Block(id: Line, name: Line, body: seq<Line>)

  function BlockLines(b: Block): (r: seq<Line>)
    ensures |r| == 3 + |b.body|
  {
    [PART, b.id, b.name] + b.body
  }

  function BlocksLines(bs: seq<Block>): seq<Line>
    decreases |bs|
  {
    if bs == [] then [] else BlockLines(bs[0]) + BlocksLines(bs[1..])
  }

  function BlockNames(bs: seq<Block>): (r: seq<Line>)
    ensures |r| == |bs| && forall k :: 0 <= k < |bs| ==> r[k] == bs[k].name
  {
    seq(|bs|, k requires 0 <= k < |bs| => bs[k].name)
  }

  predicate BodiesUnmarked(bs: seq<Block>) {
    forall k :: 0 <= k < |bs| ==> Unmarked(bs[k].body)
  }

  /** The scan over written blocks that run to the end of the lines returns
      their names in order. */
  lemma {:induction false} NamesOfBlocks(lines: seq<Line>, at: nat, bs: seq<Block>)
    requires at <= |lines| && lines[at..] == BlocksLines(bs) && BodiesUnmarked(bs)
    ensures PartsNames(lines, at) == Ok(BlockNames(bs))
    decreases |bs|
  {
    if bs == [] {
      assert at == |lines|;
      assert BlockNames(bs) == [];
    } else {
      var b := bs[0];
      var m := at + 3 + |b.body|;
      assert lines[at..] == BlockLines(b) + BlocksLines(bs[1..]);
      assert lines[at] == PART && lines[at + 2] == b.name;
      assert lines[m..] == BlocksLines(bs[1..]) by {
        assert lines[m..] == lines[at..][3 + |b.body|..];
      }
      forall i | at + 3 <= i < m ensures lines[i] != PART {
        assert lines[i] == lines[at..][i - at] == b.body[i - at - 3];
      }
      SkipUnmarked(lines, at + 3, m);
      NamesOfBlocks(lines, m, bs[1..]);
      assert BlockNames(bs) == [b.name] + BlockNames(bs[1..]);
    }
  }

  /** A file of header lines that are not `part`, then written blocks. */
  lemma NamesOfFile(header: seq<Line>, bs: seq<Block>)
    requires Unmarked(header) && BodiesUnmarked(bs)
    ensures PartsNames(header + BlocksLines(bs), 0) == Ok(BlockNames(bs))
  {
    var lines := header + BlocksLines(bs);
    forall i | 0 <= i < |header| ensures lines[i] != PART {
      assert lines[i] == header[i];
    }
    SkipUnmarked(lines, 0, |header|);
    assert lines[|header|..] == BlocksLines(bs);
    NamesOfBlocks(lines, |header|, bs);
  }

  // ---------------------------------------------------------------- geometry/io.py's files

  /** The parts of geometry/io.py's layout as blocks, numbered from `first`. */
  function IoBlocks(parts: seq<Part>, first: int): (bs: seq<Block>)
    requires forall i :: 0 <= i < |parts| ==> GeometryIo.WellFormedPart(parts[i])
    ensures |bs| == |parts|
    decreases |parts|
  {
    if parts == [] then []
    else [Block(Ints([first]), parts[0].name, GeometryIo.PartLayout(first, parts[0])[3..])] + IoBlocks(parts[1..], first + 1)
  }

  lemma {:induction false} UnmarkedDefinitionsLayout(defs: seq<Definition>, elements: seq<seq<int>>)
    requires TotalCount(defs) == |elements|
    requires forall i :: 0 <= i < |defs| ==> defs[i].elementType != PART
    ensures Unmarked(GeometryIo.DefinitionsLayout(defs, elements))
    decreases |defs|
  {
    if defs != [] {
      var c := defs[0].count;
      var sub := SubBlockLines(defs[0].elementType, elements[..c]);
      var rest := GeometryIo.DefinitionsLayout(defs[1..], elements[c..]);
      UnmarkedDefinitionsLayout(defs[1..], elements[c..]);
      assert GeometryIo.DefinitionsLayout(defs, elements) == sub + rest;
      forall i | 0 <= i < |sub| ensures sub[i] != PART {
        if i >= 2 { assert sub[i] == ConnectivityLines(elements[..c])[i - 2]; }
      }
    }
  }

  /** One part of geometry/io.py's layout as a block whose body has no `part` line. */
  lemma IoBlockOfPart(p: Part, first: int)
    requires GeometryIo.WellFormedPart(p)
    ensures var b := Block(Ints([first]), p.name, GeometryIo.PartLayout(first, p)[3..]);
      BlockLines(b) == GeometryIo.PartLayout(first, p) && Unmarked(b.body)
  {
    var layout := GeometryIo.PartLayout(first, p);
    var b := Block(Ints([first]), p.name, layout[3..]);
    assert layout == GeometryIo.PartHead(first, p) + GeometryIo.DefinitionsLayout(p.definitions, p.elements);
    assert layout[..3] == [PART, Ints([first]), p.name];
    assert BlockLines(b) == layout;
    UnmarkedDefinitionsLayout(p.definitions, p.elements);
    var defsLayout := GeometryIo.DefinitionsLayout(p.definitions, p.elements);
    var nodeLines := NodeLines(p.nodes);
    forall i | 0 <= i < |b.body| ensures b.body[i] != PART {
      if i < 2 {
      } else if i < 2 + |nodeLines| {
        assert b.body[i] == nodeLines[i - 2];
        assert nodeLines == Nums(Xs(p.nodes)) + Nums(Ys(p.nodes)) + Nums(Zs(p.nodes));
      } else {
        assert b.body[i] == defsLayout[i - 2 - |nodeLines|];
      }
    }
  }

  lemma {:induction false} IoBlocksLayout(parts: seq<Part>, first: int)
    requires forall i :: 0 <= i < |parts| ==> GeometryIo.WellFormedPart(parts[i])
    ensures GeometryIo.PartsLayout(parts, first) == BlocksLines(IoBlocks(parts, first))
    ensures BodiesUnmarked(IoBlocks(parts, first))
    ensures BlockNames(IoBlocks(parts, first)) == seq(|parts|, k requires 0 <= k < |parts| => parts[k].name)
    decreases |parts|
  {
    if parts != [] {
      var p := parts[0];
      var b := Block(Ints([first]), p.name, GeometryIo.PartLayout(first, p)[3..]);
      IoBlocksLayout(parts[1..], first + 1);
      assert IoBlocks(parts, first) == [b] + IoBlocks(parts[1..], first + 1);
      IoBlockOfPart(p, first);
    }
  }

  /** get_parts_names on what geometry/io.py's write_ascii emits returns the
      part names in the order of the parts. */
  lemma NamesOfWrittenGeometry(g: Geometry)
    requires forall i :: 0 <= i < |g.parts| ==> GeometryIo.WellFormedPart(g.parts[i])
    ensures PartsNames(GeometryIo.WriteAscii(g).lines, 0) == Ok(seq(|g.parts|, k requires 0 <= k < |g.parts| => g.parts[k].name))
  {
    GeometryIo.WriteAsciiLayout(g);
    IoBlocksLayout(g.parts, 1);
    var bs := IoBlocks(g.parts, 1);
    assert GeometryIo.WriteAscii(g).lines == GeometryIo.HEADER + BlocksLines(bs);
    assert Unmarked(GeometryIo.HEADER);
    NamesOfFile(GeometryIo.HEADER, bs);
    assert BlockNames(bs) == seq(|g.parts|, k requires 0 <= k < |g.parts| => g.parts[k].name);
  }
}
