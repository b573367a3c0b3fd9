/** piEnsight/variables/io.py: loading a per-element variable file against a
    geometry whose parts carry their (type, count) definitions. Each part's
    section is `part`, its id, then for every definition a type line followed
    by one value per element. */
module VariablesIo {
  import opened Tokens
  import opened Blocks
  import opened GeometryCore

  /** The values read for a run of definitions and the cursor after them. */
  datatype Loaded = Loaded(values: seq<real>, next: nat)

  /** The inner `for` of load_scalar from cursor `at`: per definition, skip the
      type line (never looked at) and read `count` values. */
  function LoadDefinitions(lines: seq<Line>, defs: seq<Definition>, at: nat): (r: Result<Loaded>)
    ensures r.Ok? ==> |r.value.values| == TotalCount(defs) && r.value.next == at + |defs| + TotalCount(defs)
    ensures r.Err? ==> r.error.Truncated? || r.error.NotAValue?
    decreases |defs|
  {
    if defs == [] then Ok(Loaded([], at))
    else
      match ReadValues(lines, at + 1, defs[0].count)
      case Err(e) => Err(e)
      case Ok(vs) =>
        match LoadDefinitions(lines, defs[1..], at + 1 + defs[0].count)
        case Err(e) => Err(e)
        case Ok(rest) => Ok(Loaded(vs + rest.values, rest.next))
  }

  /** One iteration of load_scalar's outer `for`: the assertion that the
      cursor is on `part`, the id line skipped, the definitions read, and
      np.concatenate, which fails on a part without definitions. */
  function LoadPart(lines: seq<Line>, p: Part, at: nat): (r: Result<Loaded>)
    ensures r.Ok? ==> |r.value.values| == TotalCount(p.definitions)
    ensures r.Ok? ==> r.value.next == at + 2 + |p.definitions| + TotalCount(p.definitions)
    ensures at >= |lines| ==> r == Err(Truncated(at))
    ensures at < |lines| && lines[at] != PART ==> r == Err(MissingPart(at))
    ensures at < |lines| && lines[at] == PART && p.definitions == [] ==> r == Err(NoElements)
  {
    if at >= |lines| then Err(Truncated(at))
    else if lines[at] != PART then Err(MissingPart(at))
    else if p.definitions == [] then Err(NoElements)
    else LoadDefinitions(lines, p.definitions, at + 2)
  }

  /** The outer `for` of load_scalar from cursor `at`: one array per part. */
  function LoadParts(lines: seq<Line>, parts: seq<Part>, at: nat): (r: Result<seq<seq<real>>>)
    ensures r.Ok? ==> |r.value| == |parts|
    ensures r.Ok? ==> forall k :: 0 <= k < |parts| ==> |r.value[k]| == TotalCount(parts[k].definitions)
    decreases |parts|
  {
    if parts == [] then Ok([])
    else
      match LoadPart(lines, parts[0], at)
      case Err(e) => Err(e)
      case Ok(l) =>
        match LoadParts(lines, parts[1..], l.next)
        case Err(e) => Err(e)
        case Ok(rest) =>
          assert forall k :: 1 <= k < |parts| ==> ([l.values] + rest)[k] == rest[k - 1];
          Ok([l.values] + rest)
  }

  /** load_scalar: the description line is skipped. */
  function LoadScalarSpec(g: Geometry, file: seq<Line>): Result<seq<seq<real>>> {
    LoadParts(Body(file, 1), g.parts, 0)
  }

  /** load_variable_element: the file type is checked first, then the variable
      type; only scalars are loaded. */
  function LoadVariableElement(g: Geometry, file: seq<Line>, varType: string, fileType: string): (r: Result<seq<seq<real>>>)
    ensures fileType != "ascii" ==> r == Err(UnsupportedFormat)
    ensures fileType == "ascii" && varType != "scalar" && varType != "vector" ==> r == Err(UnsupportedVariableType)
    ensures fileType == "ascii" && varType == "vector" ==> r == Err(NotImplemented)
    ensures fileType == "ascii" && varType == "scalar" ==> r == LoadScalarSpec(g, file)
  {
    if fileType != "ascii" then Err(UnsupportedFormat)
    else if varType != "scalar" && varType != "vector" then Err(UnsupportedVariableType)
    else if varType == "vector" then Err(NotImplemented)
    else LoadScalarSpec(g, file)
  }

  // ---------------------------------------------------------------- the loops

  function WithValues(done: seq<real>, r: Result<Loaded>): Result<Loaded> {
    match r
    case Err(e) => Err(e)
    case Ok(l) => Ok(Loaded(done + l.values, l.next))
  }

  function WithArrays(done: seq<seq<real>>, r: Result<seq<seq<real>>>): Result<seq<seq<real>>> {
    match r
    case Err(e) => Err(e)
    case Ok(rest) => Ok(done + rest)
  }

  /** One definition of LoadDefinitions: its failure, or its values before the rest. */
  lemma {:induction false} LoadDefinitionsStep(lines: seq<Line>, defs: seq<Definition>, at: nat)
    requires defs != []
    ensures ReadValues(lines, at + 1, defs[0].count).Err? ==>
      LoadDefinitions(lines, defs, at) == Err(ReadValues(lines, at + 1, defs[0].count).error)
    ensures ReadValues(lines, at + 1, defs[0].count).Ok? ==>
      LoadDefinitions(lines, defs, at) ==
        WithValues(ReadValues(lines, at + 1, defs[0].count).value, LoadDefinitions(lines, defs[1..], at + 1 + defs[0].count))
  {
  }

  lemma WithValuesAssoc(a: seq<real>, b: seq<real>, r: Result<Loaded>)
    ensures WithValues(a, WithValues(b, r)) == WithValues(a + b, r)
  {
    if r.Ok? {
      assert a + (b + r.value.values) == (a + b) + r.value.values;
    }
  }

  /** What one iteration of LoadDefinitionsAt does to its loop invariant. */
  lemma LoadDefinitionsAdvance(lines: seq<Line>, defs: seq<Definition>, at: nat, j: nat, idx: nat, arrays: seq<seq<real>>)
    requires j < |defs|
    requires LoadDefinitions(lines, defs, at) == WithValues(Concat(arrays), LoadDefinitions(lines, defs[j..], idx))
    ensures ReadValues(lines, idx + 1, defs[j].count).Err? ==>
      LoadDefinitions(lines, defs, at) == Err(ReadValues(lines, idx + 1, defs[j].count).error)
    ensures ReadValues(lines, idx + 1, defs[j].count).Ok? ==>
      LoadDefinitions(lines, defs, at) ==
        WithValues(Concat(arrays + [ReadValues(lines, idx + 1, defs[j].count).value]),
                   LoadDefinitions(lines, defs[j + 1..], idx + 1 + defs[j].count))
  {
    assert defs[j..][0] == defs[j] && defs[j..][1..] == defs[j + 1..];
    LoadDefinitionsStep(lines, defs[j..], idx);
    var vs := ReadValues(lines, idx + 1, defs[j].count);
    if vs.Ok? {
      WithValuesAssoc(Concat(arrays), vs.value, LoadDefinitions(lines, defs[j + 1..], idx + 1 + defs[j].count));
      ConcatSnoc(arrays, vs.value);
    }
  }

  /** The inner `for` of load_scalar: the arrays of one part, one per
      definition, and the cursor after them. */
  method LoadDefinitionsAt(lines: seq<Line>, defs: seq<Definition>, at: nat) returns (r: Result<(seq<seq<real>>, nat)>)
    ensures r.Err? ==> LoadDefinitions(lines, defs, at) == Err(r.error)
    ensures r.Ok? ==> |r.value.0| == |defs| && LoadDefinitions(lines, defs, at) == Ok(Loaded(Concat(r.value.0), r.value.1))
  {
    var currentIdx := at;
    var arrays: seq<seq<real>> := [];
    assert defs[0..] == defs;
    if LoadDefinitions(lines, defs, at).Ok? {
      assert [] + LoadDefinitions(lines, defs, at).value.values == LoadDefinitions(lines, defs, at).value.values;
    }
    for j := 0 to |defs|
      invariant |arrays| == j
      invariant LoadDefinitions(lines, defs, at) == WithValues(Concat(arrays), LoadDefinitions(lines, defs[j..], currentIdx))
    {
      LoadDefinitionsAdvance(lines, defs, at, j, currentIdx, arrays);
      currentIdx := currentIdx + 1;
      var elementNum := defs[j].count;
      var vs := ReadValues(lines, currentIdx, elementNum);
      if vs.Err? { return Err(vs.error); }
      arrays := arrays + [vs.value];
      currentIdx := currentIdx + elementNum;
    }
    assert defs[|defs|..] == [];
    assert Concat(arrays) + [] == Concat(arrays);
    return Ok((arrays, currentIdx));
  }

  /** One iteration of the outer `for` of load_scalar. */
  method LoadPartAt(lines: seq<Line>, p: Part, at: nat) returns (r: Result<Loaded>)
    ensures r == LoadPart(lines, p, at)
  {
    if at >= |lines| { return Err(Truncated(at)); }
    if lines[at] != PART { return Err(MissingPart(at)); }
    var loaded := LoadDefinitionsAt(lines, p.definitions, at + 2);
    if loaded.Err? { return Err(loaded.error); }
    var (arrays, next) := loaded.value;
    if arrays == [] { return Err(NoElements); }
    return Ok(Loaded(Concat(arrays), next));
  }

  /** One part of LoadParts: its failure, or its values before the rest. */
  lemma {:induction false} LoadPartsStep(lines: seq<Line>, parts: seq<Part>, at: nat)
    requires parts != []
    ensures LoadPart(lines, parts[0], at).Err? ==> LoadParts(lines, parts, at) == Err(LoadPart(lines, parts[0], at).error)
    ensures LoadPart(lines, parts[0], at).Ok? ==>
      var l := LoadPart(lines, parts[0], at).value;
      LoadParts(lines, parts, at) == WithArrays([l.values], LoadParts(lines, parts[1..], l.next))
  {
  }

  lemma WithArraysAssoc(a: seq<seq<real>>, b: seq<seq<real>>, r: Result<seq<seq<real>>>)
    ensures WithArrays(a, WithArrays(b, r)) == WithArrays(a + b, r)
  {
    if r.Ok? {
      assert a + (b + r.value) == (a + b) + r.value;
    }
  }

  /** load_scalar: a cursor over the lines, one array per part. */
  method LoadScalar(g: Geometry, file: seq<Line>) returns (r: Result<seq<seq<real>>>)
    ensures r == LoadScalarSpec(g, file)
  {
    var lines := Body(file, 1);
    var varList: seq<seq<real>> := [];
    var currentIdx: nat := 0;
    assert g.parts[0..] == g.parts;
    if LoadParts(lines, g.parts, 0).Ok? {
      assert [] + LoadParts(lines, g.parts, 0).value == LoadParts(lines, g.parts, 0).value;
    }
    for k := 0 to |g.parts|
      invariant LoadParts(lines, g.parts, 0) == WithArrays(varList, LoadParts(lines, g.parts[k..], currentIdx))
    {
      var part := g.parts[k];
      assert g.parts[k..][0] == part && g.parts[k..][1..] == g.parts[k + 1..];
      var loaded := LoadPartAt(lines, part, currentIdx);
      LoadPartsStep(lines, g.parts[k..], currentIdx);
      if loaded.Err? { return Err(loaded.error); }
      WithArraysAssoc(varList, [loaded.value.values], LoadParts(lines, g.parts[k + 1..], loaded.value.next));
      varList := varList + [loaded.value.values];
      currentIdx := loaded.value.next;
    }
    assert g.parts[|g.parts|..] == [];
    assert varList + [] == varList;
    return Ok(varList);
  }

  /** load_variable_element with load_scalar run as its loops. */
  method LoadVariableElementFile(g: Geometry, file: seq<Line>, varType: string, fileType: string) returns (r: Result<seq<seq<real>>>)
    ensures r == LoadVariableElement(g, file, varType, fileType)
  {
    if fileType != "ascii" { return Err(UnsupportedFormat); }
    if varType != "scalar" && varType != "vector" { return Err(UnsupportedVariableType); }
    if varType == "vector" { return Err(NotImplemented); }
    r := LoadScalar(g, file);
  }

  // ---------------------------------------------------------------- properties

  /** A successful load of a non-empty list of definitions reads the first
      definition's values from the lines below its type line, then loads the
      rest. */
  lemma LoadDefinitionsHead(lines: seq<Line>, defs: seq<Definition>, at: nat, l: Loaded)
    requires defs != [] && LoadDefinitions(lines, defs, at) == Ok(l)
    ensures LoadDefinitions(lines, defs[1..], at + 1 + defs[0].count).Ok?
    ensures defs[0].count <= |l.values|
    ensures l.values[defs[0].count..] == LoadDefinitions(lines, defs[1..], at + 1 + defs[0].count).value.values
    ensures forall i {:trigger l.values[i]} :: 0 <= i < defs[0].count ==> i < |l.values| && at + 1 + i < |lines| && ToValue(lines[at + 1 + i]) == Some(l.values[i])
  {
    var c := defs[0].count;
    LoadDefinitionsStep(lines, defs, at);
    ReadValuesSpec(lines, at + 1, c);
    var vs := ReadValues(lines, at + 1, c).value;
    var rest := LoadDefinitions(lines, defs[1..], at + 1 + c).value;
    assert l.values == vs + rest.values;
    assert l.values[c..] == rest.values;
  }

  /** Value k of a loaded run is the one on line at + j + 1 + k, where
      k = TotalCount(defs[..j]) + i is element i of definition j. */
  predicate ValueAligned(lines: seq<Line>, defs: seq<Definition>, at: nat, values: seq<real>, j: nat, i: nat)
    requires j <= |defs|
  {
    var k := TotalCount(defs[..j]) + i;
    && k < |values|
    && at + j + 1 + k < |lines|
    && ToValue(lines[at + j + 1 + k]) == Some(values[k])
  }

  /** Value k of a part's definitions comes from the line of element k: element
      i of definition j sits after the part's two head lines, one type line per
      definition so far, and all the elements of the definitions before it. */
  lemma {:induction false} LoadDefinitionsAligned(lines: seq<Line>, defs: seq<Definition>, at: nat, l: Loaded, j: nat, i: nat)
    requires LoadDefinitions(lines, defs, at) == Ok(l)
    requires j < |defs| && i < defs[j].count
    ensures ValueAligned(lines, defs, at, l.values, j, i)
    decreases j
  {
    if j == 0 {
      AlignedFirst(lines, defs, at, l, i);
    } else {
      LoadDefinitionsHead(lines, defs, at, l);
      var next := at + 1 + defs[0].count;
      var rest := LoadDefinitions(lines, defs[1..], next).value;
      assert defs[1..][j - 1] == defs[j];
      LoadDefinitionsAligned(lines, defs[1..], next, rest, j - 1, i);
      AlignedShift(lines, defs, at, l.values, rest.values, j, i);
    }
  }

  lemma AlignedFirst(lines: seq<Line>, defs: seq<Definition>, at: nat, l: Loaded, i: nat)
    requires LoadDefinitions(lines, defs, at) == Ok(l)
    requires defs != [] && i < defs[0].count
    ensures ValueAligned(lines, defs, at, l.values, 0, i)
  {
    LoadDefinitionsHead(lines, defs, at, l);
    assert defs[..0] == [];
    var v := l.values[i];
    assert ToValue(lines[at + 1 + i]) == Some(v);
  }

  lemma AlignedShift(lines: seq<Line>, defs: seq<Definition>, at: nat, values: seq<real>, rest: seq<real>, j: nat, i: nat)
    requires 0 < j < |defs| && defs[0].count <= |values| && values[defs[0].count..] == rest
    requires ValueAligned(lines, defs[1..], at + 1 + defs[0].count, rest, j - 1, i)
    ensures ValueAligned(lines, defs, at, values, j, i)
  {
    TotalCountPrefix(defs, j - 1);
    var c := defs[0].count;
    var k' := TotalCount(defs[1..][..j - 1]) + i;
    assert values[c + k'] == rest[k'];
  }

  /** A reference layout for one part's section: `part`, the id, then per
      definition a type line and one value per element. */
  function DefinitionsSection(defs: seq<Definition>, values: seq<real>): (r: seq<Line>)
    requires TotalCount(defs) == |values|
    ensures |r| == |defs| + TotalCount(defs)
    decreases |defs|
  {
    if defs == [] then []
    else [defs[0].elementType] + Nums(values[..defs[0].count]) + DefinitionsSection(defs[1..], values[defs[0].count..])
  }

  lemma SectionSplit(defs: seq<Definition>, values: seq<real>)
    requires defs != [] && TotalCount(defs) == |values|
    ensures DefinitionsSection(defs, values) ==
      [defs[0].elementType] + Nums(values[..defs[0].count]) + DefinitionsSection(defs[1..], values[defs[0].count..])
  {
  }

  lemma {:induction false} LoadDefinitionsOfSection(lines: seq<Line>, defs: seq<Definition>, values: seq<real>, at: nat, e: nat)
    requires TotalCount(defs) == |values|
    requires e == at + |DefinitionsSection(defs, values)| <= |lines|
    requires lines[at..e] == DefinitionsSection(defs, values)
    ensures LoadDefinitions(lines, defs, at) == Ok(Loaded(values, e))
    decreases |defs|
  {
    if defs != [] {
      var c := defs[0].count;
      var m := at + 1 + c;
      var head := [defs[0].elementType] + Nums(values[..c]);
      var tail := DefinitionsSection(defs[1..], values[c..]);
      SectionSplit(defs, values);
      SliceSplit(lines, at, m, e, head, tail);
      SliceSplit(lines, at, at + 1, m, [defs[0].elementType], Nums(values[..c]));
      ReadValuesOfNums(lines, at + 1, values[..c], c, m);
      LoadDefinitionsStep(lines, defs, at);
      LoadDefinitionsOfSection(lines, defs[1..], values[c..], m, e);
      assert LoadDefinitions(lines, defs, at) == WithValues(values[..c], Ok(Loaded(values[c..], e)));
      assert values[..c] + values[c..] == values;
    }
  }

  /** What load_scalar expects of a geometry and of per-part values to lay out. */
  predicate Matches(parts: seq<Part>, fields: seq<seq<real>>) {
    && |parts| == |fields|
    && forall k :: 0 <= k < |parts| ==> parts[k].definitions != [] && TotalCount(parts[k].definitions) == |fields[k]|
  }

  function PartSection(id: int, p: Part, values: seq<real>): (r: seq<Line>)
    requires TotalCount(p.definitions) == |values|
  {
    [PART, Ints([id])] + DefinitionsSection(p.definitions, values)
  }

  /** The sections of all parts, numbered from `first`. */
  function Sections(parts: seq<Part>, fields: seq<seq<real>>, first: int): (r: seq<Line>)
    requires Matches(parts, fields)
    decreases |parts|
  {
    if parts == [] then []
    else
      assert Matches(parts[1..], fields[1..]) by {
        forall k | 0 <= k < |parts[1..]| ensures parts[1..][k].definitions != [] && TotalCount(parts[1..][k].definitions) == |fields[1..][k]| {
          assert parts[1..][k] == parts[k + 1] && fields[1..][k] == fields[k + 1];
        }
      }
      PartSection(first, parts[0], fields[0]) + Sections(parts[1..], fields[1..], first + 1)
  }

  lemma {:induction false} LoadPartsOfSections(lines: seq<Line>, parts: seq<Part>, fields: seq<seq<real>>, first: int, at: nat, e: nat)
    requires Matches(parts, fields)
    requires e == at + |Sections(parts, fields, first)| <= |lines|
    requires lines[at..e] == Sections(parts, fields, first)
    ensures LoadParts(lines, parts, at) == Ok(fields)
    decreases |parts|
  {
    if parts != [] {
      var a := PartSection(first, parts[0], fields[0]);
      var b := Sections(parts[1..], fields[1..], first + 1);
      var defsPart := DefinitionsSection(parts[0].definitions, fields[0]);
      var m := at + |a|;
      SliceSplit(lines, at, m, e, a, b);
      SliceSplit(lines, at, at + 2, m, [PART, Ints([first])], defsPart);
      assert lines[at] == lines[at..at + 2][0] == PART;
      LoadDefinitionsOfSection(lines, parts[0].definitions, fields[0], at + 2, m);
      assert LoadPart(lines, parts[0], at) == Ok(Loaded(fields[0], m));
      LoadPartsStep(lines, parts, at);
      LoadPartsOfSections(lines, parts[1..], fields[1..], first + 1, m, e);
      assert [fields[0]] + fields[1..] == fields;
    }
  }

  /** Loading a file laid out section by section gives back, part by part and
      in part order, exactly the values laid out. */
  lemma LoadScalarOfSections(g: Geometry, fields: seq<seq<real>>, description: Line)
    requires Matches(g.parts, fields)
    ensures LoadScalarSpec(g, [description] + Sections(g.parts, fields, 1)) == Ok(fields)
  {
    var body := Sections(g.parts, fields, 1);
    assert Body([description] + body, 1) == body;
    assert body[0..|body|] == body;
    LoadPartsOfSections(body, g.parts, fields, 1, 0, |body|);
  }
}
