/** The plain data of piEnsight/geometry/core.py: a geometry is a list of parts.
    A part keeps its element-type sub-blocks as a list of (type, count)
    definitions beside one flat list of 0-based connectivity arrays, the layout
    that geometry/io.py's writer and variables/io.py index. */
module GeometryCore {
  import opened Tokens

  /** One entry of `elements_id_definition`: an element type and how many
      elements of that type follow. */
  datatype Definition = Definition(elementType: Line, count: nat)

  datatype Part = Part(name: Line, nodes: seq<Vec3>, definitions: seq<Definition>, elements: seq<seq<int>>)

  datatype Geometry = Geometry(parts: seq<Part>)

  /** The number of elements the definitions announce. */
  function TotalCount(definitions: seq<Definition>): nat {
    if definitions == [] then 0 else definitions[0].count + TotalCount(definitions[1..])
  }

  lemma {:induction false} TotalCountAppend(ds: seq<Definition>, es: seq<Definition>)
    ensures TotalCount(ds + es) == TotalCount(ds) + TotalCount(es)
  {
    if ds == [] {
      assert ds + es == es;
    } else {
      assert (ds + es)[1..] == ds[1..] + es;
      TotalCountAppend(ds[1..], es);
    }
  }

  /** The count of the first i+1 definitions: the first one's, then i more. */
  lemma TotalCountPrefix(defs: seq<Definition>, i: nat)
    requires i < |defs|
    ensures TotalCount(defs[..i + 1]) == defs[0].count + TotalCount(defs[1..][..i])
  {
    assert defs[..i + 1][1..] == defs[1..][..i];
  }
}
