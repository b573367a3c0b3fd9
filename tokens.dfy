/** Lines of an EnSight Gold ASCII file after tokenisation, the conversions the
    readers apply to them (Python's int(), float() and split()), and the error
    kinds the codec can signal. */
module Tokens {

  /** One line of a file, stripped of surrounding white space and classified by
      its white-space separated tokens:
      - Ints(ns): every token is an integer literal: a count, a part id or a
        connectivity list (a blank line is Ints([]));
      - Num(v): one floating-point literal that is not an integer literal, as the
        writers print a coordinate or a field value;
      - Word(text): anything else: a keyword, an element type name, a part name. */
  datatype Line = Word(text: string) | Ints(ns: seq<int>) | Num(v: real)

  /** A coordinate triple (a node) or one vector field entry. */
  datatype Vec3 = Vec3(x: real, y: real, z: real)

  datatype Option<T> = None | Some(value: T)

  /** What an exception of the source becomes. Positions are line indices in the
      sequence of lines that the operation walks. */
  datatype Error =
    | Truncated(at: int)              // IndexError: line `at` does not exist
    | NotAnInteger(at: int)           // int(...) failed on line `at`
    | NotAValue(at: int)              // float(...) failed on line `at`
    | NegativeCount(at: int)          // a count below zero on line `at`
    | MissingPart(at: int)            // the assertion that line `at` is `part` failed
    | UnsupportedElementType(at: int) // nsided / nfaced met on input
    | UnknownElementType              // no dimension or no conversion for an element type
    | InconsistentDimension           // elements of one part report different dimensions
    | NoElements                      // dimension[0] or np.concatenate on an empty list
    | ReshapeFailed                   // a vector group whose length is not a multiple of 3
    | PartNotFound                    // list.index found no section with the part's id
    | MissingVariable                 // KeyError on the variables of a geometry
    | WrongDimension                  // number_of_points / number_of_faces on the wrong dim
    | ShapeMismatch                   // a cell whose form does not fit the part's dim
    | ElementIndexOutOfRange          // write_ascii indexing past the element list
    | KindMismatch                    // a vector field written with var_type "scalar"
    | UnsupportedOnWrite              // nsided / nfaced met by write_ascii
    | UnsupportedFormat               // a format other than "ascii"
    | UnsupportedVariableType         // var_type outside {"scalar", "vector"}
    | NotImplemented                  // loading a vector variable in variables/io.py

  datatype Result<T> = Ok(value: T) | Err(error: Error) {
    predicate IsFailure() { Err? }
    function PropagateFailure<U>(): Result<U>
      requires Err?
    {
      Err(error)
    }
    function Extract(): T
      requires Ok?
    {
      value
    }
  }

  const PART: Line := Word("part")
  const NSIDED: Line := Word("nsided")
  const NFACED: Line := Word("nfaced")

  /** int(line.strip()) */
  function ToInt(l: Line): Option<int> {
    if l.Ints? && |l.ns| == 1 then Some(l.ns[0]) else None
  }

  /** float(line.strip()); an integer literal is read as a value too. */
  function ToValue(l: Line): Option<real> {
    match l
    case Num(v) => Some(v)
    case Ints(ns) => if |ns| == 1 then Some(ns[0] as real) else None
    case Word(_) => None
  }

  /** [int(n) for n in line.split()] */
  function ToIndices(l: Line): Option<seq<int>> {
    if l.Ints? then Some(l.ns) else None
  }

  /** Adds `d` to every index: the 1-based / 0-based conversions. */
  function Shift(ns: seq<int>, d: int): (r: seq<int>)
    ensures |r| == |ns|
  {
    seq(|ns|, k requires 0 <= k < |ns| => ns[k] + d)
  }

  lemma ShiftBack(ns: seq<int>, d: int)
    ensures Shift(Shift(ns, d), -d) == ns
  {
  }

  /** The lines after a fixed header of `h` lines (Python's lines[h:]). */
  function Body(file: seq<Line>, h: nat): (r: seq<Line>)
    ensures |file| >= h ==> r == file[h..]
    ensures |file| < h ==> r == []
  {
    if |file| >= h then file[h..] else []
  }

  /** np.concatenate of a list of arrays: their elements, in order. */
  function Concat<T>(arrays: seq<seq<T>>): seq<T>
    decreases |arrays|
  {
    if arrays == [] then [] else arrays[0] + Concat(arrays[1..])
  }

  lemma {:induction false} ConcatSnoc<T>(arrays: seq<seq<T>>, a: seq<T>)
    ensures Concat(arrays + [a]) == Concat(arrays) + a
    decreases |arrays|
  {
    if arrays == [] {
      assert [] + [a] == [a];
      assert [a][1..] == [];
      assert a + [] == [] + a;
    } else {
      assert (arrays + [a])[1..] == arrays[1..] + [a];
      ConcatSnoc(arrays[1..], a);
      assert arrays[0] + (Concat(arrays[1..]) + a) == (arrays[0] + Concat(arrays[1..])) + a;
    }
  }

  /** What a writer leaves in its file: the lines written, and the exception
      that stopped it early, if any (the lines before it stay written). */
  datatype Output = Output(lines: seq<Line>, failure: Option<Error>)

  function Emit(lines: seq<Line>): Output {
    Output(lines, None)
  }

  function Fail(e: Error): Output {
    Output([], Some(e))
  }

  /** Writing `a`, then `b`: nothing after a failure is written. */
  function Then(a: Output, b: Output): (r: Output)
    ensures a.failure.Some? ==> r == a
    ensures a.failure.None? ==> r.lines == a.lines + b.lines && r.failure == b.failure
  {
    if a.failure.Some? then a else Output(a.lines + b.lines, b.failure)
  }

  lemma ThenAssoc(a: Output, b: Output, c: Output)
    ensures Then(Then(a, b), c) == Then(a, Then(b, c))
  {
    if a.failure.None? && b.failure.None? {
      assert (a.lines + b.lines) + c.lines == a.lines + (b.lines + c.lines);
    }
  }

  /** Writing every output of `outs` in order, stopping at the first failure. */
  function Each(outs: seq<Output>): Output
    decreases |outs|
  {
    if outs == [] then Emit([]) else Then(outs[0], Each(outs[1..]))
  }

  /** All the lines of `outs`, in order. */
  function LinesOf(outs: seq<Output>): seq<Line>
    decreases |outs|
  {
    if outs == [] then [] else outs[0].lines + LinesOf(outs[1..])
  }

  lemma EachStep(outs: seq<Output>, k: nat)
    requires k < |outs|
    ensures Each(outs[k..]) == Then(outs[k], Each(outs[k + 1..]))
  {
    assert outs[k..][1..] == outs[k + 1..];
  }

  /** Each succeeds exactly when every output does, and then writes all their lines. */
  lemma {:induction false} EachSucceeds(outs: seq<Output>)
    ensures Each(outs).failure.None? <==> forall k :: 0 <= k < |outs| ==> outs[k].failure.None?
    ensures Each(outs).failure.None? ==> Each(outs).lines == LinesOf(outs)
    decreases |outs|
  {
    if outs != [] {
      EachSucceeds(outs[1..]);
      assert forall k :: 1 <= k < |outs| ==> outs[k] == outs[1..][k - 1];
    }
  }

  /** When every output that fails fails with `e`, so does writing them all. */
  lemma {:induction false} EachFails(outs: seq<Output>, e: Error)
    requires forall k :: 0 <= k < |outs| ==> outs[k].failure.None? || outs[k].failure == Some(e)
    ensures Each(outs).failure.None? || Each(outs).failure == Some(e)
    decreases |outs|
  {
    if outs != [] {
      assert forall k :: 0 <= k < |outs| - 1 ==> outs[1..][k] == outs[k + 1];
      EachFails(outs[1..], e);
    }
  }
}
