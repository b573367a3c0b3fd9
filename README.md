# piEnsight codec core in Dafny

This project models the line-oriented codec of piEnsight, a Python library for
EnSight Gold ASCII geometry files and per-element variable files, and proves
its cursor bookkeeping, output layouts and reader/writer inverses.

A file is a sequence of pre-tokenised lines (`Tokens.Line`):
- `Word(text)`: a keyword, element type or part name;
- `Ints(ns)`: a count, an id or a connectivity list;
- `Num(v)`: a coordinate or field value.

Python's `int()`, `float()` and `split()` become `ToInt`, `ToValue` and
`ToIndices`. The exceptions the modelled code raises become `Error`
constructors in a `Result`; the few exceptions to this rule (a count that
makes a loop hang, errors only the model raises, an assertion on a numpy
type) are listed under "Left out". A writer's effect is an `Output`: the lines it
wrote, plus the exception that stopped it, if any.

Modules and what they model:
- `Tokens`: tokens, errors, and the writer algebra (`Then`, `Each`).
- `Blocks`: the node block (all x, all y, all z) and the type/count/connectivity sub-block that both readers share, with the matching line layouts the writers emit.
- `Core`, `CoreRead` and `CoreWrite` model `piEnsight/core.py`:
  - the `Geometry` class;
  - `load_variable_element`, a method that updates `variablesElement` in place;
  - `read_geometries` / `read_geometry`;
  - `write_geometries` and `write_variable_element`.
- `GeometryCore`, `GeometryIo`:
  - `GeometryCore` holds the plain data of `piEnsight/geometry/core.py`;
  - `GeometryIo` models `read` / `read_ascii` and `write` / `write_ascii` of `piEnsight/geometry/io.py`.
- `VariablesIo`: `load_variable_element` / `load_variable_element_ascii` of `piEnsight/variables/io.py`.
- `Utils`: `get_parts_names` of `piEnsight/utils.py`. It also proves that the scan finds the part names in files that both writers produce.

Each loop of the source is a `method` with a `while` or `for` loop. Its
contract ties the result to a recursive specification function. The
properties of the source are lemmas about those functions.

`core.py` calls helpers that are not part of this model. They are fields of
the `Core.Library` datatype, total functions with no contract:
- `split_parts_description`;
- `get_dimension`;
- `convert2nsided` / `convert2nfaced`;
- `config.element_names`.

`np.argsort` is a parameter `order`, which must satisfy `IsArgsort`: a
permutation that lists the ids in ascending order. Equal ids may come in any
order, because the default sort kind is not stable.

## Model

| member | source | states |
|---|---|---|
| Tokens.ShiftBack | piEnsight/core.py:173 | subtracting 1 on input and adding 1 on output (core.py:240, 253) are inverse on every index list |
| Blocks.ReadValuesSpec | piEnsight/core.py:144-148 | a run of n values succeeds iff the n lines exist and all parse; value i comes from line at+i |
| Blocks.ReadNodesSpec | piEnsight/core.py:144-150 | the node block consumes exactly 3·n lines; node i is (line at+i, line at+n+i, line at+2n+i) |
| Blocks.ReadConnectivitySpec | piEnsight/core.py:173-174 | count connectivity lines succeed iff they exist and are integer lists; element k is line at+k minus 1 per index |
| Blocks.ReadSubBlock | piEnsight/core.py:168-183 | a sub-block advances the cursor by 2+count and keeps the type line; nsided / nfaced are always rejected |
| Blocks.ReadSubBlockConnectivity | piEnsight/core.py:173-174 | element k of a sub-block is line at+2+k converted to 0-based |
| Blocks.ReadSubBlockAt | piEnsight/geometry/io.py:51-55 | the imperative sub-block read equals ReadSubBlock |
| Blocks.AppendValues | piEnsight/core.py:281-282 | the value loop appends exactly one Num line per value, in order |
| Blocks.AppendNodes | piEnsight/core.py:226-231 | the three node loops append all x, then all y, then all z |
| Blocks.ReadNodesOfNodeLines | piEnsight/core.py:144-150 | reading the node lines the writers emit (core.py:226-231) gives back the same nodes |
| Blocks.ReadValuesOfNums | piEnsight/core.py:144 | reading written value lines gives back the values |
| Blocks.ReadConnectivityOfLines | piEnsight/geometry/io.py:19-20 | reading the 1-based connectivity lines the writer emits gives back the 0-based elements |
| Blocks.ReadSubBlockOfLines | piEnsight/geometry/io.py:51-55 | a written type/count/connectivity sub-block reads back as the same type, count and elements, ending 2+count lines later |
| Core.PyIndex | piEnsight/core.py:65 | Python list indexing succeeds iff -n <= idx < n, and a negative index counts from the end |
| Core.Geometry.constructor | piEnsight/core.py:25-33 | every field is set from its argument, and both variable maps start empty |
| Core.Geometry.NumberOfNodes | piEnsight/core.py:35-42 | the number of nodes |
| Core.Geometry.NumberOfElements | piEnsight/core.py:44-51 | the number of elements |
| Core.Geometry.NumberOfPoints | piEnsight/core.py:53-63 | number_of_points() succeeds iff dim is 2, else WrongDimension; entry k is len of element k |
| Core.Geometry.NumberOfPointsAt | piEnsight/core.py:53-65 | the dim check comes first; then it succeeds iff the Python index is in range, and gives that element's length |
| Core.Geometry.NumberOfFaces | piEnsight/core.py:67-78 | number_of_faces() succeeds iff dim is 3, else WrongDimension; entry k is len of element k |
| Core.Geometry.NumberOfFacesAt | piEnsight/core.py:67-80 | the dim check comes first; then it succeeds iff the Python index is in range |
| Core.Geometry.LoadVariableElement | piEnsight/core.py:82-113 | on success only variablesElement[varName] changes, to ElementField's value; on an error the maps are unchanged and the error is returned |
| Core.IdSeries | piEnsight/core.py:95 | succeeds iff every chunk has an integer line 1; entry i is that integer |
| Core.IndexOf | piEnsight/core.py:96 | list.index: found iff present, at the first occurrence, else PartNotFound |
| Core.ScalarValues | piEnsight/core.py:98-99 | fails only on a non-value line |
| Core.ScalarValuesSpec | piEnsight/core.py:99 | the comprehension succeeds iff every non-marker line from idx on is a value; value k is the k-th non-marker line's; otherwise the error is at the first non-marker line that is not a value |
| Core.Group | piEnsight/core.py:106-109 | the inner while loop stops at the end or at the next marker, and takes one value per line it passes; on failure the error is at the first line that is not a value |
| Core.GroupSpec | piEnsight/core.py:106-109 | value k of the run is the value of line idx+k, and every line passed is a non-marker value line; on failure every line before the error is one |
| Core.Reshape | piEnsight/core.py:110 | reshape((3,-1)).T succeeds iff the length is a multiple of 3; triple k is (d[k], d[n+k], d[2n+k]) |
| Core.FlattenF | piEnsight/core.py:280 | flatten("F") of N×3 data is all x, then all y, then all z |
| Core.ReshapeOfFlatten | piEnsight/core.py:110 | reshaping the column-major flattening (core.py:280) gives back the triples |
| Core.FlattenOfReshape | piEnsight/core.py:110 | flattening a reshaped group gives back its values |
| Core.Groups | piEnsight/core.py:102-111 | the outer loop fails only on a bad value (NotAValue) or a bad reshape (ReshapeFailed), and on success makes at least one group when any line follows the id; the number of groups is stated by Core.GroupsCount |
| Core.GroupsCount | piEnsight/core.py:102-111 | a successful outer loop makes one group for its first type line and one for every marker after it |
| Core.VectorValues | piEnsight/core.py:100-112 | a section with no line after its id is NoElements (np.concatenate of nothing) |
| Core.ElementField | piEnsight/core.py:92-112 | a scalar var_type gives a 1-D field and any other a field of triples |
| Core.ReadGroup | piEnsight/core.py:104-109 | the imperative inner loop equals Group |
| Core.VectorField | piEnsight/core.py:100-112 | the nested while loops equal VectorValues |
| Core.GroupOfNums | piEnsight/core.py:107-109 | value lines up to the end are one group holding all of them |
| Core.ScalarValuesOfNums | piEnsight/core.py:99 | value lines with no marker among them load back in order |
| Core.GroupsOfSection | piEnsight/core.py:102-111 | one marker and 3·N values make exactly one group |
| Core.VectorSectionRoundTrip | piEnsight/core.py:100-112 | a section written column-major after one marker (core.py:273-282) loads back into the same triples |
| Core.ScalarSectionRoundTrip | piEnsight/core.py:98-99 | a scalar section loads back into the same values, the marker dropped |
| Core.ScalarValuesOfLines | piEnsight/core.py:99 | lines made of markers, each followed by a run of values, load back into all the values in order |
| Core.ScalarSectionOfLines | piEnsight/core.py:98-99 | a scalar section of several marker-led groups loads back into their concatenation |
| Core.GroupsOfLaidOut | piEnsight/core.py:102-111 | several marker-led groups of column-major triples load back group by group |
| Core.VectorSectionOfLines | piEnsight/core.py:100-112 | a vector section of several marker-led groups loads back into the concatenation of their triples; with no group it is NoElements |
| CoreRead.ReadHead | piEnsight/core.py:133-150 | line 0 is `part`; id from line 1, name from line 2, node count from line 4; the cursor ends at 5+3n |
| CoreRead.Typed | piEnsight/core.py:184 | every structure of a sub-block is tagged with that sub-block's type, in order |
| CoreRead.Dimensions | piEnsight/core.py:186 | succeeds iff every element type has a dimension, listing them pointwise; else UnknownElementType |
| CoreRead.CommonDimension | piEnsight/core.py:186-188 | succeeds iff the elements are non-empty and all share one known dimension, which is the result; mixed gives InconsistentDimension, empty gives NoElements |
| CoreRead.ReadChunks | piEnsight/core.py:200 | the comprehension succeeds iff every chunk reads, giving chunk i's geometry at position i |
| CoreRead.ReadChunksFirstError | piEnsight/core.py:200 | the read stops with the error of the first chunk that fails |
| CoreRead.ReadElements | piEnsight/core.py:177-184 | the while loop over sub-blocks equals its specification |
| CoreRead.ReadGeometry | piEnsight/core.py:125-192 | succeeds iff the specification does, with the same error; gives a fresh Geometry holding its data and empty variable maps |
| CoreRead.ReadGeometries | piEnsight/core.py:194-202 | one fresh, distinct Geometry per chunk with the specification's data and empty maps, or the first error |
| CoreRead.ReadChunksAt | piEnsight/core.py:200 | the comprehension over chunks: pointwise data, fresh and distinct objects with empty maps, or the first error |
| CoreRead.ReadGeometryHead | piEnsight/core.py:133-150 | a chunk that reads has `part`, id line 1, name line 2, count line 4, and node i from lines 5+i, 5+n+i and 5+2n+i |
| CoreRead.ReadGeometryDimension | piEnsight/core.py:186-188 | a read part has every element of its dim; elements of two dimensions make the read fail |
| CoreRead.CollectElementsOfBlocks | piEnsight/core.py:177-184 | written sub-blocks read back as all their elements in file order |
| CoreRead.CollectRejectsPolygonBlocks | piEnsight/core.py:168-171 | any nsided / nfaced sub-block makes the element loop fail |
| CoreRead.PolygonBlockRejected | piEnsight/core.py:168-171 | no geometry is produced for a part with an nsided / nfaced sub-block |
| CoreRead.StallAsWritten | piEnsight/core.py:177-184 | as written, a count of -2 brings the cursor back to where it was, with nothing added |
| CoreRead.NegativeCountRejected | piEnsight/core.py:180-183 | the model's reader refuses the same chunk with NegativeCount |
| CoreWrite.ArgsortCovers | piEnsight/core.py:212 | every position occurs in an argsort order: each geometry is written |
| CoreWrite.ArgsortUnique | piEnsight/core.py:212 | with distinct ids there is exactly one argsort order |
| CoreWrite.SizeLines | piEnsight/core.py:237-238 | line k is the size of element k |
| CoreWrite.AppendSizes | piEnsight/core.py:237-238 | the count loop appends SizeLines |
| CoreWrite.AppendPolygons | piEnsight/core.py:239-240 | the loop is one 1-based index line per polygon, stopping at the first element that is not a polygon |
| CoreWrite.AppendFaceSizes | piEnsight/core.py:248-249 | one vertex-count line per face of one element |
| CoreWrite.AppendFaces | piEnsight/core.py:252-253 | one 1-based index line per face of one element |
| CoreWrite.AppendAllFaceSizes | piEnsight/core.py:247-249 | the nested loop over every face of every element |
| CoreWrite.AppendAllFaces | piEnsight/core.py:251-253 | the nested loop over every face of every element |
| CoreWrite.AppendNsided | piEnsight/core.py:233-240 | `nsided`, the count, the point counts, then the polygons |
| CoreWrite.AppendNfaced | piEnsight/core.py:241-253 | `nfaced`, the count, the face counts, the vertex counts of all faces, then all faces |
| CoreWrite.AppendConnectivity | piEnsight/core.py:233-253 | dim 2 writes nsided, otherwise nfaced |
| CoreWrite.AppendGeometry | piEnsight/core.py:221-253 | one part: its head lines, then its connectivity |
| CoreWrite.WriteGeometries | piEnsight/core.py:204-253 | the header, then every geometry in argsort order, stopping at the first exception |
| CoreWrite.ConnectivityShape | piEnsight/core.py:233-253 | the connectivity block starts with the marker the dim selects and the element count; every later line is an integer line |
| CoreWrite.PolygonsSucceed | piEnsight/core.py:237-240 | the nsided loops finish iff every element is a polygon, and otherwise fail with ShapeMismatch |
| CoreWrite.FacesSucceed | piEnsight/core.py:247-253 | the nfaced face loops finish iff every element can be iterated as faces |
| CoreWrite.GeometryLinesSucceed | piEnsight/core.py:233-253 | a part is written in full iff its elements fit its dim; a failure is WrongDimension (core.py:75) or ShapeMismatch |
| CoreWrite.WriteGeometriesSucceed | piEnsight/core.py:220-253 | the file is written in full iff every geometry fits its dim |
| CoreWrite.WrittenFileLayout | piEnsight/core.py:214-253 | a written file is the 4 header lines followed by one block per geometry, in argsort order |
| CoreWrite.WrittenBlocksOrdered | piEnsight/core.py:211-223 | ids and names of the blocks are those of the geometries in argsort order, and the ids ascend |
| CoreWrite.NamesOfWrittenGeometries | piEnsight/core.py:220-223 | get_parts_names on a written file gives the part names in ascending id order |
| CoreWrite.WrittenHeadRead | piEnsight/core.py:221-231 | read_geometry's head (core.py:133-150) gets back the id, name and nodes of a written part, followed by the nsided / nfaced marker |
| CoreWrite.WrittenPartRejected | piEnsight/core.py:168-171 | read_geometry refuses every part write_geometries writes, at the marker after the nodes |
| CoreWrite.AppendSection | piEnsight/core.py:273-282 | `part`, the id, the dim's marker, then the values; a missing variable stops it |
| CoreWrite.WriteVariableElement | piEnsight/core.py:256-282 | the description line, then one section per geometry in argsort order |
| CoreWrite.SectionSucceeds | piEnsight/core.py:273-282 | a section is written in full iff the variable is stored in a form var_type can take, and then holds the field's value lines |
| CoreWrite.SectionsSucceed | piEnsight/core.py:271-282 | the sections are written in full iff every geometry written has the field |
| CoreWrite.WriteVariableSucceeds | piEnsight/core.py:256-282 | the file is written in full iff every geometry has the field |
| CoreWrite.IdsOfSections | piEnsight/core.py:274 | the id series of the written sections (core.py:95) is the ids in argsort order |
| CoreWrite.SectionFound | piEnsight/core.py:96 | with distinct ids, id_series.index finds each geometry's own section |
| CoreWrite.FieldRoundTrip | piEnsight/core.py:275-282 | load_variable_element on a written file gets back every geometry's field (needs distinct ids and a marker among the dim's names) |
| GeometryIo.ReadElementBlocks | piEnsight/geometry/io.py:50-65 | at least one sub-block; the elements number the counts' sum; stops at last_idx or before a `part` line |
| GeometryIo.ReadPart | piEnsight/geometry/io.py:33-65 | line 0 is `part`, the name is line 2, the node count line 4; the next part starts at `part` |
| GeometryIo.ReadParts | piEnsight/geometry/io.py:32-68 | a successful read has at least one part |
| GeometryIo.Read | piEnsight/geometry/io.py:5-9 | only "ascii" is read; any other format is UnsupportedFormat |
| GeometryIo.ReadElementBlocksAt | piEnsight/geometry/io.py:50-65 | the inner while loop with its break equals ReadElementBlocks |
| GeometryIo.ReadPartAt | piEnsight/geometry/io.py:33-65 | one iteration of the outer loop equals ReadPart |
| GeometryIo.ReadAsciiFile | piEnsight/geometry/io.py:12-70 | read_ascii's nested loops with the read_allParts flag equal ReadAscii |
| GeometryIo.ElementLine | piEnsight/geometry/io.py:82-92 | the element is looked up first (IndexError past the end), then nsided / nfaced are refused, else the line is each index plus 1 |
| GeometryIo.Write | piEnsight/geometry/io.py:74-78 | only "ascii" is written; any other format is UnsupportedFormat, with nothing written |
| GeometryIo.AppendElements | piEnsight/geometry/io.py:117-118 | one line for element offset+n, for n < count |
| GeometryIo.AppendDefinitions | piEnsight/geometry/io.py:113-119 | each definition's type and count lines and its elements, with current_id advancing by each count |
| GeometryIo.AppendPart | piEnsight/geometry/io.py:101-119 | one part's lines |
| GeometryIo.WriteAsciiFile | piEnsight/geometry/io.py:94-119 | the header, then part k with id k+1 |
| GeometryIo.ElementLinesSucceed | piEnsight/geometry/io.py:117-118 | one definition is written in full iff it is empty, or it is not nsided / nfaced and its elements exist |
| GeometryIo.DefinitionsLinesSucceed | piEnsight/geometry/io.py:113-119 | a part's definitions are written in full iff Writable |
| GeometryIo.PartsLinesSucceed | piEnsight/geometry/io.py:100-119 | all parts are written in full iff each is Writable |
| GeometryIo.WriteAsciiSucceeds | piEnsight/geometry/io.py:94-119 | write_ascii runs to the end iff every part is Writable |
| GeometryIo.ElementLinesOfLayout | piEnsight/geometry/io.py:117-118 | a well-formed definition writes the connectivity lines of its slice of elements |
| GeometryIo.DefinitionsLinesOfLayout | piEnsight/geometry/io.py:113-119 | a part's definitions write the sub-blocks in order, each taking the next count elements |
| GeometryIo.PartsLinesOfLayout | piEnsight/geometry/io.py:100-119 | well-formed parts are written as their layouts, numbered from 1 |
| GeometryIo.WriteAsciiLayout | piEnsight/geometry/io.py:94-119 | a well-formed geometry is written without failure as the header followed by the part layouts |
| GeometryIo.PartHeadOfLayout | piEnsight/geometry/io.py:33-46 | a written part head gives back `part`, the name, the node count and the nodes |
| GeometryIo.FirstBlockOfLayout | piEnsight/geometry/io.py:51-55 | the first written sub-block reads back as its type, count and elements |
| GeometryIo.ReadElementBlocksOfLayout | piEnsight/geometry/io.py:50-65 | written sub-blocks read back as the same definitions and elements, ending where the part ends |
| GeometryIo.ReadPartOfLayout | piEnsight/geometry/io.py:33-65 | a written part reads back as the same part |
| GeometryIo.ReadPartsOfLayout | piEnsight/geometry/io.py:32-68 | written parts read back as the same parts in order |
| GeometryIo.RoundTrip | piEnsight/geometry/io.py:26-70 | reading what write_ascii (io.py:94-119) emits gives back the geometry |
| GeometryIo.TrailingLineTolerated | piEnsight/geometry/io.py:58-61 | because of the last_idx test, one extra line after the last part is ignored |
| GeometryIo.InnerStallAsWritten | piEnsight/geometry/io.py:50-65 | as written, a count of -2 brings the inner loop back to the same cursor, below last_idx and not at `part` |
| GeometryIo.InnerNegativeCountRejected | piEnsight/geometry/io.py:53-55 | the model's reader refuses the same lines with NegativeCount |
| VariablesIo.LoadDefinitions | piEnsight/variables/io.py:22-27 | per definition, one type line is skipped and count values are read; the total is the counts' sum, and the cursor advances by \|defs\| + sum |
| VariablesIo.LoadPart | piEnsight/variables/io.py:18-28 | a section must begin with `part`; the part's array has one value per element; the cursor advances by 2 + Σ(1+count) |
| VariablesIo.LoadParts | piEnsight/variables/io.py:17-30 | one array per part, in part order, each of its element count |
| VariablesIo.LoadVariableElement | piEnsight/variables/io.py:4-8 | non-ascii is UnsupportedFormat; a var_type outside scalar/vector is UnsupportedVariableType (io.py:36); vector is NotImplemented; scalar loads |
| VariablesIo.LoadDefinitionsAt | piEnsight/variables/io.py:22-28 | the for loop with its list of arrays equals LoadDefinitions, concatenating the arrays |
| VariablesIo.LoadPartAt | piEnsight/variables/io.py:18-28 | one iteration of the part loop equals LoadPart |
| VariablesIo.LoadScalar | piEnsight/variables/io.py:11-31 | load_scalar's loops equal the specification |
| VariablesIo.LoadVariableElementFile | piEnsight/variables/io.py:36-40 | the dispatch equals LoadVariableElement |
| VariablesIo.LoadDefinitionsAligned | piEnsight/variables/io.py:26-28 | value k of the part, for element i of definition j, is read from line at+j+1+k |
| VariablesIo.LoadDefinitionsOfSection | piEnsight/variables/io.py:22-27 | a section laid out as type line plus values per definition loads back into the values |
| VariablesIo.LoadPartsOfSections | piEnsight/variables/io.py:17-30 | consecutive part sections load back into one field per part |
| VariablesIo.LoadScalarOfSections | piEnsight/variables/io.py:11-31 | a scalar file with one section per part loads back into the fields |
| Utils.PartsNames | piEnsight/utils.py:18-22 | the scan fails only by running out of lines (a `part` without a name line) |
| Utils.GetPartsNames | piEnsight/utils.py:13-24 | the while loop equals PartsNames |
| Utils.LandingsOrdered | piEnsight/utils.py:18-22 | the `part` lines the scan lands on ascend at least 3 apart, so id and name lines are never compared with `part` |
| Utils.LandingsCover | piEnsight/utils.py:19-22 | every `part` line is landed on, unless it is one of the two lines after a landing |
| Utils.PartsNamesOfLandings | piEnsight/utils.py:18-22 | the scan succeeds iff the last landing has i+2 in range; name k is the line two below landing k |
| Utils.SkipUnmarked | piEnsight/utils.py:19-22 | lines that are not `part` add nothing |
| Utils.NamesOfBlocks | piEnsight/utils.py:18-22 | blocks whose bodies hold no `part` line give their names in order |
| Utils.NamesOfFile | piEnsight/utils.py:13-24 | a header with no `part` line followed by such blocks gives the block names |
| Utils.IoBlocksLayout | piEnsight/geometry/io.py:100-119 | write_ascii's parts are blocks with id k+1, the part's name and no `part` line inside |
| Utils.NamesOfWrittenGeometry | piEnsight/utils.py:18-22 | get_parts_names on what write_ascii emits gives the part names in order |

## Left out

- I/O: files are sequences of lines, and the writers produce an `Output`. Opening, `readlines` and `file.write` are not modelled.
- Text conversion: floats and ints are tokens; f-string formatting and `float()` are not modelled. `Num(v)` holds an exact `real` in place of a float64, so `nan`, `inf` and rounding are not modelled; values only pass through the codec, and no property depends on their arithmetic.
- Python's `strip()` is not modelled either.
- GeometryIo.ElementLine: `write_nodeInfo` joins the indices with single spaces and no trailing space. The model renders the line as `Ints` of the shifted indices.
- `utils.arr2str` is also rendered as `Ints`.
- numpy:
  - `column_stack`, `stack`, `reshape`, `concatenate` and `flatten` are sequence functions;
  - `argsort` is the `order` parameter.
- Helpers not in this model are opaque fields of `Core.Library`: `split_parts_description`, `get_dimension`, `convert2nsided`, `convert2nfaced` and `config.element_names`. No face tables are invented. These fields are total functions. So the model cannot raise the `KeyError` of `config.element_names[self.dim]` for a dimension with no entry (piEnsight/core.py:99, 107), and `convert2nsided` / `convert2nfaced` never fail.
- Core.Geometry.constructor: the shared mutable default dicts and the `deepcopy` of `read_geometries` are not modelled. Each Geometry gets its own empty maps, and `ReadGeometries` promises distinct objects. The optional `variables_element` and `variables_node` arguments of `__init__` (piEnsight/core.py:25) are not parameters of the constructor; the only call the core makes (piEnsight/core.py:192) uses the defaults.
- `variables_node` is never loaded or written by the core. It is kept as a field that never changes.
- CoreWrite.ValueLines: the source writes a vector field with var_type "scalar" as numpy rows. Rows are not value lines, so the model stops with `KindMismatch`.
- Negative counts:
  - as written, a negative node or element count moves the cursor backwards (see Findings);
  - the corrected readers `CoreRead.ReadHead`, `Blocks.ReadSubBlock` and `GeometryIo.ReadPart` reject a negative count with `NegativeCount`, an error the source never raises;
  - the counts `VariablesIo` and the geometry/io.py writer use come from `GeometryCore.Definition` and `GeometryCore.Part`, where they are `nat`, so a negative count never reaches piEnsight/variables/io.py:24-27 or piEnsight/geometry/io.py:116-119 in the model.
- `KindMismatch` is raised only by the model (see CoreWrite.ValueLines below).
- piEnsight/geometry/io.py:87, the assertion that `node_info` is a numpy array, is not modelled. An element's node list is always a sequence of integers in the model.
- Where the format's design and the code disagree, the model follows the code:
  - the header lines are skipped unread, so there is no numbering-mode check;
  - parts with equal ids may come in any order, since `np.argsort` is not stable;
  - `VariablesIo` does not refuse a field of the wrong length with a length error. Too few values make `float()` fail on the next line or run out of lines. Too many values make the next part fail the `part` assertion, or are ignored after the last part;
  - core.py checks no length at all. A scalar section of any length loads (`Core.ScalarValuesSpec`). A vector group fails only when its length is not a multiple of 3, with `ReshapeFailed` (`Core.Reshape`);
  - writers leave the lines written before an exception in the file;
  - core.py's header text is kept as written ("Ensigh").
- CoreWrite.FieldRoundTrip: assumes that the opaque splitter cuts the written file into its sections. It also assumes that each part's marker is among its dimension's element names.
- CoreWrite.GeometryLinesSucceed: a polyhedron in a dim 2 part, or a non-empty polygon in a dim 3 part, is `ShapeMismatch`. The source's numpy behaviour in that case is not modelled.
- geometry/core.py's `Part` has no `elements_id_definition` field, yet geometry/io.py:114 and variables/io.py:22 use one. Also, `read_ascii` stores one record per sub-block, while `write_ascii` indexes elements one by one. `GeometryCore.Part` models the evident intent: a list of (type, count) definitions beside one flat list of elements.
- Binary formats: always rejected, as `UnsupportedFormat`.
- `test.py` is a script over sample data and is not part of this model.
- There is no read-after-write round trip for core.py. `CoreWrite.WrittenPartRejected` proves that `read_geometry` refuses every part `write_geometries` writes.

## Findings

| source | as written | input that shows it | evidently intended | confidence | as-written member | corrected member |
|---|---|---|---|---|---|---|
| piEnsight/core.py:177-184 | a negative element count moves `current_idx` back by the count, since `range` of it is empty | the chunk `part`, `1`, `a`, `coordinates`, `0`, `tria3`, `-2`: the loop returns to index 5 with nothing added and never ends | refuse a negative count | not executed | CoreRead.StallAsWritten | CoreRead.NegativeCountRejected |
| piEnsight/geometry/io.py:50-65 | the same cursor arithmetic in read_ascii's inner loop | the same lines after the header: the cursor returns to 5, below last_idx = 6 and not at `part`, so the loop never ends | refuse a negative count | not executed | GeometryIo.InnerStallAsWritten | GeometryIo.InnerNegativeCountRejected |
