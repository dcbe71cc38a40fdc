# html_nested_tables in Dafny

A model of `html_nested_tables/base.py`, the core of `html_nested_tables`.
The library turns nested association lists into HTML tables with merged
headers. The pipeline has five stages:

- `build_table_dict` tags every nesting level of the data with an axis. An
  `h` level puts its keys on the columns; a `v` level puts them on the rows.
- `_get_headers` collects the nested header lists of each side.
- `_get_headers_depth` and `_get_final_length` measure those lists.
- `generate_html` renders the table. It walks the horizontal headers
  breadth first and the vertical headers in pre-order. The data cells come
  from `_data_iterator`, which looks up every pair of a vertical and a
  horizontal accessor path.
- `build_optimal_table_dict` builds the table for each of eight three-level
  structures. It keeps the first table of least `get_ugliness`.

## Modules

| module | file | contents |
|---|---|---|
| `TableData` | `table_data.dfy` | The entities: `Axis`, `Scalar`, `Raw` input, `Tree`, `Table`. Also `apply_structure` and `build_table_dict`. |
| `TableHeaders` | `headers.dfy` | The `Header` datatype and `_get_headers`. |
| `Geometry` | `geometry.dfy` | `_get_headers_depth` and `_get_final_length`. |
| `Traversal` | `traversal.dfy` | The two header iterators and `_accessors_iterator`. |
| `DataWalk` | `data_walk.dfy` | `inner_generator` and `_data_iterator`, with the Python exceptions they raise. |
| `Decimal` | `decimal.dfy` | `%s` of an integer. |
| `Render` | `render.dfy` | `tag`, `display_data` and `generate_html`. |
| `RenderFacts` | `render_facts.dfy` | Properties of the generated markup. |
| `ColumnHeaders` | `column_headers.dfy` | The rows of the column headers, level by level. |
| `Layout` | `layout.dfy` | `get_ugliness`, the candidate structures, the stable `sorted`, and `build_optimal_table_dict`. |
| `Findings` | `findings.dfy` | The optimal table of the level-1 test data. |
| `Scenarios` | `scenarios.dfy` | The level-1 tests with explicit structures. |
| `MixedLevels` | `mixed_levels.dfy` | The two active mixed-level tests, `(h, h)` and `(v, v)`, as the code runs them. |

The imperative parts of the source are Dafny methods with loops. Each
method is proved equal to a specification function, and the properties are
proved about those functions:

- the list building of `_get_headers` and its inner merge loop;
- the `total +=` loop of `_get_final_length`;
- the `to_be_explored` loop of the horizontal iterator;
- the cursor loop of `inner_generator` and the nested loops of `_data_iterator`;
- the `out +=` loops of `display_data` and `generate_html`;
- the in-place tagging of `apply_structure`.

The recursive generators are functions returning sequences. These are the
vertical iterator and `_accessors_iterator`.

Python exceptions are values of a `Result` type:

- `IndexError`: a path runs out of keys.
- `TypeError`: the `None` accessor is subscripted, or a terminal value is.
- A missing key is caught (`KeyError`) and gives `None`, as in the source.

Some behaviours of the code are easy to misread; the model follows the
code in each:

- Bare keys carry no span in either iterator: only a group gets a
  `rowspan` or `colspan`, its final length.
- An accessor path that runs out of keys before the data does raises
  `IndexError`; it is not an absent cell.
- `0`, `''` and `None` all render as `-`, since the cell text is
  `data or '-'`.
- The corner cell is an unclosed `<td …>` with `style="border: none;"`.
- An empty property dictionary still leaves a space: `<th >x</th>`.

## Model

| member | source | states |
|---|---|---|
| `TableData.ApplyStructure` | html_nested_tables/base.py:358-363 | The loop that reclasses a level and replaces every tuple value by its recursively structured copy gives the tree `Structured(datadict, structure, level)`. |
| `TableData.BuildTableDict` | html_nested_tables/base.py:342-367 | Gives the root built from `structure` with the structure recorded on it. |
| `TableData.StructuredIsTaggedCopy` | html_nested_tables/base.py:358-363 | The level-`i` dictionaries have class `structure[i]`. Stripping the classes gives back the input exactly, so scalars stay untouched. Distinct input keys give a valid tree. |
| `TableData.StructuredUniform` | html_nested_tables/base.py:358-363 | Data of uniform depth `d` gives a tree of uniform depth `d`. |
| `TableData.BuildTableDictShape` | html_nested_tables/base.py:365-367 | The root has class `structure[0]`, the levels are tagged in order, the data is kept, and the structure is recorded on the root only. |
| `TableHeaders.MergeInto` | html_nested_tables/base.py:62-64 | The loop appending each child header not yet present computes `Merge(headers, more)`. |
| `TableHeaders.MergeFacts` | html_nested_tables/base.py:62-64 | The merge keeps the old list as a prefix. Its members are exactly those of both lists. It adds no duplicate and is non-empty when `more` is. |
| `TableHeaders.GetHeaders` | html_nested_tables/base.py:34-68 | The loop over the items computes `Headers(t, side)`: nested lists, merged children and own keys. |
| `TableHeaders.MatchingHeaders` | html_nested_tables/base.py:59-67 | On a node of the side's class with distinct keys: one entry per own key in key order. The entry is a group when the child has headers on that side, and a bare key otherwise. |
| `TableHeaders.CrossHeaders` | html_nested_tables/base.py:61-64 | On a node of the other class, an entry appears if and only if it is a header of one of the node's children. No own key is added. |
| `TableHeaders.HeadersClean` | html_nested_tables/base.py:54-68 | Every group's child list is non-empty. For a tree with distinct keys, no level holds a repeated entry. |
| `Geometry.HeadersDepthIsLevels` | html_nested_tables/base.py:97-103 | `max_depth` of a non-empty list is `2·levels − 1`. The result is 1 for `[]` and otherwise the number of nested levels, always at least 1. |
| `Geometry.HeadersDepthOfKeys` | html_nested_tables/base.py:88-89 | The first doctest: a flat list has depth 1. |
| `Geometry.HeadersDepthOfGroups` | html_nested_tables/base.py:90-91 | The second doctest, read as two groups: depth 2. |
| `Geometry.HeadersDepthOfNested` | html_nested_tables/base.py:92-93 | The third doctest: a group in a group has depth 3. |
| `Geometry.GetFinalLength` | html_nested_tables/base.py:118-125 | The accumulator loop computes `FinalLength(l)`. |
| `Geometry.FinalLengthBounds` | html_nested_tables/base.py:118-125 | The final length of a well-formed list is at least its length. It is 0 exactly for `[]`. |
| `Geometry.FinalLengthAppend` | html_nested_tables/base.py:118-125 | The final length of a concatenation is the sum of the final lengths. |
| `Traversal.HorizontalHeaderIterator` | html_nested_tables/base.py:127-146 | Returns every triple the generator yields, in order, including the fallback to the horizontal headers when `headers` is empty. Each level comes first, then the gathered children one level deeper, i.e. `BreadthFirst`. |
| `Traversal.BreadthFirstDepths` | html_nested_tables/base.py:134-146 | Yields one triple per header entry. The first is at the start depth, no depth is below it, and depths never decrease and go up one level at a time. |
| `Traversal.BreadthFirstPermutesPreOrder` | html_nested_tables/base.py:134-164 | The horizontal iterator yields the same triples as a pre-order walk, as a multiset. So every entry is yielded exactly once, with `colspan = final_length(group)`. |
| `Traversal.VerticalIteratorShape` | html_nested_tables/base.py:148-164 | For well-formed headers given, or the node's vertical headers when none are given, it yields one triple per entry and as many bare keys as the final length. The first entry comes first. Depths lie within the levels. Every group is followed by its first child one level deeper, and the last triple is a bare key. The triples are the horizontal iterator's with `rowspan` for `colspan`, rearranged. |
| `Traversal.PreOrderIsVertical` | html_nested_tables/base.py:155-164 | The pre-order of a well-formed list has every property the vertical iterator promises. |
| `Traversal.BreadthFirstRespanned` | html_nested_tables/base.py:134-164 | The breadth-first triples, with the span renamed, are a permutation of the pre-order triples with that span. |
| `Traversal.PreOrderShape` | html_nested_tables/base.py:155-164 | Every group is immediately followed by its first child one level deeper. A bare key is followed by an entry at the same or a shallower depth. The last triple is a bare key. |
| `Traversal.PreOrderCounts` | html_nested_tables/base.py:155-164 | One triple per header entry. The number of bare keys equals the final length. |
| `Traversal.PreOrderDepths` | html_nested_tables/base.py:155-164 | The first triple is at the start depth. All depths lie within the levels of the list. |
| `Traversal.PathsCount` | html_nested_tables/base.py:181-188 | `_accessors_iterator` yields exactly `_get_final_length(headers)` paths. |
| `Traversal.PathsExtent` | html_nested_tables/base.py:181-188 | Every path starts with the parent accessors and adds between one and `levels` keys. |
| `Traversal.PathsFollowPreOrder` | html_nested_tables/base.py:181-188 | The last keys of the paths are the bare keys of the pre-order walk, in the same order. |
| `Traversal.PathsAreRoutes` | html_nested_tables/base.py:181-188 | A sequence is a yielded path exactly when it starts with the parent accessors and the rest is a route through the headers: the keys of the groups above one bare key, then that key. |
| `Traversal.PathsOfRoutes` | html_nested_tables/base.py:181-188 | With no parent, the yielded paths are exactly the routes through the headers. |
| `Traversal.PathsOfLeafDepth` | html_nested_tables/base.py:181-188 | When every bare key sits `n` levels down, every path has exactly `n` keys beyond the parent. |
| `Traversal.PreOrderOfLeafDepth` | html_nested_tables/base.py:155-164 | When every bare key sits `n` levels down, the list has `n` levels. Bare keys are exactly the triples at the last level. |
| `DataWalk.Find` | html_nested_tables/base.py:203-206 | Dictionary lookup: the first position holding the key, or the length when the key is absent. |
| `DataWalk.InnerGenerator` | html_nested_tables/base.py:197-211 | The loop over the structure, with cursors `x` and `y` and the current value, computes `Walk`. `Walk` consumes the next key of the level's side and raises or gives `None` as Python does. |
| `DataWalk.WalkFollowsInterleave` | html_nested_tables/base.py:197-211 | With paths long enough for the structure, the walk is the plain nested lookup along the keys of both paths, interleaved by the structure's axes. |
| `DataWalk.WalkOk` | html_nested_tables/base.py:197-211 | On uniform data, with paths as long as the structure asks, the walk raises nothing. |
| `DataWalk.AccessorsCount` | html_nested_tables/base.py:213-218 | The accessor list has `max(1, final_length)` entries. It is `[None]` exactly when there is no path, and otherwise it is the paths themselves. |
| `DataWalk.AccessorsAreRoutes` | html_nested_tables/base.py:213-218 | Every accessor that is not `None` is a route through the headers, and every route is one of the accessors. |
| `DataWalk.DataIterator` | html_nested_tables/base.py:213-221 | The nested loops, vertical paths outside, give `DataCells`: every cell, or the first exception raised. |
| `DataWalk.AllOkFacts` | html_nested_tables/base.py:268 | Collecting a generator succeeds if and only if no step raises. It then gives one value per step, in order. |
| `DataWalk.AllOkAppend` | html_nested_tables/base.py:268 | Collecting two runs in a row raises the first exception met, otherwise it concatenates. |
| `DataWalk.FirstErrorRaises` | html_nested_tables/base.py:219-221 | The exception of the first failing cell, in loop order, is the one raised. |
| `DataWalk.AllOkRowsOk` | html_nested_tables/base.py:219-221 | The whole data succeeds if and only if every row does. |
| `DataWalk.DataCellsOkIff` | html_nested_tables/base.py:219-221 | The data iterator raises nothing if and only if no row raises. |
| `DataWalk.DataCellsShape` | html_nested_tables/base.py:219-221 | The data has `max(1,|vertical paths|) × max(1,|horizontal paths|)` cells. Slice `i` of row length is the row of vertical path `i`. |
| `DataWalk.UniformHeaders` | html_nested_tables/base.py:54-68 | In uniform data, a side has headers exactly when the structure holds its axis. Every bare key then sits as many levels down as the structure has levels of that axis. |
| `DataWalk.AccessorsOfUniform` | html_nested_tables/base.py:213-218 | In uniform data, an accessor is `None` exactly when the structure lacks the side's axis. Otherwise it has as many keys as that axis occurs. |
| `DataWalk.DataCellsOk` | html_nested_tables/base.py:190-221 | A table whose data is as deep as its structure, with distinct keys, yields its data without an exception. |
| `Decimal.NatToStringRoundTrip` | html_nested_tables/base.py:251-253 | The decimal text of a count is non-empty, made of digits, has no leading zero, and parses back to the number. |
| `Decimal.IntToStringRoundTrip` | html_nested_tables/base.py:271 | `%s` of an integer parses back to it. It starts with `-` exactly for negatives. |
| `Decimal.IntToStringInjective` | html_nested_tables/base.py:271 | Distinct integers have distinct texts. |
| `Render.TagForms` | html_nested_tables/base.py:224-226 | `tag` with no property gives `<name >content</name>`. With one property it gives `<name k="n">content</name>`. |
| `Render.CellTextFacts` | html_nested_tables/base.py:271 | `None`, `0` and `''` show `-`. Another integer shows its decimal text, another string itself. |
| `Render.PySliceFacts` | html_nested_tables/base.py:268-270 | Python slicing: at most `hi - lo` items, the plain slice within bounds, empty past the end. |
| `Render.DisplayData` | html_nested_tables/base.py:266-272 | Raises what the data iterator raises. Otherwise gives the `<td>` cells of slice `data_index` of length `horizontal_length`. |
| `Render.HorizontalCells` | html_nested_tables/base.py:255-261 | The loop over the horizontal triples gives a `<th>` per triple, opening a new row when the depth changes. |
| `Render.HeaderRows` | html_nested_tables/base.py:246-261 | The header part: nothing without horizontal headers. Otherwise `<tr>`, then the corner cell when there are vertical headers, then the horizontal cells. |
| `Render.VerticalStep` | html_nested_tables/base.py:278-287 | One step of the vertical loop: a row break when the depth does not grow, the `<th>`, and the data of the current row at the last level. It advances `data_index` and raises only when it shows data. |
| `Render.RenderStep` | html_nested_tables/base.py:280-287 | The markup and the data rows of one step, written out. |
| `Render.BodyAppend` | html_nested_tables/base.py:276-287 | Running the loop one more step appends that step's markup and data rows. `previous_depth` and `data_index` update as in the source. |
| `Render.VerticalRows` | html_nested_tables/base.py:275-287 | The vertical loop raises exactly when the data raises and a data row is shown. Otherwise it gives the pieces rendered against the data. |
| `Render.DataRowsGrow` | html_nested_tables/base.py:284-286 | Once a data row has been shown, later prefixes of the loop show one too. |
| `Render.GenerateHtml` | html_nested_tables/base.py:228-291 | The whole method computes `Html(table)`: the markup, or the data iterator's exception when a data row needs it. |
| `RenderFacts.HtmlFrame` | html_nested_tables/base.py:246-290 | The output starts with `<table>` and ends with `</table>`. |
| `RenderFacts.HtmlStartsWithCorner` | html_nested_tables/base.py:247-253 | With headers on both sides, the output opens with the corner cell. Its colspan is the vertical depth and its rowspan the horizontal depth. |
| `RenderFacts.HtmlStartsWithHeader` | html_nested_tables/base.py:247-261 | With horizontal but no vertical headers, the first cell is a `<th`, not a corner. |
| `RenderFacts.HtmlStartsWithRowBreak` | html_nested_tables/base.py:247-289 | Without horizontal headers there is no header row: `<table>` is followed by `</tr><tr>`. |
| `RenderFacts.HeadStart` | html_nested_tables/base.py:247-261 | The header part opens with the corner cell when there are vertical headers, otherwise with a `<th`. |
| `RenderFacts.FirstHeaderCell` | html_nested_tables/base.py:255-261 | The horizontal cells of a non-empty list start with `<th `. |
| `ColumnHeaders.ColumnHeaderRows` | html_nested_tables/base.py:255-261 | The horizontal header cells are the `<th>` cells of the depth-0 headers, then, for each further level down to the last of the header list, `</tr><tr>` and the cells of the headers at that depth, in order. So there is one header row per level. |
| `ColumnHeaders.LevelRowsOfBreadthFirst` | html_nested_tables/base.py:255-261 | Run over the breadth-first triples of a list, the loop gives the cells of the list's own headers, then a row break and the rows of the groups' children, while there are any. |
| `ColumnHeaders.AtDepthOfBreadthFirst` | html_nested_tables/base.py:134-146 | Of the breadth-first triples listed from a start depth, those at a depth `d` at or below it are the triples of the headers `d` minus the start depth levels down, in order. |
| `ColumnHeaders.LevelsOfLayer` | html_nested_tables/base.py:134-146 | `k` levels down, `Levels(hs) - k` levels are left, and there are headers exactly while `k` is below the number of levels. |
| `RenderFacts.BodyStart` | html_nested_tables/base.py:275-289 | The body always starts with `</tr><tr>`. |
| `RenderFacts.NoVerticalHeadersSingleRow` | html_nested_tables/base.py:288-289 | Without vertical headers, the whole data is one row of `horizontal_length` cells between `</tr><tr>` and `</tr>`. |
| `RenderFacts.RowsUpTo` | html_nested_tables/base.py:276-287 | In a pre-order list whose bare keys sit at the last level, the loop shows data rows `0, 1, …` in order, one per bare key so far. It keeps `data_index` one behind. |
| `RenderFacts.ChunkShown` | html_nested_tables/base.py:266-272 | `display_data(i)` shows exactly chunk `i` of the data. |
| `RenderFacts.RowShown` | html_nested_tables/base.py:266-272 | Chunk `i` of data that raises nothing is the row of vertical path `i`, `horizontal_length` cells long. |
| `RenderFacts.RowsShowTheirData` | html_nested_tables/base.py:266-272 | The same for every vertical path at once. |
| `RenderFacts.LeafDepthRows` | html_nested_tables/base.py:275-287 | When every vertical bare key sits at the last level, the loop shows data rows `0 … paths − 1`, in order. |
| `RenderFacts.UniformRowsInOrder` | html_nested_tables/base.py:275-287 | For data as deep as its structure, the vertical loop shows each vertical path's row once, in order. |
| `RenderFacts.UniformHtmlOk` | html_nested_tables/base.py:228-291 | Data as deep as its structure, with distinct keys, renders without an exception. |
| `Layout.Ugliness` | html_nested_tables/base.py:303-307 | `vertical + horizontal + |vertical − horizontal|` is `2·max(vertical, horizontal)`: even, and at least the sum. |
| `Layout.CollectMirror` | html_nested_tables/base.py:55-67 | With every class swapped, the loop collects for the other side what it collected for this side. |
| `Layout.HeadersMirror` | html_nested_tables/base.py:54-68 | Swapping every class swaps the two header lists. |
| `Layout.StructuredFlip` | html_nested_tables/base.py:358-363 | Building with the flipped structure gives the mirrored tree. |
| `Layout.UglinessFlip` | html_nested_tables/base.py:303-307 | A structure and its flip are equally ugly. |
| `Layout.CandidatesInOrder` | html_nested_tables/base.py:382-385 | The candidates are the eight length-3 structures, `v` before `h`, the last position varying fastest. |
| `Layout.StructuresComplete` | html_nested_tables/base.py:382-385 | Every structure of length `n` is a candidate. |
| `Layout.StructuresDistinct` | html_nested_tables/base.py:382-385 | No candidate appears twice. |
| `Layout.StructuresHalves` | html_nested_tables/base.py:382-385 | The first half of the candidates start with `v`, the second half with `h`. |
| `Layout.StructuresMirror` | html_nested_tables/base.py:382-385 | Candidate `i` and candidate `2^n − 1 − i` are flips of each other. |
| `Layout.InsertFacts` | html_nested_tables/base.py:388 | Inserting a table into a list sorted by ugliness keeps it sorted and permutes it. |
| `Layout.SortFacts` | html_nested_tables/base.py:388 | The stable `sorted` is ordered by ugliness and is a permutation of its input. |
| `Layout.SortHead` | html_nested_tables/base.py:388 | `sorted(...)[0]` is the first table of least ugliness. |
| `Layout.StructuresFit` | html_nested_tables/base.py:386-387 | Data that fits `n` levels can be built with every candidate. |
| `Layout.PickChoice` | html_nested_tables/base.py:386-388 | The chosen table is built from the first candidate of least ugliness. No candidate is less ugly, and every earlier one is strictly uglier. |
| `Layout.OptimalIsLeastUgly` | html_nested_tables/base.py:370-388 | `build_optimal_table_dict` returns candidate `k`. Every earlier candidate is strictly uglier, and no length-3 structure is less ugly. |
| `Layout.PickStartsVertical` | html_nested_tables/base.py:382-388 | Flipping keeps the ugliness. So the first least-ugly candidate always starts with `v`. |
| `Layout.OptimalStartsVertical` | html_nested_tables/base.py:382-388 | The optimal table always has a vertical root. |
| `Layout.RawDepthFits` | html_nested_tables/base.py:358-363 | Data fits as many levels as it is deep. |
| `Layout.RawDepthUniform` | html_nested_tables/base.py:358-363 | Data of uniform depth `d` is `d` deep. |
| `Layout.OptimalOfDepthIsLeastUgly` | html_nested_tables/base.py:370-388 | Corrected choice: candidates as long as the data is deep. It returns one starting with `v`, and no structure of that length is less ugly. |
| `Layout.UniformBuildRenders` | html_nested_tables/base.py:342-367 | `build_table_dict(data, s).generate_html()` raises nothing when the data is exactly `|s|` deep and has distinct keys. |
| `Layout.OptimalOfDepthRenders` | html_nested_tables/base.py:370-388 | The corrected choice for uniform data with distinct keys has a structure as long as the data is deep, and renders without an exception. |
| `Findings.Level1Shape` | html_nested_tables/tests/base.py:31-35 | The level-1 test data is one level deep with distinct keys. |
| `Findings.Level1Headers` | html_nested_tables/base.py:54-68 | For any structure, the keys `a`, `b`, `c` are the root side's headers, and the other side has none. |
| `Findings.Level1Ugliness` | html_nested_tables/base.py:303-307 | Every length-3 candidate scores 6 on the level-1 data. |
| `Findings.Level1OptimalIsAllVertical` | html_nested_tables/base.py:382-388 | As written, the optimal table of the level-1 data is the `(v, v, v)` table. |
| `Findings.Level1AllVerticalItems` | html_nested_tables/base.py:148-164 | That table's vertical headers are three bare keys at depth 0, one level deep. |
| `Findings.Level1AllVerticalRows` | html_nested_tables/base.py:275-287 | Its vertical loop shows data rows 0, 1 and 2, so the data is needed. |
| `Findings.Level1AllVerticalDataRaises` | html_nested_tables/base.py:197-211 | Its data iterator raises `IndexError`: the path `('a',)` has no second key. |
| `Findings.Level1OptimalRaises` | html_nested_tables/tests/base.py:45-47 | As written, `build_optimal_table_dict(data).generate_html()` on the level-1 data raises `IndexError`. |
| `Findings.Level1OfDepthIsVertical` | html_nested_tables/tests/base.py:45-47 | Corrected, the level-1 data gets the structure `(v,)`. |
| `Findings.Level1OptimalOfDepth` | html_nested_tables/tests/base.py:45-47 | Corrected, the level-1 data gets `(v,)`, the table the test compares with `level_1_v.html`, and renders without an exception. |
| `Scenarios.Level1Walk` | html_nested_tables/base.py:197-211 | With one level, the lookup of path `[k]` gives the value of `k`. |
| `Scenarios.Level1Cells` | html_nested_tables/base.py:213-221 | For either one-level structure, the data reads `1, 2, 3`. |
| `Scenarios.Level1RowsVertical` | html_nested_tables/base.py:219-221 | With `(v,)`: three rows of one cell each. |
| `Scenarios.Level1RowsHorizontal` | html_nested_tables/base.py:219-221 | With `(h,)`: one row of three cells. |
| `Scenarios.Level1VerticalItems` | html_nested_tables/base.py:148-164 | The `(v,)` table has three bare vertical keys at depth 0, one level deep and one cell wide. |
| `Scenarios.Level1VerticalBody` | html_nested_tables/base.py:275-287 | Its body is one row per key, each as `</tr><tr><th >k</th><td>n</td>`. |
| `Scenarios.Level1VerticalHtml` | html_nested_tables/tests/base.py:41-43 | `build_table_dict(data, (v,)).generate_html()` in full. |
| `Scenarios.Level1HorizontalItems` | html_nested_tables/base.py:127-146 | The `(h,)` table has three bare horizontal keys at depth 0, three cells wide, and no vertical header. |
| `Scenarios.Level1HorizontalHtml` | html_nested_tables/tests/base.py:37-39 | `build_table_dict(data, (h,)).generate_html()` in full: a row of the keys, then a row of the values closed by `</tr>`. |
| `MixedLevels.MixedBuild` | html_nested_tables/base.py:342-367 | For either axis `a`, `build_table_dict` of the mixed data with `(a, a)` is a root of class `a` mapping `a` to a dictionary of class `a` holding `aa: 11` and `ab: 12`, and mapping `b` to the number 2. |
| `MixedLevels.MixedHeaders` | html_nested_tables/base.py:54-68 | The side of that axis gets the headers `a` over `aa`, `ab`, then the bare `b`. The other side gets none. |
| `MixedLevels.MixedPaths` | html_nested_tables/base.py:181-188 | The accessors are `('a', 'aa')`, `('a', 'ab')` and the one-key `('b',)`. |
| `MixedLevels.MixedWalks` | html_nested_tables/base.py:197-211 | `inner_generator` gives 11 and 12 for the two paths under `a`. For `('b',)` it reaches the number 2 and then raises `IndexError` asking the path for its second key. |
| `MixedLevels.MixedHorizontalRows` | html_nested_tables/base.py:213-221 | With `(h, h)`, the data iterator runs one row: 11, 12, then the `IndexError`. |
| `MixedLevels.MixedVerticalRows` | html_nested_tables/base.py:213-221 | With `(v, v)`, it runs three rows: 11, then 12, then the `IndexError`. |
| `MixedLevels.MixedHorizontalDataRaises` | html_nested_tables/base.py:213-221 | With `(h, h)`, `list(self._data_iterator())` raises `IndexError`. |
| `MixedLevels.MixedVerticalDataRaises` | html_nested_tables/base.py:213-221 | With `(v, v)`, `list(self._data_iterator())` raises `IndexError`. |
| `MixedLevels.MixedRowShown` | html_nested_tables/base.py:275-287 | The vertical headers of the `(v, v)` table show data row 0 after `aa`, so the markup needs the data. |
| `MixedLevels.MixedHorizontalRaises` | html_nested_tables/tests/base.py:99-101 | As written, `build_table_dict(data, (h, h)).generate_html()` raises `IndexError`, so the active `testHorizontal` cannot pass. |
| `MixedLevels.MixedVerticalRaises` | html_nested_tables/tests/base.py:113-115 | As written, `build_table_dict(data, (v, v)).generate_html()` raises `IndexError`, so the active `testVertical` cannot pass. |

## Left out

- The metaclasses' `__repr__` returning `h` and `v` (`base.py:310-317`): cosmetic, and bound to Python 2's `__metaclass__`.
- Input as a plain, unordered Python `dict`: only association lists are modelled. Their keys must be distinct at every level (`RawDistinct`); a repeated key would be overwritten by the dictionary.
- Data deeper than the structure: `structure[level]` raises `IndexError` at `base.py:359`. `BuildTableDict` and `ApplyStructure` require data that fits the structure (`RawFits`).
- Correct rendering of mixed-depth data, where a scalar sits beside a nested dictionary. `tests/base.py` keeps two such tests active, `(h, h)` at lines 99-101 and `(v, v)` at lines 113-115. Under this code both raise `IndexError`, as `MixedLevels.MixedHorizontalRaises` and `MixedLevels.MixedVerticalRaises` prove. The other three, `(h, v)`, `(v, h)` and the optimal table (lines 103-121), are commented out, marked as not knowing how such a table should render. The control files holding the expected markup are not part of this model, so no corrected rendering is modelled.
- Scalars other than integers, strings and `None`: floats, booleans and other objects.
- Keys are modelled as strings only. In the source a key may be any hashable value: `tag` formats it with `%s` (`base.py:225-226`), and the membership test at `base.py:66` compares it by equality.
- `display_data` rebuilding the whole data list on each call: only its result is modelled, not its cost.
- The `or 1` of `base.py:264`: it never applies, since `_get_headers_depth` is at least 1. `Render.MaxVerticalDepth` omits it, and `Geometry.HeadersDepthIsLevels` proves that depth is at least 1.
- The `_get_final_length` doctest `['a', [1, 2, 3], 'b', [4, 5]]`: its three-element list does not unpack into a header and a group at `base.py:121`. The model keeps the two-element groups the code reads.
- Geometry.HeadersDepthOfGroups: the second doctest's argument is a single three-element list, which is not a well-formed header list. The lemma states the same depth, 2, for the two groups that argument evidently means.
- TableHeaders.CrossHeaders: states membership only. The first-seen order of the merged children is fixed by `Merge` and `MergeInto`.
- `example.py`, `setup.py` and the golden-file harness of `tests/base.py`: these are file I/O and packaging. `get_all_structures`, imported by `example.py`, is not defined in `base.py` and is not part of this model. The control files the tests compare against are not part of this model either; the level-1 scenarios state the markup in full.
- Laziness of the generators: each generator is modelled as the sequence it yields.

## Findings

| source | as written | input that shows it | evidently intended | confidence | as-written member | corrected member |
|---|---|---|---|---|---|---|
| html_nested_tables/base.py:382-388 | The candidates are always the eight three-level structures. For data one level deep all score the same, so the first, `(v, v, v)`, is kept. Its data iterator then asks each one-key path for a second key and raises `IndexError`. | `build_optimal_table_dict((('a', 1), ('b', 2), ('c', 3))).generate_html()`. `tests/base.py:45-47` expects the markup of `level_1_v.html`. | One candidate level per nesting level of the data, so the level-1 data gets `(v,)` and renders. | not executed | `Findings.Level1OptimalRaises` | `Layout.OptimalOfDepthRenders` |
