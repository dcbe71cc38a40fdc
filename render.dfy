/** `TableDict.tag` and `TableDict.generate_html`: the HTML markup of a
    table, built by string concatenation. The horizontal headers come first,
    one row per level (after the unclosed top-left corner cell when both
    sides have headers); then, for each vertical header in pre-order, a row
    break when the depth does not increase, the header cell, and after a
    deepest vertical header the slice of the data that belongs to its row. */
module Render {
  import opened TableData
  import opened TableHeaders
  import opened Geometry
  import opened Traversal
  import opened DataWalk
  import opened Decimal

  /** `'%s="%s"' % (k, v)` for one property. */
  function PropText(p: (string, nat)): string
  {
    p.0 + "=\"" + NatToString(p.1) + "\""
  }

  /** `' '.join(...)` over the properties. */
  function PropsString(props: seq<(string, nat)>): string
  {
    if props == [] then ""
    else if |props| == 1 then PropText(props[0])
    else PropText(props[0]) + " " + PropsString(props[1..])
  }

  /** `tag(name, props, content)`: `'<%s %s>%s</%s>'`, so an empty property
      dictionary still leaves the space after the name. */
  function Tag(name: string, props: seq<(string, nat)>, content: string): string
  {
    "<" + name + " " + PropsString(props) + ">" + content + "</" + name + ">"
  }

  /** The two forms a header cell takes: no property (a bare key) or its
      single span. */
  lemma {:induction false} TagForms(name: string, content: string, k: string, n: nat)
    ensures Tag(name, [], content) == "<" + name + " >" + content + "</" + name + ">"
    ensures Tag(name, [(k, n)], content)
         == "<" + name + " " + k + "=\"" + NatToString(n) + "\">" + content + "</" + name + ">"
  {
  }

  /** `'%s' % c` for a terminal value. */
  function ScalarText(c: Scalar): string
  {
    match c
    case Int(n) => IntToString(n)
    case Text(s) => s
    case Null => "None"
  }

  /** `data or '-'`: a missing piece of data and every falsy value show
      as `-`. */
  function CellText(d: Datum): string
  {
    match d
    case None => "-"
    case Some(c) => if Truthy(c) then ScalarText(c) else "-"
  }

  /** A shown number reads back as itself; `None`, `0`, `''` and a missing
      piece of data all show as `-`. */
  lemma {:induction false} CellTextFacts(d: Datum)
    ensures d.None? || !Truthy(d.value) ==> CellText(d) == "-"
    ensures d.Some? && d.value.Int? && d.value.n != 0 ==> ParseInt(CellText(d)) == d.value.n
    ensures d.Some? && d.value.Text? && d.value.s != "" ==> CellText(d) == d.value.s
  {
    if d.Some? && d.value.Int? {
      IntToStringRoundTrip(d.value.n);
    }
  }

  function Td(d: Datum): string
  {
    "<td>" + CellText(d) + "</td>"
  }

  /** The `<td>` cells of `xs`, in order. */
  function TdCells(xs: seq<Datum>): string
  {
    if xs == [] then "" else TdCells(xs[..|xs| - 1]) + Td(xs[|xs| - 1])
  }

  lemma {:induction false} TdCellsSnoc(xs: seq<Datum>, k: nat)
    requires k < |xs|
    ensures TdCells(xs[..k + 1]) == TdCells(xs[..k]) + Td(xs[k])
  {
    assert xs[..k + 1][..k] == xs[..k];
    assert xs[..k + 1][k] == xs[k];
  }

  lemma {:induction false} TdCellsAppend(a: seq<Datum>, b: seq<Datum>)
    ensures TdCells(a + b) == TdCells(a) + TdCells(b)
    decreases |b|
  {
    if b == [] {
      assert a + b == a;
    } else {
      var b' := b[..|b| - 1];
      var last := b[|b| - 1];
      assert b == b' + [last];
      assert a + b == (a + b') + [last];
      TdCellsAppend(a, b');
      TdCellsLast(a + b, a + b', last);
      TdCellsLast(b, b', last);
      StringAssoc(TdCells(a), TdCells(b'), Td(last));
    }
  }

  /** The empty string is neutral on both sides of a concatenation. */
  lemma EmptyLeft(x: string)
    ensures "" + x == x && x + "" == x
  {
  }

  lemma {:induction false} StringAssoc(x: string, y: string, z: string)
    ensures (x + y) + z == x + (y + z)
  {
  }

  lemma {:induction false} TdCellsLast(xs: seq<Datum>, init: seq<Datum>, last: Datum)
    requires xs == init + [last]
    ensures TdCells(xs) == TdCells(init) + Td(last)
  {
    assert xs[..|xs| - 1] == init;
  }

  /** The cells of a row, first to last. */
  lemma {:induction false} TdCellsFront(xs: seq<Datum>)
    requires xs != []
    ensures TdCells(xs) == Td(xs[0]) + TdCells(xs[1..])
  {
    assert xs == [xs[0]] + xs[1..];
    TdCellsAppend([xs[0]], xs[1..]);
    TdCellsOne(xs[0]);
  }

  lemma {:induction false} TdCellsOne(x: Datum)
    ensures TdCells([x]) == Td(x)
  {
    assert [x][..0] == [];
  }

  function Clip(n: nat, len: nat): nat
  {
    if n <= len then n else len
  }

  /** Python's `xs[lo:hi]` for non-negative bounds: both are clipped to the
      length, and a slice with `lo >= hi` is empty. */
  function PySlice<T>(xs: seq<T>, lo: nat, hi: nat): seq<T>
  {
    var a := Clip(lo, |xs|);
    var b := Clip(hi, |xs|);
    if a <= b then xs[a..b] else []
  }

  lemma {:induction false} PySliceFacts<T>(xs: seq<T>, lo: nat, hi: nat)
    ensures lo <= hi ==> |PySlice(xs, lo, hi)| <= hi - lo
    ensures lo <= hi <= |xs| ==> PySlice(xs, lo, hi) == xs[lo..hi]
    ensures |xs| <= lo ==> PySlice(xs, lo, hi) == []
  {
  }

  /** `display_data(data_index)` once the data list is there: the
      `data_index`-th slice of `hl` pieces of data as `<td>` cells. */
  function DisplayString(cells: seq<Datum>, hl: nat, di: nat): string
  {
    TdCells(PySlice(cells, hl * di, hl * (di + 1)))
  }

  /** `display_data(data_index)`: builds the whole data list, raising what
      it raises, then the cells of one slice. */
  method DisplayData(table: Table, hl: nat, di: nat) returns (r: Result<string>)
    requires Tagged(table.root, table.structure, 0)
    ensures DataCells(table).Err? ==> r == Err(DataCells(table).fault)
    ensures DataCells(table).Ok? ==> r == Ok(DisplayString(DataCells(table).value, hl, di))
  {
    var data := DataIterator(table);
    if data.Err? {
      return Err(data.fault);
    }
    var slice := PySlice(data.value, hl * di, hl * (di + 1));
    var out := "";
    for k := 0 to |slice|
      invariant out == TdCells(slice[..k])
    {
      TdCellsSnoc(slice, k);
      out := out + Td(slice[k]);
    }
    assert slice[..|slice|] == slice;
    return Ok(out);
  }

  /** Line 251: the unclosed top-left cell, `cols` columns wide and `rows`
      rows high. */
  function CornerCell(cols: nat, rows: nat): string
  {
    "<td colspan=\"" + NatToString(cols) + "\" rowspan=\"" + NatToString(rows) + "\" style=\"border: none;\">"
  }

  /** The corner cell of a table: as wide as the vertical headers are deep,
      as high as the horizontal headers are deep. */
  function Corner(vh: seq<Header>, hh: seq<Header>): string
    requires WellFormed(vh) && WellFormed(hh)
  {
    CornerCell(HeadersDepth(vh), HeadersDepth(hh))
  }

  /** `previous_depth` of lines 255-260 after `n` horizontal headers: it
      only changes when the depth changes, so it is the depth of the last
      header seen. */
  function PrevDepth(items: seq<HeaderItem>, n: nat): nat
    requires n <= |items|
  {
    if n == 0 then 0 else items[n - 1].depth
  }

  /** Lines 255-261: a `<th>` per horizontal header among the first `n`,
      opening a new row whenever the depth changes. */
  function HeaderCells(items: seq<HeaderItem>, n: nat): string
    requires n <= |items|
  {
    if n == 0 then ""
    else HeaderCells(items, n - 1) + HeaderPiece(items[n - 1], PrevDepth(items, n - 1))
  }

  /** The markup of one horizontal header. */
  function HeaderPiece(it: HeaderItem, prev: nat): string
  {
    (if it.depth != prev then "</tr><tr>" else "") + Tag("th", it.props, it.header)
  }

  /** Lines 247-261: what follows `<table>` up to the data rows: nothing
      without horizontal headers, otherwise a row with the corner cell
      (when there are vertical headers too) and the horizontal header
      cells. */
  function HeadPart(t: Tree): string
  {
    var hh := Headers(t, H);
    var vh := Headers(t, V);
    HeadersClean(t, H);
    HeadersClean(t, V);
    if hh == [] then ""
    else
      var items := BreadthFirst(hh, 0);
      "<tr>" + (if vh != [] then Corner(vh, hh) else "") + HeaderCells(items, |items|)
  }

  /** What one step of the loop over the vertical headers emits: a row
      break, a header cell, or the data of row `index`. */
  datatype Piece = RowBreak | HeaderCell(item: HeaderItem) | DataRow(index: nat)

  /** `data_index` after the step for `it`: one more when a row starts. */
  function NextIndex(it: HeaderItem, prev: int, di: int): int
  {
    if it.depth <= prev then di + 1 else di
  }

  /** The pieces one vertical header emits: a row break when its depth
      does not exceed the previous one, its cell, and the data row when it
      is at the deepest level and a row has started. */
  function StepPieces(it: HeaderItem, prev: int, di: int, maxd: nat): seq<Piece>
    requires di >= -1
  {
    var di' := NextIndex(it, prev, di);
    (if it.depth <= prev then [RowBreak] else [])
    + [HeaderCell(it)]
    + (if it.depth == maxd - 1 && di' != -1 then [DataRow(di')] else [])
  }

  /** `data_index` after the first `n` vertical headers. */
  function IndexAt(items: seq<HeaderItem>, n: nat): (r: int)
    requires n <= |items|
    ensures r >= -1
  {
    if n == 0 then -1 else NextIndex(items[n - 1], PrevDepth(items, n - 1), IndexAt(items, n - 1))
  }

  /** Lines 276-287: the pieces the loop over the vertical headers emits
      for the first `n` of them. */
  function BodyPieces(items: seq<HeaderItem>, n: nat, maxd: nat): seq<Piece>
    requires n <= |items|
  {
    if n == 0 then []
    else BodyPieces(items, n - 1, maxd) + StepPieces(items[n - 1], PrevDepth(items, n - 1), IndexAt(items, n - 1), maxd)
  }

  lemma {:induction false} RenderStep(it: HeaderItem, prev: int, di: int, maxd: nat, cells: seq<Datum>, hl: nat)
    requires di >= -1
    ensures var di' := NextIndex(it, prev, di);
      RenderPieces(StepPieces(it, prev, di, maxd), cells, hl)
      == (if it.depth <= prev then "</tr><tr>" else "") + Tag("th", it.props, it.header)
         + (if it.depth == maxd - 1 && di' != -1 then DisplayString(cells, hl, di') else "")
    ensures var di' := NextIndex(it, prev, di);
      DataRows(StepPieces(it, prev, di, maxd)) == if it.depth == maxd - 1 && di' != -1 then [di'] else []
  {
    var di' := NextIndex(it, prev, di);
    var a := if it.depth <= prev then [RowBreak] else [];
    var c := if it.depth == maxd - 1 && di' != -1 then [DataRow(di')] else [];
    assert StepPieces(it, prev, di, maxd) == a + [HeaderCell(it)] + c;
    RenderOne(HeaderCell(it), cells, hl);
    if a != [] {
      RenderOne(RowBreak, cells, hl);
    }
    if c != [] {
      RenderOne(DataRow(di'), cells, hl);
    }
    RenderAppend(a, [HeaderCell(it)], cells, hl);
    RenderAppend(a + [HeaderCell(it)], c, cells, hl);
    DataRowsAppend(a, [HeaderCell(it)]);
    DataRowsAppend(a + [HeaderCell(it)], c);
  }

  lemma {:induction false} RenderOne(p: Piece, cells: seq<Datum>, hl: nat)
    ensures RenderPieces([p], cells, hl) == RenderPiece(p, cells, hl)
    ensures DataRows([p]) == if p.DataRow? then [p.index] else []
    ensures RenderPieces([], cells, hl) == "" && DataRows([]) == []
  {
    assert [p][1..] == [];
    var x := RenderPiece(p, cells, hl);
    assert x + "" == x;
  }

  function RenderPiece(p: Piece, cells: seq<Datum>, hl: nat): string
  {
    match p
    case RowBreak => "</tr><tr>"
    case HeaderCell(it) => Tag("th", it.props, it.header)
    case DataRow(i) => DisplayString(cells, hl, i)
  }

  function RenderPieces(ps: seq<Piece>, cells: seq<Datum>, hl: nat): string
  {
    if ps == [] then "" else RenderPiece(ps[0], cells, hl) + RenderPieces(ps[1..], cells, hl)
  }

  /** The data rows, in the order they are shown. */
  function DataRows(ps: seq<Piece>): seq<nat>
  {
    if ps == [] then []
    else (if ps[0].DataRow? then [ps[0].index] else []) + DataRows(ps[1..])
  }

  lemma {:induction false} RenderPiecesAppend(a: seq<Piece>, b: seq<Piece>, cells: seq<Datum>, hl: nat)
    ensures RenderPieces(a + b, cells, hl) == RenderPieces(a, cells, hl) + RenderPieces(b, cells, hl)
    ensures DataRows(a + b) == DataRows(a) + DataRows(b)
  {
    RenderAppend(a, b, cells, hl);
    DataRowsAppend(a, b);
  }

  lemma {:induction false} RenderAppend(a: seq<Piece>, b: seq<Piece>, cells: seq<Datum>, hl: nat)
    ensures RenderPieces(a + b, cells, hl) == RenderPieces(a, cells, hl) + RenderPieces(b, cells, hl)
    decreases |a|
  {
    if a == [] {
      assert a + b == b;
    } else {
      assert (a + b)[0] == a[0] && (a + b)[1..] == a[1..] + b;
      RenderAppend(a[1..], b, cells, hl);
    }
  }

  lemma {:induction false} DataRowsAppend(a: seq<Piece>, b: seq<Piece>)
    ensures DataRows(a + b) == DataRows(a) + DataRows(b)
    decreases |a|
  {
    if a == [] {
      assert a + b == b;
    } else {
      assert (a + b)[0] == a[0] && (a + b)[1..] == a[1..] + b;
      DataRowsAppend(a[1..], b);
    }
  }

  /** `horizontal_length`: the final length of the horizontal headers, or 1. */
  function RowLength(table: Table): nat
  {
    var fl := FinalLength(Headers(table.root, H));
    if fl == 0 then 1 else fl
  }

  /** `max_vertical_depth`: the depth of the vertical headers (the `or 1`
      of line 264 never applies, since that depth is at least 1). */
  function MaxVerticalDepth(table: Table): nat
  {
    HeadersClean(table.root, V);
    HeadersDepth(Headers(table.root, V))
  }

  /** The pieces of the body of a table with vertical headers. */
  function VerticalPieces(table: Table): seq<Piece>
  {
    var items := PreOrder(Headers(table.root, V), 0, "rowspan");
    BodyPieces(items, |items|, MaxVerticalDepth(table))
  }

  /** Lines 274-289: the markup after the header rows: the rows of the
      vertical headers with their data, or a single data row when there is
      no vertical header. */
  function BodyPart(table: Table, cells: seq<Datum>): string
  {
    if Headers(table.root, V) == [] then "</tr><tr>" + DisplayString(cells, RowLength(table), 0) + "</tr>"
    else RenderPieces(VerticalPieces(table), cells, RowLength(table))
  }

  /** Whether the exception of the data iterator reaches `generate_html`:
      only when a data row is shown, which is always the case without
      vertical headers. */
  predicate DataNeeded(table: Table)
  {
    Headers(table.root, V) == [] || DataRows(VerticalPieces(table)) != []
  }

  /** The result of `generate_html()`: the markup, or the exception that
      `display_data` lets through from the data iterator. */
  function Html(table: Table): Result<string>
    requires Tagged(table.root, table.structure, 0)
  {
    var data := DataCells(table);
    if data.Err? && DataNeeded(table) then Err(data.fault)
    else Ok("<table>" + HeadPart(table.root) + BodyPart(table, if data.Ok? then data.value else []) + "</table>")
  }

  /** Lines 255-261: the loop over the horizontal headers. */
  method HorizontalCells(items: seq<HeaderItem>) returns (out: string)
    ensures out == HeaderCells(items, |items|)
  {
    out := "";
    var previousDepth: nat := 0;
    for i := 0 to |items|
      invariant out == HeaderCells(items, i)
      invariant previousDepth == PrevDepth(items, i)
    {
      var it := items[i];
      var piece := "";
      if it.depth != previousDepth {
        piece := "</tr><tr>";
        previousDepth := it.depth;
      }
      piece := piece + Tag("th", it.props, it.header);
      out := out + piece;
    }
  }

  /** Lines 246-261: `<table>`, then the corner cell and the horizontal
      header rows. */
  method HeaderRows(t: Tree, hh: seq<Header>, vh: seq<Header>) returns (out: string)
    requires hh == Headers(t, H) && vh == Headers(t, V) && WellFormed(hh) && WellFormed(vh)
    ensures out == "<table>" + HeadPart(t)
  {
    var head := "";
    if hh != [] {
      var corner := "";
      if vh != [] {
        corner := Corner(vh, hh);
      }
      var items := HorizontalHeaderIterator(t, hh, 0);
      var cells := HorizontalCells(items);
      head := "<tr>" + corner + cells;
    }
    out := "<table>" + head;
  }

  /** Lines 275-287: the loop over the vertical headers `items`. It fails
      with the exception of the data iterator as soon as a data row is due,
      and otherwise emits the pieces of `BodyPieces`. */
  method VerticalRows(table: Table, items: seq<HeaderItem>, horizontalLength: nat, maxVerticalDepth: nat)
    returns (r: Result<string>)
    requires Tagged(table.root, table.structure, 0)
    ensures r.Err? ==> DataCells(table).Err? && r.fault == DataCells(table).fault
    ensures r.Err? ==> DataRows(BodyPieces(items, |items|, maxVerticalDepth)) != []
    ensures r.Ok? ==> (DataCells(table).Err? ==> DataRows(BodyPieces(items, |items|, maxVerticalDepth)) == [])
    ensures r.Ok? ==> r.value == RenderPieces(BodyPieces(items, |items|, maxVerticalDepth),
      if DataCells(table).Ok? then DataCells(table).value else [], horizontalLength)
  {
    ghost var data := DataCells(table);
    ghost var cells := if data.Ok? then data.value else [];
    var out := "";
    var previousDepth: int := 0;
    var dataIndex: int := -1;
    for i := 0 to |items|
      invariant previousDepth == PrevDepth(items, i) && dataIndex == IndexAt(items, i)
      invariant data.Err? ==> DataRows(BodyPieces(items, i, maxVerticalDepth)) == []
      invariant out == RenderPieces(BodyPieces(items, i, maxVerticalDepth), cells, horizontalLength)
    {
      var it := items[i];
      var piece, next := VerticalStep(table, it, previousDepth, dataIndex, horizontalLength, maxVerticalDepth);
      BodyAppend(items, i, maxVerticalDepth, cells, horizontalLength);
      if piece.Err? {
        DataRowsGrow(items, i + 1, |items|, maxVerticalDepth);
        return Err(piece.fault);
      }
      out := out + piece.value;
      previousDepth := it.depth;
      dataIndex := next;
    }
    r := Ok(out);
  }

  /** One pass of the loop over the vertical headers (lines 276-287): the
      row break and the new `data_index` when the header does not go
      deeper than the previous one, the header cell, and `display_data`
      when the header is at the deepest level and a row has started. */
  method VerticalStep(table: Table, it: HeaderItem, previousDepth: int, dataIndex: int, horizontalLength: nat, maxVerticalDepth: nat)
    returns (r: Result<string>, nextIndex: int)
    requires Tagged(table.root, table.structure, 0) && dataIndex >= -1
    ensures nextIndex == NextIndex(it, previousDepth, dataIndex)
    ensures r.Err? ==> DataCells(table).Err? && r.fault == DataCells(table).fault
    ensures r.Err? ==> DataRows(StepPieces(it, previousDepth, dataIndex, maxVerticalDepth)) != []
    ensures r.Ok? ==> (DataCells(table).Err? ==> DataRows(StepPieces(it, previousDepth, dataIndex, maxVerticalDepth)) == [])
    ensures r.Ok? ==> r.value == RenderPieces(StepPieces(it, previousDepth, dataIndex, maxVerticalDepth),
      if DataCells(table).Ok? then DataCells(table).value else [], horizontalLength)
  {
    ghost var cells := if DataCells(table).Ok? then DataCells(table).value else [];
    RenderStep(it, previousDepth, dataIndex, maxVerticalDepth, cells, horizontalLength);
    var rowBreak := "";
    nextIndex := dataIndex;
    if it.depth <= previousDepth {
      rowBreak := "</tr><tr>";
      nextIndex := dataIndex + 1;
    }
    var rowData := "";
    if it.depth == maxVerticalDepth - 1 && nextIndex != -1 {
      var d := DisplayData(table, horizontalLength, nextIndex);
      if d.Err? {
        return Err(d.fault), nextIndex;
      }
      rowData := d.value;
    }
    r := Ok(rowBreak + Tag("th", it.props, it.header) + rowData);
  }

  /** The pieces of the first `i + 1` vertical headers: those of the first
      `i`, then the step of header `i`. */
  lemma {:induction false} BodyAppend(items: seq<HeaderItem>, i: nat, maxd: nat, cells: seq<Datum>, hl: nat)
    requires i < |items|
    ensures PrevDepth(items, i + 1) == items[i].depth
    ensures IndexAt(items, i + 1) == NextIndex(items[i], PrevDepth(items, i), IndexAt(items, i))
    ensures var step := StepPieces(items[i], PrevDepth(items, i), IndexAt(items, i), maxd);
      RenderPieces(BodyPieces(items, i + 1, maxd), cells, hl)
      == RenderPieces(BodyPieces(items, i, maxd), cells, hl) + RenderPieces(step, cells, hl)
      && DataRows(BodyPieces(items, i + 1, maxd)) == DataRows(BodyPieces(items, i, maxd)) + DataRows(step)
  {
    var step := StepPieces(items[i], PrevDepth(items, i), IndexAt(items, i), maxd);
    assert BodyPieces(items, i + 1, maxd) == BodyPieces(items, i, maxd) + step;
    RenderPiecesAppend(BodyPieces(items, i, maxd), step, cells, hl);
  }

  /** Data rows once due stay in the pieces of every longer prefix. */
  lemma {:induction false} DataRowsGrow(items: seq<HeaderItem>, m: nat, n: nat, maxd: nat)
    requires m <= n <= |items|
    ensures DataRows(BodyPieces(items, m, maxd)) != [] ==> DataRows(BodyPieces(items, n, maxd)) != []
    decreases n - m
  {
    if m < n {
      DataRowsGrow(items, m, n - 1, maxd);
      var before := BodyPieces(items, n - 1, maxd);
      var step := StepPieces(items[n - 1], PrevDepth(items, n - 1), IndexAt(items, n - 1), maxd);
      assert BodyPieces(items, n, maxd) == before + step;
      DataRowsAppend(before, step);
    }
  }

  /** `generate_html`: the header rows, then the vertical headers with
      their data rows, or a single data row when there are no vertical
      headers. */
  method GenerateHtml(table: Table) returns (r: Result<string>)
    requires Tagged(table.root, table.structure, 0)
    ensures r == Html(table)
  {
    var hh := GetHeaders(table.root, H);
    var vh := GetHeaders(table.root, V);
    HeadersClean(table.root, H);
    HeadersClean(table.root, V);
    var out := HeaderRows(table.root, hh, vh);
    var horizontalLength := GetFinalLength(hh);
    if horizontalLength == 0 {
      horizontalLength := 1;
    }
    var maxVerticalDepth := HeadersDepth(vh);
    if vh != [] {
      var items := VerticalHeaderIterator(table.root, vh, 0);
      VerticalIteratorOfHeaders(table.root, vh, 0);
      var body := VerticalRows(table, items, horizontalLength, maxVerticalDepth);
      if body.Err? {
        return Err(body.fault);
      }
      out := out + body.value;
    } else {
      var d := DisplayData(table, horizontalLength, 0);
      if d.Err? {
        return d;
      }
      out := out + ("</tr><tr>" + d.value + "</tr>");
    }
    out := out + "</table>";
    r := Ok(out);
  }
}
