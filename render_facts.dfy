/** What the markup of `generate_html` looks like: its frame, how it starts
    (with or without the top-left corner cell), the single data row of a
    table without vertical headers, and, for a table whose data is exactly
    as deep as its structure, one data row per vertical path, in order, each
    showing the data of its path. */
module RenderFacts {
  import opened TableData
  import opened TableHeaders
  import opened Geometry
  import opened Traversal
  import opened DataWalk
  import opened Decimal
  import opened Render

  /** The indices `0 .. n - 1`, in order. */
  function Range(n: nat): (r: seq<nat>)
    ensures |r| == n && forall i :: 0 <= i < n ==> r[i] == i
  {
    seq(n, i requires 0 <= i < n => i as nat)
  }

  /** The markup of a table is framed by `<table>` and `</table>`. */
  lemma {:induction false} HtmlFrame(table: Table)
    requires Tagged(table.root, table.structure, 0)
    requires Html(table).Ok?
    ensures |Html(table).value| >= 15
    ensures Html(table).value[..7] == "<table>"
    ensures Html(table).value[|Html(table).value| - 8..] == "</table>"
  {
    var cells := if DataCells(table).Ok? then DataCells(table).value else [];
    assert Html(table).value == "<table>" + HeadPart(table.root) + BodyPart(table, cells) + "</table>";
    Framed(HeadPart(table.root), BodyPart(table, cells));
  }

  lemma {:induction false} Framed(head: string, body: string)
    ensures var out := "<table>" + head + body + "</table>";
      |out| >= 15 && out[..7] == "<table>" && out[|out| - 8..] == "</table>"
  {
    var out := "<table>" + head + body + "</table>";
    assert out[..7] == ("<table>" + head + body)[..7] == ("<table>" + head)[..7];
    assert out[|out| - 8..] == "</table>";
  }

  /** The first horizontal header cell comes first among the header cells. */
  lemma {:induction false} HeaderCellsStart(items: seq<HeaderItem>, n: nat)
    requires 1 <= n <= |items|
    ensures |HeaderCells(items, n)| >= |HeaderPiece(items[0], 0)|
    ensures HeaderCells(items, n)[..|HeaderPiece(items[0], 0)|] == HeaderPiece(items[0], 0)
  {
    var first := HeaderPiece(items[0], 0);
    if n == 1 {
      HeaderCellsOne(items);
    } else {
      HeaderCellsStart(items, n - 1);
      HeaderCellsStep(items, n);
      var before := HeaderCells(items, n - 1);
      var piece := HeaderPiece(items[n - 1], PrevDepth(items, n - 1));
      PrefixAppend(before, piece, first);
    }
  }

  lemma {:induction false} HeaderCellsOne(items: seq<HeaderItem>)
    requires 1 <= |items|
    ensures HeaderCells(items, 1) == HeaderPiece(items[0], 0)
  {
    var first := HeaderPiece(items[0], 0);
    assert HeaderCells(items, 1) == "" + first;
    assert "" + first == first;
  }

  lemma {:induction false} HeaderCellsStep(items: seq<HeaderItem>, n: nat)
    requires 1 <= n <= |items|
    ensures HeaderCells(items, n) == HeaderCells(items, n - 1) + HeaderPiece(items[n - 1], PrevDepth(items, n - 1))
  {
  }

  /** A tag starts with its opening bracket, its name and a space. */
  lemma {:induction false} TagStart(name: string, props: seq<(string, nat)>, content: string)
    ensures var p := "<" + name + " ";
      |Tag(name, props, content)| >= |p| && Tag(name, props, content)[..|p|] == p
  {
    var p := "<" + name + " ";
    var rest := PropsString(props) + ">" + content + "</" + name + ">";
    assert Tag(name, props, content) == p + rest;
    assert (p + rest)[..|p|] == p;
  }

  lemma {:induction false} PrefixOfPrefix(a: string, p: string, q: string)
    requires |p| <= |a| && a[..|p|] == p
    requires |q| <= |p| && p[..|q|] == q
    ensures |q| <= |a| && a[..|q|] == q
  {
    assert a[..|q|] == a[..|p|][..|q|];
  }

  /** The first piece of a non-empty body is a row break when the first
      header is at depth 0. */
  lemma {:induction false} BodyPiecesStart(items: seq<HeaderItem>, n: nat, maxd: nat)
    requires 1 <= n <= |items| && items[0].depth == 0
    ensures BodyPieces(items, n, maxd) != [] && BodyPieces(items, n, maxd)[0] == RowBreak
  {
    if n > 1 {
      BodyPiecesStart(items, n - 1, maxd);
    }
  }

  lemma {:induction false} PrefixAppend(a: string, b: string, p: string)
    requires |p| <= |a| && a[..|p|] == p
    ensures |a + b| >= |p| && (a + b)[..|p|] == p
  {
    assert (a + b)[..|p|] == a[..|p|];
  }

  lemma {:induction false} PrefixPrepend(c: string, a: string, p: string)
    requires |p| <= |a| && a[..|p|] == p
    ensures |c + a| >= |c + p| && (c + a)[..|c + p|] == c + p
  {
    assert (c + a)[..|c + p|] == c + a[..|p|];
  }

  /** The markup, as concatenated pieces. */
  lemma {:induction false} HtmlParts(table: Table)
    requires Tagged(table.root, table.structure, 0)
    requires Html(table).Ok?
    ensures var cells := if DataCells(table).Ok? then DataCells(table).value else [];
      Html(table).value == "<table>" + (HeadPart(table.root) + (BodyPart(table, cells) + "</table>"))
  {
    var cells := if DataCells(table).Ok? then DataCells(table).value else [];
    Regroup("<table>", HeadPart(table.root), BodyPart(table, cells), "</table>");
  }

  lemma {:induction false} Regroup(a: string, b: string, c: string, d: string)
    ensures a + b + c + d == a + (b + (c + d))
  {
  }

  /** With headers on both sides the markup starts with the unclosed
      corner cell, as wide as the vertical headers have levels and as high
      as the horizontal ones. */
  lemma {:induction false} HtmlStartsWithCorner(table: Table)
    requires Tagged(table.root, table.structure, 0)
    requires Html(table).Ok? && Headers(table.root, H) != [] && Headers(table.root, V) != []
    ensures var p := "<table>" + ("<tr>" + CornerCell(Levels(Headers(table.root, V)), Levels(Headers(table.root, H))));
      |Html(table).value| >= |p| && Html(table).value[..|p|] == p
  {
    var cells := if DataCells(table).Ok? then DataCells(table).value else [];
    var head := HeadPart(table.root);
    var tail := BodyPart(table, cells) + "</table>";
    HtmlParts(table);
    HeadStart(table.root);
    var q := "<tr>" + CornerCell(Levels(Headers(table.root, V)), Levels(Headers(table.root, H)));
    PrefixAppend(head, tail, q);
    PrefixPrepend("<table>", head + tail, q);
  }

  /** With horizontal headers only, the first header cell comes right
      after the opening row, with no corner cell. */
  lemma {:induction false} HtmlStartsWithHeader(table: Table)
    requires Tagged(table.root, table.structure, 0)
    requires Html(table).Ok? && Headers(table.root, H) != [] && Headers(table.root, V) == []
    ensures var p := "<table>" + ("<tr>" + "<th ");
      |Html(table).value| >= |p| && Html(table).value[..|p|] == p
  {
    var cells := if DataCells(table).Ok? then DataCells(table).value else [];
    var head := HeadPart(table.root);
    var tail := BodyPart(table, cells) + "</table>";
    HtmlParts(table);
    HeadStart(table.root);
    PrefixAppend(head, tail, "<tr>" + "<th ");
    PrefixPrepend("<table>", head + tail, "<tr>" + "<th ");
  }

  /** Without horizontal headers, the markup closes an empty row first, so
      there is no corner cell. */
  lemma {:induction false} HtmlStartsWithRowBreak(table: Table)
    requires Tagged(table.root, table.structure, 0)
    requires Html(table).Ok? && Headers(table.root, H) == []
    ensures var p := "<table>" + "</tr><tr>";
      |Html(table).value| >= |p| && Html(table).value[..|p|] == p
  {
    var cells := if DataCells(table).Ok? then DataCells(table).value else [];
    var body := BodyPart(table, cells);
    HtmlParts(table);
    assert HeadPart(table.root) == "";
    assert "" + (body + "</table>") == body + "</table>";
    BodyStart(table, cells);
    PrefixAppend(body, "</table>", "</tr><tr>");
    PrefixPrepend("<table>", body + "</table>", "</tr><tr>");
  }

  /** The header part with horizontal headers: the corner cell when there
      are vertical headers, then the first header cell, at depth 0. */
  lemma {:induction false} HeadStart(t: Tree)
    requires Headers(t, H) != []
    ensures var hh := Headers(t, H); var vh := Headers(t, V);
      var p := "<tr>" + CornerCell(Levels(vh), Levels(hh));
      vh != [] ==> |HeadPart(t)| >= |p| && HeadPart(t)[..|p|] == p
    ensures var p := "<tr>" + "<th ";
      Headers(t, V) == [] ==> |HeadPart(t)| >= |p| && HeadPart(t)[..|p|] == p
  {
    if Headers(t, V) != [] {
      HeadStartCorner(t);
    } else {
      HeadStartBare(t);
    }
  }

  lemma {:induction false} HeadStartCorner(t: Tree)
    requires Headers(t, H) != [] && Headers(t, V) != []
    ensures var hh := Headers(t, H); var vh := Headers(t, V);
      var p := "<tr>" + CornerCell(Levels(vh), Levels(hh));
      |HeadPart(t)| >= |p| && HeadPart(t)[..|p|] == p
  {
    var hh := Headers(t, H);
    var vh := Headers(t, V);
    HeadersClean(t, H);
    HeadersClean(t, V);
    var items := BreadthFirst(hh, 0);
    var cells := HeaderCells(items, |items|);
    HeadersDepthIsLevels(vh);
    HeadersDepthIsLevels(hh);
    var p := "<tr>" + Corner(vh, hh);
    assert HeadPart(t) == p + cells;
    PrefixAppend(p, cells, p);
  }

  lemma {:induction false} HeadStartBare(t: Tree)
    requires Headers(t, H) != [] && Headers(t, V) == []
    ensures var p := "<tr>" + "<th ";
      |HeadPart(t)| >= |p| && HeadPart(t)[..|p|] == p
  {
    var hh := Headers(t, H);
    HeadersClean(t, H);
    var items := BreadthFirst(hh, 0);
    var cells := HeaderCells(items, |items|);
    assert HeadPart(t) == "<tr>" + "" + cells;
    assert "<tr>" + "" == "<tr>";
    FirstHeaderCell(hh);
    PrefixPrepend("<tr>", cells, "<th ");
  }

  /** The horizontal header cells start with a `<th ` cell, without a row
      break: the first header is at depth 0. */
  lemma {:induction false} FirstHeaderCell(hh: seq<Header>)
    requires hh != [] && WellFormed(hh)
    ensures var items := BreadthFirst(hh, 0);
      |HeaderCells(items, |items|)| >= 4 && HeaderCells(items, |items|)[..4] == "<th "
  {
    var items := BreadthFirst(hh, 0);
    BreadthFirstDepths(hh, 0);
    assert items != [] by {
      FinalLengthBounds(hh);
      PreOrderCounts(hh, 0, "colspan");
    }
    HeaderCellsStart(items, |items|);
    var first := HeaderPiece(items[0], 0);
    var tag := Tag("th", items[0].props, items[0].header);
    assert first == "" + tag;
    assert "" + tag == tag;
    TagStart("th", items[0].props, items[0].header);
    assert "<" + "th" + " " == "<th ";
    PrefixOfPrefix(HeaderCells(items, |items|), first, "<th ");
  }

  /** The body part starts with a row break: the first vertical header is
      at depth 0, which does not exceed the initial `previous_depth`. */
  lemma {:induction false} BodyStart(table: Table, cells: seq<Datum>)
    ensures |BodyPart(table, cells)| >= 9 && BodyPart(table, cells)[..9] == "</tr><tr>"
  {
    var vh := Headers(table.root, V);
    if vh != [] {
      HeadersClean(table.root, V);
      var items := PreOrder(vh, 0, "rowspan");
      PreOrderDepths(vh, 0, "rowspan");
      PreOrderCounts(vh, 0, "rowspan");
      FinalLengthBounds(vh);
      BodyPiecesStart(items, |items|, MaxVerticalDepth(table));
      var ps := VerticalPieces(table);
      assert RenderPieces(ps, cells, RowLength(table)) == "</tr><tr>" + RenderPieces(ps[1..], cells, RowLength(table));
    }
  }

  /** Without vertical headers every piece of data lands in one row: the
      data list is exactly as long as a data row. */
  lemma {:induction false} NoVerticalHeadersSingleRow(table: Table)
    requires Tagged(table.root, table.structure, 0)
    requires Headers(table.root, V) == [] && Html(table).Ok?
    ensures DataCells(table).Ok? && |DataCells(table).value| == RowLength(table)
    ensures BodyPart(table, DataCells(table).value) == "</tr><tr>" + TdCells(DataCells(table).value) + "</tr>"
  {
    assert DataNeeded(table);
    var cells := DataCells(table).value;
    DataCellsShape(table);
    AccessorsCount(Headers(table.root, V));
    AccessorsCount(Headers(table.root, H));
    var hl := RowLength(table);
    assert |cells| == 1 * hl;
    assert hl * 0 == 0 && hl * (0 + 1) == hl;
    PySliceFacts(cells, 0, hl);
    assert cells[0..hl] == cells;
    assert BodyPart(table, cells) == "</tr><tr>" + DisplayString(cells, hl, 0) + "</tr>";
    assert PySlice(cells, hl * 0, hl * (0 + 1)) == cells;
  }

  /** One step of the loop over the vertical headers, from a state where
      rows `0 .. k - 1` are shown and `data_index` is `k - 1`, or `k` when
      the previous header was a group (`mid`): a bare key shows row `k`, a
      group shows nothing. */
  lemma {:induction false} RowsStep(x: HeaderItem, prev: int, di: int, maxd: nat, k: nat, mid: bool)
    requires di == k - (if mid then 0 else 1) && di >= -1
    requires mid ==> x.depth == prev + 1
    requires !mid ==> x.depth <= prev
    requires if x.props == [] then x.depth + 1 == maxd else x.depth + 1 < maxd
    ensures DataRows(StepPieces(x, prev, di, maxd)) == if x.props == [] then [k] else []
    ensures NextIndex(x, prev, di) == k
  {
    RenderStep(x, prev, di, maxd, [], 1);
  }

  /** The data rows of the loop over vertical headers shaped like a
      pre-order whose bare keys all sit at depth `maxd - 1`: after `n`
      headers, rows `0 .. k - 1` have been shown, `k` being the number of
      bare keys among them, and `data_index` is the current row, whose data
      is still due when the last header is a group. */
  lemma {:induction false} RowsUpTo(items: seq<HeaderItem>, n: nat, maxd: nat)
    requires n <= |items|
    requires items != [] ==> items[0].depth == 0
    requires PreOrderSteps(items)
    requires forall i :: 0 <= i < |items| ==>
      if items[i].props == [] then items[i].depth + 1 == maxd else items[i].depth + 1 < maxd
    ensures DataRows(BodyPieces(items, n, maxd)) == Range(LeafCount(items[..n]))
    ensures IndexAt(items, n) == LeafCount(items[..n]) - (if n > 0 && items[n - 1].props != [] then 0 else 1)
  {
    if n > 0 {
      RowsUpTo(items, n - 1, maxd);
      var x := items[n - 1];
      var prev := PrevDepth(items, n - 1);
      var di := IndexAt(items, n - 1);
      var k := LeafCount(items[..n - 1]);
      var mid := n > 1 && items[n - 2].props != [];
      assert if x.props == [] then x.depth + 1 == maxd else x.depth + 1 < maxd;
      if n > 1 {
        assert 0 <= n - 2 < |items| - 1;
        assert if items[n - 2].props == [] then x.depth <= items[n - 2].depth else x.depth == items[n - 2].depth + 1;
      }
      RowsStep(x, prev, di, maxd, k, mid);
      LeafCountSnoc(items, n);
      var before := BodyPieces(items, n - 1, maxd);
      var step := StepPieces(x, prev, di, maxd);
      assert BodyPieces(items, n, maxd) == before + step;
      RenderPiecesAppend(before, step, [], 1);
      RangeSnoc(k);
    }
  }

  lemma {:induction false} RangeSnoc(k: nat)
    ensures Range(k + 1) == Range(k) + [k]
    ensures Range(k) + [] == Range(k)
  {
  }

  lemma {:induction false} LeafCountSnoc(items: seq<HeaderItem>, n: nat)
    requires 0 < n <= |items|
    ensures LeafCount(items[..n]) == LeafCount(items[..n - 1]) + if items[n - 1].props == [] then 1 else 0
  {
    assert items[..n] == items[..n - 1] + [items[n - 1]];
    LeafCountAppend(items[..n - 1], [items[n - 1]]);
    assert [items[n - 1]][1..] == [];
  }

  /** When the data iterator raises nothing, data row `i` shows, in order,
      the data that the `i`-th vertical path addresses against every
      horizontal path, and it has `horizontal_length` cells. */
  lemma {:induction false} RowsShowTheirData(table: Table)
    requires Tagged(table.root, table.structure, 0)
    requires DataCells(table).Ok?
    ensures forall i :: 0 <= i < |VerticalAccessors(table)| ==>
      AllOk(Row(table, VerticalAccessors(table)[i], HorizontalAccessors(table))).Ok?
      && |AllOk(Row(table, VerticalAccessors(table)[i], HorizontalAccessors(table))).value| == RowLength(table)
      && DisplayString(DataCells(table).value, RowLength(table), i)
         == TdCells(AllOk(Row(table, VerticalAccessors(table)[i], HorizontalAccessors(table))).value)
  {
    forall i | 0 <= i < |VerticalAccessors(table)|
      ensures AllOk(Row(table, VerticalAccessors(table)[i], HorizontalAccessors(table))).Ok?
      ensures |AllOk(Row(table, VerticalAccessors(table)[i], HorizontalAccessors(table))).value| == RowLength(table)
      ensures DisplayString(DataCells(table).value, RowLength(table), i)
         == TdCells(AllOk(Row(table, VerticalAccessors(table)[i], HorizontalAccessors(table))).value)
    {
      RowShown(table, i);
    }
  }

  /** Data row `i` of a table whose data iterator raises nothing. */
  lemma {:induction false} RowShown(table: Table, i: nat)
    requires Tagged(table.root, table.structure, 0)
    requires DataCells(table).Ok? && i < |VerticalAccessors(table)|
    ensures var row := AllOk(Row(table, VerticalAccessors(table)[i], HorizontalAccessors(table)));
      row.Ok? && |row.value| == RowLength(table)
      && DisplayString(DataCells(table).value, RowLength(table), i) == TdCells(row.value)
  {
    var has := HorizontalAccessors(table);
    var row := AllOk(Row(table, VerticalAccessors(table)[i], has));
    var cells := DataCells(table).value;
    var m := |has|;
    DataCellsOkIff(table);
    assert row.Ok?;
    DataCellsShape(table);
    assert 0 <= i * m && i * m + m <= |cells| && cells[i * m .. i * m + m] == row.value;
    AccessorsCount(Headers(table.root, H));
    assert m == RowLength(table);
    ChunkShown(cells, m, i);
  }

  /** `display_data(i)` shows chunk `i` of the data list. */
  lemma {:induction false} ChunkShown(cells: seq<Datum>, hl: nat, i: nat)
    requires 0 <= i * hl && i * hl + hl <= |cells|
    ensures |cells[i * hl .. i * hl + hl]| == hl
    ensures DisplayString(cells, hl, i) == TdCells(cells[i * hl .. i * hl + hl])
  {
    assert hl * i == i * hl;
    assert hl * (i + 1) == i * hl + hl;
    PySliceFacts(cells, hl * i, hl * (i + 1));
  }

  /** For a table whose data is exactly as deep as its structure, with
      distinct keys and vertical headers: the loop over the vertical
      headers shows the data rows `0, 1, ...`, one per vertical path, in
      order. */
  lemma {:induction false} UniformRowsInOrder(table: Table)
    requires Tagged(table.root, table.structure, 0) && ValidTree(table.root)
    requires Uniform(table.root, |table.structure|)
    requires Headers(table.root, V) != []
    ensures DataRows(VerticalPieces(table)) == Range(|VerticalAccessors(table)|)
  {
    var s := table.structure;
    var vh := Headers(table.root, V);
    HeadersClean(table.root, V);
    assert s[0..|s|] == s;
    UniformHeaders(table.root, s, 0, |s|, V);
    var c := CountAxis(s, V);
    PreOrderOfLeafDepth(vh, 0, "rowspan", c);
    HeadersDepthIsLevels(vh);
    assert MaxVerticalDepth(table) == c;
    LeafDepthRows(vh, c);
  }

  /** The loop over vertical headers whose bare keys all sit `c` levels
      down shows the data rows `0, 1, ...`, one per path, in order. */
  lemma {:induction false} LeafDepthRows(vh: seq<Header>, c: nat)
    requires WellFormed(vh) && vh != [] && LeafDepth(vh, c)
    ensures DataRows(BodyPieces(PreOrder(vh, 0, "rowspan"), |PreOrder(vh, 0, "rowspan")|, c)) == Range(|Accessors(vh)|)
  {
    var items := PreOrder(vh, 0, "rowspan");
    PreOrderShape(vh, 0, "rowspan");
    PreOrderDepths(vh, 0, "rowspan");
    PreOrderCounts(vh, 0, "rowspan");
    PreOrderOfLeafDepth(vh, 0, "rowspan", c);
    FinalLengthBounds(vh);
    AccessorsCount(vh);
    RowsUpTo(items, |items|, c);
    assert items[..|items|] == items;
  }

  /** A table whose data is exactly as deep as its structure, with
      distinct keys, renders without an exception. */
  lemma {:induction false} UniformHtmlOk(table: Table)
    requires Tagged(table.root, table.structure, 0) && ValidTree(table.root)
    requires Uniform(table.root, |table.structure|)
    ensures Html(table).Ok?
  {
    DataCellsOk(table);
  }
}
