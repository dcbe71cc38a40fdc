/** The two level-1 tables of the test suite, `build_table_dict(data, (v,))`
    and `build_table_dict(data, (h,))` on `(('a', 1), ('b', 2), ('c', 3))`,
    rendered piece by piece. */
module Scenarios {
  import opened TableData
  import opened TableHeaders
  import opened Geometry
  import opened Traversal
  import opened DataWalk
  import opened Render
  import opened Findings

  /** A `<th>` for a bare key: `<th >k</th>`. */
  function KeyCell(k: string): string
  {
    Tag("th", [], k)
  }

  /** A row of the vertical level-1 table: a row break, the key's header
      and the cell of its value. */
  function VerticalRow(k: string, n: int): string
  {
    "</tr><tr>" + KeyCell(k) + Td(Some(Int(n)))
  }

  /** The walk of `inner_generator` along the one-key path `[k]`. */
  lemma {:induction false} Level1Walk(s: seq<Axis>, k: string, i: nat)
    requires |s| == 1 && i < 3 && k == ["a", "b", "c"][i]
    ensures RawFits(Level1Data(), 1)
    ensures Tagged(Build(Level1Data(), s).root, s, 0)
    ensures s[0] == V ==> Walk(Sub(Build(Level1Data(), s).root), s, 0, 0, 0, Some([k]), None) == Ok(Some(Int(i + 1)))
    ensures s[0] == H ==> Walk(Sub(Build(Level1Data(), s).root), s, 0, 0, 0, None, Some([k])) == Ok(Some(Int(i + 1)))
  {
    Level1Shape();
    BuildTableDictShape(Level1Data(), s);
    var e := Build(Level1Data(), s).root.entries;
    assert e == [("a", Cell(Int(1))), ("b", Cell(Int(2))), ("c", Cell(Int(3)))];
    assert e[1..] == [("b", Cell(Int(2))), ("c", Cell(Int(3)))];
    assert e[1..][1..] == [("c", Cell(Int(3)))];
    assert "a" != "b" && "a" != "c" && "b" != "c";
    assert Find(e[1..][1..], "c") == 0;
    assert Find(e[1..], "b") == 0;
    assert Find(e[1..], "c") == 1;
    assert Find(e, k) == i;
  }

  lemma {:induction false} Level1Flatten(rows: seq<seq<Result<Datum>>>)
    requires rows == [[Ok(Some(Int(1)))], [Ok(Some(Int(2)))], [Ok(Some(Int(3)))]]
          || rows == [[Ok(Some(Int(1))), Ok(Some(Int(2))), Ok(Some(Int(3)))]]
    ensures AllOk(Flatten(rows)) == Ok([Some(Int(1)), Some(Int(2)), Some(Int(3))])
  {
    var flat := [Ok(Some(Int(1))), Ok(Some(Int(2))), Ok(Some(Int(3)))];
    if |rows| == 3 {
      assert rows[1..][1..][1..] == [];
      assert rows[1..][1..] == [[Ok(Some(Int(3)))]];
      assert rows[1..] == [[Ok(Some(Int(2)))], [Ok(Some(Int(3)))]];
      assert Flatten(rows[1..][1..]) == [Ok(Some(Int(3)))];
      assert Flatten(rows[1..]) == [Ok(Some(Int(2))), Ok(Some(Int(3)))];
    } else {
      assert rows[1..] == [];
    }
    assert Flatten(rows) == flat;
    assert flat[1..] == [Ok(Some(Int(2))), Ok(Some(Int(3)))];
    assert flat[1..][1..] == [Ok(Some(Int(3)))];
    assert flat[1..][1..][1..] == [];
    assert AllOk(flat[1..][1..][1..]) == Ok([]);
    assert [Some(Int(3))] + [] == [Some(Int(3))];
    assert AllOk(flat[1..][1..]) == Ok([Some(Int(3))]);
    assert [Some(Int(2))] + [Some(Int(3))] == [Some(Int(2)), Some(Int(3))];
    assert AllOk(flat[1..]) == Ok([Some(Int(2)), Some(Int(3))]);
    assert [Some(Int(1))] + [Some(Int(2)), Some(Int(3))] == [Some(Int(1)), Some(Int(2)), Some(Int(3))];
  }

  /** Whatever the structure of length 1, the data reads `1`, `2`, `3`. */
  lemma {:induction false} Level1Cells(s: seq<Axis>)
    requires |s| == 1
    ensures RawFits(Level1Data(), 1)
    ensures Tagged(Build(Level1Data(), s).root, s, 0)
    ensures DataCells(Build(Level1Data(), s)) == Ok([Some(Int(1)), Some(Int(2)), Some(Int(3))])
  {
    Level1Shape();
    var table := Build(Level1Data(), s);
    BuildTableDictShape(Level1Data(), s);
    var rows := Rows(table, VerticalAccessors(table), HorizontalAccessors(table));
    if s[0] == V {
      Level1RowsVertical(s);
    } else {
      Level1RowsHorizontal(s);
    }
    Level1Flatten(rows);
  }

  /** With `(v,)`, three rows of one cell each. */
  lemma {:induction false} Level1RowsVertical(s: seq<Axis>)
    requires |s| == 1 && s[0] == V
    ensures RawFits(Level1Data(), 1)
    ensures Tagged(Build(Level1Data(), s).root, s, 0)
    ensures var table := Build(Level1Data(), s);
      Rows(table, VerticalAccessors(table), HorizontalAccessors(table))
      == [[Ok(Some(Int(1)))], [Ok(Some(Int(2)))], [Ok(Some(Int(3)))]]
  {
    Level1Shape();
    var table := Build(Level1Data(), s);
    BuildTableDictShape(Level1Data(), s);
    Level1Headers(s);
    ThreeLeaves();
    var own := Accessors([Leaf("a"), Leaf("b"), Leaf("c")]);
    assert own == [Some(["a"]), Some(["b"]), Some(["c"])];
    Level1Walk(s, "a", 0);
    Level1Walk(s, "b", 1);
    Level1Walk(s, "c", 2);
    var vas := VerticalAccessors(table);
    var has := HorizontalAccessors(table);
    assert vas == own && has == [None];
    assert Row(table, vas[0], has) == [Ok(Some(Int(1)))];
    assert Row(table, vas[1], has) == [Ok(Some(Int(2)))];
    assert Row(table, vas[2], has) == [Ok(Some(Int(3)))];
  }

  /** With `(h,)`, one row of three cells. */
  lemma {:induction false} Level1RowsHorizontal(s: seq<Axis>)
    requires |s| == 1 && s[0] == H
    ensures RawFits(Level1Data(), 1)
    ensures Tagged(Build(Level1Data(), s).root, s, 0)
    ensures var table := Build(Level1Data(), s);
      Rows(table, VerticalAccessors(table), HorizontalAccessors(table))
      == [[Ok(Some(Int(1))), Ok(Some(Int(2))), Ok(Some(Int(3)))]]
  {
    Level1Shape();
    var table := Build(Level1Data(), s);
    BuildTableDictShape(Level1Data(), s);
    Level1Headers(s);
    ThreeLeaves();
    var own := Accessors([Leaf("a"), Leaf("b"), Leaf("c")]);
    assert own == [Some(["a"]), Some(["b"]), Some(["c"])];
    Level1Walk(s, "a", 0);
    Level1Walk(s, "b", 1);
    Level1Walk(s, "c", 2);
    var vas := VerticalAccessors(table);
    var has := HorizontalAccessors(table);
    assert has == own && vas == [None];
    var row := Row(table, None, has);
    assert |row| == 3;
    assert row[0] == Ok(Some(Int(1)));
    assert row[1] == Ok(Some(Int(2)));
    assert row[2] == Ok(Some(Int(3)));
    assert row == [Ok(Some(Int(1))), Ok(Some(Int(2))), Ok(Some(Int(3)))];
  }

  /** `<td>1</td>`, `<td>2</td>`, `<td>3</td>`. */
  function ValueCell(n: int): string
  {
    Td(Some(Int(n)))
  }

  lemma {:induction false} DisplayOne(cells: seq<Datum>, i: nat)
    requires i < |cells|
    ensures DisplayString(cells, 1, i) == Td(cells[i])
  {
    assert 1 * i == i && 1 * (i + 1) == i + 1;
    PySliceFacts(cells, i, i + 1);
    var one := cells[i..i + 1];
    assert one[..0] == [] && one[0] == cells[i];
    assert TdCells(one) == TdCells([]) + Td(cells[i]);
    EmptyLeft(Td(cells[i]));
  }

  /** One step of the loop over the vertical headers of the `(v,)` table. */
  lemma {:induction false} Level1RowsUpTo(items: seq<HeaderItem>, cells: seq<Datum>, i: nat)
    requires items == [HeaderItem("a", 0, []), HeaderItem("b", 0, []), HeaderItem("c", 0, [])]
    requires cells == [Some(Int(1)), Some(Int(2)), Some(Int(3))] && i < 3
    ensures IndexAt(items, i) == i - 1
    ensures RenderPieces(BodyPieces(items, i + 1, 1), cells, 1)
         == RenderPieces(BodyPieces(items, i, 1), cells, 1) + VerticalRow(items[i].header, i + 1)
  {
    if i > 0 {
      Level1RowsUpTo(items, cells, i - 1);
    }
    var di := IndexAt(items, i);
    RenderStep(items[i], PrevDepth(items, i), di, 1, cells, 1);
    DisplayOne(cells, i);
    BodyAppend(items, i, 1, cells, 1);
  }

  /** The vertical headers of the `(v,)` table: three bare keys, all at
      depth 0; one header row deep and one data cell wide. */
  lemma Level1VerticalItems()
    ensures RawFits(Level1Data(), 1)
    ensures PreOrder(Headers(Build(Level1Data(), [V]).root, V), 0, "rowspan")
         == [HeaderItem("a", 0, []), HeaderItem("b", 0, []), HeaderItem("c", 0, [])]
    ensures Headers(Build(Level1Data(), [V]).root, V) != []
    ensures MaxVerticalDepth(Build(Level1Data(), [V])) == 1
    ensures RowLength(Build(Level1Data(), [V])) == 1
  {
    Level1Headers([V]);
    ThreeLeaves();
  }

  /** The rows after `<table>` in the `(v,)` table. */
  lemma Level1VerticalBody()
    ensures RawFits(Level1Data(), 1)
    ensures Tagged(Build(Level1Data(), [V]).root, [V], 0)
    ensures DataCells(Build(Level1Data(), [V])).Ok?
    ensures BodyPart(Build(Level1Data(), [V]), DataCells(Build(Level1Data(), [V])).value)
         == VerticalRow("a", 1) + VerticalRow("b", 2) + VerticalRow("c", 3)
  {
    var table := Build(Level1Data(), [V]);
    Level1Cells([V]);
    Level1VerticalItems();
    var cells := DataCells(table).value;
    var items := PreOrder(Headers(table.root, V), 0, "rowspan");
    assert BodyPart(table, cells) == RenderPieces(BodyPieces(items, 3, 1), cells, 1);
    Level1Rows(items, cells);
  }

  lemma {:induction false} Level1Rows(items: seq<HeaderItem>, cells: seq<Datum>)
    requires items == [HeaderItem("a", 0, []), HeaderItem("b", 0, []), HeaderItem("c", 0, [])]
    requires cells == [Some(Int(1)), Some(Int(2)), Some(Int(3))]
    ensures RenderPieces(BodyPieces(items, 3, 1), cells, 1)
         == VerticalRow("a", 1) + VerticalRow("b", 2) + VerticalRow("c", 3)
  {
    Level1RowsUpTo(items, cells, 0);
    Level1RowsUpTo(items, cells, 1);
    Level1RowsUpTo(items, cells, 2);
    EmptyLeft(VerticalRow("a", 1));
  }

  /** `build_table_dict(data, (v,)).generate_html()`: no header row, then
      one row per key, each opening with `</tr><tr>`, and no `</tr>` before
      `</table>`. */
  lemma Level1VerticalHtml()
    ensures RawFits(Level1Data(), 1)
    ensures Tagged(Build(Level1Data(), [V]).root, [V], 0)
    ensures Html(Build(Level1Data(), [V]))
         == Ok("<table>" + (VerticalRow("a", 1) + VerticalRow("b", 2) + VerticalRow("c", 3)) + "</table>")
  {
    Level1VerticalBody();
    Level1Headers([V]);
    assert HeadPart(Build(Level1Data(), [V]).root) == "";
    EmptyLeft("<table>");
  }

  /** The horizontal header cells of the `(h,)` table. */
  lemma {:induction false} Level1HeaderCells(items: seq<HeaderItem>)
    requires items == [HeaderItem("a", 0, []), HeaderItem("b", 0, []), HeaderItem("c", 0, [])]
    ensures HeaderCells(items, 3) == KeyCell("a") + KeyCell("b") + KeyCell("c")
  {
    EmptyLeft(KeyCell("a"));
    EmptyLeft(KeyCell("b"));
    EmptyLeft(KeyCell("c"));
    assert HeaderCells(items, 1) == KeyCell("a");
    assert HeaderCells(items, 2) == KeyCell("a") + KeyCell("b");
  }

  /** The data cells of the `(h,)` table. */
  lemma {:induction false} HorizontalData(cells: seq<Datum>)
    requires cells == [Some(Int(1)), Some(Int(2)), Some(Int(3))]
    ensures DisplayString(cells, 3, 0) == ValueCell(1) + ValueCell(2) + ValueCell(3)
  {
    assert 3 * 0 == 0 && 3 * (0 + 1) == 3;
    PySliceFacts(cells, 0, 3);
    assert cells[0..3] == cells;
    assert TdCells(cells) == TdCells(cells[..2]) + ValueCell(3);
    assert TdCells(cells[..2]) == TdCells(cells[..2][..1]) + ValueCell(2);
    assert TdCells(cells[..2][..1]) == TdCells([]) + ValueCell(1);
    assert cells[..2] == [Some(Int(1)), Some(Int(2))];
    assert cells[..2][..1] == [Some(Int(1))];
    assert cells[..2][..1][..0] == [];
    EmptyLeft(ValueCell(1));
  }

  /** `build_table_dict(data, (h,)).generate_html()`: a row of the three
      keys, then a row of the three values, closed by `</tr>`. */
  lemma Level1HorizontalHtml()
    ensures RawFits(Level1Data(), 1)
    ensures Tagged(Build(Level1Data(), [H]).root, [H], 0)
    ensures Html(Build(Level1Data(), [H]))
         == Ok("<table>" + ("<tr>" + (KeyCell("a") + KeyCell("b") + KeyCell("c")))
               + ("</tr><tr>" + (ValueCell(1) + ValueCell(2) + ValueCell(3)) + "</tr>") + "</table>")
  {
    var table := Build(Level1Data(), [H]);
    Level1Cells([H]);
    Level1HorizontalItems();
    var cells := DataCells(table).value;
    var items := BreadthFirst(Headers(table.root, H), 0);
    Level1HeaderCells(items);
    EmptyLeft("<tr>");
    assert HeadPart(table.root) == "<tr>" + (KeyCell("a") + KeyCell("b") + KeyCell("c"));
    HorizontalData(cells);
  }

  /** The horizontal headers of the `(h,)` table: three bare keys, all at
      depth 0, three cells wide; there is no vertical header. */
  lemma Level1HorizontalItems()
    ensures RawFits(Level1Data(), 1)
    ensures BreadthFirst(Headers(Build(Level1Data(), [H]).root, H), 0)
         == [HeaderItem("a", 0, []), HeaderItem("b", 0, []), HeaderItem("c", 0, [])]
    ensures Headers(Build(Level1Data(), [H]).root, H) != []
    ensures Headers(Build(Level1Data(), [H]).root, V) == []
    ensures RowLength(Build(Level1Data(), [H])) == 3
  {
    var table := Build(Level1Data(), [H]);
    Level1Headers([H]);
    ThreeLeaves();
    var hh := Headers(table.root, H);
    assert Children(hh[1..][1..]) == [];
    assert Children(hh[1..]) == [];
    assert Children(hh) == [];
    assert BreadthFirst(hh, 0) == LevelItems(hh, 0, "colspan");
  }
}
