/** The mixed-level tests: the data `(('a', (('aa', 11), ('ab', 12))),
    ('b', 2))` holds a scalar beside a nested dictionary. With the
    structures `(h, h)` and `(v, v)` the path of `b` is the one key
    `('b',)`, and `inner_generator` asks it for a second key, so as written
    `generate_html` raises `IndexError` for both. */
module MixedLevels {
  import opened TableData
  import opened TableHeaders
  import opened Geometry
  import opened Traversal
  import opened DataWalk
  import opened Render
  import opened Layout

  /** `(('a', (('aa', 11), ('ab', 12))), ('b', 2))`. */
  function MixedData(): seq<(string, Raw)>
  {
    [("a", Pairs([("aa", Atom(Int(11))), ("ab", Atom(Int(12)))])), ("b", Atom(Int(2)))]
  }

  /** The headers of the side both levels are on. */
  function MixedHeaderList(): seq<Header>
  {
    [Group("a", [Leaf("aa"), Leaf("ab")]), Leaf("b")]
  }

  lemma MixedShape()
    ensures RawFits(MixedData(), 2) && RawDistinct(MixedData())
  {
  }

  /** The tree `build_table_dict` makes of the data with both levels on
      one side. */
  function MixedTree(a: Axis): Tree
  {
    Node(a, [("a", Sub(Node(a, [("aa", Cell(Int(11))), ("ab", Cell(Int(12)))]))), ("b", Cell(Int(2)))])
  }

  lemma {:induction false} MixedBuild(a: Axis)
    ensures RawFits(MixedData(), 2)
    ensures Build(MixedData(), [a, a]) == Table(MixedTree(a), [a, a])
  {
    MixedShape();
    var inner := [("aa", Atom(Int(11))), ("ab", Atom(Int(12)))];
    var sub := Structured(inner, [a, a], 1);
    assert sub.entries[0] == ("aa", Cell(Int(11))) && sub.entries[1] == ("ab", Cell(Int(12)));
    assert sub.entries == [("aa", Cell(Int(11))), ("ab", Cell(Int(12)))];
    var t := Structured(MixedData(), [a, a], 0);
    assert t.entries[0] == ("a", Sub(sub)) && t.entries[1] == ("b", Cell(Int(2)));
    assert t.entries == MixedTree(a).entries;
  }

  /** Both levels on one side: the group `a` over `aa`, `ab`, then the bare
      key `b`; the other side has no header. */
  lemma {:induction false} MixedHeaders(a: Axis)
    ensures RawFits(MixedData(), 2)
    ensures Tagged(Build(MixedData(), [a, a]).root, [a, a], 0)
    ensures Headers(Build(MixedData(), [a, a]).root, a) == MixedHeaderList()
    ensures Headers(Build(MixedData(), [a, a]).root, Other(a)) == []
  {
    MixedShape();
    BuildTableDictShape(MixedData(), [a, a]);
    MixedBuild(a);
    var t := MixedTree(a);
    var sub := Node(a, [("aa", Cell(Int(11))), ("ab", Cell(Int(12)))]);
    var o := Other(a);
    assert Collect(sub, a, 1) == [Leaf("aa")];
    assert Collect(sub, a, 2) == [Leaf("aa"), Leaf("ab")];
    assert Collect(sub, o, 1) == [];
    assert Collect(sub, o, 2) == [];
    assert Collect(t, a, 1) == [Group("a", [Leaf("aa"), Leaf("ab")])];
    assert Collect(t, a, 2) == MixedHeaderList();
    assert Collect(t, o, 1) == [];
    assert Collect(t, o, 2) == [];
  }

  /** Three paths: two of two keys under `a`, and `('b',)` of one key. */
  lemma MixedPaths()
    ensures Paths(MixedHeaderList(), []) == [["a", "aa"], ["a", "ab"], ["b"]]
  {
    var hs := MixedHeaderList();
    var g := [Leaf("aa"), Leaf("ab")];
    assert g[1..] == [Leaf("ab")] && g[1..][1..] == [];
    assert ["a"] + ["aa"] == ["a", "aa"] && ["a"] + ["ab"] == ["a", "ab"] && [] + ["a"] == ["a"] && [] + ["b"] == ["b"];
    assert Paths(g[1..], ["a"]) == [["a", "ab"]] + [];
    assert Paths(g, ["a"]) == [["a", "aa"], ["a", "ab"]];
    assert hs[1..] == [Leaf("b")] && hs[1..][1..] == [];
    assert Paths(hs[1..], []) == [["b"]] + [];
    assert Paths(hs, []) == Paths(g, ["a"]) + Paths(hs[1..], []);
  }

  /** The walks along the three paths: `self['a']['aa']` is 11,
      `self['a']['ab']` is 12, and `self['b']` is the number 2, after which
      `('b',)[1]` raises `IndexError`. */
  lemma {:induction false} MixedWalks(a: Axis)
    ensures RawFits(MixedData(), 2)
    ensures Tagged(Build(MixedData(), [a, a]).root, [a, a], 0)
    ensures var root := Sub(Build(MixedData(), [a, a]).root);
      && (a == H ==> Walk(root, [a, a], 0, 0, 0, None, Some(["a", "aa"])) == Ok(Some(Int(11))))
      && (a == H ==> Walk(root, [a, a], 0, 0, 0, None, Some(["a", "ab"])) == Ok(Some(Int(12))))
      && (a == H ==> Walk(root, [a, a], 0, 0, 0, None, Some(["b"])) == Err(IndexError))
      && (a == V ==> Walk(root, [a, a], 0, 0, 0, Some(["a", "aa"]), None) == Ok(Some(Int(11))))
      && (a == V ==> Walk(root, [a, a], 0, 0, 0, Some(["a", "ab"]), None) == Ok(Some(Int(12))))
      && (a == V ==> Walk(root, [a, a], 0, 0, 0, Some(["b"]), None) == Err(IndexError))
  {
    MixedHeaders(a);
    MixedBuild(a);
    var t := MixedTree(a);
    var sub := Node(a, [("aa", Cell(Int(11))), ("ab", Cell(Int(12)))]);
    var s := [a, a];
    assert Find(t.entries, "a") == 0 && Find(t.entries, "b") == 1;
    assert Find(sub.entries, "aa") == 0 && Find(sub.entries, "ab") == 1;
    assert t.entries[0].1 == Sub(sub) && t.entries[1].1 == Cell(Int(2));
    if a == H {
      assert Walk(Sub(sub), s, 1, 1, 0, None, Some(["a", "aa"])) == Walk(Cell(Int(11)), s, 2, 2, 0, None, Some(["a", "aa"]));
      assert Walk(Sub(sub), s, 1, 1, 0, None, Some(["a", "ab"])) == Walk(Cell(Int(12)), s, 2, 2, 0, None, Some(["a", "ab"]));
      assert Walk(Sub(t), s, 0, 0, 0, None, Some(["a", "aa"])) == Walk(Sub(sub), s, 1, 1, 0, None, Some(["a", "aa"]));
      assert Walk(Sub(t), s, 0, 0, 0, None, Some(["a", "ab"])) == Walk(Sub(sub), s, 1, 1, 0, None, Some(["a", "ab"]));
      assert Walk(Sub(t), s, 0, 0, 0, None, Some(["b"])) == Walk(Cell(Int(2)), s, 1, 1, 0, None, Some(["b"]));
    } else {
      assert Walk(Sub(sub), s, 1, 0, 1, Some(["a", "aa"]), None) == Walk(Cell(Int(11)), s, 2, 0, 2, Some(["a", "aa"]), None);
      assert Walk(Sub(sub), s, 1, 0, 1, Some(["a", "ab"]), None) == Walk(Cell(Int(12)), s, 2, 0, 2, Some(["a", "ab"]), None);
      assert Walk(Sub(t), s, 0, 0, 0, Some(["a", "aa"]), None) == Walk(Sub(sub), s, 1, 0, 1, Some(["a", "aa"]), None);
      assert Walk(Sub(t), s, 0, 0, 0, Some(["a", "ab"]), None) == Walk(Sub(sub), s, 1, 0, 1, Some(["a", "ab"]), None);
      assert Walk(Sub(t), s, 0, 0, 0, Some(["b"]), None) == Walk(Cell(Int(2)), s, 1, 0, 1, Some(["b"]), None);
    }
  }

  /** The accessors of the side with both levels, one per path, and the
      single `None` of the side without headers. */
  lemma MixedAccessors()
    ensures Accessors(MixedHeaderList()) == [Some(["a", "aa"]), Some(["a", "ab"]), Some(["b"])]
    ensures Accessors([]) == [None]
  {
    MixedPaths();
  }

  /** The accessors of the two tables: three paths on the side with both
      levels, the single `None` on the other. */
  lemma MixedTableAccessors(a: Axis)
    ensures var table := Build(MixedData(), [a, a]);
      var ps := [Some(["a", "aa"]), Some(["a", "ab"]), Some(["b"])];
      && (a == H ==> HorizontalAccessors(table) == ps && VerticalAccessors(table) == [None])
      && (a == V ==> VerticalAccessors(table) == ps && HorizontalAccessors(table) == [None])
  {
    MixedHeaders(a);
    MixedAccessors();
  }

  /** The one row of yields of the `(h, h)` table: 11, 12, then the
      `IndexError` of `('b',)`. */
  lemma MixedHorizontalRows()
    ensures RawFits(MixedData(), 2)
    ensures Tagged(Build(MixedData(), [H, H]).root, [H, H], 0)
    ensures var table := Build(MixedData(), [H, H]);
      Rows(table, VerticalAccessors(table), HorizontalAccessors(table))
        == [[Ok(Some(Int(11))), Ok(Some(Int(12))), Err(IndexError)]]
  {
    var table := Build(MixedData(), [H, H]);
    MixedShape();
    BuildTableDictShape(MixedData(), [H, H]);
    MixedTableAccessors(H);
    MixedWalks(H);
    var has := [Some(["a", "aa"]), Some(["a", "ab"]), Some(["b"])];
    OneRow(table, has, Ok(Some(Int(11))), Ok(Some(Int(12))), Err(IndexError));
  }

  /** The three rows of yields of the `(v, v)` table: 11, 12, then the
      `IndexError` of `('b',)`. */
  lemma MixedVerticalRows()
    ensures RawFits(MixedData(), 2)
    ensures Tagged(Build(MixedData(), [V, V]).root, [V, V], 0)
    ensures var table := Build(MixedData(), [V, V]);
      Rows(table, VerticalAccessors(table), HorizontalAccessors(table))
        == [[Ok(Some(Int(11)))], [Ok(Some(Int(12)))], [Err(IndexError)]]
  {
    var table := Build(MixedData(), [V, V]);
    MixedShape();
    BuildTableDictShape(MixedData(), [V, V]);
    MixedTableAccessors(V);
    MixedWalks(V);
    var vas := [Some(["a", "aa"]), Some(["a", "ab"]), Some(["b"])];
    ThreeRows(table, vas, Ok(Some(Int(11))), Ok(Some(Int(12))), Err(IndexError));
  }

  /** Three horizontal accessors and no vertical one make one row. */
  lemma {:induction false} OneRow(table: Table, has: seq<Option<seq<string>>>, c0: Result<Datum>, c1: Result<Datum>, c2: Result<Datum>)
    requires Tagged(table.root, table.structure, 0) && |has| == 3
    requires Walk(Sub(table.root), table.structure, 0, 0, 0, None, has[0]) == c0
    requires Walk(Sub(table.root), table.structure, 0, 0, 0, None, has[1]) == c1
    requires Walk(Sub(table.root), table.structure, 0, 0, 0, None, has[2]) == c2
    ensures Rows(table, [None], has) == [[c0, c1, c2]]
  {
    var row := Row(table, None, has);
    assert row == [c0, c1, c2];
  }

  /** Three vertical accessors and no horizontal one make three rows. */
  lemma {:induction false} ThreeRows(table: Table, vas: seq<Option<seq<string>>>, c0: Result<Datum>, c1: Result<Datum>, c2: Result<Datum>)
    requires Tagged(table.root, table.structure, 0) && |vas| == 3
    requires Walk(Sub(table.root), table.structure, 0, 0, 0, vas[0], None) == c0
    requires Walk(Sub(table.root), table.structure, 0, 0, 0, vas[1], None) == c1
    requires Walk(Sub(table.root), table.structure, 0, 0, 0, vas[2], None) == c2
    ensures Rows(table, vas, [None]) == [[c0], [c1], [c2]]
  {
    var rows := Rows(table, vas, [None]);
    assert rows[0] == [c0] && rows[1] == [c1] && rows[2] == [c2];
  }

  /** As written, the data of the `(h, h)` table raises `IndexError` at its
      third cell, the one of `('b',)`. */
  lemma MixedHorizontalDataRaises()
    ensures RawFits(MixedData(), 2)
    ensures Tagged(Build(MixedData(), [H, H]).root, [H, H], 0)
    ensures DataCells(Build(MixedData(), [H, H])) == Err(IndexError)
  {
    var table := Build(MixedData(), [H, H]);
    MixedHorizontalRows();
    var rows := Rows(table, VerticalAccessors(table), HorizontalAccessors(table));
    assert rows[..0] == [] && rows[0][..2] == [Ok(Some(Int(11))), Ok(Some(Int(12)))];
    assert Flatten(rows[..0]) + rows[0][..2] == rows[0][..2];
    TwoOk(rows[0][..2]);
    FirstErrorRaises(rows, 0, 2);
  }

  /** As written, the data of the `(v, v)` table raises `IndexError` at its
      third row, the one of `('b',)`. */
  lemma MixedVerticalDataRaises()
    ensures RawFits(MixedData(), 2)
    ensures Tagged(Build(MixedData(), [V, V]).root, [V, V], 0)
    ensures DataCells(Build(MixedData(), [V, V])) == Err(IndexError)
  {
    var table := Build(MixedData(), [V, V]);
    MixedVerticalRows();
    var rows := Rows(table, VerticalAccessors(table), HorizontalAccessors(table));
    var two := [Ok(Some(Int(11))), Ok(Some(Int(12)))];
    FlattenTwo(rows[..2]);
    assert Flatten(rows[..2]) + rows[2][..0] == two;
    TwoOk(two);
    FirstErrorRaises(rows, 2, 0);
  }

  lemma {:induction false} FlattenTwo(rows: seq<seq<Result<Datum>>>)
    requires rows == [[Ok(Some(Int(11)))], [Ok(Some(Int(12)))]]
    ensures Flatten(rows) == [Ok(Some(Int(11))), Ok(Some(Int(12)))]
  {
    assert rows[1..] == [rows[1]] && rows[1..][1..] == [];
    assert Flatten(rows[1..]) == rows[1] + [];
  }

  /** The two good cells collect without an exception. */
  lemma {:induction false} TwoOk(rs: seq<Result<Datum>>)
    requires rs == [Ok(Some(Int(11))), Ok(Some(Int(12)))]
    ensures AllOk(rs) == Ok([Some(Int(11)), Some(Int(12))])
  {
    assert rs[1..] == [Ok(Some(Int(12)))] && rs[1..][1..] == [];
    assert AllOk(rs[1..][1..]) == Ok([]);
    assert AllOk(rs[1..]) == Ok([Some(Int(12))] + []);
    assert [Some(Int(12))] + [] == [Some(Int(12))];
    assert [Some(Int(11))] + [Some(Int(12))] == [Some(Int(11)), Some(Int(12))];
  }

  /** As written, `build_table_dict(data, (h, h)).generate_html()` raises
      `IndexError`: a table without vertical headers always shows its one
      data row. */
  lemma MixedHorizontalRaises()
    ensures RawFits(MixedData(), 2)
    ensures Tagged(Build(MixedData(), [H, H]).root, [H, H], 0)
    ensures Html(Build(MixedData(), [H, H])) == Err(IndexError)
  {
    MixedHorizontalDataRaises();
    MixedHeaders(H);
  }

  /** As written, `build_table_dict(data, (v, v)).generate_html()` raises
      `IndexError`: the row of `aa` already shows data row 0. */
  lemma MixedVerticalRaises()
    ensures RawFits(MixedData(), 2)
    ensures Tagged(Build(MixedData(), [V, V]).root, [V, V], 0)
    ensures Html(Build(MixedData(), [V, V])) == Err(IndexError)
  {
    var table := Build(MixedData(), [V, V]);
    MixedVerticalDataRaises();
    MixedHeaders(V);
    MixedRowShown();
    assert DataNeeded(table);
  }

  /** The vertical headers of the `(v, v)` table show a data row. */
  lemma MixedRowShown()
    ensures RawFits(MixedData(), 2)
    ensures DataRows(VerticalPieces(Build(MixedData(), [V, V]))) != []
  {
    var table := Build(MixedData(), [V, V]);
    MixedHeaders(V);
    MixedDepth();
    assert MaxVerticalDepth(table) == 2;
    MixedItemsShowRow();
  }

  /** The headers are two levels deep. */
  lemma MixedDepth()
    ensures HeadersDepth(MixedHeaderList()) == 2
  {
    var hs := MixedHeaderList();
    HeadersDepthIsLevels(hs);
    assert hs[1..] == [Leaf("b")] && hs[1..][1..] == [];
    assert Levels(hs) == 2;
  }

  /** The row of `aa`, the first leaf at the deepest level, is followed by
      data row 0. */
  lemma MixedItemsShowRow()
    ensures var items := PreOrder(MixedHeaderList(), 0, "rowspan");
      DataRows(BodyPieces(items, |items|, 2)) != []
  {
    var hs := MixedHeaderList();
    var items := PreOrder(hs, 0, "rowspan");
    var g := [Leaf("aa"), Leaf("ab")];
    assert g[1..] == [Leaf("ab")] && g[1..][1..] == [];
    assert PreOrder(g, 1, "rowspan") == [HeaderItem("aa", 1, []), HeaderItem("ab", 1, [])];
    assert items[0].depth == 0 && items[1] == HeaderItem("aa", 1, []) && |items| == 4;
    assert IndexAt(items, 1) == 0;
    var first := BodyPieces(items, 1, 2);
    var step := StepPieces(items[1], PrevDepth(items, 1), IndexAt(items, 1), 2);
    assert step == [HeaderCell(items[1]), DataRow(0)];
    assert BodyPieces(items, 2, 2) == first + step;
    DataRowsAppend(first, step);
    assert step[1..] == [DataRow(0)];
    assert DataRows(step) != [];
    DataRowsGrow(items, 2, 4, 2);
  }
}
