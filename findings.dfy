/** The level-1 data of the test suite under `build_optimal_table_dict`.
    The candidates are always three levels long; for data one level deep
    they all score the same, the first, `(v, v, v)`, is kept, and rendering
    it raises `IndexError` because each vertical path holds one key where
    the structure asks for three. With candidates as long as the data is
    deep the choice is `(v,)`, the table of the vertical level-1 test. */
module Findings {
  import opened TableData
  import opened TableHeaders
  import opened Geometry
  import opened Traversal
  import opened DataWalk
  import opened Render
  import opened Layout
  import RenderFacts

  /** `(('a', 1), ('b', 2), ('c', 3))`. */
  function Level1Data(): seq<(string, Raw)>
  {
    [("a", Atom(Int(1))), ("b", Atom(Int(2))), ("c", Atom(Int(3)))]
  }

  lemma Level1Shape()
    ensures RawUniform(Level1Data(), 1) && RawDistinct(Level1Data())
    ensures forall room :: room >= 1 ==> RawFits(Level1Data(), room)
  {
  }

  /** Whatever the structure, the root keys `a`, `b`, `c` are the headers
      of the root's side, and the other side has none. */
  lemma {:induction false} Level1Headers(s: seq<Axis>)
    requires |s| >= 1
    ensures RawFits(Level1Data(), |s|)
    ensures Headers(Build(Level1Data(), s).root, s[0]) == [Leaf("a"), Leaf("b"), Leaf("c")]
    ensures Headers(Build(Level1Data(), s).root, Other(s[0])) == []
  {
    Level1Shape();
    var t := Build(Level1Data(), s).root;
    assert t.entries == [("a", Cell(Int(1))), ("b", Cell(Int(2))), ("c", Cell(Int(3)))];
    assert t.axis == s[0];
    var o := Other(s[0]);
    assert Collect(t, s[0], 1) == [Leaf("a")];
    assert Collect(t, s[0], 2) == [Leaf("a"), Leaf("b")];
    assert Collect(t, s[0], 3) == [Leaf("a"), Leaf("b"), Leaf("c")];
    assert Collect(t, o, 1) == [];
    assert Collect(t, o, 2) == [];
    assert Collect(t, o, 3) == [];
  }

  /** The three bare keys: three leaf headers, three paths of one key. */
  lemma ThreeLeaves()
    ensures FinalLength([Leaf("a"), Leaf("b"), Leaf("c")]) == 3
    ensures Paths([Leaf("a"), Leaf("b"), Leaf("c")], []) == [["a"], ["b"], ["c"]]
  {
    var hs := [Leaf("a"), Leaf("b"), Leaf("c")];
    assert hs[1..] == [Leaf("b"), Leaf("c")];
    assert hs[1..][1..] == [Leaf("c")];
    assert hs[1..][1..][1..] == [];
    assert [] + ["c"] == ["c"];
    assert [] + ["b"] == ["b"];
    assert [] + ["a"] == ["a"];
  }

  /** Every structure of length 3 scores 6 on the level-1 data. */
  lemma {:induction false} Level1Ugliness(s: seq<Axis>)
    requires |s| == 3
    ensures Ugliness(Build(Level1Data(), s)) == 6
  {
    Level1Headers(s);
    ThreeLeaves();
    var t := Build(Level1Data(), s).root;
    assert FinalLength(Headers(t, s[0])) == 3;
    assert FinalLength(Headers(t, Other(s[0]))) == 0;
    assert {Other(s[0]), s[0]} == {V, H};
  }

  /** As written, the optimal table of the level-1 data is the one built
      with `(v, v, v)`. */
  lemma Level1OptimalIsAllVertical()
    ensures RawFits(Level1Data(), 3)
    ensures BuildOptimalTableDict(Level1Data()) == Build(Level1Data(), [V, V, V])
  {
    Level1Shape();
    var d := Level1Data();
    OptimalIsLeastUgly(d);
    CandidatesInOrder();
    var k :| && 0 <= k < |Structures(3)|
             && BuildOptimalTableDict(d) == Build(d, Structures(3)[k])
             && (forall j :: 0 <= j < k ==> Ugliness(Build(d, Structures(3)[j])) > Ugliness(BuildOptimalTableDict(d)));
    Level1Ugliness(Structures(3)[0]);
    Level1Ugliness(Structures(3)[k]);
  }

  /** The data of the `(v, v, v)` table of the level-1 data raises
      `IndexError`: the first data cell walks `self['a']` to the number 1,
      then asks for the second key of the one-key path `('a',)`. */
  lemma Level1AllVerticalDataRaises()
    ensures RawFits(Level1Data(), 3)
    ensures Tagged(Build(Level1Data(), [V, V, V]).root, [V, V, V], 0)
    ensures DataCells(Build(Level1Data(), [V, V, V])) == Err(IndexError)
  {
    Level1Shape();
    var d := Level1Data();
    var s := [V, V, V];
    var table := Build(d, s);
    BuildTableDictShape(d, s);
    Level1Headers(s);
    ThreeLeaves();
    var vas := VerticalAccessors(table);
    var has := HorizontalAccessors(table);
    assert has == [None];
    assert vas[0] == Some(["a"]);
    var rows := Rows(table, vas, has);
    assert table.root.entries[0] == ("a", Cell(Int(1)));
    assert Find(table.root.entries, "a") == 0;
    assert rows[0][0] == Err(IndexError);
    assert rows[..0] == [];
    assert AllOk(Flatten(rows[..0]) + rows[0][..0]) == Ok([]);
    FirstErrorRaises(rows, 0, 0);
  }

  /** The loop over the vertical headers of that table shows data rows
      0, 1 and 2, so the data is needed. */
  lemma Level1AllVerticalRows()
    ensures RawFits(Level1Data(), 3)
    ensures DataRows(VerticalPieces(Build(Level1Data(), [V, V, V]))) == [0, 1, 2]
  {
    Level1AllVerticalItems();
    ThreeBareRows([HeaderItem("a", 0, []), HeaderItem("b", 0, []), HeaderItem("c", 0, [])]);
  }

  /** The vertical headers of the `(v, v, v)` table of the level-1 data:
      three bare keys at depth 0, one level deep. */
  lemma Level1AllVerticalItems()
    ensures RawFits(Level1Data(), 3)
    ensures PreOrder(Headers(Build(Level1Data(), [V, V, V]).root, V), 0, "rowspan")
         == [HeaderItem("a", 0, []), HeaderItem("b", 0, []), HeaderItem("c", 0, [])]
    ensures MaxVerticalDepth(Build(Level1Data(), [V, V, V])) == 1
  {
    Level1Shape();
    Level1Headers([V, V, V]);
    ThreeLeaves();
  }

  /** Three bare keys at depth 0 of a one-level list show data rows 0, 1
      and 2. */
  lemma {:induction false} ThreeBareRows(items: seq<HeaderItem>)
    requires items == [HeaderItem("a", 0, []), HeaderItem("b", 0, []), HeaderItem("c", 0, [])]
    ensures DataRows(BodyPieces(items, 3, 1)) == [0, 1, 2]
  {
    RenderFacts.RowsUpTo(items, 3, 1);
    assert items[..3] == items;
    assert items[1..] == [HeaderItem("b", 0, []), HeaderItem("c", 0, [])];
    assert items[1..][1..] == [HeaderItem("c", 0, [])];
    assert items[1..][1..][1..] == [];
    assert LeafCount(items[1..][1..]) == 1;
    assert LeafCount(items[1..]) == 2;
    assert LeafCount(items) == 3;
    assert RenderFacts.Range(3) == [0, 1, 2];
  }

  /** As written, the optimal table of the level-1 data raises
      `IndexError` when rendered. */
  lemma Level1OptimalRaises()
    ensures RawFits(Level1Data(), 3)
    ensures Tagged(BuildOptimalTableDict(Level1Data()).root, BuildOptimalTableDict(Level1Data()).structure, 0)
    ensures Html(BuildOptimalTableDict(Level1Data())) == Err(IndexError)
  {
    Level1OptimalIsAllVertical();
    Level1AllVerticalDataRaises();
    Level1AllVerticalRows();
    var table := Build(Level1Data(), [V, V, V]);
    Level1Headers([V, V, V]);
    assert Headers(table.root, V) != [];
    assert DataNeeded(table);
  }

  /** Corrected: with candidates as long as the data is deep, the level-1
      data gets the structure `(v,)` and renders without an exception. */
  lemma Level1OptimalOfDepth()
    ensures RawFits(Level1Data(), 1)
    ensures BuildOptimalOfDepth(Level1Data()) == Build(Level1Data(), [V])
    ensures Html(BuildOptimalOfDepth(Level1Data())).Ok?
  {
    Level1OfDepthIsVertical();
    Level1Shape();
    OptimalOfDepthRenders(Level1Data(), 1);
  }

  /** The level-1 data is one level deep, and its one-level candidates
      `(v,)` and `(h,)` tie, so `(v,)` is kept. */
  lemma Level1OfDepthIsVertical()
    ensures RawFits(Level1Data(), 1)
    ensures BuildOptimalOfDepth(Level1Data()) == Build(Level1Data(), [V])
  {
    Level1Shape();
    var d := Level1Data();
    RawDepthUniform(d, 1);
    OptimalOfDepthIsLeastUgly(d);
    var s :| |s| == 1 && s[0] == V && RawFits(d, |s|) && BuildOptimalOfDepth(d) == Build(d, s);
    assert s == [V];
  }
}
