/** The column headers of `generate_html`: the loop over the horizontal
    headers opens a new row whenever the depth changes, and as the
    breadth-first depths never decrease and grow one at a time, the header
    rows are exactly the levels of the header list, each holding its
    headers in order. */
module ColumnHeaders {
  import opened TableHeaders
  import opened Geometry
  import opened Traversal
  import opened Render
  import opened RenderFacts

  /** The `<th>` cells of `items`, in order, with no row break between
      them. */
  function ThCells(items: seq<HeaderItem>): string
  {
    if items == [] then ""
    else Tag("th", items[0].props, items[0].header) + ThCells(items[1..])
  }

  /** The items of `items` at depth `d`, in order. */
  function AtDepth(items: seq<HeaderItem>, d: nat): seq<HeaderItem>
  {
    if items == [] then []
    else (if items[0].depth == d then [items[0]] else []) + AtDepth(items[1..], d)
  }

  /** The column headers read level by level: the cells of the depth-`d`
      items, then, for each deeper level below `levels`, a row break
      followed by the cells of that level's items. */
  function RowsByDepth(items: seq<HeaderItem>, d: nat, levels: nat): string
    decreases levels - d
  {
    ThCells(AtDepth(items, d)) + (if d + 1 < levels then "</tr><tr>" + RowsByDepth(items, d + 1, levels) else "")
  }

  /** The loop of lines 255-261 run over `items` from `previous_depth ==
      prev`, written from the front. */
  function HeaderRun(items: seq<HeaderItem>, prev: nat): string
  {
    if items == [] then ""
    else HeaderPiece(items[0], prev) + HeaderRun(items[1..], items[0].depth)
  }

  /** The headers `k` levels below `hs`. */
  function Layer(hs: seq<Header>, k: nat): seq<Header>
  {
    if k == 0 then hs else Children(Layer(hs, k - 1))
  }

  /** The cells of `hs` at `depth`, then a row break and the rows of the
      children, as long as there are any. */
  function LevelRows(hs: seq<Header>, depth: nat): string
    decreases Size(hs)
  {
    var next := Children(hs);
    ChildrenSize(hs);
    ThCells(LevelItems(hs, depth, "colspan")) + (if next == [] then "" else "</tr><tr>" + LevelRows(next, depth + 1))
  }

  /** The column headers of base.py:255-261: the `<th>` cells of the
      depth-0 headers, then, for each further level down to the last, a
      `</tr><tr>` and the cells of the headers at that depth, in order. So
      the header rows are exactly the levels of `hs`. */
  lemma {:induction false} ColumnHeaderRows(hs: seq<Header>)
    ensures var items := BreadthFirst(hs, 0);
      HeaderCells(items, |items|) == RowsByDepth(items, 0, Levels(hs))
  {
    var items := BreadthFirst(hs, 0);
    HeaderCellsRun(items, |items|);
    assert items[|items|..] == [];
    LevelRowsOfBreadthFirst(hs, 0);
    if hs == [] {
      assert items == [];
    } else {
      LevelsOfLayer(hs, 0);
      LayerRows(hs, 0);
    }
  }

  /** The loop's first `n` steps, then the rest of the run, make the whole
      run from depth 0. */
  lemma {:induction false} HeaderCellsRun(items: seq<HeaderItem>, n: nat)
    requires n <= |items|
    ensures HeaderCells(items, n) + HeaderRun(items[n..], PrevDepth(items, n)) == HeaderRun(items, 0)
  {
    if n == 0 {
      RunOfAll(items);
    } else {
      var before := HeaderCells(items, n - 1);
      var piece := HeaderPiece(items[n - 1], PrevDepth(items, n - 1));
      var after := HeaderRun(items[n..], PrevDepth(items, n));
      calc {
        HeaderCells(items, n) + after;
        { HeaderCellsStep(items, n); }
        (before + piece) + after;
        { StringAssoc(before, piece, after); }
        before + (piece + after);
        { RunFrom(items, n - 1); }
        before + HeaderRun(items[n - 1..], PrevDepth(items, n - 1));
        { HeaderCellsRun(items, n - 1); }
        HeaderRun(items, 0);
      }
    }
  }

  lemma {:induction false} RunOfAll(items: seq<HeaderItem>)
    ensures HeaderCells(items, 0) + HeaderRun(items[0..], PrevDepth(items, 0)) == HeaderRun(items, 0)
  {
    assert items[0..] == items;
    EmptyLeft(HeaderRun(items, 0));
  }

  /** The run from position `n` is the loop's step `n`, then the run from
      `n + 1`. */
  lemma {:induction false} RunFrom(items: seq<HeaderItem>, n: nat)
    requires n < |items|
    ensures HeaderRun(items[n..], PrevDepth(items, n))
         == HeaderPiece(items[n], PrevDepth(items, n)) + HeaderRun(items[n + 1..], PrevDepth(items, n + 1))
  {
    assert items[n..][0] == items[n] && items[n..][1..] == items[n + 1..];
  }

  lemma {:induction false} HeaderRunAppend(a: seq<HeaderItem>, b: seq<HeaderItem>, prev: nat)
    ensures HeaderRun(a + b, prev) == HeaderRun(a, prev) + HeaderRun(b, if a == [] then prev else a[|a| - 1].depth)
    decreases a
  {
    if a == [] {
      assert a + b == b;
    } else {
      assert (a + b)[0] == a[0] && (a + b)[1..] == a[1..] + b;
      HeaderRunAppend(a[1..], b, a[0].depth);
      if a[1..] != [] {
        assert a[1..][|a[1..]| - 1] == a[|a| - 1];
      }
      StringAssoc(HeaderPiece(a[0], prev), HeaderRun(a[1..], a[0].depth),
        HeaderRun(b, a[|a| - 1].depth));
    }
  }

  /** Within one level no row break is opened. */
  lemma {:induction false} HeaderRunLevel(level: seq<HeaderItem>, d: nat)
    requires forall i :: 0 <= i < |level| ==> level[i].depth == d
    ensures HeaderRun(level, d) == ThCells(level)
  {
    if level != [] {
      assert forall i :: 0 <= i < |level[1..]| ==> level[1..][i].depth == level[i + 1].depth;
      HeaderRunLevel(level[1..], d);
      PieceAtDepth(level[0], d);
    }
  }

  /** A header at the current depth is its `<th>` cell alone. */
  lemma {:induction false} PieceAtDepth(it: HeaderItem, d: nat)
    requires it.depth == d
    ensures HeaderPiece(it, d) == Tag("th", it.props, it.header)
  {
    EmptyLeft(Tag("th", it.props, it.header));
  }

  /** A run whose first header changes the depth opens with a row break. */
  lemma {:induction false} HeaderRunBreak(items: seq<HeaderItem>, prev: nat)
    requires items != [] && items[0].depth != prev
    ensures HeaderRun(items, prev) == "</tr><tr>" + HeaderRun(items, items[0].depth)
  {
    var th := Tag("th", items[0].props, items[0].header);
    var rest := HeaderRun(items[1..], items[0].depth);
    PieceAtDepth(items[0], items[0].depth);
    StringAssoc("</tr><tr>", th, rest);
  }

  /** The breadth-first run, from its own start depth, is the rows level
      by level. */
  lemma {:induction false} LevelRowsOfBreadthFirst(hs: seq<Header>, depth: nat)
    ensures HeaderRun(BreadthFirst(hs, depth), depth) == LevelRows(hs, depth)
    decreases Size(hs)
  {
    ChildrenSize(hs);
    var level := LevelItems(hs, depth, "colspan");
    var next := Children(hs);
    HeaderRunLevel(level, depth);
    if next == [] {
      assert BreadthFirst(hs, depth) == level + [];
      assert level + [] == level;
      EmptyLeft(ThCells(level));
    } else {
      var rest := BreadthFirst(next, depth + 1);
      assert BreadthFirst(hs, depth) == level + rest;
      HeaderRunAppend(level, rest, depth);
      BreadthFirstDepths(next, depth + 1);
      HeaderRunBreak(rest, depth);
      LevelRowsOfBreadthFirst(next, depth + 1);
    }
  }

  /** The levels of the groups' children are one fewer than those of the
      list. */
  lemma {:induction false} LevelsOfChildren(hs: seq<Header>)
    ensures Levels(Children(hs)) == if hs == [] then 0 else Levels(hs) - 1
  {
    if hs != [] {
      LevelsOfChildren(hs[1..]);
      var own := if hs[0].Group? then hs[0].children else [];
      assert Children(hs) == own + Children(hs[1..]);
      LevelsAppend(own, Children(hs[1..]));
      if hs[0].Leaf? {
        assert Levels(own) == 0;
      }
    }
  }

  /** `k` levels down, `Levels(hs) - k` levels are left. */
  lemma {:induction false} LevelsOfLayer(hs: seq<Header>, k: nat)
    ensures Levels(Layer(hs, k)) == if k <= Levels(hs) then Levels(hs) - k else 0
    ensures Layer(hs, k) == [] <==> k >= Levels(hs)
  {
    if k > 0 {
      LevelsOfLayer(hs, k - 1);
      LevelsOfChildren(Layer(hs, k - 1));
    }
    LevelsEmpty(Layer(hs, k));
  }

  lemma {:induction false} LevelsEmpty(hs: seq<Header>)
    ensures Levels(hs) == 0 <==> hs == []
  {
  }

  /** The depth-`d` items of a breadth-first run from `depth` are the
      items of the headers `d - depth` levels down. */
  lemma {:induction false} AtDepthOfBreadthFirst(hs: seq<Header>, depth: nat, d: nat)
    requires depth <= d
    ensures AtDepth(BreadthFirst(hs, depth), d) == LevelItems(Layer(hs, d - depth), d, "colspan")
    decreases Size(hs), 1
  {
    ChildrenSize(hs);
    var level := LevelItems(hs, depth, "colspan");
    var next := Children(hs);
    var rest := if next == [] then [] else BreadthFirst(next, depth + 1);
    assert BreadthFirst(hs, depth) == level + rest;
    AtDepthAppend(level, rest, d);
    AtDepthLevel(level, depth, d);
    if d == depth {
      AtDepthOfStart(hs, depth);
    } else {
      AtDepthBelowStart(hs, depth, d);
    }
  }

  /** The part after the first level holds nothing at the start depth. */
  lemma {:induction false} AtDepthOfStart(hs: seq<Header>, depth: nat)
    ensures Children(hs) != [] ==> AtDepth(BreadthFirst(Children(hs), depth + 1), depth) == []
  {
    if Children(hs) != [] {
      BreadthFirstDepths(Children(hs), depth + 1);
      AtDepthAbove(BreadthFirst(Children(hs), depth + 1), depth + 1, depth);
    }
  }

  /** Below the start depth, the part after the first level holds the
      items of the layer. */
  lemma {:induction false} AtDepthBelowStart(hs: seq<Header>, depth: nat, d: nat)
    requires depth < d
    ensures var next := Children(hs);
      AtDepth(if next == [] then [] else BreadthFirst(next, depth + 1), d) == LevelItems(Layer(hs, d - depth), d, "colspan")
    decreases Size(hs), 0
  {
    ChildrenSize(hs);
    var next := Children(hs);
    LayerShift(hs, d - depth - 1);
    if next == [] {
      LayerOfNothing(d - depth - 1);
    } else {
      AtDepthOfBreadthFirst(next, depth + 1, d);
    }
  }

  lemma {:induction false} AtDepthAppend(a: seq<HeaderItem>, b: seq<HeaderItem>, d: nat)
    ensures AtDepth(a + b, d) == AtDepth(a, d) + AtDepth(b, d)
    decreases a
  {
    if a == [] {
      assert a + b == b;
    } else {
      assert (a + b)[0] == a[0] && (a + b)[1..] == a[1..] + b;
      AtDepthAppend(a[1..], b, d);
      var h := if a[0].depth == d then [a[0]] else [];
      assert AtDepth(a + b, d) == h + AtDepth(a[1..] + b, d);
      assert h + (AtDepth(a[1..], d) + AtDepth(b, d)) == (h + AtDepth(a[1..], d)) + AtDepth(b, d);
    }
  }

  /** A level at `depth` is all of it at `depth` and none of it elsewhere. */
  lemma {:induction false} AtDepthLevel(level: seq<HeaderItem>, depth: nat, d: nat)
    requires forall i :: 0 <= i < |level| ==> level[i].depth == depth
    ensures AtDepth(level, d) == if d == depth then level else []
  {
    if level != [] {
      assert forall i :: 0 <= i < |level[1..]| ==> level[1..][i].depth == level[i + 1].depth;
      AtDepthLevel(level[1..], depth, d);
      if d == depth {
        assert level == [level[0]] + level[1..];
      }
    }
  }

  /** Nothing of a run that stays below `lo` is at a shallower depth. */
  lemma {:induction false} AtDepthAbove(r: seq<HeaderItem>, lo: nat, d: nat)
    requires AllAtLeast(r, lo) && d < lo
    ensures AtDepth(r, d) == []
  {
    if r != [] {
      assert AllAtLeast(r[1..], lo) by {
        forall i | 0 <= i < |r[1..]| ensures r[1..][i].depth >= lo {
          assert r[1..][i] == r[i + 1];
        }
      }
      AtDepthAbove(r[1..], lo, d);
    }
  }

  lemma {:induction false} LayerShift(hs: seq<Header>, k: nat)
    ensures Layer(Children(hs), k) == Layer(hs, k + 1)
  {
    if k > 0 {
      LayerShift(hs, k - 1);
    }
  }

  lemma {:induction false} LayerOfNothing(k: nat)
    ensures Layer([], k) == []
  {
    if k > 0 {
      LayerOfNothing(k - 1);
    }
  }

  /** From level `k` on, the rows by layer are the rows by depth. */
  lemma {:induction false} LayerRows(hs: seq<Header>, k: nat)
    requires k < Levels(hs)
    ensures LevelRows(Layer(hs, k), k) == RowsByDepth(BreadthFirst(hs, 0), k, Levels(hs))
    decreases Levels(hs) - k
  {
    var items := BreadthFirst(hs, 0);
    AtDepthOfBreadthFirst(hs, 0, k);
    LevelsOfLayer(hs, k + 1);
    if k + 1 < Levels(hs) {
      LayerRows(hs, k + 1);
    }
  }
}
