/** `_data_iterator`: the key paths of both sides (`_accessors_iterator`)
    and the walk of `inner_generator`, which descends from the root taking,
    at nesting level `i`, the next key of the horizontal or of the vertical
    path according to `structure[i]`. */
module DataWalk {
  import opened TableData
  import opened TableHeaders
  import opened Geometry
  import opened Traversal

  /** The Python exceptions `inner_generator` lets through: `IndexError` (a
      path runs out of keys before the structure does) and `TypeError`
      (subscripting the `None` accessor, or a terminal value). */
  datatype Fault = IndexError | TypeError

  datatype Result<T> = Ok(value: T) | Err(fault: Fault)

  /** A piece of data as `inner_generator` returns it: a terminal value, or
      `None` when a key is missing (the caught `KeyError`). */
  type Datum = Option<Scalar>

  /** Dictionary lookup: the position of key `k`, or `|entries|` when `k` is
      not a key. */
  function Find(entries: seq<(string, Value)>, k: string): (r: nat)
    ensures r <= |entries|
    ensures r < |entries| ==> entries[r].0 == k
    ensures forall j :: 0 <= j < r ==> entries[j].0 != k
  {
    if entries == [] then 0
    else if entries[0].0 == k then 0
    else 1 + Find(entries[1..], k)
  }

  /** The number of levels of `s` of class `side`. */
  function CountAxis(s: seq<Axis>, side: Axis): nat
  {
    if s == [] then 0 else (if s[0] == side then 1 else 0) + CountAxis(s[1..], side)
  }

  lemma {:induction false} CountAxisAppend(a: seq<Axis>, b: seq<Axis>, side: Axis)
    ensures CountAxis(a + b, side) == CountAxis(a, side) + CountAxis(b, side)
  {
    if a == [] {
      assert a + b == b;
    } else {
      assert (a + b)[0] == a[0] && (a + b)[1..] == a[1..] + b;
      CountAxisAppend(a[1..], b, side);
    }
  }

  /** Every level is of one of the two classes. */
  lemma {:induction false} CountAxisTotal(s: seq<Axis>)
    ensures CountAxis(s, V) + CountAxis(s, H) == |s|
  {
    if s != [] {
      CountAxisTotal(s[1..]);
    }
  }

  /** The loop of `inner_generator` from nesting level `i` on, with the
      current value `v` and the cursors `x` (horizontal) and `y` (vertical).
      At each level, in the order Python evaluates `v[accessor[cursor]]`:
      the `None` accessor raises `TypeError`, an exhausted path
      `IndexError`, a terminal value `TypeError`; a missing key ends the
      walk with `None`. */
  function Walk(v: Value, s: seq<Axis>, i: nat, x: nat, y: nat, va: Option<seq<string>>, ha: Option<seq<string>>): Result<Datum>
    requires i <= |s| && (v.Sub? ==> Tagged(v.tree, s, i))
    decreases |s| - i
  {
    if i == |s| then Ok(Some(v.cell))
    else
      var acc := if s[i] == H then ha else va;
      var cur := if s[i] == H then x else y;
      if acc.None? then Err(TypeError)
      else if cur >= |acc.value| then Err(IndexError)
      else if v.Cell? then Err(TypeError)
      else
        var j := Find(v.tree.entries, acc.value[cur]);
        if j == |v.tree.entries| then Ok(None)
        else if s[i] == H then Walk(v.tree.entries[j].1, s, i + 1, x + 1, y, va, ha)
        else Walk(v.tree.entries[j].1, s, i + 1, x, y + 1, va, ha)
  }

  /** `inner_generator(vertical_accessor, horizontal_accessor)`: the loop
      over the structure, moving `v` one level down and advancing the cursor
      of the level's side, and leaving with `None` on a missing key. */
  method InnerGenerator(table: Table, va: Option<seq<string>>, ha: Option<seq<string>>) returns (r: Result<Datum>)
    requires Tagged(table.root, table.structure, 0)
    ensures r == Walk(Sub(table.root), table.structure, 0, 0, 0, va, ha)
  {
    var s := table.structure;
    var v := Sub(table.root);
    var x, y := 0, 0;
    for i := 0 to |s|
      invariant v.Sub? ==> Tagged(v.tree, s, i)
      invariant Walk(Sub(table.root), s, 0, 0, 0, va, ha) == Walk(v, s, i, x, y, va, ha)
    {
      if s[i] == H {
        if ha.None? {
          return Err(TypeError);
        }
        if x >= |ha.value| {
          return Err(IndexError);
        }
        if v.Cell? {
          return Err(TypeError);
        }
        var j := Find(v.tree.entries, ha.value[x]);
        if j == |v.tree.entries| {
          return Ok(None);
        }
        v := v.tree.entries[j].1;
        x := x + 1;
      } else {
        if va.None? {
          return Err(TypeError);
        }
        if y >= |va.value| {
          return Err(IndexError);
        }
        if v.Cell? {
          return Err(TypeError);
        }
        var j := Find(v.tree.entries, va.value[y]);
        if j == |v.tree.entries| {
          return Ok(None);
        }
        v := v.tree.entries[j].1;
        y := y + 1;
      }
    }
    return Ok(Some(v.cell));
  }

  /** `list(self._accessors_iterator(headers)) or (None,)`. */
  function Accessors(hs: seq<Header>): seq<Option<seq<string>>>
  {
    var ps := Paths(hs, []);
    if ps == [] then [None] else seq(|ps|, i requires 0 <= i < |ps| => Some(ps[i]))
  }

  /** One vertical accessor against every horizontal accessor. */
  function Row(table: Table, va: Option<seq<string>>, has: seq<Option<seq<string>>>): seq<Result<Datum>>
    requires Tagged(table.root, table.structure, 0)
  {
    seq(|has|, j requires 0 <= j < |has| => Walk(Sub(table.root), table.structure, 0, 0, 0, va, has[j]))
  }

  /** The rows of yields of `_data_iterator`: vertical accessors in the
      outer loop, horizontal accessors in the inner loop. */
  function Rows(table: Table, vas: seq<Option<seq<string>>>, has: seq<Option<seq<string>>>): seq<seq<Result<Datum>>>
    requires Tagged(table.root, table.structure, 0)
  {
    seq(|vas|, i requires 0 <= i < |vas| => Row(table, vas[i], has))
  }

  function Flatten<T>(rows: seq<seq<T>>): seq<T>
  {
    if rows == [] then [] else rows[0] + Flatten(rows[1..])
  }

  /** `list(...)` over the yields: the first exception propagates. */
  function AllOk(rs: seq<Result<Datum>>): Result<seq<Datum>>
  {
    if rs == [] then Ok([])
    else if rs[0].Err? then Err(rs[0].fault)
    else match AllOk(rs[1..])
      case Err(f) => Err(f)
      case Ok(rest) => Ok([rs[0].value] + rest)
  }

  /** `list(self._data_iterator())`. */
  function DataCells(table: Table): Result<seq<Datum>>
    requires Tagged(table.root, table.structure, 0)
  {
    AllOk(Flatten(Rows(table, VerticalAccessors(table), HorizontalAccessors(table))))
  }

  lemma {:induction false} AllOkAppend(a: seq<Result<Datum>>, b: seq<Result<Datum>>)
    ensures AllOk(a).Err? ==> AllOk(a + b) == AllOk(a)
    ensures AllOk(a).Ok? && AllOk(b).Err? ==> AllOk(a + b) == AllOk(b)
    ensures AllOk(a).Ok? && AllOk(b).Ok? ==> AllOk(a + b) == Ok(AllOk(a).value + AllOk(b).value)
  {
    if a == [] {
      assert a + b == b;
      assert AllOk(a) == Ok([]);
      if AllOk(b).Ok? {
        assert [] + AllOk(b).value == AllOk(b).value;
      }
    } else {
      assert (a + b)[0] == a[0] && (a + b)[1..] == a[1..] + b;
      AllOkAppend(a[1..], b);
      if a[0].Ok? && AllOk(a[1..]).Ok? && AllOk(b).Ok? {
        assert [a[0].value] + (AllOk(a[1..]).value + AllOk(b).value)
            == ([a[0].value] + AllOk(a[1..]).value) + AllOk(b).value;
      }
    }
  }

  lemma {:induction false} FlattenAppend<T>(a: seq<seq<T>>, b: seq<seq<T>>)
    ensures Flatten(a + b) == Flatten(a) + Flatten(b)
  {
    if a == [] {
      assert a + b == b;
    } else {
      assert (a + b)[0] == a[0] && (a + b)[1..] == a[1..] + b;
      FlattenAppend(a[1..], b);
    }
  }

  /** The items before item `b` of row `a`, that item, and the items after
      it. */
  lemma {:induction false} FlattenSplit<T>(rows: seq<seq<T>>, a: nat, b: nat)
    requires a < |rows| && b < |rows[a]|
    ensures Flatten(rows) == (Flatten(rows[..a]) + rows[a][..b]) + [rows[a][b]] + (rows[a][b + 1..] + Flatten(rows[a + 1..]))
  {
    assert rows == rows[..a] + ([rows[a]] + rows[a + 1..]);
    FlattenAppend(rows[..a], [rows[a]] + rows[a + 1..]);
    assert Flatten([rows[a]] + rows[a + 1..]) == rows[a] + Flatten(rows[a + 1..]);
    assert rows[a] == rows[a][..b] + [rows[a][b]] + rows[a][b + 1..];
  }

  lemma {:induction false} FlattenPrefix<T>(rows: seq<seq<T>>, a: nat)
    requires a < |rows|
    ensures Flatten(rows[..a + 1]) == Flatten(rows[..a]) + rows[a]
  {
    assert rows[..a + 1] == rows[..a] + [rows[a]];
    FlattenAppend(rows[..a], [rows[a]]);
    assert Flatten([rows[a]]) == rows[a] + Flatten([]);
  }

  /** One more yield that goes through extends the list. */
  lemma {:induction false} CellGoesThrough(pre: seq<Result<Datum>>, row: seq<Result<Datum>>, b: nat)
    requires b < |row| && row[b].Ok? && AllOk(pre + row[..b]).Ok?
    ensures AllOk(pre + row[..b + 1]) == Ok(AllOk(pre + row[..b]).value + [row[b].value])
  {
    assert pre + row[..b + 1] == (pre + row[..b]) + [row[b]];
    var x := row[b];
    assert [x][1..] == [];
    assert AllOk([x][1..]) == Ok([]);
    assert [x.value] + [] == [x.value];
    assert AllOk([x]) == Ok([x.value]);
    AllOkAppend(pre + row[..b], [row[b]]);
  }

  /** The first exception of the list raises, whatever follows it. */
  lemma {:induction false} FirstErrorRaises(rows: seq<seq<Result<Datum>>>, a: nat, b: nat)
    requires a < |rows| && b < |rows[a]| && rows[a][b].Err?
    requires AllOk(Flatten(rows[..a]) + rows[a][..b]).Ok?
    ensures AllOk(Flatten(rows)) == Err(rows[a][b].fault)
  {
    FlattenSplit(rows, a, b);
    var pre := Flatten(rows[..a]) + rows[a][..b];
    AllOkAppend(pre, [rows[a][b]]);
    AllOkAppend(pre + [rows[a][b]], rows[a][b + 1..] + Flatten(rows[a + 1..]));
  }

  /** `list(self._data_iterator())`, with its two nested loops calling
      `inner_generator`. */
  method DataIterator(table: Table) returns (r: Result<seq<Datum>>)
    requires Tagged(table.root, table.structure, 0)
    ensures r == DataCells(table)
  {
    var vhs := GetHeaders(table.root, V);
    var hhs := GetHeaders(table.root, H);
    var vas := Accessors(vhs);
    var has := Accessors(hhs);
    ghost var rows := Rows(table, vas, has);
    var cells: seq<Datum> := [];
    for a := 0 to |vas|
      invariant AllOk(Flatten(rows[..a])) == Ok(cells)
    {
      ghost var done := Flatten(rows[..a]);
      ghost var row := rows[a];
      assert done + row[..0] == done;
      for b := 0 to |has|
        invariant AllOk(done + row[..b]) == Ok(cells)
      {
        var c := InnerGenerator(table, vas[a], has[b]);
        assert c == row[b];
        if c.Err? {
          FirstErrorRaises(rows, a, b);
          return Err(c.fault);
        }
        CellGoesThrough(done, row, b);
        cells := cells + [c.value];
      }
      assert row[..|has|] == row;
      FlattenPrefix(rows, a);
    }
    assert rows[..|vas|] == rows;
    r := Ok(cells);
  }

  /** `list(...)` goes through exactly when every yield does, and then
      keeps every value in order. */
  lemma {:induction false} AllOkFacts(rs: seq<Result<Datum>>)
    ensures AllOk(rs).Ok? <==> forall k :: 0 <= k < |rs| ==> rs[k].Ok?
    ensures AllOk(rs).Ok? ==> |AllOk(rs).value| == |rs|
    ensures AllOk(rs).Ok? ==> forall k :: 0 <= k < |rs| ==> rs[k] == Ok(AllOk(rs).value[k])
  {
    if rs != [] {
      AllOkFacts(rs[1..]);
      if !rs[0].Ok? {
        assert !(forall k :: 0 <= k < |rs| ==> rs[k].Ok?) by { assert !rs[0].Ok?; }
      } else {
        assert forall k :: 1 <= k < |rs| ==> rs[k] == rs[1..][k - 1];
      }
    }
  }

  lemma {:induction false} MulSucc(n: nat, m: nat)
    requires n > 0
    ensures n * m == m + (n - 1) * m
  {
  }

  lemma {:induction false} ChunkBounds(i: nat, n: nat, m: nat)
    requires i < n
    ensures 0 <= i * m && i * m + m <= n * m
  {
    if i > 0 {
      ChunkBounds(i - 1, n - 1, m);
      MulSucc(i, m);
      MulSucc(n, m);
    }
  }

  /** The list of all yields goes through exactly when every row does. */
  lemma {:induction false} AllOkRowsOk(rows: seq<seq<Result<Datum>>>)
    ensures AllOk(Flatten(rows)).Ok? <==> forall i :: 0 <= i < |rows| ==> AllOk(rows[i]).Ok?
  {
    if rows != [] {
      var rest := rows[1..];
      AllOkRowsOk(rest);
      AllOkAppend(rows[0], Flatten(rest));
      assert forall i :: 1 <= i < |rows| ==> rows[i] == rest[i - 1];
      if !AllOk(rows[0]).Ok? {
        assert !(forall i :: 0 <= i < |rows| ==> AllOk(rows[i]).Ok?) by { assert !AllOk(rows[0]).Ok?; }
      }
    }
  }

  /** When the list of all yields goes through, its chunk `i` (rows have
      length `m`) holds the values of row `i`. */
  lemma {:induction false} AllOkRowsChunks(rows: seq<seq<Result<Datum>>>, m: nat)
    requires forall i :: 0 <= i < |rows| ==> |rows[i]| == m
    requires AllOk(Flatten(rows)).Ok?
    ensures |AllOk(Flatten(rows)).value| == |rows| * m
    ensures forall i :: 0 <= i < |rows| ==>
      (AllOk(rows[i]).Ok? && 0 <= i * m && i * m + m <= |rows| * m
       && AllOk(Flatten(rows)).value[i * m .. i * m + m] == AllOk(rows[i]).value)
  {
    if rows != [] {
      var rest := rows[1..];
      AllOkAppend(rows[0], Flatten(rest));
      AllOkRowsChunks(rest, m);
      AllOkFacts(rows[0]);
      var v0 := AllOk(rows[0]).value;
      var vr := AllOk(Flatten(rest)).value;
      var value := AllOk(Flatten(rows)).value;
      assert value == v0 + vr;
      MulSucc(|rows|, m);
      forall i | 0 <= i < |rows|
        ensures AllOk(rows[i]).Ok?
        ensures 0 <= i * m && i * m + m <= |rows| * m && value[i * m .. i * m + m] == AllOk(rows[i]).value
      {
        ChunkBounds(i, |rows|, m);
        if i == 0 {
          assert value[0 .. m] == v0;
        } else {
          assert rows[i] == rest[i - 1];
          ChunkShift(value, v0, vr, m, i);
        }
      }
    }
  }

  /** Chunk `i` of `v0 + vr`, `v0` one chunk long, is chunk `i - 1` of `vr`. */
  lemma {:induction false} ChunkShift<T>(value: seq<T>, v0: seq<T>, vr: seq<T>, m: nat, i: nat)
    requires value == v0 + vr && |v0| == m && i > 0
    requires 0 <= (i - 1) * m && (i - 1) * m + m <= |vr|
    ensures 0 <= i * m && i * m + m <= |value|
    ensures value[i * m .. i * m + m] == vr[(i - 1) * m .. (i - 1) * m + m]
  {
    MulSucc(i, m);
  }

  /** The accessors of each side of a table. */
  function VerticalAccessors(table: Table): seq<Option<seq<string>>>
  {
    Accessors(Headers(table.root, V))
  }

  function HorizontalAccessors(table: Table): seq<Option<seq<string>>>
  {
    Accessors(Headers(table.root, H))
  }

  /** `list(self._accessors_iterator(headers)) or (None,)` has
      `max(1, final length)` accessors: the single `None` for no path,
      otherwise one per path, in order. */
  lemma {:induction false} AccessorsCount(hs: seq<Header>)
    ensures |Accessors(hs)| == if FinalLength(hs) == 0 then 1 else FinalLength(hs)
    ensures Accessors(hs) == [None] <==> FinalLength(hs) == 0
    ensures FinalLength(hs) > 0 ==> forall i :: 0 <= i < |Accessors(hs)| ==> Accessors(hs)[i] == Some(Paths(hs, [])[i])
  {
    PathsCount(hs, []);
  }

  /** The accessors handed to `inner_generator` are the routes through the
      headers: each is the keys of the groups above one bare key, then that
      key, and every route is one of them. */
  lemma {:induction false} AccessorsAreRoutes(hs: seq<Header>)
    ensures forall i :: 0 <= i < |Accessors(hs)| && Accessors(hs)[i].Some? ==> IsRoute(hs, Accessors(hs)[i].value)
    ensures forall q :: IsRoute(hs, q) ==> Some(q) in Accessors(hs)
  {
    PathsOfRoutes(hs);
    var ps := Paths(hs, []);
    forall q | IsRoute(hs, q)
      ensures Some(q) in Accessors(hs)
    {
      var j :| 0 <= j < |ps| && ps[j] == q;
      assert Accessors(hs)[j] == Some(q);
    }
  }

  /** The rows of yields of a table, one per vertical accessor, each as
      long as there are horizontal accessors. */
  lemma {:induction false} RowsShape(table: Table)
    requires Tagged(table.root, table.structure, 0)
    ensures var rows := Rows(table, VerticalAccessors(table), HorizontalAccessors(table));
      |rows| == |VerticalAccessors(table)|
      && forall i :: 0 <= i < |rows| ==>
        rows[i] == Row(table, VerticalAccessors(table)[i], HorizontalAccessors(table))
        && |rows[i]| == |HorizontalAccessors(table)|
  {
  }

  /** `list(self._data_iterator())` goes through exactly when every vertical
      accessor's row does. */
  lemma {:induction false} DataCellsOkIff(table: Table)
    requires Tagged(table.root, table.structure, 0)
    ensures DataCells(table).Ok? <==> forall i :: 0 <= i < |VerticalAccessors(table)| ==>
      AllOk(Row(table, VerticalAccessors(table)[i], HorizontalAccessors(table))).Ok?
  {
    var rows := Rows(table, VerticalAccessors(table), HorizontalAccessors(table));
    RowsShape(table);
    AllOkRowsOk(rows);
  }

  /** `_data_iterator` yields `max(1, vertical paths) * max(1, horizontal
      paths)` pieces of data, vertical accessors in the outer loop: when
      nothing raises, chunk `i` of the list holds the pieces of data of the
      `i`-th vertical accessor against every horizontal one, in order. */
  lemma {:induction false} DataCellsShape(table: Table)
    requires Tagged(table.root, table.structure, 0)
    requires DataCells(table).Ok?
    ensures |DataCells(table).value| == |VerticalAccessors(table)| * |HorizontalAccessors(table)|
    ensures var m := |HorizontalAccessors(table)|; var cells := DataCells(table).value;
      forall i :: 0 <= i < |VerticalAccessors(table)| ==>
        0 <= i * m && i * m + m <= |cells|
        && AllOk(Row(table, VerticalAccessors(table)[i], HorizontalAccessors(table))).Ok?
        && cells[i * m .. i * m + m] == AllOk(Row(table, VerticalAccessors(table)[i], HorizontalAccessors(table))).value
  {
    var vas := VerticalAccessors(table);
    var has := HorizontalAccessors(table);
    var rows := Rows(table, vas, has);
    var m := |has|;
    RowsShape(table);
    AllOkRowsChunks(rows, m);
    var cells := DataCells(table).value;
    assert cells == AllOk(Flatten(rows)).value;
    forall i | 0 <= i < |vas|
      ensures 0 <= i * m && i * m + m <= |cells|
      ensures AllOk(Row(table, vas[i], has)).Ok?
      ensures cells[i * m .. i * m + m] == AllOk(Row(table, vas[i], has)).value
    {
      ChunkBounds(i, |rows|, m);
      assert rows[i] == Row(table, vas[i], has);
    }
  }

  /** The number of nesting levels of a dictionary. */
  function Height(t: Tree): nat
    decreases t, 1
  {
    1 + EntriesHeight(t, |t.entries|)
  }

  function EntriesHeight(t: Tree, n: nat): nat
    requires n <= |t.entries|
    decreases t, 0, n
  {
    if n == 0 then 0
    else
      var h := if t.entries[n - 1].1.Sub? then Height(t.entries[n - 1].1.tree) else 0;
      Max(EntriesHeight(t, n - 1), h)
  }

  lemma {:induction false} EntriesHeightBound(t: Tree, n: nat, j: nat)
    requires j < n <= |t.entries| && t.entries[j].1.Sub?
    ensures Height(t.entries[j].1.tree) <= EntriesHeight(t, n)
    decreases n
  {
    if j < n - 1 {
      EntriesHeightBound(t, n - 1, j);
    }
  }

  /** A nested dictionary has fewer levels than its parent. */
  lemma {:induction false} ChildHeight(t: Tree, j: nat)
    requires j < |t.entries| && t.entries[j].1.Sub?
    ensures Height(t.entries[j].1.tree) < Height(t)
  {
    EntriesHeightBound(t, |t.entries|, j);
  }

  /** A dictionary at level `i` of a structure has at most `|s| - i`
      levels. */
  lemma {:induction false} TaggedHeight(t: Tree, s: seq<Axis>, i: nat)
    requires Tagged(t, s, i)
    ensures Height(t) <= |s| - i
    decreases t
  {
    forall j | 0 <= j < |t.entries| && t.entries[j].1.Sub?
      ensures Height(t.entries[j].1.tree) <= |s| - i - 1
    {
      TaggedHeight(t.entries[j].1.tree, s, i + 1);
    }
    EntriesHeightAtMost(t, |t.entries|, |s| - i - 1);
  }

  lemma {:induction false} EntriesHeightAtMost(t: Tree, n: nat, b: nat)
    requires n <= |t.entries|
    requires forall j :: 0 <= j < |t.entries| && t.entries[j].1.Sub? ==> Height(t.entries[j].1.tree) <= b
    ensures EntriesHeight(t, n) <= b
  {
    if n > 0 {
      EntriesHeightAtMost(t, n - 1, b);
    }
  }

  /** Reference lookup: Python's `value[k1][k2]...` along `keys`. A missing
      key gives `None` (as `inner_generator` catches `KeyError`),
      subscripting a terminal value raises `TypeError`. */
  function Get(v: Value, keys: seq<string>): Result<Datum>
    requires v.Sub? ==> Height(v.tree) <= |keys|
    decreases |keys|
  {
    if keys == [] then Ok(Some(v.cell))
    else if v.Cell? then Err(TypeError)
    else
      var j := Find(v.tree.entries, keys[0]);
      if j == |v.tree.entries| then Ok(None)
      else
        var w := v.tree.entries[j].1;
        assert w.Sub? ==> Height(w.tree) < Height(v.tree) by {
          if w.Sub? {
            ChildHeight(v.tree, j);
          }
        }
        Get(w, keys[1..])
  }

  /** The keys in the order the structure consumes them: at a level of
      class `h` the next key of `hp`, at a level of class `v` the next key
      of `vp`. */
  function Interleave(s: seq<Axis>, vp: seq<string>, hp: seq<string>): (r: seq<string>)
    requires CountAxis(s, V) <= |vp| && CountAxis(s, H) <= |hp|
    ensures |r| == |s|
  {
    if s == [] then []
    else if s[0] == H then [hp[0]] + Interleave(s[1..], vp, hp[1..])
    else [vp[0]] + Interleave(s[1..], vp[1..], hp)
  }

  /** With paths long enough for the structure, `inner_generator` is the
      nested lookup along the keys of both paths interleaved by the
      structure. */
  lemma {:induction false} WalkFollowsInterleave(v: Value, s: seq<Axis>, i: nat, x: nat, y: nat, vp: seq<string>, hp: seq<string>)
    requires i <= |s| && (v.Sub? ==> Tagged(v.tree, s, i))
    requires x <= |hp| && y <= |vp|
    requires CountAxis(s[i..], V) <= |vp| - y && CountAxis(s[i..], H) <= |hp| - x
    ensures v.Sub? ==> Height(v.tree) <= |Interleave(s[i..], vp[y..], hp[x..])|
    ensures Walk(v, s, i, x, y, Some(vp), Some(hp)) == Get(v, Interleave(s[i..], vp[y..], hp[x..]))
    decreases |s| - i
  {
    if v.Sub? {
      TaggedHeight(v.tree, s, i);
    }
    if i < |s| {
      InterleaveStep(s, i, x, y, vp, hp);
      if v.Sub? {
        WalkStep(v, s, i, x, y, Some(vp), Some(hp));
        var key := if s[i] == H then hp[x] else vp[y];
        var j := Find(v.tree.entries, key);
        if j < |v.tree.entries| {
          if s[i] == H {
            WalkFollowsInterleave(v.tree.entries[j].1, s, i + 1, x + 1, y, vp, hp);
          } else {
            WalkFollowsInterleave(v.tree.entries[j].1, s, i + 1, x, y + 1, vp, hp);
          }
        }
      }
    }
  }

  /** The first key of the interleaving at level `i` is the next key of the
      level's side, and the rest is the interleaving from level `i + 1`. */
  lemma {:induction false} InterleaveStep(s: seq<Axis>, i: nat, x: nat, y: nat, vp: seq<string>, hp: seq<string>)
    requires i < |s| && x <= |hp| && y <= |vp|
    requires CountAxis(s[i..], V) <= |vp| - y && CountAxis(s[i..], H) <= |hp| - x
    ensures s[i] == H ==> && x < |hp|
                          && CountAxis(s[i + 1..], V) <= |vp| - y && CountAxis(s[i + 1..], H) <= |hp| - (x + 1)
                          && Interleave(s[i..], vp[y..], hp[x..]) == [hp[x]] + Interleave(s[i + 1..], vp[y..], hp[x + 1..])
    ensures s[i] == V ==> && y < |vp|
                          && CountAxis(s[i + 1..], V) <= |vp| - (y + 1) && CountAxis(s[i + 1..], H) <= |hp| - x
                          && Interleave(s[i..], vp[y..], hp[x..]) == [vp[y]] + Interleave(s[i + 1..], vp[y + 1..], hp[x..])
  {
    assert s[i..][0] == s[i] && s[i..][1..] == s[i + 1..];
    if s[i] == H {
      assert hp[x..][0] == hp[x] && hp[x..][1..] == hp[x + 1..];
    } else {
      assert vp[y..][0] == vp[y] && vp[y..][1..] == vp[y + 1..];
    }
  }

  lemma {:induction false} FirstIsMember<T>(xs: seq<T>)
    ensures xs != [] ==> xs[0] in xs
  {
  }

  /** When the data of every branch is exactly as deep as the structure,
      the headers of a side are empty exactly when no level has that class,
      and otherwise have every bare key as many levels down as there are
      levels of that class. */
  lemma {:induction false} UniformHeaders(t: Tree, s: seq<Axis>, lvl: nat, d: nat, side: Axis)
    requires Uniform(t, d) && Tagged(t, s, lvl) && ValidTree(t) && lvl + d <= |s|
    ensures Headers(t, side) == [] <==> CountAxis(s[lvl..lvl + d], side) == 0
    ensures LeafDepth(Headers(t, side), CountAxis(s[lvl..lvl + d], side))
    decreases t
  {
    var c' := CountAxis(s[lvl + 1..lvl + d], side);
    forall i | 0 <= i < |t.entries| && d > 1
      ensures var u := t.entries[i].1.tree;
        (Headers(u, side) == [] <==> c' == 0) && LeafDepth(Headers(u, side), c')
    {
      UniformHeaders(t.entries[i].1.tree, s, lvl + 1, d - 1, side);
    }
    CountAxisHead(s, lvl, d, side);
    if t.axis == side {
      UniformMatching(t, d, side, c');
    } else {
      UniformCross(t, d, side, c');
    }
  }

  /** Counting the levels of a side from level `lvl`: level `lvl`, then
      the levels below it (none below the last level). */
  lemma {:induction false} CountAxisHead(s: seq<Axis>, lvl: nat, d: nat, side: Axis)
    requires 0 < d && lvl + d <= |s|
    ensures CountAxis(s[lvl..lvl + d], side)
         == (if s[lvl] == side then 1 else 0) + CountAxis(s[lvl + 1..lvl + d], side)
    ensures d == 1 ==> CountAxis(s[lvl + 1..lvl + d], side) == 0
  {
    assert s[lvl..lvl + d][0] == s[lvl] && s[lvl..lvl + d][1..] == s[lvl + 1..lvl + d];
    if d == 1 {
      assert s[lvl + 1..lvl + d] == [];
    }
  }

  /** A dictionary of the side: its headers are its own entries, each a
      bare key when it holds terminal values, a group otherwise. */
  lemma {:induction false} UniformMatching(t: Tree, d: nat, side: Axis, c': nat)
    requires Uniform(t, d) && ValidTree(t) && t.axis == side
    requires d == 1 ==> c' == 0
    requires forall i :: 0 <= i < |t.entries| && d > 1 ==>
      var u := t.entries[i].1.tree; (Headers(u, side) == [] <==> c' == 0) && LeafDepth(Headers(u, side), c')
    ensures Headers(t, side) != [] && LeafDepth(Headers(t, side), 1 + c')
  {
    var c := 1 + c';
    var hs := Headers(t, side);
    MatchingHeaders(t, side);
    assert hs[0] in hs;
    forall e | e in hs
      ensures match e
        case Leaf(_) => c == 1
        case Group(_, g) => c >= 2 && g != [] && LeafDepth(g, c - 1)
    {
      var i :| 0 <= i < |hs| && hs[i] == e;
      assert e == OwnHeader(t.entries[i], side);
    }
  }

  /** A dictionary of the other side: its headers are those of the
      dictionaries it holds. */
  lemma {:induction false} UniformCross(t: Tree, d: nat, side: Axis, c': nat)
    requires Uniform(t, d) && t.axis != side
    requires d == 1 ==> c' == 0
    requires forall i :: 0 <= i < |t.entries| && d > 1 ==>
      var u := t.entries[i].1.tree; (Headers(u, side) == [] <==> c' == 0) && LeafDepth(Headers(u, side), c')
    ensures Headers(t, side) == [] <==> c' == 0
    ensures LeafDepth(Headers(t, side), c')
  {
    var hs := Headers(t, side);
    CrossHeaders(t, side);
    if c' == 0 {
      assert forall h :: h !in hs;
      FirstIsMember(hs);
    } else {
      var u := t.entries[0].1.tree;
      assert Headers(u, side)[0] in Headers(u, side);
      assert Headers(u, side)[0] in hs;
    }
    forall e | e in hs
      ensures match e
        case Leaf(_) => c' == 1
        case Group(_, g) => c' >= 2 && g != [] && LeafDepth(g, c' - 1)
    {
      var i :| 0 <= i < |t.entries| && t.entries[i].1.Sub? && e in Headers(t.entries[i].1.tree, side);
    }
  }

  /** `inner_generator` raises nothing on a table whose data is exactly as
      deep as its structure, for accessors whose paths have one key per
      level of their class (and `None` exactly when there is no such
      level). */
  lemma {:induction false} WalkOk(v: Value, s: seq<Axis>, i: nat, x: nat, y: nat, va: Option<seq<string>>, ha: Option<seq<string>>)
    requires i <= |s| && (v.Sub? ==> Tagged(v.tree, s, i))
    requires if i == |s| then v.Cell? else v.Sub? && Uniform(v.tree, |s| - i)
    requires x == CountAxis(s[..i], H) && y == CountAxis(s[..i], V)
    requires va.None? <==> CountAxis(s, V) == 0
    requires va.Some? ==> |va.value| == CountAxis(s, V)
    requires ha.None? <==> CountAxis(s, H) == 0
    requires ha.Some? ==> |ha.value| == CountAxis(s, H)
    ensures Walk(v, s, i, x, y, va, ha).Ok?
    decreases |s| - i, 1
  {
    if i < |s| {
      CountPrefixStep(s, i, H);
      CountPrefixStep(s, i, V);
      WalkStep(v, s, i, x, y, va, ha);
      WalkOkBelow(v, s, i, x, y, va, ha);
    }
  }

  /** The step of `WalkOk` below level `i`: the entry found, if any, is
      walked without an exception. */
  lemma {:induction false} WalkOkBelow(v: Value, s: seq<Axis>, i: nat, x: nat, y: nat, va: Option<seq<string>>, ha: Option<seq<string>>)
    requires i < |s| && v.Sub? && Tagged(v.tree, s, i) && Uniform(v.tree, |s| - i)
    requires x + (if s[i] == H then 1 else 0) == CountAxis(s[..i + 1], H)
    requires y + (if s[i] == V then 1 else 0) == CountAxis(s[..i + 1], V)
    requires CountAxis(s[..i + 1], H) <= CountAxis(s, H) && CountAxis(s[..i + 1], V) <= CountAxis(s, V)
    requires va.None? <==> CountAxis(s, V) == 0
    requires va.Some? ==> |va.value| == CountAxis(s, V)
    requires ha.None? <==> CountAxis(s, H) == 0
    requires ha.Some? ==> |ha.value| == CountAxis(s, H)
    ensures var acc := if s[i] == H then ha else va; var cur := if s[i] == H then x else y;
      acc.Some? && cur < |acc.value|
      && var j := Find(v.tree.entries, acc.value[cur]);
      j < |v.tree.entries| ==>
        if s[i] == H then Walk(v.tree.entries[j].1, s, i + 1, x + 1, y, va, ha).Ok?
        else Walk(v.tree.entries[j].1, s, i + 1, x, y + 1, va, ha).Ok?
    decreases |s| - i, 0
  {
    var acc := if s[i] == H then ha else va;
    var cur := if s[i] == H then x else y;
    var j := Find(v.tree.entries, acc.value[cur]);
    if j < |v.tree.entries| {
      var child := v.tree.entries[j].1;
      assert if i + 1 == |s| then child.Cell? else child.Sub? && Uniform(child.tree, |s| - (i + 1));
      if s[i] == H {
        WalkOk(child, s, i + 1, x + 1, y, va, ha);
      } else {
        WalkOk(child, s, i + 1, x, y + 1, va, ha);
      }
    }
  }

  /** One level of `inner_generator` when the accessor of the level has a
      key for it: a missing key gives `None`, a present one moves down. */
  lemma {:induction false} WalkStep(v: Value, s: seq<Axis>, i: nat, x: nat, y: nat, va: Option<seq<string>>, ha: Option<seq<string>>)
    requires i < |s| && v.Sub? && Tagged(v.tree, s, i)
    requires var acc := if s[i] == H then ha else va; var cur := if s[i] == H then x else y;
      acc.Some? && cur < |acc.value|
    ensures var acc := if s[i] == H then ha else va; var cur := if s[i] == H then x else y;
      var j := Find(v.tree.entries, acc.value[cur]);
      j < |v.tree.entries| ==> v.tree.entries[j].1.Sub? ==> Tagged(v.tree.entries[j].1.tree, s, i + 1)
    ensures var acc := if s[i] == H then ha else va; var cur := if s[i] == H then x else y;
      var j := Find(v.tree.entries, acc.value[cur]);
      Walk(v, s, i, x, y, va, ha)
      == if j == |v.tree.entries| then Ok(None)
         else if s[i] == H then Walk(v.tree.entries[j].1, s, i + 1, x + 1, y, va, ha)
         else Walk(v.tree.entries[j].1, s, i + 1, x, y + 1, va, ha)
  {
  }

  /** One more level of the structure counts one more level of its own
      side, and no prefix counts more than the whole structure. */
  lemma {:induction false} CountPrefixStep(s: seq<Axis>, i: nat, side: Axis)
    requires i < |s|
    ensures CountAxis(s[..i + 1], side) == CountAxis(s[..i], side) + (if s[i] == side then 1 else 0)
    ensures CountAxis(s[..i + 1], side) <= CountAxis(s, side)
  {
    assert s[..i + 1] == s[..i] + [s[i]];
    assert s == s[..i + 1] + s[i + 1..];
    assert [s[i]][1..] == [];
    CountAxisAppend(s[..i], [s[i]], side);
    CountAxisAppend(s[..i + 1], s[i + 1..], side);
  }

  /** The headers of a side of a table whose data is exactly as deep as
      its structure give accessors whose paths have one key per level of
      that class, and the single `None` exactly when there is none. */
  lemma {:induction false} AccessorsOfUniform(table: Table, side: Axis)
    requires Tagged(table.root, table.structure, 0) && ValidTree(table.root)
    requires Uniform(table.root, |table.structure|)
    ensures forall k :: 0 <= k < |Accessors(Headers(table.root, side))| ==>
      (Accessors(Headers(table.root, side))[k].None? <==> CountAxis(table.structure, side) == 0)
    ensures forall k :: 0 <= k < |Accessors(Headers(table.root, side))| && Accessors(Headers(table.root, side))[k].Some? ==>
      |Accessors(Headers(table.root, side))[k].value| == CountAxis(table.structure, side)
  {
    var s := table.structure;
    var hs := Headers(table.root, side);
    assert s[0..|s|] == s;
    UniformHeaders(table.root, s, 0, |s|, side);
    HeadersClean(table.root, side);
    AccessorsOfLeafDepth(hs, CountAxis(s, side));
  }

  /** Headers whose leaves all sit `c` levels down give `c`-key paths, and
      the single `None` exactly when `c` is 0. */
  lemma {:induction false} AccessorsOfLeafDepth(hs: seq<Header>, c: nat)
    requires WellFormed(hs) && LeafDepth(hs, c) && (hs == [] <==> c == 0)
    ensures forall k :: 0 <= k < |Accessors(hs)| ==> (Accessors(hs)[k].None? <==> c == 0)
    ensures forall k :: 0 <= k < |Accessors(hs)| && Accessors(hs)[k].Some? ==> |Accessors(hs)[k].value| == c
  {
    FinalLengthBounds(hs);
    PathsCount(hs, []);
    PathsOfLeafDepth(hs, [], c);
    var ps := Paths(hs, []);
    forall k | 0 <= k < |ps|
      ensures |ps[k]| == c
    {
      assert ps[k] in ps;
    }
  }

  /** A table whose data is exactly as deep as its structure (and has
      distinct keys) yields its data without any exception. */
  lemma {:induction false} DataCellsOk(table: Table)
    requires Tagged(table.root, table.structure, 0) && ValidTree(table.root)
    requires Uniform(table.root, |table.structure|)
    ensures DataCells(table).Ok?
  {
    var s := table.structure;
    var vas := VerticalAccessors(table);
    var has := HorizontalAccessors(table);
    AccessorsOfUniform(table, V);
    AccessorsOfUniform(table, H);
    assert s[..0] == [];
    forall i | 0 <= i < |vas|
      ensures AllOk(Row(table, vas[i], has)).Ok?
    {
      forall j | 0 <= j < |has|
        ensures Walk(Sub(table.root), s, 0, 0, 0, vas[i], has[j]).Ok?
      {
        WalkOk(Sub(table.root), s, 0, 0, 0, vas[i], has[j]);
      }
      AllOkFacts(Row(table, vas[i], has));
    }
    DataCellsOkIff(table);
  }
}
