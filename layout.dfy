/** Layout scoring and selection: `get_ugliness`, which scores a table by
    the longer of its two header sides, and `build_optimal_table_dict`,
    which builds the table for every candidate structure and keeps the least
    ugly one, the earliest on a tie because Python's `sorted` is stable. */
module Layout {
  import opened TableData
  import opened TableHeaders
  import opened Geometry
  import opened DataWalk
  import opened Render
  import RenderFacts

  function Abs(n: int): nat
  {
    if n < 0 then -n else n
  }

  function Other(a: Axis): Axis
  {
    if a == V then H else V
  }

  /** `get_ugliness`: the number of leaf headers on each side, summed, plus
      their difference; that is twice the longer side. */
  function Ugliness(table: Table): (u: nat)
    ensures u == 2 * Max(FinalLength(Headers(table.root, V)), FinalLength(Headers(table.root, H)))
    ensures u >= FinalLength(Headers(table.root, V)) + FinalLength(Headers(table.root, H))
  {
    var verticalLength := FinalLength(Headers(table.root, V));
    var horizontalLength := FinalLength(Headers(table.root, H));
    verticalLength + horizontalLength + Abs(verticalLength - horizontalLength)
  }

  // ---------------------------------------------------------------------
  // Mirroring a table: swapping `h` and `v` everywhere swaps its sides.
  // ---------------------------------------------------------------------

  /** The same dictionaries with every class swapped. */
  function Mirror(t: Tree): Tree
    decreases t
  {
    Node(Other(t.axis), seq(|t.entries|, i requires 0 <= i < |t.entries| =>
      (t.entries[i].0,
       match t.entries[i].1
       case Cell(c) => Cell(c)
       case Sub(u) => Sub(Mirror(u)))))
  }

  /** A structure with every axis swapped. */
  function Flip(s: seq<Axis>): (r: seq<Axis>)
    ensures |r| == |s|
  {
    seq(|s|, i requires 0 <= i < |s| => Other(s[i]))
  }

  /** The headers one side of a mirrored tree shows are those the other
      side of the tree shows. */
  lemma {:induction false} HeadersMirror(t: Tree, side: Axis)
    ensures Headers(Mirror(t), Other(side)) == Headers(t, side)
    decreases t, 1
  {
    CollectMirror(t, side, |t.entries|);
  }

  lemma {:induction false} CollectMirror(t: Tree, side: Axis, n: nat)
    requires n <= |t.entries|
    ensures Collect(Mirror(t), Other(side), n) == Collect(t, side, n)
    decreases t, 0, n
  {
    if n > 0 {
      CollectMirror(t, side, n - 1);
      var v := t.entries[n - 1].1;
      if v.Sub? {
        HeadersMirror(v.tree, side);
      }
    }
  }

  /** Building with the flipped structure builds the mirrored tree. */
  lemma {:induction false} StructuredFlip(pairs: seq<(string, Raw)>, s: seq<Axis>, level: nat)
    requires level < |s| && RawFits(pairs, |s| - level)
    ensures Structured(pairs, Flip(s), level) == Mirror(Structured(pairs, s, level))
    decreases Pairs(pairs)
  {
    var a := Structured(pairs, Flip(s), level);
    var b := Mirror(Structured(pairs, s, level));
    forall i | 0 <= i < |pairs| ensures a.entries[i] == b.entries[i] {
      if pairs[i].1.Pairs? {
        StructuredFlip(pairs[i].1.pairs, s, level + 1);
      }
    }
  }

  /** A structure and its flip give equally ugly tables. */
  lemma {:induction false} UglinessFlip(datadict: seq<(string, Raw)>, s: seq<Axis>)
    requires 0 < |s| && RawFits(datadict, |s|)
    ensures Ugliness(Build(datadict, Flip(s))) == Ugliness(Build(datadict, s))
  {
    var t := Structured(datadict, s, 0);
    StructuredFlip(datadict, s, 0);
    HeadersMirror(t, V);
    HeadersMirror(t, H);
  }

  // ---------------------------------------------------------------------
  // The candidate structures.
  // ---------------------------------------------------------------------

  function Pow2(n: nat): (p: nat)
    ensures p >= 1
  {
    if n == 0 then 1 else 2 * Pow2(n - 1)
  }

  function Prefixed(a: Axis, ss: seq<seq<Axis>>): seq<seq<Axis>>
  {
    seq(|ss|, i requires 0 <= i < |ss| => [a] + ss[i])
  }

  /** Every structure of length `n`, in the order of the nested generator
      `for a in (v, h) for b in (v, h) ...`: `v` before `h`, the last
      position varying fastest. */
  function Structures(n: nat): (r: seq<seq<Axis>>)
    ensures |r| == Pow2(n)
    ensures forall i :: 0 <= i < |r| ==> |r[i]| == n
  {
    if n == 0 then [[]]
    else Prefixed(V, Structures(n - 1)) + Prefixed(H, Structures(n - 1))
  }

  /** The generator of lines 382-385: exactly these eight structures, in
      this order. */
  lemma CandidatesInOrder()
    ensures Structures(3) == [[V, V, V], [V, V, H], [V, H, V], [V, H, H],
                              [H, V, V], [H, V, H], [H, H, V], [H, H, H]]
  {
    PrefixedOne(V);
    PrefixedOne(H);
    assert Structures(1) == [[V], [H]];
    PrefixedPair(V, Structures(1), [V, V], [V, H]);
    PrefixedPair(H, Structures(1), [H, V], [H, H]);
    assert Structures(2) == [[V, V], [V, H]] + [[H, V], [H, H]];
    var s2 := Structures(2);
    PrefixedFour(V, s2);
    PrefixedFour(H, s2);
  }

  lemma {:induction false} PrefixedOne(a: Axis)
    ensures Prefixed(a, [[]]) == [[a]]
  {
    assert [a] + [] == [a];
  }

  lemma {:induction false} PrefixedFour(a: Axis, ss: seq<seq<Axis>>)
    requires ss == [[V, V], [V, H], [H, V], [H, H]]
    ensures Prefixed(a, ss) == [[a, V, V], [a, V, H], [a, H, V], [a, H, H]]
  {
    assert [a] + [V, V] == [a, V, V];
    assert [a] + [V, H] == [a, V, H];
    assert [a] + [H, V] == [a, H, V];
    assert [a] + [H, H] == [a, H, H];
  }

  lemma {:induction false} PrefixedPair(a: Axis, ss: seq<seq<Axis>>, x: seq<Axis>, y: seq<Axis>)
    requires |ss| == 2 && x == [a] + ss[0] && y == [a] + ss[1]
    ensures Prefixed(a, ss) == [x, y]
  {
  }

  /** Every structure of length `n` is a candidate. */
  lemma {:induction false} StructuresComplete(n: nat, s: seq<Axis>)
    requires |s| == n
    ensures s in Structures(n)
  {
    if n > 0 {
      StructuresComplete(n - 1, s[1..]);
      var rest := Structures(n - 1);
      var i :| 0 <= i < |rest| && rest[i] == s[1..];
      assert s == [s[0]] + rest[i];
      PrefixedHas(s[0], rest, i);
      StructuresHas(n, s[0], s);
    }
  }

  lemma {:induction false} PrefixedHas(a: Axis, ss: seq<seq<Axis>>, i: nat)
    requires i < |ss|
    ensures [a] + ss[i] in Prefixed(a, ss)
  {
    assert Prefixed(a, ss)[i] == [a] + ss[i];
  }

  /** What `Prefixed` gives from the candidates of length `n - 1` is a
      candidate of length `n`. */
  lemma {:induction false} StructuresHas(n: nat, a: Axis, x: seq<Axis>)
    requires n > 0 && x in Prefixed(a, Structures(n - 1))
    ensures x in Structures(n)
  {
    var pv := Prefixed(V, Structures(n - 1));
    var ph := Prefixed(H, Structures(n - 1));
    assert Structures(n) == pv + ph;
  }

  /** Candidate `i` of length `n`: the first half starts with `v`, the
      second with `h`, each followed by the candidates of length `n - 1`. */
  lemma {:induction false} StructuresAt(n: nat, i: nat)
    requires n >= 1 && i < |Structures(n)|
    ensures |Structures(n)| == 2 * |Structures(n - 1)|
    ensures var m := |Structures(n - 1)|;
      Structures(n)[i] == (if i < m then [V] + Structures(n - 1)[i] else [H] + Structures(n - 1)[i - m])
  {
    var rest := Structures(n - 1);
    var pv := Prefixed(V, rest);
    var ph := Prefixed(H, rest);
    assert Structures(n) == pv + ph;
    if i < |rest| {
      assert Structures(n)[i] == pv[i];
    } else {
      assert Structures(n)[i] == ph[i - |rest|];
    }
  }

  /** The candidates are listed without repetition. */
  lemma {:induction false} StructuresDistinct(n: nat)
    ensures forall i, j :: 0 <= i < j < |Structures(n)| ==> Structures(n)[i] != Structures(n)[j]
  {
    if n > 0 {
      StructuresDistinct(n - 1);
      var r := Structures(n);
      forall i, j | 0 <= i < j < |r| ensures r[i] != r[j] {
        DistinctPair(n, Structures(n - 1), i, j);
      }
    }
  }

  lemma {:induction false} DistinctPair(n: nat, rest: seq<seq<Axis>>, i: nat, j: nat)
    requires n >= 1 && i < j < |Structures(n)| && rest == Structures(n - 1)
    requires forall i, j :: 0 <= i < j < |rest| ==> rest[i] != rest[j]
    ensures Structures(n)[i] != Structures(n)[j]
  {
    var m := |rest|;
    StructuresAt(n, i);
    StructuresAt(n, j);
    if j < m || m <= i {
      var i' := if i < m then i else i - m;
      var j' := if j < m then j else j - m;
      assert Structures(n)[i][1..] == rest[i'];
      assert Structures(n)[j][1..] == rest[j'];
    } else {
      assert Structures(n)[i][0] == V && Structures(n)[j][0] == H;
    }
  }

  /** The first half of the candidates puts the first level on the rows,
      the second half on the columns. */
  lemma {:induction false} StructuresHalves(n: nat)
    requires n >= 1
    ensures forall i :: 0 <= i < |Structures(n)| ==>
      (Structures(n)[i][0] == V <==> i < |Structures(n)| / 2)
  {
    var r := Structures(n);
    var m := |Structures(n - 1)|;
    forall i | 0 <= i < |r| ensures r[i][0] == V <==> i < m {
      StructuresAt(n, i);
    }
  }

  /** The list reads backwards as the flips of its members. */
  predicate MirroredList(ss: seq<seq<Axis>>)
  {
    forall j :: 0 <= j < |ss| ==> ss[|ss| - 1 - j] == Flip(ss[j])
  }

  /** The candidate at the mirrored position is the flipped one. */
  lemma {:induction false} StructuresMirror(n: nat)
    ensures MirroredList(Structures(n))
  {
    if n > 0 {
      StructuresMirror(n - 1);
      forall i | 0 <= i < |Structures(n)|
        ensures Structures(n)[|Structures(n)| - 1 - i] == Flip(Structures(n)[i])
      {
        MirrorStep(n, i);
      }
    }
  }

  lemma {:induction false} MirrorStep(n: nat, i: nat)
    requires n >= 1 && i < |Structures(n)|
    requires MirroredList(Structures(n - 1))
    ensures Structures(n)[|Structures(n)| - 1 - i] == Flip(Structures(n)[i])
  {
    var rest := Structures(n - 1);
    var m := |rest|;
    StructuresAt(n, i);
    StructuresAt(n, 2 * m - 1 - i);
    if i < m {
      assert rest[m - 1 - i] == Flip(rest[i]);
      FlipCons(V, rest[i]);
    } else {
      assert rest[m - 1 - (i - m)] == Flip(rest[i - m]);
      FlipCons(H, rest[i - m]);
    }
  }

  lemma {:induction false} FlipCons(a: Axis, t: seq<Axis>)
    ensures Flip([a] + t) == [Other(a)] + Flip(t)
  {
    assert forall k :: 0 <= k < |t| + 1 ==> Flip([a] + t)[k] == ([Other(a)] + Flip(t))[k];
  }

  // ---------------------------------------------------------------------
  // `sorted(tables, key=lambda t: t.get_ugliness())[0]`.
  // ---------------------------------------------------------------------

  /** The position of the first smallest number. */
  function FirstMinimum(us: seq<nat>): (k: nat)
    requires us != []
    ensures k < |us|
    ensures forall j :: 0 <= j < |us| ==> us[k] <= us[j]
    ensures forall j :: 0 <= j < k ==> us[j] > us[k]
  {
    if |us| == 1 then 0
    else
      var k := 1 + FirstMinimum(us[1..]);
      assert us[1..][k - 1] == us[k];
      if us[0] <= us[k] then 0 else k
  }

  predicate SortedByUgliness(ts: seq<Table>)
  {
    forall i, j :: 0 <= i < j < |ts| ==> Ugliness(ts[i]) <= Ugliness(ts[j])
  }

  /** Inserts `t` before the first table at least as ugly, so that tables
      of equal ugliness stay in the order they came in. */
  function Insert(t: Table, ts: seq<Table>): (r: seq<Table>)
    ensures |r| == |ts| + 1
  {
    if ts == [] || Ugliness(t) <= Ugliness(ts[0]) then [t] + ts
    else [ts[0]] + Insert(t, ts[1..])
  }

  /** A stable sort by ugliness. */
  function Sort(ts: seq<Table>): (r: seq<Table>)
    ensures |r| == |ts|
  {
    if ts == [] then [] else Insert(ts[0], Sort(ts[1..]))
  }

  lemma {:induction false} InsertFacts(t: Table, ts: seq<Table>)
    requires SortedByUgliness(ts)
    ensures SortedByUgliness(Insert(t, ts))
    ensures multiset(Insert(t, ts)) == multiset([t] + ts)
  {
    InsertKeeps(t, ts);
    InsertSorted(t, ts);
  }

  lemma {:induction false} InsertHead(t: Table, ts: seq<Table>)
    ensures Insert(t, ts)[0] == if ts == [] || Ugliness(t) <= Ugliness(ts[0]) then t else ts[0]
  {
  }

  lemma {:induction false} InsertKeeps(t: Table, ts: seq<Table>)
    ensures multiset(Insert(t, ts)) == multiset([t] + ts)
  {
    if ts != [] && Ugliness(t) > Ugliness(ts[0]) {
      var rest := ts[1..];
      InsertKeeps(t, rest);
      assert ts == [ts[0]] + rest;
      assert Insert(t, ts) == [ts[0]] + Insert(t, rest);
    }
  }

  lemma {:induction false} InsertSorted(t: Table, ts: seq<Table>)
    requires SortedByUgliness(ts)
    ensures SortedByUgliness(Insert(t, ts))
  {
    if ts == [] || Ugliness(t) <= Ugliness(ts[0]) {
      forall k | 0 <= k < |ts| ensures Ugliness(t) <= Ugliness(ts[k]) {
        if k > 0 {
          assert Ugliness(ts[0]) <= Ugliness(ts[k]);
        }
      }
      ConsSorted(t, ts);
    } else {
      var rest := ts[1..];
      SortedTail(ts);
      InsertSorted(t, rest);
      forall k | 0 <= k < |rest| ensures Ugliness(ts[0]) <= Ugliness(rest[k]) {
        assert rest[k] == ts[k + 1];
      }
      InsertBounded(t, rest, Ugliness(ts[0]));
      ConsSorted(ts[0], Insert(t, rest));
    }
  }

  lemma {:induction false} SortedTail(ts: seq<Table>)
    requires SortedByUgliness(ts) && ts != []
    ensures SortedByUgliness(ts[1..])
  {
    forall i, j | 0 <= i < j < |ts[1..]| ensures Ugliness(ts[1..][i]) <= Ugliness(ts[1..][j]) {
      assert ts[1..][i] == ts[i + 1] && ts[1..][j] == ts[j + 1];
    }
  }

  lemma {:induction false} ConsSorted(x: Table, tail: seq<Table>)
    requires SortedByUgliness(tail)
    requires forall k :: 0 <= k < |tail| ==> Ugliness(x) <= Ugliness(tail[k])
    ensures SortedByUgliness([x] + tail)
  {
    var r := [x] + tail;
    forall i, j | 0 <= i < j < |r| ensures Ugliness(r[i]) <= Ugliness(r[j]) {
      assert r[j] == tail[j - 1];
      if i > 0 {
        assert r[i] == tail[i - 1];
      }
    }
  }

  /** Inserting keeps a lower bound on the ugliness of every table. */
  lemma {:induction false} InsertBounded(t: Table, ts: seq<Table>, b: nat)
    requires b <= Ugliness(t)
    requires forall k :: 0 <= k < |ts| ==> b <= Ugliness(ts[k])
    ensures forall k :: 0 <= k < |Insert(t, ts)| ==> b <= Ugliness(Insert(t, ts)[k])
  {
    var r := Insert(t, ts);
    if ts == [] || Ugliness(t) <= Ugliness(ts[0]) {
      assert r == [t] + ts;
      forall k | 0 <= k < |r| ensures b <= Ugliness(r[k]) {
        if k > 0 {
          assert r[k] == ts[k - 1];
        }
      }
    } else {
      var rest := ts[1..];
      forall k | 0 <= k < |rest| ensures b <= Ugliness(rest[k]) {
        assert rest[k] == ts[k + 1];
      }
      InsertBounded(t, rest, b);
      assert r == [ts[0]] + Insert(t, rest);
      forall k | 0 <= k < |r| ensures b <= Ugliness(r[k]) {
        if k > 0 {
          assert r[k] == Insert(t, rest)[k - 1];
        }
      }
    }
  }

  /** The sort orders by ugliness and keeps every table. */
  lemma {:induction false} SortFacts(ts: seq<Table>)
    ensures SortedByUgliness(Sort(ts))
    ensures multiset(Sort(ts)) == multiset(ts)
  {
    if ts != [] {
      SortFacts(ts[1..]);
      InsertFacts(ts[0], Sort(ts[1..]));
      assert ts == [ts[0]] + ts[1..];
    }
  }

  function Uglinesses(ts: seq<Table>): (us: seq<nat>)
    ensures |us| == |ts|
  {
    seq(|ts|, i requires 0 <= i < |ts| => Ugliness(ts[i]))
  }

  /** The head of the sorted list is the first of the least ugly tables. */
  lemma {:induction false} SortHead(ts: seq<Table>)
    requires ts != []
    ensures Sort(ts)[0] == ts[FirstMinimum(Uglinesses(ts))]
  {
    var rest := ts[1..];
    if |ts| == 1 {
      InsertHead(ts[0], []);
    } else {
      SortHead(rest);
      InsertHead(ts[0], Sort(rest));
      var us := Uglinesses(ts);
      var k := FirstMinimum(Uglinesses(rest));
      assert us[1..] == Uglinesses(rest);
      assert us[1 + k] == Ugliness(rest[k]);
      assert FirstMinimum(us) == if us[0] <= us[1 + k] then 0 else 1 + k;
    }
  }

  // ---------------------------------------------------------------------
  // `build_optimal_table_dict`.
  // ---------------------------------------------------------------------

  /** Every structure of `ss` can be applied to `datadict`. */
  predicate AllFit(datadict: seq<(string, Raw)>, ss: seq<seq<Axis>>)
  {
    forall i :: 0 <= i < |ss| ==> 0 < |ss[i]| && RawFits(datadict, |ss[i]|)
  }

  /** The table built for each structure (the list comprehension of line
      386). */
  function Tables(datadict: seq<(string, Raw)>, ss: seq<seq<Axis>>): (ts: seq<Table>)
    requires AllFit(datadict, ss)
    ensures |ts| == |ss|
  {
    seq(|ss|, i requires 0 <= i < |ss| && AllFit(datadict, ss) => Build(datadict, ss[i]))
  }

  /** Sorts the tables by ugliness and keeps the first. */
  function Pick(datadict: seq<(string, Raw)>, ss: seq<seq<Axis>>): (t: Table)
    requires ss != [] && AllFit(datadict, ss)
    ensures t in Tables(datadict, ss) && 0 < |t.structure|
  {
    var ts := Tables(datadict, ss);
    SortFacts(ts);
    assert Sort(ts)[0] in multiset(ts);
    Sort(ts)[0]
  }

  /** The structures of length `n` all fit data with at most `n` levels. */
  lemma {:induction false} StructuresFit(datadict: seq<(string, Raw)>, n: nat)
    requires n >= 1 && RawFits(datadict, n)
    ensures AllFit(datadict, Structures(n))
  {
  }

  /** `build_optimal_table_dict` as written: the candidates are the eight
      structures of length 3, whatever the depth of the data. */
  function BuildOptimalTableDict(datadict: seq<(string, Raw)>): Table
    requires RawFits(datadict, 3)
  {
    StructuresFit(datadict, 3);
    Pick(datadict, Structures(3))
  }

  /** The table picked from `ss` is the one built for the first structure
      of least ugliness: no candidate is less ugly, every earlier one is
      uglier. */
  lemma {:induction false} PickChoice(datadict: seq<(string, Raw)>, ss: seq<seq<Axis>>)
    requires ss != [] && AllFit(datadict, ss)
    ensures FirstMinimum(Uglinesses(Tables(datadict, ss))) < |ss|
    ensures Pick(datadict, ss) == Build(datadict, ss[FirstMinimum(Uglinesses(Tables(datadict, ss)))])
    ensures forall i :: 0 <= i < |ss| ==>
      Ugliness(Pick(datadict, ss)) <= Ugliness(Build(datadict, ss[i]))
    ensures forall j :: 0 <= j < FirstMinimum(Uglinesses(Tables(datadict, ss))) ==>
      Ugliness(Build(datadict, ss[j])) > Ugliness(Pick(datadict, ss))
  {
    var ts := Tables(datadict, ss);
    var us := Uglinesses(ts);
    SortHead(ts);
    var k := FirstMinimum(us);
    forall i | 0 <= i < |ss| ensures Ugliness(Pick(datadict, ss)) <= Ugliness(Build(datadict, ss[i])) {
      assert us[i] == Ugliness(ts[i]);
    }
    forall j | 0 <= j < k ensures Ugliness(Build(datadict, ss[j])) > Ugliness(Pick(datadict, ss)) {
      assert us[j] == Ugliness(ts[j]);
    }
  }

  /** The optimal table is no uglier than the table of any structure of
      length 3, and every candidate enumerated before its structure is
      strictly uglier (the stable sort's tie-break). */
  lemma {:induction false} OptimalIsLeastUgly(datadict: seq<(string, Raw)>)
    requires RawFits(datadict, 3)
    ensures exists k ::
      && 0 <= k < |Structures(3)|
      && BuildOptimalTableDict(datadict) == Build(datadict, Structures(3)[k])
      && (forall j :: 0 <= j < k ==> Ugliness(Build(datadict, Structures(3)[j])) > Ugliness(BuildOptimalTableDict(datadict)))
    ensures forall s :: |s| == 3 ==> Ugliness(BuildOptimalTableDict(datadict)) <= Ugliness(Build(datadict, s))
  {
    var ss := Structures(3);
    StructuresFit(datadict, 3);
    PickChoice(datadict, ss);
    var k := FirstMinimum(Uglinesses(Tables(datadict, ss)));
    assert ss[k] == ss[k];
    forall s | |s| == 3 ensures Ugliness(BuildOptimalTableDict(datadict)) <= Ugliness(Build(datadict, s)) {
      StructuresComplete(3, s);
      var i :| 0 <= i < |ss| && ss[i] == s;
    }
  }

  /** Because a structure and its flip tie, and the `v` variant comes first,
      the table picked among all structures of length `n` always puts the
      keys of its root on the rows. */
  lemma {:induction false} PickStartsVertical(datadict: seq<(string, Raw)>, n: nat)
    requires n >= 1 && RawFits(datadict, n)
    ensures AllFit(datadict, Structures(n))
    ensures Pick(datadict, Structures(n)).structure[0] == V
    ensures Pick(datadict, Structures(n)).root.axis == V
  {
    var ss := Structures(n);
    StructuresFit(datadict, n);
    PickChoice(datadict, ss);
    StructuresHalves(n);
    StructuresMirror(n);
    var k := FirstMinimum(Uglinesses(Tables(datadict, ss)));
    BuildTableDictShape(datadict, ss[k]);
    if ss[k][0] == H {
      var j := |ss| - 1 - k;
      assert ss[k] == Flip(ss[j]);
      UglinessFlip(datadict, ss[j]);
      assert false;
    }
  }

  lemma {:induction false} OptimalStartsVertical(datadict: seq<(string, Raw)>)
    requires RawFits(datadict, 3)
    ensures BuildOptimalTableDict(datadict).structure[0] == V
  {
    PickStartsVertical(datadict, 3);
  }

  // ---------------------------------------------------------------------
  // Candidates of the data's own depth.
  // ---------------------------------------------------------------------

  function NatMax(a: nat, b: nat): nat
  {
    if a >= b then a else b
  }

  /** The number of nesting levels of the association lists. */
  function RawDepth(pairs: seq<(string, Raw)>): nat
    decreases Pairs(pairs), 1
  {
    1 + ChildDepth(pairs, |pairs|)
  }

  /** The deepest of the first `k` values (0 for terminal values). */
  function ChildDepth(pairs: seq<(string, Raw)>, k: nat): nat
    requires k <= |pairs|
    decreases Pairs(pairs), 0, k
  {
    if k == 0 then 0
    else
      NatMax(ChildDepth(pairs, k - 1),
             match pairs[k - 1].1
             case Atom(_) => 0
             case Pairs(p) => RawDepth(p))
  }

  lemma {:induction false} ChildDepthBound(pairs: seq<(string, Raw)>, k: nat, i: nat)
    requires i < k <= |pairs| && pairs[i].1.Pairs?
    ensures RawDepth(pairs[i].1.pairs) <= ChildDepth(pairs, k)
  {
    if i < k - 1 {
      ChildDepthBound(pairs, k - 1, i);
    }
  }

  /** Data fits every structure at least as long as its depth. */
  lemma {:induction false} RawDepthFits(pairs: seq<(string, Raw)>, room: nat)
    requires RawDepth(pairs) <= room
    ensures RawFits(pairs, room)
    decreases Pairs(pairs)
  {
    forall i | 0 <= i < |pairs| && pairs[i].1.Pairs?
      ensures room >= 2 && RawFits(pairs[i].1.pairs, room - 1)
    {
      ChildDepthBound(pairs, |pairs|, i);
      RawDepthFits(pairs[i].1.pairs, room - 1);
    }
  }

  lemma {:induction false} ChildDepthUniform(pairs: seq<(string, Raw)>, depth: nat, k: nat)
    requires RawUniform(pairs, depth) && 1 <= k <= |pairs|
    ensures ChildDepth(pairs, k) == depth - 1
    decreases Pairs(pairs), 0, k
  {
    if k > 1 {
      ChildDepthUniform(pairs, depth, k - 1);
    }
    if depth > 1 {
      RawDepthUniform(pairs[k - 1].1.pairs, depth - 1);
    }
  }

  /** Uniform data of depth `d` has depth `d`. */
  lemma {:induction false} RawDepthUniform(pairs: seq<(string, Raw)>, depth: nat)
    requires RawUniform(pairs, depth)
    ensures RawDepth(pairs) == depth
    decreases Pairs(pairs), 1
  {
    ChildDepthUniform(pairs, depth, |pairs|);
  }

  /** The selection with one candidate structure per level of the data, as
      `build_table_dict` asks ("one per depth level of datadict"). */
  function BuildOptimalOfDepth(datadict: seq<(string, Raw)>): Table
  {
    var n := RawDepth(datadict);
    RawDepthFits(datadict, n);
    StructuresFit(datadict, n);
    Pick(datadict, Structures(n))
  }

  /** Among all structures as long as the data is deep, the chosen one is
      the first of least ugliness, and it puts the root keys on the rows. */
  lemma {:induction false} OptimalOfDepthIsLeastUgly(datadict: seq<(string, Raw)>)
    ensures exists s ::
      && |s| == RawDepth(datadict) && s[0] == V && RawFits(datadict, |s|)
      && BuildOptimalOfDepth(datadict) == Build(datadict, s)
    ensures forall s :: |s| == RawDepth(datadict) ==>
      Ugliness(BuildOptimalOfDepth(datadict)) <= Ugliness(Build(datadict, s))
  {
    var n := RawDepth(datadict);
    RawDepthFits(datadict, n);
    var ss := Structures(n);
    StructuresFit(datadict, n);
    PickChoice(datadict, ss);
    PickStartsVertical(datadict, n);
    var k := FirstMinimum(Uglinesses(Tables(datadict, ss)));
    assert ss[k][0] == V;
    forall s' | |s'| == n ensures Ugliness(BuildOptimalOfDepth(datadict)) <= Ugliness(Build(datadict, s')) {
      StructuresComplete(n, s');
      var i :| 0 <= i < |ss| && ss[i] == s';
    }
  }

  /** For uniform data with distinct keys, the table built with any
      structure as long as the data is deep renders without an exception. */
  lemma {:induction false} UniformBuildRenders(datadict: seq<(string, Raw)>, s: seq<Axis>)
    requires RawUniform(datadict, |s|) && RawDistinct(datadict)
    ensures RawFits(datadict, |s|)
    ensures Tagged(Build(datadict, s).root, s, 0)
    ensures Html(Build(datadict, s)).Ok?
  {
    UniformFits(datadict, |s|);
    UniformBuild(datadict, s);
    RenderFacts.UniformHtmlOk(Build(datadict, s));
  }

  /** The table built from uniform data with distinct keys is tagged by its
      structure, keeps distinct keys and is as deep as its structure. */
  lemma {:induction false} UniformBuild(datadict: seq<(string, Raw)>, s: seq<Axis>)
    requires 0 < |s| && RawFits(datadict, |s|)
    requires RawUniform(datadict, |s|) && RawDistinct(datadict)
    ensures Tagged(Build(datadict, s).root, s, 0) && ValidTree(Build(datadict, s).root)
    ensures Uniform(Build(datadict, s).root, |s|)
  {
    BuildTableDictShape(datadict, s);
    StructuredUniform(datadict, s, 0, |s|);
  }

  /** Uniform data of depth `n` fits a structure of length `n`. */
  lemma {:induction false} UniformFits(datadict: seq<(string, Raw)>, n: nat)
    requires RawUniform(datadict, n)
    ensures RawFits(datadict, n)
  {
    RawDepthUniform(datadict, n);
    RawDepthFits(datadict, n);
  }

  /** With candidates as long as the data is deep, the chosen table of
      uniform data with distinct keys renders without an exception. */
  lemma {:induction false} OptimalOfDepthRenders(datadict: seq<(string, Raw)>, depth: nat)
    requires RawUniform(datadict, depth) && RawDistinct(datadict)
    ensures |BuildOptimalOfDepth(datadict).structure| == depth
    ensures Tagged(BuildOptimalOfDepth(datadict).root, BuildOptimalOfDepth(datadict).structure, 0)
    ensures Html(BuildOptimalOfDepth(datadict)).Ok?
  {
    RawDepthUniform(datadict, depth);
    OptimalOfDepthIsLeastUgly(datadict);
    var s :| |s| == depth && s[0] == V && RawFits(datadict, |s|) && BuildOptimalOfDepth(datadict) == Build(datadict, s);
    UniformBuildRenders(datadict, s);
  }
}
