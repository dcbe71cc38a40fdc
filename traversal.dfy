/** The two header traversals used to lay out a table
    (`_horizontal_header_iterator`, breadth-first, and
    `_vertical_header_iterator`, pre-order) and `_accessors_iterator`, which
    turns a header list into the key paths that address the data. */
module Traversal {
  import opened TableData
  import opened TableHeaders
  import opened Geometry

  /** One yielded triple `(header, depth, props)`: `props` lists the items of
      the properties dictionary, empty for a bare key. */
  datatype HeaderItem = HeaderItem(header: string, depth: nat, props: seq<(string, nat)>)

  /** The triple yielded for one header entry: a bare key has no property, a
      group spans (`span` is `colspan` or `rowspan`) the final length of its
      children. */
  function Spanned(e: Header, depth: nat, span: string): HeaderItem
  {
    match e
    case Leaf(k) => HeaderItem(k, depth, [])
    case Group(k, g) => HeaderItem(k, depth, [(span, FinalLength(g))])
  }

  /** The triples of one level, in order. */
  function LevelItems(hs: seq<Header>, depth: nat, span: string): seq<HeaderItem>
  {
    seq(|hs|, i requires 0 <= i < |hs| => Spanned(hs[i], depth, span))
  }

  /** The children of every group of `hs`, concatenated in order (the
      `to_be_explored` list). */
  function Children(hs: seq<Header>): seq<Header>
  {
    if hs == [] then []
    else (if hs[0].Group? then hs[0].children else []) + Children(hs[1..])
  }

  /** The number of header entries at every level of `hs`. */
  function Size(hs: seq<Header>): nat
  {
    if hs == [] then 0
    else (if hs[0].Group? then 1 + Size(hs[0].children) else 1) + Size(hs[1..])
  }

  lemma {:induction false} SizeAppend(a: seq<Header>, b: seq<Header>)
    ensures Size(a + b) == Size(a) + Size(b)
  {
    if a == [] {
      assert a + b == b;
    } else {
      assert (a + b)[0] == a[0] && (a + b)[1..] == a[1..] + b;
      SizeAppend(a[1..], b);
    }
  }

  lemma {:induction false} ChildrenAppend(a: seq<Header>, b: seq<Header>)
    ensures Children(a + b) == Children(a) + Children(b)
  {
    if a == [] {
      assert a + b == b;
    } else {
      assert (a + b)[0] == a[0] && (a + b)[1..] == a[1..] + b;
      ChildrenAppend(a[1..], b);
    }
  }

  /** Descending one level removes exactly the entries of that level. */
  lemma {:induction false} ChildrenSize(hs: seq<Header>)
    ensures Size(Children(hs)) + |hs| == Size(hs)
  {
    if hs != [] {
      ChildrenSize(hs[1..]);
      var own := if hs[0].Group? then hs[0].children else [];
      SizeAppend(own, Children(hs[1..]));
    }
  }

  /** Breadth-first order: the entries of one level, then those of the next
      level down, and so on. */
  function BreadthFirst(hs: seq<Header>, depth: nat): seq<HeaderItem>
    decreases Size(hs)
  {
    var next := Children(hs);
    ChildrenSize(hs);
    LevelItems(hs, depth, "colspan") + (if next == [] then [] else BreadthFirst(next, depth + 1))
  }

  /** `_horizontal_header_iterator(headers, depth)`, all its yields collected:
      an empty `headers` falls back to the horizontal headers of `t`; the
      children of the groups are gathered in `to_be_explored` and visited by
      a recursive call one level deeper. */
  method HorizontalHeaderIterator(t: Tree, headers: seq<Header>, depth: nat) returns (items: seq<HeaderItem>)
    ensures items == BreadthFirst(if headers == [] then Headers(t, H) else headers, depth)
    decreases if headers == [] then Size(Headers(t, H)) + 1 else Size(headers)
  {
    var hs := headers;
    if hs == [] {
      hs := GetHeaders(t, H);
    }
    var toBeExplored: seq<Header> := [];
    items := [];
    for i := 0 to |hs|
      invariant items == LevelItems(hs[..i], depth, "colspan")
      invariant toBeExplored == Children(hs[..i])
    {
      LevelSnoc(hs, i, depth, "colspan");
      match hs[i] {
        case Group(header, group) =>
          var n := GetFinalLength(group);
          items := items + [HeaderItem(header, depth, [("colspan", n)])];
          toBeExplored := toBeExplored + group;
        case Leaf(item) =>
          items := items + [HeaderItem(item, depth, [])];
      }
    }
    assert hs[..|hs|] == hs;
    ChildrenSize(hs);
    if toBeExplored != [] {
      var rest := HorizontalHeaderIterator(t, toBeExplored, depth + 1);
      items := items + rest;
    }
  }

  /** One more entry of a level: its triple and its children follow those
      of the entries before it. */
  lemma {:induction false} LevelSnoc(hs: seq<Header>, i: nat, depth: nat, span: string)
    requires i < |hs|
    ensures LevelItems(hs[..i + 1], depth, span) == LevelItems(hs[..i], depth, span) + [Spanned(hs[i], depth, span)]
    ensures Children(hs[..i + 1]) == Children(hs[..i]) + (if hs[i].Group? then hs[i].children else [])
  {
    assert hs[..i + 1] == hs[..i] + [hs[i]];
    ChildrenAppend(hs[..i], [hs[i]]);
    assert [hs[i]][1..] == [];
  }

  /** Pre-order: each entry, then (for a group) its children one level
      deeper, then the following entries. */
  function PreOrder(hs: seq<Header>, depth: nat, span: string): seq<HeaderItem>
  {
    if hs == [] then []
    else
      [Spanned(hs[0], depth, span)]
      + (if hs[0].Group? then PreOrder(hs[0].children, depth + 1, span) else [])
      + PreOrder(hs[1..], depth, span)
  }

  /** `_vertical_header_iterator(headers, depth)`: an empty `headers` falls
      back to the vertical headers of `t`. The recursive calls receive the
      children of a group, which are never empty in a well-formed list, so
      the fallback applies at the top only. */
  function VerticalHeaderIterator(t: Tree, headers: seq<Header>, depth: nat): seq<HeaderItem>
  {
    PreOrder(if headers == [] then Headers(t, V) else headers, depth, "rowspan")
  }

  /** What `_vertical_header_iterator(headers, depth)` yields, for the given
      headers or, when none are given, the vertical headers of `t`. */
  lemma {:induction false} VerticalIteratorShape(t: Tree, headers: seq<Header>, depth: nat)
    requires WellFormed(headers)
    ensures VerticalShape(VerticalHeaderIterator(t, headers, depth), if headers == [] then Headers(t, V) else headers, depth)
  {
    HeadersClean(t, V);
    PreOrderIsVertical(if headers == [] then Headers(t, V) else headers, depth);
  }

  /** Given headers, the vertical iterator is their pre-order. */
  lemma {:induction false} VerticalIteratorOfHeaders(t: Tree, headers: seq<Header>, depth: nat)
    requires headers != []
    ensures VerticalHeaderIterator(t, headers, depth) == PreOrder(headers, depth, "rowspan")
  {
  }

  /** What the vertical iterator promises about the triples `r` of the
      header list `hs`, listed from `depth` on: one triple per entry, as
      many bare keys as the final length, the first entry first, depths
      within the levels of `hs`, each group followed by its first child one
      level deeper, a bare key last, and the same triples as the horizontal
      iterator with `rowspan` for `colspan`. */
  ghost predicate VerticalShape(r: seq<HeaderItem>, hs: seq<Header>, depth: nat)
  {
    && |r| == Size(hs)
    && LeafCount(r) == FinalLength(hs)
    && (hs != [] ==> r[0] == Spanned(hs[0], depth, "rowspan"))
    && (forall i :: 0 <= i < |r| ==> depth <= r[i].depth < depth + Levels(hs))
    && PreOrderSteps(r)
    && (hs != [] ==> r[|r| - 1].props == [])
    && multiset(r) == multiset(Respanned(BreadthFirst(hs, depth), "rowspan"))
  }

  lemma {:induction false} PreOrderIsVertical(hs: seq<Header>, depth: nat)
    requires WellFormed(hs)
    ensures VerticalShape(PreOrder(hs, depth, "rowspan"), hs, depth)
  {
    PreOrderCounts(hs, depth, "rowspan");
    PreOrderDepths(hs, depth, "rowspan");
    PreOrderShape(hs, depth, "rowspan");
    BreadthFirstRespanned(hs, depth, "rowspan");
  }

  lemma {:induction false} PreOrderAppend(a: seq<Header>, b: seq<Header>, depth: nat, span: string)
    ensures PreOrder(a + b, depth, span) == PreOrder(a, depth, span) + PreOrder(b, depth, span)
  {
    if a == [] {
      assert a + b == b;
    } else {
      assert (a + b)[0] == a[0] && (a + b)[1..] == a[1..] + b;
      PreOrderAppend(a[1..], b, depth, span);
    }
  }

  /** The children of one entry. */
  function Own(e: Header): seq<Header>
  {
    if e.Group? then e.children else []
  }

  lemma {:induction false} LevelItemsCons(hs: seq<Header>, depth: nat, span: string)
    requires hs != []
    ensures LevelItems(hs, depth, span) == [Spanned(hs[0], depth, span)] + LevelItems(hs[1..], depth, span)
  {
  }

  /** Pre-order lists the same triples as the entries of the top level
      followed by the pre-order of the next level down. */
  lemma {:induction false} PreOrderSplit(hs: seq<Header>, depth: nat, span: string)
    ensures multiset(PreOrder(hs, depth, span))
         == multiset(LevelItems(hs, depth, span)) + multiset(PreOrder(Children(hs), depth + 1, span))
  {
    if hs != [] {
      var own := Own(hs[0]);
      var rest := hs[1..];
      var h0 := Spanned(hs[0], depth, span);
      var p1, p2 := PreOrder(own, depth + 1, span), PreOrder(rest, depth, span);
      assert PreOrder(hs, depth, span) == [h0] + p1 + p2;
      assert Children(hs) == own + Children(rest);
      LevelItemsCons(hs, depth, span);
      PreOrderSplit(rest, depth, span);
      PreOrderAppend(own, Children(rest), depth + 1, span);
      assert multiset([h0] + p1 + p2) == multiset([h0]) + multiset(p1) + multiset(p2);
    }
  }

  /** Both header iterators yield every header entry exactly once, each with
      the same span: the breadth-first order is a permutation of the
      pre-order. */
  lemma {:induction false} BreadthFirstPermutesPreOrder(hs: seq<Header>, depth: nat)
    ensures multiset(BreadthFirst(hs, depth)) == multiset(PreOrder(hs, depth, "colspan"))
    decreases Size(hs)
  {
    ChildrenSize(hs);
    PreOrderSplit(hs, depth, "colspan");
    var next := Children(hs);
    if next != [] {
      BreadthFirstPermutesPreOrder(next, depth + 1);
    }
  }

  /** A triple with the name of its span replaced by `span`. */
  function Respan(it: HeaderItem, span: string): HeaderItem
  {
    HeaderItem(it.header, it.depth, if it.props == [] then [] else [(span, it.props[0].1)])
  }

  function Respanned(r: seq<HeaderItem>, span: string): seq<HeaderItem>
  {
    seq(|r|, i requires 0 <= i < |r| => Respan(r[i], span))
  }

  lemma {:induction false} RespannedAppend(a: seq<HeaderItem>, b: seq<HeaderItem>, span: string)
    ensures Respanned(a + b, span) == Respanned(a, span) + Respanned(b, span)
  {
    var l, r := Respanned(a + b, span), Respanned(a, span) + Respanned(b, span);
    assert |l| == |r|;
    forall i | 0 <= i < |l|
      ensures l[i] == r[i]
    {
      if i < |a| {
        assert (a + b)[i] == a[i];
      } else {
        assert (a + b)[i] == b[i - |a|];
      }
    }
  }

  lemma {:induction false} RespannedLevel(hs: seq<Header>, depth: nat, span: string)
    ensures Respanned(LevelItems(hs, depth, "colspan"), span) == LevelItems(hs, depth, span)
  {
    var l, r := Respanned(LevelItems(hs, depth, "colspan"), span), LevelItems(hs, depth, span);
    assert |l| == |r|;
    forall i | 0 <= i < |l|
      ensures l[i] == r[i]
    {
      assert LevelItems(hs, depth, "colspan")[i] == Spanned(hs[i], depth, "colspan");
    }
  }

  /** The horizontal iterator's triples, with `colspan` renamed to `span`,
      are the pre-order triples rearranged. */
  lemma {:induction false} BreadthFirstRespanned(hs: seq<Header>, depth: nat, span: string)
    ensures multiset(Respanned(BreadthFirst(hs, depth), span)) == multiset(PreOrder(hs, depth, span))
    decreases Size(hs)
  {
    ChildrenSize(hs);
    PreOrderSplit(hs, depth, span);
    RespannedLevel(hs, depth, span);
    var level := LevelItems(hs, depth, "colspan");
    var next := Children(hs);
    if next == [] {
      assert BreadthFirst(hs, depth) == level;
      assert PreOrder(next, depth + 1, span) == [];
    } else {
      var rest := BreadthFirst(next, depth + 1);
      assert BreadthFirst(hs, depth) == level + rest;
      RespannedAppend(level, rest, span);
      BreadthFirstRespanned(next, depth + 1, span);
    }
  }

  /** Depths never go back up and go down at most one level at a time. */
  predicate LevelSteps(r: seq<HeaderItem>)
  {
    forall i :: 0 <= i < |r| - 1 ==> r[i].depth <= r[i + 1].depth <= r[i].depth + 1
  }

  predicate AllAtLeast(r: seq<HeaderItem>, depth: nat)
  {
    forall i :: 0 <= i < |r| ==> r[i].depth >= depth
  }

  /** A level at `depth` followed by a breadth-first run starting at
      `depth + 1` keeps the steps. */
  lemma {:induction false} LevelThenDeeper(level: seq<HeaderItem>, rest: seq<HeaderItem>, depth: nat)
    requires forall i :: 0 <= i < |level| ==> level[i].depth == depth
    requires rest != [] && rest[0].depth == depth + 1
    requires LevelSteps(rest) && AllAtLeast(rest, depth + 1)
    ensures LevelSteps(level + rest) && AllAtLeast(level + rest, depth)
  {
    var r := level + rest;
    forall i | 0 <= i < |r| - 1
      ensures r[i].depth <= r[i + 1].depth <= r[i].depth + 1
    {
      if i + 1 < |level| {
        assert r[i] == level[i] && r[i + 1] == level[i + 1];
      } else if i + 1 == |level| {
        assert r[i] == level[i] && r[i + 1] == rest[0];
      } else {
        assert r[i] == rest[i - |level|] && r[i + 1] == rest[i - |level| + 1];
      }
    }
  }

  /** The horizontal iterator starts at `depth`, never goes back up a level
      and goes down one level at a time, yielding one triple per entry. */
  lemma {:induction false} BreadthFirstDepths(hs: seq<Header>, depth: nat)
    ensures |BreadthFirst(hs, depth)| == Size(hs)
    ensures hs != [] ==> BreadthFirst(hs, depth)[0].depth == depth
    ensures AllAtLeast(BreadthFirst(hs, depth), depth)
    ensures LevelSteps(BreadthFirst(hs, depth))
    decreases Size(hs)
  {
    ChildrenSize(hs);
    var level := LevelItems(hs, depth, "colspan");
    var next := Children(hs);
    if next == [] {
      assert BreadthFirst(hs, depth) == level;
    } else {
      BreadthFirstDepths(next, depth + 1);
      var rest := BreadthFirst(next, depth + 1);
      assert BreadthFirst(hs, depth) == level + rest;
      LevelThenDeeper(level, rest, depth);
    }
  }

  /** Consecutive triples of a pre-order: after a group comes its first
      child, one level deeper; after a bare key comes an entry at the same
      level or higher up. */
  predicate PreOrderSteps(r: seq<HeaderItem>)
  {
    forall i :: 0 <= i < |r| - 1 ==>
      if r[i].props == [] then r[i + 1].depth <= r[i].depth else r[i + 1].depth == r[i].depth + 1
  }

  /** The number of bare keys (rows, for the vertical side) in `r`. */
  function LeafCount(r: seq<HeaderItem>): nat
  {
    if r == [] then 0 else (if r[0].props == [] then 1 else 0) + LeafCount(r[1..])
  }

  lemma {:induction false} LeafCountAppend(a: seq<HeaderItem>, b: seq<HeaderItem>)
    ensures LeafCount(a + b) == LeafCount(a) + LeafCount(b)
  {
    if a == [] {
      assert a + b == b;
    } else {
      assert (a + b)[0] == a[0] && (a + b)[1..] == a[1..] + b;
      LeafCountAppend(a[1..], b);
    }
  }

  lemma {:induction false} PreOrderUnfold(hs: seq<Header>, depth: nat, span: string)
    requires hs != []
    ensures PreOrder(hs, depth, span)
         == [Spanned(hs[0], depth, span)] + PreOrder(Own(hs[0]), depth + 1, span) + PreOrder(hs[1..], depth, span)
  {
  }

  /** The vertical iterator yields one triple per entry, and as many bare
      keys (rows) as the final length. */
  lemma {:induction false} PreOrderCounts(hs: seq<Header>, depth: nat, span: string)
    ensures |PreOrder(hs, depth, span)| == Size(hs)
    ensures LeafCount(PreOrder(hs, depth, span)) == FinalLength(hs)
  {
    if hs != [] {
      var head := [Spanned(hs[0], depth, span)];
      var sub := PreOrder(Own(hs[0]), depth + 1, span);
      var tail := PreOrder(hs[1..], depth, span);
      PreOrderUnfold(hs, depth, span);
      PreOrderCounts(hs[1..], depth, span);
      if hs[0].Group? {
        PreOrderCounts(hs[0].children, depth + 1, span);
      }
      LeafCountAppend(head, sub);
      LeafCountAppend(head + sub, tail);
      assert LeafCount(head) == if hs[0].Leaf? then 1 else 0;
    }
  }

  /** The vertical iterator starts at `depth` and stays within the levels of
      the list. */
  lemma {:induction false} PreOrderDepths(hs: seq<Header>, depth: nat, span: string)
    ensures hs != [] ==> PreOrder(hs, depth, span)[0].depth == depth
    ensures forall i :: 0 <= i < |PreOrder(hs, depth, span)| ==>
      depth <= PreOrder(hs, depth, span)[i].depth < depth + Levels(hs)
  {
    if hs != [] {
      var sub := PreOrder(Own(hs[0]), depth + 1, span);
      var tail := PreOrder(hs[1..], depth, span);
      PreOrderUnfold(hs, depth, span);
      PreOrderDepths(hs[1..], depth, span);
      if hs[0].Group? {
        PreOrderDepths(hs[0].children, depth + 1, span);
      }
      var lo := depth;
      var hi := depth + Levels(hs);
      assert Levels(hs) >= 1 + Levels(Own(hs[0])) && Levels(hs) >= Levels(hs[1..]);
      var head := [Spanned(hs[0], depth, span)];
      assert DepthsWithin(head, lo, hi);
      assert DepthsWithin(sub, lo, hi);
      assert DepthsWithin(tail, lo, hi);
      DepthsJoin(head, sub, lo, hi);
      DepthsJoin(head + sub, tail, lo, hi);
    }
  }

  /** Every depth of `items` lies in `lo .. hi - 1`. */
  predicate DepthsWithin(items: seq<HeaderItem>, lo: nat, hi: nat)
  {
    forall i :: 0 <= i < |items| ==> lo <= items[i].depth < hi
  }

  lemma {:induction false} DepthsJoin(a: seq<HeaderItem>, b: seq<HeaderItem>, lo: nat, hi: nat)
    requires DepthsWithin(a, lo, hi) && DepthsWithin(b, lo, hi)
    ensures DepthsWithin(a + b, lo, hi)
  {
    forall i | 0 <= i < |a + b| ensures lo <= (a + b)[i].depth < hi {
      if i < |a| {
        assert (a + b)[i] == a[i];
      } else {
        assert (a + b)[i] == b[i - |a|];
      }
    }
  }

  /** An entry followed by the pre-order of its children and by the
      pre-order of its following siblings keeps the pre-order steps. */
  lemma {:induction false} PreOrderStepsJoin(x: HeaderItem, sub: seq<HeaderItem>, tail: seq<HeaderItem>)
    requires PreOrderSteps(sub) && PreOrderSteps(tail)
    requires x.props == [] <==> sub == []
    requires sub != [] ==> sub[0].depth == x.depth + 1 && sub[|sub| - 1].props == []
    requires sub != [] ==> forall i :: 0 <= i < |sub| ==> sub[i].depth > x.depth
    requires tail != [] ==> tail[0].depth == x.depth
    ensures PreOrderSteps([x] + sub + tail)
  {
    var r := [x] + sub + tail;
    forall i | 0 <= i < |r| - 1
      ensures if r[i].props == [] then r[i + 1].depth <= r[i].depth else r[i + 1].depth == r[i].depth + 1
    {
      if i == 0 {
        if sub != [] {
          assert r[1] == sub[0];
        } else {
          assert r[1] == tail[0];
        }
      } else if i < |sub| {
        assert r[i] == sub[i - 1] && r[i + 1] == sub[i];
      } else if i == |sub| {
        assert r[i] == sub[i - 1] && r[i + 1] == tail[0];
      } else {
        assert r[i] == tail[i - 1 - |sub|] && r[i + 1] == tail[i - |sub|];
      }
    }
  }

  /** On a well-formed list the vertical iterator is a pre-order: each group
      is immediately followed by its first child one level deeper, a bare
      key by an entry at its own level or higher up, and the last triple is
      a bare key. */
  lemma {:induction false} PreOrderShape(hs: seq<Header>, depth: nat, span: string)
    requires WellFormed(hs)
    ensures PreOrderSteps(PreOrder(hs, depth, span))
    ensures hs != [] ==> PreOrder(hs, depth, span)[|PreOrder(hs, depth, span)| - 1].props == []
    decreases hs, 1
  {
    if hs != [] {
      WellFormedParts(hs);
      var x := Spanned(hs[0], depth, span);
      var sub := PreOrder(Own(hs[0]), depth + 1, span);
      var tail := PreOrder(hs[1..], depth, span);
      TailShape(hs, depth, span);
      HeadShape(hs, depth, span);
      PreOrderStepsJoin(x, sub, tail);
      PreOrderUnfold(hs, depth, span);
      LastOfJoin(x, sub, tail);
    }
  }

  /** The pre-order of the entries after the first starts at their level
      and ends with a bare key. */
  lemma {:induction false} TailShape(hs: seq<Header>, depth: nat, span: string)
    requires hs != [] && WellFormed(hs[1..])
    ensures var tail := PreOrder(hs[1..], depth, span);
            && PreOrderSteps(tail)
            && (tail != [] ==> tail[0].depth == depth && tail[|tail| - 1].props == [])
    decreases hs, 0
  {
    PreOrderShape(hs[1..], depth, span);
    PreOrderDepths(hs[1..], depth, span);
  }

  /** The first entry and the pre-order of its children: a group is
      followed by its first child one level deeper. */
  lemma {:induction false} HeadShape(hs: seq<Header>, depth: nat, span: string)
    requires hs != [] && WellFormed(hs)
    ensures var x := Spanned(hs[0], depth, span);
            var sub := PreOrder(Own(hs[0]), depth + 1, span);
            && PreOrderSteps(sub)
            && (x.props == [] <==> sub == [])
            && (sub != [] ==> sub[0].depth == x.depth + 1 && sub[|sub| - 1].props == [])
            && (sub != [] ==> forall i :: 0 <= i < |sub| ==> sub[i].depth > x.depth)
    decreases hs, 0
  {
    WellFormedParts(hs);
    if hs[0].Group? {
      NestedShape(hs[0].children, depth + 1, span);
    }
  }

  /** The pre-order of the children of a group, as its parent sees it. */
  lemma {:induction false} NestedShape(g: seq<Header>, depth: nat, span: string)
    requires g != [] && WellFormed(g)
    ensures PreOrder(g, depth, span) != [] && PreOrderSteps(PreOrder(g, depth, span))
    ensures PreOrder(g, depth, span)[0].depth == depth
    ensures PreOrder(g, depth, span)[|PreOrder(g, depth, span)| - 1].props == []
    ensures forall i :: 0 <= i < |PreOrder(g, depth, span)| ==> PreOrder(g, depth, span)[i].depth >= depth
    decreases g, 2
  {
    PreOrderShape(g, depth, span);
    PreOrderDepths(g, depth, span);
  }

  lemma {:induction false} LastOfJoin(x: HeaderItem, sub: seq<HeaderItem>, tail: seq<HeaderItem>)
    requires (x.props == [] <==> sub == [])
    requires sub != [] ==> sub[|sub| - 1].props == []
    requires tail != [] ==> tail[|tail| - 1].props == []
    ensures ([x] + sub + tail)[|[x] + sub + tail| - 1].props == []
  {
    var r := [x] + sub + tail;
    if tail == [] {
      if sub != [] {
        assert r[|r| - 1] == sub[|sub| - 1];
      }
    } else {
      assert r[|r| - 1] == tail[|tail| - 1];
    }
  }

  /** `_accessors_iterator(headers, parent)`, all its yields collected: one
      path per bare key, made of `parent`, the keys of the enclosing groups
      and the bare key. */
  function Paths(hs: seq<Header>, parent: seq<string>): seq<seq<string>>
  {
    if hs == [] then []
    else
      (match hs[0]
       case Leaf(k) => [parent + [k]]
       case Group(k, g) => Paths(g, parent + [k]))
      + Paths(hs[1..], parent)
  }

  /** `_accessors_iterator` yields exactly as many paths as the final
      length. */
  lemma {:induction false} PathsCount(hs: seq<Header>, parent: seq<string>)
    ensures |Paths(hs, parent)| == FinalLength(hs)
  {
    if hs != [] {
      PathsCount(hs[1..], parent);
      if hs[0].Group? {
        PathsCount(hs[0].children, parent + [hs[0].key]);
      }
    }
  }

  /** Every path of `qs` extends `parent` by at least one and at most `n`
      keys. */
  ghost predicate Extends(qs: seq<seq<string>>, parent: seq<string>, n: nat)
  {
    forall q :: q in qs ==> |parent| < |q| <= |parent| + n && q[..|parent|] == parent
  }

  /** Every path extends `parent` by at least one and at most `Levels(hs)`
      keys. */
  lemma {:induction false} PathsExtent(hs: seq<Header>, parent: seq<string>)
    ensures Extends(Paths(hs, parent), parent, Levels(hs))
    decreases hs, 1
  {
    if hs != [] {
      PathsExtent(hs[1..], parent);
      ExtentHead(hs, parent);
      ExtendsJoin(Paths(hs[0..1], parent), Paths(hs[1..], parent), parent, Levels(hs[1..]), Levels(hs));
      PathsUnfold(hs, parent);
    }
  }

  /** Reference reading of an accessor path: `q` leads through `hs` when
      its first key is a bare key of `hs` and nothing follows, or is the key
      of a group of `hs` and the rest leads through that group's children. */
  predicate IsRoute(hs: seq<Header>, q: seq<string>)
    decreases hs
  {
    q != [] &&
    (exists i :: 0 <= i < |hs| && hs[i].key == q[0] &&
       (if hs[i].Leaf? then |q| == 1 else IsRoute(hs[i].children, q[1..])))
  }

  /** A route leads through the first entry or through the rest. */
  lemma {:induction false} RouteCons(hs: seq<Header>, q: seq<string>)
    requires hs != []
    ensures IsRoute(hs, q) <==>
      (q != [] && hs[0].key == q[0] && (if hs[0].Leaf? then |q| == 1 else IsRoute(hs[0].children, q[1..])))
      || IsRoute(hs[1..], q)
  {
    if IsRoute(hs, q) {
      var i :| 0 <= i < |hs| && hs[i].key == q[0] &&
        (if hs[i].Leaf? then |q| == 1 else IsRoute(hs[i].children, q[1..]));
      if i > 0 {
        assert hs[1..][i - 1] == hs[i];
      }
    }
    if IsRoute(hs[1..], q) {
      var j :| 0 <= j < |hs[1..]| && hs[1..][j].key == q[0] &&
        (if hs[1..][j].Leaf? then |q| == 1 else IsRoute(hs[1..][j].children, q[1..]));
      assert hs[j + 1] == hs[1..][j];
    }
  }

  /** `_accessors_iterator(headers, parent)` yields exactly the paths made
      of `parent` followed by a route through `headers`: the keys of the
      groups above a bare key, then that key. */
  lemma {:induction false} PathsAreRoutes(hs: seq<Header>, parent: seq<string>, q: seq<string>)
    ensures q in Paths(hs, parent) <==>
      |q| > |parent| && q[..|parent|] == parent && IsRoute(hs, q[|parent|..])
    decreases hs, 1
  {
    if hs != [] {
      PathsUnfold(hs, parent);
      PathsAreRoutes(hs[1..], parent, q);
      HeadRoutes(hs, parent, q);
      if |q| >= |parent| {
        RouteCons(hs, q[|parent|..]);
      }
    }
  }

  /** The paths of the first entry alone. */
  lemma {:induction false} HeadRoutes(hs: seq<Header>, parent: seq<string>, q: seq<string>)
    requires hs != []
    ensures q in Paths(hs[0..1], parent) <==>
      |q| > |parent| && q[..|parent|] == parent &&
      hs[0].key == q[|parent|] &&
      (if hs[0].Leaf? then |q| == |parent| + 1 else IsRoute(hs[0].children, q[|parent| + 1..]))
    decreases hs, 0
  {
    assert hs[0..1][0] == hs[0] && hs[0..1][1..] == [];
    match hs[0]
    case Leaf(k) =>
      assert Paths(hs[0..1], parent) == [parent + [k]];
      ExtendedByOne(parent, k, q);
    case Group(k, g) =>
      assert Paths(hs[0..1], parent) == Paths(g, parent + [k]);
      PathsAreRoutes(g, parent + [k], q);
      if |q| > |parent| {
        ExtendedPrefix(parent, k, q);
      }
  }

  /** `q` is `parent` followed by the one key `k`. */
  lemma {:induction false} ExtendedByOne(parent: seq<string>, k: string, q: seq<string>)
    ensures q == parent + [k] <==>
      |q| == |parent| + 1 && q[..|parent|] == parent && q[|parent|] == k
  {
    if |q| == |parent| + 1 {
      assert q == q[..|parent|] + [q[|parent|]];
    }
  }

  /** `q` starts with `parent` followed by `k`. */
  lemma {:induction false} ExtendedPrefix(parent: seq<string>, k: string, q: seq<string>)
    requires |q| > |parent|
    ensures |q| > |parent| + 1 ==>
      (q[..|parent| + 1] == parent + [k] <==> q[..|parent|] == parent && q[|parent|] == k)
  {
    if |q| > |parent| + 1 {
      assert q[..|parent| + 1] == q[..|parent|] + [q[|parent|]];
    }
  }

  /** With no parent, the paths are exactly the routes. */
  lemma {:induction false} PathsOfRoutes(hs: seq<Header>)
    ensures forall q :: q in Paths(hs, []) <==> IsRoute(hs, q)
  {
    forall q
      ensures q in Paths(hs, []) <==> IsRoute(hs, q)
    {
      PathsAreRoutes(hs, [], q);
      assert q[..0] == [] && q[0..] == q;
    }
  }

  lemma {:induction false} PathsUnfold(hs: seq<Header>, parent: seq<string>)
    requires hs != []
    ensures Paths(hs, parent) == Paths(hs[0..1], parent) + Paths(hs[1..], parent)
  {
    assert hs[0..1][1..] == [];
    assert Paths(hs[0..1], parent) == Paths(hs[0..1], parent) + [];
  }

  /** The paths of the first entry extend `parent` by at most `Levels(hs)`. */
  lemma {:induction false} ExtentHead(hs: seq<Header>, parent: seq<string>)
    requires hs != []
    ensures Extends(Paths(hs[0..1], parent), parent, Levels(hs))
    decreases hs, 0
  {
    assert hs[0..1][1..] == [];
    match hs[0] {
      case Leaf(k) =>
        assert Paths(hs[0..1], parent) == [parent + [k]];
        assert (parent + [k])[..|parent|] == parent;
      case Group(k, g) =>
        PathsExtent(g, parent + [k]);
        assert Paths(hs[0..1], parent) == Paths(g, parent + [k]);
        assert Levels(hs) >= 1 + Levels(g);
        ExtendsDeeper(Paths(g, parent + [k]), parent, k, Levels(g), Levels(hs));
    }
  }

  lemma {:induction false} ExtendsDeeper(qs: seq<seq<string>>, parent: seq<string>, k: string, n: nat, bound: nat)
    requires Extends(qs, parent + [k], n) && bound >= 1 + n
    ensures Extends(qs, parent, bound)
  {
    forall q | q in qs
      ensures |parent| < |q| <= |parent| + bound && q[..|parent|] == parent
    {
      assert q[..|parent| + 1] == parent + [k];
      assert q[..|parent|] == q[..|parent| + 1][..|parent|];
    }
  }

  lemma {:induction false} ExtendsJoin(a: seq<seq<string>>, b: seq<seq<string>>, parent: seq<string>, n: nat, bound: nat)
    requires Extends(a, parent, bound) && Extends(b, parent, n) && bound >= n
    ensures Extends(a + b, parent, bound)
  {
  }

  /** The last key of a path. */
  function LastKey(q: seq<string>): string
  {
    if q == [] then "" else q[|q| - 1]
  }

  function LastKeys(qs: seq<seq<string>>): seq<string>
  {
    seq(|qs|, i requires 0 <= i < |qs| => LastKey(qs[i]))
  }

  /** The labels of the bare keys of `r`, in order. */
  function LeafLabels(r: seq<HeaderItem>): seq<string>
  {
    if r == [] then [] else (if r[0].props == [] then [r[0].header] else []) + LeafLabels(r[1..])
  }

  lemma {:induction false} LeafLabelsAppend(a: seq<HeaderItem>, b: seq<HeaderItem>)
    ensures LeafLabels(a + b) == LeafLabels(a) + LeafLabels(b)
  {
    if a == [] {
      assert a + b == b;
    } else {
      assert (a + b)[0] == a[0] && (a + b)[1..] == a[1..] + b;
      LeafLabelsAppend(a[1..], b);
    }
  }

  /** The paths end with the bare keys in the order the vertical iterator
      visits them (pre-order). */
  lemma {:induction false} PathsFollowPreOrder(hs: seq<Header>, parent: seq<string>, depth: nat, span: string)
    ensures LastKeys(Paths(hs, parent)) == LeafLabels(PreOrder(hs, depth, span))
    decreases hs, 1
  {
    if hs != [] {
      var head := [Spanned(hs[0], depth, span)] + PreOrder(Own(hs[0]), depth + 1, span);
      PathsUnfold(hs, parent);
      PreOrderUnfold(hs, depth, span);
      PathsFollowPreOrder(hs[1..], parent, depth, span);
      FollowHead(hs, parent, depth, span);
      LastKeysAppend(Paths(hs[0..1], parent), Paths(hs[1..], parent));
      LeafLabelsAppend(head, PreOrder(hs[1..], depth, span));
    }
  }

  /** The paths of the first entry end with the bare keys of its pre-order. */
  lemma {:induction false} FollowHead(hs: seq<Header>, parent: seq<string>, depth: nat, span: string)
    requires hs != []
    ensures LastKeys(Paths(hs[0..1], parent))
         == LeafLabels([Spanned(hs[0], depth, span)] + PreOrder(Own(hs[0]), depth + 1, span))
    decreases hs, 0
  {
    var e := hs[0];
    var head := [Spanned(e, depth, span)];
    var sub := PreOrder(Own(e), depth + 1, span);
    assert hs[0..1][1..] == [];
    LeafLabelsAppend(head, sub);
    assert head[1..] == [];
    match e {
      case Leaf(k) =>
        assert Paths(hs[0..1], parent) == [parent + [k]];
        assert LeafLabels(head) == [k] + LeafLabels(head[1..]);
        assert sub == [];
      case Group(k, g) =>
        assert Paths(hs[0..1], parent) == Paths(g, parent + [k]) + [];
        PathsFollowPreOrder(g, parent + [k], depth + 1, span);
        assert LeafLabels(head) == [] + LeafLabels(head[1..]);
    }
  }

  lemma {:induction false} LastKeysAppend(a: seq<seq<string>>, b: seq<seq<string>>)
    ensures LastKeys(a + b) == LastKeys(a) + LastKeys(b)
  {
  }

  /** Every bare key of `hs` sits exactly `n` levels below the top, and
      every group has children. */
  predicate LeafDepth(hs: seq<Header>, n: nat)
    decreases hs
  {
    forall e :: e in hs ==>
      match e
      case Leaf(_) => n == 1
      case Group(_, g) => n >= 2 && g != [] && LeafDepth(g, n - 1)
  }

  /** When every bare key sits `n` levels down, every path has exactly `n`
      keys beyond `parent`. */
  lemma {:induction false} PathsOfLeafDepth(hs: seq<Header>, parent: seq<string>, n: nat)
    requires LeafDepth(hs, n)
    ensures forall q :: q in Paths(hs, parent) ==> |q| == |parent| + n
  {
    if hs != [] {
      assert hs[0] in hs;
      assert LeafDepth(hs[1..], n) by {
        assert forall e :: e in hs[1..] ==> e in hs;
      }
      PathsOfLeafDepth(hs[1..], parent, n);
      if hs[0].Group? {
        PathsOfLeafDepth(hs[0].children, parent + [hs[0].key], n - 1);
      }
    }
  }

  /** When every bare key sits `n` levels down, the pre-order has its bare
      keys at depth `depth + n - 1` and its groups above, and the list has
      `n` levels. */
  lemma {:induction false} PreOrderOfLeafDepth(hs: seq<Header>, depth: nat, span: string, n: nat)
    requires LeafDepth(hs, n)
    ensures hs != [] ==> Levels(hs) == n
    ensures forall i :: 0 <= i < |PreOrder(hs, depth, span)| ==>
      if PreOrder(hs, depth, span)[i].props == [] then PreOrder(hs, depth, span)[i].depth + 1 == depth + n
      else PreOrder(hs, depth, span)[i].depth + 1 < depth + n
  {
    if hs != [] {
      assert hs[0] in hs;
      assert LeafDepth(hs[1..], n) by {
        assert forall e :: e in hs[1..] ==> e in hs;
      }
      PreOrderOfLeafDepth(hs[1..], depth, span, n);
      var head := [Spanned(hs[0], depth, span)];
      var sub := if hs[0].Group? then PreOrder(hs[0].children, depth + 1, span) else [];
      var tail := PreOrder(hs[1..], depth, span);
      assert PreOrder(hs, depth, span) == head + sub + tail;
      if hs[0].Group? {
        PreOrderOfLeafDepth(hs[0].children, depth + 1, span, n - 1);
      }
      assert LeafBand(head, depth + n);
      assert LeafBand(sub, depth + n);
      LeafBandJoin(head, sub, depth + n);
      LeafBandJoin(head + sub, tail, depth + n);
    }
  }

  /** Bare keys at depth `bottom - 1`, groups above it. */
  predicate LeafBand(items: seq<HeaderItem>, bottom: nat)
  {
    forall i :: 0 <= i < |items| ==>
      if items[i].props == [] then items[i].depth + 1 == bottom else items[i].depth + 1 < bottom
  }

  lemma {:induction false} LeafBandJoin(a: seq<HeaderItem>, b: seq<HeaderItem>, bottom: nat)
    requires LeafBand(a, bottom) && LeafBand(b, bottom)
    ensures LeafBand(a + b, bottom)
  {
    forall i | 0 <= i < |a + b|
      ensures if (a + b)[i].props == [] then (a + b)[i].depth + 1 == bottom else (a + b)[i].depth + 1 < bottom
    {
      if i < |a| {
        assert (a + b)[i] == a[i];
      } else {
        assert (a + b)[i] == b[i - |a|];
      }
    }
  }
}
