/** Header geometry: `_get_headers_depth`, the number of header rows (or
    columns) a header list needs, and `_get_final_length`, the number of
    leaf headers under a list, which gives spans and the width of a data
    row. */
module Geometry {
  import opened TableHeaders

  function Max(a: int, b: int): int
  {
    if a >= b then a else b
  }

  /** Python's `max_depth(l)` (lines 97-98) on a non-empty header list: one
      more than the deepest of its elements. */
  function ListDepth(hs: seq<Header>): nat
    requires hs != [] && WellFormed(hs)
    decreases hs, 1
  {
    1 + ElementsDepth(hs)
  }

  /** `max(map(max_depth, l))`: a bare key is not a list and counts 0 (`False`);
      a group is the two-element list `[key, children]` and counts one more
      than the larger of 0 and the depth of its children. */
  function ElementsDepth(hs: seq<Header>): nat
    requires hs != [] && WellFormed(hs)
    decreases hs, 0
  {
    var first := match hs[0]
      case Leaf(_) => 0
      case Group(_, g) => 1 + Max(0, ListDepth(g));
    if |hs| == 1 then first
    else
      assert WellFormed(hs[1..]) by { assert forall e :: e in hs[1..] ==> e in hs; }
      Max(first, ElementsDepth(hs[1..]))
  }

  /** `_get_headers_depth`: 1 for an empty list, otherwise `d - d // 2` where
      `d` is `max_depth(headers)`. */
  function HeadersDepth(hs: seq<Header>): nat
    requires WellFormed(hs)
  {
    if hs == [] then 1
    else
      var d := ListDepth(hs);
      d - d / 2
  }

  /** The number of header levels: a leaf is one level, a group one level
      above the levels of its children. */
  function Levels(hs: seq<Header>): nat
    decreases hs
  {
    if hs == [] then 0
    else
      var first := match hs[0]
        case Leaf(_) => 1
        case Group(_, g) => 1 + Levels(g);
      Max(first, Levels(hs[1..]))
  }

  /** The levels of two lists side by side are those of the deeper one. */
  lemma {:induction false} LevelsAppend(a: seq<Header>, b: seq<Header>)
    ensures Levels(a + b) == Max(Levels(a), Levels(b))
    decreases a
  {
    if a == [] {
      assert a + b == b;
    } else {
      assert (a + b)[0] == a[0] && (a + b)[1..] == a[1..] + b;
      LevelsAppend(a[1..], b);
    }
  }

  /** The number of leaf headers at the bottom of `hs`. */
  function FinalLength(hs: seq<Header>): nat
    decreases hs
  {
    if hs == [] then 0
    else
      (match hs[0]
       case Leaf(_) => 1
       case Group(_, g) => FinalLength(g))
      + FinalLength(hs[1..])
  }

  /** `_get_final_length`, with its `total +=` accumulator. */
  method GetFinalLength(l: seq<Header>) returns (total: nat)
    ensures total == FinalLength(l)
    decreases l
  {
    total := 0;
    for i := 0 to |l|
      invariant FinalLength(l) == total + FinalLength(l[i..])
    {
      assert l[i..][1..] == l[i + 1..];
      match l[i] {
        case Group(header, group) =>
          var n := GetFinalLength(group);
          total := total + n;
        case Leaf(_) =>
          total := total + 1;
      }
    }
  }

  /** Python's `max_depth` of a header list is always odd, `2 * levels - 1`,
      so `_get_headers_depth` is exactly the number of header levels: 1 for
      an empty or a flat list, one more per level of groups. */
  lemma {:induction false} HeadersDepthIsLevels(hs: seq<Header>)
    requires WellFormed(hs)
    ensures hs != [] ==> ListDepth(hs) == 2 * Levels(hs) - 1 && Levels(hs) >= 1
    ensures HeadersDepth(hs) == if hs == [] then 1 else Levels(hs)
    ensures HeadersDepth(hs) >= 1
  {
    if hs != [] {
      ElementsDepthIsLevels(hs);
    }
  }

  lemma {:induction false} ElementsDepthIsLevels(hs: seq<Header>)
    requires hs != [] && WellFormed(hs)
    ensures ElementsDepth(hs) == 2 * Levels(hs) - 2 && Levels(hs) >= 1
    decreases hs
  {
    match hs[0] {
      case Leaf(_) =>
      case Group(_, g) =>
        ElementsDepthIsLevels(g);
    }
    if |hs| > 1 {
      assert WellFormed(hs[1..]) by { assert forall e :: e in hs[1..] ==> e in hs; }
      ElementsDepthIsLevels(hs[1..]);
    } else {
      assert hs[1..] == [];
    }
  }

  /** The leaf count adds up over concatenation. */
  lemma {:induction false} FinalLengthAppend(a: seq<Header>, b: seq<Header>)
    ensures FinalLength(a + b) == FinalLength(a) + FinalLength(b)
    decreases a
  {
    if a != [] {
      assert (a + b)[0] == a[0] && (a + b)[1..] == a[1..] + b;
      FinalLengthAppend(a[1..], b);
    } else {
      assert a + b == b;
    }
  }

  /** Every entry of a well-formed list has at least one leaf under it, so
      the final length is at least the length, and 0 exactly for `[]`. */
  lemma {:induction false} FinalLengthBounds(hs: seq<Header>)
    requires WellFormed(hs)
    ensures FinalLength(hs) >= |hs|
    ensures FinalLength(hs) == 0 <==> hs == []
    decreases hs
  {
    if hs != [] {
      assert WellFormed(hs[1..]) by { assert forall e :: e in hs[1..] ==> e in hs; }
      FinalLengthBounds(hs[1..]);
      match hs[0] {
        case Leaf(_) =>
        case Group(_, g) =>
          assert hs[0] in hs;
          FinalLengthBounds(g);
      }
    }
  }

  /** The three examples of the docstring of `_get_headers_depth`: bare
      keys are one level deep, ... */
  lemma HeadersDepthOfKeys()
    ensures WellFormed([Leaf("1"), Leaf("2"), Leaf("3")])
    ensures HeadersDepth([Leaf("1"), Leaf("2"), Leaf("3")]) == 1
  {
    var flat := [Leaf("1"), Leaf("2"), Leaf("3")];
    assert WellFormed(flat);
    HeadersDepthIsLevels(flat);
  }

  /** ... groups of keys two, ... */
  lemma HeadersDepthOfGroups()
    ensures WellFormed([Group("1", [Leaf("11"), Leaf("12")]), Group("2", [Leaf("21"), Leaf("22")])])
    ensures HeadersDepth([Group("1", [Leaf("11"), Leaf("12")]), Group("2", [Leaf("21"), Leaf("22")])]) == 2
  {
    var two := [Group("1", [Leaf("11"), Leaf("12")]), Group("2", [Leaf("21"), Leaf("22")])];
    assert WellFormed([Leaf("11"), Leaf("12")]);
    assert WellFormed([Leaf("21"), Leaf("22")]);
    assert WellFormed(two);
    HeadersDepthIsLevels(two);
  }

  /** ... and a group of a group three. */
  lemma HeadersDepthOfNested()
    ensures WellFormed([Group("1", [Group("11", [Leaf("111"), Leaf("112")])])])
    ensures HeadersDepth([Group("1", [Group("11", [Leaf("111"), Leaf("112")])])]) == 3
  {
    var three := [Group("1", [Group("11", [Leaf("111"), Leaf("112")])])];
    assert WellFormed([Leaf("111"), Leaf("112")]);
    assert WellFormed([Group("11", [Leaf("111"), Leaf("112")])]);
    assert WellFormed(three);
    HeadersDepthIsLevels(three);
  }
}
