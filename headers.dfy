/** `TableDict._get_headers`: the nested header list of one side of the
    table. A dictionary whose class is that side contributes one header per
    key, grouped with the headers of the nested dictionary below it; a
    dictionary of the other class contributes no key of its own and merges
    the header lists of its children, dropping repeats. */
module TableHeaders {
  import opened TableData

  /** A header entry: a bare key, or a key with the non-empty list of the
      headers nested under it (the Python list `[key, children]`). */
  datatype Header = Leaf(key: string) | Group(key: string, children: seq<Header>)

  predicate NoDup(hs: seq<Header>)
  {
    forall i, j :: 0 <= i < j < |hs| ==> hs[i] != hs[j]
  }

  /** Every group has at least one child, at every level. */
  predicate WellFormed(hs: seq<Header>)
    decreases hs
  {
    forall e :: e in hs && e.Group? ==> e.children != [] && WellFormed(e.children)
  }

  /** A well-formed header list without a repeated entry at any level. */
  predicate Clean(hs: seq<Header>)
    decreases hs
  {
    NoDup(hs) && forall e :: e in hs && e.Group? ==> e.children != [] && Clean(e.children)
  }

  /** The tail of a well-formed list and the children of its first group
      are well-formed. */
  lemma {:induction false} WellFormedParts(hs: seq<Header>)
    requires hs != [] && WellFormed(hs)
    ensures WellFormed(hs[1..])
    ensures hs[0].Group? ==> hs[0].children != [] && WellFormed(hs[0].children)
  {
    assert hs[0] in hs;
    assert forall e :: e in hs[1..] ==> e in hs;
  }

  lemma {:induction false} WellFormedAppend(a: seq<Header>, b: seq<Header>)
    requires WellFormed(a) && WellFormed(b)
    ensures WellFormed(a + b)
  {
    assert forall e :: e in a + b ==> e in a || e in b;
  }

  /** Lines 62-64: appends each header of `more` that is not yet in the list. */
  function Merge(acc: seq<Header>, more: seq<Header>): seq<Header>
    decreases |more|
  {
    if more == [] then acc
    else
      var m := Merge(acc, more[..|more| - 1]);
      if more[|more| - 1] in m then m else m + [more[|more| - 1]]
  }

  /** Lines 62-64, the inner loop: each child header not yet in the list
      is appended to it. */
  method MergeInto(headers: seq<Header>, more: seq<Header>) returns (r: seq<Header>)
    ensures r == Merge(headers, more)
  {
    r := headers;
    for j := 0 to |more|
      invariant r == Merge(headers, more[..j])
    {
      assert more[..j + 1][..j] == more[..j];
      if more[j] !in r {
        r := r + [more[j]];
      }
    }
    assert more[..|more|] == more;
  }

  /** The headers of `t` on `side`. */
  function Headers(t: Tree, side: Axis): seq<Header>
    decreases t, 1
  {
    Collect(t, side, |t.entries|)
  }

  /** The header list after the loop of `_get_headers` has visited the first
      `n` items of `t`. */
  function Collect(t: Tree, side: Axis, n: nat): seq<Header>
    requires n <= |t.entries|
    decreases t, 0, n
  {
    if n == 0 then []
    else
      var acc := Collect(t, side, n - 1);
      var k := t.entries[n - 1].0;
      var v := t.entries[n - 1].1;
      if v.Sub? && Headers(v.tree, side) != [] then
        if t.axis == side then acc + [Group(k, Headers(v.tree, side))]
        else Merge(acc, Headers(v.tree, side))
      else if t.axis == side && Leaf(k) !in acc then acc + [Leaf(k)]
      else acc
  }

  /** `_get_headers`, with its list appends and membership checks. */
  method GetHeaders(t: Tree, side: Axis) returns (headers: seq<Header>)
    ensures headers == Headers(t, side)
    decreases t
  {
    headers := [];
    for i := 0 to |t.entries|
      invariant headers == Collect(t, side, i)
    {
      var (k, v) := t.entries[i];
      if v.Sub? {
        var childHeaders := GetHeaders(v.tree, side);
        if childHeaders != [] {
          if t.axis == side {
            headers := headers + [Group(k, childHeaders)];
          } else {
            headers := MergeInto(headers, childHeaders);
          }
          continue;
        }
      }
      if t.axis == side && Leaf(k) !in headers {
        headers := headers + [Leaf(k)];
      }
    }
  }

  /** The header a dictionary of class `side` gives one of its items: a
      group when the nested dictionary has headers on that side, a leaf
      otherwise. */
  function OwnHeader(item: (string, Value), side: Axis): Header
  {
    if item.1.Sub? && Headers(item.1.tree, side) != [] then Group(item.0, Headers(item.1.tree, side))
    else Leaf(item.0)
  }

  /** Merging keeps the list built so far as a prefix, adds exactly the
      missing members of `more`, and adds no repeat. */
  lemma {:induction false} MergeFacts(acc: seq<Header>, more: seq<Header>)
    ensures |Merge(acc, more)| >= |acc| && Merge(acc, more)[..|acc|] == acc
    ensures forall h :: h in Merge(acc, more) <==> h in acc || h in more
    ensures NoDup(acc) ==> NoDup(Merge(acc, more))
    ensures more != [] ==> Merge(acc, more) != []
    decreases |more|
  {
    if more != [] {
      MergeFacts(acc, more[..|more| - 1]);
      var m := Merge(acc, more[..|more| - 1]);
      var last := more[|more| - 1];
      assert more == more[..|more| - 1] + [last];
      if last !in m {
        assert (m + [last])[..|acc|] == m[..|acc|];
      }
    }
  }

  /** A dictionary of class `side` with distinct keys yields exactly one
      header per key, in key order. */
  lemma {:induction false} MatchingHeaders(t: Tree, side: Axis)
    requires t.axis == side && DistinctKeys(t.entries)
    ensures |Headers(t, side)| == |t.entries|
    ensures forall i :: 0 <= i < |t.entries| ==> Headers(t, side)[i] == OwnHeader(t.entries[i], side)
  {
    MatchingCollect(t, side, |t.entries|);
  }

  lemma {:induction false} MatchingCollect(t: Tree, side: Axis, n: nat)
    requires n <= |t.entries|
    requires t.axis == side && DistinctKeys(t.entries)
    ensures |Collect(t, side, n)| == n
    ensures forall i :: 0 <= i < n ==> Collect(t, side, n)[i] == OwnHeader(t.entries[i], side)
    decreases n
  {
    if n > 0 {
      MatchingCollect(t, side, n - 1);
      var acc := Collect(t, side, n - 1);
      var k := t.entries[n - 1].0;
      assert Leaf(k) !in acc by {
        forall i | 0 <= i < n - 1 ensures acc[i] != Leaf(k) {
          assert acc[i].key == t.entries[i].0;
        }
      }
    }
  }

  /** A dictionary of the other class adds none of its own keys: its
      headers are exactly the headers of its nested dictionaries. */
  lemma {:induction false} CrossHeaders(t: Tree, side: Axis)
    requires t.axis != side
    ensures forall h :: h in Headers(t, side) <==>
      exists i :: 0 <= i < |t.entries| && t.entries[i].1.Sub? && h in Headers(t.entries[i].1.tree, side)
  {
    CrossCollect(t, side, |t.entries|);
  }

  lemma {:induction false} CrossCollect(t: Tree, side: Axis, n: nat)
    requires n <= |t.entries|
    requires t.axis != side
    ensures forall h :: h in Collect(t, side, n) <==>
      exists i :: 0 <= i < n && t.entries[i].1.Sub? && h in Headers(t.entries[i].1.tree, side)
    decreases n
  {
    if n > 0 {
      CrossCollect(t, side, n - 1);
      var v := t.entries[n - 1].1;
      if v.Sub? && Headers(v.tree, side) != [] {
        MergeFacts(Collect(t, side, n - 1), Headers(v.tree, side));
      }
    }
  }

  /** `_get_headers` never returns a group without children, and, when keys
      are distinct, never a repeated entry at any level. */
  lemma {:induction false} HeadersClean(t: Tree, side: Axis)
    ensures WellFormed(Headers(t, side))
    ensures ValidTree(t) ==> Clean(Headers(t, side))
    decreases t, 1
  {
    CollectClean(t, side, |t.entries|);
  }

  lemma {:induction false} CollectClean(t: Tree, side: Axis, n: nat)
    requires n <= |t.entries|
    ensures WellFormed(Collect(t, side, n))
    ensures ValidTree(t) ==> Clean(Collect(t, side, n))
    decreases t, 0, n
  {
    if n > 0 {
      CollectClean(t, side, n - 1);
      var acc := Collect(t, side, n - 1);
      var k := t.entries[n - 1].0;
      var v := t.entries[n - 1].1;
      if v.Sub? && Headers(v.tree, side) != [] {
        var ch := Headers(v.tree, side);
        HeadersClean(v.tree, side);
        if t.axis == side {
          if ValidTree(t) {
            assert ValidTree(v.tree);
            MatchingCollect(t, side, n - 1);
            NewGroup(t, side, n - 1, ch);
          }
          SnocClean(acc, Group(k, ch));
        } else {
          MergeClean(acc, ch);
        }
      } else {
        SnocClean(acc, Leaf(k));
      }
    }
  }

  /** The group of entry `n` is not among the headers of the entries
      before it: their keys differ. */
  lemma {:induction false} NewGroup(t: Tree, side: Axis, n: nat, ch: seq<Header>)
    requires n < |t.entries| && t.axis == side && DistinctKeys(t.entries)
    requires |Collect(t, side, n)| == n
    requires forall i :: 0 <= i < n ==> Collect(t, side, n)[i] == OwnHeader(t.entries[i], side)
    ensures Group(t.entries[n].0, ch) !in Collect(t, side, n)
  {
    var acc := Collect(t, side, n);
    forall i | 0 <= i < n ensures acc[i] != Group(t.entries[n].0, ch) {
      assert acc[i].key == t.entries[i].0;
    }
  }

  /** Appending an entry keeps a list well-formed, and clean when the entry
      is new. */
  lemma {:induction false} SnocClean(acc: seq<Header>, e: Header)
    ensures WellFormed(acc) && (e.Group? ==> e.children != [] && WellFormed(e.children)) ==> WellFormed(acc + [e])
    ensures Clean(acc) && e !in acc && (e.Group? ==> e.children != [] && Clean(e.children)) ==> Clean(acc + [e])
  {
    assert forall h :: h in acc + [e] ==> h in acc || h == e;
    var r := acc + [e];
    if Clean(acc) && e !in acc {
      forall i, j | 0 <= i < j < |r| ensures r[i] != r[j] {
        if j == |acc| {
          assert r[i] == acc[i];
        } else {
          assert r[i] == acc[i] && r[j] == acc[j];
        }
      }
    }
  }

  /** Merging keeps lists well-formed, and clean. */
  lemma {:induction false} MergeClean(acc: seq<Header>, more: seq<Header>)
    ensures WellFormed(acc) && WellFormed(more) ==> WellFormed(Merge(acc, more))
    ensures Clean(acc) && Clean(more) ==> Clean(Merge(acc, more))
  {
    MergeFacts(acc, more);
  }
}
