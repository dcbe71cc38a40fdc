/** The data container of `html_nested_tables`: nested ordered dictionaries
    (`TableDict`) whose class, `h` or `v`, says on which side of the table a
    node's own keys become headers, and `build_table_dict`, which turns nested
    association lists into such dictionaries by applying a structure, one axis
    per nesting level. */
module TableData {

  datatype Option<T> = None | Some(value: T)

  /** The two `TableDict` subclasses: `VerticalTableDict` (`v`) puts a node's
      keys on the rows, `HorizontalTableDict` (`h`) on the columns. */
  datatype Axis = V | H

  /** A terminal value of the data: a number, a text or Python's `None`. */
  datatype Scalar = Int(n: int) | Text(s: string) | Null

  /** Python truthiness of a terminal value: `0`, `''` and `None` are false. */
  predicate Truthy(c: Scalar)
  {
    match c
    case Int(n) => n != 0
    case Text(s) => s != ""
    case Null => false
  }

  /** Raw input of `build_table_dict`: a value is a scalar or a tuple of
      (key, value) pairs. */
  datatype Raw = Atom(scalar: Scalar) | Pairs(pairs: seq<(string, Raw)>)

  /** A `TableDict`: its axis (its class) and its items, in insertion order. */
  datatype Tree = Node(axis: Axis, entries: seq<(string, Value)>)

  /** The value stored under a key: a terminal value or a nested `TableDict`. */
  datatype Value = Cell(cell: Scalar) | Sub(tree: Tree)

  /** A table as `build_table_dict` returns it: the root dictionary together
      with the structure, which is recorded on the root only. */
  datatype Table = Table(root: Tree, structure: seq<Axis>)

  predicate DistinctKeys<T>(items: seq<(string, T)>)
  {
    forall i, j :: 0 <= i < j < |items| ==> items[i].0 != items[j].0
  }

  /** Association lists whose keys are distinct at every level (the only
      input for which the dictionary keeps every pair). */
  predicate RawDistinct(pairs: seq<(string, Raw)>)
    decreases Pairs(pairs)
  {
    DistinctKeys(pairs) &&
    forall i :: 0 <= i < |pairs| && pairs[i].1.Pairs? ==> RawDistinct(pairs[i].1.pairs)
  }

  /** `pairs` has at most `room` levels of nesting, counting itself: every
      tuple reached at level `l` finds `structure[l]` when `room` is the
      length of the structure. */
  predicate RawFits(pairs: seq<(string, Raw)>, room: nat)
    decreases Pairs(pairs)
  {
    room >= 1 &&
    forall i :: 0 <= i < |pairs| && pairs[i].1.Pairs? ==> room >= 2 && RawFits(pairs[i].1.pairs, room - 1)
  }

  /** Every tuple of `pairs` is non-empty and every terminal value sits at
      exactly `depth` levels below the top (uniform depth). */
  predicate RawUniform(pairs: seq<(string, Raw)>, depth: nat)
    decreases Pairs(pairs)
  {
    depth >= 1 && |pairs| > 0 &&
    forall i :: 0 <= i < |pairs| ==>
      if depth == 1 then pairs[i].1.Atom?
      else pairs[i].1.Pairs? && RawUniform(pairs[i].1.pairs, depth - 1)
  }

  /** Keys are distinct in every dictionary of the tree. */
  predicate ValidTree(t: Tree)
    decreases t
  {
    DistinctKeys(t.entries) &&
    forall i :: 0 <= i < |t.entries| && t.entries[i].1.Sub? ==> ValidTree(t.entries[i].1.tree)
  }

  /** `t` sits at nesting level `level` of a table built with structure `s`:
      its axis is `s[level]` and every nested dictionary is tagged one level
      further down. */
  predicate Tagged(t: Tree, s: seq<Axis>, level: nat)
    decreases t
  {
    level < |s| && t.axis == s[level] &&
    forall i :: 0 <= i < |t.entries| && t.entries[i].1.Sub? ==> Tagged(t.entries[i].1.tree, s, level + 1)
  }

  /** Every dictionary is non-empty and every terminal value sits exactly
      `depth` levels below `t`. */
  predicate Uniform(t: Tree, depth: nat)
    decreases t
  {
    depth >= 1 && |t.entries| > 0 &&
    forall i :: 0 <= i < |t.entries| ==>
      if depth == 1 then t.entries[i].1.Cell?
      else t.entries[i].1.Sub? && Uniform(t.entries[i].1.tree, depth - 1)
  }

  /** `apply_structure`: the dictionary at nesting level `level` gets the
      class `s[level]`; tuple values are converted recursively, the other
      values are kept. */
  function Structured(pairs: seq<(string, Raw)>, s: seq<Axis>, level: nat): Tree
    requires level < |s| && RawFits(pairs, |s| - level)
    decreases Pairs(pairs)
  {
    Node(s[level], seq(|pairs|, i requires 0 <= i < |pairs| =>
      (pairs[i].0,
       if pairs[i].1.Atom? then Cell(pairs[i].1.scalar)
       else Sub(Structured(pairs[i].1.pairs, s, level + 1)))))
  }

  /** Forgets the classes: the association lists a tree was built from. */
  function Strip(t: Tree): seq<(string, Raw)>
    decreases t
  {
    seq(|t.entries|, i requires 0 <= i < |t.entries| =>
      (t.entries[i].0,
       match t.entries[i].1
       case Cell(c) => Atom(c)
       case Sub(u) => Pairs(Strip(u))))
  }

  /** The table `build_table_dict(datadict, structure)` returns. */
  function Build(datadict: seq<(string, Raw)>, structure: seq<Axis>): Table
    requires 0 < |structure| && RawFits(datadict, |structure|)
  {
    Table(Structured(datadict, structure, 0), structure)
  }

  /** `apply_structure`, step by step: a new dictionary of class
      `structure[level]` whose tuple values are replaced one after the
      other by their converted dictionaries. */
  method ApplyStructure(datadict: seq<(string, Raw)>, structure: seq<Axis>, level: nat) returns (t: Tree)
    requires level < |structure| && RawFits(datadict, |structure| - level)
    requires RawDistinct(datadict)
    ensures t == Structured(datadict, structure, level)
    decreases Pairs(datadict)
  {
    ghost var spec := Structured(datadict, structure, level);
    var entries: seq<(string, Value)> := [];
    for i := 0 to |datadict|
      invariant |entries| == i
      invariant forall j :: 0 <= j < i ==> entries[j] == spec.entries[j]
    {
      var (k, v) := datadict[i];
      match v {
        case Atom(c) =>
          entries := entries + [(k, Cell(c))];
        case Pairs(p) =>
          var child := ApplyStructure(p, structure, level + 1);
          entries := entries + [(k, Sub(child))];
      }
    }
    t := Node(structure[level], entries);
  }

  /** `build_table_dict`: apply the structure from level 0 on, then record
      the structure on the root. */
  method BuildTableDict(datadict: seq<(string, Raw)>, structure: seq<Axis>) returns (table: Table)
    requires 0 < |structure| && RawFits(datadict, |structure|)
    requires RawDistinct(datadict)
    ensures table == Build(datadict, structure)
  {
    var root := ApplyStructure(datadict, structure, 0);
    table := Table(root, structure);
  }

  /** `apply_structure` gives every dictionary the class of its level, keeps
      the keys, their order and every non-tuple value: stripping the classes
      gives back the input. */
  lemma {:induction false} StructuredIsTaggedCopy(pairs: seq<(string, Raw)>, s: seq<Axis>, level: nat)
    requires level < |s| && RawFits(pairs, |s| - level)
    ensures Tagged(Structured(pairs, s, level), s, level)
    ensures Strip(Structured(pairs, s, level)) == pairs
    ensures RawDistinct(pairs) ==> ValidTree(Structured(pairs, s, level))
    decreases Pairs(pairs)
  {
    var t := Structured(pairs, s, level);
    forall i | 0 <= i < |pairs| && pairs[i].1.Pairs?
      ensures t.entries[i].1 == Sub(Structured(pairs[i].1.pairs, s, level + 1))
      ensures Tagged(t.entries[i].1.tree, s, level + 1)
      ensures Strip(t.entries[i].1.tree) == pairs[i].1.pairs
      ensures RawDistinct(pairs[i].1.pairs) ==> ValidTree(t.entries[i].1.tree)
    {
      StructuredIsTaggedCopy(pairs[i].1.pairs, s, level + 1);
    }
    assert Strip(t) == pairs by {
      forall i | 0 <= i < |pairs| ensures Strip(t)[i] == pairs[i] {
        if pairs[i].1.Pairs? {
        }
      }
    }
  }

  /** Uniform input gives a uniform tree of the same depth. */
  lemma {:induction false} StructuredUniform(pairs: seq<(string, Raw)>, s: seq<Axis>, level: nat, depth: nat)
    requires level < |s| && RawFits(pairs, |s| - level)
    requires RawUniform(pairs, depth)
    ensures Uniform(Structured(pairs, s, level), depth)
    decreases Pairs(pairs)
  {
    var t := Structured(pairs, s, level);
    forall i | 0 <= i < |pairs| && depth > 1
      ensures t.entries[i].1.Sub? && Uniform(t.entries[i].1.tree, depth - 1)
    {
      StructuredUniform(pairs[i].1.pairs, s, level + 1, depth - 1);
    }
  }

  /** The table `build_table_dict` returns: its root has the class
      `structure[0]`, every tuple-valued descendant at level `i` has the
      class `structure[i]`, the data is kept as given, and the structure is
      recorded on the root. */
  lemma {:induction false} BuildTableDictShape(datadict: seq<(string, Raw)>, structure: seq<Axis>)
    requires 0 < |structure| && RawFits(datadict, |structure|)
    ensures Build(datadict, structure).root.axis == structure[0]
    ensures Tagged(Build(datadict, structure).root, structure, 0)
    ensures Strip(Build(datadict, structure).root) == datadict
    ensures Build(datadict, structure).structure == structure
    ensures RawDistinct(datadict) ==> ValidTree(Build(datadict, structure).root)
  {
    StructuredIsTaggedCopy(datadict, structure, 0);
  }
}
