/**
  The rows `markupLevel` produces, as a pure pre-order flattening of the
  triples reachable from a subject, and what holds of them.

  `markupLevel` keeps no record of the subjects it has visited, so it only
  terminates when no subject can reach itself. That is stated with a rank:
  a number per identifier that strictly drops from each triple's subject to
  its object, for the triples the traversal from a key can meet.
 */
module Levels {
  import opened Rdf
  import opened Formatting

  /** The arguments of one `dataItemLayout` call: a triple's predicate and object at an indent level. */
  datatype Row = Row(pred: Term, obj: Term, indent: int)

  /**
    Every triple whose subject is `key`, or ranks below `key`, goes from its
    subject to an object of strictly lower rank. This only speaks of the
    subjects the traversal from `key` can reach, so it holds for some rank
    exactly when no cycle is reachable from `key` (proved here only for a
    cycle of one or two triples through `key`, in CycleHasNoRank).
   */
  ghost predicate RankedBelow(store: Store, rank: string -> nat, key: string) {
    forall i :: 0 <= i < |store| && (store[i].subject.id == key || rank(store[i].subject.id) < rank(key)) ==>
      rank(store[i].obj.id) < rank(store[i].subject.id)
  }

  /** Every object among these triples ranks below `key`. */
  ghost predicate Descends(rank: string -> nat, key: string, quads: Store) {
    forall k :: 0 <= k < |quads| ==> rank(quads[k].obj.id) < rank(key)
  }

  /** The precondition holds for every identifier ranked below `key`. */
  lemma RankedLower(store: Store, rank: string -> nat, key: string, o: string)
    requires RankedBelow(store, rank, key) && rank(o) < rank(key)
    ensures RankedBelow(store, rank, o)
  {
  }

  /** The triples of `key`, anywhere in a prefix of the store, lead to lower ranks. */
  lemma QuadsDescend(store: Store, rank: string -> nat, key: string, n: nat)
    requires RankedBelow(store, rank, key) && n <= |store|
    ensures Descends(rank, key, GetQuads(store[..n], key))
  {
  }

  /** The triples of `key` lead to lower ranks. */
  lemma LevelDescends(store: Store, rank: string -> nat, key: string)
    requires RankedBelow(store, rank, key)
    ensures Descends(rank, key, GetQuads(store, key))
  {
  }

  /**
    The rows of `markupLevel(store, key, indent)`: for each triple of `key`,
    in store order, its own row at `indent` followed at once by all rows of
    its object one level deeper.
   */
  ghost function Rows(store: Store, rank: string -> nat, key: string, indent: int): (rows: seq<Row>)
    requires RankedBelow(store, rank, key)
    decreases rank(key), 1
  {
    LevelDescends(store, rank, key);
    Expand(store, rank, key, GetQuads(store, key), indent)
  }

  /** The rows for the given triples of `key` (a prefix of its quads while the loop runs). */
  ghost function Expand(store: Store, rank: string -> nat, key: string, quads: Store, indent: int): (rows: seq<Row>)
    requires RankedBelow(store, rank, key)
    requires Descends(rank, key, quads)
    decreases rank(key), 0, |quads|
  {
    if quads == [] then []
    else
      var q := quads[|quads| - 1];
      RankedLower(store, rank, key, q.obj.id);
      Expand(store, rank, key, quads[..|quads| - 1], indent)
        + [Row(q.pred, q.obj, indent)]
        + Rows(store, rank, q.obj.id, indent + 1)
  }

  /** The display rows for a sequence of rows, one `dataItemLayout` each, in order. */
  function Render(rows: seq<Row>): (items: seq<DataItem>)
    ensures |items| == |rows|
  {
    if rows == [] then []
    else
      var last := rows[|rows| - 1];
      Render(rows[..|rows| - 1]) + [DataItemLayout(last.pred, last.obj, last.indent)]
  }

  /** Rendering commutes with concatenation: each row is formatted on its own. */
  lemma {:induction false} RenderAppend(a: seq<Row>, b: seq<Row>)
    ensures Render(a + b) == Render(a) + Render(b)
    decreases |b|
  {
    if b == [] {
      assert a + b == a;
    } else {
      var n := |b| - 1;
      assert (a + b)[..|a + b| - 1] == a + b[..n];
      assert (a + b)[|a + b| - 1] == b[n];
      RenderAppend(a, b[..n]);
    }
  }

  /** Item k of the rendering is `dataItemLayout` of row k: rendering is a map. */
  lemma {:induction false} RenderAt(rows: seq<Row>)
    ensures forall k :: 0 <= k < |rows| ==>
      Render(rows)[k] == DataItemLayout(rows[k].pred, rows[k].obj, rows[k].indent)
    decreases |rows|
  {
    if rows != [] {
      var n := |rows| - 1;
      RenderAt(rows[..n]);
      assert forall k :: 0 <= k < n ==> rows[..n][k] == rows[k];
    }
  }

  // ---------------------------------------------------------------------
  // Leaves: a subject without triples
  // ---------------------------------------------------------------------

  /**
    A subject yields rows exactly when the store holds a triple of it; an
    unknown subject yields none, and no error.
   */
  lemma RowsEmptyIff(store: Store, rank: string -> nat, key: string, indent: int)
    requires RankedBelow(store, rank, key)
    ensures Rows(store, rank, key, indent) == [] <==> forall t :: t in store ==> t.subject.id != key
  {
  }

  /** In a well-formed store, a literal object ends the recursion at once. */
  lemma LiteralObjectIsLeaf(store: Store, rank: string -> nat, lit: Term, indent: int)
    requires WellFormed(store) && Consistent(lit) && lit.termType == Literal
    requires RankedBelow(store, rank, lit.id)
    ensures Rows(store, rank, lit.id, indent) == []
  {
  }

  // ---------------------------------------------------------------------
  // Pre-order: each triple's row, then its object's rows
  // ---------------------------------------------------------------------

  /** One more triple of `key` adds its row and its object's rows. */
  lemma ExpandSnoc(store: Store, rank: string -> nat, key: string, front: Store, t: Triple, indent: int)
    requires RankedBelow(store, rank, key) && Descends(rank, key, front + [t])
    ensures Descends(rank, key, front) && RankedBelow(store, rank, t.obj.id)
    ensures Expand(store, rank, key, front + [t], indent)
         == Expand(store, rank, key, front, indent) + [Row(t.pred, t.obj, indent)]
            + Rows(store, rank, t.obj.id, indent + 1)
  {
    var quads := front + [t];
    assert quads[..|quads| - 1] == front && quads[|quads| - 1] == t;
    RankedLower(store, rank, key, t.obj.id);
  }

  lemma {:induction false} ExpandAppend(store: Store, rank: string -> nat, key: string, a: Store, b: Store, indent: int)
    requires RankedBelow(store, rank, key)
    requires Descends(rank, key, a) && Descends(rank, key, b)
    ensures Descends(rank, key, a + b)
    ensures Expand(store, rank, key, a + b, indent)
         == Expand(store, rank, key, a, indent) + Expand(store, rank, key, b, indent)
    decreases |b|
  {
    forall k | 0 <= k < |a + b| ensures rank((a + b)[k].obj.id) < rank(key) {
      if k >= |a| { assert (a + b)[k] == b[k - |a|]; }
    }
    if b == [] {
      assert a + b == a;
    } else {
      var n := |b| - 1;
      var last := b[n];
      assert a + b == (a + b[..n]) + [last];
      assert b == b[..n] + [last];
      ExpandSnoc(store, rank, key, a + b[..n], last, indent);
      ExpandSnoc(store, rank, key, b[..n], last, indent);
      ExpandAppend(store, rank, key, a, b[..n], indent);
    }
  }

  /**
    The rows for the triples [q] + rest of `key`: q's row at `indent`, then
    at once the whole row sequence of q's object at `indent + 1`, then the
    rows for the remaining triples. This is the depth-first pre-order.
   */
  lemma ExpandCons(store: Store, rank: string -> nat, key: string, q: Triple, rest: Store, indent: int)
    requires RankedBelow(store, rank, key)
    requires Descends(rank, key, [q] + rest)
    ensures RankedBelow(store, rank, q.obj.id) && Descends(rank, key, rest)
    ensures Expand(store, rank, key, [q] + rest, indent)
         == [Row(q.pred, q.obj, indent)] + Rows(store, rank, q.obj.id, indent + 1)
            + Expand(store, rank, key, rest, indent)
  {
    var s := [q] + rest;
    assert s[0] == q;
    forall k | 0 <= k < |rest| ensures rank(rest[k].obj.id) < rank(key) {
      assert rest[k] == s[k + 1];
    }
    RankedLower(store, rank, key, q.obj.id);
    ExpandAppend(store, rank, key, [q], rest, indent);
    assert [q][..0] == [];
  }

  // ---------------------------------------------------------------------
  // Indentation
  // ---------------------------------------------------------------------

  /** The rows at exactly level d, in order. */
  function AtIndent(rows: seq<Row>, d: int): (r: seq<Row>)
    ensures forall k :: 0 <= k < |r| ==> r[k].indent == d
  {
    if rows == [] then []
    else
      AtIndent(rows[..|rows| - 1], d)
        + (if rows[|rows| - 1].indent == d then [rows[|rows| - 1]] else [])
  }

  lemma {:induction false} AtIndentAppend(a: seq<Row>, b: seq<Row>, d: int)
    ensures AtIndent(a + b, d) == AtIndent(a, d) + AtIndent(b, d)
    decreases |b|
  {
    if b == [] {
      assert a + b == a;
    } else {
      var n := |b| - 1;
      assert (a + b)[..|a + b| - 1] == a + b[..n];
      AtIndentAppend(a, b[..n], d);
    }
  }

  lemma {:induction false} AtIndentAbove(rows: seq<Row>, d: int)
    requires forall k :: 0 <= k < |rows| ==> rows[k].indent > d
    ensures AtIndent(rows, d) == []
    decreases |rows|
  {
    if rows != [] {
      AtIndentAbove(rows[..|rows| - 1], d);
    }
  }

  /** Each triple as the row it becomes at level d. */
  function Heads(quads: Store, d: int): (r: seq<Row>)
    ensures |r| == |quads|
    ensures forall k :: 0 <= k < |r| ==> r[k] == Row(quads[k].pred, quads[k].obj, d)
  {
    if quads == [] then []
    else Heads(quads[..|quads| - 1], d) + [Row(quads[|quads| - 1].pred, quads[|quads| - 1].obj, d)]
  }

  /**
    Among the rows for some triples of `key` at `indent`, those at level
    `indent` are exactly those triples, one row each, in order.
   */
  lemma {:induction false} DirectRows(store: Store, rank: string -> nat, key: string, quads: Store, indent: int)
    requires RankedBelow(store, rank, key) && Descends(rank, key, quads)
    ensures AtIndent(Expand(store, rank, key, quads, indent), indent) == Heads(quads, indent)
    decreases |quads|
  {
    if quads != [] {
      var n := |quads| - 1;
      var q := quads[n];
      var head := [Row(q.pred, q.obj, indent)];
      RankedLower(store, rank, key, q.obj.id);
      var front := Expand(store, rank, key, quads[..n], indent);
      var sub := Rows(store, rank, q.obj.id, indent + 1);
      DirectRows(store, rank, key, quads[..n], indent);
      AtIndentAppend(front + head, sub, indent);
      AtIndentAppend(front, head, indent);
      RowsNested(store, rank, q.obj.id, indent + 1);
      AtIndentAbove(sub, indent);
      assert AtIndent(head, indent) == head by {
        assert head[..0] == [];
      }
    }
  }

  /**
    The rows of `markupLevel(store, key, indent)` at level `indent` are
    exactly the direct triples of `key`, one each, in store order; every
    other row is deeper.
   */
  lemma LevelDirectRows(store: Store, rank: string -> nat, key: string, indent: int)
    requires RankedBelow(store, rank, key)
    ensures AtIndent(Rows(store, rank, key, indent), indent) == Heads(GetQuads(store, key), indent)
    ensures |AtIndent(Rows(store, rank, key, indent), indent)| == |GetQuads(store, key)|
  {
    LevelDescends(store, rank, key);
    DirectRows(store, rank, key, GetQuads(store, key), indent);
  }

  /**
    A pre-order listing of a tree at base level d: no row is above d, the
    first row is at d, and each row is at most one level deeper than the row
    before it, so every deeper row sits below a row one level up.
   */
  ghost predicate Nested(rows: seq<Row>, d: int) {
    && (forall k :: 0 <= k < |rows| ==> rows[k].indent >= d)
    && (|rows| > 0 ==> rows[0].indent == d)
    && (forall k :: 0 < k < |rows| ==> rows[k].indent <= rows[k - 1].indent + 1)
  }

  lemma NestedConcat(a: seq<Row>, b: seq<Row>, d: int, e: int)
    requires Nested(a, d) && Nested(b, e) && d <= e
    requires |a| == 0 ==> e == d
    requires |a| > 0 ==> e <= a[|a| - 1].indent + 1
    ensures Nested(a + b, d)
  {
  }

  /** The rows for some triples of `key` are nested at their level. */
  lemma {:induction false} ExpandNested(store: Store, rank: string -> nat, key: string, quads: Store, indent: int)
    requires RankedBelow(store, rank, key) && Descends(rank, key, quads)
    ensures Nested(Expand(store, rank, key, quads, indent), indent)
    decreases rank(key), 0, |quads|
  {
    if quads != [] {
      var n := |quads| - 1;
      var q := quads[n];
      var head := [Row(q.pred, q.obj, indent)];
      RankedLower(store, rank, key, q.obj.id);
      var front := Expand(store, rank, key, quads[..n], indent);
      var sub := Rows(store, rank, q.obj.id, indent + 1);
      ExpandNested(store, rank, key, quads[..n], indent);
      RowsNested(store, rank, q.obj.id, indent + 1);
      NestedConcat(front, head, indent, indent);
      NestedConcat(front + head, sub, indent, indent + 1);
    }
  }

  /**
    `markupLevel(store, key, indent)` starts at `indent` (when it yields
    anything), never goes above it, and descends one level at a time.
   */
  lemma {:induction false} RowsNested(store: Store, rank: string -> nat, key: string, indent: int)
    requires RankedBelow(store, rank, key)
    ensures Nested(Rows(store, rank, key, indent), indent)
    decreases rank(key), 1
  {
    LevelDescends(store, rank, key);
    ExpandNested(store, rank, key, GetQuads(store, key), indent);
  }

  // ---------------------------------------------------------------------
  // How many rows
  // ---------------------------------------------------------------------

  /**
    The number of paths out of `key`: for each triple of `key` anywhere in
    the store, one for the triple itself and one for each path out of its
    object. Defined by a walk over the store, independently of GetQuads.
   */
  ghost function PathCount(store: Store, rank: string -> nat, key: string): nat
    requires RankedBelow(store, rank, key)
    decreases rank(key), 1
  {
    PathsWithin(store, rank, key, |store|)
  }

  /** PathCount restricted to the first n triples of the store. */
  ghost function PathsWithin(store: Store, rank: string -> nat, key: string, n: nat): nat
    requires RankedBelow(store, rank, key) && n <= |store|
    decreases rank(key), 0, n
  {
    if n == 0 then 0
    else
      var t := store[n - 1];
      PathsWithin(store, rank, key, n - 1)
        + if t.subject.id == key then 1 + PathCount(store, rank, t.obj.id) else 0
  }

  /** The count grows with the store one triple at a time. */
  lemma CountStep(store: Store, rank: string -> nat, key: string, n: nat, indent: int)
    requires RankedBelow(store, rank, key) && 0 < n <= |store|
    requires Descends(rank, key, GetQuads(store[..n - 1], key))
    requires |Expand(store, rank, key, GetQuads(store[..n - 1], key), indent)| == PathsWithin(store, rank, key, n - 1)
    requires store[n - 1].subject.id == key ==>
      rank(store[n - 1].obj.id) < rank(key) &&
      |Rows(store, rank, store[n - 1].obj.id, indent + 1)| == PathCount(store, rank, store[n - 1].obj.id)
    ensures Descends(rank, key, GetQuads(store[..n], key))
    ensures |Expand(store, rank, key, GetQuads(store[..n], key), indent)| == PathsWithin(store, rank, key, n)
  {
    QuadsDescend(store, rank, key, n);
    var t := store[n - 1];
    var front := GetQuads(store[..n - 1], key);
    GetQuadsSnoc(store, n, key);
    if t.subject.id == key {
      ExpandSnoc(store, rank, key, front, t, indent);
    } else {
      assert front + [] == front;
    }
  }

  lemma {:induction false} ExpandCount(store: Store, rank: string -> nat, key: string, n: nat, indent: int)
    requires RankedBelow(store, rank, key) && n <= |store|
    ensures Descends(rank, key, GetQuads(store[..n], key))
    ensures |Expand(store, rank, key, GetQuads(store[..n], key), indent)| == PathsWithin(store, rank, key, n)
    decreases rank(key), 0, n
  {
    if n == 0 {
      QuadsDescend(store, rank, key, n);
    } else {
      var t := store[n - 1];
      ExpandCount(store, rank, key, n - 1, indent);
      if t.subject.id == key {
        RankedLower(store, rank, key, t.obj.id);
        RowsCount(store, rank, t.obj.id, indent + 1);
      }
      CountStep(store, rank, key, n, indent);
    }
  }

  /**
    `markupLevel(store, key, indent)` yields one row per direct triple of
    `key` plus, for each, the rows of its object: as many rows as there are
    paths out of `key`.
   */
  lemma {:induction false} RowsCount(store: Store, rank: string -> nat, key: string, indent: int)
    requires RankedBelow(store, rank, key)
    ensures |Rows(store, rank, key, indent)| == PathCount(store, rank, key)
    decreases rank(key), 1
  {
    ExpandCount(store, rank, key, |store|, indent);
    assert store[..|store|] == store;
  }

  // ---------------------------------------------------------------------
  // Where rows come from
  // ---------------------------------------------------------------------

  /** A row shows the predicate and object of some triple in the store. */
  ghost predicate FromStore(store: Store, r: Row) {
    exists t :: t in store && t.pred == r.pred && t.obj == r.obj
  }

  lemma {:induction false} ExpandFromStore(store: Store, rank: string -> nat, key: string, quads: Store, indent: int)
    requires RankedBelow(store, rank, key) && Descends(rank, key, quads)
    requires forall k :: 0 <= k < |quads| ==> quads[k] in store
    ensures forall r :: r in Expand(store, rank, key, quads, indent) ==> FromStore(store, r)
    decreases rank(key), 0, |quads|
  {
    if quads != [] {
      var n := |quads| - 1;
      var q := quads[n];
      RankedLower(store, rank, key, q.obj.id);
      ExpandFromStore(store, rank, key, quads[..n], indent);
      RowsFromStore(store, rank, q.obj.id, indent + 1);
      assert FromStore(store, Row(q.pred, q.obj, indent));
    }
  }

  /** Every row of `markupLevel` shows a triple of the store; none is invented. */
  lemma {:induction false} RowsFromStore(store: Store, rank: string -> nat, key: string, indent: int)
    requires RankedBelow(store, rank, key)
    ensures forall r :: r in Rows(store, rank, key, indent) ==> FromStore(store, r)
    decreases rank(key), 1
  {
    var quads := GetQuads(store, key);
    LevelDescends(store, rank, key);
    assert forall k :: 0 <= k < |quads| ==> quads[k] in quads;
    ExpandFromStore(store, rank, key, quads, indent);
  }

  // ---------------------------------------------------------------------
  // Cycles
  // ---------------------------------------------------------------------

  /**
    With no visited set, a cycle through the start subject admits no rank:
    the model makes no termination claim for such a store, as the code
    would recurse without end on it. Covers a self-loop (a == b).
   */
  lemma CycleHasNoRank(store: Store, rank: string -> nat, a: Term, b: Term, p: Term, q: Term)
    requires Triple(a, p, b) in store && Triple(b, q, a) in store
    ensures !RankedBelow(store, rank, a.id)
  {
  }
}
