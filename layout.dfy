/**
  The recursive walk of layout.js: `markupLevel` builds the display rows of
  one subject with a loop over its triples and a recursive call per object,
  and `prettyMarkupHtml` starts it at the base IRI with indent 0.
 */
module Layout {
  import opened Rdf
  import opened Formatting
  import opened Levels

  /**
    `markupLevel(store, id, indent)`: for each triple of `key`, push its
    row, then push every row of its object one level deeper. The result is
    the pre-order flattening `Rows` describes.
   */
  method MarkupLevel(store: Store, ghost rank: string -> nat, key: string, indent: int)
    returns (items: seq<DataItem>)
    requires RankedBelow(store, rank, key)
    ensures items == Render(Rows(store, rank, key, indent))
    decreases rank(key)
  {
    items := [];
    var levelQuads := GetQuads(store, key);
    LevelDescends(store, rank, key);
    for i := 0 to |levelQuads|
      invariant Descends(rank, key, levelQuads[..i])
      invariant items == Render(Expand(store, rank, key, levelQuads[..i], indent))
    {
      var quad := levelQuads[i];
      ghost var done, next := levelQuads[..i], levelQuads[..i + 1];
      assert next == done + [quad];
      RenderSnoc(store, rank, key, done, quad, indent);
      items := items + [DataItemLayout(quad.pred, quad.obj, indent)];
      var nested := MarkupLevel(store, rank, quad.obj.id, indent + 1);
      items := items + nested;
      assert items == Render(Expand(store, rank, key, next, indent));
    }
    assert levelQuads[..|levelQuads|] == levelQuads;
  }

  /** One more triple of `key` adds its item, then its object's items. */
  lemma RenderSnoc(store: Store, rank: string -> nat, key: string, front: Store, q: Triple, indent: int)
    requires RankedBelow(store, rank, key) && Descends(rank, key, front + [q])
    ensures Descends(rank, key, front) && RankedBelow(store, rank, q.obj.id)
    ensures rank(q.obj.id) < rank(key)
    ensures Render(Expand(store, rank, key, front + [q], indent))
         == Render(Expand(store, rank, key, front, indent)) + [DataItemLayout(q.pred, q.obj, indent)]
            + Render(Rows(store, rank, q.obj.id, indent + 1))
  {
    ExpandSnoc(store, rank, key, front, q, indent);
    var before := Expand(store, rank, key, front, indent);
    var row := [Row(q.pred, q.obj, indent)];
    var nested := Rows(store, rank, q.obj.id, indent + 1);
    RenderAppend(before, row);
    RenderAppend(before + row, nested);
    assert Render(row) == [DataItemLayout(q.pred, q.obj, indent)];
  }

  /** The items whose spacer has width 0: the rows of the top level. */
  function TopLevel(items: seq<DataItem>): (r: seq<DataItem>)
    ensures forall k :: 0 <= k < |r| ==> r[k].spacerWidth == 0
  {
    if items == [] then []
    else
      TopLevel(items[..|items| - 1])
        + (if items[|items| - 1].spacerWidth == 0 then [items[|items| - 1]] else [])
  }

  /** A spacer of width 0 marks exactly the rows at level 0. */
  lemma {:induction false} RenderTopLevel(rows: seq<Row>)
    ensures TopLevel(Render(rows)) == Render(AtIndent(rows, 0))
    decreases |rows|
  {
    if rows != [] {
      var n := |rows| - 1;
      var last := [rows[n]];
      assert rows == rows[..n] + last;
      RenderAppend(rows[..n], last);
      RenderTopLevel(rows[..n]);
      var items := Render(rows);
      assert items[..n] == Render(rows[..n]);
      RenderAppend(AtIndent(rows[..n], 0), if rows[n].indent == 0 then last else []);
    }
  }

  /**
    `prettyMarkupHtml(data, baseIRI)` after parsing: the rows of the base
    IRI from indent 0. Every spacer is a non-negative multiple of 30 pixels,
    the first is 0, each row is at most one level deeper than the one
    before it, and the rows at level 0 are the base IRI's own triples, in
    store order.
   */
  method PrettyMarkupHtml(store: Store, ghost rank: string -> nat, baseIri: string)
    returns (items: seq<DataItem>)
    requires RankedBelow(store, rank, baseIri)
    ensures items == Render(Rows(store, rank, baseIri, 0))
    ensures forall k :: 0 <= k < |items| ==> items[k].spacerWidth >= 0 && items[k].spacerWidth % IndentStep == 0
    ensures |items| > 0 ==> items[0].spacerWidth == 0
    ensures forall k :: 0 < k < |items| ==> items[k].spacerWidth <= items[k - 1].spacerWidth + IndentStep
    ensures TopLevel(items) == Render(Heads(GetQuads(store, baseIri), 0))
  {
    items := MarkupLevel(store, rank, baseIri, 0);
    ghost var rows := Rows(store, rank, baseIri, 0);
    RowsNested(store, rank, baseIri, 0);
    RenderAt(rows);
    LevelDirectRows(store, rank, baseIri, 0);
    RenderTopLevel(rows);
  }
}
