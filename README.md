# pretty-markup layout, modelled in Dafny

pretty-markup shows structured data (JSON-LD parsed into RDF triples) as an
indented list of rows. Each row pairs a predicate with its object. The page
walks the triple store from a base IRI: for each triple of the current
subject it emits a row, then at once the rows of that triple's object, one
indent level deeper. This project models that walk (`markupLevel`), the row
formatter (`dataItemLayout`), the URL-prefix stripper (`removeUrls`) and the
entry point at indent 0 (`prettyMarkupHtml`), all from `layout.js`.

Files:

- `rdf.dfy` (module `Rdf`): RDF terms as the n3 library represents them.
  Each term carries its kind, its `value` and its `id`, the key the store
  indexes by. It also holds the store as a sequence of triples and
  `getQuads(subject, undefined, undefined)` as an order-preserving filter on
  the subject's `id`.
- `formatting.dfy` (module `Formatting`):
  - `RemoveUrls`, a leftmost, global replace of the pattern
    `https?://[^\s]+[/#]`. `\s` is the JavaScript white-space set.
  - `DataItemLayout`, which builds one display row: spacer width,
    predicate text, object text, and whether the object cell is hidden.
- `levels.dfy` (module `Levels`):
  - `Rows`, the pure specification of the walk: a pre-order flattening of
    (predicate, object, indent) rows.
  - `Render`, which maps `DataItemLayout` over those rows.
  - The lemmas about the walk: leaves, pre-order, indentation, count,
    provenance and cycles.
- `layout.dfy` (module `Layout`):
  - `MarkupLevel`, the imperative walk: a `for` loop that pushes each
    triple's row, then the rows of a recursive call. It is proved equal to
    `Render(Rows(...))`.
  - `PrettyMarkupHtml`, the call at indent 0 from the base IRI.
- `example.dfy` (module `Example`): an event whose location is a blank node
  with its own URL. It is worked through to the exact rows and the exact
  display items.

`markupLevel` keeps no set of visited subjects, so it stops only when no
cycle is reachable from the start. The model states this with a ghost `rank` from
identifiers to naturals: every triple the walk can meet must go from a
subject to an object of lower rank (`Levels.RankedBelow`). Such a rank
exists exactly when no cycle is reachable from the start (proved here only
for a cycle of one or two triples through the start). `rank` is ghost
and plays no part in what is computed.

## Model

| member | source | states |
|---|---|---|
| Rdf.GetQuads | layout.js:43 | The result holds exactly the store's triples whose subject id is the key. An unknown key gives the empty sequence, not an error. |
| Rdf.GetQuadsAppend | layout.js:43 | The lookup keeps store order: looking up in a concatenation gives the concatenation of the two lookups. |
| Rdf.LiteralHasNoQuads | layout.js:43 | In a well-formed store, where subjects are IRIs or blank nodes, a literal's id matches no triple. |
| Formatting.UrlMatchLongest | layout.js:6 | The match at a position is the longest prefix shaped like `http(s)://`, non-space characters, and a final `/` or `#`. There is no match exactly when no prefix has that shape. |
| Formatting.RemoveUrls | layout.js:5-7 | Removing matches never makes the text longer. |
| Formatting.RemoveUrlsSchemeFree | layout.js:5-7 | Text in which neither `http://` nor `https://` occurs is returned unchanged. |
| Formatting.UrlMatchToLastSeparator | layout.js:6 | For a scheme followed by text without white space, the match ends at the text's last `/` or `#`, provided at least one character precedes it. |
| Formatting.StripsToLastSeparator | layout.js:5-7 | A URL with no white space loses everything up to and including its last `/` or `#` after the scheme. |
| Formatting.SchemaNameStripped | layout.js:19 | The predicate `https://schema.org/name` shows as `name`. |
| Formatting.UnderscoreMatch | layout.js:23 | The pattern `_:*` first matches at the first underscore. It fails exactly when the id has no underscore. |
| Formatting.DataItemLayout | layout.js:16-32 | The spacer is a multiple of 30 pixels whose quotient is the indent. The object cell is hidden exactly when the object's id contains an underscore, and a blank node's is always hidden. |
| Formatting.UnderscoreAnywhereHides | layout.js:22-25 | The rule is not a `_:` prefix test: an IRI or a literal with an underscore is hidden, and a literal without one is shown. |
| Levels.RenderAppend | layout.js:45 | Rendering commutes with concatenation: rendering two row sequences joined end to end gives the two renderings joined end to end. |
| Levels.RowsEmptyIff | layout.js:42-48 | The walk from a subject yields no rows exactly when no triple of the store has that subject. |
| Levels.LiteralObjectIsLeaf | layout.js:46 | In a well-formed store, the recursive call on a literal object yields nothing. |
| Levels.ExpandSnoc | layout.js:44-47 | One more loop iteration appends the triple's row at the current indent, then the whole row sequence of its object one level deeper. |
| Levels.ExpandCons | layout.js:44-47 | Pre-order. The rows for triples `[q] + rest` are q's row, then all rows of q's object at indent + 1, then the rows for `rest`. |
| Levels.ExpandAppend | layout.js:44-47 | The rows for a concatenation of triples are the two row sequences concatenated, so each triple's block stays contiguous. |
| Levels.LevelDirectRows | layout.js:44-45 | The rows at exactly the caller's indent are the subject's direct triples, one each, in store order. |
| Levels.RowsNested | layout.js:45-46 | No row is above the starting indent, and the first row is at it. Each row is at most one level deeper than the one before. So every row from a recursive call is strictly deeper. |
| Levels.RowsCount | layout.js:44-47 | The number of rows is the number of paths out of the subject. That count comes from a walk over store indices that does not use `getQuads`: one per direct triple plus the paths out of its object. |
| Levels.CountStep | layout.js:44-47 | The counting step of `RowsCount`: if the row count over the first n - 1 store triples equals their path count, then so does the count over the first n. This needs the new triple's object to satisfy the same equality when the triple's subject is the key. |
| Levels.RowsFromStore | layout.js:43-46 | Every row's predicate and object come from some triple of the store; no row is invented. |
| Levels.CycleHasNoRank | layout.js:41-49 | With two triples a→b and b→a (a = b for a self-loop), no rank satisfies the precondition. There the code would recurse without end, and the model makes no claim. |
| Layout.MarkupLevel | layout.js:41-49 | The loop-and-recursion result equals the rendered pre-order rows `Render(Rows(store, rank, key, indent))`. |
| Layout.RenderSnoc | layout.js:45-46 | The two pushes of one loop iteration extend the rendered rows by the triple's item and then its object's items. |
| Layout.RenderTopLevel | layout.js:17 | The items with spacer width 0 are exactly the rendered rows at indent 0. |
| Layout.PrettyMarkupHtml | layout.js:57-60 | The walk starts at the base IRI with indent 0. Every spacer is a non-negative multiple of 30, the first is 0, and each item is at most one step deeper than the one before. The width-0 items are the base IRI's own triples, in store order. |
| Example.EventRows | layout.js:41-49 | For an event with a name and a blank location that has a URL, the rows are: the name at 0, the location at 0, then the URL at 1. This holds though the location node's own URL triple precedes the event's location triple in the store. |
| Example.EventItems | layout.js:16-32 | In that example the page shows exactly three items: `name` with "Game 3" and `location` with its hidden blank-node cell, both at width 0, then `url` with its shown literal at 30 pixels. |

## Left out

- `prettyMarkup` (layout.js:68-72) looks up a DOM element and inserts HTML into it. It is page I/O only.
- The `inputToQuads` parser of schemarama (layout.js:58) is asynchronous JSON-LD-to-RDF conversion in another library. The store is a parameter of `PrettyMarkupHtml` instead.
- The n3 store's internals are out. `getQuads` is modelled only by its filter, in the order the store yields its triples. n3 yields them in its own index order, not insertion order, and that order is not modelled. Every order-related result (`Rdf.GetQuadsAppend`, `Levels.LevelDirectRows`, the last ensures of `Layout.PrettyMarkupHtml`) holds for whatever order the store yields. Terms carry the `id` n3 gives them; `Rdf.Consistent` states how that id follows from the term's kind and text.
- The graph component of each quad is dropped. `getQuads` at layout.js:43 leaves the graph open, and every matching quad gives a row whatever its graph, so nothing the layout shows depends on it. A triple found in two graphs is two entries of the store sequence and gives two rows.
- The HTML template text (layout.js:26-31) and `.join('')` (layout.js:59) are out. A row is the record of what the template shows, not markup, and escaping is not modelled.
- The sample JSON-LD data and the top-level call (layout.js:74-97) are out. demo.js is not part of this model.
- Termination holds only under the rank precondition, since the code has no cycle guard. A store with a reachable cycle is outside every contract (`Levels.CycleHasNoRank`).
- Levels.RowsCount: counts paths, not distinct triples. When the part of the graph reachable from the subject is a tree, the two counts agree. That equality is not proved.
- `layout.js` has no visited set, no reordering of `@type` or name rows, and no colours, so the model has none of them either.
