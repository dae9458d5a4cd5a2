/**
  A worked instance: an event with a name and a location, the location
  being a blank node with its own URL, as a JSON-LD event parses to.
 */
module Example {
  import opened Rdf
  import opened Formatting
  import opened Levels

  const EventIri := "https://example.org/game3"
  const NameIri := "https://schema.org/name"
  const LocationIri := "https://schema.org/location"
  const UrlIri := "https://schema.org/url"

  function EventStore(): (store: Store)
    ensures |store| == 3
  {
    [ Triple(Named(EventIri), Named(NameIri), Lit("Game 3", Plain)),
      Triple(Blank("b0"), Named(UrlIri), Lit("wells-fargo-center.html", Plain)),
      Triple(Named(EventIri), Named(LocationIri), Blank("b0")) ]
  }

  /** Event above its location node, and the location above everything else. */
  ghost function EventRank(id: string): nat {
    if id == EventIri then 2 else if id == "_:b0" then 1 else 0
  }

  lemma EventIds()
    ensures Blank("b0").id == "_:b0"
    ensures Lit("Game 3", Plain).id[0] == '"'
    ensures Lit("wells-fargo-center.html", Plain).id[0] == '"'
  {
  }

  lemma EventRanked()
    ensures WellFormed(EventStore())
    ensures RankedBelow(EventStore(), EventRank, EventIri)
  {
  }

  lemma EventQuads()
    ensures GetQuads(EventStore(), EventIri) == [EventStore()[0], EventStore()[2]]
    ensures GetQuads(EventStore(), "_:b0") == [EventStore()[1]]
  {
  }

  /** The location node has one row, its URL, and the URL literal ends the walk. */
  lemma LocationRows()
    ensures RankedBelow(EventStore(), EventRank, "_:b0")
    ensures Rows(EventStore(), EventRank, "_:b0", 1) == [Row(Named(UrlIri), Lit("wells-fargo-center.html", Plain), 1)]
  {
    var store := EventStore();
    var t1 := store[1];
    EventIds();
    EventRanked();
    RankedLower(store, EventRank, EventIri, "_:b0");
    EventQuads();
    LevelDescends(store, EventRank, "_:b0");
    ExpandSnoc(store, EventRank, "_:b0", [], t1, 1);
    LiteralObjectIsLeaf(store, EventRank, t1.obj, 2);
    assert [] + [t1] == [t1];
  }

  /** The event's first triple, its name, has one row: the literal ends the walk. */
  lemma NameRows()
    ensures RankedBelow(EventStore(), EventRank, EventIri)
    ensures Descends(EventRank, EventIri, [EventStore()[0]])
    ensures Expand(EventStore(), EventRank, EventIri, [EventStore()[0]], 0)
         == [Row(Named(NameIri), Lit("Game 3", Plain), 0)]
  {
    var store := EventStore();
    var t0 := store[0];
    EventIds();
    EventRanked();
    ExpandSnoc(store, EventRank, EventIri, [], t0, 0);
    assert [] + [t0] == [t0];
    LiteralObjectIsLeaf(store, EventRank, t0.obj, 1);
  }

  /**
    The event's rows: its name at level 0, then its location at level 0
    followed at once by the location's URL at level 1.
   */
  lemma EventRows()
    ensures RankedBelow(EventStore(), EventRank, EventIri)
    ensures Rows(EventStore(), EventRank, EventIri, 0)
         == [ Row(Named(NameIri), Lit("Game 3", Plain), 0),
              Row(Named(LocationIri), Blank("b0"), 0),
              Row(Named(UrlIri), Lit("wells-fargo-center.html", Plain), 1) ]
  {
    var store := EventStore();
    var t0, t2 := store[0], store[2];
    EventIds();
    EventRanked();
    EventQuads();
    LevelDescends(store, EventRank, EventIri);
    assert GetQuads(store, EventIri) == [t0] + [t2];
    ExpandSnoc(store, EventRank, EventIri, [t0], t2, 0);
    NameRows();
    assert t2 == Triple(Named(EventIri), Named(LocationIri), Blank("b0"));
    LocationRows();
  }

  /** The location predicate IRI shows as "location". */
  lemma LocationStripped()
    ensures RemoveUrls("https://schema.org/location") == "location"
  {
    assert "https://schema.org/location" == "https://" + "schema.org/location";
    StripsToLastSeparator("https://", "schema.org/location", 10);
    assert "schema.org/location"[11..] == "location";
  }

  /** The URL predicate IRI shows as "url". */
  lemma UrlStripped()
    ensures RemoveUrls("https://schema.org/url") == "url"
  {
    assert "https://schema.org/url" == "https://" + "schema.org/url";
    StripsToLastSeparator("https://", "schema.org/url", 10);
    assert "schema.org/url"[11..] == "url";
  }

  /** A plain literal without an underscore in its text is shown. */
  lemma PlainLiteralShown(text: string)
    requires '_' !in text
    ensures !ObjectHidden(Lit(text, Plain))
  {
    var id := Lit(text, Plain).id;
    assert id == "\"" + text + "\"";
  }

  /** Three rows render to their three items. */
  lemma RenderThree(a: Row, b: Row, c: Row)
    ensures Render([a, b, c])
         == [ DataItemLayout(a.pred, a.obj, a.indent),
              DataItemLayout(b.pred, b.obj, b.indent),
              DataItemLayout(c.pred, c.obj, c.indent) ]
  {
    RenderAt([a, b, c]);
  }

  /** A row's item, given what its predicate shows and whether its object is hidden. */
  lemma ItemOf(pred: Term, obj: Term, indent: int, text: string, hidden: bool)
    requires RemoveUrls(pred.value) == text
    requires ObjectHidden(obj) == hidden
    ensures DataItemLayout(pred, obj, indent) == DataItem(indent * IndentStep, text, obj.value, hidden)
  {
  }

  /** The name row shows `name` and its literal. */
  lemma NameItem()
    ensures DataItemLayout(Named(NameIri), Lit("Game 3", Plain), 0) == DataItem(0, "name", "Game 3", false)
  {
    assert '_' !in "Game 3";
    PlainLiteralShown("Game 3");
    assert RemoveUrls(Named(NameIri).value) == "name" by { SchemaNameStripped(); }
    ItemOf(Named(NameIri), Lit("Game 3", Plain), 0, "name", false);
  }

  /** The location row shows `location`, and its blank node's cell is hidden. */
  lemma LocationItem()
    ensures DataItemLayout(Named(LocationIri), Blank("b0"), 0) == DataItem(0, "location", "b0", true)
  {
    assert RemoveUrls(Named(LocationIri).value) == "location" by { LocationStripped(); }
    assert ObjectHidden(Blank("b0")) by { assert Blank("b0").id[0] == '_'; }
    ItemOf(Named(LocationIri), Blank("b0"), 0, "location", true);
  }

  /** The URL row, one level down, shows `url` and its literal 30 pixels in. */
  lemma UrlItem()
    ensures DataItemLayout(Named(UrlIri), Lit("wells-fargo-center.html", Plain), 1)
         == DataItem(IndentStep, "url", "wells-fargo-center.html", false)
  {
    assert '_' !in "wells-fargo-center.html";
    PlainLiteralShown("wells-fargo-center.html");
    assert RemoveUrls(Named(UrlIri).value) == "url" by { UrlStripped(); }
    ItemOf(Named(UrlIri), Lit("wells-fargo-center.html", Plain), 1, "url", false);
  }

  /**
    What the page shows for the event: the name and location rows at width
    0 with their predicates stripped to `name` and `location`, the blank
    location's cell hidden, and the URL row 30 pixels in.
   */
  lemma EventItems()
    ensures RankedBelow(EventStore(), EventRank, EventIri)
    ensures Render(Rows(EventStore(), EventRank, EventIri, 0))
         == [ DataItem(0, "name", "Game 3", false),
              DataItem(0, "location", "b0", true),
              DataItem(IndentStep, "url", "wells-fargo-center.html", false) ]
  {
    EventRows();
    RenderThree(Row(Named(NameIri), Lit("Game 3", Plain), 0),
                Row(Named(LocationIri), Blank("b0"), 0),
                Row(Named(UrlIri), Lit("wells-fargo-center.html", Plain), 1));
    NameItem();
    LocationItem();
    UrlItem();
  }
}
