/**
  RDF terms, triples and the one query of the n3 triple store that the
  layout code uses: `store.getQuads(subject, undefined, undefined)`.

  The n3 store indexes terms by their identifier string (`term.id`): an IRI
  for a named node, "_:" and the name for a blank node, the quoted text
  (with a language or datatype suffix) for a literal. `getQuads` accepts
  either a term or such a string and compares identifiers, so the lookup
  key here is a string.
 */
module Rdf {

  /** The three kinds of RDF term (`termType`). */
  datatype TermType = NamedNode | BlankNode | Literal

  /**
    An RDF term as the n3 library represents it: its kind, its lexical text
    (`value`) and its identifier (`id`), the key the store indexes by.
   */
  datatype Term = Term(termType: TermType, value: string, id: string)

  datatype Triple = Triple(subject: Term, pred: Term, obj: Term)

  /**
    The triples `getQuads(key, undefined, undefined)` can yield, in the
    order the store yields them, with the graph of each quad dropped. The
    graph is left open there, so a triple asserted in two graphs comes back
    once per graph and appears here twice; every lemma here allows repeats.
   */
  type Store = seq<Triple>

  /** How a literal's language or datatype shows in its identifier. */
  datatype LiteralTag = Plain | Lang(language: string) | Typed(datatypeIri: string)

  function TagSuffix(tag: LiteralTag): string {
    match tag
    case Plain => ""
    case Lang(l) => "@" + l
    case Typed(d) => "^^" + d
  }

  /** A named node: its identifier is its IRI. */
  function Named(iri: string): (t: Term)
    ensures t.termType == NamedNode && t.value == iri && t.id == iri
  {
    Term(NamedNode, iri, iri)
  }

  /** A blank node: its identifier is "_:" followed by its name. */
  function Blank(name: string): (t: Term)
    ensures t.termType == BlankNode && t.value == name
    ensures |t.id| == |name| + 2 && t.id[..2] == "_:" && t.id[2..] == name
  {
    Term(BlankNode, name, "_:" + name)
  }

  /** A literal: its identifier is the quoted text and then the language or datatype. */
  function Lit(text: string, tag: LiteralTag): (t: Term)
    ensures t.termType == Literal && t.value == text
    ensures |t.id| >= |text| + 2
    ensures t.id[0] == '"' && t.id[1..|text| + 1] == text && t.id[|text| + 1] == '"'
  {
    Term(Literal, text, "\"" + text + "\"" + TagSuffix(tag))
  }

  /** A term whose identifier is the one its kind and text determine. */
  ghost predicate Consistent(t: Term) {
    match t.termType
    case NamedNode => t == Named(t.value)
    case BlankNode => t == Blank(t.value)
    case Literal => exists tag :: t == Lit(t.value, tag)
  }

  /**
    `getQuads(key, undefined, undefined)`: the triples whose subject has
    identifier `key`, in store order. An unknown key gives no triples and no
    error.
   */
  function GetQuads(store: Store, key: string): (r: Store)
    ensures |r| <= |store|
    ensures forall t :: t in r <==> t in store && t.subject.id == key
  {
    if store == [] then []
    else (if store[0].subject.id == key then [store[0]] else []) + GetQuads(store[1..], key)
  }

  /** Filtering commutes with concatenation: the store's order is kept. */
  lemma {:induction false} GetQuadsAppend(a: Store, b: Store, key: string)
    ensures GetQuads(a + b, key) == GetQuads(a, key) + GetQuads(b, key)
  {
    if a != [] {
      assert (a + b)[0] == a[0];
      assert (a + b)[1..] == a[1..] + b;
      GetQuadsAppend(a[1..], b, key);
    } else {
      assert a + b == b;
    }
  }

  /** Filtering the store one triple longer adds that triple exactly when it matches. */
  lemma GetQuadsSnoc(store: Store, n: nat, key: string)
    requires 0 < n <= |store|
    ensures GetQuads(store[..n], key)
         == GetQuads(store[..n - 1], key) + (if store[n - 1].subject.id == key then [store[n - 1]] else [])
  {
    assert store[..n] == store[..n - 1] + [store[n - 1]];
    GetQuadsAppend(store[..n - 1], [store[n - 1]], key);
    assert [store[n - 1]][1..] == [];
  }

  /**
    A store as RDF allows it: subjects are IRIs or blank nodes, and no IRI
    begins with a double quote (RFC 3987 excludes that character).
   */
  ghost predicate WellFormed(store: Store) {
    forall i :: 0 <= i < |store| ==>
      && Consistent(store[i].subject)
      && store[i].subject.termType != Literal
      && (store[i].subject.id == [] || store[i].subject.id[0] != '"')
  }

  /** In a well-formed store a literal is never the subject of a triple. */
  lemma LiteralHasNoQuads(store: Store, lit: Term)
    requires WellFormed(store) && Consistent(lit) && lit.termType == Literal
    ensures GetQuads(store, lit.id) == []
  {
  }
}
