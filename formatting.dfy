/**
  The two pure formatters of the layout: `removeUrls`, which strips URL
  prefixes from predicate text, and `dataItemLayout`, which turns one
  (predicate, object, indent) into a display row. The row is kept as a
  record of what the HTML template shows, not as HTML text.
 */
module Formatting {
  import opened Rdf

  datatype Option<T> = None | Some(value: T)

  /** Pixels of spacer per indent level. */
  const IndentStep: int := 30

  /** One row of the layout: spacer width, predicate text, object text, and whether the object cell is hidden. */
  datatype DataItem = DataItem(spacerWidth: int, predicateText: string, objectText: string, objectHidden: bool)

  // ---------------------------------------------------------------------
  // removeUrls: text.replaceAll(/https?:\/\/[^\s]+[\/#]/g, '')
  // ---------------------------------------------------------------------

  /** The characters `\s` matches in a JavaScript regular expression. */
  predicate IsSpace(c: char) {
    || c == ' ' || c == '\t' || c == '\n' || c == '\r'
    || c == '\U{000B}' || c == '\U{000C}' || c == '\U{00A0}' || c == '\U{1680}'
    || ('\U{2000}' <= c <= '\U{200A}')
    || c == '\U{2028}' || c == '\U{2029}' || c == '\U{202F}' || c == '\U{205F}'
    || c == '\U{3000}' || c == '\U{FEFF}'
  }

  /** The characters `[\/#]` matches. */
  predicate IsSeparator(c: char) {
    c == '/' || c == '#'
  }

  predicate StartsWith(s: string, w: string) {
    |w| <= |s| && s[..|w|] == w
  }

  /**
    A whole string the URL pattern matches: "http://" or "https://", then at
    least one non-space character, then a separator.
   */
  predicate UrlShaped(m: string) {
    || (StartsWith(m, "https://") && BodyShaped(m[8..]))
    || (StartsWith(m, "http://") && BodyShaped(m[7..]))
  }

  /** What `[^\s]+[\/#]` matches as a whole. */
  predicate BodyShaped(b: string) {
    && |b| >= 2
    && IsSeparator(b[|b| - 1])
    && forall k :: 0 <= k < |b| - 1 ==> !IsSpace(b[k])
  }

  /** Length of the scheme ("http://" or "https://") `https?:\/\/` matches at the start of s. */
  function SchemeLength(s: string): (r: Option<nat>)
    ensures r.Some? <==> StartsWith(s, "https://") || StartsWith(s, "http://")
    ensures r.Some? ==> r.value <= |s|
    ensures r == Some(8) <==> StartsWith(s, "https://")
  {
    if StartsWith(s, "https://") then Some(8)
    else if StartsWith(s, "http://") then Some(7)
    else None
  }

  /** Number of leading non-space characters: the most `[^\s]+` can take. */
  function RunLength(s: string): (n: nat)
    ensures n <= |s|
    ensures forall k :: 0 <= k < n ==> !IsSpace(s[k])
    ensures n < |s| ==> IsSpace(s[n])
  {
    if s == [] || IsSpace(s[0]) then 0 else 1 + RunLength(s[1..])
  }

  /** The last separator position j with lo <= j < hi. */
  function LastSeparator(s: string, lo: nat, hi: nat): (r: Option<nat>)
    requires hi <= |s|
    ensures r.Some? ==> lo <= r.value < hi && IsSeparator(s[r.value])
    ensures r.Some? ==> forall k :: r.value < k < hi ==> !IsSeparator(s[k])
    ensures r.None? ==> forall k :: lo <= k < hi ==> !IsSeparator(s[k])
    decreases hi
  {
    if hi <= lo then None
    else if IsSeparator(s[hi - 1]) then Some(hi - 1)
    else LastSeparator(s, lo, hi - 1)
  }

  /**
    Length of the match of `[^\s]+[\/#]` anchored at the start of b. The
    greedy `[^\s]+` takes the whole non-space run and backtracks to the last
    separator in it that leaves it at least one character.
   */
  function BodyMatchLength(b: string): (r: Option<nat>)
    ensures r.Some? ==> 2 <= r.value <= |b|
  {
    match LastSeparator(b, 1, RunLength(b))
    case None => None
    case Some(j) => Some(j + 1)
  }

  /** The body match is the longest body-shaped prefix, and there is none when it fails. */
  lemma BodyMatchLongest(b: string)
    ensures BodyMatchLength(b).Some? ==> BodyShaped(b[..BodyMatchLength(b).value])
    ensures forall m :: 0 <= m <= |b| && BodyShaped(b[..m]) ==>
              BodyMatchLength(b).Some? && m <= BodyMatchLength(b).value
  {
  }

  /**
    Length of the match of the URL pattern anchored at the start of s: the
    scheme `https?:\/\/` (the optional "s" is tried first), then the body.
   */
  function UrlMatchLength(s: string): (r: Option<nat>)
    ensures r.Some? ==> 0 < r.value <= |s|
  {
    match SchemeLength(s)
    case None => None
    case Some(p) =>
      match BodyMatchLength(s[p..])
      case None => None
      case Some(n) => Some(p + n)
  }

  /** A string that starts with "https://" does not start with "http://". */
  lemma SchemesExclusive(s: string)
    requires StartsWith(s, "https://")
    ensures !StartsWith(s, "http://")
  {
    assert s[..8][4] == 's';
    assert s[..7][4] == s[4] == s[..8][4];
  }

  /** Of a string with a given scheme, a prefix is URL-shaped exactly when what follows the scheme is body-shaped. */
  lemma UrlShapedPrefix(s: string, p: nat, n: nat)
    requires SchemeLength(s) == Some(p) && p <= n <= |s|
    ensures UrlShaped(s[..n]) <==> BodyShaped(s[p..][..n - p])
  {
    assert s[..n][..p] == s[..p];
    assert s[..n][p..] == s[p..][..n - p];
    if p == 8 {
      SchemesExclusive(s[..n]);
    } else {
      assert s[..n][..7] == s[..7];
      assert n >= 8 ==> s[..n][..8] == s[..8];
    }
  }

  /** Without a scheme at its start, no prefix of s is URL-shaped. */
  lemma NoSchemeNoUrl(s: string)
    requires SchemeLength(s).None?
    ensures forall n :: 0 <= n <= |s| ==> !UrlShaped(s[..n])
  {
  }

  /** A URL-shaped prefix extends past the scheme at the start of s. */
  lemma UrlShapedCoversScheme(s: string, p: nat, n: nat)
    requires SchemeLength(s) == Some(p) && n <= |s| && UrlShaped(s[..n])
    ensures p <= n
  {
  }

  /**
    The URL match is the longest URL-shaped prefix of s: what the greedy,
    backtracking regular expression finds at this position.
   */
  lemma UrlMatchLongest(s: string)
    ensures UrlMatchLength(s).Some? ==> UrlShaped(s[..UrlMatchLength(s).value])
    ensures forall n :: 0 <= n <= |s| && UrlShaped(s[..n]) ==>
              UrlMatchLength(s).Some? && n <= UrlMatchLength(s).value
  {
    match SchemeLength(s)
    case None =>
      NoSchemeNoUrl(s);
    case Some(p) =>
      var b := s[p..];
      BodyMatchLongest(b);
      if BodyMatchLength(b).Some? {
        UrlShapedPrefix(s, p, p + BodyMatchLength(b).value);
      }
      forall n | 0 <= n <= |s| && UrlShaped(s[..n])
        ensures UrlMatchLength(s).Some? && n <= UrlMatchLength(s).value
      {
        UrlShapedCoversScheme(s, p, n);
        UrlShapedPrefix(s, p, n);
      }
  }

  /**
    `removeUrls`: a global replace, left to right, of every URL match by
    nothing; the scan resumes after each match.
   */
  function RemoveUrls(text: string): (r: string)
    ensures |r| <= |text|
    decreases |text|
  {
    if text == [] then []
    else match UrlMatchLength(text)
      case Some(n) => RemoveUrls(text[n..])
      case None => [text[0]] + RemoveUrls(text[1..])
  }

  /** A match at the start is dropped and the scan resumes right after it. */
  lemma RemoveUrlsSkipsMatch(text: string, n: nat)
    requires text != [] && UrlMatchLength(text) == Some(n)
    ensures RemoveUrls(text) == RemoveUrls(text[n..])
  {
  }

  /** No "http://" or "https://" starts anywhere in the text. */
  predicate SchemeFree(text: string) {
    forall i :: 0 <= i < |text| ==> !StartsWith(text[i..], "http://") && !StartsWith(text[i..], "https://")
  }

  /** Text in which no URL scheme occurs comes back unchanged. */
  lemma {:induction false} RemoveUrlsSchemeFree(text: string)
    requires SchemeFree(text)
    ensures RemoveUrls(text) == text
  {
    if text != [] {
      assert text[0..] == text;
      assert UrlMatchLength(text).None?;
      forall i | 0 <= i < |text| - 1
        ensures !StartsWith(text[1..][i..], "http://") && !StartsWith(text[1..][i..], "https://")
      {
        assert text[1..][i..] == text[i + 1..];
      }
      RemoveUrlsSchemeFree(text[1..]);
    }
  }

  /** Text without '/' and '#' has no URL scheme in it. */
  lemma SeparatorFreeIsSchemeFree(text: string)
    requires forall k :: 0 <= k < |text| ==> !IsSeparator(text[k])
    ensures SchemeFree(text)
  {
    forall i | 0 <= i < |text|
      ensures !StartsWith(text[i..], "http://") && !StartsWith(text[i..], "https://")
    {
      if i + 7 <= |text| {
        assert text[i..][..7][5] == text[i + 5];
      }
      if i + 8 <= |text| {
        assert text[i..][..8][6] == text[i + 6];
      }
    }
  }

  /**
    A scheme followed by text with no white space matches up to and
    including the last '/' or '#' of that text, when at least one character
    lies between the scheme and that separator.
   */
  lemma UrlMatchToLastSeparator(scheme: string, rest: string, j: nat)
    requires scheme == "http://" || scheme == "https://"
    requires forall k :: 0 <= k < |rest| ==> !IsSpace(rest[k])
    requires 1 <= j < |rest| && IsSeparator(rest[j])
    requires forall k :: j < k < |rest| ==> !IsSeparator(rest[k])
    ensures UrlMatchLength(scheme + rest) == Some(|scheme| + j + 1)
  {
    var s := scheme + rest;
    var p := |scheme|;
    assert s[..p] == scheme;
    if scheme == "http://" {
      assert s[4] == ':';
      assert s[..8][4] == s[4];
    }
    assert SchemeLength(s) == Some(p);
    assert s[p..] == rest;
    assert RunLength(rest) == |rest|;
    assert LastSeparator(rest, 1, |rest|) == Some(j);
  }

  /**
    A URL with no white space loses everything up to and including its last
    '/' or '#' after the scheme, provided at least one character lies between
    the scheme and that separator.
   */
  lemma StripsToLastSeparator(scheme: string, rest: string, j: nat)
    requires scheme == "http://" || scheme == "https://"
    requires forall k :: 0 <= k < |rest| ==> !IsSpace(rest[k])
    requires 1 <= j < |rest| && IsSeparator(rest[j])
    requires forall k :: j < k < |rest| ==> !IsSeparator(rest[k])
    ensures RemoveUrls(scheme + rest) == rest[j + 1..]
  {
    var s := scheme + rest;
    var n := |scheme| + j + 1;
    var tail := rest[j + 1..];
    assert s[n..] == tail by {
      assert s[|scheme|..] == rest;
    }
    UrlMatchToLastSeparator(scheme, rest, j);
    RemoveUrlsSkipsMatch(s, n);
    SeparatorFreeIsSchemeFree(tail);
    RemoveUrlsSchemeFree(tail);
  }

  /** The predicate IRI of schema.org's "name" shows as "name". */
  lemma SchemaNameStripped()
    ensures RemoveUrls("https://schema.org/name") == "name"
  {
    assert "https://schema.org/name" == "https://" + "schema.org/name";
    StripsToLastSeparator("https://", "schema.org/name", 10);
    assert "schema.org/name"[11..] == "name";
  }

  // ---------------------------------------------------------------------
  // The hidden-object rule of dataItemLayout
  // ---------------------------------------------------------------------

  /**
    Position of the first match in s of the pattern "an underscore followed
    by any number of colons". Zero colons also match, so this is the first
    underscore anywhere in s.
   */
  function UnderscoreMatch(s: string): (r: Option<nat>)
    ensures r.Some? ==> r.value < |s| && s[r.value] == '_' && '_' !in s[..r.value]
    ensures r.None? <==> '_' !in s
  {
    if s == [] then None
    else if s[0] == '_' then Some(0)
    else match UnderscoreMatch(s[1..])
      case None => None
      case Some(k) => Some(k + 1)
  }

  /** Whether the object cell is hidden: a non-empty id in which the pattern matches. */
  predicate ObjectHidden(obj: Term) {
    obj.id != [] && UnderscoreMatch(obj.id).Some?
  }

  /** `dataItemLayout(predicate, object, indent)`. */
  function DataItemLayout(pred: Term, obj: Term, indent: int): (r: DataItem)
    ensures r.spacerWidth % IndentStep == 0 && r.spacerWidth / IndentStep == indent
    ensures r.objectHidden <==> '_' in obj.id
    ensures obj.termType == BlankNode && Consistent(obj) ==> r.objectHidden
  {
    assert obj.termType == BlankNode && Consistent(obj) ==> obj.id[..2][0] == '_';
    DataItem(indent * IndentStep, RemoveUrls(pred.value), obj.value, ObjectHidden(obj))
  }

  /**
    The rule is not a test for a leading "_:": any underscore in the id hides
    the object cell, so an IRI or a literal containing one is hidden too.
   */
  lemma UnderscoreAnywhereHides()
    ensures ObjectHidden(Named("https://example.org/my_page"))
    ensures ObjectHidden(Lit("snake_case", Plain))
    ensures !ObjectHidden(Lit("Dune", Plain))
  {
    assert "https://example.org/my_page"[22] == '_';
    assert Lit("snake_case", Plain).id[6] == '_';
  }
}
