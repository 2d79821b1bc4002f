/**
 * Two template filters: the video id of a YouTube link, and whether a list
 * of category choices holds a given value in its third position.
 */
module TemplateTags {
  import opened Common
  import opened Text

  const ShortMarker: string := "youtu.be/"

  const WatchMarker: string := "youtube.com/watch?v="

  /** The character class `[a-zA-Z0-9_-]`. */
  predicate IsIdChar(c: char) {
    'a' <= c <= 'z' || 'A' <= c <= 'Z' || '0' <= c <= '9' || c == '_' || c == '-'
  }

  /** The longest prefix of `s` made of id characters (`[a-zA-Z0-9_-]+` is greedy). */
  function IdRun(s: string): (r: string)
    ensures |r| <= |s| && r == s[..|r|]
    ensures forall i :: 0 <= i < |r| ==> IsIdChar(r[i])
    ensures |r| < |s| ==> !IsIdChar(s[|r|])
  {
    if s == [] || !IsIdChar(s[0]) then [] else [s[0]] + IdRun(s[1..])
  }

  /** The pattern `marker([a-zA-Z0-9_-]+)` matches at position `p` of `url`. */
  predicate MatchAt(url: string, p: nat, marker: string) {
    p + |marker| < |url| && url[p..p + |marker|] == marker && IsIdChar(url[p + |marker|])
  }

  /** `re.search`: the leftmost position at or after `from` where the pattern matches. */
  function SearchFrom(url: string, marker: string, from: nat): (r: Option<nat>)
    ensures r.Some? ==> from <= r.value && MatchAt(url, r.value, marker)
    ensures r.Some? ==> forall q :: from <= q < r.value ==> !MatchAt(url, q, marker)
    ensures r.None? ==> forall q :: from <= q ==> !MatchAt(url, q, marker)
    decreases |url| - from
  {
    if from + |marker| >= |url| then None
    else if MatchAt(url, from, marker) then Some(from)
    else SearchFrom(url, marker, from + 1)
  }

  /** `match.group(1)` for a match of `marker` at `p`. */
  function Group(url: string, marker: string, p: nat): string
    requires MatchAt(url, p, marker)
  {
    IdRun(url[p + |marker|..])
  }

  /** `youtube_id(url)`; `None` is a missing value. */
  function YoutubeId(url: Option<string>): (r: string)
    ensures url.None? || url.value == "" ==> r == ""
  {
    if url.None? || url.value == "" then ""
    else
      var u := url.value;
      match SearchFrom(u, ShortMarker, 0)
      case Some(p) => Group(u, ShortMarker, p)
      case None =>
        match SearchFrom(u, WatchMarker, 0)
        case Some(p) => Group(u, WatchMarker, p)
        case None => ""
  }

  /** A match's group is non-empty, made of id characters, maximal, and follows the marker in the URL. */
  lemma GroupShape(url: string, marker: string, p: nat)
    requires MatchAt(url, p, marker)
    ensures var g := Group(url, marker, p);
      && g != []
      && (forall i :: 0 <= i < |g| ==> IsIdChar(g[i]))
      && p + |marker| + |g| <= |url|
      && url[p..p + |marker| + |g|] == marker + g
      && (p + |marker| + |g| < |url| ==> !IsIdChar(url[p + |marker| + |g|]))
  {
    var rest := url[p + |marker|..];
    var g := Group(url, marker, p);
    assert rest[0] == url[p + |marker|];
    assert g[0] == rest[0];
    assert url[p..p + |marker| + |g|] == url[p..p + |marker|] + rest[..|g|];
  }

  /** The short form wins: a `youtu.be/` match anywhere decides the result, at its leftmost position. */
  lemma ShortFormWins(url: string, p: nat)
    requires MatchAt(url, p, ShortMarker) && forall q: nat :: q < p ==> !MatchAt(url, q, ShortMarker)
    ensures YoutubeId(Some(url)) == Group(url, ShortMarker, p)
  {
    var s := SearchFrom(url, ShortMarker, 0);
    assert s.Some? && s.value == p;
  }

  /** Without a short-form match, the leftmost `watch?v=` match decides the result. */
  lemma WatchFormNext(url: string, p: nat)
    requires forall q :: !MatchAt(url, q, ShortMarker)
    requires MatchAt(url, p, WatchMarker) && forall q: nat :: q < p ==> !MatchAt(url, q, WatchMarker)
    ensures YoutubeId(Some(url)) == Group(url, WatchMarker, p)
  {
    var s := SearchFrom(url, WatchMarker, 0);
    assert s.Some? && s.value == p;
  }

  /** The result is empty exactly when the URL is missing or empty or neither pattern matches. */
  lemma YoutubeIdEmpty(url: Option<string>)
    ensures YoutubeId(url) == "" <==>
      url.None? || url.value == "" ||
      ((forall q :: !MatchAt(url.value, q, ShortMarker)) && (forall q :: !MatchAt(url.value, q, WatchMarker)))
  {
    if url.Some? && url.value != "" {
      var u := url.value;
      var s := SearchFrom(u, ShortMarker, 0);
      if s.Some? {
        GroupShape(u, ShortMarker, s.value);
      } else {
        var w := SearchFrom(u, WatchMarker, 0);
        if w.Some? {
          GroupShape(u, WatchMarker, w.value);
        }
      }
    }
  }

  // ------------------------------------------------------ contiene_categoria

  /** `any(cat[2] == valor for cat in categorias)`. */
  function ContieneCategoria<A, B, C(==)>(categorias: seq<(A, B, C)>, valor: C): (r: bool)
    ensures r <==> exists i :: 0 <= i < |categorias| && categorias[i].2 == valor
    ensures categorias == [] ==> !r
  {
    if categorias == [] then false
    else categorias[0].2 == valor || ContieneCategoria(categorias[1..], valor)
  }

  /** The answer depends only on which elements are present, not on their order or multiplicity. */
  lemma ContieneOrderIndependent<A, B, C>(a: seq<(A, B, C)>, b: seq<(A, B, C)>, valor: C)
    requires forall x :: x in a <==> x in b
    ensures (exists i :: 0 <= i < |a| && a[i].2 == valor) <==> (exists j :: 0 <= j < |b| && b[j].2 == valor)
  {
    if i :| 0 <= i < |a| && a[i].2 == valor {
      assert a[i] in b;
      var j :| 0 <= j < |b| && b[j] == a[i];
    }
    if j :| 0 <= j < |b| && b[j].2 == valor {
      assert b[j] in a;
      var i :| 0 <= i < |a| && a[i] == b[j];
    }
  }

  /** A permutation gives the same answer. */
  lemma ContienePermutation<A, B, C>(a: seq<(A, B, C)>, b: seq<(A, B, C)>, valor: C)
    requires multiset(a) == multiset(b)
    ensures ContieneCategoria(a, valor) == ContieneCategoria(b, valor)
  {
    forall x ensures x in a <==> x in b {
      assert x in a <==> x in multiset(a);
      assert x in b <==> x in multiset(b);
    }
    ContieneOrderIndependent(a, b, valor);
  }

  /** More elements never turn a yes into a no. */
  lemma ContieneMonotone<A, B, C>(a: seq<(A, B, C)>, extra: seq<(A, B, C)>, valor: C)
    requires ContieneCategoria(a, valor)
    ensures ContieneCategoria(a + extra, valor) && ContieneCategoria(extra + a, valor)
  {
    var i :| 0 <= i < |a| && a[i].2 == valor;
    assert (a + extra)[i] == a[i];
    assert (extra + a)[|extra| + i] == a[i];
  }
}
