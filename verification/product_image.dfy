/**
 The image helpers of the product cards (`utils/getProductImage.ts`).

 `getProductImageURLs` rewrites every gallery image onto the storefront's
 image edge host, optionally puts a "top" image first, and keeps the first
 `amount` URLs. `resolveImageUrl` merges resizing options into a URL's query
 string, and `generateOptimizedImages` turns each URL into a `src` and a
 three-entry pixel-density `srcset`.

 A URL is a record of scheme, host, path, query and fragment. Parsing is
 the part of the WHATWG URL parser these helpers exercise on
 `https://`-prefixed text: further `/` after `https://` are skipped (the
 special-authority states of a special scheme), the host runs to the first
 `/`, `?` or `#`, the path to the first `?` or `#` (an empty path reads as
 `/`), the query to the first `#`. The parser's clean-up of the input
 (trimming C0 controls and spaces, removing tab and newline) and its
 percent-encoding of path, query and fragment are not modelled.
 */
module ProductImage {
  import opened Js
  import opened Types
  import opened SearchParams
  import Seqs

  // ---------------------------------------------------------------------------
  // URL records
  // ---------------------------------------------------------------------------

  datatype Url = Url(
    scheme: string,
    host: string,
    path: string,
    query: Option<string>,
    fragment: Option<string>)

  const HostStops: set<char> := {'/', '?', '#'}
  const PathStops: set<char> := {'?', '#'}

  /** `url.href` without the leading `scheme://`. */
  function AfterScheme(u: Url): string
  {
    u.host + u.path + QueryPart(u.query) + FragmentPart(u.fragment)
  }

  /** `url.href` */
  function Href(u: Url): string
  {
    u.scheme + "://" + AfterScheme(u)
  }

  function QueryPart(query: Option<string>): string
  {
    match query case Some(q) => "?" + q case None => ""
  }

  function FragmentPart(fragment: Option<string>): string
  {
    match fragment case Some(f) => "#" + f case None => ""
  }

  /** What follows the path: an optional `?query`, then an optional `#fragment`. */
  function ParseSuffix(tail: string): (r: (Option<string>, Option<string>))
    ensures r.0.Some? ==> Avoids(r.0.value, {'#'})
  {
    var f := FindAny(tail, {'#'});
    (if |tail| > 0 && tail[0] == '?' then Some(tail[1..f]) else None,
     if f < |tail| then Some(tail[f + 1..]) else None)
  }

  /** The path and what follows it; an empty path reads as `/`. */
  function ParsePath(scheme: string, host: string, t: string): (u: Url)
    requires |t| == 0 || t[0] in HostStops
    ensures u.scheme == scheme && u.host == host
    ensures |u.path| > 0 && u.path[0] == '/' && Avoids(u.path, PathStops)
    ensures u.query.Some? ==> Avoids(u.query.value, {'#'})
  {
    var p := FindAny(t, PathStops);
    var suffix := ParseSuffix(t[p..]);
    var path := if p == 0 then "/" else t[..p];
    assert Avoids(path, PathStops) by {
      if p > 0 {
        assert forall j :: 0 <= j < p ==> path[j] == t[j];
      }
    }
    Url(scheme, host, path, suffix.0, suffix.1)
  }

  /** `s` without its leading run of `/`. */
  function DropSlashes(s: string): (r: string)
    decreases |s|
  {
    if |s| > 0 && s[0] == '/' then DropSlashes(s[1..]) else s
  }

  /** Any number of extra slashes in front reads the same. */
  lemma {:induction false} DropSlashesOfSlashes(p: string, s: string)
    requires forall i :: 0 <= i < |p| ==> p[i] == '/'
    ensures DropSlashes(p + s) == DropSlashes(s)
    decreases |p|
  {
    if |p| > 0 {
      assert (p + s)[1..] == p[1..] + s;
      DropSlashesOfSlashes(p[1..], s);
    } else {
      assert p + s == s;
    }
  }

  /**
   The text after `scheme://` read as host, path, query and fragment, once
   the further slashes a special scheme ignores are skipped.
   */
  function ParseAfterScheme(scheme: string, rest: string): (u: Url)
    ensures u.scheme == scheme
    ensures Avoids(u.host, HostStops)
    ensures |u.path| > 0 && u.path[0] == '/' && Avoids(u.path, PathStops)
    ensures u.query.Some? ==> Avoids(u.query.value, {'#'})
  {
    var s := DropSlashes(rest);
    var h := FindAny(s, HostStops);
    ParsePath(scheme, s[..h], s[h..])
  }

  /** `new URL(s)` for text of the form `scheme://rest`; `None` for anything else. */
  function ParseHref(s: string): Option<Url>
  {
    var i := FindChar(s, ':');
    if i + 3 <= |s| && s[i..i + 3] == "://" then Some(ParseAfterScheme(s[..i], s[i + 3..]))
    else None
  }

  /** The records `Href` writes and the parser reads back unchanged. */
  predicate WellFormed(u: Url)
  {
    && ':' !in u.scheme
    && |u.host| > 0 && Avoids(u.host, HostStops)
    && |u.path| > 0 && u.path[0] == '/' && Avoids(u.path, PathStops)
    && (u.query.Some? ==> Avoids(u.query.value, {'#'}))
  }

  lemma ParseSuffixRoundTrip(query: Option<string>, fragment: Option<string>)
    requires query.Some? ==> Avoids(query.value, {'#'})
    ensures ParseSuffix(QueryPart(query) + FragmentPart(fragment)) == (query, fragment)
  {
    var fs := FragmentPart(fragment);
    assert FindAny(fs, {'#'}) == 0;
    if query.Some? {
      var head := "?" + query.value;
      var tail := head + fs;
      assert QueryPart(query) + fs == tail;
      assert Avoids(head, {'#'}) by {
        assert forall j :: 1 <= j < |head| ==> head[j] == query.value[j - 1];
      }
      FindAnyAppend(head, fs, {'#'});
      assert tail[1..|head|] == query.value;
      if fragment.Some? {
        assert tail[|head| + 1..] == fragment.value;
      }
    } else {
      assert QueryPart(query) + fs == fs;
      if fragment.Some? {
        assert fs[1..] == fragment.value;
      }
    }
  }

  lemma ParsePathRoundTrip(u: Url)
    requires WellFormed(u)
    ensures ParsePath(u.scheme, u.host, u.path + (QueryPart(u.query) + FragmentPart(u.fragment))) == u
  {
    var tail := QueryPart(u.query) + FragmentPart(u.fragment);
    var t := u.path + tail;
    FindAnyAppend(u.path, tail, PathStops);
    assert |tail| > 0 ==> tail[0] in PathStops;
    assert t[..|u.path|] == u.path;
    assert t[|u.path|..] == tail;
    ParseSuffixRoundTrip(u.query, u.fragment);
  }

  lemma ParseOfAfterScheme(u: Url)
    requires WellFormed(u)
    ensures ParseAfterScheme(u.scheme, AfterScheme(u)) == u
  {
    var t := u.path + (QueryPart(u.query) + FragmentPart(u.fragment));
    var rest := AfterScheme(u);
    assert rest == u.host + t;
    assert rest[0] == u.host[0] != '/';
    FindAnyAppend(u.host, t, HostStops);
    assert t[0] == '/';
    assert rest[..|u.host|] == u.host;
    assert rest[|u.host|..] == t;
    ParsePathRoundTrip(u);
  }

  /** Reading back what `href` wrote gives the same record. */
  lemma ParseHrefOfHref(u: Url)
    requires WellFormed(u)
    ensures ParseHref(Href(u)) == Some(u)
  {
    var s := Href(u);
    assert s == u.scheme + ("://" + AfterScheme(u));
    FindAnyAppend(u.scheme, "://" + AfterScheme(u), {':'});
    assert FindChar(s, ':') == |u.scheme| by {
      assert s[|u.scheme|] == ':';
      assert forall j :: 0 <= j < |u.scheme| ==> s[j] == u.scheme[j];
    }
    assert s[..|u.scheme|] == u.scheme;
    assert s[|u.scheme| + 3..] == AfterScheme(u);
    ParseOfAfterScheme(u);
  }

  /** Distinct well-formed records have distinct `href`s. */
  lemma HrefInjective(u: Url, v: Url)
    requires WellFormed(u) && WellFormed(v)
    ensures Href(u) == Href(v) ==> u == v
  {
    ParseHrefOfHref(u);
    ParseHrefOfHref(v);
  }

  // ---------------------------------------------------------------------------
  // Rewriting onto the edge host (`getProductImageURLs`)
  // ---------------------------------------------------------------------------

  const EdgeHost: string := "edge-fr.dolce-gusto.com"

  /** The path segment of the legacy image route, removed from every derived path. */
  const LegacySegment: string := "/ndgfredge"

  /** `s.replace(/^https?:\/\//, '')`: one leading `http://` or `https://` dropped. */
  function StripScheme(s: string): (r: string)
    ensures |r| <= |s| && r == s[|s| - |r|..]
  {
    if StartsWith(s, "http://") then s[7..]
    else if StartsWith(s, "https://") then s[8..]
    else s
  }

  lemma StripSchemeOfPrefixed(x: string)
    ensures StripScheme("http://" + x) == x
    ensures StripScheme("https://" + x) == x
  {
    assert ("http://" + x)[..7] == "http://";
    assert ("https://" + x)[..7] != "http://" by { assert ("https://" + x)[4] == 's'; }
    assert ("https://" + x)[..8] == "https://";
  }

  lemma StripSchemeOfBare(x: string)
    requires !StartsWith(x, "http://") && !StartsWith(x, "https://")
    ensures StripScheme(x) == x
  {
  }

  /** The `pathname` setter of a special URL: a path that does not start with `/` gets one. */
  function WithPathname(u: Url, p: string): (r: Url)
    ensures r == u.(path := r.path)
    ensures |r.path| > 0 && r.path[0] == '/'
    ensures StartsWith(p, "/") ==> r.path == p
    ensures !StartsWith(p, "/") ==> r.path == "/" + p
  {
    u.(path := if |p| > 0 && p[0] == '/' then p else "/" + p)
  }

  lemma ReplaceFirstAvoids(s: string, pat: string, cs: set<char>)
    requires Avoids(s, cs)
    ensures Avoids(ReplaceFirst(s, pat, ""), cs)
  {
    match IndexOf(s, pat)
    case None =>
    case Some(i) =>
      var before, after := s[..i], s[i + |pat|..];
      assert ReplaceFirst(s, pat, "") == before + after;
      assert Avoids(before, cs) && Avoids(after, cs) by {
        assert forall j :: 0 <= j < |before| ==> before[j] == s[j];
        assert forall j :: 0 <= j < |after| ==> after[j] == s[i + |pat| + j];
      }
      AvoidsConcat(before, after, cs);
  }

  lemma EdgeHostIsHost()
    ensures Avoids(EdgeHost, HostStops)
  {
  }

  /**
   `new URL('https://' + rest)` with its host replaced by the edge host and the
   first `/ndgfredge` removed from its path.
   */
  function DeriveUrl(rest: string): Url
  {
    var parsed := ParseAfterScheme("https", rest);
    WithPathname(parsed.(host := EdgeHost), ReplaceFirst(parsed.path, LegacySegment, ""))
  }

  /**
   A derived URL is a well-formed `https` URL on the edge host that copies the
   parsed query and fragment verbatim (no percent-encoding).
   */
  lemma DeriveUrlShape(rest: string)
    ensures var u := DeriveUrl(rest);
      u.scheme == "https" && u.host == EdgeHost && WellFormed(u)
    ensures DeriveUrl(rest).query == ParseAfterScheme("https", rest).query
    ensures DeriveUrl(rest).fragment == ParseAfterScheme("https", rest).fragment
    ensures IndexOf(ParseAfterScheme("https", rest).path, LegacySegment).None? ==>
              DeriveUrl(rest).path == ParseAfterScheme("https", rest).path
  {
    var parsed := ParseAfterScheme("https", rest);
    var cleaned := ReplaceFirst(parsed.path, LegacySegment, "");
    ReplaceFirstAvoids(parsed.path, LegacySegment, PathStops);
    EdgeHostIsHost();
    var u := DeriveUrl(rest);
    assert Avoids(u.path, PathStops) by {
      if !StartsWith(cleaned, "/") {
        assert forall j :: 1 <= j < |u.path| ==> u.path[j] == cleaned[j - 1];
      }
    }
  }

  /**
   Only the first `/ndgfredge` of the parsed path is cut out; any later one
   stays. A path left without its leading `/` gets it back.
   */
  lemma DerivedPathCutsFirstLegacy(rest: string, i: nat)
    requires OccursAt(ParseAfterScheme("https", rest).path, LegacySegment, i)
    requires forall j :: 0 <= j < i ==> !OccursAt(ParseAfterScheme("https", rest).path, LegacySegment, j)
    ensures var p := ParseAfterScheme("https", rest).path;
      var cut := p[..i] + p[i + |LegacySegment|..];
      DeriveUrl(rest).path == if StartsWith(cut, "/") then cut else "/" + cut
  {
    var p := ParseAfterScheme("https", rest).path;
    assert IndexOf(p, LegacySegment) == Some(i);
  }

  /** Extra slashes before the host change nothing: `//cdn/x.jpg` is read with host `cdn`. */
  lemma DeriveUrlSkipsSlashes(p: string, rest: string)
    requires forall i :: 0 <= i < |p| ==> p[i] == '/'
    ensures DeriveUrl(p + rest) == DeriveUrl(rest)
  {
    DropSlashesOfSlashes(p, rest);
  }

  /** The original host never matters: only what follows it does. */
  lemma DeriveUrlIgnoresHost(h1: string, h2: string, t: string)
    requires |h1| > 0 && |h2| > 0 && Avoids(h1, HostStops) && Avoids(h2, HostStops)
    requires |t| == 0 || t[0] in HostStops
    ensures DeriveUrl(h1 + t) == DeriveUrl(h2 + t)
  {
    assert (h1 + t)[0] == h1[0] && (h2 + t)[0] == h2[0];
    FindAnyAppend(h1, t, HostStops);
    FindAnyAppend(h2, t, HostStops);
    assert (h1 + t)[|h1|..] == t;
    assert (h2 + t)[|h2|..] == t;
  }

  /** The `href` of a well-formed `https` URL on the edge host. */
  predicate IsEdgeUrl(s: string)
  {
    var u := ParseHref(s);
    u.Some? && u.value.scheme == "https" && u.value.host == EdgeHost && Href(u.value) == s
  }

  lemma EdgeHref(rest: string)
    ensures IsEdgeUrl(Href(DeriveUrl(rest)))
  {
    DeriveUrlShape(rest);
    ParseHrefOfHref(DeriveUrl(rest));
  }

  /** One `ProductViewMedia`; only its `url` is read. */
  datatype MediaItem = MediaItem(url: Option<string>, otherFields: seq<Field>)

  /** `image.url?.replace(...)` is truthy: the item has a URL that is more than a bare scheme. */
  predicate Usable(item: MediaItem)
  {
    item.url.Some? && StripScheme(item.url.value) != ""
  }

  /** The derived URL of a usable item. */
  function ItemUrl(item: MediaItem): string
  {
    Href(DeriveUrl(StripScheme(OrElse(item.url, ""))))
  }

  /** The gallery loop for a given rewriting `f` of one item: one URL per usable item, in order. */
  function MapUsable(images: seq<MediaItem>, f: MediaItem -> string): (r: seq<string>)
    ensures |r| <= |images|
    decreases |images|
  {
    if |images| == 0 then []
    else if Usable(images[0]) then [f(images[0])] + MapUsable(images[1..], f)
    else MapUsable(images[1..], f)
  }

  lemma {:induction false} MapUsableOfFilter(images: seq<MediaItem>, f: MediaItem -> string)
    ensures var usable := Seqs.Filter(images, Usable);
      && |MapUsable(images, f)| == |usable|
      && forall i :: 0 <= i < |usable| ==> MapUsable(images, f)[i] == f(usable[i])
    decreases |images|
  {
    if |images| > 0 {
      var r := MapUsable(images, f);
      var tail := MapUsable(images[1..], f);
      var usable := Seqs.Filter(images, Usable);
      var rest := Seqs.Filter(images[1..], Usable);
      MapUsableOfFilter(images[1..], f);
      if Usable(images[0]) {
        assert r == [f(images[0])] + tail;
        assert usable == [images[0]] + rest;
        forall i | 0 <= i < |usable|
          ensures r[i] == f(usable[i])
        {
          if i > 0 {
            assert r[i] == tail[i - 1];
            assert usable[i] == rest[i - 1];
          }
        }
      } else {
        assert r == tail;
        assert usable == rest;
      }
    }
  }

  lemma {:induction false} MapUsableAppend(a: seq<MediaItem>, b: seq<MediaItem>, f: MediaItem -> string)
    ensures MapUsable(a + b, f) == MapUsable(a, f) + MapUsable(b, f)
    decreases |a|
  {
    if |a| > 0 {
      assert (a + b)[1..] == a[1..] + b;
      MapUsableAppend(a[1..], b, f);
    } else {
      assert a + b == b;
    }
  }

  /** The gallery loop: one derived URL per usable item, in order. */
  function GalleryUrls(images: seq<MediaItem>): (r: seq<string>)
    ensures |r| <= |images|
  {
    MapUsable(images, ItemUrl)
  }

  /** The gallery is the usable items, each mapped to its derived URL, one-to-one and in order. */
  lemma GalleryUrlsOfUsable(images: seq<MediaItem>)
    ensures var usable := Seqs.Filter(images, Usable);
      && |GalleryUrls(images)| == |usable|
      && forall i :: 0 <= i < |usable| ==> GalleryUrls(images)[i] == ItemUrl(usable[i])
  {
    MapUsableOfFilter(images, ItemUrl);
  }

  /** Every gallery URL is an `https` URL on the edge host. */
  lemma GalleryUrlsOnEdge(images: seq<MediaItem>)
    ensures forall i :: 0 <= i < |GalleryUrls(images)| ==> IsEdgeUrl(GalleryUrls(images)[i])
  {
    var usable := Seqs.Filter(images, Usable);
    GalleryUrlsOfUsable(images);
    forall i | 0 <= i < |GalleryUrls(images)|
      ensures IsEdgeUrl(GalleryUrls(images)[i])
    {
      assert Usable(usable[i]);
      EdgeHref(StripScheme(usable[i].url.value));
    }
  }

  /** A gallery made of two parts is the two parts' galleries, one after the other. */
  lemma GalleryUrlsAppend(a: seq<MediaItem>, b: seq<MediaItem>)
    ensures GalleryUrls(a + b) == GalleryUrls(a) + GalleryUrls(b)
  {
    MapUsableAppend(a, b, ItemUrl);
  }

  /**
   The top image: `${protocol}//` before its scheme-less text, then the same
   rewriting as a gallery item once the scheme is forced to `https`. The page's
   own protocol (`http:` or `https:`) never shows in the result.
   */
  function TopImageUrl(top: string): string
  {
    Href(DeriveUrl(StripScheme(top)))
  }

  function Min(a: int, b: int): int
  {
    if a < b then a else b
  }

  /**
   `getProductImageURLs(images, amount = 3, topImageUrl)`. With a top image the
   first gallery URL is always dropped (`indexOf` is applied to the top URL
   itself, so the index is 0), and the top URL goes first.
   */
  function ProductImageUrls(images: seq<MediaItem>, amount: Option<int>, top: Option<string>): (r: seq<string>)
    ensures var n := OrElse(amount, 3); n >= 0 ==> |r| <= n
    ensures var derived := GalleryUrls(images); var n := OrElse(amount, 3);
      var listed := if Truthy(top) && |derived| == 0 then 1 else |derived|;
      n < 0 ==> |r| == if listed + n > 0 then listed + n else 0
    ensures var derived := GalleryUrls(images); var n := OrElse(amount, 3);
      !Truthy(top) ==> |r| <= |derived| && r == derived[..|r|] && (n >= 0 ==> |r| == Min(n, |derived|))
    ensures var derived := GalleryUrls(images); var n := OrElse(amount, 3);
      Truthy(top) ==>
        && (|r| > 0 ==> r[0] == TopImageUrl(top.value))
        && (forall i :: 1 <= i < |r| ==> i < |derived| && r[i] == derived[i])
        && (n >= 0 ==> |r| == Min(n, if |derived| > 0 then |derived| else 1))
  {
    var derived := GalleryUrls(images);
    var n := OrElse(amount, 3);
    if Truthy(top) then SliceTo(OverFirst(TopImageUrl(top.value), derived), n)
    else SliceTo(derived, n)
  }

  /** `first` in place of the first URL of `urls`, or alone when there is none. */
  function OverFirst(first: string, urls: seq<string>): (r: seq<string>)
    ensures |r| == if |urls| > 0 then |urls| else 1
    ensures r[0] == first && forall i :: 1 <= i < |r| ==> r[i] == urls[i]
  {
    [first] + (if |urls| > 0 then urls[1..] else [])
  }

  /** Every URL `getProductImageURLs` returns, the top image included, is an `https` URL on the edge host. */
  lemma ProductImageUrlsOnEdge(images: seq<MediaItem>, amount: Option<int>, top: Option<string>)
    ensures forall i :: 0 <= i < |ProductImageUrls(images, amount, top)| ==>
              IsEdgeUrl(ProductImageUrls(images, amount, top)[i])
  {
    var r := ProductImageUrls(images, amount, top);
    var derived := GalleryUrls(images);
    GalleryUrlsOnEdge(images);
    forall i | 0 <= i < |r|
      ensures IsEdgeUrl(r[i])
    {
      if Truthy(top) && i == 0 {
        assert r[0] == TopImageUrl(top.value);
        EdgeHref(StripScheme(top.value));
      } else if Truthy(top) {
        assert r[i] == derived[i];
      } else {
        assert r[i] == derived[i];
      }
    }
  }

  lemma DerivedPathOfShort(rest: string, d: char)
    requires rest == ['a', '/', d] && d !in HostStops
    ensures DeriveUrl(rest).path == ['/', d]
  {
    var parsed := ParseAfterScheme("https", rest);
    assert parsed.path == ['/', d] by {
      assert FindAny(rest, HostStops) == 1 by {
        assert rest[0] !in HostStops && rest[1] in HostStops;
      }
      assert rest[1..] == ['/', d];
      assert FindAny(['/', d], PathStops) == 2 by {
        assert FindAny(['/', d][1..], PathStops) == 1;
      }
    }
    assert IndexOf(parsed.path, LegacySegment).None? by {
      assert |LegacySegment| > |parsed.path|;
    }
    DeriveUrlShape(rest);
  }

  /**
   With a top image, the first gallery URL is lost even when it differs from
   the top image: it is missing from the result unless the gallery repeats it.
   */
  lemma TopImageDropsFirst(images: seq<MediaItem>, amount: Option<int>, top: Option<string>)
    requires Truthy(top) && |GalleryUrls(images)| > 0
    requires GalleryUrls(images)[0] != TopImageUrl(top.value)
    requires GalleryUrls(images)[0] !in GalleryUrls(images)[1..]
    ensures GalleryUrls(images)[0] !in ProductImageUrls(images, amount, top)
  {
    var derived := GalleryUrls(images);
    var r := ProductImageUrls(images, amount, top);
    forall i | 0 <= i < |r|
      ensures r[i] != derived[0]
    {
      if i > 0 {
        assert r[i] == derived[i] == derived[1..][i - 1];
      }
    }
  }

  function ShortItem(d: char): MediaItem
  {
    MediaItem(Some(['a', '/', d]), [])
  }

  lemma ShortItemUrl(d: char)
    requires d !in HostStops
    ensures Usable(ShortItem(d))
    ensures ItemUrl(ShortItem(d)) == Href(DeriveUrl(['a', '/', d]))
    ensures TopImageUrl(['a', '/', d]) == ItemUrl(ShortItem(d))
    ensures WellFormed(DeriveUrl(['a', '/', d])) && DeriveUrl(['a', '/', d]).path == ['/', d]
  {
    var s := ['a', '/', d];
    assert !StartsWith(s, "http://") && !StartsWith(s, "https://");
    DerivedPathOfShort(s, d);
    DeriveUrlShape(s);
  }

  lemma ShortUrlsDistinct(d1: char, d2: char)
    requires d1 !in HostStops && d2 !in HostStops && d1 != d2
    ensures ItemUrl(ShortItem(d1)) != ItemUrl(ShortItem(d2))
  {
    ShortItemUrl(d1);
    ShortItemUrl(d2);
    HrefInjective(DeriveUrl(['a', '/', d1]), DeriveUrl(['a', '/', d2]));
  }

  lemma ShortItemUsable(d: char)
    ensures Usable(ShortItem(d))
  {
    assert |StripScheme(['a', '/', d])| > 0;
  }

  /** The gallery of two usable items. */
  lemma MapUsablePair(x: MediaItem, y: MediaItem, f: MediaItem -> string)
    requires Usable(x) && Usable(y)
    ensures MapUsable([x, y], f) == [f(x), f(y)]
  {
    var images := [x, y];
    assert images[1..] == [y] && images[1..][1..] == [];
  }

  lemma GalleryPair(x: MediaItem, y: MediaItem)
    requires Usable(x) && Usable(y)
    ensures GalleryUrls([x, y]) == [ItemUrl(x), ItemUrl(y)]
  {
    MapUsablePair(x, y, ItemUrl);
  }

  /**
   With a top image and a gallery of two different URLs, the default amount
   gives the top image and the second URL; the first is lost unless it is the
   top image itself.
   */
  lemma ShortResult(images: seq<MediaItem>, top: string, x: string, y: string)
    requires GalleryUrls(images) == [x, y] && top != ""
    requires x != y && x != TopImageUrl(top)
    ensures var r := ProductImageUrls(images, None, Some(top));
      r == [TopImageUrl(top), y] && x !in r
  {
    var r := ProductImageUrls(images, None, Some(top));
    assert |r| == 2;
  }

  /**
   Inputs that show it: a gallery `a/1`, `a/2` with top image `a/3` (any three
   characters other than `/`, `?` and `#` in place of the digits, the first
   differing from the other two) gives the top image and `a/2`; `a/1` is gone.
   */
  lemma TopImageDropsUnrelatedFirst(d1: char, d2: char, d3: char)
    requires d1 !in HostStops && d2 !in HostStops && d3 !in HostStops
    requires d1 != d2 && d1 != d3
    ensures var images := [ShortItem(d1), ShortItem(d2)];
      var r := ProductImageUrls(images, None, Some(['a', '/', d3]));
      && r == [TopImageUrl(['a', '/', d3]), ItemUrl(images[1])]
      && ItemUrl(images[0]) != TopImageUrl(['a', '/', d3])
      && ItemUrl(images[0]) !in r
  {
    var images := [ShortItem(d1), ShortItem(d2)];
    var top := ['a', '/', d3];
    var x, y := ItemUrl(ShortItem(d1)), ItemUrl(ShortItem(d2));
    ShortItemUrl(d3);
    ShortUrlsDistinct(d1, d3);
    ShortUrlsDistinct(d1, d2);
    ShortItemUsable(d1);
    ShortItemUsable(d2);
    GalleryPair(ShortItem(d1), ShortItem(d2));
    ShortResult(images, top, x, y);
  }

  // ---------------------------------------------------------------------------
  // The top image as evidently intended
  // ---------------------------------------------------------------------------

  /**
   The top image first, then the gallery without its first copy of the top
   image (`imageUrlArray.indexOf(top)` in place of `top.indexOf(top)`).
   */
  function TopFirst(derived: seq<string>, t: string): seq<string>
  {
    [t] + Seqs.RemoveFirst(derived, t)
  }

  /** `getProductImageURLs` with the intended de-duplication of the top image. */
  function DeduplicatedImageUrls(images: seq<MediaItem>, amount: Option<int>, top: Option<string>): (r: seq<string>)
    ensures var n := OrElse(amount, 3); n >= 0 ==> |r| <= n
    ensures !Truthy(top) ==> r == ProductImageUrls(images, amount, top)
  {
    var derived := GalleryUrls(images);
    var n := OrElse(amount, 3);
    if Truthy(top) then SliceTo(TopFirst(derived, TopImageUrl(top.value)), n)
    else SliceTo(derived, n)
  }

  /**
   Before truncation, the corrected list has the top image once when the
   gallery had it at most once, and every other URL exactly as often as the
   gallery had it; a top image absent from the gallery costs it nothing.
   */
  lemma TopFirstCounts(derived: seq<string>, t: string, x: string)
    ensures Seqs.Count(TopFirst(derived, t), t)
         == if Seqs.Count(derived, t) > 0 then Seqs.Count(derived, t) else 1
    ensures x != t ==> Seqs.Count(TopFirst(derived, t), x) == Seqs.Count(derived, x)
    ensures t !in derived ==> TopFirst(derived, t) == [t] + derived
  {
    Seqs.CountAppend([t], Seqs.RemoveFirst(derived, t), t);
    Seqs.CountAppend([t], Seqs.RemoveFirst(derived, t), x);
    Seqs.CountRemoveFirst(derived, t, t);
    Seqs.CountRemoveFirst(derived, t, x);
    if t !in derived {
      Seqs.RemoveFirstAbsent(derived, t);
    }
  }

  /** The corrected list keeps the first gallery URL whenever it differs from the top image. */
  lemma DeduplicatedKeepsFirst(images: seq<MediaItem>, amount: Option<int>, top: Option<string>)
    requires Truthy(top) && |GalleryUrls(images)| > 0
    requires GalleryUrls(images)[0] != TopImageUrl(top.value)
    requires OrElse(amount, 3) >= 2
    ensures var r := DeduplicatedImageUrls(images, amount, top);
      |r| >= 2 && r[0] == TopImageUrl(top.value) && r[1] == GalleryUrls(images)[0]
  {
    TopFirstKeepsFirst(GalleryUrls(images), TopImageUrl(top.value), OrElse(amount, 3));
  }

  lemma TopFirstKeepsFirst(derived: seq<string>, t: string, n: int)
    requires |derived| > 0 && derived[0] != t && n >= 2
    ensures var r := SliceTo(TopFirst(derived, t), n);
      |r| >= 2 && r[0] == t && r[1] == derived[0]
  {
    assert Seqs.RemoveFirst(derived, t) == [derived[0]] + Seqs.RemoveFirst(derived[1..], t);
  }

  // ---------------------------------------------------------------------------
  // Resizing options (`resolveImageUrl`)
  // ---------------------------------------------------------------------------

  /** A value of `ResolveImageUrlOptions`: text, a whole number or a flag. */
  datatype OptionValue = Text(text: string) | Number(number: nat) | Flag(flag: bool)

  /** One entry of the options object; `None` is a value of `undefined` or `null`. */
  datatype ImageOption = ImageOption(key: string, value: Option<OptionValue>)

  /** `String(value)` */
  function StringOf(v: OptionValue): string
  {
    match v
    case Text(t) => t
    case Number(n) => NatToString(n)
    case Flag(b) => if b then "true" else "false"
  }

  predicate Defined(o: ImageOption)
  {
    o.value.Some?
  }

  /** The `set`s the `forEach` performs: one per defined entry, in entry order. */
  function Updates(opts: seq<ImageOption>): (r: seq<Param>)
    ensures |r| <= |opts|
  {
    var d := Seqs.Filter(opts, Defined);
    seq(|d|, i requires 0 <= i < |d| => Param(d[i].key, StringOf(d[i].value.value)))
  }

  /** The text before the first `?`. */
  function BaseOf(url: string): string
  {
    Split(url, '?')[0]
  }

  /** The text between the first and the second `?`; empty when there is no `?`. */
  function QueryOf(url: string): string
  {
    var parts := Split(url, '?');
    if |parts| > 1 then parts[1] else ""
  }

  /** `new URLSearchParams(query)` for the query `split('?')` yields. */
  function ParamsOf(url: string): seq<Param>
  {
    Parse(QueryOf(url))
  }

  /** `resolveImageUrl(url, opts)` */
  function ResolveImageUrl(url: string, opts: seq<ImageOption>): string
  {
    BaseOf(url) + "?" + Serialize(SetEach(ParamsOf(url), Updates(opts)))
  }

  /** An entry whose value is `undefined` or `null` changes nothing. */
  lemma UpdatesSkipUndefined(a: seq<ImageOption>, key: string, b: seq<ImageOption>)
    ensures Updates(a + [ImageOption(key, None)] + b) == Updates(a + b)
  {
    Seqs.FilterAppend(a + [ImageOption(key, None)], b, Defined);
    Seqs.FilterAppend(a, [ImageOption(key, None)], Defined);
    Seqs.FilterAppend(a, b, Defined);
    assert Seqs.Filter([ImageOption(key, None)], Defined) == [];
  }

  /** With every entry defined, there is one `set` per entry, in order. */
  lemma UpdatesOfDefined(opts: seq<ImageOption>)
    requires forall i :: 0 <= i < |opts| ==> opts[i].value.Some?
    ensures |Updates(opts)| == |opts|
    ensures forall i :: 0 <= i < |opts| ==>
              Updates(opts)[i] == Param(opts[i].key, StringOf(opts[i].value.value))
  {
    Seqs.FilterAll(opts, Defined);
  }

  /**
   Options free of `&`, `=` and `?` leave the text before the first `?`
   verbatim, and the resolved query reads back as the original one with the
   options set into it.
   */
  lemma ResolvedUrlParts(url: string, opts: seq<ImageOption>)
    requires AllAvoid(Updates(opts), '?')
    ensures BaseOf(ResolveImageUrl(url, opts)) == BaseOf(url)
    ensures ParamsOf(ResolveImageUrl(url, opts)) == SetEach(ParamsOf(url), Updates(opts))
  {
    var parts := Split(url, '?');
    var base := BaseOf(url);
    var query := QueryOf(url);
    assert '?' !in base && '?' !in query;
    ParseAvoids(query, '?');
    var params := SetEach(ParamsOf(url), Updates(opts));
    SetEachAvoids(ParamsOf(url), Updates(opts), '?');
    SerializeAvoids(params, '?');
    var ser := Serialize(params);
    SplitCons(base, '?', ser);
    SplitAvoiding(ser, '?');
    assert ResolveImageUrl(url, opts) == base + ['?'] + ser;
    ParseOfSerialize(params);
  }

  /** Anything after a second `?` is discarded. */
  lemma ResolveIgnoresSecondQuery(base: string, query: string, rest: string, opts: seq<ImageOption>)
    requires '?' !in base && '?' !in query
    ensures ResolveImageUrl(base + "?" + query + "?" + rest, opts) == ResolveImageUrl(base + "?" + query, opts)
  {
    var long := base + "?" + query + "?" + rest;
    var short := base + "?" + query;
    assert long == base + ['?'] + (query + ['?'] + rest);
    assert short == base + ['?'] + query;
    SplitCons(base, '?', query + ['?'] + rest);
    SplitCons(query, '?', rest);
    SplitCons(base, '?', query);
    SplitAvoiding(query, '?');
  }

  /**
   What resolving promises about the query it writes: each option set appears
   once with its value, parameters no option names keep their order, and
   names keep their first place with new ones appended in option order.
   */
  lemma ResolveImageUrlParams(url: string, opts: seq<ImageOption>)
    requires AllAvoid(Updates(opts), '?')
    requires DistinctNames(Updates(opts))
    ensures var before := ParamsOf(url);
      var after := ParamsOf(ResolveImageUrl(url, opts));
      var updates := Updates(opts);
      && (forall k :: 0 <= k < |updates| ==>
            Get(after, updates[k].name) == Some(updates[k].value) && CountName(after, updates[k].name) == 1)
      && Unrelated(after, NameSet(updates)) == Unrelated(before, NameSet(updates))
      && FirstOccurrences(Names(after)) == FirstOccurrences(Names(before)) + NewNames(NameSet(before), updates)
  {
    var updates := Updates(opts);
    ResolvedUrlParts(url, opts);
    SetEachValues(ParamsOf(url), updates);
    NamesInNameSet(updates);
    SetEachKeepsUnrelated(ParamsOf(url), updates, NameSet(updates));
    SetEachKeepsNameOrder(ParamsOf(url), updates);
  }

  // ---------------------------------------------------------------------------
  // `src` and `srcset` (`generateOptimizedImages`)
  // ---------------------------------------------------------------------------

  datatype OptimizedImage = OptimizedImage(src: string, srcset: seq<string>)

  /** `{...baseOptions, width}` */
  function SrcOptions(width: nat): seq<ImageOption>
  {
    [ImageOption("fit", Some(Text("cover"))),
     ImageOption("crop", Some(Flag(false))),
     ImageOption("dpi", Some(Number(1))),
     ImageOption("width", Some(Number(width)))]
  }

  /** `{...baseOptions, auto: 'webp', quality: 80, width}` */
  function SrcsetOptions(width: nat): seq<ImageOption>
  {
    [ImageOption("fit", Some(Text("cover"))),
     ImageOption("crop", Some(Flag(false))),
     ImageOption("dpi", Some(Number(1))),
     ImageOption("auto", Some(Text("webp"))),
     ImageOption("quality", Some(Number(80))),
     ImageOption("width", Some(Number(width)))]
  }

  /** One `srcset` candidate: the resized URL, a space, and the density descriptor. */
  function SrcsetEntry(url: string, baseWidth: nat, density: nat): string
  {
    ResolveImageUrl(url, SrcsetOptions(baseWidth * density)) + " " + NatToString(density) + "x"
  }

  function Optimize(url: string, baseWidth: nat): OptimizedImage
  {
    OptimizedImage(
      ResolveImageUrl(url, SrcOptions(baseWidth)),
      seq(3, k requires 0 <= k < 3 => SrcsetEntry(url, baseWidth, k + 1)))
  }

  /** `generateOptimizedImages(imageUrls, baseImageWidth)`: one entry per URL, in order. */
  function GenerateOptimizedImages(urls: seq<string>, baseWidth: nat): (r: seq<OptimizedImage>)
    ensures |r| == |urls|
    ensures forall i :: 0 <= i < |r| ==> |r[i].srcset| == 3
  {
    seq(|urls|, i requires 0 <= i < |urls| => Optimize(urls[i], baseWidth))
  }

  /** A pair with a literal name and a decimal value can be written into a query. */
  lemma NumberParamAvoids(name: string, n: nat)
    requires '&' !in name && '=' !in name && '?' !in name
    ensures Serializable(Param(name, NatToString(n))) && '?' !in NatToString(n)
  {
    NatToStringAvoids(n, '&');
    NatToStringAvoids(n, '?');
  }

  /** The `set`s a `src` performs. */
  function SrcParamList(width: nat): seq<Param>
  {
    [Param("fit", "cover"), Param("crop", "false"), Param("dpi", "1"), Param("width", NatToString(width))]
  }

  /** The `set`s a `srcset` entry performs. */
  function SrcsetParamList(width: nat): seq<Param>
  {
    [Param("fit", "cover"), Param("crop", "false"), Param("dpi", "1"),
     Param("auto", "webp"), Param("quality", "80"), Param("width", NatToString(width))]
  }

  lemma SrcUpdates(width: nat)
    ensures Updates(SrcOptions(width)) == SrcParamList(width)
  {
    UpdatesOfDefined(SrcOptions(width));
  }

  lemma SrcsetUpdates(width: nat)
    ensures Updates(SrcsetOptions(width)) == SrcsetParamList(width)
  {
    var opts := SrcsetOptions(width);
    UpdatesOfDefined(opts);
    assert NatToString(1) == "1";
    assert NatToString(80) == "80" by {
      assert NatToString(8) == "8";
      assert DigitChar(0) == '0';
    }
    var u := Updates(opts);
    var e := SrcsetParamList(width);
    assert |u| == 6;
    forall i | 0 <= i < 6
      ensures u[i] == e[i]
    {
      assert u[i] == Param(opts[i].key, StringOf(opts[i].value.value));
    }
  }

  /** Names that start with different characters are different. */
  lemma DistinctByInitial(q: seq<Param>)
    requires forall i :: 0 <= i < |q| ==> |q[i].name| > 0
    requires forall i, j :: 0 <= i < j < |q| ==> q[i].name[0] != q[j].name[0]
    ensures DistinctNames(q)
  {
  }

  lemma AllAvoidByIndex(q: seq<Param>, c: char)
    requires forall i :: 0 <= i < |q| ==> Serializable(q[i]) && c !in q[i].name && c !in q[i].value
    ensures AllAvoid(q, c)
  {
  }

  lemma SrcParamListWritable(width: nat)
    ensures AllAvoid(SrcParamList(width), '?') && DistinctNames(SrcParamList(width))
  {
    var q := SrcParamList(width);
    forall j | 0 <= j < |q|
      ensures Serializable(q[j]) && '?' !in q[j].name && '?' !in q[j].value
    {
      if j == 3 {
        NumberParamAvoids("width", width);
      } else {
        LiteralParamAvoids(q[j]);
      }
    }
    AllAvoidByIndex(q, '?');
    assert q[0].name[0] == 'f' && q[1].name[0] == 'c' && q[2].name[0] == 'd' && q[3].name[0] == 'w';
    DistinctByInitial(q);
  }

  lemma SrcsetParamListWritable(width: nat)
    ensures AllAvoid(SrcsetParamList(width), '?') && DistinctNames(SrcsetParamList(width))
  {
    SrcsetParamListAvoids(width);
    SrcsetParamListDistinct(width);
  }

  /** The fixed pairs both option sets write contain no separator and no `?`. */
  lemma LiteralParamAvoids(p: Param)
    requires p in [Param("fit", "cover"), Param("crop", "false"), Param("dpi", "1")]
    ensures Serializable(p) && '?' !in p.name && '?' !in p.value
  {
  }

  /** The fixed pairs only a `srcset` entry writes contain no separator and no `?`. */
  lemma SrcsetLiteralParamAvoids(p: Param)
    requires p in [Param("auto", "webp"), Param("quality", "80")]
    ensures Serializable(p) && '?' !in p.name && '?' !in p.value
  {
  }

  lemma SrcsetParamListAvoids(width: nat)
    ensures AllAvoid(SrcsetParamList(width), '?')
  {
    var q := SrcsetParamList(width);
    forall j | 0 <= j < |q|
      ensures Serializable(q[j]) && '?' !in q[j].name && '?' !in q[j].value
    {
      if j == 5 {
        NumberParamAvoids("width", width);
      } else if j < 3 {
        LiteralParamAvoids(q[j]);
      } else {
        SrcsetLiteralParamAvoids(q[j]);
      }
    }
    AllAvoidByIndex(q, '?');
  }

  lemma SrcsetParamListDistinct(width: nat)
    ensures DistinctNames(SrcsetParamList(width))
  {
    var q := SrcsetParamList(width);
    assert q[0].name[0] == 'f' && q[1].name[0] == 'c' && q[2].name[0] == 'd';
    assert q[3].name[0] == 'a' && q[4].name[0] == 'q' && q[5].name[0] == 'w';
    DistinctByInitial(q);
  }

  /** The values a resolved URL carries: one per option set, each once. */
  lemma ResolvedValues(url: string, opts: seq<ImageOption>, q: seq<Param>)
    requires Updates(opts) == q && AllAvoid(q, '?') && DistinctNames(q)
    ensures BaseOf(ResolveImageUrl(url, opts)) == BaseOf(url)
    ensures forall k :: 0 <= k < |q| ==>
              && Get(ParamsOf(ResolveImageUrl(url, opts)), q[k].name) == Some(q[k].value)
              && CountName(ParamsOf(ResolveImageUrl(url, opts)), q[k].name) == 1
  {
    ResolvedUrlParts(url, opts);
    SetEachValues(ParamsOf(url), q);
  }

  /**
   Each `src` keeps the URL up to its query and carries `fit=cover`,
   `crop=false`, `dpi=1` and the base width, once each.
   */
  lemma SrcParams(urls: seq<string>, baseWidth: nat, i: nat)
    requires i < |urls|
    ensures var src := GenerateOptimizedImages(urls, baseWidth)[i].src;
      var p := ParamsOf(src);
      && BaseOf(src) == BaseOf(urls[i])
      && Get(p, "fit") == Some("cover") && CountName(p, "fit") == 1
      && Get(p, "crop") == Some("false") && CountName(p, "crop") == 1
      && Get(p, "dpi") == Some("1") && CountName(p, "dpi") == 1
      && Get(p, "width") == Some(NatToString(baseWidth)) && CountName(p, "width") == 1
  {
    var up := SrcParamList(baseWidth);
    SrcUpdates(baseWidth);
    SrcParamListWritable(baseWidth);
    ResolvedValues(urls[i], SrcOptions(baseWidth), up);
    assert up[0] == Param("fit", "cover") && up[1] == Param("crop", "false");
    assert up[2] == Param("dpi", "1") && up[3] == Param("width", NatToString(baseWidth));
  }

  /**
   `u` is a `srcset` URL made from `url` for `width`: the same text before its
   query, and `fit=cover`, `crop=false`, `dpi=1`, `auto=webp`, `quality=80` and
   that width, each name exactly once.
   */
  predicate IsSrcsetUrl(u: string, url: string, width: nat)
  {
    var p := ParamsOf(u);
    && BaseOf(u) == BaseOf(url)
    && Get(p, "fit") == Some("cover") && CountName(p, "fit") == 1
    && Get(p, "crop") == Some("false") && CountName(p, "crop") == 1
    && Get(p, "dpi") == Some("1") && CountName(p, "dpi") == 1
    && Get(p, "auto") == Some("webp") && CountName(p, "auto") == 1
    && Get(p, "quality") == Some("80") && CountName(p, "quality") == 1
    && Get(p, "width") == Some(NatToString(width)) && CountName(p, "width") == 1
  }

  /** The URL of a `srcset` entry before its density descriptor. */
  lemma SrcsetUrlParams(url: string, width: nat)
    ensures IsSrcsetUrl(ResolveImageUrl(url, SrcsetOptions(width)), url, width)
  {
    SrcsetUpdates(width);
    SrcsetParamListWritable(width);
    ResolvedValues(url, SrcsetOptions(width), SrcsetParamList(width));
    SrcsetUrlOfValues(ResolveImageUrl(url, SrcsetOptions(width)), url, width);
  }

  lemma SrcsetUrlOfValues(u: string, url: string, width: nat)
    requires BaseOf(u) == BaseOf(url)
    requires var q := SrcsetParamList(width);
      forall k :: 0 <= k < |q| ==>
        Get(ParamsOf(u), q[k].name) == Some(q[k].value) && CountName(ParamsOf(u), q[k].name) == 1
    ensures IsSrcsetUrl(u, url, width)
  {
    var q := SrcsetParamList(width);
    assert q[0] == Param("fit", "cover") && q[1] == Param("crop", "false");
    assert q[2] == Param("dpi", "1") && q[3] == Param("auto", "webp");
    assert q[4] == Param("quality", "80") && q[5] == Param("width", NatToString(width));
  }

  /**
   Entry `k` (1 to 3) of each `srcset` is a URL with the same text before its
   query, `fit=cover`, `crop=false`, `dpi=1`, `auto=webp`, `quality=80` and
   `width` equal to `k` times the base width, each once, followed by ` kx`.
   */
  lemma SrcsetParams(urls: seq<string>, baseWidth: nat, i: nat, k: nat)
    requires i < |urls| && 1 <= k <= 3
    ensures var entry := GenerateOptimizedImages(urls, baseWidth)[i].srcset[k - 1];
      exists u :: entry == u + " " + [DigitChar(k)] + "x" && IsSrcsetUrl(u, urls[i], baseWidth * k)
  {
    var u := ResolveImageUrl(urls[i], SrcsetOptions(baseWidth * k));
    var entry := GenerateOptimizedImages(urls, baseWidth)[i].srcset[k - 1];
    assert entry == SrcsetEntry(urls[i], baseWidth, k) by {
      assert GenerateOptimizedImages(urls, baseWidth)[i] == Optimize(urls[i], baseWidth);
    }
    SrcsetEntryShape(urls[i], baseWidth, k);
    SrcsetUrlParams(urls[i], baseWidth * k);
  }

  /** A density descriptor from 1 to 3 is one digit followed by `x`. */
  lemma SrcsetEntryShape(url: string, baseWidth: nat, k: nat)
    requires 1 <= k <= 3
    ensures SrcsetEntry(url, baseWidth, k)
         == ResolveImageUrl(url, SrcsetOptions(baseWidth * k)) + " " + [DigitChar(k)] + "x"
  {
    assert NatToString(k) == [DigitChar(k)];
  }
}
