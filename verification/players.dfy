/** `src/lib/players/index.ts`: the Open Graph tag scraper, platform
    detection, the adapter factory and the metadata resolver. Network
    results are parameters. */
module Players {
  import opened Nullable
  import Text
  import opened YouTube

  /* --- Open Graph scraping at the tag level --- */

  /** One attribute of a tag; `quoted` says its value was written between
      quote characters. */
  datatype Attr = Attr(name: string, value: string, quoted: bool)

  /** One start tag of the page: its name and its attributes in order. */
  datatype Tag = Tag(name: string, attrs: seq<Attr>)

  /** The attribute that names the Open Graph property. */
  datatype Descriptor = Property | Name

  function DescriptorName(d: Descriptor): string {
    match d
    case Property => "property"
    case Name => "name"
  }

  datatype OgKey = OgTitle | OgImage

  function KeyText(k: OgKey): string {
    match k
    case OgTitle => "og:title"
    case OgImage => "og:image"
  }

  /** The pattern starts with `<meta` under the `i` flag, so any tag whose
      name begins with `meta` in any case qualifies. */
  predicate OpensMeta(t: Tag) {
    Text.StartsWith(Text.Lower(t.name), "meta")
  }

  predicate IsQuote(c: char) {
    c == '"' || c == '\''
  }

  /** The captured group `([^"']+)`: the value up to its first quote. */
  function UpToQuote(v: string): (r: string)
    ensures |r| <= |v| && r == v[..|r|]
    ensures forall k :: 0 <= k < |r| ==> !IsQuote(r[k])
    ensures |r| < |v| ==> IsQuote(v[|r|])
  {
    if |v| == 0 || IsQuote(v[0]) then ""
    else [v[0]] + UpToQuote(v[1..])
  }

  /** `property="og:title"` (or `name=`), compared ignoring case. */
  predicate Describes(a: Attr, d: Descriptor, key: OgKey) {
    a.quoted && Text.Lower(a.name) == DescriptorName(d) && Text.Lower(a.value) == KeyText(key)
  }

  /** `content="..."` with a non-empty capture. */
  predicate IsContent(a: Attr) {
    a.quoted && Text.Lower(a.name) == "content" && UpToQuote(a.value) != ""
  }

  /** The pattern matches inside tag `t`: a descriptor for `key` comes
      before some content attribute. */
  predicate TagMatches(t: Tag, d: Descriptor, key: OgKey) {
    OpensMeta(t) &&
    exists i, j :: 0 <= i < j < |t.attrs| && Describes(t.attrs[i], d, key) && IsContent(t.attrs[j])
  }

  /** The capture of the last content attribute. The pattern's `[^>]+` are
      greedy, so within a matching tag the capture comes from the last
      content attribute, which lies after a matching descriptor. */
  function LastContent(attrs: seq<Attr>): (r: Option<string>)
    ensures r.None? <==> forall j :: 0 <= j < |attrs| ==> !IsContent(attrs[j])
    ensures r.Some? ==> exists j :: 0 <= j < |attrs| && IsContent(attrs[j])
                         && UpToQuote(attrs[j].value) == r.value
                         && forall k :: j < k < |attrs| ==> !IsContent(attrs[k])
  {
    if |attrs| == 0 then None
    else
      var last := attrs[|attrs| - 1];
      if IsContent(last) then Some(UpToQuote(last.value))
      else
        var r := LastContent(attrs[..|attrs| - 1]);
        assert forall j :: 0 <= j < |attrs| - 1 ==> attrs[j] == attrs[..|attrs| - 1][j];
        r
  }

  /** Tag `k` is the first tag of `html` where the pattern matches. */
  predicate FirstAt(html: seq<Tag>, k: int, d: Descriptor, key: OgKey) {
    0 <= k < |html| && TagMatches(html[k], d, key)
    && forall j :: 0 <= j < k ==> !TagMatches(html[j], d, key)
  }

  /** A matching tag has a content attribute to capture. */
  lemma MatchHasContent(t: Tag, d: Descriptor, key: OgKey)
    requires TagMatches(t, d, key)
    ensures LastContent(t.attrs).Some?
  {
    var i, j :| 0 <= i < j < |t.attrs| && Describes(t.attrs[i], d, key) && IsContent(t.attrs[j]);
  }

  /** Which tags of `html` the pattern matches in. */
  function Flags(html: seq<Tag>, d: Descriptor, key: OgKey): (r: seq<bool>)
    ensures |r| == |html|
    ensures forall k :: 0 <= k < |html| ==> r[k] == TagMatches(html[k], d, key)
  {
    seq(|html|, k requires 0 <= k < |html| => TagMatches(html[k], d, key))
  }

  /** The position of the first `true` in `flags`, or `|flags|` when there
      is none. */
  function FirstTrue(flags: seq<bool>): (k: nat)
    ensures k <= |flags|
    ensures forall j :: 0 <= j < k ==> !flags[j]
    ensures k < |flags| ==> flags[k]
  {
    if |flags| == 0 || flags[0] then 0
    else
      var k := FirstTrue(flags[1..]);
      assert forall j :: 1 <= j <= k ==> flags[j] == flags[1..][j - 1];
      k + 1
  }

  /** `html.match(re)`: the capture in the first tag where the pattern matches. */
  function FirstMatch(html: seq<Tag>, d: Descriptor, key: OgKey): (r: Option<string>)
    ensures r.None? <==> forall k :: 0 <= k < |html| ==> !TagMatches(html[k], d, key)
    ensures r.Some? ==> exists k :: FirstAt(html, k, d, key) && r == LastContent(html[k].attrs)
  {
    var k := FirstTrue(Flags(html, d, key));
    if k == |html| then None
    else
      MatchHasContent(html[k], d, key);
      assert FirstAt(html, k, d, key);
      LastContent(html[k].attrs)
  }

  /** `parseOg(html, property)`: the `property=` pattern first, then the
      `name=` pattern; `null` when neither matches. */
  function ParseOg(html: seq<Tag>, key: OgKey): (r: Option<string>)
    ensures r.None? <==> forall k :: 0 <= k < |html| ==>
              !TagMatches(html[k], Property, key) && !TagMatches(html[k], Name, key)
    ensures r.Some? ==> r.value != ""
  {
    var byProperty := FirstMatch(html, Property, key);
    if byProperty.Some? then byProperty else FirstMatch(html, Name, key)
  }

  /** A `property=` match anywhere wins over a `name=` match, even one in
      an earlier tag. */
  lemma PropertyBeatsName(html: seq<Tag>, key: OgKey, k: nat)
    requires k < |html| && TagMatches(html[k], Property, key)
    requires forall j :: 0 <= j < k ==> !TagMatches(html[j], Property, key)
    ensures ParseOg(html, key) == LastContent(html[k].attrs)
  {
    var r := FirstMatch(html, Property, key);
    var k' :| FirstAt(html, k', Property, key) && r == LastContent(html[k'].attrs);
    assert !(k' < k) && !(k < k');
  }

  /** Without a `property=` match the `name=` match decides. */
  lemma NameIsTheFallback(html: seq<Tag>, key: OgKey)
    requires forall k :: 0 <= k < |html| ==> !TagMatches(html[k], Property, key)
    ensures ParseOg(html, key) == FirstMatch(html, Name, key)
  {
  }

  /** A tag whose content attributes all come before its descriptors never
      matches: the descriptor has to precede `content=`. */
  lemma ContentFirstNeverMatches(t: Tag, d: Descriptor, key: OgKey)
    requires forall i, j ::
               0 <= i < |t.attrs| && 0 <= j < |t.attrs| && Describes(t.attrs[i], d, key) && IsContent(t.attrs[j])
               ==> j < i
    ensures !TagMatches(t, d, key)
  {
  }

  /** Lower-cases tag and attribute names. */
  function LowerNames(html: seq<Tag>): (r: seq<Tag>)
    ensures |r| == |html|
    ensures forall k :: 0 <= k < |html| ==>
              r[k].name == Text.Lower(html[k].name) && |r[k].attrs| == |html[k].attrs|
              && forall i :: 0 <= i < |html[k].attrs| ==>
                   r[k].attrs[i] == html[k].attrs[i].(name := Text.Lower(html[k].attrs[i].name))
  {
    seq(|html|, k requires 0 <= k < |html| =>
      Tag(Text.Lower(html[k].name),
          seq(|html[k].attrs|, i requires 0 <= i < |html[k].attrs| =>
            html[k].attrs[i].(name := Text.Lower(html[k].attrs[i].name)))))
  }

  /** Lower-casing the names of one tag keeps what the scraper sees in it. */
  lemma SameTag(t: Tag, low: Tag, key: OgKey)
    requires low.name == Text.Lower(t.name) && |low.attrs| == |t.attrs|
    requires forall i :: 0 <= i < |t.attrs| ==>
               low.attrs[i] == t.attrs[i].(name := Text.Lower(t.attrs[i].name))
    ensures LastContent(low.attrs) == LastContent(t.attrs)
    ensures forall d :: TagMatches(low, d, key) == TagMatches(t, d, key)
  {
    Text.LowerIdempotent(t.name);
    forall i | 0 <= i < |t.attrs|
      ensures Text.Lower(low.attrs[i].name) == Text.Lower(t.attrs[i].name)
    {
      Text.LowerIdempotent(t.attrs[i].name);
    }
    SameContents(low.attrs, t.attrs);
    forall d ensures TagMatches(low, d, key) == TagMatches(t, d, key) {
      assert forall i :: 0 <= i < |t.attrs| ==>
        Describes(low.attrs[i], d, key) == Describes(t.attrs[i], d, key);
    }
  }

  /** The scraper ignores the case of tag and attribute names. */
  lemma ParseOgIgnoresNameCase(html: seq<Tag>, key: OgKey)
    ensures ParseOg(LowerNames(html), key) == ParseOg(html, key)
  {
    var low := LowerNames(html);
    forall k | 0 <= k < |html|
      ensures LastContent(low[k].attrs) == LastContent(html[k].attrs)
      ensures forall d :: TagMatches(low[k], d, key) == TagMatches(html[k], d, key)
    {
      SameTag(html[k], low[k], key);
    }
    assert Flags(low, Property, key) == Flags(html, Property, key);
    assert Flags(low, Name, key) == Flags(html, Name, key);
    SameMatches(low, html, Property, key);
    SameMatches(low, html, Name, key);
  }

  lemma {:induction false} SameContents(a: seq<Attr>, b: seq<Attr>)
    requires |a| == |b|
    requires forall i :: 0 <= i < |a| ==> IsContent(a[i]) == IsContent(b[i]) && a[i].value == b[i].value
    ensures LastContent(a) == LastContent(b)
    decreases |a|
  {
    if |a| > 0 {
      SameContents(a[..|a| - 1], b[..|b| - 1]);
    }
  }

  /** The first match depends only on which tags match and what they capture. */
  lemma SameMatches(a: seq<Tag>, b: seq<Tag>, d: Descriptor, key: OgKey)
    requires Flags(a, d, key) == Flags(b, d, key)
    requires forall k :: 0 <= k < |a| ==> LastContent(a[k].attrs) == LastContent(b[k].attrs)
    ensures FirstMatch(a, d, key) == FirstMatch(b, d, key)
  {
  }

  /* --- platform detection and the adapter factory --- */

  datatype Platform = YouTubePlatform

  datatype Detected = Detected(platform: Platform, id: string)

  /** `detectPlatform(url)`: a YouTube id counts only when it is non-empty. */
  function DetectPlatform(url: Option<Url>): (r: Option<Detected>)
    ensures r.Some? <==> ExtractYouTubeId(url).Some? && ExtractYouTubeId(url).value != ""
    ensures r.Some? ==> r.value == Detected(YouTubePlatform, ExtractYouTubeId(url).value)
  {
    var id := ExtractYouTubeId(url);
    if id.Some? && id.value != "" then Some(Detected(YouTubePlatform, id.value)) else None
  }

  /** `?v=` with an empty value is a present parameter, so it wins over the
      path, and its empty id is then rejected. */
  lemma EmptyVIsUnsupported(path: string)
    ensures DetectPlatform(Some(Url("youtube.com", path, [("v", "")])) ).None?
  {
    LowerOfLowercase("youtube.com");
    assert !Text.StartsWith("youtube.com", "www.") by { assert "youtube.com"[..4][0] == 'y'; }
  }

  /** What awaiting `createAdapterForUrl` gives: a value (an adapter or
      `null`), or a rejection when the iframe API script fails to load. */
  datatype Creation = Returned(adapter: Option<Adapter>) | Rejected

  /** `createAdapterForUrl(containerId, url)`; `apiLoads` says whether
      `ensureYouTubeAPI` resolves. */
  function CreateAdapterForUrl(url: Option<Url>, apiLoads: bool): (r: Creation)
    ensures DetectPlatform(url).None? ==> r == Returned(None)
    ensures DetectPlatform(url).Some? ==> r == (if apiLoads then Returned(Some(NewAdapter)) else Rejected)
  {
    match DetectPlatform(url)
    case None => Returned(None)
    case Some(d) =>
      match d.platform
      case YouTubePlatform => if apiLoads then Returned(Some(NewAdapter)) else Rejected
  }

  /* --- metadata --- */

  datatype Meta = Meta(title: Option<string>, image: Option<string>, platform: Option<Platform>)

  const NoMeta := Meta(None, None, None)

  /** What `fetchYouTubeOEmbed` resolves to (it never rejects). */
  datatype OEmbed = OEmbed(title: Option<string>, image: Option<string>)

  /** What the fallback `serverFetch(url)` and `res.text()` produce:
      a failure (a rejection of either), or a response. */
  datatype PageFetch = FetchFailed | Fetched(ok: bool, html: seq<Tag>)

  /** `fetchMetadata(url, serverFetch)`. */
  function FetchMetadata(url: Option<Url>, oembed: OEmbed, page: PageFetch): (r: Meta)
    ensures DetectPlatform(url).Some? ==>
              r == Meta(oembed.title, oembed.image, Some(YouTubePlatform))
    ensures DetectPlatform(url).None? ==> r.platform.None?
    ensures DetectPlatform(url).None? && (page.FetchFailed? || !page.ok) ==> r == NoMeta
    ensures DetectPlatform(url).None? && page.Fetched? && page.ok ==>
              r.title == ParseOg(page.html, OgTitle) && r.image == ParseOg(page.html, OgImage)
  {
    var ytId := ExtractYouTubeId(url);
    if ytId.Some? && ytId.value != "" then
      Meta(oembed.title, oembed.image, Some(YouTubePlatform))
    else
      match page
      case FetchFailed => NoMeta
      case Fetched(ok, html) =>
        if !ok then NoMeta
        else Meta(ParseOg(html, OgTitle), ParseOg(html, OgImage), None)
  }

  /** With a YouTube id the page is never fetched: its outcome cannot
      change the result. */
  lemma YouTubeSkipsPage(url: Option<Url>, oembed: OEmbed, p1: PageFetch, p2: PageFetch)
    requires DetectPlatform(url).Some?
    ensures FetchMetadata(url, oembed, p1) == FetchMetadata(url, oembed, p2)
  {
  }

  /** Without a YouTube id the oEmbed outcome cannot change the result. */
  lemma FallbackSkipsOEmbed(url: Option<Url>, o1: OEmbed, o2: OEmbed, page: PageFetch)
    requires DetectPlatform(url).None?
    ensures FetchMetadata(url, o1, page) == FetchMetadata(url, o2, page)
  {
  }
}
