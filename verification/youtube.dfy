/** `src/lib/players/youtube.ts`: extracting a video id from a URL, and the
    state kept inside the closure `createYouTubeAdapter` returns. */
module YouTube {
  import opened Nullable
  import Text
  import opened PlayerTypes

  /** A URL as `new URL(...)` has parsed it: `hostname`, `pathname` and the
      decoded `searchParams` pairs in order. */
  datatype Url = Url(host: string, path: string, query: seq<(string, string)>)

  /** `hostname.toLowerCase().replace(/^www\./, '')`: the lower-cased host,
      less one leading `www.` when it has one. */
  function NormalizeHost(host: string): (r: string)
    ensures forall k :: 0 <= k < |r| ==> !('A' <= r[k] <= 'Z')
    ensures Text.Lower(host) == r || Text.Lower(host) == "www." + r
    ensures Text.Lower(host) == r <==> !Text.StartsWith(Text.Lower(host), "www.")
  {
    var h := Text.Lower(host);
    if Text.StartsWith(h, "www.") then h[4..] else h
  }

  /** `searchParams.get(name)`: the value of the first pair with that name. */
  function QueryGet(query: seq<(string, string)>, name: string): (r: Option<string>)
    ensures r.None? <==> forall k :: 0 <= k < |query| ==> query[k].0 != name
    ensures r.Some? ==> exists k :: 0 <= k < |query| && query[k] == (name, r.value)
                         && forall j :: 0 <= j < k ==> query[j].0 != name
  {
    if |query| == 0 then None
    else if query[0].0 == name then Some(query[0].1)
    else
      var r := QueryGet(query[1..], name);
      assert forall k :: 1 <= k < |query| ==> query[k] == query[1..][k - 1];
      if r.Some? then
        var k :| 0 <= k < |query[1..]| && query[1..][k] == (name, r.value)
                 && forall j :: 0 <= j < k ==> query[1..][j].0 != name;
        assert query[k + 1] == (name, r.value);
        r
      else r
  }

  predicate NoSlash(s: string) {
    forall k :: 0 <= k < |s| ==> s[k] != '/'
  }

  /** The characters of `s` that are not `/`. */
  function WithoutSlashes(s: string): (r: string)
    ensures NoSlash(r)
  {
    if |s| == 0 then ""
    else if s[0] == '/' then WithoutSlashes(s[1..])
    else [s[0]] + WithoutSlashes(s[1..])
  }

  function Concat(parts: seq<string>): string {
    if |parts| == 0 then "" else parts[0] + Concat(parts[1..])
  }

  lemma ConcatAppend(a: seq<string>, b: seq<string>)
    ensures Concat(a + b) == Concat(a) + Concat(b)
  {
    if |a| > 0 {
      assert (a + b)[0] == a[0];
      assert (a + b)[1..] == a[1..] + b;
      ConcatAppend(a[1..], b);
    } else {
      assert a + b == b;
    }
  }

  /** The segments of `path` still to be split, after the current segment
      `cur` has been started. */
  function SegmentsFrom(path: string, cur: string): (r: seq<string>)
    requires NoSlash(cur)
    ensures forall k :: 0 <= k < |r| ==> r[k] != "" && NoSlash(r[k])
  {
    var close := if cur == "" then [] else [cur];
    if |path| == 0 then close
    else if path[0] == '/' then close + SegmentsFrom(path[1..], "")
    else SegmentsFrom(path[1..], cur + [path[0]])
  }

  /** Splitting loses no character other than the slashes. */
  lemma {:induction false} SegmentsFromKeepText(path: string, cur: string)
    requires NoSlash(cur)
    ensures Concat(SegmentsFrom(path, cur)) == cur + WithoutSlashes(path)
    decreases |path|
  {
    var close := if cur == "" then [] else [cur];
    assert Concat(close) == cur;
    if |path| > 0 {
      if path[0] == '/' {
        SegmentsFromKeepText(path[1..], "");
        ConcatAppend(close, SegmentsFrom(path[1..], ""));
      } else {
        SegmentsFromKeepText(path[1..], cur + [path[0]]);
        assert cur + [path[0]] + WithoutSlashes(path[1..]) == cur + WithoutSlashes(path);
      }
    }
  }

  /** `pathname.split('/').filter(Boolean)`: the non-empty pieces between
      slashes. They hold every non-slash character of the path, in order. */
  function Segments(path: string): (r: seq<string>)
    ensures forall k :: 0 <= k < |r| ==> r[k] != "" && NoSlash(r[k])
    ensures Concat(r) == WithoutSlashes(path)
  {
    SegmentsFromKeepText(path, "");
    SegmentsFrom(path, "")
  }

  /** A slash splits: the segments of `a + "/" + b` are those of `a`
      followed by those of `b`. */
  lemma {:induction false} SegmentsFromSplit(a: string, b: string, cur: string)
    requires NoSlash(cur)
    ensures SegmentsFrom(a + "/" + b, cur) == SegmentsFrom(a, cur) + SegmentsFrom(b, "")
    decreases |a|
  {
    var close := if cur == "" then [] else [cur];
    if |a| == 0 {
      assert a + "/" + b == "/" + b;
      assert ("/" + b)[1..] == b;
    } else {
      assert (a + "/" + b)[0] == a[0];
      assert (a + "/" + b)[1..] == a[1..] + "/" + b;
      if a[0] == '/' {
        SegmentsFromSplit(a[1..], b, "");
        assert close + (SegmentsFrom(a[1..], "") + SegmentsFrom(b, ""))
            == (close + SegmentsFrom(a[1..], "")) + SegmentsFrom(b, "");
      } else {
        SegmentsFromSplit(a[1..], b, cur + [a[0]]);
      }
    }
  }

  lemma SegmentsSplitAtSlash(a: string, b: string)
    ensures Segments(a + "/" + b) == Segments(a) + Segments(b)
  {
    SegmentsFromSplit(a, b, "");
  }

  /** A piece of path with no slash is one segment, or none when empty. */
  lemma SegmentsOfWord(w: string)
    requires NoSlash(w)
    ensures Segments(w) == (if w == "" then [] else [w])
  {
    SegmentsFromWord(w, "", "");
    assert w + "" == w && "" + w == w;
  }

  /** The path whose segments are `words`: each word preceded by a slash. */
  function SlashJoin(words: seq<string>): string {
    if |words| == 0 then "" else "/" + words[0] + SlashJoin(words[1..])
  }

  lemma {:induction false} SegmentsFromWord(w: string, rest: string, cur: string)
    requires NoSlash(w) && NoSlash(cur)
    ensures SegmentsFrom(w + rest, cur) == SegmentsFrom(rest, cur + w)
    decreases |w|
  {
    if |w| == 0 {
      assert w + rest == rest && cur + w == cur;
    } else {
      assert (w + rest)[0] == w[0] && (w + rest)[1..] == w[1..] + rest;
      assert cur + [w[0]] + w[1..] == cur + w;
      SegmentsFromWord(w[1..], rest, cur + [w[0]]);
    }
  }

  lemma {:induction false} SegmentsFromJoin(words: seq<string>, cur: string)
    requires forall k :: 0 <= k < |words| ==> words[k] != "" && NoSlash(words[k])
    requires NoSlash(cur)
    ensures SegmentsFrom(SlashJoin(words), cur) == (if cur == "" then [] else [cur]) + words
    decreases |words|
  {
    if |words| > 0 {
      var joined := SlashJoin(words);
      assert joined[0] == '/';
      assert joined[1..] == words[0] + SlashJoin(words[1..]);
      SegmentsFromWord(words[0], SlashJoin(words[1..]), "");
      assert "" + words[0] == words[0];
      SegmentsFromJoin(words[1..], words[0]);
      assert words == [words[0]] + words[1..];
    }
  }

  /** Splitting a joined path gives the words back. */
  lemma SplitJoin(words: seq<string>)
    requires forall k :: 0 <= k < |words| ==> words[k] != "" && NoSlash(words[k])
    ensures Segments(SlashJoin(words)) == words
  {
    SegmentsFromJoin(words, "");
    assert [] + words == words;
  }

  /** `parts.indexOf(x)`, with `None` for -1. */
  function IndexOf(parts: seq<string>, x: string): (r: Option<nat>)
    ensures r.None? <==> x !in parts
    ensures r.Some? ==> r.value < |parts| && parts[r.value] == x
                        && forall k :: 0 <= k < r.value ==> parts[k] != x
  {
    if |parts| == 0 then None
    else if parts[0] == x then Some(0)
    else
      var r := IndexOf(parts[1..], x);
      assert parts == [parts[0]] + parts[1..];
      if r.Some? then Some(r.value + 1) else None
  }

  /** The minimum length of a bare trailing segment taken as an id. */
  const MinBareIdLength := 6

  /** `extractYouTubeId(url)`; `None` for the URL stands for `new URL`
      throwing, which the function turns into `null`. */
  function ExtractYouTubeId(url: Option<Url>): (r: Option<string>)
    ensures url.None? ==> r.None?
    ensures url.Some? && NormalizeHost(url.value.host) != "youtu.be"
            && QueryGet(url.value.query, "v").None? && r.Some? ==>
              r.value in Segments(url.value.path) && r.value != "" && NoSlash(r.value)
  {
    match url
    case None => None
    case Some(u) =>
      var host := NormalizeHost(u.host);
      if host == "youtu.be" then
        var rest := if |u.path| >= 1 then u.path[1..] else "";
        if rest == "" then None else Some(rest)
      else if QueryGet(u.query, "v").Some? then QueryGet(u.query, "v")
      else
        var parts := Segments(u.path);
        var embed := IndexOf(parts, "embed");
        if embed.Some? && |parts| > embed.value + 1 then Some(parts[embed.value + 1])
        else if |parts| > 0 && |parts[|parts| - 1]| >= MinBareIdLength then Some(parts[|parts| - 1])
        else None
  }

  /* --- the decision procedure, rule by rule --- */

  lemma ShortLinkRule(u: Url)
    requires NormalizeHost(u.host) == "youtu.be"
    ensures ExtractYouTubeId(Some(u)) == if |u.path| > 1 then Some(u.path[1..]) else None
  {
  }

  /** On every other host a `v` parameter wins, whatever the host is. */
  lemma QueryRule(u: Url)
    requires NormalizeHost(u.host) != "youtu.be" && QueryGet(u.query, "v").Some?
    ensures ExtractYouTubeId(Some(u)) == Some(QueryGet(u.query, "v").value)
  {
  }

  /** Otherwise the segment right after the first `embed` segment. */
  lemma EmbedRule(u: Url, i: nat)
    requires NormalizeHost(u.host) != "youtu.be" && QueryGet(u.query, "v").None?
    requires i + 1 < |Segments(u.path)| && Segments(u.path)[i] == "embed"
    requires forall k :: 0 <= k < i ==> Segments(u.path)[k] != "embed"
    ensures ExtractYouTubeId(Some(u)) == Some(Segments(u.path)[i + 1])
  {
    var parts := Segments(u.path);
    assert parts[i] == "embed";
    var embed := IndexOf(parts, "embed");
    assert embed == Some(i);
  }

  /** Otherwise the last segment, when it is at least six characters long. */
  lemma LastSegmentRule(u: Url)
    requires NormalizeHost(u.host) != "youtu.be" && QueryGet(u.query, "v").None?
    requires var parts := Segments(u.path);
      forall i :: 0 <= i < |parts| - 1 ==> parts[i] != "embed"
    ensures var parts := Segments(u.path);
      ExtractYouTubeId(Some(u)) ==
        if |parts| > 0 && |parts[|parts| - 1]| >= 6 then Some(parts[|parts| - 1]) else None
  {
    var parts := Segments(u.path);
    var embed := IndexOf(parts, "embed");
    if embed.Some? {
      assert embed.value == |parts| - 1;
    }
  }

  /** Host matching ignores ASCII case. */
  lemma HostCaseIgnored(u: Url, host: string)
    requires Text.EqualsIgnoreCase(host, u.host)
    ensures ExtractYouTubeId(Some(u.(host := host))) == ExtractYouTubeId(Some(u))
  {
  }

  /** Host matching ignores one leading `www.`. */
  lemma LeadingWwwIgnored(u: Url)
    requires !Text.StartsWith(Text.Lower(u.host), "www.")
    ensures ExtractYouTubeId(Some(u.(host := "www." + u.host))) == ExtractYouTubeId(Some(u))
  {
    Text.LowerConcat("www.", u.host);
    assert Text.Lower("www.") == "www.";
    var h := Text.Lower("www." + u.host);
    assert h == "www." + Text.Lower(u.host);
    assert Text.StartsWith(h, "www.");
    assert h[4..] == Text.Lower(u.host);
  }

  /* --- the adapter closure --- */

  /** The closure state: whether `ytPlayer` is set, and `currentVideoId`. */
  datatype Adapter = Adapter(hasPlayer: bool, currentVideoId: Option<string>)

  /** What `createYouTubeAdapter` returns once the iframe API is loaded. */
  const NewAdapter := Adapter(false, None)

  datatype Step = Step(adapter: Adapter, calls: seq<PlayerCall>)

  /** `load(resourceId)`, once the player has signalled readiness. An
      existing player is reused; otherwise a new one is built. */
  function Load(a: Adapter, resourceId: string): (r: Step)
    ensures r.adapter == Adapter(true, Some(resourceId))
    ensures a.hasPlayer ==> r.calls == [LoadVideoById(resourceId)]
    ensures !a.hasPlayer ==> r.calls == [CreatePlayer(resourceId)]
  {
    var call := if a.hasPlayer then LoadVideoById(resourceId) else CreatePlayer(resourceId);
    Step(Adapter(true, Some(resourceId)), [call])
  }

  /** `play()`, `pause()`, `stop()`: forwarded only when a player exists. */
  function Forward(a: Adapter, call: PlayerCall): (r: seq<PlayerCall>)
    ensures a.hasPlayer ==> r == [call]
    ensures !a.hasPlayer ==> r == []
  {
    if a.hasPlayer then [call] else []
  }

  /** `Math.max(0, Math.floor(seconds))` on whole seconds. */
  function SeekTarget(seconds: int): (r: nat)
    ensures seconds >= 0 ==> r == seconds
    ensures seconds < 0 ==> r == 0
  {
    if seconds < 0 then 0 else seconds
  }

  /** `seekTo(seconds)`. */
  function SeekTo(a: Adapter, seconds: int): (r: seq<PlayerCall>)
    ensures a.hasPlayer ==> r == [SeekVideo(SeekTarget(seconds))]
    ensures !a.hasPlayer ==> r == []
  {
    Forward(a, SeekVideo(SeekTarget(seconds)))
  }

  /** The seek target is the non-negative whole second closest to the request. */
  lemma SeekTargetIsClosest(seconds: int, t: nat)
    ensures (SeekTarget(seconds) - seconds) * (SeekTarget(seconds) - seconds) <= (t - seconds) * (t - seconds)
  {
  }

  /** What the player reports when asked: `getVideoData().title`,
      `getDuration()` and `getCurrentTime()` as whole seconds, with a
      missing method or a falsy value already read as 0. */
  datatype Reading = Reading(title: Option<string>, duration: int, currentTime: int)

  /** `getInfo()`. `reading` is `None` when one of the player calls throws. */
  function GetInfo(a: Adapter, reading: Option<Reading>): (r: VideoInfo)
    ensures r.id == a.currentVideoId
    ensures r.duration >= 0 && r.currentTime >= 0
    ensures !a.hasPlayer || reading.None? ==> r == DefaultInfo(a.currentVideoId)
    ensures a.hasPlayer && reading.Some? ==>
              && r.title == reading.value.title
              && (reading.value.duration >= 0 ==> r.duration == reading.value.duration)
              && (reading.value.duration < 0 ==> r.duration == 0)
              && (reading.value.currentTime >= 0 ==> r.currentTime == reading.value.currentTime)
              && (reading.value.currentTime < 0 ==> r.currentTime == 0)
  {
    if !a.hasPlayer then DefaultInfo(a.currentVideoId)
    else match reading
      case None => DefaultInfo(a.currentVideoId)
      case Some(rd) =>
        VideoInfo(a.currentVideoId, rd.title, SeekTarget(rd.duration), SeekTarget(rd.currentTime))
  }

  /** `destroy()`: asks the player to go away and always drops it. */
  function Destroy(a: Adapter): (r: Step)
    ensures !r.adapter.hasPlayer
    ensures r.adapter.currentVideoId == a.currentVideoId
    ensures r.calls == Forward(a, DestroyVideo)
  {
    Step(a.(hasPlayer := false), Forward(a, DestroyVideo))
  }

  /** After `destroy()` every `getInfo()` is the default snapshot, and a
      second `destroy()` changes nothing and calls nothing. */
  lemma DestroyThenGetInfo(a: Adapter, reading: Option<Reading>)
    ensures GetInfo(Destroy(a).adapter, reading) == DefaultInfo(a.currentVideoId)
    ensures Destroy(Destroy(a).adapter) == Step(Destroy(a).adapter, [])
  {
  }

  /** A loaded adapter reports the loaded id, and loading again reuses the
      player instead of building a second one. */
  lemma LoadThenGetInfo(a: Adapter, id: string, next: string, reading: Option<Reading>)
    ensures GetInfo(Load(a, id).adapter, reading).id == Some(id)
    ensures Load(Load(a, id).adapter, next).calls == [LoadVideoById(next)]
  {
  }

  /* --- examples --- */

  lemma LowerOfLowercase(s: string)
    requires forall k :: 0 <= k < |s| ==> !('A' <= s[k] <= 'Z')
    ensures Text.Lower(s) == s
  {
  }

  lemma ShortLinkExample()
    ensures ExtractYouTubeId(Some(Url("youtu.be", "/abc123", []))) == Some("abc123")
  {
    LowerOfLowercase("youtu.be");
    assert !Text.StartsWith("youtu.be", "www.") by { assert "youtu.be"[..4][0] == 'y'; }
    assert NormalizeHost("youtu.be") == "youtu.be";
    assert "/abc123"[1..] == "abc123";
  }

  lemma WatchPageExample()
    ensures ExtractYouTubeId(Some(Url("youtube.com", "/watch", [("v", "abc123")]))) == Some("abc123")
  {
    LowerOfLowercase("youtube.com");
  }

  lemma EmbedExample()
    ensures ExtractYouTubeId(Some(Url("youtube.com", "/embed/abc123", []))) == Some("abc123")
  {
    var u := Url("youtube.com", "/embed/abc123", []);
    LowerOfLowercase(u.host);
    assert !Text.StartsWith(u.host, "www.") by { assert u.host[..4][0] == 'y'; }
    assert SlashJoin(["embed", "abc123"]) == u.path;
    SplitJoin(["embed", "abc123"]);
    EmbedRule(u, 0);
  }

  lemma BareHostExample()
    ensures ExtractYouTubeId(Some(Url("example.com", "/", []))) == None
  {
    LowerOfLowercase("example.com");
  }

  /** The host is never checked outside `youtu.be`: any page whose last
      path segment has six characters or more yields an id. */
  lemma AnyLongLastSegmentExample()
    ensures ExtractYouTubeId(Some(Url("example.com", "/about-us", []))) == Some("about-us")
  {
    LowerOfLowercase("example.com");
    assert SlashJoin(["about-us"]) == "/about-us";
    SplitJoin(["about-us"]);
  }

  /* --- ensureYouTubeAPI --- */

  /** What the page holds between calls: whether `window.YT.Player` is
      defined, and whether a `<script>` tag for the iframe API is in the
      document. */
  datatype Page = Page(apiReady: bool, tagPresent: bool)

  const FreshPage := Page(false, false)

  /** How the promise of one call ends. */
  datatype ApiOutcome = ApiResolved | ApiRejected | ApiHangs

  /** `ensureYouTubeAPI()` as written, for calls that run one after the
      other. `scriptLoads` is whether the script this call injects loads.
      A tag already present whose load has failed never calls the ready
      hook, and the call attaches no `onerror` to it, so its promise never
      settles. */
  function EnsureApi(p: Page, scriptLoads: bool): (r: (ApiOutcome, Page))
    ensures p.apiReady ==> r == (ApiResolved, p)
    ensures !p.apiReady && !p.tagPresent ==>
              r.1.tagPresent && (r.0 == ApiResolved <==> scriptLoads) && r.0 != ApiHangs
    ensures !p.apiReady && p.tagPresent ==> r == (ApiHangs, p)
  {
    if p.apiReady then (ApiResolved, p)
    else if p.tagPresent then (ApiHangs, p)
    else if scriptLoads then (ApiResolved, Page(true, true))
    else (ApiRejected, Page(false, true))
  }

  /** After one failed load, every later call hangs, whatever the network
      does: the failed tag stays in the document. */
  lemma FailedLoadHangsLaterCalls(later: bool)
    ensures var first := EnsureApi(FreshPage, false);
      first.0 == ApiRejected && EnsureApi(first.1, later).0 == ApiHangs
  {
  }

  /** The evidently intended behaviour: the failed tag is removed in its
      `onerror` handler, so the next call injects a fresh one. Every call
      settles, resolving exactly when the API is already there or this
      call's script loads; that is the Boolean `apiLoads` the session
      model takes. */
  function EnsureApiRetrying(p: Page, scriptLoads: bool): (r: (ApiOutcome, Page))
    ensures p.apiReady ==> r == (ApiResolved, p)
    ensures !p.apiReady ==> (r.0 == ApiResolved <==> scriptLoads)
    ensures r.0 != ApiHangs && Settled(r.1)
  {
    if p.apiReady then (ApiResolved, p)
    else if scriptLoads then (ApiResolved, Page(true, true))
    else (ApiRejected, Page(false, false))
  }

  /** A page the retrying version can leave behind: a tag is present only
      once the API is ready. */
  predicate Settled(p: Page) {
    p.tagPresent ==> p.apiReady
  }

  /** With the fix, a call after a failed load tries again, and resolves
      exactly when that new script loads. */
  lemma RetryAfterFailure(later: bool)
    ensures var first := EnsureApiRetrying(FreshPage, false);
      first.0 == ApiRejected && (EnsureApiRetrying(first.1, later).0 == ApiResolved <==> later)
      && EnsureApiRetrying(first.1, later).0 != ApiHangs
  {
  }
}
