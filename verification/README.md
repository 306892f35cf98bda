# zephyPlay core in Dafny

A model of the client-side core of zephyPlay, a browser music player that
plays YouTube links and keeps a local library in IndexedDB. The model covers:

- the library (`src/lib/db.ts`): the `songs`, `albums` and `files` tables, and
  the helpers that add, update, delete and list rows;
- YouTube id extraction and the state kept by the YouTube adapter
  (`src/lib/players/youtube.ts`);
- the Open Graph scraper, platform detection, the adapter factory and the
  metadata resolver (`src/lib/players/index.ts`);
- the playback session (`src/lib/stores/player.ts`): `loadUrl`, the single
  polling interval, `destroyPlayer` and the transport commands;
- the UI stores (`src/lib/stores/ui.ts`): toasts, the confirm dialog and search;
- the display helpers `truncateText` (`src/lib/index.ts`) and `fmtTime`
  (`src/lib/utils.ts`).

Everything is pure. Every store operation takes the old state and returns the
new one. The outcomes of everything awaited are parameters:

- the clock `Date.now()`;
- the server metadata;
- whether the YouTube iframe API loads;
- whether the player constructor throws;
- what the player reports.

`loadUrl` is modelled as a trace of the store writes it makes, in program
order. The session it leaves is the replay of that trace. Its contract states:

- which statuses the trace wrote;
- which values it wrote to `loading`;
- what the final session holds on each path.

The files:

| file | module | contents |
|---|---|---|
| `nullable.dfy` | `Nullable` | `Option`, and `??` as `Coalesce` |
| `text.dfy` | `Text` | `trim`, ASCII `toLowerCase`, `startsWith` |
| `newest.dfy` | `Newest` | the newest-first order of Dexie's `orderBy(...).reverse()`; insertion sort, `limit` |
| `store.dfy` | `Store` | `db.ts` |
| `player_types.dfy` | `PlayerTypes` | `VideoInfo`, and the calls made on the embedded player |
| `youtube.dfy` | `YouTube` | `youtube.ts` |
| `players.dfy` | `Players` | `players/index.ts` |
| `player_session.dfy` | `PlayerStore` | `stores/player.ts` |
| `ui.dfy` | `Ui` | `stores/ui.ts` |
| `format.dfy` | `Format` | `truncateText`, `fmtTime` |

Decisions where the code was followed:

- **Order of equal timestamps.** `getAlbums` and `getRecentSongs` walk a
  timestamp index backwards. IndexedDB keeps index entries sorted by (value,
  primary key), so rows with equal timestamps come out by descending id.
  `getSongsByAlbum` reads the `albumId` index instead, which yields the
  album's songs by ascending id. It then sorts them in memory with the stable
  `sortBy('addedAt')` and reverses the array, so equal timestamps again end
  up by descending id. The model orders all three by (timestamp, id)
  descending, and `Newest.NewestFirstIsDetermined` shows that this order
  leaves no freedom.
- **Hosts are not checked.** Outside `youtu.be`, `extractYouTubeId` never looks
  at the host. Any page whose last path segment has six or more characters
  yields an "id" (`YouTube.AnyLongLastSegmentExample`).
- **An empty `?v=` wins.** A present but empty `v` parameter takes precedence
  over the path, and `detectPlatform` then rejects the empty id
  (`Players.EmptyVIsUnsupported`).
- **`adapter_failed` is never written.** `createAdapterForUrl` detects the same
  link again, so once `loadUrl` has detected a platform the factory cannot
  return `null` (`PlayerStore.AdapterFailedIsUnreachable`). The branch is still
  modelled as written (`PlayerStore.FactoryNull`).
- **`seekTo(t)` stores the raw `t`.** The player is asked for
  `max(0, floor(t))`, but `info.currentTime` is set to `t` itself.
- **`loading` is cleared exactly once on every path that settles.** The
  `finally` block covers every exit from the `try`. Only the unreachable
  `null` branch would clear it twice. A `loadUrl` that never settles never
  clears it (see Findings and "Left out").

## Model

| member | source | states |
|---|---|---|
| Text.Trim | src/lib/stores/ui.ts:40 | the result is the infix left after removing whitespace at both ends: empty exactly when the input is all whitespace, otherwise starting and ending with a non-whitespace character |
| Text.TrimIdempotent | src/lib/stores/ui.ts:40 | trimming a trimmed string changes nothing |
| Text.LowerIdempotent | src/lib/players/youtube.ts:17 | lower-casing twice is lower-casing once, so comparing lower-cased text is an equivalence |
| Newest.SortedRows | src/lib/db.ts:62 | `orderBy(index).reverse().toArray()`: every row of the table exactly once, ids distinct, each row newer than every later one |
| Newest.SortNewest | src/lib/db.ts:92 | the sorted rows are a permutation of the input, newest first |
| Newest.Take | src/lib/db.ts:88 | `.limit(n)`: a prefix of at most `n` rows; a row is left out only when `n` rows were kept, and every kept row is newer than every row left out |
| Newest.NewestFirstIsDetermined | src/lib/db.ts:62 | two newest-first sequences with the same rows are equal |
| Store.EmptyIsValid | src/lib/db.ts:44-48 | in a fresh database every key generator starts at 1 and no key lies beyond it |
| Store.CreateAlbum | src/lib/db.ts:44-59 | the new id is the album generator's next key, which then moves past it, so the id was never handed out before and exceeds every existing album id; the row holds the name, the clock reading and the description; songs and files are untouched |
| Store.GetAlbums | src/lib/db.ts:61-63 | every album exactly once, newest `createdAt` first, ties by descending id |
| Store.GetAlbumsIsDetermined | src/lib/db.ts:61-63 | any sequence meeting the `getAlbums` contract is its result |
| Store.CreatedAlbumIsListed | src/lib/db.ts:55-63 | an album just created appears in `getAlbums` |
| Store.DeleteAlbum | src/lib/db.ts:65-70 | the album row is gone; exactly the songs of that album have `albumId` set to null, with nothing else changed; song keys and files are kept |
| Store.DeleteAlbumKeepsRefsValid | src/lib/db.ts:65-70 | if every song's album exists before the delete, the same holds after it |
| Store.DeleteAlbumEmptiesAlbum | src/lib/db.ts:65-70 | after `deleteAlbum(id)`, `getSongsByAlbum(id)` is empty |
| Store.AddSong | src/lib/db.ts:44-77 | the id is the song generator's next key, which then moves past it, so it was never handed out before and is above every existing song id; the stored row carries every given field plus `addedAt = now`; no other row changes |
| Store.ApplyPatch | src/lib/db.ts:79-81 | the merge `Table.update` performs: each field is the patch's value when present, otherwise the row's |
| Store.PatchIdempotent | src/lib/db.ts:79-81 | applying the same partial update twice is applying it once |
| Store.EmptyPatchKeepsRow | src/lib/db.ts:79-81 | an empty patch leaves a row as it was |
| Store.UpdateSong | src/lib/db.ts:79-81 | only the addressed row changes, and it becomes the patched row; an unknown id leaves the database as it was |
| Store.UpdateThenRead | src/lib/db.ts:79-81 | reading a row back after an update gives the patched fields and the old values of the fields the patch omits |
| Store.DeleteSong | src/lib/db.ts:83-85 | exactly that song row is removed; albums and files are untouched |
| Store.GetRecentSongs | src/lib/db.ts:87-89 | at most `limit` rows of the table, distinct, newest first; a song is missing only when `limit` rows were returned, all of them newer than it |
| Store.AddedSongHeadsRecent | src/lib/db.ts:73-89 | a song added at a time no earlier than any stored song is the first row of `getRecentSongs` |
| Store.InAlbum | src/lib/db.ts:92 | `where({ albumId })`: exactly the rows of that album, in ascending id order |
| Store.GetSongsByAlbum | src/lib/db.ts:91-93 | exactly the songs of the album, each once, newest `addedAt` first, ties by descending id |
| Store.SaveFileBlob | src/lib/db.ts:44-109 | the id is the file generator's next key, which then moves past it, so a deleted file's id is never handed out again; the row holds the url, the filename, the blob size and the clock reading; songs and albums are untouched |
| Store.GetFileBlob | src/lib/db.ts:112-114 | a row exactly when the id is in the table, and then that row |
| Store.SaveThenGetFile | src/lib/db.ts:98-114 | reading a file back with the id `saveFileBlob` returned gives the saved row |
| Store.DeleteFile | src/lib/db.ts:117-119 | exactly that file row is removed; songs and albums are untouched |
| Store.DeletedFileIdNotReissued | src/lib/db.ts:46-119 | saving, deleting and saving again gives a larger key, so a stale `fileId` cannot come to name a new blob |
| Store.DeletedSongIdNotReissued | src/lib/db.ts:44-85 | adding, deleting and adding a song again gives a larger key |
| Store.DeletedAlbumIdNotReissued | src/lib/db.ts:46-70 | creating, deleting and creating an album again gives a larger key |
| Store.DeleteFileLeavesDanglingRefs | src/lib/db.ts:117-119 | a song that referenced the deleted file keeps the reference, and looking it up yields nothing |
| YouTube.NormalizeHost | src/lib/players/youtube.ts:17 | no upper-case ASCII letter remains; the lower-cased host is the result or `www.` followed by it, and it is the result exactly when it does not start with `www.` |
| YouTube.QueryGet | src/lib/players/youtube.ts:19 | no value exactly when no parameter has that name; otherwise the value of the first pair with that name |
| YouTube.Segments | src/lib/players/youtube.ts:20 | non-empty pieces containing no slash, which together hold every non-slash character of the path in order |
| YouTube.SegmentsSplitAtSlash | src/lib/players/youtube.ts:20 | the segments of `a/b` are the segments of `a` followed by those of `b` |
| YouTube.SegmentsOfWord | src/lib/players/youtube.ts:20 | a slash-free piece is one segment, or none when it is empty; with the split lemma this fixes the segments of every path |
| YouTube.SplitJoin | src/lib/players/youtube.ts:20 | splitting a path built from slash-free words gives back those words |
| YouTube.IndexOf | src/lib/players/youtube.ts:21 | no index exactly when the word is absent; otherwise the position of its first occurrence |
| YouTube.ExtractYouTubeId | src/lib/players/youtube.ts:14-29 | no id for an unparsable URL; outside `youtu.be` and without `v`, any id is a non-empty, slash-free path segment |
| YouTube.ShortLinkRule | src/lib/players/youtube.ts:18 | on `youtu.be` the id is the path after its first character, and there is none when that is empty |
| YouTube.QueryRule | src/lib/players/youtube.ts:19 | on any other host a `v` parameter is the id, whatever the path |
| YouTube.EmbedRule | src/lib/players/youtube.ts:20-22 | otherwise the segment after the first `embed` segment is the id |
| YouTube.LastSegmentRule | src/lib/players/youtube.ts:20-25 | otherwise the last segment is the id when it has at least six characters, and there is no id when it is shorter |
| YouTube.HostCaseIgnored | src/lib/players/youtube.ts:17 | hosts that differ only in ASCII case give the same id |
| YouTube.LeadingWwwIgnored | src/lib/players/youtube.ts:17 | a leading `www.` on the host does not change the id |
| YouTube.ShortLinkExample | src/lib/players/youtube.ts:18 | `https://youtu.be/abc123` gives `abc123` |
| YouTube.WatchPageExample | src/lib/players/youtube.ts:19 | `https://youtube.com/watch?v=abc123` gives `abc123` |
| YouTube.EmbedExample | src/lib/players/youtube.ts:21-22 | `https://youtube.com/embed/abc123` gives `abc123` |
| YouTube.BareHostExample | src/lib/players/youtube.ts:23-25 | a bare host gives no id |
| YouTube.AnyLongLastSegmentExample | src/lib/players/youtube.ts:23-24 | `https://example.com/about-us` gives `about-us`, because the host is never checked |
| YouTube.Load | src/lib/players/youtube.ts:55-78 | after `load(id)` a player exists and the current id is `id`; an existing player is asked to load `id`, otherwise a player is built for `id` |
| YouTube.Forward | src/lib/players/youtube.ts:79-81 | `play`, `pause` and `stop` reach the player only when one exists |
| YouTube.SeekTarget | src/lib/players/youtube.ts:82 | the requested second when it is non-negative, otherwise 0 |
| YouTube.SeekTargetIsClosest | src/lib/players/youtube.ts:82 | the target is the non-negative second closest to the request |
| YouTube.SeekTo | src/lib/players/youtube.ts:82 | the player, when one exists, is asked to seek to the clamped second; without a player nothing is called |
| YouTube.GetInfo | src/lib/players/youtube.ts:83-92 | the id is always the current id, and duration and position are never negative; without a player, or when a player call throws, the snapshot is the default one; otherwise it carries the player's title and readings, with a negative reading reported as 0 |
| YouTube.Destroy | src/lib/players/youtube.ts:93 | the destroy call is made when a player exists, and the player is dropped even if that call throws (`finally`); the current id is kept |
| YouTube.EnsureApi | src/lib/players/youtube.ts:32-46 | as written: an existing API resolves at once; a first call injects the script and resolves exactly when it loads; a call that finds a tag but no API never settles |
| YouTube.FailedLoadHangsLaterCalls | src/lib/players/youtube.ts:38-44 | after one failed script load, the next call never settles, whatever the network does |
| YouTube.EnsureApiRetrying | src/lib/players/youtube.ts:32-46 | corrected: every call settles, resolving exactly when the API is there or this call's script loads |
| YouTube.RetryAfterFailure | src/lib/players/youtube.ts:38-44 | corrected: after a failed load the next call tries again and resolves exactly when its script loads |
| YouTube.DestroyThenGetInfo | src/lib/players/youtube.ts:83-93 | after `destroy()`, `getInfo()` is the default snapshot, and a second `destroy()` calls nothing |
| YouTube.LoadThenGetInfo | src/lib/players/youtube.ts:55-84 | a loaded adapter reports the loaded id, and a second `load` reuses the player |
| Players.UpToQuote | src/lib/players/index.ts:10 | the capture `([^"']+)`: the longest quote-free prefix of the value |
| Players.LastContent | src/lib/players/index.ts:10-11 | nothing exactly when no attribute is a non-empty `content=`; otherwise the capture of the last such attribute |
| Players.FirstMatch | src/lib/players/index.ts:11-12 | nothing exactly when the pattern matches in no tag; otherwise the capture from the first tag where it matches |
| Players.ParseOg | src/lib/players/index.ts:8-18 | `null` exactly when neither the `property=` nor the `name=` pattern matches anywhere; a result is never empty |
| Players.PropertyBeatsName | src/lib/players/index.ts:10-12 | a `property=` match decides the result even when a `name=` match comes earlier in the page |
| Players.NameIsTheFallback | src/lib/players/index.ts:14-17 | without a `property=` match, the `name=` pattern decides |
| Players.ContentFirstNeverMatches | src/lib/players/index.ts:10 | a tag whose `content=` attributes all precede its descriptors never matches |
| Players.ParseOgIgnoresNameCase | src/lib/players/index.ts:10 | the `i` flag: lower-casing tag and attribute names does not change the result |
| Players.DetectPlatform | src/lib/players/index.ts:21-25 | a platform exactly when a non-empty YouTube id is extracted, and then that id |
| Players.EmptyVIsUnsupported | src/lib/players/index.ts:21-24 | a link with an empty `v` parameter is not recognised, whatever its path |
| Players.CreateAdapterForUrl | src/lib/players/index.ts:28-35 | `null` for an unrecognised link; for a YouTube link, a fresh adapter when the iframe API loads and a rejection when it does not |
| Players.FetchMetadata | src/lib/players/index.ts:45-64 | a YouTube link gives the oEmbed title and image with platform `youtube`; any other link gives no platform and the Open Graph title and image of the fetched page, or nothing when the fetch fails or is not ok |
| Players.YouTubeSkipsPage | src/lib/players/index.ts:47-51 | for a YouTube link the page fetch cannot influence the result |
| Players.FallbackSkipsOEmbed | src/lib/players/index.ts:53-63 | for any other link the oEmbed call cannot influence the result |
| PlayerStore.InitialIsValid | src/lib/stores/player.ts:6-34 | the initial stores run no interval |
| PlayerStore.StopPolling | src/lib/stores/player.ts:122-127 | the handle is cleared and its interval stopped; with a single interval running, none remains; nothing else changes |
| PlayerStore.StartPolling | src/lib/stores/player.ts:109-121 | the old interval is stopped first, and a new interval with a fresh handle is the only one running |
| PlayerStore.StartTwiceKeepsOneTimer | src/lib/stores/player.ts:109-121 | starting twice leaves exactly one interval, and the first is no longer running |
| PlayerStore.PollTick | src/lib/stores/player.ts:111-120 | with an adapter, the tick replaces `info` with the adapter's snapshot; without one it changes nothing |
| PlayerStore.DestroyCurrent | src/lib/stores/player.ts:58 | `get(adapter)?.destroy()` destroys the stored adapter's player but leaves the adapter in the store |
| PlayerStore.DestroyPlayer | src/lib/stores/player.ts:129-133 | no adapter and no interval remain; the player is asked to go away when one exists; status, info, url and loading are kept |
| PlayerStore.Play | src/lib/stores/player.ts:135-138 | the status becomes `playing` whether or not there is a player; the player is called only when it exists |
| PlayerStore.Pause | src/lib/stores/player.ts:139-142 | the status becomes `paused`; the player is called only when it exists |
| PlayerStore.Stop | src/lib/stores/player.ts:143-146 | the status becomes `stopped`; the player is called only when it exists |
| PlayerStore.SeekTo | src/lib/stores/player.ts:147-150 | `info.currentTime` becomes `t` itself, while the player is asked for the clamped second |
| PlayerStore.TransportKeepsValid | src/lib/stores/player.ts:135-150 | transport commands keep the single-interval invariant and the adapter |
| PlayerStore.Apply | src/lib/stores/player.ts:57-105 | only a status write changes `statusText`, and only a `loading` write changes `loading` |
| PlayerStore.LastStatusHolds | src/lib/stores/player.ts:57-105 | after any sequence of writes, `statusText` holds the last status written, or its old value if none was written |
| PlayerStore.LastLoadingHolds | src/lib/stores/player.ts:57-105 | after any sequence of writes, `loading` holds the last value written, or its old value if none was written |
| PlayerStore.Begin | src/lib/stores/player.ts:56-62 | the six entry writes: the url is set, and no adapter and no interval remain; `validating` and `loading` are set; info and wallpaper are kept |
| PlayerStore.Cleanup | src/lib/stores/player.ts:57-60 | the first four entry writes: the url is set, and no adapter and no interval remain |
| PlayerStore.BlankLink | src/lib/stores/player.ts:64-68 | `enter_link`, then `loading` cleared, with nothing else touched |
| PlayerStore.UnknownLink | src/lib/stores/player.ts:70-77 | `unsupported`, the meta image as wallpaper, and the meta title merged into info; then `loading` is cleared |
| PlayerStore.MetaStep | src/lib/stores/player.ts:81-86 | `fetching_meta`, the wallpaper and the title merge, then `loading_adapter` |
| PlayerStore.FactoryRejected | src/lib/stores/player.ts:87-106 | when the factory rejects, only the `finally` block runs |
| PlayerStore.FactoryNull | src/lib/stores/player.ts:88-91 | a `null` adapter writes `adapter_failed` and clears `loading` twice: once before the `return` and once in `finally` |
| PlayerStore.PlayerFailed | src/lib/stores/player.ts:93-106 | when the player constructor throws, the adapter stays stored and only `finally` runs after it |
| PlayerStore.Install | src/lib/stores/player.ts:93-98 | the adapter is stored, loads the id, and its snapshot becomes `info` |
| PlayerStore.Activate | src/lib/stores/player.ts:99-106 | `ready`, then polling starts, then `loading` is cleared |
| PlayerStore.Mount | src/lib/stores/player.ts:93-106 | on success the stored adapter has a player holding the detected id, `info` is its snapshot, the status is `ready`, an interval runs, and `loading` is cleared |
| PlayerStore.Recognised | src/lib/stores/player.ts:80-106 | the promise rejects exactly when the API fails to load or the player cannot be built; the statuses are `fetching_meta`, `loading_adapter` and then `ready` unless it rejects |
| PlayerStore.AfterCheck | src/lib/stores/player.ts:70-106 | the unrecognised and recognised paths, combined |
| PlayerStore.LoadUrl | src/lib/stores/player.ts:55-107 | described below |
| PlayerStore.AdapterFailedIsUnreachable | src/lib/stores/player.ts:88-91 | once a platform was detected, the factory never returns `null`, so `adapter_failed` is never written |
| Ui.InitialIsValid | src/lib/stores/ui.ts:6-24 | the initial stores satisfy the id invariants |
| Ui.Notify | src/lib/stores/ui.ts:13-21 | the toast is appended with the next id; an expiry is scheduled exactly when the timeout is positive; ids keep increasing along the queue |
| Ui.Without | src/lib/stores/ui.ts:18 | `filter(t => t.id !== id)`: every kept toast was in the queue and has another id; every toast with another id is kept |
| Ui.WithoutConcat | src/lib/stores/ui.ts:18 | filtering distributes over concatenation, so kept toasts keep their relative order and multiplicity |
| Ui.WithoutOne | src/lib/stores/ui.ts:18 | a single toast is kept exactly when its id differs |
| Ui.WithoutKeepsOrder | src/lib/stores/ui.ts:18 | filtering keeps the queue's ids increasing |
| Ui.Expire | src/lib/stores/ui.ts:17-19 | the timer callback removes exactly the toasts with that id and touches nothing else |
| Ui.ExpireKeepsValid | src/lib/stores/ui.ts:17-19 | expiry keeps the id invariants |
| Ui.ExpireUndoesNotify | src/lib/stores/ui.ts:13-19 | expiring a toast right after its `notify` restores the queue |
| Ui.NotifyIdsIncrease | src/lib/stores/ui.ts:11-14 | successive toast ids strictly increase |
| Ui.ShowConfirm | src/lib/stores/ui.ts:25-29 | the dialog shows the text with the next id |
| Ui.ClearConfirm | src/lib/stores/ui.ts:30-32 | the dialog is hidden and the counter is kept |
| Ui.ConfirmIdsIncrease | src/lib/stores/ui.ts:24-32 | dialog ids strictly increase, also across `clearConfirm` |
| Ui.PerformSearch | src/lib/stores/ui.ts:39-54 | the stored query is the trimmed input; a blank query clears the results and makes no request; otherwise songs (limit 50) and albums (limit 20) are requested, and the results are the outcome, or empty on failure |
| Ui.ClearSearch | src/lib/stores/ui.ts:57-60 | empty query and empty results, nothing else touched |
| Ui.BlankSearchClears | src/lib/stores/ui.ts:40-44 | searching for blank text is `clearSearch` and makes no request |
| Ui.SearchStoredQueryAgain | src/lib/stores/ui.ts:40-48 | searching again for the stored query makes the same requests |
| Format.TruncateText | src/lib/index.ts:7-10 | short text is returned as is; longer text keeps its first `maxLength` characters followed by `...` |
| Format.TruncateIdempotent | src/lib/index.ts:7-10 | truncating a truncated text again with the same limit changes nothing |
| Format.TruncateDefault | src/lib/index.ts:7 | the default limit is 20, so truncated text has 23 characters |
| Format.NatToString | src/lib/utils.ts:4-5 | decimal digits denoting the number, with no leading zero |
| Format.PadStart | src/lib/utils.ts:4-5 | zeros in front, up to the width, and never shorter than the input |
| Format.PaddedValue | src/lib/utils.ts:4-5 | a zero-padded number still denotes that number |
| Format.FmtTime | src/lib/utils.ts:2-7 | reads as minutes and seconds: a digit field worth `s / 60`, a colon, and two digits worth `s % 60`; exactly five characters below 100 minutes, and the minutes field never has a leading zero when it is wider than two digits |
| Format.FmtTimeRoundTrip | src/lib/utils.ts:2-7 | reading the clock back gives the number of seconds |
| Format.FmtTimeInjective | src/lib/utils.ts:2-7 | different times are displayed differently |
| Format.ZeroIsGeneral | src/lib/utils.ts:3-5 | the special case for 0 agrees with the general formula |
| Format.ShortClockShape | src/lib/utils.ts:4-6 | below 100 minutes the clock is `mm:ss` |
| Format.SixtyMinutes | src/lib/utils.ts:4 | minutes are not wrapped into hours: 3600 seconds show as `60:00` |

`PlayerStore.LoadUrl`'s contract states the following:

- The session is the replay of the returned trace, and the trace begins with
  the six entry writes.
- `loading` was written `true` and then `false`, and the url is stored.
- The single-interval invariant is kept.
- The promise rejects exactly when the trimmed link is non-empty, it is
  recognised, and either the iframe API fails to load or the player
  constructor throws.
- On a blank link:
  - the statuses are `validating` then `enter_link`;
  - no adapter and no interval remain;
  - `info` is unchanged.
- On an unrecognised link:
  - the statuses are `validating` then `unsupported`;
  - no adapter and no interval remain;
  - the wallpaper is the meta image.
- On a recognised link:
  - the statuses are `validating`, `fetching_meta` and `loading_adapter`,
    followed by `ready` unless the promise rejects;
  - on success an interval runs and the adapter holds the detected id;
  - on a rejection no interval runs, and the adapter is the fresh one, or
    none when the API failed to load.

## Left out

- Concurrency: two overlapping `loadUrl` calls interleave at their `await`s, and the interval callback may run between them. Each operation is modelled as running to completion.
- Timers: `setInterval`, `clearInterval` and `setTimeout` are modelled as the set of running intervals and as the returned `Expiry`. Time passing is not modelled; `Ui.Expire` is what the callback does when it fires.
- The 800 ms polling period and the toast delays: the model keeps the delay value but has no clock.
- IndexedDB, Dexie and transactions: tables are maps. A transaction is one atomic function, and storage failures are not modelled.
- Blobs: a stored blob is represented by its size.
- `Date.now()`: the clock reading is a parameter.
- `new URL(...)`: parsing is abstract. `None` stands for a thrown `TypeError`, and `Url` holds the parsed host, path and decoded query pairs.
- The scraper regular expression: `Players` works on the page as a sequence of start tags and their attributes. Attribute names must match exactly, while the text-level `[^>]+content=` also matches a name that merely ends in `content`, such as `data-content=`. That case, the rest of the text-level matching of `[^>]+`, quote handling across tags and malformed markup are not modelled.
- `toLowerCase`: only ASCII letters are lowered. Strings are sequences of code points, with no Unicode case mapping.
- `ensureYouTubeAPI` and the script tag it injects: the session model takes the outcome as the Boolean `apiLoads`, which is the behaviour of the corrected `YouTube.EnsureApiRetrying`. The as-written hang after a failed script load (`YouTube.EnsureApi`, see Findings) is not carried into `PlayerStore.LoadUrl`. On that path every later YouTube `loadUrl` stays in `loading_adapter` with `loading` true. Overlapping calls while a script is still loading, and the rejection when `window` is undefined during server rendering, are not modelled either.
- `fetchYouTubeOEmbed` and the HTTP fetches: their outcomes are parameters (`OEmbed`, `PageFetch`, `serverMeta`). `fetchServerMeta` never rejects, so `serverMeta` is `None` for every failure.
- The `/api/metadata` route and the page loader: they are callers of the core, not part of this model.
- `YouTube.Load`: the player's `onReady` event is assumed to fire. If it never fires, `load` never settles and `loadUrl` stays in `loading_adapter`; that is not modelled.
- `YouTube.Load`: the fallback to `cueVideoById` when `loadVideoById` throws is not modelled, and the calls made on an existing player are assumed not to throw.
- The player options (`playerVars`, the 0×0 size) and the container id: they have no effect on the modelled state.
- Floating-point numbers: seconds, durations and `seekTo` arguments are integers. For `fmtTime`, `NaN` and negative or fractional inputs are not modelled (`s` is a natural number). For `truncateText`, a negative or fractional `maxLength` is not modelled (the limit is a natural number).
- `null` and `undefined` are both `None`. `loadUrl` called with a `null` link is not modelled, since its input is a string. A `null` search query is modelled (`query?.trim() ?? ""`).
- `loadUrl`'s `auto` parameter: the branch that tests it is empty, so it has no effect.
- The confirm dialog's promise: `clearConfirm` drops the dialog without resolving its promise, and the `resolve` callback is not modelled.
- `searchSongs` and `searchAlbums`: `stores/ui.ts` imports them from `db.ts`, but that file does not define them. Their combined outcome is a parameter, and the model records the requests made.
- `console.warn` and `console.error`: they log only.
- `Format.TruncateText`: lengths and `slice` count code points, while `text.length` and `slice` in JavaScript count UTF-16 code units. Text outside the Basic Multilingual Plane, emoji for example, is truncated later than the source truncates it, and the source may split a surrogate pair, which the model cannot express.
- `Store.UpdateSong`: a patch has no `id` field. `Partial<SongRow>` may carry one, and what Dexie does with a changed primary key is not modelled.
- The `shuffle`, `repeatMode` and `liked` stores: they are held in the session, and no modelled operation writes them.
- `Store`: every operation requires the store invariant that keys lie below their table's generator. IndexedDB's auto-increment keys guarantee it, and every operation preserves it.
- `PlayerStore.LoadUrl`: for the unrecognised and recognised paths, `info` and the wallpaper are stated by `PlayerStore.AfterCheck` rather than repeated in `LoadUrl`'s contract.

## Findings

| source | as written | input that shows it | evidently intended | confidence | as-written member | corrected member |
|---|---|---|---|---|---|---|
| src/lib/players/youtube.ts:38-44 | a tag whose script failed to load stays in the document; a later call finds it, attaches no `onerror`, and without `window.YT` its promise never settles | a first `ensureYouTubeAPI()` whose script fails to load (rejects), then any second call (hangs); every later YouTube `loadUrl` stays in `loading_adapter` | remove the failed tag, or reject, so that a later call retries or fails | medium; not executed | YouTube.FailedLoadHangsLaterCalls | YouTube.RetryAfterFailure |
