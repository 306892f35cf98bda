/** `src/lib/stores/player.ts`: the playback session held in Svelte
    stores, the `loadUrl` sequence, the single polling timer and the
    transport commands. Awaited outcomes (the server metadata, the iframe
    API, the player constructor, the player readings) are parameters. */
module PlayerStore {
  import opened Nullable
  import Text
  import opened PlayerTypes
  import opened YouTube
  import opened Players

  /** The values of the `statusText` store. */
  datatype Status =
    | Idle
    | Validating
    | FetchingMeta
    | LoadingAdapter
    | Ready
    | Playing
    | Paused
    | Stopped
    | Unsupported
    | AdapterFailed
    | EnterLink

  datatype RepeatMode = Off | One | All

  /** Every store of the module plus the module-level `poll` handle.
      `timers` is the set of intervals the window still runs, `nextTimer`
      the handle the next `setInterval` hands out, and `calls` the calls
      made on the third-party player so far. */
  datatype Session = Session(
    adapter: Option<Adapter>,
    info: VideoInfo,
    status: Status,
    wallpaper: Option<string>,
    loading: bool,
    shuffle: bool,
    repeatMode: RepeatMode,
    liked: bool,
    url: Option<string>,
    poll: Option<nat>,
    timers: set<nat>,
    nextTimer: nat,
    calls: seq<PlayerCall>)

  /** The stores' initial values; interval handles start at 1. */
  const Initial := Session(None, DefaultInfo(None), Idle, None, false, false, Off, false, None,
                           None, {}, 1, [])

  /** At most one interval runs, and it is the one `poll` holds. */
  predicate Valid(s: Session) {
    s.timers == (if s.poll.Some? then {s.poll.value} else {}) &&
    (s.poll.Some? ==> s.poll.value < s.nextTimer)
  }

  lemma InitialIsValid()
    ensures Valid(Initial)
  {
  }

  /* --- polling --- */

  /** `stopPolling()`: clears the running interval, if any. */
  function StopPolling(s: Session): (r: Session)
    ensures r.poll.None?
    ensures r.timers == (if s.poll.Some? then s.timers - {s.poll.value} else s.timers)
    ensures Valid(s) ==> Valid(r) && r.timers == {}
    ensures r == s.(poll := r.poll, timers := r.timers)
  {
    match s.poll
    case None => s
    case Some(h) => s.(poll := None, timers := s.timers - {h})
  }

  /** `startPolling()`: stops the old interval first, then starts one
      with a fresh handle. */
  function StartPolling(s: Session): (r: Session)
    ensures r.poll.Some? && r.poll.value !in StopPolling(s).timers
    ensures r.timers == StopPolling(s).timers + {r.poll.value}
    ensures Valid(s) ==> Valid(r) && r.timers == {r.poll.value}
    ensures r == s.(poll := r.poll, timers := r.timers, nextTimer := r.nextTimer)
  {
    var t := StopPolling(s);
    var h := if t.nextTimer in t.timers then Fresh(t.timers, t.nextTimer) else t.nextTimer;
    t.(poll := Some(h), timers := t.timers + {h}, nextTimer := h + 1)
  }

  /** A handle not in `used`, at least `from`. Under `Valid` the next
      handle is already free. */
  function Fresh(used: set<nat>, from: nat): (r: nat)
    ensures r >= from && r !in used
    decreases |used|
  {
    if from in used then Fresh(used - {from}, from + 1) else from
  }

  /** Starting twice in a row still leaves one interval: the first is
      cleared by the second. */
  lemma StartTwiceKeepsOneTimer(s: Session)
    requires Valid(s)
    ensures |StartPolling(StartPolling(s)).timers| == 1
    ensures StartPolling(s).poll.value !in StartPolling(StartPolling(s)).timers
  {
  }

  /** One tick of the interval: with an adapter the snapshot replaces
      `info`; without one nothing happens. `reading` is what the player
      reports (`getInfo` itself never rejects). */
  function PollTick(s: Session, reading: Option<Reading>): (r: Session)
    ensures s.adapter.None? ==> r == s
    ensures s.adapter.Some? ==> r == s.(info := GetInfo(s.adapter.value, reading))
  {
    match s.adapter
    case None => s
    case Some(a) => s.(info := GetInfo(a, reading))
  }

  /* --- transport --- */

  /** `get(adapter)?.destroy()`: the adapter object stays in the store. */
  function DestroyCurrent(s: Session): (r: Session)
    ensures s.adapter.None? ==> r == s
    ensures s.adapter.Some? ==> r.adapter == Some(Destroy(s.adapter.value).adapter)
                                && r.calls == s.calls + Destroy(s.adapter.value).calls
    ensures r.adapter.Some? ==> !r.adapter.value.hasPlayer
    ensures r == s.(adapter := r.adapter, calls := r.calls)
  {
    match s.adapter
    case None => s
    case Some(a) =>
      var st := Destroy(a);
      s.(adapter := Some(st.adapter), calls := s.calls + st.calls)
  }

  /** `destroyPlayer()`. */
  function DestroyPlayer(s: Session): (r: Session)
    ensures r.adapter.None? && r.poll.None?
    ensures Valid(s) ==> Valid(r) && r.timers == {}
    ensures s.adapter.None? ==> r.calls == s.calls
    ensures s.adapter.Some? ==> r.calls == s.calls + Forward(s.adapter.value, DestroyVideo)
    ensures r.info == s.info && r.status == s.status && r.url == s.url && r.loading == s.loading
  {
    DestroyCurrent(StopPolling(s)).(adapter := None)
  }

  /** The calls `get(adapter)?.m()` makes. */
  function AdapterCalls(s: Session, call: PlayerCall): (r: seq<PlayerCall>)
    ensures s.adapter.None? ==> r == []
    ensures s.adapter.Some? ==> r == Forward(s.adapter.value, call)
  {
    match s.adapter
    case None => []
    case Some(a) => Forward(a, call)
  }

  /** `play()`, `pause()` and `stop()` share one shape: forward the call
      when there is an adapter, then set the status regardless. */
  function Transport(s: Session, call: PlayerCall, status: Status): (r: Session)
    ensures r.status == status
    ensures r.calls == s.calls + AdapterCalls(s, call)
    ensures r == s.(status := status, calls := r.calls)
  {
    s.(status := status, calls := s.calls + AdapterCalls(s, call))
  }

  function Play(s: Session): (r: Session)
    ensures r.status == Playing
    ensures s.adapter.None? || !s.adapter.value.hasPlayer ==> r.calls == s.calls
    ensures s.adapter.Some? && s.adapter.value.hasPlayer ==> r.calls == s.calls + [PlayVideo]
    ensures r == s.(status := Playing, calls := r.calls)
  {
    Transport(s, PlayVideo, Playing)
  }

  function Pause(s: Session): (r: Session)
    ensures r.status == Paused
    ensures s.adapter.None? || !s.adapter.value.hasPlayer ==> r.calls == s.calls
    ensures s.adapter.Some? && s.adapter.value.hasPlayer ==> r.calls == s.calls + [PauseVideo]
    ensures r == s.(status := Paused, calls := r.calls)
  {
    Transport(s, PauseVideo, Paused)
  }

  function Stop(s: Session): (r: Session)
    ensures r.status == Stopped
    ensures s.adapter.None? || !s.adapter.value.hasPlayer ==> r.calls == s.calls
    ensures s.adapter.Some? && s.adapter.value.hasPlayer ==> r.calls == s.calls + [StopVideo]
    ensures r == s.(status := Stopped, calls := r.calls)
  {
    Transport(s, StopVideo, Stopped)
  }

  /** `seekTo(t)`: the player gets the clamped second, while the store
      records `t` itself. */
  function SeekTo(s: Session, t: int): (r: Session)
    ensures r.info == s.info.(currentTime := t)
    ensures s.adapter.Some? && s.adapter.value.hasPlayer ==>
              r.calls == s.calls + [SeekVideo(SeekTarget(t))]
    ensures s.adapter.None? || !s.adapter.value.hasPlayer ==> r.calls == s.calls
    ensures r == s.(info := r.info, calls := r.calls)
  {
    s.(info := s.info.(currentTime := t), calls := s.calls + AdapterCalls(s, SeekVideo(SeekTarget(t))))
  }

  /** Transport commands never touch the timers or the adapter. */
  lemma TransportKeepsValid(s: Session, t: int)
    requires Valid(s)
    ensures Valid(Play(s)) && Valid(Pause(s)) && Valid(Stop(s)) && Valid(SeekTo(s, t))
    ensures Play(s).adapter == s.adapter && SeekTo(s, t).adapter == s.adapter
  {
  }

  /* --- loadUrl as a trace of store writes --- */

  /** One write `loadUrl` makes, in program order. */
  datatype Effect =
    | SetUrl(input: string)
    | DestroyAdapter
    | SetAdapter(adapter: Option<Adapter>)
    | StopTimer
    | StartTimer
    | SetStatus(status: Status)
    | SetLoading(loading: bool)
    | SetWallpaper(wallpaper: Option<string>)
    | MergeTitle(title: Option<string>)
    | LoadAdapter(resourceId: string)
    | SetInfo(info: VideoInfo)

  /** The effect of one write on the session. */
  function Apply(s: Session, e: Effect): (r: Session)
    ensures r.status == (if e.SetStatus? then e.status else s.status)
    ensures r.loading == (if e.SetLoading? then e.loading else s.loading)
  {
    match e
    case SetUrl(u) => s.(url := Some(u))
    case DestroyAdapter => DestroyCurrent(s)
    case SetAdapter(a) => s.(adapter := a)
    case StopTimer => StopPolling(s)
    case StartTimer => StartPolling(s)
    case SetStatus(st) => s.(status := st)
    case SetLoading(b) => s.(loading := b)
    case SetWallpaper(w) => s.(wallpaper := w)
    case MergeTitle(t) => s.(info := s.info.(title := Coalesce(t, s.info.title)))
    case LoadAdapter(id) =>
      if s.adapter.None? then s
      else
        var st := Load(s.adapter.value, id);
        s.(adapter := Some(st.adapter), calls := s.calls + st.calls)
    case SetInfo(i) => s.(info := i)
  }

  /** The writes made so far, the latest outermost. */
  datatype Trace = Start | Then(before: Trace, effect: Effect)

  /** The writes of a trace in program order. */
  function Effects(t: Trace): seq<Effect> {
    match t
    case Start => []
    case Then(b, e) => Effects(b) + [e]
  }

  /** The session after the writes of `t`, first to last. */
  function Replay(s: Session, t: Trace): Session {
    match t
    case Start => s
    case Then(b, e) => Apply(Replay(s, b), e)
  }

  /** The successive values written to `statusText`. */
  function Statuses(t: Trace): seq<Status> {
    match t
    case Start => []
    case Then(b, e) => Statuses(b) + (if e.SetStatus? then [e.status] else [])
  }

  /** The successive values written to `loading`. */
  function Loadings(t: Trace): seq<bool> {
    match t
    case Start => []
    case Then(b, e) => Loadings(b) + (if e.SetLoading? then [e.loading] else [])
  }

  /** The status store holds the last status a trace wrote. */
  lemma {:induction false} LastStatusHolds(s0: Session, t: Trace)
    ensures Statuses(t) == [] ==> Replay(s0, t).status == s0.status
    ensures Statuses(t) != [] ==> Replay(s0, t).status == Statuses(t)[|Statuses(t)| - 1]
  {
    match t
    case Start =>
    case Then(b, e) =>
      LastStatusHolds(s0, b);
  }

  /** The loading store holds the last value a trace wrote. */
  lemma {:induction false} LastLoadingHolds(s0: Session, t: Trace)
    ensures Loadings(t) == [] ==> Replay(s0, t).loading == s0.loading
    ensures Loadings(t) != [] ==> Replay(s0, t).loading == Loadings(t)[|Loadings(t)| - 1]
  {
    match t
    case Start =>
    case Then(b, e) =>
      LastLoadingHolds(s0, b);
  }

  /** Performs one write and records it. */
  method Emit(s0: Session, s: Session, trace: Trace, e: Effect) returns (s': Session, trace': Trace)
    requires s == Replay(s0, trace)
    ensures trace' == Then(trace, e) && s' == Replay(s0, trace')
    ensures Effects(trace) <= Effects(trace')
    ensures Statuses(trace') == Statuses(trace) + (if e.SetStatus? then [e.status] else [])
    ensures Loadings(trace') == Loadings(trace) + (if e.SetLoading? then [e.loading] else [])
  {
    trace' := Then(trace, e);
    s' := Apply(s, e);
  }

  /** `meta?.image ?? null` and `meta?.title ?? null`. */
  function MetaImage(m: Option<Meta>): Option<string> {
    if m.Some? then m.value.image else None
  }

  function MetaTitle(m: Option<Meta>): Option<string> {
    if m.Some? then m.value.title else None
  }

  /** The writes every call of `loadUrl` starts with. */
  function Entry(input: string): seq<Effect> {
    [SetUrl(input), DestroyAdapter, SetAdapter(None), StopTimer, SetStatus(Validating), SetLoading(true)]
  }

  /* Each step below continues a trace `t1` that took `s0` to `s1`. */

  /** The cleanup at the top of `loadUrl`: remember the link, drop the old
      adapter and interval, and enter `validating` with `loading` set. */
  method Begin(s0: Session, input: string) returns (s: Session, trace: Trace)
    ensures Effects(trace) == Entry(input) && s == Replay(s0, trace)
    ensures Statuses(trace) == [Validating] && Loadings(trace) == [true]
    ensures s.adapter.None? && s.poll.None? && s.loading && s.status == Validating
    ensures s.url == Some(input) && s.info == s0.info && s.wallpaper == s0.wallpaper
    ensures Valid(s0) ==> Valid(s)
  {
    var s1, t1 := Cleanup(s0, input);
    s, trace := Emit(s0, s1, t1, SetStatus(Validating));
    s, trace := Emit(s0, s, trace, SetLoading(true));
  }

  /** The first four writes of `loadUrl`: the link, and no adapter or interval. */
  method Cleanup(s0: Session, input: string) returns (s: Session, trace: Trace)
    ensures Effects(trace) == Entry(input)[..4] && s == Replay(s0, trace)
    ensures Statuses(trace) == [] && Loadings(trace) == []
    ensures s.adapter.None? && s.poll.None?
    ensures s.url == Some(input) && s.info == s0.info && s.wallpaper == s0.wallpaper
    ensures Valid(s0) ==> Valid(s)
  {
    s, trace := s0, Start;
    s, trace := Emit(s0, s, trace, SetUrl(input));
    s, trace := Emit(s0, s, trace, DestroyAdapter);
    s, trace := Emit(s0, s, trace, SetAdapter(None));
    s, trace := Emit(s0, s, trace, StopTimer);
  }

  /** The early return on a blank link. */
  method BlankLink(s0: Session, s1: Session, t1: Trace) returns (s: Session, t: Trace)
    requires s1 == Replay(s0, t1)
    ensures s == Replay(s0, t) && Effects(t1) <= Effects(t)
    ensures Statuses(t) == Statuses(t1) + [EnterLink] && Loadings(t) == Loadings(t1) + [false]
    ensures s == s1.(status := EnterLink, loading := false)
  {
    s, t := Emit(s0, s1, t1, SetStatus(EnterLink));
    s, t := Emit(s0, s, t, SetLoading(false));
  }

  /** The early return on a link no platform recognises: the status is
      set before the metadata arrives. */
  method UnknownLink(s0: Session, s1: Session, t1: Trace, serverMeta: Option<Meta>)
    returns (s: Session, t: Trace)
    requires s1 == Replay(s0, t1)
    ensures s == Replay(s0, t) && Effects(t1) <= Effects(t)
    ensures Statuses(t) == Statuses(t1) + [Unsupported] && Loadings(t) == Loadings(t1) + [false]
    ensures s == s1.(status := Unsupported, loading := false, wallpaper := MetaImage(serverMeta),
                     info := s1.info.(title := Coalesce(MetaTitle(serverMeta), s1.info.title)))
  {
    s, t := Emit(s0, s1, t1, SetStatus(Unsupported));
    s, t := Emit(s0, s, t, SetWallpaper(MetaImage(serverMeta)));
    s, t := Emit(s0, s, t, MergeTitle(MetaTitle(serverMeta)));
    s, t := Emit(s0, s, t, SetLoading(false));
  }

  /** The metadata step of the `try` block on a recognised link. */
  method MetaStep(s0: Session, s1: Session, t1: Trace, serverMeta: Option<Meta>)
    returns (s: Session, t: Trace)
    requires s1 == Replay(s0, t1)
    ensures s == Replay(s0, t) && Effects(t1) <= Effects(t)
    ensures Statuses(t) == Statuses(t1) + [FetchingMeta, LoadingAdapter] && Loadings(t) == Loadings(t1)
    ensures s == s1.(status := LoadingAdapter, wallpaper := MetaImage(serverMeta),
                     info := s1.info.(title := Coalesce(MetaTitle(serverMeta), s1.info.title)))
  {
    s, t := Emit(s0, s1, t1, SetStatus(FetchingMeta));
    s, t := Emit(s0, s, t, SetWallpaper(MetaImage(serverMeta)));
    s, t := Emit(s0, s, t, MergeTitle(MetaTitle(serverMeta)));
    s, t := Emit(s0, s, t, SetStatus(LoadingAdapter));
  }

  /** The factory rejected: only the `finally` block runs. */
  method FactoryRejected(s0: Session, s1: Session, t1: Trace) returns (s: Session, t: Trace)
    requires s1 == Replay(s0, t1)
    ensures s == Replay(s0, t) && Effects(t1) <= Effects(t)
    ensures Statuses(t) == Statuses(t1) && Loadings(t) == Loadings(t1) + [false]
    ensures s == s1.(loading := false)
  {
    s, t := Emit(s0, s1, t1, SetLoading(false));
  }

  /** The factory returned `null`: `adapter_failed`, a `return` inside the
      `try`, and the `finally` block, so `loading` is cleared twice. */
  method FactoryNull(s0: Session, s1: Session, t1: Trace) returns (s: Session, t: Trace)
    requires s1 == Replay(s0, t1)
    ensures s == Replay(s0, t) && Effects(t1) <= Effects(t)
    ensures Statuses(t) == Statuses(t1) + [AdapterFailed] && Loadings(t) == Loadings(t1) + [false, false]
    ensures s == s1.(status := AdapterFailed, loading := false)
  {
    s, t := Emit(s0, s1, t1, SetStatus(AdapterFailed));
    s, t := Emit(s0, s, t, SetLoading(false));
    s, t := Emit(s0, s, t, SetLoading(false));
  }

  /** The adapter is stored, then the player constructor throws inside
      `load`; the adapter keeps no player and the `finally` block runs. */
  method PlayerFailed(s0: Session, s1: Session, t1: Trace, a: Adapter) returns (s: Session, t: Trace)
    requires s1 == Replay(s0, t1)
    ensures s == Replay(s0, t) && Effects(t1) <= Effects(t)
    ensures Statuses(t) == Statuses(t1) && Loadings(t) == Loadings(t1) + [false]
    ensures s == s1.(adapter := Some(a), loading := false)
  {
    s, t := Emit(s0, s1, t1, SetAdapter(Some(a)));
    s, t := Emit(s0, s, t, SetLoading(false));
  }

  /** The adapter is stored and loads `id`, and its snapshot replaces `info`. */
  method Install(s0: Session, s1: Session, t1: Trace, id: string, reading: Option<Reading>)
    returns (s: Session, t: Trace)
    requires s1 == Replay(s0, t1)
    ensures s == Replay(s0, t) && Effects(t1) <= Effects(t)
    ensures Statuses(t) == Statuses(t1) && Loadings(t) == Loadings(t1)
    ensures s == s1.(adapter := s.adapter, info := s.info, calls := s.calls)
    ensures s.adapter == Some(Adapter(true, Some(id)))
    ensures s.info == GetInfo(Adapter(true, Some(id)), reading)
  {
    s, t := Emit(s0, s1, t1, SetAdapter(Some(NewAdapter)));
    s, t := Emit(s0, s, t, LoadAdapter(id));
    s, t := Emit(s0, s, t, SetInfo(GetInfo(s.adapter.value, reading)));
  }

  /** The status becomes `ready`, polling starts, and `finally` runs. */
  method Activate(s0: Session, s1: Session, t1: Trace)
    returns (s: Session, t: Trace)
    requires s1 == Replay(s0, t1)
    ensures s == Replay(s0, t) && Effects(t1) <= Effects(t)
    ensures Statuses(t) == Statuses(t1) + [Ready] && Loadings(t) == Loadings(t1) + [false]
    ensures s == s1.(status := Ready, loading := false, poll := s.poll, timers := s.timers,
                     nextTimer := s.nextTimer)
    ensures s.poll.Some? && (Valid(s1) ==> Valid(s))
  {
    s, t := Emit(s0, s1, t1, SetStatus(Ready));
    s, t := Emit(s0, s, t, StartTimer);
    s, t := Emit(s0, s, t, SetLoading(false));
  }

  /** The adapter is stored and loads `id`; its snapshot replaces `info`,
      the status becomes `ready`, polling starts, and `finally` runs. */
  method Mount(s0: Session, s1: Session, t1: Trace, id: string, reading: Option<Reading>)
    returns (s: Session, t: Trace)
    requires s1 == Replay(s0, t1)
    ensures s == Replay(s0, t) && Effects(t1) <= Effects(t)
    ensures Statuses(t) == Statuses(t1) + [Ready] && Loadings(t) == Loadings(t1) + [false]
    ensures s.url == s1.url && s.wallpaper == s1.wallpaper && !s.loading
    ensures Valid(s1) ==> Valid(s)
    ensures s.status == Ready && s.poll.Some?
    ensures s.adapter == Some(Adapter(true, Some(id)))
    ensures s.info == GetInfo(Adapter(true, Some(id)), reading)
  {
    var s2, t2 := Install(s0, s1, t1, id, reading);
    s, t := Activate(s0, s2, t2);
  }

  /** The `try` and `finally` blocks on a link a platform recognises. */
  method Recognised(s0: Session, s1: Session, t1: Trace, parsed: Option<Url>, serverMeta: Option<Meta>,
                    apiLoads: bool, playerBuilt: bool, reading: Option<Reading>)
    returns (s: Session, t: Trace, rejected: bool)
    requires s1 == Replay(s0, t1) && DetectPlatform(parsed).Some?
    ensures s == Replay(s0, t) && Effects(t1) <= Effects(t)
    ensures rejected <==> !(apiLoads && playerBuilt)
    ensures Statuses(t) == Statuses(t1) + [FetchingMeta, LoadingAdapter] + (if rejected then [] else [Ready])
    ensures Loadings(t) == Loadings(t1) + [false]
    ensures !s.loading && s.url == s1.url && s.wallpaper == MetaImage(serverMeta)
    ensures Valid(s1) ==> Valid(s)
    ensures !rejected ==>
              var id := DetectPlatform(parsed).value.id;
              && s.status == Ready && s.poll.Some?
              && s.adapter == Some(Adapter(true, Some(id)))
              && s.info == GetInfo(Adapter(true, Some(id)), reading)
    ensures rejected ==>
              && s.status == LoadingAdapter && s.poll == s1.poll
              && s.info == s1.info.(title := Coalesce(MetaTitle(serverMeta), s1.info.title))
              && s.adapter == (if apiLoads then Some(NewAdapter) else s1.adapter)
  {
    var s2, t2 := MetaStep(s0, s1, t1, serverMeta);
    var created := CreateAdapterForUrl(parsed, apiLoads);
    rejected := false;
    s, t := s2, t2;
    match created {
      case Rejected =>
        rejected := true;
        s, t := FactoryRejected(s0, s2, t2);
      case Returned(None) =>
        // the factory detects the same link again, so `FactoryNull` is not reached
        assert false;
      case Returned(Some(a)) =>
        if !playerBuilt {
          rejected := true;
          s, t := PlayerFailed(s0, s2, t2, a);
        } else {
          s, t := Mount(s0, s2, t2, DetectPlatform(parsed).value.id, reading);
        }
    }
  }

  /** What follows the blank-link check: detection, then either the early
      return or the `try` block. */
  method AfterCheck(s0: Session, s1: Session, t1: Trace, parsed: Option<Url>, serverMeta: Option<Meta>,
                    apiLoads: bool, playerBuilt: bool, reading: Option<Reading>)
    returns (s: Session, t: Trace, rejected: bool)
    requires s1 == Replay(s0, t1)
    ensures s == Replay(s0, t) && Effects(t1) <= Effects(t)
    ensures rejected <==> DetectPlatform(parsed).Some? && !(apiLoads && playerBuilt)
    ensures Loadings(t) == Loadings(t1) + [false]
    ensures !s.loading && s.url == s1.url && s.wallpaper == MetaImage(serverMeta)
    ensures Valid(s1) ==> Valid(s)
    ensures DetectPlatform(parsed).None? ==>
              && Statuses(t) == Statuses(t1) + [Unsupported]
              && s.status == Unsupported && s.adapter == s1.adapter && s.poll == s1.poll
              && s.info == s1.info.(title := Coalesce(MetaTitle(serverMeta), s1.info.title))
    ensures DetectPlatform(parsed).Some? ==>
              Statuses(t) == Statuses(t1) + [FetchingMeta, LoadingAdapter] + (if rejected then [] else [Ready])
    ensures DetectPlatform(parsed).Some? && !rejected ==>
              var id := DetectPlatform(parsed).value.id;
              && s.status == Ready && s.poll.Some?
              && s.adapter == Some(Adapter(true, Some(id)))
              && s.info == GetInfo(Adapter(true, Some(id)), reading)
    ensures rejected ==>
              && s.status == LoadingAdapter && s.poll == s1.poll
              && s.info == s1.info.(title := Coalesce(MetaTitle(serverMeta), s1.info.title))
              && s.adapter == (if apiLoads then Some(NewAdapter) else s1.adapter)
  {
    if DetectPlatform(parsed).None? {
      rejected := false;
      s, t := UnknownLink(s0, s1, t1, serverMeta);
    } else {
      s, t, rejected := Recognised(s0, s1, t1, parsed, serverMeta, apiLoads, playerBuilt, reading);
    }
  }

  /** `loadUrl(input)`.
      - `parsed`: `new URL(input.trim())`, `None` when it throws;
      - `serverMeta`: what `fetchServerMeta` resolves to (it never rejects);
      - `apiLoads`: whether `ensureYouTubeAPI` resolves inside the factory;
      - `playerBuilt`: whether `new YT.Player` returns rather than throws;
      - `reading`: what the player reports to the `getInfo` after loading.
      `rejected` says the returned promise rejects; `loading` is cleared
      by the `finally` block first. The factory detects the same link
      again, so its `null` result, and with it `adapter_failed`, cannot
      occur once detection succeeded. */
  method LoadUrl(s0: Session, input: string, parsed: Option<Url>, serverMeta: Option<Meta>,
                 apiLoads: bool, playerBuilt: bool, reading: Option<Reading>)
    returns (s: Session, trace: Trace, rejected: bool)
    ensures s == Replay(s0, trace)
    ensures Entry(input) <= Effects(trace)
    ensures !s.loading && s.url == Some(input)
    ensures Valid(s0) ==> Valid(s)
    ensures Loadings(trace) == [true, false]
    ensures rejected <==> Text.Trim(input) != "" && DetectPlatform(parsed).Some? && !(apiLoads && playerBuilt)
    // a blank link
    ensures Text.Trim(input) == "" ==>
              && Statuses(trace) == [Validating, EnterLink]
              && s.adapter.None? && s.poll.None? && s.info == s0.info
    // an unrecognised link
    ensures Text.Trim(input) != "" && DetectPlatform(parsed).None? ==>
              && Statuses(trace) == [Validating, Unsupported]
              && s.adapter.None? && s.poll.None? && s.wallpaper == MetaImage(serverMeta)
    // a recognised link
    ensures Text.Trim(input) != "" && DetectPlatform(parsed).Some? ==>
              Statuses(trace) == [Validating, FetchingMeta, LoadingAdapter] + (if rejected then [] else [Ready])
    ensures Text.Trim(input) != "" && DetectPlatform(parsed).Some? && !rejected ==>
              && s.poll.Some? && s.adapter == Some(Adapter(true, Some(DetectPlatform(parsed).value.id)))
    ensures rejected ==> s.poll.None? && s.adapter == (if apiLoads then Some(NewAdapter) else None)
  {
    var s1, t1 := Begin(s0, input);
    rejected := false;
    assert [true] + [false] == [true, false];
    if Text.Trim(input) == "" {
      s, trace := BlankLink(s0, s1, t1);
      assert [Validating] + [EnterLink] == [Validating, EnterLink];
    } else {
      s, trace, rejected := AfterCheck(s0, s1, t1, parsed, serverMeta, apiLoads, playerBuilt, reading);
      if DetectPlatform(parsed).None? {
        assert [Validating] + [Unsupported] == [Validating, Unsupported];
      } else {
        RecognisedStatuses(if rejected then [] else [Ready]);
      }
    }
  }

  lemma RecognisedStatuses(tail: seq<Status>)
    ensures [Validating] + [FetchingMeta, LoadingAdapter] + tail == [Validating, FetchingMeta, LoadingAdapter] + tail
  {
  }

  /** The status `adapter_failed` is never written: detection succeeded,
      so the factory cannot return `null`. */
  lemma AdapterFailedIsUnreachable(url: Option<Url>, apiLoads: bool)
    requires DetectPlatform(url).Some?
    ensures CreateAdapterForUrl(url, apiLoads) != Returned(None)
  {
  }
}
