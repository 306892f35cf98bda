/** `src/lib/stores/ui.ts`: the toast queue, the confirm dialog state and
    the search stores. The timers that expire toasts and the two search
    queries are outside the model: a scheduled expiry is returned to the
    caller, and the search outcome is a parameter. */
module Ui {
  import opened Nullable
  import Text
  import Store

  datatype ToastKind = Info | Success | Error

  datatype Toast = Toast(id: nat, text: string, kind: ToastKind, timeout: int)

  /** The dialog being shown; the promise's `resolve` callback is not modelled. */
  datatype Confirm = Confirm(id: nat, text: string)

  datatype SearchResults = SearchResults(songs: seq<(Store.Id, Store.SongRow)>,
                                         albums: seq<(Store.Id, Store.AlbumRow)>)

  const NoResults := SearchResults([], [])

  /** The stores of the module with the two module-level counters. */
  datatype UiState = UiState(
    searchQuery: string,
    results: SearchResults,
    toasts: seq<Toast>,
    nextToast: nat,
    confirm: Option<Confirm>,
    nextConfirm: nat)

  const Initial := UiState("", NoResults, [], 1, None, 1)

  /** Toast ids increase along the queue and stay below the counter; the
      dialog's id is below its counter. */
  predicate Valid(u: UiState) {
    && Increasing(u.toasts)
    && (forall i :: 0 <= i < |u.toasts| ==> u.toasts[i].id < u.nextToast)
    && (u.confirm.Some? ==> u.confirm.value.id < u.nextConfirm)
  }

  lemma InitialIsValid()
    ensures Valid(Initial)
  {
  }

  /* --- toasts --- */

  /** A `setTimeout` that will remove toast `id` after `delay` ms. */
  datatype Expiry = Expiry(id: nat, delay: int)

  datatype Notified = Notified(ui: UiState, id: nat, expiry: Option<Expiry>)

  /** `notify(text, type = "info", timeout = 3000)`. */
  function Notify(u: UiState, text: string, kind: ToastKind := Info, timeout: int := 3000): (r: Notified)
    ensures r.id == u.nextToast && r.ui.nextToast > r.id
    ensures r.ui.toasts == u.toasts + [Toast(r.id, text, kind, timeout)]
    ensures r.expiry.Some? <==> timeout > 0
    ensures r.expiry.Some? ==> r.expiry.value == Expiry(r.id, timeout)
    ensures Valid(u) ==> Valid(r.ui) && forall i :: 0 <= i < |u.toasts| ==> u.toasts[i].id < r.id
    ensures r.ui == u.(toasts := r.ui.toasts, nextToast := r.ui.nextToast)
  {
    var id := u.nextToast;
    var ui := u.(toasts := u.toasts + [Toast(id, text, kind, timeout)], nextToast := id + 1);
    Notified(ui, id, if timeout > 0 then Some(Expiry(id, timeout)) else None)
  }

  /** The toasts whose id differs from `id`, in order. */
  function Without(toasts: seq<Toast>, id: nat): (r: seq<Toast>)
    ensures |r| <= |toasts|
    ensures forall i :: 0 <= i < |r| ==> r[i].id != id && r[i] in toasts
    ensures forall i :: 0 <= i < |toasts| && toasts[i].id != id ==> toasts[i] in r
    decreases |toasts|
  {
    if |toasts| == 0 then []
    else
      var rest := Without(toasts[1..], id);
      assert forall i :: 1 <= i < |toasts| ==> toasts[i] == toasts[1..][i - 1];
      if toasts[0].id == id then rest else [toasts[0]] + rest
  }

  /** Filtering distributes over concatenation, so the kept toasts stay in
      their relative order and keep their multiplicity. */
  lemma {:induction false} WithoutConcat(a: seq<Toast>, b: seq<Toast>, id: nat)
    ensures Without(a + b, id) == Without(a, id) + Without(b, id)
    decreases |a|
  {
    if |a| == 0 {
      assert a + b == b;
    } else {
      assert (a + b)[0] == a[0] && (a + b)[1..] == a[1..] + b;
      WithoutConcat(a[1..], b, id);
    }
  }

  /** One toast is kept exactly when its id differs. */
  lemma WithoutOne(t: Toast, id: nat)
    ensures Without([t], id) == if t.id == id then [] else [t]
  {
    assert [t][1..] == [];
  }

  predicate Increasing(toasts: seq<Toast>) {
    forall i, j :: 0 <= i < j < |toasts| ==> toasts[i].id < toasts[j].id
  }

  /** Removing toasts keeps every remaining id above a bound the list had. */
  lemma {:induction false} WithoutKeepsBound(toasts: seq<Toast>, id: nat, b: int)
    requires forall i :: 0 <= i < |toasts| ==> b < toasts[i].id
    ensures var r := Without(toasts, id);
            forall k :: 0 <= k < |r| ==> b < r[k].id
    decreases |toasts|
  {
    if |toasts| > 0 {
      WithoutKeepsBound(toasts[1..], id, b);
    }
  }

  /** Removing toasts keeps the others in their order. */
  lemma {:induction false} WithoutKeepsOrder(toasts: seq<Toast>, id: nat)
    requires Increasing(toasts)
    ensures Increasing(Without(toasts, id))
    decreases |toasts|
  {
    if |toasts| > 0 {
      var tail := toasts[1..];
      IncreasingTail(toasts);
      WithoutKeepsOrder(tail, id);
      WithoutKeepsBound(tail, id, toasts[0].id);
      if toasts[0].id != id {
        IncreasingCons(toasts[0], Without(tail, id));
      }
    }
  }

  lemma IncreasingTail(toasts: seq<Toast>)
    requires |toasts| > 0 && Increasing(toasts)
    ensures Increasing(toasts[1..])
    ensures forall k :: 0 <= k < |toasts| - 1 ==> toasts[0].id < toasts[1..][k].id
  {
    var tail := toasts[1..];
    forall i, j | 0 <= i < j < |tail| ensures tail[i].id < tail[j].id {
      assert tail[i] == toasts[i + 1] && tail[j] == toasts[j + 1];
    }
    forall k | 0 <= k < |tail| ensures toasts[0].id < tail[k].id {
      assert tail[k] == toasts[k + 1];
    }
  }

  lemma IncreasingCons(t: Toast, rest: seq<Toast>)
    requires Increasing(rest)
    requires forall k :: 0 <= k < |rest| ==> t.id < rest[k].id
    ensures Increasing([t] + rest)
  {
    var r := [t] + rest;
    forall i, j | 0 <= i < j < |r| ensures r[i].id < r[j].id {
      assert r[j] == rest[j - 1];
      if i > 0 {
        assert r[i] == rest[i - 1];
      }
    }
  }

  /** Removing toasts keeps every remaining id below a bound the list had. */
  lemma {:induction false} WithoutKeepsUpperBound(toasts: seq<Toast>, id: nat, b: int)
    requires forall i :: 0 <= i < |toasts| ==> toasts[i].id < b
    ensures var r := Without(toasts, id);
            forall k :: 0 <= k < |r| ==> r[k].id < b
    decreases |toasts|
  {
    if |toasts| > 0 {
      WithoutKeepsUpperBound(toasts[1..], id, b);
    }
  }

  /** A list with no toast `id` is left as it is. */
  lemma {:induction false} WithoutAbsent(toasts: seq<Toast>, id: nat)
    requires forall i :: 0 <= i < |toasts| ==> toasts[i].id != id
    ensures Without(toasts, id) == toasts
    decreases |toasts|
  {
    if |toasts| > 0 {
      WithoutAbsent(toasts[1..], id);
    }
  }

  /** The timer callback: `toasts.update(s => s.filter(t => t.id !== id))`. */
  function Expire(u: UiState, id: nat): (r: UiState)
    ensures forall i :: 0 <= i < |r.toasts| ==> r.toasts[i].id != id && r.toasts[i] in u.toasts
    ensures forall i :: 0 <= i < |u.toasts| && u.toasts[i].id != id ==> u.toasts[i] in r.toasts
    ensures r == u.(toasts := r.toasts)
  {
    u.(toasts := Without(u.toasts, id))
  }

  /** Expiry keeps the queue's ids increasing. */
  lemma ExpireKeepsValid(u: UiState, id: nat)
    requires Valid(u)
    ensures Valid(Expire(u, id))
  {
    WithoutKeepsOrder(u.toasts, id);
    WithoutKeepsUpperBound(u.toasts, id, u.nextToast);
  }

  /** Expiring a toast right after its `notify` restores the queue. */
  lemma ExpireUndoesNotify(u: UiState, text: string, kind: ToastKind, timeout: int)
    requires Valid(u)
    ensures var n := Notify(u, text, kind, timeout);
            Expire(n.ui, n.id).toasts == u.toasts
  {
    var n := Notify(u, text, kind, timeout);
    WithoutConcat(u.toasts, [Toast(n.id, text, kind, timeout)], n.id);
    WithoutAbsent(u.toasts, n.id);
  }

  /** Ids handed out by successive `notify` calls strictly increase. */
  lemma NotifyIdsIncrease(u: UiState, a: string, b: string)
    ensures Notify(u, a).id < Notify(Notify(u, a).ui, b).id
  {
  }

  /* --- confirm --- */

  datatype Confirmed = Confirmed(ui: UiState, id: nat)

  /** `confirm(text)`: shows a dialog with a fresh id. */
  function ShowConfirm(u: UiState, text: string): (r: Confirmed)
    ensures r.id == u.nextConfirm && r.ui.nextConfirm > r.id
    ensures r.ui.confirm == Some(Confirm(r.id, text))
    ensures Valid(u) ==> Valid(r.ui)
    ensures r.ui == u.(confirm := r.ui.confirm, nextConfirm := r.ui.nextConfirm)
  {
    var id := u.nextConfirm;
    Confirmed(u.(confirm := Some(Confirm(id, text)), nextConfirm := id + 1), id)
  }

  /** `clearConfirm()`: hides the dialog and keeps the counter. */
  function ClearConfirm(u: UiState): (r: UiState)
    ensures r.confirm.None?
    ensures Valid(u) ==> Valid(r)
    ensures r == u.(confirm := None)
  {
    u.(confirm := None)
  }

  /** Confirm ids strictly increase, also across a `clearConfirm`. */
  lemma ConfirmIdsIncrease(u: UiState, a: string, b: string)
    ensures ShowConfirm(u, a).id < ShowConfirm(ShowConfirm(u, a).ui, b).id
    ensures ShowConfirm(u, a).id < ShowConfirm(ClearConfirm(ShowConfirm(u, a).ui), b).id
  {
  }

  /* --- search --- */

  /** A call of one of the two search functions. */
  datatype SearchRequest = SearchSongs(query: string, limit: nat) | SearchAlbums(query: string, limit: nat)

  const SongLimit: nat := 50
  const AlbumLimit: nat := 20

  datatype Searched = Searched(ui: UiState, requests: seq<SearchRequest>)

  /** `performSearch(query)`. `query` is `None` for `null`/`undefined`;
      `outcome` is what `Promise.all` of the two searches resolves to,
      `None` when either rejects. */
  function PerformSearch(u: UiState, query: Option<string>, outcome: Option<SearchResults>): (r: Searched)
    ensures r.ui.searchQuery == Text.Trim(query.OrElse(""))
    ensures r.ui.searchQuery == "" ==> r.requests == [] && r.ui.results == NoResults
    ensures r.ui.searchQuery != "" ==>
              && r.requests == [SearchSongs(r.ui.searchQuery, SongLimit), SearchAlbums(r.ui.searchQuery, AlbumLimit)]
              && r.ui.results == outcome.OrElse(NoResults)
    ensures r.ui == u.(searchQuery := r.ui.searchQuery, results := r.ui.results)
  {
    var q := Text.Trim(query.OrElse(""));
    if q == "" then Searched(u.(searchQuery := q, results := NoResults), [])
    else
      var results := match outcome case Some(res) => res case None => NoResults;
      Searched(u.(searchQuery := q, results := results), [SearchSongs(q, SongLimit), SearchAlbums(q, AlbumLimit)])
  }

  /** `clearSearch()`. */
  function ClearSearch(u: UiState): (r: UiState)
    ensures r.searchQuery == "" && r.results == NoResults
    ensures r == u.(searchQuery := "", results := NoResults)
  {
    u.(searchQuery := "", results := NoResults)
  }

  /** A blank query is the same as clearing the search, and it makes no
      request whatever the searches would have returned. */
  lemma BlankSearchClears(u: UiState, query: string, outcome: Option<SearchResults>)
    requires Text.AllWhitespace(query)
    ensures PerformSearch(u, Some(query), outcome).ui == ClearSearch(u)
    ensures PerformSearch(u, Some(query), outcome).requests == []
  {
  }

  /** Searching again for the stored query asks for the same thing. */
  lemma SearchStoredQueryAgain(u: UiState, query: Option<string>, o1: Option<SearchResults>, o2: Option<SearchResults>)
    ensures var r := PerformSearch(u, query, o1);
            PerformSearch(r.ui, Some(r.ui.searchQuery), o2).requests == r.requests
  {
    Text.TrimIdempotent(query.OrElse(""));
  }
}
