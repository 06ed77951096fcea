/**
 The public leaderboard page's state and its reaction to the two live
 subscriptions: the groups collection (display names and colours) and the
 Arts scores, newest first. Each callback is one atomic transition. The
 browser's local storage cell `arts_data` is part of the state, because it
 outlives the page.
 */
module Leaderboard {
  import opened Values
  import opened Store
  import Standings
  import Pagination

  /** `data`, `groupsConfig`, `loading`, `error` and `page`, plus the
      `arts_data` cache cell. */
  datatype Home = Home(
    data: seq<Doc>,
    groupsConfig: map<string, Doc>,
    loading: bool,
    error: Option<string>,
    page: nat,
    cache: Option<seq<Doc>>)

  /** The page as it mounts; the cache holds whatever an earlier visit left. */
  function Mount(cache: Option<seq<Doc>>): (h: Home)
    ensures h.data == [] && h.groupsConfig == map[] && h.loading && h.error == None
    ensures h.page == 0 && h.cache == cache
  {
    Home([], map[], true, None, 0, cache)
  }

  // ---------------------------------------------------------------------------
  // Groups subscription

  /** `config[doc.id] = doc.data()` for every document, in order. */
  function ConfigOf(batch: seq<DocSnap>): (config: map<string, Doc>)
    ensures forall k :: k in config <==> exists i :: 0 <= i < |batch| && batch[i].id == k
    decreases |batch|
  {
    if batch == [] then map[]
    else
      var last := batch[|batch| - 1];
      var prefix := ConfigOf(batch[..|batch| - 1]);
      assert forall i :: 0 <= i < |batch| - 1 ==> batch[..|batch| - 1][i] == batch[i];
      prefix[last.id := last.data]
  }

  /** Every document of a snapshot (ids are unique in one) is in the config
      under its own id, with exactly its stored fields. */
  lemma {:induction false} ConfigOfHasEveryDoc(batch: seq<DocSnap>, i: int)
    requires DistinctIds(batch) && 0 <= i < |batch|
    ensures batch[i].id in ConfigOf(batch) && ConfigOf(batch)[batch[i].id] == batch[i].data
    decreases |batch|
  {
    var n := |batch| - 1;
    if i < n {
      var prefix := batch[..n];
      assert DistinctIds(prefix) by {
        forall a, b | 0 <= a < b < |prefix| ensures prefix[a].id != prefix[b].id {
          assert prefix[a] == batch[a] && prefix[b] == batch[b];
        }
      }
      assert prefix[i] == batch[i];
      ConfigOfHasEveryDoc(prefix, i);
      assert batch[n].id != batch[i].id;
    }
  }

  /** The groups snapshot replaces the config map wholesale. */
  function OnGroupsSnapshot(h: Home, batch: seq<DocSnap>): (r: Home)
    ensures r.groupsConfig.Keys == set i | 0 <= i < |batch| :: batch[i].id
    ensures r == h.(groupsConfig := r.groupsConfig)
  {
    var config := ConfigOf(batch);
    assert config.Keys == set i | 0 <= i < |batch| :: batch[i].id;
    h.(groupsConfig := config)
  }

  /** The groups snapshot of a collection shows that collection's documents,
      keyed by their ids, and nothing else. */
  lemma GroupsConfigMirrorsCollection(h: Home, batch: seq<DocSnap>, groups: Collection)
    requires IsSnapshotOf(batch, groups)
    ensures OnGroupsSnapshot(h, batch).groupsConfig == groups
  {
    var config := OnGroupsSnapshot(h, batch).groupsConfig;
    forall k | k in groups ensures k in config && config[k] == groups[k] {
      var i :| 0 <= i < |batch| && batch[i].id == k;
      ConfigOfHasEveryDoc(batch, i);
    }
    forall k | k in config ensures k in groups {
      var i :| 0 <= i < |batch| && batch[i].id == k;
    }
  }

  // ---------------------------------------------------------------------------
  // Scores subscription

  /** `{ ...doc.data(), id: doc.id }`: the document id overrides a stored `id` field. */
  function Row(d: DocSnap): (r: Doc)
    ensures Get(r, "id") == Str(d.id)
    ensures forall f :: f != "id" ==> Get(r, f) == Get(d.data, f)
  {
    d.data["id" := Str(d.id)]
  }

  function Rows(batch: seq<DocSnap>): (r: seq<Doc>)
    ensures |r| == |batch|
    ensures forall i :: 0 <= i < |batch| ==> r[i] == Row(batch[i])
  {
    seq(|batch|, i requires 0 <= i < |batch| => Row(batch[i]))
  }

  /** A successful scores snapshot replaces `data` with the batch, ends
      loading, and writes the same list to the `arts_data` cell. */
  function OnScoresSnapshot(h: Home, batch: seq<DocSnap>): (r: Home)
    ensures |r.data| == |batch|
    ensures forall i :: 0 <= i < |batch| ==> Get(r.data[i], "id") == Str(batch[i].id)
    ensures forall i, f :: 0 <= i < |batch| && f != "id" ==> Get(r.data[i], f) == Get(batch[i].data, f)
    ensures !r.loading && r.cache == Some(r.data)
    ensures r.groupsConfig == h.groupsConfig && r.error == h.error && r.page == h.page
  {
    var rows := Rows(batch);
    h.(data := rows, loading := false, cache := Some(rows))
  }

  /** A subscription error records the message, falls back to the cached
      list when there is one (an empty cached list included) and otherwise
      keeps the current list, and ends loading. */
  function OnScoresError(h: Home, message: string): (r: Home)
    ensures r.error == Some(message) && !r.loading
    ensures h.cache.Some? ==> r.data == h.cache.value
    ensures h.cache.None? ==> r.data == h.data
    ensures r.groupsConfig == h.groupsConfig && r.page == h.page && r.cache == h.cache
  {
    var data := if h.cache.Some? then h.cache.value else h.data;
    h.(error := Some(message), data := data, loading := false)
  }

  /** A click on the pager. */
  function OnPagerClick(h: Home, c: Pagination.Click): (r: Home)
    ensures r == h.(page := r.page)
    ensures r.page == Pagination.OnClick(|h.data|, h.page, c)
  {
    h.(page := Pagination.OnClick(|h.data|, h.page, c))
  }

  datatype Event =
    | GroupsSnapshot(groups: seq<DocSnap>)
    | ScoresSnapshot(scores: seq<DocSnap>)
    | ScoresError(message: string)
    | Pager(click: Pagination.Click)

  function Step(h: Home, e: Event): Home
  {
    match e
    case GroupsSnapshot(b) => OnGroupsSnapshot(h, b)
    case ScoresSnapshot(b) => OnScoresSnapshot(h, b)
    case ScoresError(m) => OnScoresError(h, m)
    case Pager(c) => OnPagerClick(h, c)
  }

  function Run(h: Home, events: seq<Event>): Home
    decreases |events|
  {
    if events == [] then h else Run(Step(h, events[0]), events[1..])
  }

  lemma {:induction false} RunAppend(h: Home, a: seq<Event>, b: seq<Event>)
    ensures Run(h, a + b) == Run(Run(h, a), b)
    decreases |a|
  {
    if a != [] {
      assert (a + b)[1..] == a[1..] + b;
      RunAppend(Step(h, a[0]), a[1..], b);
    } else {
      assert a + b == b;
    }
  }

  /** Events that leave `data` alone. */
  predicate KeepsData(e: Event)
  {
    e.GroupsSnapshot? || e.Pager?
  }

  lemma {:induction false} QuietEventsKeepData(h: Home, events: seq<Event>)
    requires forall i :: 0 <= i < |events| ==> KeepsData(events[i])
    ensures Run(h, events).data == h.data && Run(h, events).cache == h.cache
    decreases |events|
  {
    if events != [] {
      QuietEventsKeepData(Step(h, events[0]), events[1..]);
    }
  }

  /** Full replacement: whatever came before, after a scores snapshot and
      any number of groups snapshots and pager clicks, the table is that
      snapshot's list and the cache holds the same list. */
  lemma LatestSnapshotWins(h: Home, before: seq<Event>, batch: seq<DocSnap>, after: seq<Event>)
    requires forall i :: 0 <= i < |after| ==> KeepsData(after[i])
    ensures Run(h, before + [ScoresSnapshot(batch)] + after).data == Rows(batch)
    ensures Run(h, before + [ScoresSnapshot(batch)] + after).cache == Some(Rows(batch))
  {
    RunAppend(h, before + [ScoresSnapshot(batch)], after);
    RunAppend(h, before, [ScoresSnapshot(batch)]);
    QuietEventsKeepData(Run(h, before + [ScoresSnapshot(batch)]), after);
  }

  /** Nothing clears `error`, and nothing sets `loading` again once it is off. */
  lemma {:induction false} ErrorIsSticky(h: Home, events: seq<Event>)
    requires h.error.Some? && !h.loading
    ensures Run(h, events).error.Some? && !Run(h, events).loading
    decreases |events|
  {
    if events != [] {
      ErrorIsSticky(Step(h, events[0]), events[1..]);
    }
  }

  /** The offset starts at 0 and only pager clicks move it, so it is always a
      multiple of ten. */
  lemma {:induction false} PageStaysAligned(h: Home, events: seq<Event>)
    requires h.page % Pagination.ItemsPerPage == 0
    ensures Run(h, events).page % Pagination.ItemsPerPage == 0
    decreases |events|
  {
    if events != [] {
      if events[0].Pager? {
        Pagination.ClickKeepsAlignment(|h.data|, h.page, events[0].click);
      }
      PageStaysAligned(Step(h, events[0]), events[1..]);
    }
  }

  /** After an error, a cached list is shown. In the model's free event
      order a later snapshot would replace it while the error stays recorded;
      the store's client delivers no callbacks after an error, so on one
      mount that second step does not occur. */
  lemma FallbackThenRecovery(h: Home, message: string, batch: seq<DocSnap>)
    requires h.cache.Some?
    ensures Run(h, [ScoresError(message)]).data == h.cache.value
    ensures Run(h, [ScoresError(message), ScoresSnapshot(batch)]).data == Rows(batch)
    ensures Run(h, [ScoresError(message), ScoresSnapshot(batch)]).error == Some(message)
  {
    var h1 := Step(h, ScoresError(message));
    assert [ScoresError(message), ScoresSnapshot(batch)][1..] == [ScoresSnapshot(batch)];
    assert [ScoresSnapshot(batch)][1..] == [];
    assert Run(h1, [ScoresSnapshot(batch)]) == Step(h1, ScoresSnapshot(batch));
  }

  // ---------------------------------------------------------------------------
  // What the page renders

  datatype Screen =
    | Spinner
    | ConnectionError
    | Board(standings: seq<Standings.Standing>, rows: seq<Doc>, pager: bool, pageLabel: nat)

  /** The spinner while loading with no rows, then the error banner whenever
      `error` is truthy, otherwise the standings, the current page of rows
      and, for more than ten rows, the pager. */
  function View(h: Home): (s: Screen)
    ensures h.loading && h.data == [] ==> s.Spinner?
    ensures !(h.loading && h.data == []) && h.error.Some? && h.error.value != "" ==> s.ConnectionError?
    ensures s.Board? ==> s.rows == Pagination.Window(h.data, h.page) && |s.rows| <= Pagination.ItemsPerPage
    ensures !(h.loading && h.data == []) && !(h.error.Some? && h.error.value != "") ==>
      && s.Board?
      && s.standings == Standings.GroupStandings(h.groupsConfig, h.data)
      && s.pager == Pagination.PagerShown(|h.data|)
      && s.pageLabel == Pagination.PageLabel(h.page)
  {
    if h.loading && |h.data| == 0 then Spinner
    else if h.error.Some? && h.error.value != "" then ConnectionError
    else Board(
      Standings.GroupStandings(h.groupsConfig, h.data),
      Pagination.Window(h.data, h.page),
      Pagination.PagerShown(|h.data|),
      Pagination.PageLabel(h.page))
  }

  /** Once a non-empty error message has been recorded, the page shows the
      connection error for the rest of its life, whatever events the model
      lets follow, unless a later error carries an empty message. */
  lemma {:induction false} ErrorBannerStays(h: Home, events: seq<Event>)
    requires h.error.Some? && h.error.value != "" && !h.loading
    requires forall i :: 0 <= i < |events| ==> events[i] != ScoresError("")
    ensures View(Run(h, events)).ConnectionError?
    decreases |events|
  {
    if events != [] {
      var next := Step(h, events[0]);
      assert next.error.Some? && next.error.value != "";
      ErrorBannerStays(next, events[1..]);
    }
  }

  /** The label of a table row's group: `groupsConfig[e.group]`, or, for a group
      with no document, the raw id in the neutral colour `#94a3b8`. */
  function RowGroup(config: map<string, Doc>, e: Doc): (grp: Doc)
    ensures var g := Get(e, "group");
      g.Str? && g.s in config ==> grp == config[g.s]
    ensures var g := Get(e, "group");
      !(g.Str? && g.s in config) ==> Get(grp, "name") == g && Get(grp, "color") == Str("#94a3b8")
  {
    var g := Get(e, "group");
    if g.Str? && g.s in config then config[g.s]
    else (if g.Undefined? then map[] else map["name" := g]) + map["color" := Str("#94a3b8")]
  }
}
