/**
 * The cached-then-fetched refresh the database list performs for its pages and its property
 * schema (search-page.tsx): show whatever local storage holds under the resource's key, then
 * fetch, and when the fetch is accepted show the fresh value and overwrite the stored one.
 * A rejected or failed fetch changes nothing. The network result is a parameter (`None` for a
 * failed or empty-handed call).
 */
module Revalidate {
  import opened Common
  import opened Notion
  import Storage

  /** What the view displays and what local storage holds for one kind of resource. */
  datatype State<T> = State(displayed: Option<T>, store: map<string, T>)

  /** The stored value under `key`, if any. */
  function Lookup<T>(store: map<string, T>, key: string): Option<T> {
    if key in store then Some(store[key]) else None
  }

  /** Whether the refresh takes the fetched value. */
  predicate Accepted<T>(fetched: Option<T>, accepts: T -> bool) {
    fetched.Some? && accepts(fetched.value)
  }

  /** First step: display the stored value when there is one. */
  function ShowCached<T>(s: State<T>, key: string): (r: State<T>) {
    if key in s.store then s.(displayed := Some(s.store[key])) else s
  }

  /** Second step: an accepted fetch replaces the displayed value and the stored one. */
  function ApplyFetch<T>(s: State<T>, key: string, fetched: Option<T>, accepts: T -> bool): (r: State<T>) {
    if Accepted(fetched, accepts) then State(fetched, s.store[key := fetched.value]) else s
  }

  /** One get-then-refresh call. */
  function Cycle<T>(s: State<T>, key: string, fetched: Option<T>, accepts: T -> bool): State<T> {
    ApplyFetch(ShowCached(s, key), key, fetched, accepts)
  }

  /** The values one call hands to the view, in order: the stored one (if any), then the fresh one (if accepted). */
  function Deliveries<T>(store: map<string, T>, key: string, fetched: Option<T>, accepts: T -> bool): (d: seq<T>)
    ensures |d| == (if key in store then 1 else 0) + (if Accepted(fetched, accepts) then 1 else 0)
    ensures key in store ==> d[0] == store[key]
    ensures Accepted(fetched, accepts) ==> d[|d| - 1] == fetched.value
  {
    (if key in store then [store[key]] else []) + (if Accepted(fetched, accepts) then [fetched.value] else [])
  }

  /**
   * One call leaves the view showing its last delivery (or what it showed before, when there
   * was none), and a later read of the key returns that same value; other keys are untouched,
   * and a rejected fetch leaves storage exactly as it was.
   */
  lemma CycleAgreesWithDeliveries<T>(s: State<T>, key: string, fetched: Option<T>, accepts: T -> bool)
    ensures var d := Deliveries(s.store, key, fetched, accepts);
      var r := Cycle(s, key, fetched, accepts);
      && (|d| > 0 ==> r.displayed == Some(d[|d| - 1]) && Lookup(r.store, key) == Some(d[|d| - 1]))
      && (|d| == 0 ==> r.displayed == s.displayed && Lookup(r.store, key) == None)
      && (forall k :: k != key ==> Lookup(r.store, k) == Lookup(s.store, k))
      && (!Accepted(fetched, accepts) ==> r.store == s.store)
  {
  }

  /** Overlapping calls on one key: the store ends with the fetch that completed last, whichever was issued first. */
  lemma LastCompletionWins<T>(s: State<T>, key: string, first: T, second: T, accepts: T -> bool)
    requires accepts(first) && accepts(second)
    ensures var r := ApplyFetch(ApplyFetch(s, key, Some(first), accepts), key, Some(second), accepts);
      Lookup(r.store, key) == Some(second) && r.displayed == Some(second)
  {
  }

  /** Empty store, successful fetch: one delivery (the fresh value), which a later read returns. */
  lemma FreshStoreScenario<T>(key: string, v: T, accepts: T -> bool)
    requires accepts(v)
    ensures Deliveries(map[], key, Some(v), accepts) == [v]
    ensures Lookup(Cycle(State(None, map[]), key, Some(v), accepts).store, key) == Some(v)
  {
  }

  /** Stored value, failed fetch: the stored value is delivered and stays stored. */
  lemma FailedRefreshScenario<T>(s: State<T>, key: string, v: T, accepts: T -> bool)
    requires key in s.store && s.store[key] == v
    ensures Deliveries(s.store, key, None, accepts) == [v]
    ensures Cycle(s, key, None, accepts) == State(Some(v), s.store)
  {
  }

  /** The database's rows are refreshed only by a fetch with at least one page (`fetched && fetched[0]`). */
  predicate HasPages(pages: seq<Page>) {
    |pages| > 0
  }

  /** The rows state plus the loading flag, which is raised for the call and lowered only by an accepted fetch. */
  datatype PagesRefresh = PagesRefresh(state: State<seq<Page>>, loading: bool)

  /** Loading a database's rows: cached rows first, then the fetched rows when there is at least one. */
  function RefreshDatabasePages(s: State<seq<Page>>, databaseId: string, fetched: Option<seq<Page>>): (r: PagesRefresh)
    ensures r.state == Cycle(s, Storage.PagesKey(databaseId), fetched, HasPages)
    ensures r.loading <==> fetched.None? || |fetched.value| == 0
    ensures fetched.Some? && |fetched.value| > 0 ==>
      r.state.displayed == fetched && Lookup(r.state.store, Storage.PagesKey(databaseId)) == fetched
    ensures fetched.None? || |fetched.value| == 0 ==> r.state.store == s.store
  {
    var key := Storage.PagesKey(databaseId);
    var next := Cycle(s, key, fetched, HasPages);
    PagesRefresh(next, !Accepted(fetched, HasPages))
  }

  /** The property types the database list can display. */
  const SupportedPropertyTypes: set<string> :=
    {"number", "rich_text", "url", "email", "phone_number", "date", "checkbox", "select", "multi_select", "formula"}

  predicate IsSupported(p: DatabaseProperty) {
    p.kind in SupportedPropertyTypes
  }

  predicate AcceptsAny(ps: seq<DatabaseProperty>) {
    true
  }

  /**
   * Loading a database's property schema: cached schema first, then the fetched schema
   * restricted to supported types, which replaces the cached one even when it is empty.
   */
  function RefreshDatabaseProperties(s: State<seq<DatabaseProperty>>, databaseId: string, fetched: Option<seq<DatabaseProperty>>): (r: State<seq<DatabaseProperty>>)
    ensures fetched.Some? ==>
      && r.displayed == Some(Filter(fetched.value, IsSupported))
      && Lookup(r.store, Storage.PropertiesKey(databaseId)) == r.displayed
      && (forall p :: p in r.displayed.value <==> p in fetched.value && p.kind in SupportedPropertyTypes)
    ensures fetched.None? ==> r.store == s.store && r == ShowCached(s, Storage.PropertiesKey(databaseId))
    ensures forall k :: k != Storage.PropertiesKey(databaseId) ==> Lookup(r.store, k) == Lookup(s.store, k)
    ensures r == Cycle(s, Storage.PropertiesKey(databaseId),
                       if fetched.Some? then Some(Filter(fetched.value, IsSupported)) else None, AcceptsAny)
  {
    var supported := match fetched
      case Some(ps) => Some(Filter(ps, IsSupported))
      case None => None;
    Cycle(s, Storage.PropertiesKey(databaseId), supported, AcceptsAny)
  }

  /** Unlike the rows, an empty fetched schema does replace a cached one. */
  lemma EmptySchemaReplacesCache(s: State<seq<DatabaseProperty>>, databaseId: string)
    requires Storage.PropertiesKey(databaseId) in s.store
    ensures Lookup(RefreshDatabaseProperties(s, databaseId, Some([])).store, Storage.PropertiesKey(databaseId)) == Some([])
  {
  }

  /** An empty fetch of rows leaves the cached rows on display and the list still loading. */
  lemma EmptyRowsKeepCache(s: State<seq<Page>>, databaseId: string)
    requires Storage.PagesKey(databaseId) in s.store
    ensures var r := RefreshDatabasePages(s, databaseId, Some([]));
      r.loading && r.state.displayed == Some(s.store[Storage.PagesKey(databaseId)])
  {
  }
}
