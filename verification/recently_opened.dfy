/**
 * The ledger of recently opened pages (`storeRecentlyOpenedPage` in search-page.tsx).
 *
 * Opening a page loads the stored ledger (absent means empty), stamps the page with the
 * current clock reading (bumping the first entry with the same id, or appending the page),
 * sorts newest-first with a stable sort, and stores the first 20 entries. The clock reading
 * is a parameter.
 */
module RecentlyOpened {
  import opened Common
  import opened Notion
  import Sorting

  /** How many pages the ledger keeps. */
  const Capacity: nat := 20

  /** Sort key that orders pages newest-first (the comparator answers -1 when `a` is newer). */
  function NegatedTime(p: Page): int {
    -p.lastEditedTime
  }

  /** Entries are ordered by non-increasing timestamp. */
  predicate NewestFirst(ledger: seq<Page>) {
    forall i, j :: 0 <= i < j < |ledger| ==> ledger[i].lastEditedTime >= ledger[j].lastEditedTime
  }

  /** No page id occurs twice. */
  predicate UniqueIds(ledger: seq<Page>) {
    forall i, j :: 0 <= i < j < |ledger| ==> ledger[i].id != ledger[j].id
  }

  predicate HasId(ledger: seq<Page>, id: string) {
    exists i :: 0 <= i < |ledger| && ledger[i].id == id
  }

  /** What a ledger written by this code always satisfies. */
  predicate ValidLedger(ledger: seq<Page>) {
    |ledger| <= Capacity && NewestFirst(ledger) && UniqueIds(ledger)
  }

  /** `findIndex`: the position of the first entry with `id`, if any. */
  function FindById(ledger: seq<Page>, id: string): (r: Option<nat>)
    ensures r.Some? ==> r.value < |ledger| && ledger[r.value].id == id
    ensures r.Some? ==> forall j :: 0 <= j < r.value ==> ledger[j].id != id
    ensures r.None? <==> !HasId(ledger, id)
  {
    if |ledger| == 0 then None
    else if ledger[0].id == id then Some(0)
    else
      match FindById(ledger[1..], id)
      case None =>
        assert forall i :: 1 <= i < |ledger| ==> ledger[i] == ledger[1..][i - 1];
        None
      case Some(k) => Some(k + 1)
  }

  /**
   * The entry the visit leaves for `page`: the existing entry with its timestamp bumped (its
   * other fields are not refreshed from `page`), or `page` itself stamped with `now`.
   */
  function Bumped(ledger: seq<Page>, page: Page, now: int): (b: Page)
    ensures b.id == page.id && b.lastEditedTime == now
    ensures HasId(ledger, page.id) ==> exists i :: 0 <= i < |ledger| && b == ledger[i].(lastEditedTime := now)
    ensures !HasId(ledger, page.id) ==> b == page.(lastEditedTime := now)
  {
    match FindById(ledger, page.id)
    case Some(i) => ledger[i].(lastEditedTime := now)
    case None => page.(lastEditedTime := now)
  }

  /** The ledger after stamping the visit, before sorting and truncation. */
  function Touch(ledger: seq<Page>, page: Page, now: int): (t: seq<Page>)
    ensures |t| == |ledger| + (if HasId(ledger, page.id) then 0 else 1)
    ensures Bumped(ledger, page, now) in t
    ensures forall q :: q in t ==> q in ledger || q == Bumped(ledger, page, now)
    ensures UniqueIds(ledger) ==> UniqueIds(t)
    ensures UniqueIds(ledger) ==> forall q :: q in t && q.id == page.id ==> q == Bumped(ledger, page, now)
  {
    match FindById(ledger, page.id)
    case Some(i) =>
      var t := ledger[i := Bumped(ledger, page, now)];
      assert t[i] == Bumped(ledger, page, now);
      t
    case None =>
      var t := ledger + [Bumped(ledger, page, now)];
      assert t[|ledger|] == Bumped(ledger, page, now);
      t
  }

  /** Newest-first order of the touched ledger, ties kept in ledger order. */
  function SortNewestFirst(ledger: seq<Page>): (r: seq<Page>)
    ensures |r| == |ledger|
    ensures multiset(r) == multiset(ledger)
    ensures forall q :: q in r <==> q in ledger
    ensures NewestFirst(r)
    ensures UniqueIds(ledger) ==> UniqueIds(r)
  {
    var r := Sorting.SortBy(ledger, NegatedTime);
    assert forall q :: q in r <==> q in ledger by {
      forall q ensures q in r <==> q in ledger {
        assert q in r <==> q in multiset(r);
        assert q in ledger <==> q in multiset(ledger);
      }
    }
    assert NewestFirst(r) by {
      forall i, j | 0 <= i < j < |r| ensures r[i].lastEditedTime >= r[j].lastEditedTime {
        assert NegatedTime(r[i]) <= NegatedTime(r[j]);
      }
    }
    SortKeepsUniqueIds(ledger);
    r
  }

  /** Sorting by time never makes two entries share an id. */
  lemma SortKeepsUniqueIds(ledger: seq<Page>)
    ensures UniqueIds(ledger) ==> UniqueIds(Sorting.SortBy(ledger, NegatedTime))
  {
    if UniqueIds(ledger) {
      assert Sorting.DistinctBy(ledger, (p: Page) => p.id);
      Sorting.SortByKeepsDistinct(ledger, NegatedTime, (p: Page) => p.id);
    }
  }

  /** The first `Capacity` entries (`slice(0, 20)`). */
  function Truncate(ledger: seq<Page>): (r: seq<Page>)
    ensures |r| == if |ledger| <= Capacity then |ledger| else Capacity
    ensures forall i :: 0 <= i < |r| ==> r[i] == ledger[i]
    ensures forall q :: q in r ==> q in ledger
    ensures NewestFirst(ledger) ==> NewestFirst(r)
    ensures UniqueIds(ledger) ==> UniqueIds(r)
    ensures NewestFirst(ledger) ==> forall q, k :: q in ledger && q !in r && k in r ==> k.lastEditedTime >= q.lastEditedTime
  {
    var r := if |ledger| <= Capacity then ledger else ledger[..Capacity];
    assert NewestFirst(ledger) ==> forall q, k :: q in ledger && q !in r && k in r ==> k.lastEditedTime >= q.lastEditedTime by {
      if NewestFirst(ledger) {
        forall q, k | q in ledger && q !in r && k in r
          ensures k.lastEditedTime >= q.lastEditedTime
        {
          var j :| 0 <= j < |ledger| && ledger[j] == q;
          var i :| 0 <= i < |r| && r[i] == k;
          assert i < j;
        }
      }
    }
    r
  }

  /** `storeRecentlyOpenedPage(page)` with the clock reading `now`: the ledger it stores. */
  function Record(stored: Option<seq<Page>>, page: Page, now: int): (r: seq<Page>)
    ensures |r| <= Capacity
    ensures NewestFirst(r)
    ensures var loaded := stored.GetOr([]);
      var grown := |loaded| + (if HasId(loaded, page.id) then 0 else 1);
      |r| == if grown <= Capacity then grown else Capacity
    ensures forall q :: q in r ==> q in stored.GetOr([]) || q == Bumped(stored.GetOr([]), page, now)
    ensures UniqueIds(stored.GetOr([])) ==> UniqueIds(r)
    ensures (forall q :: q in stored.GetOr([]) ==> q.lastEditedTime < now) ==>
              |r| > 0 && r[0] == Bumped(stored.GetOr([]), page, now)
    ensures forall q, k :: q in Touch(stored.GetOr([]), page, now) && q !in r && k in r ==> k.lastEditedTime >= q.lastEditedTime
    ensures UniqueIds(stored.GetOr([])) ==> forall q :: q in r && q.id == page.id ==> q == Bumped(stored.GetOr([]), page, now)
  {
    var loaded := stored.GetOr([]);
    var touched := Touch(loaded, page, now);
    var sorted := SortNewestFirst(touched);
    NewestIsFirst(loaded, touched, sorted, Bumped(loaded, page, now));
    Truncate(sorted)
  }

  /** When the bumped entry is strictly newer than every loaded entry, sorting puts it first. */
  lemma NewestIsFirst(loaded: seq<Page>, touched: seq<Page>, sorted: seq<Page>, b: Page)
    requires b in touched
    requires forall q :: q in touched ==> q in loaded || q == b
    requires multiset(sorted) == multiset(touched)
    requires NewestFirst(sorted)
    ensures (forall q :: q in loaded ==> q.lastEditedTime < b.lastEditedTime) ==> |sorted| > 0 && sorted[0] == b
  {
    if forall q :: q in loaded ==> q.lastEditedTime < b.lastEditedTime {
      assert b in multiset(sorted);
      var k :| 0 <= k < |sorted| && sorted[k] == b;
      assert sorted[0] in multiset(touched);
      assert sorted[0].lastEditedTime >= b.lastEditedTime;
    }
  }

  /** One visit: a page opened at a clock reading. */
  datatype Visit = Visit(page: Page, at: int)

  /** The stored ledger after recording `visits` in order. */
  function RecordAll(stored: Option<seq<Page>>, visits: seq<Visit>): seq<Page>
    decreases |visits|
  {
    if |visits| == 0 then stored.GetOr([])
    else RecordAll(Some(Record(stored, visits[0].page, visits[0].at)), visits[1..])
  }

  /**
   * Whatever pages are opened, and in whatever clock order, a ledger that starts valid (or
   * absent) stays bounded by 20, sorted newest-first and free of duplicate ids; in particular
   * reopening a page never adds a second entry for it.
   */
  lemma {:induction false} RecordAllKeepsLedgerValid(stored: Option<seq<Page>>, visits: seq<Visit>)
    requires ValidLedger(stored.GetOr([]))
    ensures ValidLedger(RecordAll(stored, visits))
    decreases |visits|
  {
    if |visits| > 0 {
      var next := Record(stored, visits[0].page, visits[0].at);
      assert ValidLedger(next);
      RecordAllKeepsLedgerValid(Some(next), visits[1..]);
    }
  }

  /** Reopening a page already in the ledger leaves its length unchanged. */
  lemma ReopeningKeepsLength(ledger: seq<Page>, page: Page, now: int)
    requires ValidLedger(ledger)
    requires HasId(ledger, page.id)
    ensures |Record(Some(ledger), page, now)| == |ledger|
    ensures HasId(Record(Some(ledger), page, now), page.id)
  {
    var sorted := SortNewestFirst(Touch(ledger, page, now));
    var r := Truncate(sorted);
    assert Record(Some(ledger), page, now) == r;
    var b := Bumped(ledger, page, now);
    assert b in sorted;
    var k :| 0 <= k < |sorted| && sorted[k] == b;
    assert r[k].id == page.id;
  }
}
