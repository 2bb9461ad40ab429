/**
 * The section-building effect of the database page list (search-page.tsx).
 *
 * Without a `groupBy` the list is one section named 'Recent' holding every page. With one,
 * each page is labelled with the extracted value of the group-by property (or 'Recent' when
 * that is `null`), pages are collected per label into a plain object, and the sections follow
 * `Object.keys` order: array-index labels first in ascending numeric order, then the others in
 * the order they first appear. A throw while labelling leaves the previous sections in place.
 *
 * The source collects into `{}`, whose inherited members (`constructor`, `toString`, ...) read
 * as truthy: a page whose label is such a name makes `.push` throw. `GroupAsWritten` models
 * that; `Group`, used by the rest of the model, treats every label as an own key.
 */
module Sections {
  import opened Common
  import opened Json
  import opened Notion
  import opened PropertyText
  import opened DatabaseViews
  import Sorting

  /** A list section: its title, its React key and its pages. */
  datatype Section = Section(name: string, key: string, pages: seq<Page>)

  /** The label of pages with nothing to show for the group-by property. */
  const RecentLabel := "Recent"

  /** The property key read when grouping: `groupBy.id`, which is `undefined` once toggled off. */
  function GroupPropertyKey(g: GroupBy): string {
    match g.id
    case Some(id) => id
    case None => "undefined"
  }

  /** The section label of one page: the extracted value as an object key, or 'Recent' when it is `null`. */
  function Label(page: Page, propKey: string, fromNow: Json -> string): (r: Completion<string>)
    ensures r.TypeError? <==> Extract(page.properties, propKey, fromNow).Threw?
    ensures Extract(page.properties, propKey, fromNow).Hidden? ==> r == Normal(RecentLabel)
    ensures propKey !in page.properties ==> r == Normal(RecentLabel)
    ensures Extract(page.properties, propKey, fromNow).Shown? ==>
      r == Normal(ToStr(Extract(page.properties, propKey, fromNow).value))
  {
    match Extract(page.properties, propKey, fromNow)
    case Threw => TypeError
    case Hidden => Normal(RecentLabel)
    case Shown(v) => Normal(ToStr(v))
  }

  /** The labels of all pages, in page order; the `forEach` stops at the first throw. */
  function Labels(pages: seq<Page>, propKey: string, fromNow: Json -> string): (r: Completion<seq<string>>)
    ensures r.Normal? ==> |r.value| == |pages|
    ensures r.Normal? ==> forall i :: 0 <= i < |pages| ==> Label(pages[i], propKey, fromNow) == Normal(r.value[i])
    ensures r.TypeError? <==> exists i :: 0 <= i < |pages| && Label(pages[i], propKey, fromNow).TypeError?
  {
    if |pages| == 0 then Normal([])
    else
      match Label(pages[0], propKey, fromNow)
      case TypeError => TypeError
      case Normal(l) =>
        match Labels(pages[1..], propKey, fromNow)
        case TypeError =>
          TypeError
        case Normal(ls) =>
          assert forall i :: 1 <= i < |pages| ==> pages[i] == pages[1..][i - 1];
          Normal([l] + ls)
  }

  /** How many labels equal `k`. */
  function Count(labels: seq<string>, k: string): (n: nat)
    ensures n <= |labels|
    ensures n > 0 <==> k in labels
  {
    if |labels| == 0 then 0
    else (if labels[0] == k then 1 else 0) + Count(labels[1..], k)
  }

  /** The pages labelled `k`, in page order. */
  function PagesLabelled(pages: seq<Page>, labels: seq<string>, k: string): (r: seq<Page>)
    requires |labels| == |pages|
    ensures |r| == Count(labels, k)
    ensures forall p :: p in r ==> p in pages
  {
    if |pages| == 0 then []
    else (if labels[0] == k then [pages[0]] else []) + PagesLabelled(pages[1..], labels[1..], k)
  }

  /** A page whose label is `k` is among the pages labelled `k`. */
  lemma {:induction false} LabelledPageIsCollected(pages: seq<Page>, labels: seq<string>, i: nat)
    requires |labels| == |pages| && i < |pages|
    ensures pages[i] in PagesLabelled(pages, labels, labels[i])
  {
    if i > 0 {
      LabelledPageIsCollected(pages[1..], labels[1..], i - 1);
    }
  }

  /**
   * Sections keep page order: appending a page appends it to the end of its own section and
   * changes no other section.
   */
  lemma {:induction false} PagesLabelledKeepsOrder(pages: seq<Page>, labels: seq<string>, p: Page, l: string, k: string)
    requires |labels| == |pages|
    ensures PagesLabelled(pages + [p], labels + [l], k) == PagesLabelled(pages, labels, k) + (if l == k then [p] else [])
    decreases |pages|
  {
    if |pages| == 0 {
      assert (pages + [p])[1..] == [];
    } else {
      assert (pages + [p])[1..] == pages[1..] + [p];
      assert (labels + [l])[1..] == labels[1..] + [l];
      assert (pages + [p])[0] == pages[0] && (labels + [l])[0] == labels[0];
      PagesLabelledKeepsOrder(pages[1..], labels[1..], p, l, k);
      var head := if labels[0] == k then [pages[0]] else [];
      assert PagesLabelled(pages + [p], labels + [l], k) == head + PagesLabelled(pages[1..] + [p], labels[1..] + [l], k);
      assert PagesLabelled(pages, labels, k) == head + PagesLabelled(pages[1..], labels[1..], k);
    }
  }

  /** The position of the first occurrence of `x` in `s`. */
  function FirstIndex(s: seq<string>, x: string): (k: nat)
    requires x in s
    ensures k < |s| && s[k] == x
    ensures forall j :: 0 <= j < k ==> s[j] != x
  {
    if s[0] == x then 0
    else
      assert x in s[1..];
      1 + FirstIndex(s[1..], x)
  }

  /** Appending an element does not move the first occurrence of an element already present. */
  lemma FirstIndexPrefix(init: seq<string>, last: string, x: string)
    requires x in init
    ensures FirstIndex(init + [last], x) == FirstIndex(init, x)
  {
    var s := init + [last];
    var a := FirstIndex(s, x);
    var b := FirstIndex(init, x);
    assert s[b] == x;
  }

  /** The elements of `r` occur in `s`, each first occurring in `s` before the ones after it in `r`. */
  predicate InFirstOccurrenceOrder(r: seq<string>, s: seq<string>) {
    forall i, j :: 0 <= i < j < |r| ==> r[i] in s && r[j] in s && FirstIndex(s, r[i]) < FirstIndex(s, r[j])
  }

  /**
   * The distinct labels in order of first appearance (insertion order of the object's keys):
   * each label once, a label before another exactly when it first occurs earlier.
   */
  function FirstAppearance(s: seq<string>): (r: seq<string>)
    ensures NoDup(r)
    ensures forall x :: x in r <==> x in s
    ensures InFirstOccurrenceOrder(r, s)
  {
    if |s| == 0 then []
    else
      var init := s[..|s| - 1];
      var last := s[|s| - 1];
      assert s == init + [last];
      var d := FirstAppearance(init);
      AppendKeepsOccurrenceOrder(init, last, d);
      if last in d then d else d + [last]
  }

  /** Extending the distinct labels of `init` by a new last label keeps first-occurrence order. */
  lemma AppendKeepsOccurrenceOrder(init: seq<string>, last: string, d: seq<string>)
    requires forall x :: x in d <==> x in init
    requires InFirstOccurrenceOrder(d, init)
    ensures InFirstOccurrenceOrder(if last in d then d else d + [last], init + [last])
  {
    var s := init + [last];
    var r := if last in d then d else d + [last];
    forall i, j | 0 <= i < j < |r|
      ensures r[i] in s && r[j] in s && FirstIndex(s, r[i]) < FirstIndex(s, r[j])
    {
      assert r[i] == d[i] && d[i] in d;
      FirstIndexPrefix(init, last, d[i]);
      if j < |d| {
        assert r[j] == d[j] && d[j] in d;
        FirstIndexPrefix(init, last, d[j]);
      } else {
        assert r[j] == last && last !in init;
        assert FirstIndex(s, last) == |s| - 1;
      }
    }
  }

  predicate NotArrayIndex(key: string) {
    !IsArrayIndex(key)
  }

  /** `Object.keys` order for distinct own keys: array indices ascending, then the rest in insertion order. */
  function OwnKeyOrder(keys: seq<string>): (r: seq<string>)
    requires NoDup(keys)
    ensures |r| == |keys|
    ensures NoDup(r)
    ensures forall x :: x in r <==> x in keys
    ensures forall i, j :: 0 <= i < j < |r| && IsArrayIndex(r[j]) ==> IsArrayIndex(r[i]) && DecimalValue(r[i]) <= DecimalValue(r[j])
    ensures Filter(r, NotArrayIndex) == Filter(keys, NotArrayIndex)
  {
    var indices := Filter(keys, IsArrayIndex);
    var others := Filter(keys, NotArrayIndex);
    var sorted := Sorting.SortBy(indices, NumericValue);
    SortedIndices(indices, sorted);
    SplitCount(keys);
    DisjointConcat(sorted, others);
    IndicesFirst(sorted, others);
    OthersKeepOrder(sorted, others);
    sorted + others
  }

  /** Index keys followed by non-index keys: the non-index part is exactly the second sequence, in order. */
  lemma OthersKeepOrder(sorted: seq<string>, others: seq<string>)
    requires forall x :: x in sorted ==> IsArrayIndex(x)
    requires forall x :: x in others ==> !IsArrayIndex(x)
    ensures Filter(sorted + others, NotArrayIndex) == others
  {
    FilterAppend(sorted, others, NotArrayIndex);
    FilterKeepsNone(sorted, NotArrayIndex);
    FilterKeepsAll(others, NotArrayIndex);
  }

  function NumericValue(key: string): int {
    DecimalValue(key)
  }

  /** Sorting the distinct index keys keeps them distinct and keeps the same keys. */
  lemma SortedIndices(indices: seq<string>, sorted: seq<string>)
    requires NoDup(indices)
    requires sorted == Sorting.SortBy(indices, NumericValue)
    ensures NoDup(sorted)
    ensures forall x :: x in sorted <==> x in indices
  {
    forall x ensures x in sorted <==> x in indices {
      assert x in sorted <==> x in multiset(sorted);
      assert x in indices <==> x in multiset(indices);
    }
    var id := (k: string) => k;
    assert Sorting.DistinctBy(indices, id);
    Sorting.SortByKeepsDistinct(indices, NumericValue, id);
    forall i, j | 0 <= i < j < |sorted| ensures sorted[i] != sorted[j] {
      assert id(sorted[i]) != id(sorted[j]);
    }
  }

  /** Two duplicate-free sequences with no common element concatenate without duplicates. */
  lemma DisjointConcat(a: seq<string>, b: seq<string>)
    requires NoDup(a) && NoDup(b)
    requires forall x :: x in a ==> IsArrayIndex(x)
    requires forall x :: x in b ==> !IsArrayIndex(x)
    ensures NoDup(a + b)
  {
    var r := a + b;
    forall i, j | 0 <= i < j < |r| ensures r[i] != r[j] {
      if j < |a| {
        assert r[i] == a[i] && r[j] == a[j];
      } else if i >= |a| {
        assert r[i] == b[i - |a|] && r[j] == b[j - |a|];
      } else {
        assert r[i] == a[i] && r[j] == b[j - |a|];
        assert IsArrayIndex(r[i]) && !IsArrayIndex(r[j]);
      }
    }
  }

  /** In sorted indices followed by non-indices, every index key is preceded only by smaller index keys. */
  lemma IndicesFirst(sorted: seq<string>, others: seq<string>)
    requires Sorting.SortedBy(sorted, NumericValue)
    requires forall x :: x in sorted ==> IsArrayIndex(x)
    requires forall x :: x in others ==> !IsArrayIndex(x)
    ensures var r := sorted + others;
      forall i, j :: 0 <= i < j < |r| && IsArrayIndex(r[j]) ==> IsArrayIndex(r[i]) && DecimalValue(r[i]) <= DecimalValue(r[j])
  {
    var r := sorted + others;
    forall j | |sorted| <= j < |r| ensures !IsArrayIndex(r[j]) {
      assert r[j] == others[j - |sorted|];
    }
    forall i, j | 0 <= i < j < |r| && IsArrayIndex(r[j])
      ensures IsArrayIndex(r[i]) && DecimalValue(r[i]) <= DecimalValue(r[j])
    {
      assert r[i] == sorted[i] && r[j] == sorted[j];
      assert r[i] in sorted;
      assert NumericValue(sorted[i]) <= NumericValue(sorted[j]);
    }
  }

  /** The index keys and the other keys together are as many as all keys. */
  lemma {:induction false} SplitCount(keys: seq<string>)
    ensures |Filter(keys, IsArrayIndex)| + |Filter(keys, NotArrayIndex)| == |keys|
  {
    if |keys| > 0 {
      SplitCount(keys[1..]);
    }
  }

  /** Sections for `keys`, each holding the pages labelled with its key. */
  function Build(pages: seq<Page>, labels: seq<string>, keys: seq<string>): (r: seq<Section>)
    requires |labels| == |pages|
    ensures |r| == |keys|
    ensures forall i :: 0 <= i < |keys| ==> r[i] == Section(keys[i], keys[i], PagesLabelled(pages, labels, keys[i]))
  {
    if |keys| == 0 then []
    else [Section(keys[0], keys[0], PagesLabelled(pages, labels, keys[0]))] + Build(pages, labels, keys[1..])
  }

  /** The number of pages across all sections. */
  function TotalPages(sections: seq<Section>): nat {
    if |sections| == 0 then 0 else |sections[0].pages| + TotalPages(sections[1..])
  }

  /** The number of labels that lie in `keys`. */
  function CountIn(labels: seq<string>, keys: seq<string>): nat {
    if |labels| == 0 then 0
    else (if labels[0] in keys then 1 else 0) + CountIn(labels[1..], keys)
  }

  /** Adding a new key to the front adds the labels equal to it. */
  lemma {:induction false} CountInAdd(labels: seq<string>, keys: seq<string>, k: string)
    requires k !in keys
    ensures CountIn(labels, [k] + keys) == CountIn(labels, keys) + Count(labels, k)
  {
    if |labels| > 0 {
      CountInAdd(labels[1..], keys, k);
      assert labels[0] in [k] + keys <==> labels[0] == k || labels[0] in keys;
    }
  }

  /** When every label is a key, every label is counted. */
  lemma {:induction false} CountInAll(labels: seq<string>, keys: seq<string>)
    requires forall l :: l in labels ==> l in keys
    ensures CountIn(labels, keys) == |labels|
  {
    if |labels| > 0 {
      assert labels[0] in labels;
      assert forall l :: l in labels[1..] ==> l in labels;
      CountInAll(labels[1..], keys);
    }
  }

  /** Section sizes of distinct keys add up to the number of labels among those keys. */
  lemma {:induction false} TotalOfBuild(pages: seq<Page>, labels: seq<string>, keys: seq<string>)
    requires |labels| == |pages|
    requires NoDup(keys)
    ensures TotalPages(Build(pages, labels, keys)) == CountIn(labels, keys)
  {
    if |keys| == 0 {
      EmptyKeysCountNothing(labels);
    } else {
      var rest := keys[1..];
      NoDupTail(keys);
      TotalOfBuild(pages, labels, rest);
      BuildStep(pages, labels, keys);
      CountInAdd(labels, rest, keys[0]);
      assert keys == [keys[0]] + rest;
    }
  }

  /** The tail of a duplicate-free sequence is duplicate-free and lacks the head. */
  lemma NoDupTail(keys: seq<string>)
    requires NoDup(keys) && |keys| > 0
    ensures NoDup(keys[1..]) && keys[0] !in keys[1..]
  {
    forall i | 0 <= i < |keys| - 1
      ensures keys[1..][i] != keys[0]
    {
      assert keys[1..][i] == keys[i + 1];
    }
  }

  /** The first section holds the pages of the first key; the rest are built from the other keys. */
  lemma BuildStep(pages: seq<Page>, labels: seq<string>, keys: seq<string>)
    requires |labels| == |pages| && |keys| > 0
    ensures TotalPages(Build(pages, labels, keys)) == Count(labels, keys[0]) + TotalPages(Build(pages, labels, keys[1..]))
  {
    var b := Build(pages, labels, keys);
    assert b[1..] == Build(pages, labels, keys[1..]);
  }

  /** No label lies in an empty key list. */
  lemma {:induction false} EmptyKeysCountNothing(labels: seq<string>)
    ensures CountIn(labels, []) == 0
  {
    if |labels| > 0 {
      EmptyKeysCountNothing(labels[1..]);
    }
  }

  /** The section keys of a grouping, in order. */
  function Keys(sections: seq<Section>): seq<string> {
    seq(|sections|, i requires 0 <= i < |sections| => sections[i].key)
  }

  /**
   * Groups `pages` by their `labels` (one per page). Sections have distinct keys in
   * `Object.keys` order, each is non-empty and holds exactly the pages with its label in page
   * order, every label has its section, and together they hold every page once.
   */
  function Group(pages: seq<Page>, labels: seq<string>): (r: seq<Section>)
    requires |labels| == |pages|
    ensures Keys(r) == OwnKeyOrder(FirstAppearance(labels))
    ensures forall i :: 0 <= i < |r| ==> r[i].name == r[i].key
    ensures forall i :: 0 <= i < |r| ==> r[i].pages == PagesLabelled(pages, labels, r[i].key) && |r[i].pages| > 0
    ensures forall i, j :: 0 <= i < j < |r| ==> r[i].key != r[j].key
    ensures forall k :: k in Keys(r) <==> k in labels
    ensures forall i, j :: 0 <= i < j < |r| && IsArrayIndex(r[j].key) ==>
      IsArrayIndex(r[i].key) && DecimalValue(r[i].key) <= DecimalValue(r[j].key)
    ensures TotalPages(r) == |pages|
  {
    var keys := OwnKeyOrder(FirstAppearance(labels));
    BuildShape(pages, labels, keys);
    BuildTotal(pages, labels, keys);
    Build(pages, labels, keys)
  }

  /** The sections built for the ordered distinct labels are keyed, named and filled as `Group` promises. */
  lemma BuildShape(pages: seq<Page>, labels: seq<string>, keys: seq<string>)
    requires |labels| == |pages|
    requires keys == OwnKeyOrder(FirstAppearance(labels))
    ensures var r := Build(pages, labels, keys);
      && Keys(r) == keys
      && (forall i :: 0 <= i < |r| ==> r[i].name == r[i].key)
      && (forall i :: 0 <= i < |r| ==> r[i].pages == PagesLabelled(pages, labels, r[i].key) && |r[i].pages| > 0)
      && (forall i, j :: 0 <= i < j < |r| ==> r[i].key != r[j].key)
      && (forall k :: k in Keys(r) <==> k in labels)
      && (forall i, j :: 0 <= i < j < |r| && IsArrayIndex(r[j].key) ==>
            IsArrayIndex(r[i].key) && DecimalValue(r[i].key) <= DecimalValue(r[j].key))
  {
    var r := Build(pages, labels, keys);
    assert Keys(r) == keys;
    forall i | 0 <= i < |r|
      ensures |r[i].pages| > 0
    {
      assert keys[i] in keys;
    }
  }

  /** The sections built for every distinct label hold every page. */
  lemma BuildTotal(pages: seq<Page>, labels: seq<string>, keys: seq<string>)
    requires |labels| == |pages|
    requires keys == OwnKeyOrder(FirstAppearance(labels))
    ensures TotalPages(Build(pages, labels, keys)) == |pages|
  {
    TotalOfBuild(pages, labels, keys);
    CountInAll(labels, keys);
  }

  /** Every page lands in exactly one section: the one keyed by its label. */
  lemma EachPageInOneSection(pages: seq<Page>, labels: seq<string>, i: nat)
    requires |labels| == |pages| && i < |pages|
    ensures var r := Group(pages, labels);
      exists j :: 0 <= j < |r| && r[j].key == labels[i] && pages[i] in r[j].pages
    ensures var r := Group(pages, labels);
      forall j, j' :: 0 <= j < |r| && 0 <= j' < |r| && r[j].key == labels[i] && r[j'].key == labels[i] ==> j == j'
  {
    var r := Group(pages, labels);
    assert labels[i] in Keys(r);
    var j :| 0 <= j < |r| && Keys(r)[j] == labels[i];
    LabelledPageIsCollected(pages, labels, i);
  }

  /** The section list the page list shows for `view` and `pages`; `previous` stays when labelling throws. */
  function CreateSections(view: Option<View>, pages: seq<Page>, previous: seq<Section>, fromNow: Json -> string): (r: seq<Section>)
    ensures view.None? || view.value.groupBy.None? ==> r == [Section(RecentLabel, "recent", pages)]
    ensures view.Some? && view.value.groupBy.Some? ==>
      match Labels(pages, GroupPropertyKey(view.value.groupBy.value), fromNow)
      case TypeError => r == previous
      case Normal(labels) => r == Group(pages, labels) && TotalPages(r) == |pages| && forall k :: k in Keys(r) <==> k in labels
  {
    if view.Some? && view.value.groupBy.Some? then
      match Labels(pages, GroupPropertyKey(view.value.groupBy.value), fromNow)
      case TypeError => previous
      case Normal(labels) => Group(pages, labels)
    else [Section(RecentLabel, "recent", pages)]
  }

  /** Pages lacking the group-by property all share one 'Recent' section. */
  lemma MissingPropertyGroupsIntoRecent(pages: seq<Page>, propKey: string, fromNow: Json -> string)
    requires |pages| > 0
    requires forall p :: p in pages ==> propKey !in p.properties
    ensures Labels(pages, propKey, fromNow) == Normal(seq(|pages|, i => RecentLabel))
    ensures Group(pages, seq(|pages|, i => RecentLabel)) == [Section(RecentLabel, RecentLabel, pages)]
  {
    var labels := seq(|pages|, i => RecentLabel);
    AllPagesLabelledRecent(pages, propKey, fromNow);
    FirstAppearanceOfConstant(labels, RecentLabel);
    var r := Group(pages, labels);
    assert Keys(r) == OwnKeyOrder([RecentLabel]);
    assert |r| == 1 && r[0].key in [RecentLabel];
    AllLabelledAreCollected(pages, labels, RecentLabel);
  }

  lemma AllPagesLabelledRecent(pages: seq<Page>, propKey: string, fromNow: Json -> string)
    requires forall p :: p in pages ==> propKey !in p.properties
    ensures Labels(pages, propKey, fromNow) == Normal(seq(|pages|, i => RecentLabel))
  {
    forall i | 0 <= i < |pages| ensures Label(pages[i], propKey, fromNow) == Normal(RecentLabel) {
      assert pages[i] in pages;
    }
    var r := Labels(pages, propKey, fromNow);
    assert r.Normal?;
    assert r.value == seq(|pages|, i => RecentLabel);
  }

  /** A non-empty run of one label has that label as its only distinct element. */
  lemma {:induction false} FirstAppearanceOfConstant(labels: seq<string>, x: string)
    requires |labels| > 0
    requires forall i :: 0 <= i < |labels| ==> labels[i] == x
    ensures FirstAppearance(labels) == [x]
  {
    if |labels| > 1 {
      FirstAppearanceOfConstant(labels[..|labels| - 1], x);
    } else {
      assert labels[..0] == [];
    }
  }

  lemma {:induction false} AllLabelledAreCollected(pages: seq<Page>, labels: seq<string>, k: string)
    requires |labels| == |pages|
    requires forall i :: 0 <= i < |labels| ==> labels[i] == k
    ensures PagesLabelled(pages, labels, k) == pages
  {
    if |pages| > 0 {
      AllLabelledAreCollected(pages[1..], labels[1..], k);
    }
  }

  /**
   * After the group-by is toggled off the view keeps `groupBy: {}`, so the list is still built
   * by the grouping path (keyed on the property 'undefined'): with no pages it has no section
   * at all, where an ungrouped view shows one empty 'Recent' section.
   */
  lemma ToggledOffGroupByStillGroups(view: View, id: string, fromNow: Json -> string)
    requires view.properties.Some? && view.groupBy == Some(GroupBy(Some(id)))
    ensures var off := ToggleGroupBy(Some(view), id).value;
      CreateSections(Some(off), [], [], fromNow) == [] &&
      CreateSections(Some(off.(groupBy := None)), [], [], fromNow) == [Section(RecentLabel, "recent", [])]
  {
    var off := ToggleGroupBy(Some(view), id).value;
    assert Labels([], "undefined", fromNow) == Normal([]);
    assert OwnKeyOrder(FirstAppearance([])) == [];
  }

  /** The members every plain object inherits from `Object.prototype`. */
  const InheritedNames: set<string> := {
    "constructor", "hasOwnProperty", "isPrototypeOf", "propertyIsEnumerable", "toLocaleString",
    "toString", "valueOf", "__proto__", "__defineGetter__", "__defineSetter__",
    "__lookupGetter__", "__lookupSetter__"}

  /** The grouping as written: a label naming an inherited member makes `.push` throw. */
  function GroupAsWritten(pages: seq<Page>, labels: seq<string>): (r: Completion<seq<Section>>)
    requires |labels| == |pages|
    ensures r.TypeError? <==> exists i :: 0 <= i < |labels| && labels[i] in InheritedNames
    ensures r.Normal? ==> r.value == Group(pages, labels)
  {
    if exists i :: 0 <= i < |labels| && labels[i] in InheritedNames then TypeError
    else Normal(Group(pages, labels))
  }

  /** Grouping is on and the labels were read, but one of them names an inherited member. */
  predicate InheritedGroupLabel(view: Option<View>, pages: seq<Page>, fromNow: Json -> string) {
    && view.Some? && view.value.groupBy.Some?
    && var labels := Labels(pages, GroupPropertyKey(view.value.groupBy.value), fromNow);
      labels.Normal? && exists i :: 0 <= i < |labels.value| && labels.value[i] in InheritedNames
  }

  /**
   * The section-building effect as written: it agrees with the corrected effect except that a
   * label naming an inherited member leaves the previous sections in place.
   */
  function CreateSectionsAsWritten(view: Option<View>, pages: seq<Page>, previous: seq<Section>, fromNow: Json -> string): (r: seq<Section>)
    ensures InheritedGroupLabel(view, pages, fromNow) ==> r == previous
    ensures !InheritedGroupLabel(view, pages, fromNow) ==> r == CreateSections(view, pages, previous, fromNow)
  {
    if view.Some? && view.value.groupBy.Some? then
      match Labels(pages, GroupPropertyKey(view.value.groupBy.value), fromNow)
      case TypeError => previous
      case Normal(labels) =>
        match GroupAsWritten(pages, labels)
        case TypeError => previous
        case Normal(sections) => sections
    else [Section(RecentLabel, "recent", pages)]
  }

  /**
   * A page whose select value is named "constructor": as written, grouping by that select
   * throws and the list keeps its previous sections; the corrected grouping gives the page a
   * section of its own.
   */
  lemma InheritedLabelDropsGrouping(view: View, page: Page, propKey: string, fromNow: Json -> string)
    requires view.groupBy == Some(GroupBy(Some(propKey)))
    requires propKey in page.properties
    requires page.properties[propKey] == Property("select", Obj(map["name" := Str("constructor")]))
    ensures CreateSectionsAsWritten(Some(view), [page], [], fromNow) == []
    ensures CreateSections(Some(view), [page], [], fromNow) == [Section("constructor", "constructor", [page])]
  {
    ConstructorPageLabel(page, propKey, fromNow);
    var labels := ["constructor"];
    assert labels[0] in InheritedNames;
    assert GroupAsWritten([page], labels) == TypeError;
    SinglePageGroupsAlone(page, "constructor");
  }

  lemma ConstructorPageLabel(page: Page, propKey: string, fromNow: Json -> string)
    requires propKey in page.properties
    requires page.properties[propKey] == Property("select", Obj(map["name" := Str("constructor")]))
    ensures Labels([page], propKey, fromNow) == Normal(["constructor"])
  {
    var pp := page.properties[propKey];
    assert Payload(pp) == Obj(map["name" := Str("constructor")]);
    assert Extract(page.properties, propKey, fromNow) == Shown(Str("constructor"));
    assert Label(page, propKey, fromNow) == Normal("constructor");
    var ls := Labels([page], propKey, fromNow);
    assert ls.Normal? && |ls.value| == 1;
    assert Label(page, propKey, fromNow) == Normal(ls.value[0]);
    assert ls.value == ["constructor"];
  }

  lemma SinglePageGroupsAlone(page: Page, tag: string)
    ensures Group([page], [tag]) == [Section(tag, tag, [page])]
  {
    FirstAppearanceOfConstant([tag], tag);
    var r := Group([page], [tag]);
    assert Keys(r) == OwnKeyOrder([tag]);
    assert |r| == 1 && r[0].key in [tag];
    assert PagesLabelled([page], [tag], tag) == [page];
  }
}
