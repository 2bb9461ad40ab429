/**
 * The per-database view preferences (`DatabaseView`) and the edits the page list offers:
 * toggling a property's visibility and toggling the group-by property (search-page.tsx), plus
 * loading the stored view with its fallback and saving an edited one.
 */
module DatabaseViews {
  import opened Common
  import opened Json
  import Storage

  /** The `groupBy` record; toggling the group-by off deletes only its `id`, leaving `{}`. */
  datatype GroupBy = GroupBy(id: Option<string>)

  /** The option ids assigned to each of the five Kanban lanes. */
  datatype Lanes = Lanes(
    backlog: seq<string>,
    notStarted: seq<string>,
    started: seq<string>,
    completed: seq<string>,
    canceled: seq<string>)

  /** The saved Kanban configuration: the status property and its lanes. */
  datatype Kanban = Kanban(propertyId: Option<string>, lanes: Lanes)

  /**
   * A stored view. `properties` maps the ids of visible properties to a marker (`{}`); `None`
   * stands for a missing or falsy field. `sortBy` is carried along opaquely; `kind` is the
   * view's `type` ('list' or 'kanban').
   */
  datatype View = View(
    properties: Option<map<string, Json>>,
    groupBy: Option<GroupBy>,
    sortBy: Json,
    kind: Option<string>,
    name: Option<string>,
    kanban: Option<Kanban>)

  /** The view used when none is stored: `{properties: {}}`. */
  const EmptyView := View(Some(map[]), None, Undefined, None, None, None)

  /** A property counts as visible when the view maps its id to a truthy value. */
  predicate IsVisible(view: View, id: string) {
    view.properties.Some? && id in view.properties.value && Truthy(view.properties.value[id])
  }

  /**
   * The "Properties..." action for property `id`: on a copy of the view, delete the id when it
   * is visible, otherwise set it to `{}`. Nothing is saved (`None`) when there is no view or
   * the view has no `properties`.
   */
  function ToggleVisibility(view: Option<View>, id: string): (r: Option<View>)
    ensures r.None? <==> view.None? || view.value.properties.None?
    ensures r.Some? ==> r.value.properties.Some? && r.value == view.value.(properties := r.value.properties)
    ensures r.Some? ==> IsVisible(r.value, id) == !IsVisible(view.value, id)
    ensures r.Some? ==>
      var before := view.value.properties.value;
      var after := r.value.properties.value;
      && (IsVisible(view.value, id) ==> after.Keys == before.Keys - {id})
      && (!IsVisible(view.value, id) ==> after.Keys == before.Keys + {id} && after[id] == Obj(map[]))
      && (forall k :: k in before && k != id ==> k in after && after[k] == before[k])
  {
    if view.None? || view.value.properties.None? then None
    else
      var v := view.value;
      var ps := v.properties.value;
      var ps' := if IsVisible(v, id) then ps - {id} else ps[id := Obj(map[])];
      Some(v.(properties := Some(ps')))
  }

  /**
   * Toggling a property twice restores the set of visible ids; when the id was absent the view
   * is restored exactly. This relies on a present entry being truthy.
   */
  lemma ToggleVisibilityTwice(view: View, id: string)
    requires view.properties.Some?
    requires id !in view.properties.value || Truthy(view.properties.value[id])
    ensures var once := ToggleVisibility(Some(view), id);
      once.Some? && ToggleVisibility(once, id).Some? &&
      ToggleVisibility(once, id).value.properties.value.Keys == view.properties.value.Keys
    ensures id !in view.properties.value ==> ToggleVisibility(ToggleVisibility(Some(view), id), id) == Some(view)
  {
    var ps := view.properties.value;
    if id !in ps {
      var twice := ToggleVisibility(ToggleVisibility(Some(view), id), id).value;
      assert twice.properties.value == ps[id := Obj(map[])] - {id};
      assert ps[id := Obj(map[])] - {id} == ps;
    }
  }

  /** A stored falsy entry is treated as hidden: the first toggle sets it to `{}`, the second deletes it. */
  lemma FalsyEntryIsDroppedByTwoToggles(view: View, id: string)
    requires view.properties.Some? && id in view.properties.value && !Truthy(view.properties.value[id])
    ensures var twice := ToggleVisibility(ToggleVisibility(Some(view), id), id);
      twice.Some? && twice.value.properties.value.Keys == view.properties.value.Keys - {id}
  {
  }

  /**
   * The "Group by..." action for property `id`. When the view's group-by already names `id`,
   * only the `id` field is deleted (the `groupBy` record stays, now `{}`); otherwise `groupBy`
   * becomes `{id}`. The copy exists only when the view has `properties`; without it the
   * assignment throws and nothing is saved.
   */
  function ToggleGroupBy(view: Option<View>, id: string): (r: Completion<View>)
    ensures r.TypeError? <==> view.None? || view.value.properties.None?
    ensures r.Normal? ==> r.value == view.value.(groupBy := r.value.groupBy)
    ensures r.Normal? && view.value.groupBy == Some(GroupBy(Some(id))) ==> r.value.groupBy == Some(GroupBy(None))
    ensures r.Normal? && view.value.groupBy != Some(GroupBy(Some(id))) ==> r.value.groupBy == Some(GroupBy(Some(id)))
  {
    if view.None? || view.value.properties.None? then TypeError
    else if view.value.groupBy == Some(GroupBy(Some(id))) then Normal(view.value.(groupBy := Some(GroupBy(None))))
    else Normal(view.value.(groupBy := Some(GroupBy(Some(id)))))
  }

  /** Grouping by `id` and then toggling `id` again never returns to a view without `groupBy`. */
  lemma GroupByToggleOffKeepsRecord(view: View, id: string)
    requires view.properties.Some? && view.groupBy.None?
    ensures ToggleGroupBy(Some(view), id).Normal?
    ensures var on := ToggleGroupBy(Some(view), id).value;
      ToggleGroupBy(Some(on), id) == Normal(view.(groupBy := Some(GroupBy(None))))
  {
  }

  /** Turning a group-by off and on again restores the view exactly. */
  lemma GroupByToggleTwiceFromGrouped(view: View, id: string)
    requires view.properties.Some? && view.groupBy == Some(GroupBy(Some(id)))
    ensures var off := ToggleGroupBy(Some(view), id).value;
      ToggleGroupBy(Some(off), id) == Normal(view)
  {
  }

  /** The view the database list starts from: the stored one when it has `properties`, else `{properties: {}}`. */
  function LoadView(stored: Option<View>): (v: View)
    ensures v.properties.Some?
    ensures stored.Some? && stored.value.properties.Some? ==> v == stored.value
    ensures stored.None? || stored.value.properties.None? ==> v == EmptyView
  {
    if stored.Some? && stored.value.properties.Some? then stored.value else EmptyView
  }

  /** `saveDatabaseView`: the view becomes the displayed one and is written under the database's view key. */
  function SaveView(store: map<string, View>, databaseId: string, v: View): (store': map<string, View>)
    ensures store'.Keys == store.Keys + {Storage.ViewKey(databaseId)}
    ensures store'[Storage.ViewKey(databaseId)] == v
    ensures forall k :: k in store && k != Storage.ViewKey(databaseId) ==> store'[k] == store[k]
  {
    store[Storage.ViewKey(databaseId) := v]
  }

  /** The stored view of a database, if any. */
  function StoredView(store: map<string, View>, databaseId: string): Option<View> {
    var key := Storage.ViewKey(databaseId);
    if key in store then Some(store[key]) else None
  }

  /**
   * Saving a view and loading it back yields the same view, for every view an edit can
   * produce (they all have `properties`); other databases' views are unaffected.
   */
  lemma SaveThenLoad(store: map<string, View>, databaseId: string, other: string, v: View)
    requires v.properties.Some?
    requires other != databaseId
    ensures LoadView(StoredView(SaveView(store, databaseId, v), databaseId)) == v
    ensures StoredView(SaveView(store, databaseId, v), other) == StoredView(store, other)
  {
    Storage.KeysNeverCollide(databaseId, other);
  }
}
