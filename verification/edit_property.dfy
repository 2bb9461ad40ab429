/**
 * The "Set <property>" action of a page (ActionEditPageProperty.tsx): the value each action
 * sends for a checkbox, select, date, multi-select or people property, and the one-property
 * patch that carries it. The current time and the Notion call are outside the model: the ISO
 * timestamp is a parameter and a send is just the value handed to the patch.
 */
module EditProperty {
  import opened Common
  import opened Json
  import opened Notion

  /** The page's value for the property's type when both it and the property are truthy, else `null`. */
  function PagePropertyValue(pageProperty: Json, kind: string): (r: Json)
    ensures Truthy(r) || r == Null
    ensures Truthy(r) ==> r == Get(pageProperty, kind)
    ensures !Truthy(pageProperty) ==> r == Null
  {
    if Truthy(pageProperty) && Truthy(Get(pageProperty, kind)) then Get(pageProperty, kind) else Null
  }

  /** The patch for one property: `{[dp.id]: {[dp.type]: value}}`. */
  function PropertyPatch(dp: DatabaseProperty, value: Json): (patch: map<string, Json>)
    ensures patch.Keys == {dp.id}
    ensures patch[dp.id].Obj? && patch[dp.id].fields.Keys == {dp.kind}
  {
    map[dp.id := Obj(map[dp.kind := value])]
  }

  /** Reading the patched property back through the same type tag gives the sent value. */
  lemma PatchReadsBack(dp: DatabaseProperty, value: Json)
    ensures Get(PropertyPatch(dp, value)[dp.id], dp.kind) == value
  {
  }

  /** The options a menu lists: the custom ones when given, else the property's, else none. */
  function MenuOptions(custom: Option<seq<SelectOption>>, dp: DatabaseProperty): (r: seq<SelectOption>)
    ensures custom.Some? ==> r == custom.value
    ensures custom.None? && dp.options.Some? ==> r == dp.options.value
    ensures custom.None? && dp.options.None? ==> r == []
  {
    match custom
    case Some(options) => options
    case None => dp.options.GetOr([])
  }

  /** The checkbox action sends the negation of the current box (an absent box counts as unchecked). */
  function CheckboxValue(pageProperty: Json): (r: Json)
    ensures r.Bool? && (r.b <==> !Truthy(Get(pageProperty, "checkbox")))
  {
    Bool(!Truthy(Get(pageProperty, "checkbox")))
  }

  /** Once the sent value is stored, the next action sends the original state back. */
  lemma CheckboxTwiceRestores(pageProperty: Json)
    ensures CheckboxValue(Obj(map["checkbox" := CheckboxValue(pageProperty)])) == Bool(Truthy(Get(pageProperty, "checkbox")))
  {
  }

  /** The select action for one option: `null` for the "no value" option, otherwise `{id}`. */
  function SelectValue(option: SelectOption): (r: Json)
    ensures r == Null <==> option.id == NullOptionId
    ensures r != Null ==> r.Obj? && r.fields.Keys == {"id"} && Get(r, "id") == Str(option.id)
  {
    if option.id != NullOptionId then Obj(map["id" := Str(option.id)]) else Null
  }

  /**
   * A date action sets one field (`start` or `end`) of the current date value to the given
   * timestamp: an object is updated in place, a missing value becomes a new object. Setting a
   * field on an array adds no element, so the array is sent unchanged; on another truthy
   * primitive the assignment throws (module code is strict).
   */
  function SetDateField(current: Json, field: string, iso: string): (r: Completion<Json>)
    requires Truthy(current) || current == Null
    ensures r.TypeError? <==> current.Bool? || current.Num? || current.Str?
    ensures current.Obj? ==> r == Normal(Obj(current.fields[field := Str(iso)]))
    ensures current == Null ==> r == Normal(Obj(map[field := Str(iso)]))
    ensures current.Arr? ==> r == Normal(current)
  {
    match current
    case Obj(fields) => Normal(Obj(fields[field := Str(iso)]))
    case Arr(_) => Normal(current)
    case Null => Normal(Obj(map[field := Str(iso)]))
    case _ => TypeError
  }

  /** The "start" action followed by the "end" one gives the same value in either order, and only those fields change. */
  lemma DateFieldsCommute(current: Json, startIso: string, endIso: string)
    requires current.Obj? || current == Null
    ensures var s := SetDateField(current, "start", startIso);
      var e := SetDateField(current, "end", endIso);
      s.Normal? && e.Normal? && s.value.Obj? && e.value.Obj? &&
      SetDateField(s.value, "end", endIso) == SetDateField(e.value, "start", startIso)
    ensures var both := SetDateField(SetDateField(current, "start", startIso).value, "end", endIso).value;
      && Get(both, "start") == Str(startIso) && Get(both, "end") == Str(endIso)
      && (forall k :: k != "start" && k != "end" ==> Get(both, k) == Get(current, k))
  {
    var fields := if current.Obj? then current.fields else map[];
    assert fields["start" := Str(startIso)]["end" := Str(endIso)] == fields["end" := Str(endIso)]["start" := Str(startIso)];
  }

  /** The entries a selection-like value holds: none for `null`, the items of an array; anything else has no `forEach`. */
  function Entries(value: Json): (r: Completion<seq<Json>>)
    ensures r.Normal? <==> Nullish(value) || value.Arr?
    ensures value.Arr? ==> r == Normal(value.items)
    ensures Nullish(value) ==> r == Normal([])
  {
    match value
    case Arr(items) => Normal(items)
    case Null => Normal([])
    case Undefined => Normal([])
    case _ => TypeError
  }

  /** The `id` of every entry, in order; reading the id of a `null` entry throws. */
  function EntryIds(entries: seq<Json>): (r: Completion<seq<Json>>)
    ensures r.Normal? <==> forall e :: e in entries ==> !Nullish(e)
    ensures r.Normal? ==> |r.value| == |entries| && forall i :: 0 <= i < |entries| ==> r.value[i] == Get(entries[i], "id")
  {
    if |entries| == 0 then Normal([])
    else
      match (Member(entries[0], "id"), EntryIds(entries[1..]))
      case (Normal(id), Normal(rest)) =>
        assert forall e :: e in entries <==> e == entries[0] || e in entries[1..];
        Normal([id] + rest)
      case _ =>
        assert entries[0] in entries;
        assert forall e :: e in entries[1..] ==> e in entries;
        TypeError
  }

  /** Whether some entry carries the given id. */
  predicate HasEntry(entries: seq<Json>, id: string) {
    exists i :: 0 <= i < |entries| && Get(entries[i], "id") == Str(id)
  }

  /**
   * The multi-select action for one option: when some entry has the option's id, the entries
   * are filtered to those with another id; otherwise `{id}` is appended.
   */
  function ToggleOption(entries: seq<Json>, id: string): (r: seq<Json>)
    ensures HasEntry(entries, id) ==> r == DropId(entries, Str(id))
    ensures HasEntry(entries, id) ==> !HasEntry(r, id) && |r| < |entries|
    ensures !HasEntry(entries, id) ==> r == entries + [Obj(map["id" := Str(id)])]
    ensures forall e :: e in r && Get(e, "id") != Str(id) <==> e in entries && Get(e, "id") != Str(id)
  {
    if HasEntry(entries, id) then
      var r := DropId(entries, Str(id));
      assert !HasEntry(r, id) by {
        forall i | 0 <= i < |r| ensures Get(r[i], "id") != Str(id) {
          assert r[i] in r;
        }
      }
      r
    else entries + [Obj(map["id" := Str(id)])]
  }

  /**
   * `entries.filter(o => o.id !== id)`: the entries whose `id` differs, in order. It shrinks
   * exactly when some entry has the id, and is the identity otherwise.
   */
  function DropId(entries: seq<Json>, id: Json): (r: seq<Json>)
    ensures |r| <= |entries|
    ensures forall e :: e in r <==> e in entries && Get(e, "id") != id
    ensures (exists i :: 0 <= i < |entries| && Get(entries[i], "id") == id) ==> |r| < |entries|
    ensures (forall i :: 0 <= i < |entries| ==> Get(entries[i], "id") != id) ==> r == entries
  {
    if |entries| == 0 then []
    else
      var rest := DropId(entries[1..], id);
      assert forall e :: e in entries <==> e == entries[0] || e in entries[1..];
      TailIds(entries, id);
      if Get(entries[0], "id") != id then [entries[0]] + rest else rest
  }

  /** The test `o.id !== id` as a function value. */
  function IdDiffers(id: Json): Json -> bool {
    (e: Json) => Get(e, "id") != id
  }

  /** The id filter is the general order-preserving filter with the test `o.id !== id`. */
  lemma {:induction false} DropIdIsFilter(entries: seq<Json>, id: Json)
    ensures DropId(entries, id) == Filter(entries, IdDiffers(id))
  {
    if |entries| > 0 {
      DropIdIsFilter(entries[1..], id);
    }
  }

  /** An id on a later entry is an id of the tail; an id on no entry is on no entry of the tail. */
  lemma TailIds(entries: seq<Json>, id: Json)
    requires |entries| > 0
    ensures (exists i :: 0 <= i < |entries| && Get(entries[i], "id") == id) && Get(entries[0], "id") != id ==>
      exists i :: 0 <= i < |entries[1..]| && Get(entries[1..][i], "id") == id
    ensures (forall i :: 0 <= i < |entries| ==> Get(entries[i], "id") != id) ==>
      forall i :: 0 <= i < |entries[1..]| ==> Get(entries[1..][i], "id") != id
  {
    if (exists i :: 0 <= i < |entries| && Get(entries[i], "id") == id) && Get(entries[0], "id") != id {
      var i :| 0 <= i < |entries| && Get(entries[i], "id") == id;
      assert entries[1..][i - 1] == entries[i];
    }
    forall i | 0 <= i < |entries[1..]| ensures entries[1..][i] == entries[i + 1] {
    }
  }

  /** The id filter distributes over concatenation, so the entries it keeps stay in their order. */
  lemma DropIdAppend(a: seq<Json>, b: seq<Json>, id: Json)
    ensures DropId(a + b, id) == DropId(a, id) + DropId(b, id)
  {
    DropIdIsFilter(a + b, id);
    DropIdIsFilter(a, id);
    DropIdIsFilter(b, id);
    FilterAppend(a, b, IdDiffers(id));
  }

  /** Toggling an unselected option twice restores the entries exactly. */
  lemma ToggleUnselectedTwice(entries: seq<Json>, id: string)
    requires !HasEntry(entries, id)
    ensures ToggleOption(ToggleOption(entries, id), id) == entries
  {
    var added := entries + [Obj(map["id" := Str(id)])];
    assert Get(added[|entries|], "id") == Str(id);
    assert HasEntry(added, id);
    DropAppended(entries, id);
  }

  /** Filtering out an id from entries without it plus one `{id}` entry gives back the entries. */
  lemma DropAppended(entries: seq<Json>, id: string)
    requires !HasEntry(entries, id)
    ensures DropId(entries + [Obj(map["id" := Str(id)])], Str(id)) == entries
  {
    var x := Obj(map["id" := Str(id)]);
    DropIdAppend(entries, [x], Str(id));
    assert [x][1..] == [];
    assert DropId([x], Str(id)) == [];
  }

  /** Toggling a selected option twice leaves the option selected and every other entry in place. */
  lemma ToggleSelectedTwice(entries: seq<Json>, id: string)
    requires HasEntry(entries, id)
    ensures var twice := ToggleOption(ToggleOption(entries, id), id);
      HasEntry(twice, id) && forall e :: Get(e, "id") != Str(id) ==> (e in twice <==> e in entries)
  {
    var once := ToggleOption(entries, id);
    var twice := once + [Obj(map["id" := Str(id)])];
    assert Get(twice[|once|], "id") == Str(id);
  }

  /**
   * The ids the multi-select menu marks as selected, read through the guarded page value: none
   * when the page has no (truthy) value, the entry ids of an array, a throw for anything else.
   */
  function SelectedIds(pageProperty: Json): (r: Completion<seq<Json>>)
    ensures !Truthy(pageProperty) || !Truthy(Get(pageProperty, "multi_select")) ==> r == Normal([])
    ensures Truthy(pageProperty) && Get(pageProperty, "multi_select").Arr? ==>
      r == EntryIds(Get(pageProperty, "multi_select").items)
    ensures Truthy(pageProperty) && Truthy(Get(pageProperty, "multi_select")) && !Get(pageProperty, "multi_select").Arr? ==>
      r.TypeError?
  {
    match Entries(PagePropertyValue(pageProperty, "multi_select"))
    case Normal(entries) => EntryIds(entries)
    case TypeError => TypeError
  }

  /**
   * The ids the people menu reads as written, from `pageProperty[dp.type]`: a missing page
   * value throws, a nullish people value gives none, an array gives its entry ids, and any
   * other value (including `false`, `0` and `""`) has no `forEach` and throws.
   */
  function PeopleIdsAsWritten(pageProperty: Json): (r: Completion<seq<Json>>)
    ensures Nullish(pageProperty) ==> r.TypeError?
    ensures !Nullish(pageProperty) && Nullish(Get(pageProperty, "people")) ==> r == Normal([])
    ensures !Nullish(pageProperty) && Get(pageProperty, "people").Arr? ==> r == EntryIds(Get(pageProperty, "people").items)
    ensures !Nullish(Get(pageProperty, "people")) && !Get(pageProperty, "people").Arr? ==> r.TypeError?
  {
    match Member(pageProperty, "people")
    case TypeError => TypeError
    case Normal(value) =>
      match Entries(value)
      case Normal(entries) => EntryIds(entries)
      case TypeError => TypeError
  }

  /** A page without the property, or with a `false` value, makes the people menu throw. */
  lemma PeopleMenuThrowsOnMissingValue()
    ensures PeopleIdsAsWritten(Undefined).TypeError?
    ensures PeopleIdsAsWritten(Obj(map["people" := Bool(false)])).TypeError?
  {
  }

  /** The people ids read like the other cases, through the guarded page value. */
  function PeopleIds(pageProperty: Json): (r: Completion<seq<Json>>)
    ensures !Truthy(pageProperty) ==> r == Normal([])
    ensures !Truthy(Get(pageProperty, "people")) ==> r == Normal([])
    ensures Truthy(pageProperty) && Truthy(Get(pageProperty, "people")) ==> r == PeopleIdsAsWritten(pageProperty)
  {
    match Entries(PagePropertyValue(pageProperty, "people"))
    case Normal(entries) => EntryIds(entries)
    case TypeError => TypeError
  }

  /** The test `!peopleIds.includes(user.id)` as a function value. */
  function NotAmong(ids: seq<Json>): SelectOption -> bool {
    (u: SelectOption) => Str(u.id) !in ids
  }

  /** The users the people menu offers to add: those whose id is not already present, in order. */
  function AddableUsers(users: seq<SelectOption>, ids: seq<Json>): (r: seq<SelectOption>)
    ensures forall u :: u in r <==> u in users && Str(u.id) !in ids
  {
    Filter(users, NotAmong(ids))
  }

  /** With nobody present, every user is offered, in order. */
  lemma EveryUserAddableWhenNobodyPresent(users: seq<SelectOption>)
    ensures AddableUsers(users, []) == users
  {
    FilterKeepsAll(users, NotAmong([]));
  }

  /** Adding an offered user never introduces a second entry with the same id. */
  lemma AddingOfferedUserKeepsIdsDistinct(entries: seq<Json>, users: seq<SelectOption>, u: SelectOption)
    requires EntryIds(entries).Normal? && NoDup(EntryIds(entries).value)
    requires u in AddableUsers(users, EntryIds(entries).value)
    ensures var added := entries + [Obj(map["id" := Str(u.id)])];
      EntryIds(added).Normal? && NoDup(EntryIds(added).value)
  {
    var ids := EntryIds(entries).value;
    var added := entries + [Obj(map["id" := Str(u.id)])];
    var ids' := EntryIds(added).value;
    assert ids' == ids + [Str(u.id)];
  }

  /** The action menu of a property: what each of its actions would send, in order. */
  datatype Menu = Unsupported | Actions(sends: seq<Completion<Json>>)

  const EditableTypes: set<string> := {"checkbox", "select", "date", "multi_select", "people"}

  function SelectValues(options: seq<SelectOption>): (r: seq<Completion<Json>>)
    ensures |r| == |options|
    ensures forall i :: 0 <= i < |options| ==> r[i] == Normal(SelectValue(options[i]))
  {
    if |options| == 0 then [] else [Normal(SelectValue(options[0]))] + SelectValues(options[1..])
  }

  function ToggleValues(entries: seq<Json>, options: seq<SelectOption>): (r: seq<Completion<Json>>)
    ensures |r| == |options|
    ensures forall i :: 0 <= i < |options| ==> r[i] == Normal(Arr(ToggleOption(entries, options[i].id)))
  {
    if |options| == 0 then [] else [Normal(Arr(ToggleOption(entries, options[0].id)))] + ToggleValues(entries, options[1..])
  }

  /** One removal per present entry: the entries without that entry's id. */
  function RemovalValues(entries: seq<Json>, present: seq<Json>): (r: seq<Completion<Json>>)
    requires forall e :: e in present ==> !Nullish(e)
    ensures |r| == |present|
    ensures forall i :: 0 <= i < |present| ==> r[i] == Normal(Arr(DropId(entries, Get(present[i], "id"))))
  {
    if |present| == 0 then []
    else
      assert forall e :: e in present[1..] ==> e in present;
      [Normal(Arr(DropId(entries, Get(present[0], "id"))))] + RemovalValues(entries, present[1..])
  }

  /**
   * The removal action of a present person sends the entries without that person: no entry
   * with its id is left, the list is shorter, and every entry with another id stays.
   */
  lemma RemovingUserClearsId(entries: seq<Json>, i: nat)
    requires forall e :: e in entries ==> !Nullish(e)
    requires i < |entries|
    ensures var sent := RemovalValues(entries, entries)[i];
      var id := Get(entries[i], "id");
      && sent.Normal? && sent.value.Arr?
      && |sent.value.items| < |entries|
      && (forall e :: e in sent.value.items ==> Get(e, "id") != id)
      && (forall e :: e in entries && Get(e, "id") != id ==> e in sent.value.items)
  {
  }

  /**
   * One addition per offered user: the entries with `{id}` appended. (The source pushes into
   * the page's own array; the model sends a new sequence.)
   */
  function AdditionValues(entries: seq<Json>, users: seq<SelectOption>): (r: seq<Completion<Json>>)
    ensures |r| == |users|
    ensures forall i :: 0 <= i < |users| ==> r[i] == Normal(Arr(entries + [Obj(map["id" := Str(users[i].id)])]))
  {
    if |users| == 0 then [] else [Normal(Arr(entries + [Obj(map["id" := Str(users[0].id)])]))] + AdditionValues(entries, users[1..])
  }

  /**
   * The action menu for property `dp` of a page, given the people ids the menu reads: a
   * checkbox toggle; one action per select option; a "now" action for start and one for end;
   * one toggle per multi-select option; one removal per present person and one addition per
   * absent user. Other types have no menu. Reading the current entries can throw.
   */
  function MenuWith(dp: DatabaseProperty, pageProperty: Json, custom: Option<seq<SelectOption>>, iso: string, peopleIds: Completion<seq<Json>>): (r: Completion<Menu>)
    ensures r == Normal(Unsupported) <==> dp.kind !in EditableTypes
    ensures r.TypeError? ==> dp.kind == "multi_select" || dp.kind == "people"
    ensures dp.kind == "people" && peopleIds.TypeError? ==> r.TypeError?
    ensures dp.kind == "checkbox" ==> r == Normal(Actions([Normal(CheckboxValue(pageProperty))]))
    ensures dp.kind == "select" ==> r == Normal(Actions(SelectValues(MenuOptions(custom, dp))))
    ensures dp.kind == "date" ==> r == Normal(Actions([
      SetDateField(PagePropertyValue(pageProperty, "date"), "start", iso),
      SetDateField(PagePropertyValue(pageProperty, "date"), "end", iso)]))
    ensures dp.kind == "multi_select" ==>
      (r.Normal? <==> Entries(PagePropertyValue(pageProperty, "multi_select")).Normal? && SelectedIds(pageProperty).Normal?)
    ensures dp.kind == "multi_select" && r.Normal? ==>
      Entries(PagePropertyValue(pageProperty, "multi_select")).Normal? &&
      r == Normal(Actions(ToggleValues(Entries(PagePropertyValue(pageProperty, "multi_select")).value, MenuOptions(custom, dp))))
    ensures dp.kind == "people" ==> r == PeopleMenu(PagePropertyValue(pageProperty, "people"), MenuOptions(custom, dp), peopleIds)
  {
    var options := MenuOptions(custom, dp);
    var value := PagePropertyValue(pageProperty, dp.kind);
    if dp.kind == "checkbox" then Normal(Actions([Normal(CheckboxValue(pageProperty))]))
    else if dp.kind == "select" then Normal(Actions(SelectValues(options)))
    else if dp.kind == "date" then Normal(Actions([SetDateField(value, "start", iso), SetDateField(value, "end", iso)]))
    else if dp.kind == "multi_select" then
      (match (Entries(value), SelectedIds(pageProperty))
       case (Normal(entries), Normal(_)) => Normal(Actions(ToggleValues(entries, options)))
       case _ => TypeError)
    else if dp.kind == "people" then PeopleMenu(value, options, peopleIds)
    else Normal(Unsupported)
  }

  /**
   * The people menu for the current value and the ids read for it: one removal per present
   * person, then one addition per user not among the ids. Iterating a value that is not an
   * array, or reading a `null` person, throws.
   */
  function PeopleMenu(value: Json, users: seq<SelectOption>, peopleIds: Completion<seq<Json>>): (r: Completion<Menu>)
    ensures r.Normal? <==> (value.Arr? || Nullish(value)) && peopleIds.Normal? && EntryIds(Entries(value).value).Normal?
    ensures Nullish(value) && peopleIds == Normal([]) ==> r == Normal(Actions(AdditionValues([], users)))
  {
    match (Entries(value), peopleIds)
    case (Normal(entries), Normal(ids)) =>
      if EntryIds(entries).TypeError? then TypeError
      else
        assert Nullish(value) ==> entries == [] && RemovalValues(entries, entries) == [];
        assert [] + AdditionValues([], users) == AdditionValues([], users);
        EveryUserAddableWhenNobodyPresent(users);
        Normal(Actions(RemovalValues(entries, entries) + AdditionValues(entries, AddableUsers(users, ids))))
    case _ => TypeError
  }

  /**
   * The action menu as written. Only the five editable types have one, and only multi-select
   * and people can throw while it is built. The people ids are read from
   * `pageProperty[dp.type]`, so a page without a value for the property, or with a falsy one
   * that is not `null`/`undefined`, makes the menu throw.
   */
  function EditMenu(dp: DatabaseProperty, pageProperty: Json, custom: Option<seq<SelectOption>>, iso: string): (r: Completion<Menu>)
    ensures r == Normal(Unsupported) <==> dp.kind !in EditableTypes
    ensures r.TypeError? ==> dp.kind == "multi_select" || dp.kind == "people"
    ensures dp.kind == "checkbox" ==> r == Normal(Actions([Normal(CheckboxValue(pageProperty))]))
    ensures dp.kind == "select" ==> r == Normal(Actions(SelectValues(MenuOptions(custom, dp))))
    ensures dp.kind == "date" ==> r == Normal(Actions([
      SetDateField(PagePropertyValue(pageProperty, "date"), "start", iso),
      SetDateField(PagePropertyValue(pageProperty, "date"), "end", iso)]))
    ensures dp.kind == "multi_select" ==>
      (r.Normal? <==> Entries(PagePropertyValue(pageProperty, "multi_select")).Normal? && SelectedIds(pageProperty).Normal?)
    ensures dp.kind == "multi_select" && r.Normal? ==>
      Entries(PagePropertyValue(pageProperty, "multi_select")).Normal? &&
      r == Normal(Actions(ToggleValues(Entries(PagePropertyValue(pageProperty, "multi_select")).value, MenuOptions(custom, dp))))
    ensures dp.kind == "people" ==>
      r == PeopleMenu(PagePropertyValue(pageProperty, "people"), MenuOptions(custom, dp), PeopleIdsAsWritten(pageProperty))
    ensures dp.kind == "people" && Nullish(pageProperty) ==> r.TypeError?
    ensures dp.kind == "people" && !Nullish(Get(pageProperty, "people")) && !Truthy(Get(pageProperty, "people")) ==> r.TypeError?
  {
    MenuWith(dp, pageProperty, custom, iso, PeopleIdsAsWritten(pageProperty))
  }

  /**
   * The action menu with the people ids read through the guarded page value: a page without
   * people gets no removal and an addition for every user.
   */
  function EditMenuCorrected(dp: DatabaseProperty, pageProperty: Json, custom: Option<seq<SelectOption>>, iso: string): (r: Completion<Menu>)
    ensures r == Normal(Unsupported) <==> dp.kind !in EditableTypes
    ensures r.TypeError? ==> dp.kind == "multi_select" || dp.kind == "people"
    ensures dp.kind == "checkbox" ==> r == Normal(Actions([Normal(CheckboxValue(pageProperty))]))
    ensures dp.kind == "select" ==> r == Normal(Actions(SelectValues(MenuOptions(custom, dp))))
    ensures dp.kind == "date" ==> r == Normal(Actions([
      SetDateField(PagePropertyValue(pageProperty, "date"), "start", iso),
      SetDateField(PagePropertyValue(pageProperty, "date"), "end", iso)]))
    ensures dp.kind == "multi_select" ==>
      (r.Normal? <==> Entries(PagePropertyValue(pageProperty, "multi_select")).Normal? && SelectedIds(pageProperty).Normal?)
    ensures dp.kind == "multi_select" && r.Normal? ==>
      Entries(PagePropertyValue(pageProperty, "multi_select")).Normal? &&
      r == Normal(Actions(ToggleValues(Entries(PagePropertyValue(pageProperty, "multi_select")).value, MenuOptions(custom, dp))))
    ensures dp.kind == "people" ==>
      r == PeopleMenu(PagePropertyValue(pageProperty, "people"), MenuOptions(custom, dp), PeopleIds(pageProperty))
    ensures dp.kind == "people" && !Truthy(Get(pageProperty, "people")) ==>
      r == Normal(Actions(AdditionValues([], MenuOptions(custom, dp))))
  {
    NoPeopleMenu(dp, pageProperty, custom, iso);
    MenuWith(dp, pageProperty, custom, iso, PeopleIds(pageProperty))
  }

  /** With no people value, the guarded read finds nobody, so there is no removal and every user can be added. */
  lemma NoPeopleMenu(dp: DatabaseProperty, pageProperty: Json, custom: Option<seq<SelectOption>>, iso: string)
    ensures dp.kind == "people" && !Truthy(Get(pageProperty, "people")) ==>
      MenuWith(dp, pageProperty, custom, iso, PeopleIds(pageProperty)) == Normal(Actions(AdditionValues([], MenuOptions(custom, dp))))
  {
    if dp.kind == "people" && !Truthy(Get(pageProperty, "people")) {
      assert PagePropertyValue(pageProperty, "people") == Null;
      assert PeopleIds(pageProperty) == Normal([]);
    }
  }

  /** The correction changes only the people menu of a page without a truthy people value. */
  lemma MenuCorrectionIsLocal(dp: DatabaseProperty, pageProperty: Json, custom: Option<seq<SelectOption>>, iso: string)
    requires dp.kind != "people" || (Truthy(pageProperty) && Truthy(Get(pageProperty, "people")))
    ensures EditMenu(dp, pageProperty, custom, iso) == EditMenuCorrected(dp, pageProperty, custom, iso)
  {
  }

  /** With no people value, the menu as written throws where the corrected one offers every user. */
  lemma MissingPeopleMenu(dp: DatabaseProperty, custom: Option<seq<SelectOption>>, iso: string)
    requires dp.kind == "people"
    ensures EditMenu(dp, Undefined, custom, iso).TypeError?
    ensures EditMenuCorrected(dp, Undefined, custom, iso) == Normal(Actions(AdditionValues([], MenuOptions(custom, dp))))
  {
  }
}
