/**
 * The database view form (DatabaseViewForm.tsx): assembling the view saved on submit, the
 * Kanban sub-form the view type selects, the default status property, and the default lane
 * assignment shown when the status property changes.
 */
module ViewForm {
  import opened Common
  import opened Json
  import opened Notion
  import opened DatabaseViews

  /**
   * The submitted form values. `None` stands for a field the form did not hold; the lane
   * fields are the `kanban::<lane>_ids` tag pickers.
   */
  datatype FormValues = FormValues(
    kind: Option<string>,
    name: Option<string>,
    kanbanPropertyId: Option<string>,
    backlog: Option<seq<string>>,
    notStarted: Option<seq<string>>,
    started: Option<seq<string>>,
    completed: Option<seq<string>>,
    canceled: Option<seq<string>>)

  /** A form string is used only when truthy, i.e. present and non-empty. */
  predicate Filled(s: Option<string>) {
    s.Some? && s.value != ""
  }

  /** The lanes read from the form: a lane the form did not hold is empty. */
  function SubmittedLanes(values: FormValues): (l: Lanes)
    ensures values.backlog.Some? ==> l.backlog == values.backlog.value
    ensures values.backlog.None? ==> l.backlog == []
    ensures values.notStarted.Some? ==> l.notStarted == values.notStarted.value
    ensures values.notStarted.None? ==> l.notStarted == []
    ensures values.started.Some? ==> l.started == values.started.value
    ensures values.started.None? ==> l.started == []
    ensures values.completed.Some? ==> l.completed == values.completed.value
    ensures values.completed.None? ==> l.completed == []
    ensures values.canceled.Some? ==> l.canceled == values.canceled.value
    ensures values.canceled.None? ==> l.canceled == []
  {
    Lanes(values.backlog.GetOr([]), values.notStarted.GetOr([]), values.started.GetOr([]),
          values.completed.GetOr([]), values.canceled.GetOr([]))
  }

  /**
   * The view saved on submit: visible properties and sort order are carried over (`{}` when
   * missing), the type defaults to 'list', an empty name is dropped, the group-by is not
   * carried over, and a Kanban record is attached exactly when the submitted type is 'kanban'.
   */
  function Submit(view: View, values: FormValues): (r: View)
    ensures r.properties == Some(view.properties.GetOr(map[]))
    ensures Truthy(r.sortBy) && (Truthy(view.sortBy) ==> r.sortBy == view.sortBy)
    ensures !Truthy(view.sortBy) ==> r.sortBy == Obj(map[])
    ensures r.kind.Some? && r.kind.value != ""
    ensures r.kind.value == "list" <==> !Filled(values.kind) || values.kind.value == "list"
    ensures Filled(values.kind) ==> r.kind == values.kind
    ensures Filled(r.name) <==> r.name.Some?
    ensures r.name.Some? <==> Filled(values.name)
    ensures r.name.Some? ==> r.name == values.name
    ensures r.groupBy.None?
    ensures r.kanban.Some? <==> values.kind == Some("kanban")
    ensures r.kanban.Some? ==> r.kanban.value.propertyId == values.kanbanPropertyId && r.kanban.value.lanes == SubmittedLanes(values)
  {
    View(
      Some(view.properties.GetOr(map[])),
      None,
      if Truthy(view.sortBy) then view.sortBy else Obj(map[]),
      Some(if Filled(values.kind) then values.kind.value else "list"),
      if Filled(values.name) then values.name else None,
      if values.kind == Some("kanban") then Some(Kanban(values.kanbanPropertyId, SubmittedLanes(values))) else None)
  }

  /** Submitting the same values again changes nothing. */
  lemma SubmitIsIdempotent(view: View, values: FormValues)
    ensures Submit(Submit(view, values), values) == Submit(view, values)
  {
  }

  /** Saving through the form drops a grouping the view had. */
  lemma SubmitDropsGroupBy(view: View, values: FormValues, id: string)
    requires view.groupBy == Some(GroupBy(Some(id)))
    ensures Submit(view, values).groupBy != view.groupBy
  {
  }

  /** The name and type the form is pre-filled with: the view's, when truthy. */
  function Prefill(view: View): (r: (Option<string>, Option<string>))
    ensures r.0.Some? <==> Filled(view.name)
    ensures r.1.Some? <==> Filled(view.kind)
    ensures r.0.Some? ==> r.0 == view.name
    ensures r.1.Some? ==> r.1 == view.kind
  {
    (if Filled(view.name) then view.name else None, if Filled(view.kind) then view.kind else None)
  }

  /** Re-opening the form on a submitted view pre-fills exactly the submitted name, and the type that was saved. */
  lemma SubmitThenPrefill(view: View, values: FormValues)
    ensures Prefill(Submit(view, values)).0 == (if Filled(values.name) then values.name else None)
    ensures Prefill(Submit(view, values)).1 == Some(if Filled(values.kind) then values.kind.value else "list")
  {
  }

  predicate IsSelect(p: DatabaseProperty) {
    p.kind == "select"
  }

  /** The properties offered as the Kanban status: those of type 'select', in schema order. */
  function SelectProperties(properties: seq<DatabaseProperty>): (r: seq<DatabaseProperty>)
    ensures forall p :: p in r <==> p in properties && p.kind == "select"
    ensures |r| == 0 <==> forall p :: p in properties ==> p.kind != "select"
  {
    var r := Filter(properties, IsSelect);
    assert |r| > 0 ==> r[0] in r;
    r
  }

  /** What the view-type effect leaves below the type dropdown. */
  datatype SubForm = NoSubForm | KanbanSubForm(selectProperties: seq<DatabaseProperty>)

  /** The sub-form and whether the 'Select Property Required' toast is shown. */
  datatype SubFormUpdate = SubFormUpdate(form: SubForm, toast: bool)

  /**
   * The view-type effect as written: for 'kanban' without a select property it shows the toast
   * and clears the sub-form, but does not stop, so the Kanban sub-form is set right after.
   */
  function SubFormAsWritten(viewType: Option<string>, properties: seq<DatabaseProperty>): (r: SubFormUpdate)
    ensures r.toast <==> viewType == Some("kanban") && |SelectProperties(properties)| == 0
    ensures r.form.KanbanSubForm? <==> viewType == Some("kanban")
  {
    var select := SelectProperties(properties);
    if viewType == Some("kanban") then SubFormUpdate(KanbanSubForm(select), |select| == 0)
    else SubFormUpdate(NoSubForm, false)
  }

  /** With no select property, the Kanban sub-form is shown anyway, with an empty status dropdown. */
  lemma KanbanSubFormShownDespiteToast(properties: seq<DatabaseProperty>)
    requires forall p :: p in properties ==> p.kind != "select"
    ensures SubFormAsWritten(Some("kanban"), properties) == SubFormUpdate(KanbanSubForm([]), true)
  {
  }

  /** The view-type effect as intended: after the toast no Kanban sub-form is shown. */
  function SubFormFor(viewType: Option<string>, properties: seq<DatabaseProperty>): (r: SubFormUpdate)
    ensures r.toast <==> viewType == Some("kanban") && |SelectProperties(properties)| == 0
    ensures r.form.KanbanSubForm? <==> viewType == Some("kanban") && !r.toast
    ensures r.form.KanbanSubForm? ==> r.form.selectProperties == SelectProperties(properties)
    ensures r.form.KanbanSubForm? ==> |r.form.selectProperties| > 0 && forall p :: p in r.form.selectProperties ==> p.kind == "select"
  {
    var select := SelectProperties(properties);
    if viewType == Some("kanban") && |select| > 0 then SubFormUpdate(KanbanSubForm(select), false)
    else SubFormUpdate(NoSubForm, viewType == Some("kanban"))
  }

  /** The two agree except when the toast is shown. */
  lemma SubFormAgreesUnlessToast(viewType: Option<string>, properties: seq<DatabaseProperty>)
    ensures SubFormAsWritten(viewType, properties).toast == SubFormFor(viewType, properties).toast
    ensures !SubFormFor(viewType, properties).toast ==> SubFormAsWritten(viewType, properties) == SubFormFor(viewType, properties)
  {
  }

  /** The status property pre-selected: the saved one when truthy, else the first select property, if any. */
  function DefaultStatusPropertyId(saved: Option<Kanban>, selectProperties: seq<DatabaseProperty>): (r: Option<string>)
    ensures saved.Some? && Filled(saved.value.propertyId) ==> r == saved.value.propertyId
    ensures !(saved.Some? && Filled(saved.value.propertyId)) ==>
      (r.Some? <==> |selectProperties| > 0) && (r.Some? ==> r.value == selectProperties[0].id)
  {
    if saved.Some? && Filled(saved.value.propertyId) then saved.value.propertyId
    else if |selectProperties| > 0 then Some(selectProperties[0].id)
    else None
  }

  /**
   * Without a saved status, the default is offered exactly when the schema has a select
   * property, and it names one of the select properties the dropdown lists.
   */
  lemma DefaultStatusIsSelectProperty(saved: Option<Kanban>, properties: seq<DatabaseProperty>)
    requires !(saved.Some? && Filled(saved.value.propertyId))
    ensures var r := DefaultStatusPropertyId(saved, SelectProperties(properties));
      r.Some? <==> exists p :: p in properties && p.kind == "select"
    ensures var r := DefaultStatusPropertyId(saved, SelectProperties(properties));
      r.Some? ==> FindProperty(SelectProperties(properties), r.value).Some?
  {
    var select := SelectProperties(properties);
    if |select| > 0 {
      assert select[0] in select;
    }
  }

  /** The first property with the given id. */
  function FindProperty(properties: seq<DatabaseProperty>, id: string): (r: Option<DatabaseProperty>)
    ensures r.Some? <==> exists p :: p in properties && p.id == id
    ensures r.Some? ==> r.value in properties && r.value.id == id
    ensures r.Some? ==> exists k :: 0 <= k < |properties| && properties[k] == r.value &&
                                     forall j :: 0 <= j < k ==> properties[j].id != id
  {
    if |properties| == 0 then None
    else if properties[0].id == id then Some(properties[0])
    else FindProperty(properties[1..], id)
  }

  /**
   * Choosing a status property: an empty choice or an id that is not a select property keeps
   * the current one.
   */
  function ChangeStatusProperty(selectProperties: seq<DatabaseProperty>, choice: Option<string>, current: Option<DatabaseProperty>): (r: Option<DatabaseProperty>)
    ensures Filled(choice) && (exists p :: p in selectProperties && p.id == choice.value) ==>
      r.Some? && r.value in selectProperties && r.value.id == choice.value
    ensures !Filled(choice) || (forall p :: p in selectProperties ==> p.id != choice.value) ==> r == current
  {
    if !Filled(choice) then current
    else
      match FindProperty(selectProperties, choice.value)
      case None => current
      case Some(p) => Some(p)
  }

  /** The option ids, in order. */
  function OptionIds(options: seq<SelectOption>): (ids: seq<string>)
    ensures |ids| == |options|
    ensures forall i :: 0 <= i < |options| ==> ids[i] == options[i].id
  {
    if |options| == 0 then [] else [options[0].id] + OptionIds(options[1..])
  }

  predicate IsStatusOption(o: SelectOption) {
    o.id != NullOptionId
  }

  /** The options that can be lanes' members: all but the "no value" option. */
  function StatusOptions(options: seq<SelectOption>): (r: seq<SelectOption>)
    ensures forall o :: o in r <==> o in options && o.id != NullOptionId
  {
    Filter(options, IsStatusOption)
  }

  /** The started lane: the ids in neither of the other two lanes, in order. */
  function Remaining(ids: seq<string>, notStarted: seq<string>, completed: seq<string>): (r: seq<string>)
    ensures forall x :: x in r <==> x in ids && x !in notStarted && x !in completed
  {
    if |ids| == 0 then []
    else
      var rest := Remaining(ids[1..], notStarted, completed);
      assert forall x :: x in ids <==> x == ids[0] || x in ids[1..];
      if ids[0] !in notStarted && ids[0] !in completed then [ids[0]] + rest else rest
  }

  /** The started lane distributes over concatenation, so the ids it keeps stay in option order. */
  lemma RemainingAppend(a: seq<string>, b: seq<string>, notStarted: seq<string>, completed: seq<string>)
    ensures Remaining(a + b, notStarted, completed) == Remaining(a, notStarted, completed) + Remaining(b, notStarted, completed)
  {
    RemainingIsFilter(a + b, notStarted, completed);
    RemainingIsFilter(a, notStarted, completed);
    RemainingIsFilter(b, notStarted, completed);
    FilterAppend(a, b, InNeither(notStarted, completed));
  }

  /** The test `!notStarted.includes(id) && !completed.includes(id)` as a function value. */
  function InNeither(notStarted: seq<string>, completed: seq<string>): string -> bool {
    (x: string) => x !in notStarted && x !in completed
  }

  /** The started lane is the general order-preserving filter with that test. */
  lemma {:induction false} RemainingIsFilter(ids: seq<string>, notStarted: seq<string>, completed: seq<string>)
    ensures Remaining(ids, notStarted, completed) == Filter(ids, InNeither(notStarted, completed))
  {
    if |ids| > 0 {
      RemainingIsFilter(ids[1..], notStarted, completed);
    }
  }

  /**
   * The three working lanes split the status ids: completed takes the last id, not-started the
   * first one unless it is the completed one, started every remaining id in order.
   */
  function SplitIds(ids: seq<string>): (l: Lanes)
    ensures l.backlog == [NullOptionId] && l.canceled == []
    ensures |ids| == 0 ==> l.notStarted == [] && l.started == [] && l.completed == []
    ensures |ids| > 0 ==> l.completed == [ids[|ids| - 1]]
    ensures |ids| > 0 && ids[0] != ids[|ids| - 1] ==> l.notStarted == [ids[0]]
    ensures |ids| > 0 && ids[0] == ids[|ids| - 1] ==> l.notStarted == []
    ensures l.started == Remaining(ids, l.notStarted, l.completed)
    ensures forall x :: x in l.notStarted ==> x !in l.completed && x !in l.started
    ensures forall x :: x in l.started ==> x !in l.completed
    ensures forall x :: x in ids <==> x in l.notStarted || x in l.started || x in l.completed
  {
    var completed := if |ids| > 0 then [ids[|ids| - 1]] else [];
    var notStarted := if |ids| > 0 && ids[0] !in completed then [ids[0]] else [];
    var started := Remaining(ids, notStarted, completed);
    Lanes([NullOptionId], notStarted, started, completed, [])
  }

  /** No status option id is the "no value" id. */
  lemma StatusIdsExcludeNull(options: seq<SelectOption>)
    ensures NullOptionId !in OptionIds(StatusOptions(options))
  {
    var statuses := StatusOptions(options);
    var ids := OptionIds(statuses);
    forall i | 0 <= i < |ids|
      ensures ids[i] != NullOptionId
    {
      assert statuses[i] in statuses;
    }
  }

  /**
   * The lanes assigned when nothing is saved: backlog holds the "no value" option, canceled
   * nothing, and the other three split the remaining option ids. (The source filters the
   * options and then takes their ids; filtering the ids is the same.)
   */
  function FreshLanes(options: seq<SelectOption>): (l: Lanes)
    ensures l == SplitIds(OptionIds(StatusOptions(options)))
    ensures NullOptionId !in l.notStarted && NullOptionId !in l.started && NullOptionId !in l.completed
  {
    StatusIdsExcludeNull(options);
    SplitIds(OptionIds(StatusOptions(options)))
  }

  /**
   * The lanes the Kanban sub-form pre-fills once a status property with options is chosen:
   * the saved lanes verbatim when a Kanban record is saved, otherwise the fresh assignment.
   * A status property without options fills in nothing.
   */
  function DefaultLanes(saved: Option<Kanban>, status: DatabaseProperty): (r: Option<Lanes>)
    ensures r.Some? <==> status.options.Some?
    ensures r.Some? && saved.Some? ==> r.value == saved.value.lanes
    ensures r.Some? && saved.None? ==> r.value == FreshLanes(status.options.value)
  {
    match status.options
    case None => None
    case Some(options) => Some(if saved.Some? then saved.value.lanes else FreshLanes(options))
  }

  /** A single status option is completed and nothing else is assigned. */
  lemma FreshLanesOneOption(a: SelectOption)
    requires a.id != NullOptionId
    ensures FreshLanes([a]) == Lanes([NullOptionId], [], [], [a.id], [])
  {
    assert [a][1..] == [];
    assert StatusOptions([a]) == [a];
    assert OptionIds([a]) == [a.id];
    assert [a.id][1..] == [];
    assert Remaining([a.id], [], [a.id]) == [];
  }

  /** Two status options: the first is to-do, the second completed, nothing in progress. */
  lemma FreshLanesTwoOptions(a: SelectOption, b: SelectOption)
    requires a.id != NullOptionId && b.id != NullOptionId && a.id != b.id
    ensures FreshLanes([a, b]) == Lanes([NullOptionId], [a.id], [], [b.id], [])
  {
    assert [a, b][1..] == [b];
    assert StatusOptions([a, b]) == [a, b];
    assert OptionIds([a, b]) == [a.id, b.id];
    assert [a.id, b.id][1..] == [b.id];
    assert [b.id][1..] == [];
    assert Remaining([b.id], [a.id], [b.id]) == [];
    assert Remaining([a.id, b.id], [a.id], [b.id]) == [];
  }
}
