/**
 * `extractPropertyValue` (search-page.tsx): the text a page shows for one property, used both
 * as a list accessory and as the section label when a database list is grouped.
 *
 * The payload is dynamic, so the model follows JavaScript's evaluation exactly: the payload is
 * read as `pageProperty[pageProperty.type]`, a `formula` payload is unwrapped one level to its
 * own `type`, the switch renders the (possibly unwrapped) value, and only a truthy rendering is
 * returned. Member access on `null` inside the switch throws, which can only happen after a
 * formula unwrap or on a malformed multi-select payload.
 */
module PropertyText {
  import opened Common
  import opened Json

  /** The outcome of `extractPropertyValue`: a truthy value to show, `null`, or a thrown `TypeError`. */
  datatype Extracted = Shown(value: Json) | Hidden | Threw

  const Checked := "\U{2611}"
  const Unchecked := "\U{2610}"

  /** The types whose text is `propertyValue[0].plain_text`, or `null` when there is no first element. */
  const TextLikeTypes: set<string> := {"rich_text", "url", "email", "phone_number"}

  /** The types the `switch` of `extractPropertyValue` has a case for. */
  const KnownTypes: set<string> := TextLikeTypes + {"title", "number", "date", "checkbox", "select", "multi_select", "string"}

  /** The type tag of a raw property payload. */
  function TypeTag(pageProperty: Json): Json {
    Get(pageProperty, "type")
  }

  /** `pageProperty[pageProperty.type]`: the value stored under the payload's own type tag. */
  function Payload(pageProperty: Json): Json {
    Get(pageProperty, ToStr(TypeTag(pageProperty)))
  }

  /** `propertyValue[0] ? propertyValue[0].plain_text : whenMissing`. */
  function FirstPlainText(pv: Json, whenMissing: Json): (r: Completion<Json>)
    ensures r.TypeError? <==> Nullish(pv)
    ensures pv.Arr? && |pv.items| > 0 && Truthy(pv.items[0]) ==> r == Normal(Get(pv.items[0], "plain_text"))
    ensures pv.Arr? && (|pv.items| == 0 || !Truthy(pv.items[0])) ==> r == Normal(whenMissing)
    ensures pv.Obj? ==> r == Normal(if "0" in pv.fields && Truthy(pv.fields["0"]) then Get(pv.fields["0"], "plain_text") else whenMissing)
  {
    assert IsArrayIndex("0") && DecimalValue("0") == 0;
    match Member(pv, "0")
    case TypeError => TypeError
    case Normal(first) => Normal(if Truthy(first) then Get(first, "plain_text") else whenMissing)
  }

  /** The `name` of every selection, in order; `selection.name` throws on a `null` selection. */
  function SelectionNames(items: seq<Json>): (r: Completion<seq<Json>>)
    ensures r.TypeError? <==> exists i :: 0 <= i < |items| && Nullish(items[i])
    ensures r.Normal? ==> |r.value| == |items| && forall i :: 0 <= i < |items| ==> r.value[i] == Get(items[i], "name")
  {
    if exists i :: 0 <= i < |items| && Nullish(items[i]) then TypeError
    else Normal(seq(|items|, i requires 0 <= i < |items| => Get(items[i], "name")))
  }

  /** The `switch (type)` of `extractPropertyValue`: the value assigned to `stringPropertyValue`. */
  function Render(ty: Json, pv: Json, fromNow: Json -> string): (r: Completion<Json>)
    ensures r.TypeError? ==> Nullish(pv) || ty == Str("multi_select")
    ensures ty == Str("title") && pv.Arr? ==>
      r == Normal(if |pv.items| > 0 && Truthy(pv.items[0]) then Get(pv.items[0], "plain_text") else Str("Untitled"))
    ensures ty.Str? && ty.s in TextLikeTypes && pv.Arr? ==>
      r == Normal(if |pv.items| > 0 && Truthy(pv.items[0]) then Get(pv.items[0], "plain_text") else Null)
    ensures ty == Str("number") && pv.Num? ==> r == Normal(Str(IntToDecimal(pv.n)))
    ensures ty == Str("date") && !Nullish(pv) ==> r == Normal(Str(fromNow(Get(pv, "start"))))
    ensures ty == Str("checkbox") ==> r == Normal(Str(if Truthy(pv) then Checked else Unchecked))
    ensures ty == Str("select") && !Nullish(pv) ==> r == Normal(Get(pv, "name"))
    ensures ty == Str("multi_select") && pv.Arr? && (forall i :: 0 <= i < |pv.items| ==> !Nullish(pv.items[i])) ==>
      r == Normal(Str(JoinValues(seq(|pv.items|, i requires 0 <= i < |pv.items| => Get(pv.items[i], "name")), ", ")))
    ensures ty == Str("multi_select") && !pv.Arr? ==> r.TypeError?
    ensures ty == Str("string") ==> r == Normal(pv)
    ensures !ty.Str? || ty.s !in KnownTypes ==> r == Normal(Str(""))
  {
    if ty == Str("title") then FirstPlainText(pv, Str("Untitled"))
    else if ty == Str("number") then Normal(if Nullish(pv) then Undefined else Str(ToStr(pv)))
    else if ty.Str? && ty.s in TextLikeTypes then FirstPlainText(pv, Null)
    else if ty == Str("date") then
      (match Member(pv, "start")
       case TypeError => TypeError
       case Normal(start) => Normal(Str(fromNow(start))))
    else if ty == Str("checkbox") then Normal(Str(if Truthy(pv) then Checked else Unchecked))
    else if ty == Str("select") then Member(pv, "name")
    else if ty == Str("multi_select") then
      (match pv
       case Arr(items) =>
         (match SelectionNames(items)
          case TypeError => TypeError
          case Normal(names) => Normal(Str(JoinValues(names, ", "))))
       case _ => TypeError)
    else if ty == Str("string") then Normal(pv)
    else Normal(Str(""))
  }

  /** `extractPropertyValue(page, propId)` over the page's property map. */
  function Extract(properties: map<string, Json>, propId: string, fromNow: Json -> string): (r: Extracted)
    ensures r.Shown? ==> Truthy(r.value)
    ensures r.Shown? && r.value.Str? ==> r.value.s != ""
    ensures propId !in properties ==> r == Hidden
    ensures propId in properties && !Truthy(properties[propId]) ==> r == Hidden
    ensures propId in properties && !Truthy(Payload(properties[propId])) ==> r == Hidden
    ensures r.Threw? ==> propId in properties && TypeTag(properties[propId]) in {Str("formula"), Str("multi_select")}
  {
    var pageProperty := if propId in properties then properties[propId] else Undefined;
    if !Truthy(pageProperty) then Hidden
    else
      var ty := TypeTag(pageProperty);
      var pv := Payload(pageProperty);
      if !Truthy(pv) then Hidden
      else
        var isFormula := ty == Str("formula");
        var innerTy := if isFormula then TypeTag(pv) else ty;
        var innerPv := if isFormula then Payload(pv) else pv;
        match Render(innerTy, innerPv, fromNow)
        case TypeError => Threw
        case Normal(text) => if Truthy(text) then Shown(text) else Hidden
  }

  /** A property whose payload is `{type: tag, [tag]: value}`. */
  function Property(tag: string, value: Json): Json {
    Obj(map["type" := Str(tag), tag := value])
  }

  /**
   * A formula is unwrapped exactly one level: when its result value is truthy, the formula
   * shows the same text as a plain property of the result's type holding that value.
   */
  lemma FormulaUnwrapsOnce(properties: map<string, Json>, propId: string, tag: string, value: Json, fromNow: Json -> string)
    requires tag != "formula" && tag != "type"
    requires Truthy(value)
    requires propId in properties && properties[propId] == Property("formula", Property(tag, value))
    ensures Extract(properties, propId, fromNow) == Extract(properties[propId := Property(tag, value)], propId, fromNow)
  {
    var inner := Property(tag, value);
    assert TypeTag(properties[propId]) == Str("formula");
    assert Payload(properties[propId]) == inner;
    assert TypeTag(inner) == Str(tag);
    assert Payload(inner) == value;
  }

  /** A formula whose result is itself a formula is not unwrapped a second time: it shows nothing. */
  lemma NestedFormulaIsHidden(properties: map<string, Json>, propId: string, inner: Json, fromNow: Json -> string)
    requires Truthy(inner)
    requires propId in properties && properties[propId] == Property("formula", Property("formula", inner))
    ensures Extract(properties, propId, fromNow) == Hidden
  {
    assert Payload(properties[propId]) == Property("formula", inner);
    assert TypeTag(Payload(properties[propId])) == Str("formula");
  }

  /**
   * The unchecked branch of the checkbox case is dead for a plain checkbox: a payload reaches
   * the switch only when truthy, so a checkbox shows the checked glyph or nothing.
   */
  lemma PlainCheckboxNeverShowsUnchecked(properties: map<string, Json>, propId: string, fromNow: Json -> string)
    requires propId in properties && TypeTag(properties[propId]) == Str("checkbox")
    ensures Extract(properties, propId, fromNow) in {Shown(Str(Checked)), Hidden}
  {
    var pv := Payload(properties[propId]);
    if Truthy(properties[propId]) && Truthy(pv) {
      assert Render(Str("checkbox"), pv, fromNow) == Normal(Str(Checked));
    }
  }

  /** A formula whose result is an unchecked checkbox does show the unchecked glyph. */
  lemma FormulaUncheckedBoxIsShown(properties: map<string, Json>, propId: string, fromNow: Json -> string)
    requires propId in properties && properties[propId] == Property("formula", Property("checkbox", Bool(false)))
    ensures Extract(properties, propId, fromNow) == Shown(Str(Unchecked))
  {
    assert Payload(properties[propId]) == Property("checkbox", Bool(false));
    assert Payload(Property("checkbox", Bool(false))) == Bool(false);
  }

  /** Zero is falsy, so a plain number 0 shows nothing while a formula yielding 0 shows "0". */
  lemma ZeroNumberQuirk(properties: map<string, Json>, fromNow: Json -> string)
    requires "plain" in properties && properties["plain"] == Property("number", Num(0))
    requires "computed" in properties && properties["computed"] == Property("formula", Property("number", Num(0)))
    ensures Extract(properties, "plain", fromNow) == Hidden
    ensures Extract(properties, "computed", fromNow) == Shown(Str("0"))
  {
    assert Payload(properties["plain"]) == Num(0);
    assert Payload(properties["computed"]) == Property("number", Num(0));
    assert Payload(Property("number", Num(0))) == Num(0);
  }

  /** An empty multi-select (a truthy empty array) joins to "" and so shows nothing. */
  lemma EmptyMultiSelectIsHidden(properties: map<string, Json>, propId: string, fromNow: Json -> string)
    requires propId in properties && properties[propId] == Property("multi_select", Arr([]))
    ensures Extract(properties, propId, fromNow) == Hidden
  {
    assert Payload(properties[propId]) == Arr([]);
  }

  /** A rich-text property shows the plain text of its first run, and nothing when that text is empty. */
  lemma RichTextShowsFirstRun(properties: map<string, Json>, propId: string, runs: seq<Json>, text: string, fromNow: Json -> string)
    requires |runs| > 0 && runs[0] == Obj(map["plain_text" := Str(text)])
    requires propId in properties && properties[propId] == Property("rich_text", Arr(runs))
    ensures Extract(properties, propId, fromNow) == (if text == "" then Hidden else Shown(Str(text)))
  {
    assert Payload(properties[propId]) == Arr(runs);
    assert IsArrayIndex("0") && DecimalValue("0") == 0;
    assert Get(Arr(runs), "0") == runs[0];
  }
}
