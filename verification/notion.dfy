/** The Notion records the extension handles, reduced to the fields its logic reads. */
module Notion {
  import opened Common
  import opened Json

  /**
   * A page (or database row). `lastEditedTime` is a millisecond timestamp: the ledger of
   * recently opened pages overwrites it with the clock reading of the visit. `properties`
   * maps a property id to its raw API payload `{type: T, [T]: value}`.
   */
  datatype Page = Page(id: string, lastEditedTime: int, properties: map<string, Json>)

  /** One option of a select, multi-select or people property (users are offered the same way). */
  datatype SelectOption = SelectOption(id: string, name: string)

  /** A database column: its id, display name, Notion type tag and (for selects) its options. */
  datatype DatabaseProperty = DatabaseProperty(id: string, name: string, kind: string, options: Option<seq<SelectOption>>)

  /** The pseudo-option id Notion uses for "no value" in a select. */
  const NullOptionId := "_select_null_"
}
