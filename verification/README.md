# Notion extension core, modelled in Dafny

This project models the pure logic inside the Notion extension's page list and its two editing
components:

- **search-page.tsx**:
  - the recently-opened ledger (`storeRecentlyOpenedPage`);
  - property-to-text extraction (`extractPropertyValue`);
  - grouping a database's pages into list sections;
  - the "Properties..." and "Group by..." view toggles;
  - the cached-then-fetched refresh of a database's rows and property schema;
  - the local-storage keys.
- **components/DatabaseViewForm.tsx**:
  - the view saved on submit;
  - the sub-form shown for the Kanban view type;
  - the default status property;
  - the default Kanban lane assignment.
- **components/ActionEditPageProperty.tsx**:
  - the one-property patch;
  - the value each "Set <property>" action sends for checkbox, select, date, multi-select and people properties;
  - the fallback for unsupported property types.

Page payloads are JavaScript values, so they are modelled as a JSON-like datatype that also has `undefined` (`Json.Json`). The model includes JavaScript truthiness and `?.` member access. A member access that throws becomes `Completion.TypeError`. Numbers are integers.

The modules follow the program:

| module | file | content |
|---|---|---|
| `Common` | common.dfy | `Option` and sequence filtering |
| `Json` | json.dfy | JavaScript values, truthiness, member access, `String(v)` |
| `Notion` | notion.dfy | pages, select options, database properties |
| `Sorting` | sorting.dfy | stable insertion sort by an integer key (`Array.prototype.sort` with a comparator) |
| `Storage` | storage.dfy | local-storage keys |
| `RecentlyOpened` | recently_opened.dfy | the ledger |
| `PropertyText` | property_text.dfy | `extractPropertyValue` |
| `DatabaseViews` | database_views.dfy | the view record, its toggles, loading and saving |
| `Sections` | sections.dfy | grouping pages into sections, including `Object.keys` order |
| `Revalidate` | revalidate.dfy | show cached, then fetch and overwrite |
| `ViewForm` | view_form.dfy | the view form |
| `EditProperty` | edit_property.dfy | the edit-property actions |

Several inputs are parameters rather than computed values:

- the current time (`now`, and `iso` for the date actions);
- the relative-date text `moment(...).fromNow()` (`fromNow`);
- every network result (an `Option`, where `None` means a failed or empty fetch).

## Model

| member | source | states |
|---|---|---|
| `RecentlyOpened.Record` | extensions/notion/src/search-page.tsx:570-595 | The stored ledger has at most 20 entries and is sorted newest first. Its length is the loaded length (plus one for a new id), capped at 20. Every entry is a loaded one or the visited page stamped with `now`. Distinct ids stay distinct. The cap drops only entries no newer than every kept one. When every loaded time is older than `now`, the visited page comes first. With distinct loaded ids, any entry with the visited id is the re-stamped one, never the stale entry, whatever the clock says |
| `RecentlyOpened.FindById` | extensions/notion/src/search-page.tsx:574 | Returns the index of the first entry with the id, or none exactly when no entry has it |
| `RecentlyOpened.Bumped` | extensions/notion/src/search-page.tsx:576-580 | An existing entry keeps its stored data and gets time `now`; an unknown page is stamped with `now` |
| `RecentlyOpened.Touch` | extensions/notion/src/search-page.tsx:574-581 | Bumping a known id keeps the length and appending a new one adds one. Nothing else enters the ledger, and unique ids stay unique. With unique ids, the only entry with the visited id is the re-stamped one |
| `RecentlyOpened.SortNewestFirst` | extensions/notion/src/search-page.tsx:583-591 | The result is a permutation of the ledger, ordered by non-increasing `last_edited_time` |
| `RecentlyOpened.Truncate` | extensions/notion/src/search-page.tsx:593 | Keeps the first `min(n, 20)` entries, in the same positions. On a newest-first ledger, every dropped entry is no newer than every kept one |
| `RecentlyOpened.NewestIsFirst` | extensions/notion/src/search-page.tsx:577-591 | An entry strictly newer than all others is first after sorting |
| `RecentlyOpened.RecordAllKeepsLedgerValid` | extensions/notion/src/search-page.tsx:570-595 | Over any sequence of visits, the stored ledger stays bounded, sorted and free of duplicate ids |
| `RecentlyOpened.ReopeningKeepsLength` | extensions/notion/src/search-page.tsx:574-593 | Re-opening a page already in a valid ledger keeps the length, and the page is still there |
| `Sorting.SortBy` | extensions/notion/src/search-page.tsx:583-591 | The comparator sort yields a permutation sorted by the key |
| `Sorting.InsertBy` | extensions/notion/src/search-page.tsx:583-591 | Inserting into a sorted sequence keeps it sorted and adds exactly that element |
| `Sorting.SortBySortedIsIdentity` | extensions/notion/src/search-page.tsx:583-591 | Sorting an already sorted ledger leaves it unchanged |
| `Sorting.SortByKeepsDistinct` | extensions/notion/src/search-page.tsx:583-591 | Sorting never makes two entries share an id |
| `Common.FilterAppend` | extensions/notion/src/components/DatabaseViewForm.tsx:152 | `filter` distributes over concatenation, so the kept elements stay in their original order |
| `Storage.KeysNeverCollide` | extensions/notion/src/search-page.tsx:593-630 | The ledger, rows, schema and view keys never collide. Within one kind, keys are equal exactly when the database ids are |
| `PropertyText.Extract` | extensions/notion/src/search-page.tsx:505-568 | Anything shown is truthy and never the empty string. A missing property, a falsy property or a falsy payload shows nothing. Only a formula or multi-select payload can throw |
| `PropertyText.Render` | extensions/notion/src/search-page.tsx:521-559 | Per type: title and the text types give the first run's `plain_text` (else "Untitled" or `null`); a number its decimal text; a date `fromNow` of its start; a checkbox ☑ or ☐; a select its `name`; a multi-select its names joined with ", "; a string itself; an unknown type "". It throws only on a nullish payload or a malformed multi-select |
| `PropertyText.FirstPlainText` | extensions/notion/src/search-page.tsx:523-538 | Throws exactly on a nullish payload. Otherwise gives the `plain_text` of element 0 when that element is truthy, else the fallback |
| `PropertyText.SelectionNames` | extensions/notion/src/search-page.tsx:549-555 | Collects every selection's `name` in order, and throws exactly when a selection is nullish |
| `PropertyText.FormulaUnwrapsOnce` | extensions/notion/src/search-page.tsx:516-519 | A formula around a non-formula value shows exactly what that value shows on its own |
| `PropertyText.NestedFormulaIsHidden` | extensions/notion/src/search-page.tsx:516-521 | A formula inside a formula is not unwrapped again and shows nothing |
| `PropertyText.PlainCheckboxNeverShowsUnchecked` | extensions/notion/src/search-page.tsx:508-544 | A checkbox property shows ☑ or nothing: the ☐ branch is unreachable for it |
| `PropertyText.FormulaUncheckedBoxIsShown` | extensions/notion/src/search-page.tsx:512-544 | A formula that yields `false` as a checkbox does show ☐ |
| `PropertyText.ZeroNumberQuirk` | extensions/notion/src/search-page.tsx:512-526 | A number property holding 0 shows nothing, while a formula yielding 0 shows "0" |
| `PropertyText.EmptyMultiSelectIsHidden` | extensions/notion/src/search-page.tsx:549-563 | An empty multi-select shows nothing |
| `PropertyText.RichTextShowsFirstRun` | extensions/notion/src/search-page.tsx:528-529 | Rich text shows the plain text of its first run, or nothing when that text is empty |
| `Json.Get` | extensions/notion/src/search-page.tsx:510 | Optional member access is `undefined` on a nullish value and reads the field of an object |
| `Json.Member` | extensions/notion/src/search-page.tsx:551-552 | Plain member access throws exactly on a nullish value, and otherwise agrees with `Get` |
| `Json.NatToDecimal` | extensions/notion/src/search-page.tsx:526 | A number's text is a non-empty digit string whose decimal value is the number, with no leading zero (it starts with 0 exactly for 0) |
| `DatabaseViews.ToggleVisibility` | extensions/notion/src/search-page.tsx:392-405 | Nothing is saved without a view or its `properties`. Otherwise only `properties` changes: a visible id is deleted, a hidden id is set to `{}`, and other keys keep their values |
| `DatabaseViews.ToggleVisibilityTwice` | extensions/notion/src/search-page.tsx:394-405 | Toggling twice restores the key set; an id that was absent is restored exactly |
| `DatabaseViews.FalsyEntryIsDroppedByTwoToggles` | extensions/notion/src/search-page.tsx:390-403 | A stored falsy entry counts as hidden, so two toggles delete it |
| `DatabaseViews.ToggleGroupBy` | extensions/notion/src/search-page.tsx:415-428 | Throws exactly without a view or its `properties`. Toggling the current group-by deletes only its `id`; any other id sets `groupBy` to `{id}`. Nothing else changes |
| `DatabaseViews.GroupByToggleOffKeepsRecord` | extensions/notion/src/search-page.tsx:417-425 | Grouping by an id and toggling it again leaves an empty `groupBy` record, not an absent one |
| `DatabaseViews.GroupByToggleTwiceFromGrouped` | extensions/notion/src/search-page.tsx:417-425 | Toggling the current group-by off and on restores the view |
| `DatabaseViews.LoadView` | extensions/notion/src/search-page.tsx:181-195 | The loaded view is the stored one when it has `properties`, else `{properties: {}}` |
| `DatabaseViews.SaveView` | extensions/notion/src/search-page.tsx:260-264 | Saving writes the view under the database's view key and changes no other key |
| `DatabaseViews.SaveThenLoad` | extensions/notion/src/search-page.tsx:622-630 | Loading after saving gives back the saved view; other databases' views are unaffected |
| `Sections.Label` | extensions/notion/src/search-page.tsx:233-236 | A page's section is `String` of its extracted value, or 'Recent' when nothing is extracted. It throws exactly when extraction does |
| `Sections.Labels` | extensions/notion/src/search-page.tsx:231-242 | Gives one label per page in order, and throws exactly when some page's label throws |
| `Sections.PagesLabelled` | extensions/notion/src/search-page.tsx:237-241 | A section holds as many pages as carry its label, all taken from the input |
| `Sections.LabelledPageIsCollected` | extensions/notion/src/search-page.tsx:237-241 | Every page is in the section of its label |
| `Sections.PagesLabelledKeepsOrder` | extensions/notion/src/search-page.tsx:231-241 | Input order is preserved: a later page goes to the end of its section and no other section changes |
| `Sections.FirstAppearance` | extensions/notion/src/search-page.tsx:237-238 | Object keys are created once each, one per label, and a key precedes another exactly when its label first occurs earlier |
| `Sections.OwnKeyOrder` | extensions/notion/src/search-page.tsx:245 | `Object.keys` returns the same distinct keys: array-index keys first in ascending numeric order, then the other keys in insertion order |
| `Sections.Group` | extensions/notion/src/search-page.tsx:229-249 | Sections are keyed in `Object.keys` order of the labels and named by their key. Each holds exactly the pages with its label and is non-empty. A key is present iff some page has it. Section sizes sum to the page count |
| `Sections.TotalOfBuild` | extensions/notion/src/search-page.tsx:244-247 | The sections' sizes sum to the number of pages whose label is among the keys |
| `Sections.EachPageInOneSection` | extensions/notion/src/search-page.tsx:231-247 | Every page is in the section of its label, and exactly one section has that label |
| `Sections.CreateSections` | extensions/notion/src/search-page.tsx:222-256 | Corrected: the effect with the grouping of Findings row 1 repaired. Without a group-by there is one 'Recent' section holding all pages. With one, the sections are `Group` of the labels, so they partition the pages by label; if labelling throws, the previous sections stay |
| `Sections.MissingPropertyGroupsIntoRecent` | extensions/notion/src/search-page.tsx:233-236 | Pages without the group-by property all go into one 'Recent' section |
| `Sections.ToggledOffGroupByStillGroups` | extensions/notion/src/search-page.tsx:225-236 | After the group-by is toggled off, the leftover `{}` still selects the grouped path, keyed by the property "undefined" |
| `Sections.CreateSectionsAsWritten` | extensions/notion/src/search-page.tsx:222-256 | As written: when grouping is on and some label names an inherited `Object.prototype` member, the `.push` throws inside the effect and the previous sections stay; in every other case it equals `CreateSections` |
| `Sections.GroupAsWritten` | extensions/notion/src/search-page.tsx:237-241 | As written, grouping throws exactly when some label names an inherited `Object.prototype` member; otherwise it is `Group` |
| `Sections.InheritedLabelDropsGrouping` | extensions/notion/src/search-page.tsx:237-241 | A page whose select value is "constructor" leaves the list without sections as written, but gets its own section in the corrected model |
| `Revalidate.Deliveries` | extensions/notion/src/search-page.tsx:203-214 | One value per source reaches the view per call: the stored one first when the key is stored, the fetched one last when the fetch is accepted, and nothing else |
| `Revalidate.CycleAgreesWithDeliveries` | extensions/notion/src/search-page.tsx:203-215 | After a call the view shows the last delivery and the store returns it. Other keys are untouched, and a rejected fetch leaves storage as it was |
| `Revalidate.LastCompletionWins` | extensions/notion/src/search-page.tsx:198-219 | Of two overlapping accepted fetches, the later completion is the one stored and shown |
| `Revalidate.FreshStoreScenario` | extensions/notion/src/search-page.tsx:203-215 | With an empty store, a successful fetch is delivered once and then stored |
| `Revalidate.FailedRefreshScenario` | extensions/notion/src/search-page.tsx:203-215 | With a stored value and a failed fetch, the stored value is delivered and kept |
| `Revalidate.RefreshDatabasePages` | extensions/notion/src/search-page.tsx:197-219 | Rows are replaced and stored only when the fetch has at least one page, and loading ends only then. An empty or failed fetch leaves storage unchanged |
| `Revalidate.EmptyRowsKeepCache` | extensions/notion/src/search-page.tsx:209-215 | An empty row fetch keeps the cached rows on display and the list loading |
| `Revalidate.RefreshDatabaseProperties` | extensions/notion/src/search-page.tsx:158-178 | A fetched schema is restricted to the supported types, then shown and stored. A failed fetch only shows the cache. No other storage key changes, and the call is the cached-then-fetched `Cycle` on the schema key |
| `Revalidate.EmptySchemaReplacesCache` | extensions/notion/src/search-page.tsx:167-175 | Unlike the rows, an empty fetched schema replaces the cached schema |
| `ViewForm.Submit` | extensions/notion/src/components/DatabaseViewForm.tsx:50-66 | Properties and sort order are carried over, or `{}`. The type defaults to 'list' and an empty name is dropped. Group-by is not carried. A Kanban record with the form's status and lanes is attached iff the type is 'kanban' |
| `ViewForm.SubmittedLanes` | extensions/notion/src/components/DatabaseViewForm.tsx:57-66 | Each lane is the form's value, or `[]` when the form has none |
| `ViewForm.SubmitIsIdempotent` | extensions/notion/src/components/DatabaseViewForm.tsx:50-66 | Submitting the same values again changes nothing |
| `ViewForm.SubmitDropsGroupBy` | extensions/notion/src/components/DatabaseViewForm.tsx:50-55 | Saving through the form loses a grouping the view had |
| `ViewForm.Prefill` | extensions/notion/src/components/DatabaseViewForm.tsx:43-44 | The form pre-fills the view's name and type only when they are non-empty |
| `ViewForm.SubmitThenPrefill` | extensions/notion/src/components/DatabaseViewForm.tsx:43-55 | Re-opening the form on a submitted view pre-fills the submitted name, and the saved type |
| `ViewForm.SelectProperties` | extensions/notion/src/components/DatabaseViewForm.tsx:141-152 | The Kanban form gets exactly the 'select' properties, and none exactly when the schema has none |
| `ViewForm.SubFormAsWritten` | extensions/notion/src/components/DatabaseViewForm.tsx:140-157 | As written, 'kanban' always sets the Kanban form, and the toast appears exactly when no select property exists |
| `ViewForm.KanbanSubFormShownDespiteToast` | extensions/notion/src/components/DatabaseViewForm.tsx:145-152 | Without a select property, the toast is shown and the Kanban form still appears, with an empty status list |
| `ViewForm.SubFormFor` | extensions/notion/src/components/DatabaseViewForm.tsx:140-157 | Corrected: the Kanban form appears exactly for 'kanban' without the toast, and always has select properties |
| `ViewForm.SubFormAgreesUnlessToast` | extensions/notion/src/components/DatabaseViewForm.tsx:140-157 | The written and the corrected effect differ only when the toast is shown |
| `ViewForm.DefaultStatusPropertyId` | extensions/notion/src/components/DatabaseViewForm.tsx:237 | The pre-selected status is the saved one when non-empty, else the first select property, else none |
| `ViewForm.DefaultStatusIsSelectProperty` | extensions/notion/src/components/DatabaseViewForm.tsx:237-253 | Without a saved status, a default exists exactly when the schema has a select property, and it names a listed select property |
| `ViewForm.FindProperty` | extensions/notion/src/components/DatabaseViewForm.tsx:247 | Finds a property with the id exactly when one exists, and it is the first such property, as `.find` returns |
| `ViewForm.ChangeStatusProperty` | extensions/notion/src/components/DatabaseViewForm.tsx:243-253 | Choosing a select property's id selects it. An empty or unknown choice keeps the current one |
| `ViewForm.OptionIds` | extensions/notion/src/components/DatabaseViewForm.tsx:265 | The option ids, position by position |
| `ViewForm.StatusOptions` | extensions/notion/src/components/DatabaseViewForm.tsx:260 | The status options are all options except the "no value" one |
| `ViewForm.Remaining` | extensions/notion/src/components/DatabaseViewForm.tsx:265 | The started lane is exactly the ids in neither the to-do nor the completed lane |
| `ViewForm.RemainingAppend` | extensions/notion/src/components/DatabaseViewForm.tsx:265 | The started lane distributes over concatenation, so its ids keep the option order |
| `ViewForm.RemainingIsFilter` | extensions/notion/src/components/DatabaseViewForm.tsx:265 | The started lane is the order-preserving filter keeping ids in neither other lane |
| `ViewForm.SplitIds` | extensions/notion/src/components/DatabaseViewForm.tsx:262-266 | Completed is the last id, and to-do the first unless it is also the last. To-do, started and completed are pairwise disjoint and together cover every id. Started is `Remaining` of the ids, so it keeps their order. Backlog is the "no value" id and canceled is empty |
| `ViewForm.FreshLanes` | extensions/notion/src/components/DatabaseViewForm.tsx:260-266 | With no saved lanes, the status ids are split as above, and the "no value" id is in none of the three working lanes |
| `ViewForm.DefaultLanes` | extensions/notion/src/components/DatabaseViewForm.tsx:256-266 | Lanes are filled only for a status property with options. Saved lanes are used verbatim, otherwise the fresh split |
| `ViewForm.FreshLanesOneOption` | extensions/notion/src/components/DatabaseViewForm.tsx:263-265 | A single option is completed and nothing is to do |
| `ViewForm.FreshLanesTwoOptions` | extensions/notion/src/components/DatabaseViewForm.tsx:263-265 | Two options give one to-do and one completed, with nothing in progress |
| `EditProperty.PagePropertyValue` | extensions/notion/src/components/ActionEditPageProperty.tsx:78 | The current value is the page's typed value when it and the property are truthy, else `null` |
| `EditProperty.PropertyPatch` | extensions/notion/src/components/ActionEditPageProperty.tsx:86-89 | The patch has exactly the key `dp.id`, which maps to an object with exactly the key `dp.type` |
| `EditProperty.PatchReadsBack` | extensions/notion/src/components/ActionEditPageProperty.tsx:87-89 | Reading the patch through the property's type gives the sent value |
| `EditProperty.MenuOptions` | extensions/notion/src/components/ActionEditPageProperty.tsx:84 | The options fall back from the custom ones, to the property's, to none |
| `EditProperty.CheckboxValue` | extensions/notion/src/components/ActionEditPageProperty.tsx:108 | The checkbox action sends the negation of the current box |
| `EditProperty.CheckboxTwiceRestores` | extensions/notion/src/components/ActionEditPageProperty.tsx:104-108 | Once the new value is stored, the next action sends back the original state |
| `EditProperty.SelectValue` | extensions/notion/src/components/ActionEditPageProperty.tsx:122-128 | A select action sends `null` exactly for the "no value" option, otherwise `{id}` |
| `EditProperty.SetDateField` | extensions/notion/src/components/ActionEditPageProperty.tsx:145-159 | A date object gets its field set, and a missing date becomes a new object with that field. An array is sent unchanged. Another truthy primitive throws |
| `EditProperty.DateFieldsCommute` | extensions/notion/src/components/ActionEditPageProperty.tsx:146-159 | Setting start and end commute, and every other field is unchanged |
| `EditProperty.Entries` | extensions/notion/src/components/ActionEditPageProperty.tsx:168 | Only `null` or an array can be iterated. `null` gives no entries, and anything else throws |
| `EditProperty.EntryIds` | extensions/notion/src/components/ActionEditPageProperty.tsx:167-170 | Collects the entry ids in order, and throws exactly when an entry is nullish |
| `EditProperty.ToggleOption` | extensions/notion/src/components/ActionEditPageProperty.tsx:181-189 | A selected option is filtered out with `DropId`, so no entry keeps its id and the list shrinks; an unselected one is appended as `{id}`. Entries with other ids are kept |
| `EditProperty.DropIdAppend` | extensions/notion/src/components/ActionEditPageProperty.tsx:183-185 | The id filter distributes over concatenation, so the kept entries keep their order |
| `EditProperty.DropIdIsFilter` | extensions/notion/src/components/ActionEditPageProperty.tsx:183-185 | The id filter is the order-preserving `filter` with the test `o.id !== id` |
| `EditProperty.DropAppended` | extensions/notion/src/components/ActionEditPageProperty.tsx:183-187 | Filtering out an id that was just appended gives back the original entries |
| `EditProperty.ToggleUnselectedTwice` | extensions/notion/src/components/ActionEditPageProperty.tsx:181-189 | Toggling an unselected option twice restores the entries exactly |
| `EditProperty.ToggleSelectedTwice` | extensions/notion/src/components/ActionEditPageProperty.tsx:181-189 | Toggling a selected option twice leaves it selected and keeps every other entry |
| `EditProperty.SelectedIds` | extensions/notion/src/components/ActionEditPageProperty.tsx:166-170 | No ids without a truthy page value. An array value gives its entry ids in order; any other truthy value throws |
| `EditProperty.PeopleIdsAsWritten` | extensions/notion/src/components/ActionEditPageProperty.tsx:196-200 | As written: a missing page value throws, a nullish people value gives no ids, an array gives its entry ids, and any other value, falsy ones included, throws |
| `EditProperty.PeopleMenuThrowsOnMissingValue` | extensions/notion/src/components/ActionEditPageProperty.tsx:198 | A missing page value, or one that is `false`, makes the people menu throw |
| `EditProperty.PeopleIds` | extensions/notion/src/components/ActionEditPageProperty.tsx:78-200 | Corrected: no people are present when the value is missing. A truthy value gives what the written code gives |
| `EditProperty.AddableUsers` | extensions/notion/src/components/ActionEditPageProperty.tsx:222-223 | Offers exactly the users whose id is not already present |
| `EditProperty.EveryUserAddableWhenNobodyPresent` | extensions/notion/src/components/ActionEditPageProperty.tsx:222-223 | With nobody present, every user is offered, in order |
| `EditProperty.AddingOfferedUserKeepsIdsDistinct` | extensions/notion/src/components/ActionEditPageProperty.tsx:222-230 | Adding an offered user never creates a duplicate id |
| `EditProperty.RemovingUserClearsId` | extensions/notion/src/components/ActionEditPageProperty.tsx:207-216 | The removal action of a present person sends a shorter list with no entry of that id, and keeps every entry with another id |
| `EditProperty.SelectValues` | extensions/notion/src/components/ActionEditPageProperty.tsx:118-129 | One select action per option, in order |
| `EditProperty.ToggleValues` | extensions/notion/src/components/ActionEditPageProperty.tsx:176-191 | One multi-select toggle per option, in order |
| `EditProperty.DropId` | extensions/notion/src/components/ActionEditPageProperty.tsx:183-185 | The id filter keeps exactly the entries whose id differs. It shrinks exactly when some entry has the id, and otherwise gives the entries back |
| `EditProperty.RemovalValues` | extensions/notion/src/components/ActionEditPageProperty.tsx:207-219 | One removal per present person, in order. Each sends the entries without that person's id |
| `EditProperty.AdditionValues` | extensions/notion/src/components/ActionEditPageProperty.tsx:222-233 | One addition per offered user, appending `{id}` |
| `EditProperty.EditMenu` | extensions/notion/src/components/ActionEditPageProperty.tsx:100-242 | As written: only checkbox, select, date, multi-select and people have a menu, and only multi-select and people can throw. The checkbox action sends the negation; the select actions are `SelectValues` of the options; the two date actions are `SetDateField` of start and of end; the multi-select actions are `ToggleValues` of the current entries, and that menu throws exactly when the value is neither an array nor nullish; the people menu is `PeopleMenu` with the ids read as written, so it throws for a page without a value, or with a falsy one |
| `EditProperty.MenuWith` | extensions/notion/src/components/ActionEditPageProperty.tsx:100-242 | The menu for given people ids: each editable type's actions are `CheckboxValue`, `SelectValues`, the two `SetDateField` writes, `ToggleValues` or `PeopleMenu`; other types have none |
| `EditProperty.PeopleMenu` | extensions/notion/src/components/ActionEditPageProperty.tsx:196-237 | The people menu exists exactly when the value is an array or nullish, the ids were read and no person is `null`. Without a value and with no ids it is one addition per user |
| `EditProperty.EditMenuCorrected` | extensions/notion/src/components/ActionEditPageProperty.tsx:78-242 | Corrected: the people ids are read through the guarded value. Checkbox, select, date and multi-select actions are those of `EditMenu`; the people menu is `PeopleMenu` with the guarded ids, so a page without people gets one addition per user and no removal |
| `EditProperty.MenuCorrectionIsLocal` | extensions/notion/src/components/ActionEditPageProperty.tsx:78-242 | The written and corrected menus agree except on the people menu of a page without a truthy people value |
| `EditProperty.MissingPeopleMenu` | extensions/notion/src/components/ActionEditPageProperty.tsx:198 | For a page without a value, the written people menu throws and the corrected one offers every user |

## Left out

- Search: the case-folded title filter over the ledger and the page search (search-page.tsx:44-80). The filter needs Unicode lower-casing and the search is a network call.
- The accessory title and keywords of a list item (search-page.tsx:315-336) and all icons, titles, toasts and navigation. These are presentation only.
- The Notion client calls and the local-storage reads and writes themselves. Their results are parameters, and storage is a `map`. A JSON round trip is taken to give back the same value.
- React effect scheduling. Overlapping refreshes are modelled only as fetches applied in completion order (`Revalidate.LastCompletionWins`).
- `utils/notion`, `utils/local-storage` and the `components` index are not part of this model.
- `RecentlyOpened.Record`: the source also writes the new timestamp into the caller's page object. Mutating a shared object is not modelled.
- `EditProperty.ToggleOption`: the source pushes into the page's own array before sending. The model returns a new sequence and does not model the aliasing.
- `EditProperty.AdditionValues`: the source pushes `{id}` into the page's own people array (ActionEditPageProperty.tsx:228-229). The model sends a new sequence and does not model the aliasing.
- `EditProperty.SetDateField`: the source assigns `start` or `end` into the page's own date object (ActionEditPageProperty.tsx:146-147, 157-158). The model returns a new value and does not model the mutation.
- `ViewForm.SubFormAsWritten`: the effect does nothing until the schema has loaded (`if(databaseProperties)`, DatabaseViewForm.tsx:139). The model takes the loaded schema as a sequence, so the not-yet-loaded state is not modelled.
- `Sections.CreateSections`: before the first load `databasePages` is `undefined` (search-page.tsx:126). Grouped, the effect then sets no sections; ungrouped, one 'Recent' section with no page list. The model takes the loaded pages as a sequence, so that state is not modelled.
- `PropertyText.Render`: a date's text comes from `moment(...).fromNow()`, which is a parameter. Numbers are integers, so a fraction, NaN or exponent text is not modelled.
- `Json.NatToDecimal`: numbers are integers; floating-point formatting is not modelled.
- `Sorting.SortBy`: sortedness and permutation are proved; stability, which JavaScript's sort also guarantees, is not stated.
- `supportedGroupByTypes` (search-page.tsx:147-156) is declared and never used, so nothing depends on it.
- The database dropdown and its cached-then-fetched list (DatabaseViewForm.tsx:84-135) follow the same cycle as `Revalidate`. They are not modelled separately.
- `StatusTagPicker` only holds UI state, and it is not modelled.

## Findings

| source | as written | input that shows it | evidently intended | confidence | as-written member | corrected member |
|---|---|---|---|---|---|---|
| extensions/notion/src/search-page.tsx:237-241 | `if(!tempSections[k]) tempSections[k] = []` tests the plain object `{}`. An inherited `Object.prototype` member counts as an existing section, and the `.push` on it throws, so no sections are set | a page whose group-by select value is "constructor" (or "toString", "valueOf", ...) | every label gets its own section | high, not executed | `Sections.InheritedLabelDropsGrouping` | `Sections.Group` |
| extensions/notion/src/components/DatabaseViewForm.tsx:145-152 | after the 'Select Property Required' toast, the branch does not stop, and the Kanban form is set anyway | view type 'kanban' with a schema that has no 'select' property | no Kanban form after the toast | high, not executed | `ViewForm.KanbanSubFormShownDespiteToast` | `ViewForm.SubFormFor` |
| extensions/notion/src/components/ActionEditPageProperty.tsx:198 | the people ids are read from `pageProperty[dp.type]`, which throws when the page has no value for the property (`pageProperty` undefined) or a falsy one (`false.forEach`) | `pageProperty` undefined | read through the guarded `pagePropertyValue`, as every other case does | medium, not executed | `EditProperty.MissingPeopleMenu` | `EditProperty.EditMenuCorrected` |
