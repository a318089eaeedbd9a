# CRM front end: the record adapters and the page logic

This project models the core of a small CRM web front end that keeps contacts, deals and
activities in a hosted record store. It covers two parts.

- **The adapters.** `contactService`, `dealService` and `activityService` map the store's wire
  records (`Name`, `email_c`, `Tags`, `stage_c`, `contact_id_c`, …) to the objects the pages
  use, and back. They also turn the store's answers into returned values or thrown messages.
- **The page logic.** This is the state and the handlers of the Contacts, Activities, Deals and
  Dashboard pages, with the JSX left aside: searching and filtering, the edit forms, the
  pipeline columns and moves, the dashboard totals, and how each handler changes the page
  state.

The modules follow the program:

- `Wrappers` holds `Option` and `Result`.
- `Text` holds the string functions the code relies on: `trim`, `split`, `join`, `toLowerCase`,
  `includes`, `parseInt` and `toString` of an integer.
- `JsValues` covers JavaScript truthiness and `||` defaults, relation values that may arrive as
  a bare id or as an expanded object, and dates as milliseconds.
- `Lists` holds the array operations the pages use: `filter`, `find`, `findIndex`, `slice`,
  `sort`, and the `map`/`filter` patches by `Id`.
- `Batch` is the one procedure all three adapters apply to a create, update or delete answer.
- `ContactService`, `DealService` and `ActivityService` are the adapters, as pure functions.
- `Lookups` holds the lookups several pages share.
- `ContactsPage`, `ActivitiesPage`, `DealsPage` and `DashboardPage` are the pages. Each page's
  state is a class whose methods are the handlers. Its filters, forms and aggregates are
  functions.

The store calls are not modelled. A handler that awaits the store takes the store's answer as a
parameter. A save handler takes what the adapter call resolved to or threw, and returns the
call it makes. `new Date()` is a `now` parameter. `window.confirm` is a `confirmed` parameter.

Dates are integer milliseconds. `date.split("T")[0]` read back by `new Date` is midnight (UTC)
of the same day (`JsValues.DayStart`). `NaN` and absent numbers are `None`.

## Model

| member | source | states |
|---|---|---|
| Batch.FirstSaveError | src/services/api/contactService.js:120-132 | None exactly when no failed entry has a field error or a message; otherwise the text of the first such entry, as `fieldLabel: message` of its first field error or else its message |
| Batch.FirstDeleteError | src/services/api/contactService.js:235-242 | None exactly when no failed entry has a message; otherwise the first such message (field errors are ignored) |
| Batch.FirstSucceeded | src/services/api/contactService.js:134-135 | the data of the first successful entry, None exactly when every entry failed |
| Batch.SaveOutcome | src/services/api/contactService.js:111-149 | a top-level failure throws its message; no results throws "No successful records returned"; success exactly when no failed entry throws and some entry succeeded, and then it is the first successful entry; any other error is the text of the first throwing entry |
| Batch.DeleteOutcome | src/services/api/contactService.js:226-247 | a top-level failure throws its message; no results gives false; true exactly when no failed entry has a message and some entry succeeded; a thrown error is the message of the first failed entry that has one |
| Batch.SaveFailsOnAnyThrowingEntry | src/services/api/contactService.js:116-132 | one throwing failed entry makes the save throw even when another entry succeeded |
| Batch.SaveSkipsSilentFailures | src/services/api/contactService.js:118-149 | when no failed entry has a field error or a message, the save returns the first successful entry, with only failed entries before it, and throws "No successful records returned" when every entry failed |
| Batch.DeleteIgnoresFieldErrors | src/services/api/contactService.js:235-244 | when no failed entry has a message, a successful delete answer never throws |
| ContactService.TagsFromWireShape | src/services/api/contactService.js:45 | the inbound tags are empty exactly when `Tags` is falsy; every tag is trimmed and comma-free |
| ContactService.FromWireDefaults | src/services/api/contactService.js:39-48 | each text field is its wire value when truthy, else `''`; each timestamp is the first present one of its fallback chain, ending at now |
| ContactService.TagsRoundTrip | src/services/api/contactService.js:103 | tags joined with `,` and read back with split and trim are the same list, the empty list included, when no tag holds a comma or surrounding blanks and the list is not the single empty tag |
| ContactService.SingleEmptyTagIsLost | src/services/api/contactService.js:103 | the single empty tag joins to `''` and reads back as no tags |
| ContactService.CreateAndUpdateRecords | src/services/api/contactService.js:97-168 | create sends no id and stamps both timestamps; update sends the id and only `updated_at_c`; otherwise the two send the same fields |
| ContactService.CreateReadsBack | src/services/api/contactService.js:97-106 | a created contact reads back with the draft's fields (absent ones `''`), its tags, and both timestamps equal to the creation time |
| ContactService.GetAll | src/services/api/contactService.js:31-48 | a failed fetch throws its message; otherwise every record is mapped, in order |
| ContactService.GetById | src/services/api/contactService.js:70-92 | null exactly when the fetch fails or returns no record; otherwise the mapped record |
| ContactService.SaveResult | src/services/api/contactService.js:109-149 | the save returns the mapped first successful record exactly when the batch decision succeeds, and throws the decision's message otherwise |
| DealService.FromWireDefaults | src/services/api/dealService.js:40-49 | the title falls back to `Name` and then `''`; value and probability to 0; the stage to Lead; the contact is its nested id or raw value; the creation time to `CreatedOn` and then now |
| DealService.CreateRecord | src/services/api/dealService.js:100-109 | create sends no id and the creation time, `Name` equal to the title, a non-empty stage, and a contact that is null or non-zero |
| DealService.UpdateRecord | src/services/api/dealService.js:163-172 | update sends the id and no creation time, `Name` equal to the title, and a non-empty stage |
| DealService.CreateAndUpdateAgree | src/services/api/dealService.js:100-172 | create and update write the same fields apart from the id and the creation time |
| DealService.UpdateStageRecord | src/services/api/dealService.js:258-260 | `updateStage` sends the new stage and resets every other field: empty title, value and probability 0, no close date, no contact |
| DealService.CreateReadsBack | src/services/api/dealService.js:100-109 | a created deal reads back with the draft's title, value, stage, probability, close date and contact, or their defaults |
| DealService.StageChangeClearsDeal | src/services/api/dealService.js:258-260 | after a stage change a deal reads back with an empty title, value and probability 0, no close date and no contact; only its creation time survives |
| DealService.UpdateKeepsUnchanged | src/services/api/dealService.js:163-172 | an edit that sends the deal's own values keeps them, its creation time included |
| DealService.GetAll | src/services/api/dealService.js:32-49 | a failed fetch throws its message; otherwise every record is mapped, in order |
| DealService.GetById | src/services/api/dealService.js:56-94 | null exactly when the fetch fails or returns no record; otherwise the mapped record |
| DealService.SaveResult | src/services/api/dealService.js:114-152 | the save returns the mapped first successful record exactly when the batch decision succeeds, and throws its message otherwise |
| ActivityService.FromWireDefaults | src/services/api/activityService.js:40-49 | the type falls back to call, the title to `Name` and then `''`; each relation is null exactly when falsy and otherwise carries its id; the date falls back to now; completed only when the store says true |
| ActivityService.CreateRecord | src/services/api/activityService.js:148-157 | create sends no id and `Name` equal to the title; the title, description and type are the draft's when truthy, else `''`, `''` and call; completed is the draft's; the contact and the deal are sent exactly when they are non-zero numbers; the date falls back to now |
| ActivityService.CreateReadsBack | src/services/api/activityService.js:148-157 | a created activity reads back with the new id, the draft's type, title and description or their defaults, its date or the creation time, its completed flag, and each relation exactly when the draft gave a non-zero number |
| ActivityService.UpdateRecord | src/services/api/activityService.js:211-221 | update sends create's fields plus the id |
| ActivityService.ToggleReadsBack | src/components/pages/Activities.jsx:108-119 | toggling flips completed and keeps the type, title, description, date and the ids the relations carried; a relation expanded without an id is lost |
| ActivityService.ToggleTwice | src/components/pages/Activities.jsx:108-119 | toggling twice gives back the activity as it read after the first write, with completed restored |
| ActivityService.GetAll | src/services/api/activityService.js:32-49 | a failed fetch throws its message; otherwise every record is mapped, in order |
| ActivityService.GetById | src/services/api/activityService.js:56-94 | null exactly when the fetch fails or returns no record; otherwise the mapped record |
| ActivityService.GetByContactId | src/services/api/activityService.js:96-142 | a failed fetch gives `[]` and is not thrown; otherwise it is what getAll would map |
| ActivityService.ByContactBelongs | src/services/api/activityService.js:108-118 | when the store honours the contact condition, every activity returned carries that contact id |
| ActivityService.SaveResult | src/services/api/activityService.js:167-200 | the save returns the mapped first successful record exactly when the batch decision succeeds, and throws its message otherwise |
| JsValues.DayStart | src/components/pages/Activities.jsx:131 | the day of a date is midnight of that day: at most the date, within one day of it, and a whole number of days |
| JsValues.Unwrap | src/services/api/dealService.js:47 | `x?.Id \|\| x \|\| null` is null exactly when the relation is falsy; it gives the carried id as a number when there is one, and otherwise an object whose id is falsy |
| JsValues.UnwrapIdempotent | src/services/api/activityService.js:45-46 | unwrapping an unwrapped relation changes nothing |
| JsValues.UnwrapThenParse | src/services/api/activityService.js:153 | `parseInt(x) \|\| null` of an unwrapped relation is exactly the id it carried |
| Lookups.ContactName | src/components/pages/Activities.jsx:153-156 | the name of the first contact whose id equals the relation, and "Unknown Contact" when none does |
| Lookups.ContactNameOfNonNumber | src/components/pages/Deals.jsx:140-143 | a null or expanded relation never names a contact |
| Lookups.DealTitle | src/components/pages/Activities.jsx:158-161 | null exactly when no deal has the id; otherwise the title of the first that does |
| Lookups.ActivityIcon | src/components/pages/Dashboard.jsx:61-68 | call, email and meeting map to Phone, Mail and Calendar, each exactly; any other type maps to Activity |
| Lookups.ParseRefText | src/components/pages/Deals.jsx:118 | `parseInt` of a relation's `toString()` is the number it was, and `NaN` for an object |
| Text.Trim | src/components/pages/Contacts.jsx:77 | the result has no whitespace at either end and is no longer than the input |
| Text.TrimStart | src/components/pages/Contacts.jsx:77 | what is cut off at the start is whitespace, and what is left does not start with whitespace |
| Text.TrimPiece | src/components/pages/Contacts.jsx:77 | the result is the contiguous piece of the input that starts where its leading whitespace ends |
| Text.TrimCutsBlanks | src/components/pages/Contacts.jsx:77 | what is cut off after that piece is whitespace |
| Text.Split | src/services/api/contactService.js:45 | there is at least one piece, and no piece holds the separator; `Text.JoinSplit` pins the pieces |
| Text.JoinSplit | src/services/api/contactService.js:45 | joining the pieces of `split(c)` with `c` gives back the string, so together with the previous row the pieces are the maximal separator-free runs, `[""]` for the empty string |
| Text.ParseIntToString | src/components/pages/Deals.jsx:116-119 | `parseInt(n.toString())` is `n` for every integer of the model (unbounded integers; see the numbers line under Left out) |
| Text.ParseIntBlank | src/components/pages/Deals.jsx:66-68 | `parseInt` of a blank text is `NaN` |
| Lists.Take | src/components/pages/Contacts.jsx:315 | `slice(0, n)` is the prefix of length `min(n, length)` |
| Lists.ReplaceById | src/components/pages/Contacts.jsx:82 | the patch keeps the length and puts the updated record at every place with its id, leaving the rest |
| Lists.RemoveById | src/components/pages/Contacts.jsx:102 | no record with that id remains, every other record is kept as often as it was listed, and nothing is added |
| Lists.RemoveAbsentId | src/components/pages/Deals.jsx:92 | removing an id no record has changes nothing |
| Lists.RemovePresentId | src/components/pages/Deals.jsx:92 | removing an id some record has shortens the list |
| Lists.SortDesc | src/components/pages/Dashboard.jsx:55 | the sort by date is in descending order and a permutation of its input |
| Lists.FilterCount | src/components/pages/Contacts.jsx:65-70 | `filter` keeps each passing element as often as it occurs and drops every other one |
| Lists.FilterAppend | src/components/pages/Contacts.jsx:65-70 | filtering two lists joined is joining their filtered lists: `filter` keeps list order |
| Lists.FilterTakePrefix | src/components/pages/Dashboard.jsx:57-59 | the first `n` elements that pass a filter are the elements that pass in a prefix of the list |
| Lists.FilterPartition | src/components/pages/Activities.jsx:167-180 | two complementary filters together keep every element exactly as often as it occurs |
| Lists.FilterSplit | src/components/pages/Dashboard.jsx:49-53 | two complementary filters split a list: their lengths add up to its length and their sums to its sum |
| ContactsPage.FilteredContacts | src/components/pages/Contacts.jsx:65-70 | exactly the contacts whose name, email, company or a tag contains the term, ignoring case, each as often as it is listed |
| ContactsPage.FilteredContactsInOrder | src/components/pages/Contacts.jsx:65-70 | the shown contacts keep list order: a first contact is shown first when it matches, and the list's parts are shown part by part |
| ContactsPage.EmptySearchShowsAll | src/components/pages/Contacts.jsx:65-70 | an empty search shows every contact |
| ContactsPage.SearchIgnoresCase | src/components/pages/Contacts.jsx:65-70 | searching the lower-cased term shows the same contacts |
| ContactsPage.ExactOccurrenceShown | src/components/pages/Contacts.jsx:65-70 | a contact whose name, email, company or a tag holds the term as typed is shown |
| ContactsPage.ParseTagInput | src/components/pages/Contacts.jsx:77 | every parsed tag is non-empty, trimmed and comma-free |
| ContactsPage.BlankTagsDropped | src/components/pages/Contacts.jsx:77-122 | trimmed, comma-free tags shown in the form as `join(", ")` and parsed back are the non-blank ones, in order |
| ContactsPage.TagTextRoundTrip | src/components/pages/Contacts.jsx:77-122 | tags shown in the form and parsed back are the same list, when they are non-empty, trimmed and comma-free |
| ContactsPage.UnchangedEditKeepsContact | src/components/pages/Contacts.jsx:113-129 | opening a contact for editing and saving unchanged writes back its own name, email, phone, company and tags |
| ContactsPage.Timeline | src/components/pages/Contacts.jsx:315 | the timeline is the first five activities, or all of them when there are fewer |
| ContactsPage.Page.constructor | src/components/pages/Contacts.jsx:17-31 | the page starts loading, with empty lists, no selection, a closed modal and an empty form |
| ContactsPage.Page.LoadContacts | src/components/pages/Contacts.jsx:33-44 | the fetched contacts replace the list; a failed fetch keeps the list and shows the load error; loading ends either way |
| ContactsPage.Page.SelectContact | src/components/pages/Contacts.jsx:196 | a card click selects that contact and changes nothing else |
| ContactsPage.Page.LoadContactActivities | src/components/pages/Contacts.jsx:46-63 | with a contact selected, the query is that contact's id and the activities become the answer's, none when the fetch fails, and only that contact's when the store honours the condition; with none selected, nothing is asked and nothing changes |
| ContactsPage.Page.HandleFormSubmit | src/components/pages/Contacts.jsx:72-96 | an edit with no selection makes no call; an edit sends update with the selected id and a new contact sends create; on success an edit patches the list and the selection, a creation appends, and the modal closes with an empty form; on failure nothing changes |
| ContactsPage.Page.HandleDelete | src/components/pages/Contacts.jsx:98-111 | after confirmation, unless the delete throws, the contact leaves the list and is unselected if it was selected; otherwise nothing changes |
| ContactsPage.Page.OpenModal | src/components/pages/Contacts.jsx:113-129 | editing selects the contact and fills the form from it; creating clears the form; the modal opens |
| ContactsPage.Page.ResetForm | src/components/pages/Contacts.jsx:131-139 | every form field is empty and nothing else changes |
| ContactsPage.Page.SetSearchTerm | src/components/pages/Contacts.jsx:168-172 | after typing a term the list shows exactly the contacts that match it, and nothing else changes |
| ActivitiesPage.TypeConfigOf | src/components/pages/Activities.jsx:163-165 | the table entry of the type, and the call entry for any type not in the table |
| ActivitiesPage.IconsAgree | src/components/pages/Activities.jsx:17-22 | the type table and the timeline icons agree on call, email and meeting |
| ActivitiesPage.NoteIconsDiffer | src/components/pages/Activities.jsx:17-22 | a note is drawn with FileText in the table but with Activity on the timeline |
| ActivitiesPage.FilteredActivities | src/components/pages/Activities.jsx:167-180 | exactly the activities passing the search, the type filter and the status filter, latest first |
| ActivitiesPage.ShowsExactly | src/components/pages/Activities.jsx:167-180 | an activity is shown exactly when it is listed and passes the search and both filters |
| ActivitiesPage.StatusViewsPartition | src/components/pages/Activities.jsx:167-180 | with the same search and type, the completed view and the pending view together hold every activity of the unfiltered view exactly as often, and their lengths add up to its length |
| ActivitiesPage.RelationTextRoundTrip | src/components/pages/Activities.jsx:129-130 | a relation shown in the form and parsed back carries the id it carried |
| ActivitiesPage.UnchangedEditTruncatesDate | src/components/pages/Activities.jsx:121-139 | saving an activity unchanged keeps its type, title, description, relations and status, but moves its date to midnight of its day |
| ActivitiesPage.UnchangedEditMovesTime | src/components/pages/Activities.jsx:121-139 | an activity not at midnight changes its date when saved unchanged |
| ActivitiesPage.Page.constructor | src/components/pages/Activities.jsx:25-44 | the page starts loading, with empty lists and filters, a closed modal and an empty call form |
| ActivitiesPage.Page.LoadData | src/components/pages/Activities.jsx:46-63 | all three lists are replaced, or none and the load error shows; loading ends either way |
| ActivitiesPage.Page.HandleFormSubmit | src/components/pages/Activities.jsx:69-94 | an edit with no selection makes no call; an edit sends update and a new activity sends create; on success the list is patched or appended to and the modal closes with an empty form; on failure nothing changes |
| ActivitiesPage.Page.HandleDelete | src/components/pages/Activities.jsx:96-106 | after confirmation, unless the delete throws, the activity leaves the list; otherwise nothing changes |
| ActivitiesPage.Page.HandleToggleComplete | src/components/pages/Activities.jsx:108-119 | sends the activity with completed flipped; on success the list is patched, on failure nothing changes |
| ActivitiesPage.Page.OpenModal | src/components/pages/Activities.jsx:121-139 | editing selects the activity and fills the form from it; creating clears the form; the modal opens |
| ActivitiesPage.Page.ResetForm | src/components/pages/Activities.jsx:141-151 | the form is a call with every other field empty, not completed |
| ActivitiesPage.Page.SetSearchTerm | src/components/pages/Activities.jsx:201-205 | after typing a term the list shows exactly the activities that pass it and the current filters |
| ActivitiesPage.Page.SetFilterType | src/components/pages/Activities.jsx:208-212 | after choosing a type the list shows exactly the activities that pass the search, that type and the status filter |
| ActivitiesPage.Page.SetFilterStatus | src/components/pages/Activities.jsx:218-222 | after choosing a status the list shows exactly the activities that pass the search, the type filter and that status |
| DealsPage.StageIndex | src/components/pages/Deals.jsx:255 | the place of the stage with that name, and -1 exactly when no stage has it |
| DealsPage.StageIndexOfStage | src/components/pages/Deals.jsx:15-21 | every stage is found at its own place: the names are distinct |
| DealsPage.LeftOf | src/components/pages/Deals.jsx:255-263 | a column has a left arrow exactly when it is not the first, and it leads to the previous stage |
| DealsPage.RightOf | src/components/pages/Deals.jsx:266-274 | a column has a right arrow exactly when it is not the last, and it leads to the next stage |
| DealsPage.ArrowsAtTheEnds | src/components/pages/Deals.jsx:255-274 | only Lead lacks a left arrow and only Closed lacks a right arrow |
| DealsPage.MoveRightIsUndone | src/components/pages/Deals.jsx:255-274 | a move right goes to the next stage, and a move left from there returns to the starting column |
| DealsPage.MoveLeftIsUndone | src/components/pages/Deals.jsx:255-274 | a move left goes to the previous stage, and a move right from there returns to the starting column |
| DealsPage.StageBadgeColor | src/components/pages/Deals.jsx:145-148 | the colour of the named stage, and grey for a name that is no stage |
| DealsPage.UnknownStageLooksLikeLead | src/components/pages/Deals.jsx:145-148 | a deal in an unknown stage wears the Lead colour |
| DealsPage.Column | src/components/pages/Deals.jsx:184-186 | exactly the deals of that stage, each as often as it is listed, and no more deals than the list |
| DealsPage.ColumnInOrder | src/components/pages/Deals.jsx:184-186 | a column keeps list order: a first deal of the stage comes first, and the list's parts are filtered part by part |
| DealsPage.OnBoardIsStage | src/components/pages/Deals.jsx:15-21 | a deal shows on the board exactly when its stage is one of the five |
| DealsPage.ColumnStep | src/components/pages/Deals.jsx:184-186 | the first deal counts in, and adds its value to, the column of its own stage only |
| DealsPage.ColumnsCount | src/components/pages/Deals.jsx:184-186 | the five columns together count every deal in a known stage exactly once |
| DealsPage.ColumnsValue | src/components/pages/Deals.jsx:184-186 | the five column totals together sum the value of every deal in a known stage exactly once |
| DealsPage.UnchangedEditKeepsDeal | src/components/pages/Deals.jsx:110-127 | saving a deal unchanged keeps its title, value, stage, probability, creation time and contact id, but moves its close date to midnight of its day |
| DealsPage.Page.constructor | src/components/pages/Deals.jsx:24-38 | the page starts loading, with empty lists, a closed modal and an empty form at stage Lead |
| DealsPage.Page.LoadData | src/components/pages/Deals.jsx:40-55 | both lists are replaced, or neither and the load error shows; loading ends either way |
| DealsPage.Page.HandleFormSubmit | src/components/pages/Deals.jsx:61-86 | an edit with no selection makes no call; an edit sends update and a new deal sends create; on success the list is patched or appended to and the modal closes with an empty form; on failure nothing changes |
| DealsPage.Page.HandleDelete | src/components/pages/Deals.jsx:88-98 | after confirmation, unless the delete throws, the deal leaves the list; otherwise nothing changes |
| DealsPage.Page.HandleStageChange | src/components/pages/Deals.jsx:100-108 | sends the new stage alone; on success the list is patched, on failure nothing changes |
| DealsPage.Page.OpenModal | src/components/pages/Deals.jsx:110-127 | editing selects the deal and fills the form from it; a deal without a contact throws after being selected, leaving the form and the modal as they were; creating clears the form; the modal opens |
| DealsPage.Page.ResetForm | src/components/pages/Deals.jsx:129-138 | every form field is empty and the stage is Lead |
| DashboardPage.DealTotals | src/components/pages/Dashboard.jsx:49-53 | the closed count plus the active count is the number of deals, and the total value is the pipeline value plus the closed value |
| DashboardPage.ClosedIsLastColumn | src/components/pages/Dashboard.jsx:50 | the closed deals are the Closed column of the board |
| DashboardPage.RecentActivities | src/components/pages/Dashboard.jsx:54-56 | at most five activities, drawn from the list, latest first, and none left out is later than one shown |
| DashboardPage.UpcomingActivities | src/components/pages/Dashboard.jsx:57-59 | at most three activities, each after now and not completed; they are the upcoming activities of a prefix of the list, in list order, so the first ones; with fewer than three, every such activity |
| DashboardPage.SortSorted | src/components/pages/Dashboard.jsx:55 | sorting a list already latest first leaves it unchanged |
| DashboardPage.UpcomingAreLatest | src/components/pages/Dashboard.jsx:54-59 | taken from the list the render sorted, the upcoming activities shown are the latest ones: none left out is later than one shown |
| DashboardPage.Overview | src/components/pages/Dashboard.jsx:169-171 | one row for each of Lead, Qualified, Proposal and Negotiation, in order, each with the count and value of its column |
| DashboardPage.OverviewIsBoardButClosed | src/components/pages/Dashboard.jsx:169 | the overview stages are the board's stages in order, without the last, Closed |
| DashboardPage.OverviewCoversPipeline | src/components/pages/Dashboard.jsx:169-171 | when every deal is in a known stage, the overview counts add up to the active count and its values to the pipeline value |
| DashboardPage.Page.constructor | src/components/pages/Dashboard.jsx:15-19 | the page starts loading, with empty lists and no error |
| DashboardPage.Page.LoadData | src/components/pages/Dashboard.jsx:21-40 | all three lists are replaced, or none and the load error shows; loading ends either way |
| DashboardPage.Page.Render | src/components/pages/Dashboard.jsx:46-59 | nothing is shown while loading or after an error; otherwise the activities state is sorted in place, and the view holds the cards, the recent and upcoming lists and the overview |
| DashboardPage.RenderAgain | src/components/pages/Dashboard.jsx:54-56 | a second render does not reorder the sorted activities and shows the same recent list |

## Left out

- The store client (`fetchRecords`, `getRecordById`, `createRecord`, `updateRecord`, `deleteRecord`) is not part of this model. Its answers are parameters, and the query parameters (field lists, ordering, paging) are not modelled.
- Which wire record the store returns after a write is an assumption of the round-trip lemmas. `Stored` returns the fields that were written. The deal `Updated` overwrites the sent fields and keeps `created_at_c`.
- The `...record` spread that copies every wire field into the page object is not modelled; the page objects carry only the mapped fields.
- `parseFloat` of a deal value is modelled as the integer parse: fractions and exponents are left out.
- Text.ParseInt: `parseInt` without a radix reads a `0x` or `0X` prefix as hexadecimal (`parseInt("0x1A")` is 26); the model reads the leading `0` and gives 0. The page inputs that reach `parseInt` are select values, number inputs and ids, which never carry that prefix.
- Whitespace is space, tab, line feed, vertical tab, form feed and carriage return; the non-ASCII white space JavaScript also trims (U+00A0, U+FEFF, U+2028, U+2029 and the Unicode space separators) is not modelled, and `toLowerCase` changes ASCII letters only.
- Numbers are unbounded integers. JavaScript numbers are doubles: deal values, probabilities and the sums in Deals.jsx:185 and Dashboard.jsx:49-53 lose precision past 2^53, and `toString` prints a magnitude of 10^21 or more in exponent form (so `parseInt` of it gives the leading digit). Neither limit is modelled.
- Text.ParseIntToString: holds for every integer of the model; in JavaScript it holds only below 10^21 in magnitude, because of the exponent form above.
- `new Date().toISOString()` and date strings are integer milliseconds. An invalid date string is not modelled.
- Toasts, `console.error`, the JSX rendering, navigation, `date-fns` formatting, the currency formatting and the `(value / 1000).toFixed(0)` "K" texts are left out.
- The `useEffect` wiring is reduced to the handlers it calls. React's batching of state updates is not modelled: each handler's updates apply in order.
- The page save handlers return the adapter call they make and take its outcome as a parameter. The form is carried in that call rather than the draft built from it.
- The form field edits (`onChange` of each input) are plain field writes and are not modelled as methods.
- `getActivityIcon` is defined twice, in Contacts.jsx:141-148 and Dashboard.jsx:61-68, with the same body. It is modelled once, as `Lookups.ActivityIcon`. `getContactName` (Activities.jsx:153-156, Deals.jsx:140-143) is modelled once too, as `Lookups.ContactName`.
- `DealService.UpdateStageRecord`: the stage update follows the code, which goes through `update` and so resets every other field. It does not change only the stage.
- Lists.SortDesc: the descending insertion sort places later equal dates after earlier ones, as a stable sort does; its contract states order and permutation, not that tie order.
