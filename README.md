# Daily Task Manager: the activity organizer, modelled in Dafny

The application keeps a list of activity records in a browser page. Each record has
an id, a name, a category (the record's `type` property), a priority, notes, a
completion flag and two timestamps. The `ActivityOrganizer` object owns that list and
the current filter selection, and it changes them when the user acts:

- create a record from the form, or refuse a form with missing fields;
- toggle a record's completion;
- rename a record through the edit dialog;
- remove a record after confirmation;
- choose or reset the category and priority filters.

It also computes the list the view shows and the summary counts.

The project has five modules:

- `Wrappers`: `Option`, which stands for a value that may be `null`.
- `Text`: `Trim`, JavaScript's `String.prototype.trim`, with the ECMAScript whitespace
  and line-terminator characters written out.
- `Sequences`: `Filter`, the model of `Array.prototype.filter`, and `IsSubsequence`.
- `Activities`: the `Activity` record. It also holds the pure list operations behind
  each organizer action (`AddActivity`, `ToggleActivity`, `RenameActivity`,
  `RemoveId`, `FilterActivities`, `Summarize`) and the lemmas about them.
- `Organizer`: the class `ActivityOrganizer`. Its fields `activities` and
  `activeFilters` are updated in place. Each action is a method whose postcondition
  gives the new state as a pure function of the old state.

Values the browser supplies are parameters:

- the fresh id and the current ISO-8601 timestamp;
- the answer of `confirm` (a `bool`) and of `prompt` (an `Option<string>`, where
  `None` means the dialog was cancelled);
- the list read from local storage.

Each method returns the notification that `displayMessage` would show, instead of
rendering it. A ghost field `persisted` stands for the list in local storage, and the
invariant `Valid()` says that every change has been written through to it.

These invariants are proved to be preserved, not assumed (a stored list need not meet
them):

- the completion timestamp is present exactly when the record is completed;
- a validated record has a non-empty trimmed name, a category and a priority;
- ids are unique, provided that each created record gets an id not already in use.

Toggling a record twice restores its flag, but a completed record does not get its old completion time back: it ends up stamped with the time of the second toggle.

For an unknown id the model does what the code does. Toggle and rename change nothing
and show nothing. A confirmed remove changes nothing but still shows the removal
notice. No not-found error is raised.

## Model

| member | source | states |
|---|---|---|
| `Text.Trim` | script.js:60-63 | the result is a slice of the input with only whitespace outside it, has no whitespace at either end, and is empty exactly when the input is all whitespace |
| `Text.TrimmedIsFixed` | script.js:119 | a string with no whitespace at either end is its own trim |
| `Text.TrimIdempotent` | script.js:118-119 | trimming an already trimmed name changes nothing |
| `Sequences.Filter` | script.js:104 | `filter` returns a subsequence whose elements all pass the predicate, and it keeps every passing element as often as it occurs |
| `Sequences.FilterMembership` | script.js:134-140 | an element is in the result exactly when it is in the input and passes the predicate |
| `Sequences.FilterKeepsAll` | script.js:134-140 | a predicate every element passes returns the whole list unchanged |
| `Activities.NewActivity` | script.js:58-73 | a form is accepted exactly when the trimmed name, the type and the priority are non-empty; the record then has the trimmed name and notes, is pending, has no completion time, and is well-formed |
| `Activities.AddActivity` | script.js:69-75 | a refused form leaves the list unchanged; an accepted one makes the list one longer, with the new record at index 0 and the old records after it in their order; well-formedness and (given a fresh id) unique ids are preserved |
| `Activities.FindIndex` | script.js:92 | `find` locates the first record with the id, and finds none exactly when no record has it |
| `Activities.FindIndexByIds` | script.js:114 | the lookup depends only on the ids, so renaming and toggling keep later lookups unchanged |
| `Activities.Toggled` | script.js:94-95 | the flag is negated, the completion timestamp is present exactly when the new flag is set (set to now), and no other field changes |
| `Activities.ToggleActivity` | script.js:91-100 | only the first record with the id is toggled and every other record stays the same; an unknown id changes nothing; ids and well-formedness are preserved |
| `Activities.ToggleTwice` | script.js:92-95 | toggling twice restores every completion flag and, for consistent records, whether a timestamp is present; only the timestamp can differ |
| `Activities.TogglePendingTwice` | script.js:92-95 | toggling a record that is pending and has no completion time twice gives back exactly the original list |
| `Activities.ToggleCompletedTwice` | script.js:94-95 | toggling a completed record twice does not restore its completion time: the first toggle clears it and the second sets it to the later time |
| `Activities.RenameActivity` | script.js:113-124 | with a known id and an answer that is non-null and not blank, only the name of the first matching record changes, to the trimmed answer; otherwise nothing changes; ids, flags and well-formedness are preserved |
| `Activities.SubsequenceUniqueIds` | script.js:104 | dropping records cannot create duplicate ids |
| `Activities.RemoveId` | script.js:104 | no record with the id survives; each other record survives as often as it occurred and in its order; without the id the list is unchanged; well-formedness and unique ids are preserved |
| `Activities.RemoveKnownId` | script.js:104 | with unique ids, removing a present id lowers the total by exactly one |
| `Activities.FilterActivities` | script.js:133-141 | the shown list is a subsequence of the list; each record in it equals every non-empty selection; it holds exactly the matching records, each as often as it occurs in the list; with both selections empty it is the whole list |
| `Activities.DoneCount` | script.js:231 | the number of records `filter(a => a.isCompleted)` keeps is the number of set completion flags, at most the list length |
| `Activities.Summarize` | script.js:229-232 | total is the list length; completed is the number of completed records, between 0 and total; pending is total minus completed and is not negative |
| `Activities.ToggleCounts` | script.js:92-98 | toggling keeps the total; it raises completed by one for a pending record and lowers it by one for a completed record; an unknown id changes no count |
| `Activities.RenameCounts` | script.js:119 | renaming never changes the counts |
| `Organizer.ActivityOrganizer.constructor` | script.js:3-8 | the list is the stored one, or empty when nothing is stored; both filters are empty |
| `Organizer.ActivityOrganizer.CreateNewActivity` | script.js:54-89 | the new list is `AddActivity` of the old list; the notice is the success message or the missing-fields error; filters are untouched; the change is persisted |
| `Organizer.ActivityOrganizer.ToggleActivityStatus` | script.js:91-100 | the new list is `ToggleActivity` of the old list; filters are untouched; the change is persisted |
| `Organizer.ActivityOrganizer.RemoveActivity` | script.js:102-111 | when confirmed, the new list is `RemoveId` of the old list with the removal notice; when declined, nothing changes and there is no notice |
| `Organizer.ActivityOrganizer.ModifyActivity` | script.js:113-124 | the new list is `RenameActivity` of the old list; the update notice appears exactly when the id is known and the answer is non-null and not blank |
| `Organizer.ActivityOrganizer.SetCategoryFilter` | script.js:33-36 | only the category selection changes |
| `Organizer.ActivityOrganizer.SetPriorityFilter` | script.js:38-41 | only the priority selection changes |
| `Organizer.ActivityOrganizer.ClearAllFilters` | script.js:126-131 | both selections become empty and the list is untouched |
| `Organizer.ActivityOrganizer.GetFilteredActivities` | script.js:133-141 | the shown list is a subsequence of the state's list and holds exactly the records matching the current selection, each as often as it occurs in the list; with no selection it is the whole list |
| `Organizer.ActivityOrganizer.Summary` | script.js:229-232 | total is the list length; completed is the number of set completion flags and at most total; pending is the difference |

## Left out

- Rendering and DOM wiring are not modelled, because they are view code over browser APIs. This covers `setupEventHandlers` (apart from the two filter assignments), `renderActivities`, `buildActivityCard`, `attachActivityCardEvents`, `toggleEmptyState`, `sanitizeText`, the DOM writes of `updateSummary` and `clearAllFilters`, and the form reset.
- `displayMessage` is reduced to the notice it receives. Its DOM element, styles and timers are browser effects.
- `persistToStorage` and `loadFromStorage` use `localStorage` and JSON. The model keeps only the `persisted` snapshot and the constructor's `stored` parameter, and it takes the JSON round trip to be the identity.
- `generateUniqueId` and `new Date().toISOString()` are clock and random calls. They become the `id` and `now` parameters. The source does not guarantee unique ids, so the lemmas about uniqueness take a fresh id as a hypothesis.
- `confirm` and `prompt` are blocking dialogs. Their answers are the `confirmed` and `answer` parameters. A cancelled prompt is `None`.
- `addSampleActivities` is demonstration data that writes storage and reloads the page.
- Form fields are modelled as strings. The empty string also stands for a missing `type` or priority, which `formData.get` returns as `null` and the validation treats as empty. A missing name or notes field would make `.trim()` throw. That cannot happen with the page's form, so it is not modelled.
- Records are values in a sequence. The source mutates the record object that `find` returned, and nothing else holds that object, so replacing the record at its index is equivalent.
