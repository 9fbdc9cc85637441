# Parking areas screen and command message, modelled in Dafny

This project models two pieces of the PGSS Android client (a parking-management app).

1. **The area-list screen** (`AreaListActivity`). It shows the areas of one car park. It fetches them once from the backend. A failed fetch is re-issued straight away. A response whose success flag is off is dropped. A long-click on an area opens a rename dialog. That dialog's confirm button is enabled only while the trimmed text is non-empty. Confirm writes the raw text into the focused area's name.
2. **The command message bean** (`CommandPackage`). It has three fixed command tokens and three mutable fields (user name, car-park id, command). Each field has a getter and a setter, and each is serialised under a fixed JSON key.

Files:

- `wrappers.dfy`: `Option`, which stands for Java's `null`.
- `java_lang.dfy`: Java's 32-bit `int` and `String.trim`. `trim` strips every character at or below U+0020 from both ends. The module proves that the trimmed text is non-empty exactly when the text holds a character above U+0020.
- `area_list_state.dfy`: the screen as a value (`Screen`) with its invariant. The events are the fetch guard, the response and failure callbacks, the long-click, the text watcher and the positive button. `Step` gives the transition for each event and `Run` runs a sequence of events. Lemmas cover single events and whole runs.
- `area_list_activity.dfy`: the class `AreaListActivity`. Its fields are updated in place, one method per event. Each method is proved to make exactly the transition `Step` gives for its event.
- `command_package.dfy`: the class `CommandPackage` with its constants, getters and setters, plus the JSON mapping and its reading direction.

Modelling choices:

- The focused area is an index into `areas`, not a reference.
- Network callbacks are input events. A response or failure event needs a pending request, because the HTTP library only calls back for a call that was enqueued.
- Issued requests are kept as a log of car-park ids. Adapter notifications are kept as a log too.
- Setting the dialog text fires the text watcher before the button is disabled (`AreaListActivity.java:110-111`). The model runs the watcher at that point as well.
- The Toast in `updateArea` becomes the message that `UpdateArea` returns.

## Model

| member | source | states |
|---|---|---|
| JavaLang.Trim | Android/app/src/main/java/com/fptuni/capstone/pgss/activities/AreaListActivity.java:151 | the result is the part of the text from its first to its last character above U+0020; every character outside that part is at or below U+0020 |
| JavaLang.TrimNonEmptyIff | Android/app/src/main/java/com/fptuni/capstone/pgss/activities/AreaListActivity.java:151 | `trim(s)` is non-empty exactly when `s` holds a character above U+0020 |
| JavaLang.TrimIdempotent | Android/app/src/main/java/com/fptuni/capstone/pgss/activities/AreaListActivity.java:151 | trimming an already trimmed text changes nothing |
| AreaListState.Initial | Android/app/src/main/java/com/fptuni/capstone/pgss/activities/AreaListActivity.java:92-96 | a missing car-park extra gives id -1; the list is empty, nothing is focused, requested or notified; the invariant holds |
| AreaListState.ConfirmAllowed | Android/app/src/main/java/com/fptuni/capstone/pgss/activities/AreaListActivity.java:150-152 | the confirm rule `trim(s).length() > 0` holds exactly when `s` has a character above U+0020 |
| AreaListState.Rename | Android/app/src/main/java/com/fptuni/capstone/pgss/activities/AreaListActivity.java:134-136 | `setName` on the focused area changes that area's name to the given text and nothing else: same length, same id, every other area the same |
| AreaListState.Step | Android/app/src/main/java/com/fptuni/capstone/pgss/activities/AreaListActivity.java:108-180 | every event keeps the screen invariant: requests only for the screen's non-negative car park, callbacks only for pending requests, the focused index in range, an enabled confirm only with a non-blank text, insertion notices starting at 0 |
| AreaListState.FetchGuardBlocks | Android/app/src/main/java/com/fptuni/capstone/pgss/activities/AreaListActivity.java:161-165 | with a negative car-park id (including the -1 default) the guard issues no request and leaves the whole screen unchanged |
| AreaListState.FetchIssuesRequest | Android/app/src/main/java/com/fptuni/capstone/pgss/activities/AreaListActivity.java:161-167 | with a non-negative id exactly one request for that id is issued and nothing else changes |
| AreaListState.SuccessAppends | Android/app/src/main/java/com/fptuni/capstone/pgss/activities/AreaListActivity.java:169-174 | on a successful response the list becomes the old list followed by the result in its order; the notice reports start 0 and the new total size; the rest is unchanged |
| AreaListState.UnsuccessfulResponseIgnored | Android/app/src/main/java/com/fptuni/capstone/pgss/activities/AreaListActivity.java:169-175 | a response with the success flag off changes nothing but the pending count and issues no new request |
| AreaListState.FailureReissues | Android/app/src/main/java/com/fptuni/capstone/pgss/activities/AreaListActivity.java:177-180 | on failure the same request for the same car park is issued again; the list and all other fields are unchanged |
| AreaListState.LongClickOpensEditor | Android/app/src/main/java/com/fptuni/capstone/pgss/activities/AreaListActivity.java:107-113 | a long-click on row p focuses area p, puts its name into the text field and disables confirm; nothing else changes |
| AreaListState.TextChangeGatesConfirm | Android/app/src/main/java/com/fptuni/capstone/pgss/activities/AreaListActivity.java:149-152 | after a text change the text field holds the new text and confirm is enabled exactly when that text has a character above U+0020; nothing else changes |
| AreaListState.ConfirmRenamesFocused | Android/app/src/main/java/com/fptuni/capstone/pgss/activities/AreaListActivity.java:132-137 | confirm sets the focused area's name to the raw, untrimmed text; the length, the order and every other area stay the same; no other field changes |
| AreaListState.EnabledConfirmStoresVisibleName | Android/app/src/main/java/com/fptuni/capstone/pgss/activities/AreaListActivity.java:134-152 | if confirm was enabled, the stored name has a character above U+0020 |
| AreaListState.StepIds | Android/app/src/main/java/com/fptuni/capstone/pgss/activities/AreaListActivity.java:167-181 | one event extends the list of ids by exactly the ids of the areas it delivers |
| AreaListState.RunIds | Android/app/src/main/java/com/fptuni/capstone/pgss/activities/AreaListActivity.java:161-187 | over any run, the ids on screen are the old ids followed by the ids of every successful response's areas in arrival order; renames never add, drop or move an area |
| AreaListState.RunWithoutRenameAppends | Android/app/src/main/java/com/fptuni/capstone/pgss/activities/AreaListActivity.java:161-181 | a run without confirms leaves the list as the old list followed by all successfully fetched areas in arrival order |
| AreaListState.SingleRequestRun | Android/app/src/main/java/com/fptuni/capstone/pgss/activities/AreaListActivity.java:161-181 | while only failures re-issue requests, at most one request is pending or successfully answered; a notified screen gets nothing more; a first notice covers the old areas plus exactly the delivered ones |
| AreaListState.CreatedScreenNotifiesOnce | Android/app/src/main/java/com/fptuni/capstone/pgss/activities/AreaListActivity.java:69-79 | after creation at most one request is ever pending and at most one insertion notice arrives; that notice, start 0 with the full size, covers exactly the fetched areas |
| AreaListState.NoCarParkNoFetch | Android/app/src/main/java/com/fptuni/capstone/pgss/activities/AreaListActivity.java:161-165 | a screen with a negative car-park id and an empty list never issues a request and its list stays empty, whatever events follow |
| AreaListState.MissingExtraNeverFetches | Android/app/src/main/java/com/fptuni/capstone/pgss/activities/AreaListActivity.java:92-93 | a screen opened without the car-park extra never requests anything and shows no areas |
| AreaListActivities.AreaListActivity.constructor | Android/app/src/main/java/com/fptuni/capstone/pgss/activities/AreaListActivity.java:92-97 | fields start as `Initial` gives: car-park id from the extra or -1, empty list |
| AreaListActivities.AreaListActivity.GetAreaData | Android/app/src/main/java/com/fptuni/capstone/pgss/activities/AreaListActivity.java:161-166 | the guard: a negative id leaves requests unchanged; otherwise one request for the id is appended; the list is untouched |
| AreaListActivities.AreaListActivity.OnResponse | Android/app/src/main/java/com/fptuni/capstone/pgss/activities/AreaListActivity.java:169-175 | success appends the result and notifies (0, new size); no success leaves the list as it was; no request is issued |
| AreaListActivities.AreaListActivity.OnFailure | Android/app/src/main/java/com/fptuni/capstone/pgss/activities/AreaListActivity.java:177-180 | the request for the same car park is issued again; the list is unchanged |
| AreaListActivities.AreaListActivity.OnItemLongClick | Android/app/src/main/java/com/fptuni/capstone/pgss/activities/AreaListActivity.java:108-113 | focuses the clicked area, loads its name into the text field, leaves confirm disabled |
| AreaListActivities.AreaListActivity.OnTextChanged | Android/app/src/main/java/com/fptuni/capstone/pgss/activities/AreaListActivity.java:150-152 | stores the text and sets confirm to whether the text has a character above U+0020; nothing else changes |
| AreaListActivities.AreaListActivity.OnPositive | Android/app/src/main/java/com/fptuni/capstone/pgss/activities/AreaListActivity.java:132-137 | renames the focused area to the raw text (only that element changes) and returns the message `updateArea` shows |
| AreaListActivities.AreaListActivity.UpdateArea | Android/app/src/main/java/com/fptuni/capstone/pgss/activities/AreaListActivity.java:184-187 | changes nothing and shows the focused area's current name |
| Network.CommandTokens | Android/app/src/main/java/com/fptuni/capstone/pgss/network/CommandPackage.java:10-12 | the tokens are exactly "reserve", "cancel" and "checkin" and are pairwise distinct |
| Network.SerializedKeys | Android/app/src/main/java/com/fptuni/capstone/pgss/network/CommandPackage.java:14-19 | the JSON keys are exactly "username", "car_park_id" and "command" and are pairwise distinct |
| Network.Encode | Android/app/src/main/java/com/fptuni/capstone/pgss/network/CommandPackage.java:14-19 | the JSON object holds only the three keys; "car_park_id" always holds the id; "username" and "command" are present exactly when the field is non-null and then hold its value |
| Network.Decode | Android/app/src/main/java/com/fptuni/capstone/pgss/network/CommandPackage.java:14-19 | reading an object gives the values found under the three keys; missing or null means null (or 0); a value of the wrong type is an error |
| Network.DecodeEncode | Android/app/src/main/java/com/fptuni/capstone/pgss/network/CommandPackage.java:14-19 | reading back a serialised package gives its three field values |
| Network.EncodeInjective | Android/app/src/main/java/com/fptuni/capstone/pgss/network/CommandPackage.java:14-19 | two packages that serialise alike have equal fields |
| Network.CommandPackage.constructor | Android/app/src/main/java/com/fptuni/capstone/pgss/network/CommandPackage.java:15-22 | a new package has username null, car-park id 0 and command null |
| Network.CommandPackage.GetUsername | Android/app/src/main/java/com/fptuni/capstone/pgss/network/CommandPackage.java:24-26 | returns the current user name and changes no field |
| Network.CommandPackage.SetUsername | Android/app/src/main/java/com/fptuni/capstone/pgss/network/CommandPackage.java:28-30 | afterwards the user name is the argument; the id and the command are unchanged |
| Network.CommandPackage.GetCarParkId | Android/app/src/main/java/com/fptuni/capstone/pgss/network/CommandPackage.java:32-34 | returns the current car-park id and changes no field |
| Network.CommandPackage.SetCarParkId | Android/app/src/main/java/com/fptuni/capstone/pgss/network/CommandPackage.java:36-38 | afterwards the id is the argument; the user name and the command are unchanged |
| Network.CommandPackage.GetCommand | Android/app/src/main/java/com/fptuni/capstone/pgss/network/CommandPackage.java:40-42 | returns the current command and changes no field |
| Network.CommandPackage.SetCommand | Android/app/src/main/java/com/fptuni/capstone/pgss/network/CommandPackage.java:44-46 | afterwards the command is the argument, whatever string it is (it is not checked against the tokens); the other fields are unchanged |
| Network.CommandPackage.ToJson | Android/app/src/main/java/com/fptuni/capstone/pgss/network/CommandPackage.java:14-19 | the JSON for the current fields reads back as exactly those field values, and "car_park_id" holds the id |

## Left out

- Activity lifecycle and views are not modelled: `onCreate` beyond its one call of the fetch guard, view binding, the toolbar, the title, building the dialog, `dialog.show()` and dialog dismissal. None of them holds logic.
- Navigation is not modelled: `createIntent`, `onItemClick` and `onOptionsItemSelected` only start or finish activities.
- The HTTP client and `call.enqueue` are not modelled. A response and a failure are input events. The retry chain is modelled one failure at a time, as the re-issue of a request. Tearing down the screen does not stop it, and nothing in the code cancels it.
- A null response body is not modelled: the response event always carries the success flag and the result list. The code would throw on a null body.
- The `Area` class is not part of this model. The screen only uses an area's id and name, so `Area` holds just those two. Areas are values, so the aliasing between `focusedArea` and the list element is captured only through the index.
- Only the initial state of the confirm button matters. It starts enabled, the platform default. The invariant about it applies once an area has been focused, because the dialog cannot be seen before that.
- Java `char` is a UTF-16 code unit and a Dafny `char` is a Unicode scalar value. `trim` only compares against U+0020, so the difference does not affect the confirm rule.
- JSON serialisation internals are not modelled (writer, ordering, escaping, lenient type coercion when reading). `Encode` assumes the serialiser's default of omitting null members; the service's serialiser configuration is not part of this model. `Decode` reads strictly, with missing or null members giving Java defaults.
- The code has none of these checks, so the model has none either: trimming or rejecting the name on confirm, a car-park check on fetched areas, not-found errors, checking the command against its tokens, a guard against a second fetch in flight.
