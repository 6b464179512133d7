# SaltGUI job panel, radio drop-down and beacon panel — a Dafny model

This project models three parts of SaltGUI, the web front end for SaltStack.

- **The Job panel** (`JobPanel` in `panels/Job.js`) shows the result of one job.
  - It keeps the job's minion roster and result map.
  - From them it derives the "re-run on all / unsuccessful / failed / non-responding minions" target lists. An empty list hides that menu item.
  - It renders the job's arguments as command-line text. Keyword arguments are expanded in sorted key order.
  - It picks the roster it displays and tracks the three-valued `jobIsTerminated` flag. That flag gates the terminate, kill and signal items.
  - It merges `salt/job/<jid>/ret` events into a per-job status level. The level only rises until the job's status element is re-created, which starts it again at 0.
- **The radio drop-down** (`DropDownMenuRadio` in `DropDownRadio.js`) is a menu with a selected value and a default value.
  - The item holding the selected value is marked ●.
  - While nothing is selected, the default item is marked ○.
- **The beacons panel of one minion** (`BeaconsMinionPanel` in `panels/BeaconsMinion.js`):
  - lists the minion's beacons, one row per beacon in sorted name order;
  - simplifies each beacon's configuration;
  - offers exactly one of enable/disable for the panel and for each beacon;
  - updates a row when a `salt/beacon/<minion>/<name>[/...]` event arrives while the panel is in "play" state.

Modules:

- `Wrappers`: `Option`.
- `Strings`: the JavaScript string operations the code relies on:
  - default `sort` order;
  - `join(",")`;
  - `split(",")`, which the code does not call: the model uses it to read a comma-joined target list back as the `list` target type reads it;
  - `startsWith`;
  - `trim`.
- `Js`: JavaScript values. Objects are ordered property lists. `Js.JsObject` is a mutable object whose properties are deleted in place.
- `RerunLists`: the re-run lists as specification functions, and their meaning.
- `JobArguments`: `decodeArgumentsObj` / `decodeArgumentsArray`.
- `JobStatus`: classifying completion events and merging them into levels.
- `JobPanels`: the `JobPanel` class, with its fields, its event handlers and its menu gates.
- `DropDownRadio`: the `DropDownMenuRadio` class.
- `BeaconsMinion`: tag parsing, event-data clean-up, beacon simplification, rows, and the `BeaconsMinionPanel` class.

Opaque helpers are parameters of the model. They are total functions supplied by the caller:

- `JSON.stringify`;
- the jid pattern of `ParseCommandLine.getPatJid`;
- the simple-name regular expression of `decodeArgumentsObj`;
- `Output.formatObject`;
- `Output.dateTimeStr`.

Two displayed facts are modelled as state:

- which job status elements are displayed: the domain of `statusLevel`;
- whether the "active jobs" summary element exists: a boolean parameter.

## Model

| member | source | states |
|---|---|---|
| Strings.Sort | saltgui/static/scripts/panels/Job.js:139 | `Object.keys(obj).sort()`: the result is ordered by JavaScript's default string order and is a permutation of the keys |
| Strings.SortedPermutationUnique | saltgui/static/scripts/panels/BeaconsMinion.js:86 | two sorted permutations of the same keys are equal, so the sorted key order is fully determined |
| Strings.SplitJoin | saltgui/static/scripts/panels/Job.js:291-306 | comma-joining ids that hold no comma and splitting again gives back the ids, in order |
| Strings.Trim | saltgui/static/scripts/panels/BeaconsMinion.js:125 | `trim()` leaves no ECMAScript whitespace or line terminator at either end, and the result is a slice of the input with only whitespace around it |
| Strings.TrimLeading | saltgui/static/scripts/panels/BeaconsMinion.js:125 | a leading whitespace character does not change the trimmed text |
| Js.Without | saltgui/static/scripts/panels/BeaconsMinion.js:223 | deleting a property removes the key, keeps the other keys in their order with their entries, and changes nothing when the key is absent |
| Js.GetWithout | saltgui/static/scripts/panels/BeaconsMinion.js:229-231 | after deleting `k`, reading `k` is undefined and every other key reads as before |
| Js.JsObject.DeleteKey | saltgui/static/scripts/panels/BeaconsMinion.js:223 | `delete obj[k]` in place: the object's properties become those without `k` |
| RerunLists.IsResultOk | saltgui/static/scripts/panels/Job.js:90-98 | a result is ok exactly when `success` is truthy and `retcode` is exactly the number 0 |
| RerunLists.Filter | saltgui/static/scripts/panels/Job.js:374-379 | the kept ids are exactly the roster ids that meet the condition |
| RerunLists.Classification | saltgui/static/scripts/panels/Job.js:330-340 | a minion is failed iff it is on the roster, answered and not ok; it is non-responding iff it is on the roster and did not answer; it is unsuccessful iff it is one of the two; no minion is both |
| RerunLists.ListsKeepRosterOrder | saltgui/static/scripts/panels/Job.js:330-340 | the failed, non-responding and unsuccessful lists are subsequences of the roster |
| RerunLists.UnsuccessfulIsMerge | saltgui/static/scripts/panels/Job.js:322-354 | the unsuccessful list, filtered to its failed and to its non-responding members, gives back exactly the failed and the non-responding lists: it is their order-preserving merge |
| RerunLists.UnsuccessfulNeedsBoth | saltgui/static/scripts/panels/Job.js:343-353 | the unsuccessful target exists only when both the failed and the non-responding targets exist, and then it is the whole unsuccessful list |
| RerunLists.PrefixedJoin | saltgui/static/scripts/panels/Job.js:291-306 | the accumulator `minionList` with its first character dropped is the comma-joined roster |
| RerunLists.PrefixedSingleton | saltgui/static/scripts/panels/Job.js:301-304 | the "trivial case" test `minionList === "," + minions[0]` holds exactly for a roster of one entry |
| RerunLists.AllMinionsTargetsDenote | saltgui/static/scripts/panels/Job.js:286-307 | the all-minions target is absent iff there is no roster or it has at most one entry; otherwise splitting it gives the roster |
| RerunLists.FailedTargetsDenote | saltgui/static/scripts/panels/Job.js:369-387 | the failed target is absent iff every answered roster member is ok; otherwise splitting it gives exactly the failed minions in roster order |
| RerunLists.NonRespondingTargetsDenote | saltgui/static/scripts/panels/Job.js:402-420 | the non-responding target is absent iff every roster member answered; otherwise splitting it gives exactly the missing minions in roster order |
| RerunLists.UnsuccessfulTargetsDenote | saltgui/static/scripts/panels/Job.js:322-354 | splitting a present unsuccessful target gives exactly the missing-or-not-ok minions in roster order |
| RerunLists.AllAnsweredNoneMissing | saltgui/static/scripts/panels/Job.js:408-412 | when every roster member is a result key, the non-responding list is empty |
| RerunLists.PrototypeNameMisclassified | saltgui/static/scripts/panels/Job.js:376 | the code as written lists an unanswered minion named "constructor" as failed and not as non-responding; the own-key lists do the opposite |
| RerunLists.PrototypeNameHidesUnsuccessful | saltgui/static/scripts/panels/Job.js:330-351 | for roster `["constructor", "x"]` with only `x` answered and failed, the code as written hides the unsuccessful item (`has1` stays false), while the own-key target is "constructor,x" |
| RerunLists.AsWrittenAgrees | saltgui/static/scripts/panels/Job.js:330-351 | for rosters without inherited property names, the failed, non-responding and unsuccessful lists as written, and the unsuccessful target with its `has1`/`has2` gate, equal the own-key ones |
| JobArguments.DecodeArgumentsObj | saltgui/static/scripts/panels/Job.js:100-114 | a string that matches the jid pattern or the simple-name pattern is shown verbatim; everything else is `JSON.stringify`'d |
| Strings.Omit | saltgui/static/scripts/panels/Job.js:140-143 | skipping `__kwarg__` keeps exactly the other keys, in their order |
| JobArguments.KwargKeysSound | saltgui/static/scripts/panels/Job.js:138-145 | the keys expanded for a kwargs object are exactly its own keys other than `__kwarg__`; they are sorted and each occurs once |
| JobArguments.OmitSortedDistinct | saltgui/static/scripts/panels/Job.js:139-143 | skipping a key keeps the keys sorted and distinct |
| JobArguments.KwargTextAppend | saltgui/static/scripts/panels/Job.js:140-145 | each further key appends exactly " key=value" to the text |
| JobArguments.ArgsTextAppend | saltgui/static/scripts/panels/Job.js:136-149 | each further array element appends exactly its own piece to the text |
| JobArguments.DecodedArgumentsSeparated | saltgui/static/scripts/panels/Job.js:116-152 | the rendered arguments are empty or begin with a space, so `Function + argumentsText` keeps the function name separate |
| JobArguments.DecodeArgumentsArray | saltgui/static/scripts/panels/Job.js:116-152 | the loop's text is the specified rendering: "" for undefined; " " and the encoding for a non-array; for each array element, either " key=value" per sorted non-marker key of a kwargs object or " " and the element's encoding |
| JobArguments.AppendKwargs | saltgui/static/scripts/panels/Job.js:139-145 | the inner loop appends " key=value" for each key other than `__kwarg__`, in the given order |
| JobStatus.EventLevel | saltgui/static/scripts/panels/Job.js:557-564 | the level is 1 iff `success === true` and `retcode === 0`, 2 iff `success === true` with another retcode, and 3 otherwise |
| JobStatus.EventLevelAgreesWithResultOk | saltgui/static/scripts/panels/Job.js:558 | for a boolean `success`, level 1 is exactly an ok result; a truthy non-boolean `success` is ok for the re-run lists but level 3 here |
| JobStatus.ApplyEventEffect | saltgui/static/scripts/panels/Job.js:543-585 | an event changes no displayed set of jobs; a displayed job's level becomes the maximum of its old level and the event's level (0 for ignored events and other jobs); levels stay within 0..3 |
| JobStatus.ApplyEventIdempotent | saltgui/static/scripts/panels/Job.js:576-585 | applying the same event twice is applying it once |
| JobStatus.ApplyEventsIsMax | saltgui/static/scripts/panels/Job.js:566-585 | after any sequence of events a displayed job's level is the maximum of its initial level and every level seen for it |
| JobStatus.MaxSeenPermutation | saltgui/static/scripts/panels/Job.js:576-585 | the maximum level seen does not depend on the order of the events |
| JobStatus.OrderIndependent | saltgui/static/scripts/panels/Job.js:541-587 | two arrival orders of the same events leave the same levels |
| JobStatus.RedeliveryIdempotent | saltgui/static/scripts/panels/Job.js:541-587 | delivering a whole batch of events again changes nothing |
| JobPanels.ChooseRoster | saltgui/static/scripts/panels/Job.js:213-226 | the roster is the explicit `Minions`, else `["WHEEL"]` for `wheel.` functions, else `["RUNNER"]` for `runners.` functions, else the result's keys |
| JobPanels.FallbackRosterHasNoMissing | saltgui/static/scripts/panels/Job.js:223-225 | with the result's keys as roster, no minion can be non-responding |
| JobPanels.InitiallyTerminatedMeansAllAnswered | saltgui/static/scripts/panels/Job.js:228-238 | for a distinct roster containing every result key, the count test at load holds iff no roster member is missing from the result |
| JobPanels.RerunListTitle | saltgui/static/scripts/panels/Job.js:310-315 | a re-run menu item is shown, with its caption, iff its list exists and is not the empty string |
| JobPanels.RerunListTitleShown | saltgui/static/scripts/panels/Job.js:310-315 | a joined roster whose first id is not empty is always shown |
| JobPanels.JobControlWords | saltgui/static/scripts/panels/Job.js:442-466 | terminate runs `saltutil.term_job`, kill `saltutil.kill_job` and signal `saltutil.signal_job`; each carries the job id as second word; only signal has four words, ending in `signal=` and the placeholder |
| JobPanels.JobPanel.constructor | saltgui/static/scripts/panels/Job.js:13-62 | a fresh panel has no target, command, job id, roster or result, an empty level map, and an undefined termination flag |
| JobPanels.JobPanel.BeginShow | saltgui/static/scripts/panels/Job.js:68 | showing the panel resets `jobIsTerminated` to undefined |
| JobPanels.JobPanel.DisplayStatus | saltgui/static/scripts/panels/Job.js:566-575 | a newly displayed status element reads as level 0; when one for the job is already shown, `querySelector` keeps finding that one, so its level stays |
| JobPanels.JobPanel.HandleJobRunnerJobsListJob | saltgui/static/scripts/panels/Job.js:158-238 | no reply does nothing; every other reply replaces the output's text, so no status element is left; a non-object reply, a non-object `info` and `info.Error` each give their error report and change no field; a job stores its target type, joined target, command text, job id, roster and result, and sets `jobIsTerminated` and the initial status from the count test |
| JobPanels.JobPanel.HandleRunnerJobsActive | saltgui/static/scripts/panels/Job.js:471-494 | a missing summary element and an error payload leave the flag alone; a snapshot without the job sets it to true and shows "done"; a snapshot with the job sets it to false, shows the count of running entries and gives the job a new status element at level 0 |
| JobPanels.JobPanel.SummaryClicked | saltgui/static/scripts/panels/Job.js:495-498 | clicking the summary replaces the output's text, so no status element is left, and `onShow` makes `jobIsTerminated` undefined again |
| JobPanels.JobPanel.HandleSaltJobRetEvent | saltgui/static/scripts/panels/Job.js:541-585 | the level map becomes the merge of the event; a class is added iff a level changed, and it is the class for the event's level |
| JobPanels.JobPanel.ListForRerunJobOnAllMinions | saltgui/static/scripts/panels/Job.js:286-307 | the loop's result is the all-minions target |
| JobPanels.JobPanel.ListForRerunJobOnUnsuccessfulMinions | saltgui/static/scripts/panels/Job.js:322-354 | the loop with its two flags yields the unsuccessful target: present only when a member is missing and a member failed |
| JobPanels.JobPanel.ListForRerunJobOnFailedMinions | saltgui/static/scripts/panels/Job.js:369-387 | the loop's result is the failed target |
| JobPanels.JobPanel.ListForRerunJobOnNonRespondingMinions | saltgui/static/scripts/panels/Job.js:402-420 | the loop's result is the non-responding target |
| JobPanels.JobPanel.RerunJobTitle | saltgui/static/scripts/panels/Job.js:275-280 | "Re-run job..." is hidden iff both the target and the command text are absent or empty |
| JobPanels.JobPanel.JobControlTitle | saltgui/static/scripts/panels/Job.js:435-469 | the terminate, kill and signal items are offered, each with its own caption, iff `jobIsTerminated` is exactly false |
| JobPanels.JobPanel.RerunJobRequest | saltgui/static/scripts/panels/Job.js:282 | re-running uses the stored target type, target and command text |
| JobPanels.JobPanel.JobControlRequest | saltgui/static/scripts/panels/Job.js:442-467 | the control commands go to the stored target with the command words for the stored job id |
| JobPanels.JobPanel.RerunOnListRequests | saltgui/static/scripts/panels/Job.js:316-318 | each list item runs the command text on target type "list" with its list |
| JobPanels.JobPanel.RerunListTitles | saltgui/static/scripts/panels/Job.js:309-433 | each list item's title is its caption, gated by its list |
| DropDownRadio.ResolveTitle | saltgui/static/scripts/DropDownRadio.js:28-35 | a falsy title gives "...", a non-empty string title is used as is, and a function title is applied to the item's value |
| DropDownRadio.Marker | saltgui/static/scripts/DropDownRadio.js:37-46 | ● iff the item's value is the selected value; ○ iff not, nothing is selected and the item's value is the default; otherwise no mark |
| DropDownRadio.MarkedIffEffective | saltgui/static/scripts/DropDownRadio.js:39-45 | an item with a value is marked iff its value is the effective one: the selected value, else the default |
| DropDownRadio.AtMostOneMarked | saltgui/static/scripts/DropDownRadio.js:39-45 | of two items with different values at most one is marked |
| DropDownRadio.ChosenTitle | saltgui/static/scripts/DropDownRadio.js:51-55 | the title shown for a chosen item is its string title, or the function title applied to the item's value |
| DropDownRadio.ChosenTitleMatchesItem | saltgui/static/scripts/DropDownRadio.js:51-55 | for a non-empty string title, the menu shows the same text as the item |
| DropDownRadio.DropDownMenuRadio.constructor | saltgui/static/scripts/DropDownRadio.js:6-10 | value and default value start as null |
| DropDownRadio.DropDownMenuRadio.GetValue | saltgui/static/scripts/DropDownRadio.js:12-17 | the value when one is set, else the default value |
| DropDownRadio.DropDownMenuRadio.SetValue | saltgui/static/scripts/DropDownRadio.js:19-21 | sets the value and nothing else |
| DropDownRadio.DropDownMenuRadio.SetDefaultValue | saltgui/static/scripts/DropDownRadio.js:23-25 | sets the default value and nothing else |
| DropDownRadio.DropDownMenuRadio.MenuItemTitle | saltgui/static/scripts/DropDownRadio.js:27-47 | an item whose title resolves to null stays hidden and unmarked; otherwise its title is the mark followed by the resolved title |
| DropDownRadio.DropDownMenuRadio.ChooseItem | saltgui/static/scripts/DropDownRadio.js:49-56 | choosing sets the value to the item's value and the menu title to the chosen title; `getValue` then returns it and the item is marked ● |
| DropDownRadio.DropDownMenuRadio.AddMenuItemRadio | saltgui/static/scripts/DropDownRadio.js:58-67 | the returned item records the given value and title and is appended to the menu |
| DropDownRadio.MarkerHasMark | saltgui/static/scripts/DropDownRadio.js:39-45 | a rendered title starts with a mark iff the item's value is the effective one |
| DropDownRadio.ItemMarkedIffSelected | saltgui/static/scripts/DropDownRadio.js:12-17 | an item is shown and starts with a mark iff its value is what `getValue` returns |
| BeaconsMinion.FirstLineTerminator | saltgui/static/scripts/panels/BeaconsMinion.js:215 | the position of the first line terminator, which the regular expression's `.` does not match |
| BeaconsMinion.CutAtSlash | saltgui/static/scripts/panels/BeaconsMinion.js:215 | `replace(/[/].*/, "")` leaves a text without "/" as it is |
| BeaconsMinion.BeaconNameFromTag | saltgui/static/scripts/panels/BeaconsMinion.js:210-215 | a name exists iff the tag starts with `salt/beacon/<minion>/`, and it is no longer than what follows the prefix |
| BeaconsMinion.BeaconNameOneLine | saltgui/static/scripts/panels/BeaconsMinion.js:214-215 | for a one-line tag the name holds no "/", directly follows the prefix, and is followed by "/" or the end of the tag |
| BeaconsMinion.BeaconNameKeepsSecondLine | saltgui/static/scripts/panels/BeaconsMinion.js:215 | for a tag with a line terminator after the first "/", only the rest of the first line is removed |
| BeaconsMinion.CleanEventData | saltgui/static/scripts/panels/BeaconsMinion.js:221-231 | the shown data has no truthy `_stamp` and no `id` equal to the minion id; a falsy `_stamp` and an `id` other than the minion id are kept as they were |
| BeaconsMinion.CleanEventDataKeeps | saltgui/static/scripts/panels/BeaconsMinion.js:221-231 | every property other than `_stamp` and `id` is unchanged |
| BeaconsMinion.CleanEventDataIdempotent | saltgui/static/scripts/panels/BeaconsMinion.js:221-231 | cleaning twice is cleaning once |
| BeaconsMinion.EventTextPlain | saltgui/static/scripts/panels/BeaconsMinion.js:220-232 | without a stamp and with a tag that is exactly prefix, name and "/", the value cell shows only the formatted data |
| BeaconsMinion.SimplifyBeacon | saltgui/static/scripts/panels/BeaconsMinion.js:96-101 | a simplified beacon has no `name` and no `enabled: true` |
| BeaconsMinion.SimplifyBeaconKeeps | saltgui/static/scripts/panels/BeaconsMinion.js:96-101 | every other property is kept, and `enabled: false` survives, so a beacon is disabled after iff before |
| BeaconsMinion.SimplifyBeaconIdempotent | saltgui/static/scripts/panels/BeaconsMinion.js:96-101 | simplifying twice is simplifying once |
| BeaconsMinion.InitialValue | saltgui/static/scripts/panels/BeaconsMinion.js:111-125 | "(waiting)" when nothing is disabled, otherwise "(beacons disabled)" and/or "(beacon disabled)" lines in that order |
| BeaconsMinion.InitialValueTrim | saltgui/static/scripts/panels/BeaconsMinion.js:111-125 | the source's build-then-`trim` gives exactly those four texts |
| BeaconsMinion.PanelMenu | saltgui/static/scripts/panels/BeaconsMinion.js:80-84 | the panel menu offers exactly one of enable (when `enabled === false`) or disable, then add, reset and save |
| BeaconsMinion.BeaconMenu | saltgui/static/scripts/panels/BeaconsMinion.js:103-106 | each beacon's menu offers exactly one of enable (when its `enabled === false`) or disable, then delete, with the beacon's name in each command |
| BeaconsMinion.RowFor | saltgui/static/scripts/panels/BeaconsMinion.js:87-137 | a row carries the beacon name, is waiting, is marked disabled iff all beacons or this one are disabled, and has the initial value for those two facts |
| BeaconsMinion.RowsFor | saltgui/static/scripts/panels/BeaconsMinion.js:86-138 | one row per listed name, and row `i` is the row for the `i`-th name with that name's beacon, so the table follows the sorted name order |
| BeaconsMinion.FooterText | saltgui/static/scripts/panels/BeaconsMinion.js:43-56 | the footer starts with the beacon count, and the continue hint is added iff the panel is paused |
| BeaconsMinion.FirstRow | saltgui/static/scripts/panels/BeaconsMinion.js:216-219 | the index of the first row with the name, or none when no row has it |
| BeaconsMinion.BeaconsMinionPanel.constructor | saltgui/static/scripts/panels/BeaconsMinion.js:11-24 | a new panel plays, is titled "Beacons on ..." and has no message, menu or rows |
| BeaconsMinion.BeaconsMinionPanel.HandleLocalBeaconsList | saltgui/static/scripts/panels/BeaconsMinion.js:58-141 | an error reply is handed to `showErrorRowInstead` and changes no modelled field; disabled beacons retitle the panel; an unknown or silent minion gets its message; a listing adds the panel menu, one row per beacon in sorted order and then the footer |
| BeaconsMinion.BeaconsMinionPanel.ShowBeacons | saltgui/static/scripts/panels/BeaconsMinion.js:80-140 | the menu, the rows in sorted name order and the footer for the new row count |
| BeaconsMinion.BeaconsMinionPanel.AddRows | saltgui/static/scripts/panels/BeaconsMinion.js:86-138 | the loop appends exactly the specified rows, in key order |
| BeaconsMinion.BeaconsMinionPanel.HandleSaltBeaconEvent | saltgui/static/scripts/panels/BeaconsMinion.js:203-238 | while paused, for a foreign tag, or when no row matches, nothing changes; otherwise only the first matching row gets the event text and stops waiting, and the data loses its stamp and own id |
| BeaconsMinion.ShowEventData | saltgui/static/scripts/panels/BeaconsMinion.js:220-232 | the text is the optional time line, the tag unless it adds nothing, and the formatted cleaned data; the data object is cleaned in place |

## Left out

- DOM work is not modelled: element creation, `innerText`, class lists, tooltips, styles, event listeners and `verifyAll`. Displayed state is modelled only as the level map and the row values. Removing the status element's `display` style (`Job.js:586`) is not modelled.
- API calls, promises and the `onShow` chains are left out, because they are network I/O and asynchronous continuations. The replies are inputs of the handlers.
- `JSON.stringify`, `ParseCommandLine.getPatJid`, the simple-name regular expression, `Output.formatObject` and `Output.dateTimeStr` are parameters. Their code is not part of this model.
- `Output.addResponseOutput`, `TargetType.makeTargetText`, `updateTitle` of the job panel, `warningField`, `timeField` and `StartTime` are not modelled, because they are presentation. The chosen roster and the initial status are returned instead.
- The embedded-jid HTML rewriting (`Job.js:154-156, 244-272`) is left out. It is regex replacement over markup.
- The per-minion process menus of `_handleRunnerJobsActive` (`Job.js:505-537`) are left out, because they are UI wiring.
- `Utils.txtZeroOneMany` is not part of this model. `CountText` assumes it substitutes the decimal count for `{0}`.
- `BeaconsPanel.fixBeaconsMinion` is not part of this model. The listing is given already normalised into unknown minion, no answer, or `enabled` with the beacon map.
- The click command of a beacon row (`BeaconsMinion.js:134-137`) is modelled only as data. `JSON.stringify` of the original beacon is a parameter.
- BeaconsMinion.BeaconsMinionPanel.HandleLocalBeaconsList: the error row that `showErrorRowInstead` (`BeaconsMinion.js:59`) shows, and any message it sets, are not modelled; the `Panel` base class is not part of this model. That row is not in `rows`, the rows `handleSaltBeaconEvent` scans.
- BeaconsMinion.SimplifyBeacon: beacon simplification is modelled on values. It does not capture the in-place deletion's aliasing with `beacons0`. So the model does not show that the click command sees the simplified beacon. It also does not capture the `TypeError` that `"name" in beacon` throws for a primitive beacon.
- Numbers are integers. JavaScript's floating point and the string coercion of `dataset.level` are not modelled.
- Strings are sequences of Unicode scalar values. The sort order is by scalar value, not by UTF-16 code unit, so the two differ only for characters outside the Basic Multilingual Plane.
- A null `Minions` and a missing `Result` are not modelled. A null `Minions` passes the test at `Job.js:228` and throws at `info.Minions.length`. A missing `Result` throws at `Object.keys(this.result)` (`Job.js:224`) for a job without `Minions` that is neither `wheel.` nor `runners.`. It throws at `Object.keys(info.Result)` (`Job.js:228`) when `Minions` is present, and at `minionId in this.result` in the list builders for a non-empty roster. On other paths, such as a `wheel.` job without `Minions`, a missing `Result` does not throw in Job.js's own code. The model has `Minions` present or absent and `Result` always a map, so it has none of these paths.
- JobPanels.JobPanel.HandleJobRunnerJobsListJob and RerunLists.IsResultOk: two more `TypeError` paths are not modelled. A `null` `return[0]` passes the `typeof info !== "object"` test (`Job.js:172`), because `typeof null` is `"object"`, and then throws at `info.Error` (`Job.js:178`); the reply has only a non-object or a job. A `null` or `undefined` entry in `info.Result` makes `_isResultOk` throw at `result.success` (`Job.js:91`), called from the list builders (`Job.js:334`, `Job.js:337`, `Job.js:376`); every entry of the model's result map is a record with `success` and `retcode`.
- JobPanels.JobControlWords: a job id that was never stored is modelled as the empty string. The source puts `undefined` into the command array instead.
- JobPanels.JobPanel.HandleRunnerJobsActive: a present but falsy entry for the job is not modelled; the snapshot maps job ids to their running lists.
- JobPanels.JobPanel.HandleRunnerJobsActive: the model keeps at most one status element per job id. The "(error)" and "done" texts (`Job.js:477`, `Job.js:489`) also remove a status element that an earlier snapshot put in the summary. The model does not capture that, nor a second element for the same job elsewhere in the panel.
- JobPanels.JobPanel.HandleJobRunnerJobsListJob: the model takes every status element to be inside the output, so replacing the output's text removes them all. Where `Output.addResponseOutput` places the summary element is not part of this model.
- DropDownRadio.ResolveTitle: a function title receives only the item's value, not the whole item. `setTitle` is modelled as the field `shownTitle`. The `DropDownMenu` base class and the user callback are not part of this model.
- DropDownRadio.ChosenTitle: as in ResolveTitle, a function title is applied to the item's value, while the source passes it the whole menu item.
- The `playOrPause` field is changed by the Panel's play/pause button. That button is not part of this model, so the field is only read here.
- The `_stamp` property is deleted only when it is truthy. This follows the code; a falsy `_stamp` stays in the shown data.

## Findings

| source | as written | input that shows it | evidently intended | confidence | as-written member | corrected member |
|---|---|---|---|---|---|---|
| saltgui/static/scripts/panels/Job.js:376 | `minionId in this.result` (also at line 409) finds names inherited from `Object.prototype` | a roster `["constructor"]` whose result has no entry for it: the minion is listed as failed, not as non-responding | only the result's own keys count as answered, e.g. `Object.hasOwn(this.result, minionId)` | not executed | RerunLists.PrototypeNameMisclassified | RerunLists.Classification |
| saltgui/static/scripts/panels/Job.js:331-337 | the `has1`/`has2` gate uses the same `in` test | roster `["constructor", "x"]`, result `{x: {success: false, retcode: 1}}`: `has1` stays false and the unsuccessful item is hidden | the unanswered "constructor" sets `has1`, and the item offers "constructor,x" | not executed | RerunLists.PrototypeNameHidesUnsuccessful | RerunLists.UnsuccessfulNeedsBoth |
