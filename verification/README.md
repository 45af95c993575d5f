# EasyGP client logic in Dafny

This project models the client-side logic of the EasyGP health app. The app is a
React front end that keeps everything in one embedded (Dexie) database named
`StrepDatabase`, plus a serverless symptom-check endpoint. The model covers:

- the database's versioned schema and the start-up check that declares the missing
  `profile`, `bpLogs` and `cognitiveEntries` tables (`schema.dfy`), over an abstract
  record store with auto-incremented keys (`records.dfy`);
- the blood-pressure tracker: the reading form, medication check boxes, add / update /
  delete of readings, the newest-first list and the status classification
  (`bp_tracker.dfy`);
- the cognitive journal: the tag and symptom toggles, entry add and delete, the
  health statistics (points, level, day streak, symptom total) and the tag and
  symptom counts of the analysis view (`cognitive_journal.dfy`);
- the home page: the Fisher–Yates shuffle of the activities, the high-blood-pressure
  and low-mood flags, and the activity recommender (`home_page.dfy`);
- the emotion timeline chart: the sort, flatten, emoji set and group-by-date pivot
  (`timeline.dfy`);
- the strep tool page: the export-then-clear flow and its file-name rule
  (`strep_tool.dfy`);
- the health profile page: the age shown for a date of birth, the profile upsert and
  the onboarding state (`health_profile.dfy`);
- the `check-symptoms` endpoint: the method check and the four recommendations
  (`check_symptoms.dfy`).

Shared pieces are `lists.dfy` (toggles, order-keeping de-duplication), `text.dfy`
(trim, lower case, `includes`, `endsWith`, `slice`), `ordering.dfy` (JavaScript
string order, a verified insertion sort standing in for `Array.prototype.sort`),
`dates.dfy` (calendar dates, the journal's `Y-M-D` day keys, day numbers) and
`wrappers.dfy` (`Option`).

Pages are classes whose fields are the React state the handlers replace. Each page
holds the `Table` object it writes to. Store calls are the `Records.Table` methods:
`add` returns a fresh key, and `update`, `delete`, `clear` and `toArray` work on the
rows in key order. Things the code asks the outside world for are parameters of the
method that asks:

- the current time;
- the answer to `confirm` and `prompt`;
- the random index `Math.random` picks;
- the result of `toLocaleDateString`;
- which awaited store call fails.

## Model

| member | source | states |
|---|---|---|
| Records.RemoveId | src/pages/BPTracker.jsx:150 | `filter((log) => log.id !== id)`: keeps exactly the rows whose key differs, nothing more |
| Records.RemoveIdAbsent | src/pages/BPTracker.jsx:150 | filtering out a key no row has leaves the list as it was |
| Records.RemoveIdKeepsOrder | src/pages/BPTracker.jsx:150 | the rows that remain keep their increasing key order |
| Records.RemoveIdAppend | src/pages/CognitiveJournal.jsx:264 | filtering distributes over concatenation, so the remaining rows keep their relative order |
| Records.ReplaceId | src/pages/BPTracker.jsx:116-118 | `map` replacing every row with that key by the new data under the same key; every other row is unchanged and the length is kept |
| Records.ReplaceIdKeepsIds | src/pages/BPTracker.jsx:116-118 | replacing data never changes a key, so key order is preserved |
| Records.Table.constructor | src/db.js:10 | a new table is empty and its first key will be 1 |
| Records.Table.Add | src/pages/BPTracker.jsx:124 | `add` stores the record under a key no stored row has, returns that key and appends the row |
| Records.Table.Update | src/pages/BPTracker.jsx:116 | `update` replaces the data of the row with that key and reports 1 if there was one, else 0 |
| Records.Table.Delete | src/pages/BPTracker.jsx:149 | `delete` removes the row with that key; other rows stay in order |
| Records.Table.Clear | src/pages/StrepTool.jsx:40 | `clear` leaves the table empty |
| Records.Table.ToArray | src/pages/BPTracker.jsx:54 | `toArray` returns all rows, in increasing key order |
| Schema.Missing | src/db.js:21-46 | the tables among profile, bpLogs and cognitiveEntries that are not declared, in checking order, at most three |
| Schema.MigrateVersion | src/db.js:17-46 | the final version is the opened version plus one per missing table |
| Schema.MigrateDeclaresInOrder | src/db.js:21-46 | the k-th missing table is declared at version + k + 1 with its own index list |
| Schema.MigrateAllMissing | src/db.js:21-46 | with all three missing at version v they are declared at v+1, v+2 and v+3 |
| Schema.MigrateOnlyAdds | src/db.js:9-46 | declarations only grow: every existing table, `logs` included, keeps its declaration, and only the three checked names are added |
| Schema.MigrateIdempotent | src/db.js:21-49 | a second run after a completed check finds nothing missing and keeps the version |
| Schema.ReadTablesNeverDeclared | src/db.js:9-46 | neither `symptomLogs` nor `cognitiveLogs` is ever declared |
| Schema.Database.constructor | src/db.js:5-11 | a new database is at version 1 with only `logs` declared, and is closed |
| Schema.Database.DeclareTable | src/db.js:23-25 | `db.version(v).stores(...)` registers the table at v and raises `verno` to v; when the library throws, it registers nothing and leaves `verno` |
| Schema.Database.CheckAndDeclare | src/db.js:21-27 | one check declares the table at the next version exactly when it is missing and the declaration does not throw, says whether it did, and throws only when a declaration was attempted |
| Schema.Database.DeclareMissing | src/db.js:20-46 | the three checks either complete the migration and report whether anything was missing, or, when a declaration is attempted and throws, stop with that error and the schema unchanged |
| Schema.Database.EnsureTablesExist | src/db.js:14-71 | without a failure, the declarations and version are the three-check migration and the database is open; a reopen happens exactly when something was missing; a failing first open, or a refused declaration, changes neither declarations nor version (the latter leaves the database open); only a `VersionError` deletes the database and reloads; any other error is swallowed |
| Schema.Database.EnsurePageTable | src/pages/BPTracker.jsx:31-47 | a page's own check (also src/pages/CognitiveJournal.jsx:48-57) declares a missing table at `verno + 1` and loads only if the declaration and the open succeed; a refused declaration changes nothing and stops loading; a present table changes nothing |
| CheckSymptoms.RecommendationsDistinct | api/check-symptoms.js:16-24 | the four recommendation texts differ pairwise |
| CheckSymptoms.Recommend | api/check-symptoms.js:16-24 | each recommendation is chosen exactly for its combination of signs, so the four branches are exclusive and exhaustive |
| CheckSymptoms.RecommendPrefixes | api/check-symptoms.js:16-24 | "Seek Antibiotics" iff both signs; "Monitor symptoms" iff exactly one; "No treatment needed" iff neither |
| CheckSymptoms.Handler | api/check-symptoms.js:3-31 | a non-POST method gets 405 and no recommendation; a POST whose body is `undefined` or `null` fails inside the `try` and gets 500, and only those; any other POST gets 200 and the recommendation for the truthiness of the two destructured fields, so a body that is not an object (a string, number, boolean or array) gets "No treatment needed" |
| CheckSymptoms.BodyField | api/check-symptoms.js:9 | destructuring reads an object's key and gives `undefined` for any non-object body |
| BPTracker.GetBPStatus | src/pages/BPTracker.jsx:182-190 | as written: normal iff systolic ≤ 120 and diastolic ≤ 80; elevated iff not normal and a pressure is in its elevated band; high otherwise; one status for every input |
| BPTracker.GetBPStatusNotMonotone | src/pages/BPTracker.jsx:185-189 | 135/70 is high but 135/82 is elevated: raising a pressure can lower the status |
| BPTracker.ClassifyBP | src/pages/BPTracker.jsx:182-190 | the corrected classifier: normal as before; high iff systolic > 130 or diastolic > 85; elevated otherwise |
| BPTracker.ClassifyBPMonotone | src/pages/BPTracker.jsx:182-190 | the corrected status never drops when either pressure rises |
| BPTracker.GetBPStatusVersusClassifyBP | src/pages/BPTracker.jsx:185-189 | the two classifiers differ exactly when one pressure is past its band and the other inside its own; there the code says elevated instead of high |
| BPTracker.HandleMedicationChange | src/pages/BPTracker.jsx:92-101 | the medication's membership flips and every other medication keeps its count; an unchecked medication is appended once, at the end, behind the unchanged list; a checked one is filtered out (`Lists.WithoutSplit` fixes the order kept); no other field changes |
| BPTracker.MedicationChangeTwice | src/pages/BPTracker.jsx:92-101 | checking an unchecked medication and unchecking it restores the form |
| BPTracker.NonBlank | src/pages/BPTracker.jsx:61 | keeps exactly the names that do not trim to empty |
| BPTracker.NonBlankCounts | src/pages/BPTracker.jsx:61 | each non-blank name is kept as often as it occurs, blank ones not at all |
| BPTracker.NonBlankKeepsClean | src/pages/BPTracker.jsx:61 | a list with no blank name is kept unchanged |
| BPTracker.NonBlankAppend | src/pages/BPTracker.jsx:61 | the filter distributes over concatenation, so kept names keep their order |
| BPTracker.LoadedMedications | src/pages/BPTracker.jsx:58-70 | the choices are the profile's non-blank names (or the previous list without a profile) together with the medications table's names, with no duplicate once that table has names; without names from that table the list is exactly the filtered profile list, or the previous list |
| BPTracker.LoadedMedicationsOrder | src/pages/BPTracker.jsx:68 | the merged names keep the order of their first appearance |
| BPTracker.LogData | src/pages/BPTracker.jsx:108-112 | the saved record is the form plus the save time, with `dateTime` = date, "T", time |
| BPTracker.EditForm | src/pages/BPTracker.jsx:159-170 | the edit form is the reading, with a missing time read as "12:00" |
| BPTracker.BPTrackerPage.constructor | src/pages/BPTracker.jsx:9-23 | the page starts with an empty list, no reading being edited and a fresh form |
| BPTracker.BPTrackerPage.LoadData | src/pages/BPTracker.jsx:51-80 | the list is the stored readings, newest first; the medication choices are the merged names |
| BPTracker.BPTrackerPage.ToggleMedication | src/pages/BPTracker.jsx:92-101 | the form becomes the toggled form, so the medication is appended at the end or filtered out as `HandleMedicationChange` states |
| BPTracker.BPTrackerPage.HandleSubmit | src/pages/BPTracker.jsx:104-143 | editing: the stored and listed readings with that key take the new data under the same key, the list is re-sorted and no key is spent; adding: one new row under a fresh key, put at the head of the list, and the key generator moves on by one; either way the form is reset and nothing is being edited |
| BPTracker.BPTrackerPage.HandleDelete | src/pages/BPTracker.jsx:146-156 | after confirmation, exactly the rows with that key leave the table and the list; without it nothing changes |
| BPTracker.BPTrackerPage.HandleEdit | src/pages/BPTracker.jsx:159-170 | the form holds the reading and its key is the one being edited |
| HealthProfile.CalculateAge | src/pages/HealthProfile.jsx:92-102 | blank without a date of birth; otherwise the year difference, or one less exactly when this year's birthday is still ahead |
| HealthProfile.AgeIsCompletedYears | src/pages/HealthProfile.jsx:96-101 | the age shown is the number of completed years: that anniversary has passed and the next has not |
| HealthProfile.MergeProfile | src/pages/HealthProfile.jsx:77 | `update` overwrites every field the form carries and keeps the stored creation stamp when the form has none |
| HealthProfile.MergeKeepsCreatedAt | src/pages/HealthProfile.jsx:77-79 | once the first save has stamped the profile, every later save keeps a stamp, the stored one when the form has none |
| HealthProfile.MergeIdempotent | src/pages/HealthProfile.jsx:77 | saving the same form twice stores the same profile as saving it once |
| HealthProfile.ProfilePage.constructor | src/pages/HealthProfile.jsx:8-45 | the page starts on its first visit at onboarding step 0 |
| HealthProfile.ProfilePage.LoadProfile | src/pages/HealthProfile.jsx:50-63 | a stored profile fills the form, ends the first visit and sets step 4; with none the state is unchanged |
| HealthProfile.ProfilePage.SaveProfile | src/pages/HealthProfile.jsx:72-90 | merges the form into the first stored profile by its key, so a creation stamp the form lacks is kept, and spends no key; or adds the form with its creation time when there is none, moving the key generator on by one; never adds when one exists, so a table of at most one profile stays so |
| CognitiveJournal.RunBack | src/pages/CognitiveJournal.jsx:124-135 | the count of one-day steps walking back from the last day is below the number of days |
| CognitiveJournal.Streak | src/pages/CognitiveJournal.jsx:114-137 | the streak is positive exactly when the latest day is today, and never exceeds the number of days |
| CognitiveJournal.UniqueDays | src/pages/CognitiveJournal.jsx:107-111 | the distinct days of the entries, strictly increasing, the same days and no more |
| CognitiveJournal.CalculateDayStreak | src/pages/CognitiveJournal.jsx:103-138 | the backward loop with `break` computes the streak of the distinct days in date order |
| CognitiveJournal.RunBackUnfold | src/pages/CognitiveJournal.jsx:130-134 | one loop step: a one-day gap counts one more, any other gap ends the count |
| CognitiveJournal.RunBackSteps | src/pages/CognitiveJournal.jsx:124-135 | the k-th day back within the run is exactly k days before the last |
| CognitiveJournal.RunBackStops | src/pages/CognitiveJournal.jsx:130-134 | every day before the run is more than one day before the run's first day |
| CognitiveJournal.UniqueDaysLast | src/pages/CognitiveJournal.jsx:111 | the last distinct day has an entry and no entry is later |
| CognitiveJournal.StreakPositive | src/pages/CognitiveJournal.jsx:119-121 | the streak is positive exactly when there is an entry today and none later |
| CognitiveJournal.StreakDaysHaveEntries | src/pages/CognitiveJournal.jsx:124-135 | every day of the streak, counting back from today, has an entry |
| CognitiveJournal.RunBackMaximal | src/pages/CognitiveJournal.jsx:130-134 | on strictly increasing days, the day just before the counted run is not among them |
| CognitiveJournal.StreakIsMaximal | src/pages/CognitiveJournal.jsx:130-134 | the day before the streak has no entry |
| CognitiveJournal.StreakOnIncreasingIsMaximal | src/pages/CognitiveJournal.jsx:124-135 | on strictly increasing days ending today, the day before the streak is not among them |
| CognitiveJournal.StreakBound | src/pages/CognitiveJournal.jsx:114-137 | the streak never exceeds the number of distinct days |
| CognitiveJournal.DayNumbers | src/pages/CognitiveJournal.jsx:107-110 | one day number per entry date, in order |
| CognitiveJournal.DayKeys | src/pages/CognitiveJournal.jsx:107-110 | one unpadded `Y-M-D` key per entry date, in order |
| CognitiveJournal.SortedDayKeys | src/pages/CognitiveJournal.jsx:111 | the distinct keys, sorted as text |
| CognitiveJournal.DayStreakAsWritten | src/pages/CognitiveJournal.jsx:103-138 | as written: no entries give 0, and a positive streak needs today's key to sort last as text |
| CognitiveJournal.ExampleKeysOrder | src/pages/CognitiveJournal.jsx:109-111 | the keys of 9 and 10 January 2024 are "2024-0-9" and "2024-0-10", and the second sorts first |
| CognitiveJournal.StreakOfKeys | src/pages/CognitiveJournal.jsx:111-137 | the loop over the sorted keys: a positive streak only when there are keys and today's key is the last one |
| CognitiveJournal.LaterKeyWipesStreak | src/pages/CognitiveJournal.jsx:111-121 | on keys sorted as text, a key that sorts after today's key makes the streak 0 |
| CognitiveJournal.AsWrittenLaterKeyWipesStreak | src/pages/CognitiveJournal.jsx:111-121 | as written, any key sorting after today's key as text makes the streak 0 |
| CognitiveJournal.DayStreakAsWrittenMissesToday | src/pages/CognitiveJournal.jsx:103-138 | entries on 9 and 10 January with today 10 January give 0 as written, whatever the key parse |
| CognitiveJournal.StreakOfYesterdayAndToday | src/pages/CognitiveJournal.jsx:114-137 | an entry yesterday and one today make a streak of 2 |
| CognitiveJournal.DayStreakByDateCountsYesterday | src/pages/CognitiveJournal.jsx:103-138 | the same two entries in date order give a streak of 2 |
| CognitiveJournal.TotalSymptomsAppend | src/pages/CognitiveJournal.jsx:90 | the symptom total adds up over any split of the entries |
| CognitiveJournal.SymptomLists | src/pages/CognitiveJournal.jsx:879-885 | the symptom list of each entry, in order |
| CognitiveJournal.TagLists | src/pages/CognitiveJournal.jsx:869-875 | the tag list of each entry, in order |
| CognitiveJournal.TotalSymptomsIsFlattenLength | src/pages/CognitiveJournal.jsx:90 | the total, with a missing list counted as 0, is the number of symptoms the analysis view counts |
| CognitiveJournal.HealthPoints | src/pages/CognitiveJournal.jsx:91 | `min(20, entries + streak)`: at most 20, and equal to the sum whenever that is below 20 |
| CognitiveJournal.HealthLevel | src/pages/CognitiveJournal.jsx:92 | `floor(points / 10) + 1` lies in 1..3 and is the ten-point band of the points |
| CognitiveJournal.EntryDays | src/pages/CognitiveJournal.jsx:107-110 | the day number of each entry's local date |
| CognitiveJournal.CalculateHealthStats | src/pages/CognitiveJournal.jsx:87-100 | the statistics are `StatsOf` the entries: the corrected streak of the entries' days, the symptom total, points capped at 20 and a level in 1..3 |
| CognitiveJournal.CountStep | src/pages/CognitiveJournal.jsx:872 | one `(counts[k] \|\| 0) + 1` keeps the counts equal to the occurrences |
| CognitiveJournal.FlattenSnoc | src/pages/CognitiveJournal.jsx:869-875 | one more entry adds its items after the earlier ones |
| CognitiveJournal.CountItems | src/pages/CognitiveJournal.jsx:871-873 | the inner `forEach` adds one list's items to the counts |
| CognitiveJournal.CountOccurrences | src/pages/CognitiveJournal.jsx:868-875 | the dictionary holds exactly the items of the present lists, each with its number of occurrences |
| CognitiveJournal.AnalysisCounts | src/pages/CognitiveJournal.jsx:866-885 | `tagCounts` and `symptomCounts` count every tag and symptom of every entry that has the list |
| CognitiveJournal.NothingToSaveMeaning | src/pages/CognitiveJournal.jsx:211 | an entry is refused exactly when its text is blank, no symptom is chosen and there is no subject |
| CognitiveJournal.EntryData | src/pages/CognitiveJournal.jsx:217-223 | the saved entry is the draft with the chosen symptoms, intensity and save time; `bodyParts` is `[bodyPart]` if one was chosen, else empty |
| CognitiveJournal.ToggleTag | src/pages/CognitiveJournal.jsx:182-191 | the tag's membership flips and other tags keep their counts; an unchosen tag is appended once, at the end, behind the unchanged tags; a chosen one is filtered out; nothing else in the draft changes |
| CognitiveJournal.ToggleTagTwice | src/pages/CognitiveJournal.jsx:182-191 | choosing an unchosen tag and then un-choosing it restores the draft |
| CognitiveJournal.JournalPage.constructor | src/pages/CognitiveJournal.jsx:9-41 | the page starts with an empty draft and list and the initial statistics |
| CognitiveJournal.JournalPage.LoadEntries | src/pages/CognitiveJournal.jsx:68-81 | the list is the stored entries, newest first, and the statistics are `StatsOf` them |
| CognitiveJournal.JournalPage.ToggleDraftTag | src/pages/CognitiveJournal.jsx:182-191 | the draft becomes the toggled draft, so the tag is appended at the end or filtered out as `ToggleTag` states |
| CognitiveJournal.JournalPage.ToggleSymptom | src/pages/CognitiveJournal.jsx:194-202 | the symptom's membership flips and other symptoms keep their counts; an unselected symptom is appended once, at the end, behind the unchanged selection; a selected one is filtered out |
| CognitiveJournal.JournalPage.HandleAddEntry | src/pages/CognitiveJournal.jsx:210-257 | an empty entry leaves the table, its key generator, the list, the draft, the symptom choice, body part, intensity, statistics, selection and form visibility as they were; otherwise one new row under a fresh key (the generator moves on by one), put first in the list, the statistics `StatsOf` the new list (level included), the form reset and the selection kept |
| CognitiveJournal.JournalPage.SaveEntry | src/pages/CognitiveJournal.jsx:216-252 | the saving path: the row appended to the table under the key generator's value, which moves on by one, prepended to the list, the statistics recomputed and the form reset |
| CognitiveJournal.JournalPage.RefreshStats | src/pages/CognitiveJournal.jsx:231 | the statistics become `StatsOf` the current list |
| CognitiveJournal.JournalPage.ResetForm | src/pages/CognitiveJournal.jsx:233-252 | an empty draft, no symptoms, no body part, intensity 0 and the form closed |
| CognitiveJournal.JournalPage.HandleDeleteEntry | src/pages/CognitiveJournal.jsx:260-276 | after confirmation, exactly that key leaves the table and the list, the statistics are `StatsOf` the new list (level included) and a selection of that entry is cleared; without it nothing changes |
| HomePage.Swap | src/pages/HomePage.jsx:295 | a swap keeps the length |
| HomePage.SwapPermutes | src/pages/HomePage.jsx:295 | a swap only reorders |
| HomePage.SwappedAbove | src/pages/HomePage.jsx:293-296 | the array after the swaps for the positions above i keeps its length |
| HomePage.ShuffleStep | src/pages/HomePage.jsx:293-296 | one loop iteration advances the array to the state after the next swap and keeps it a permutation of the input |
| HomePage.SwappedAboveSettles | src/pages/HomePage.jsx:293-296 | once its swap is done, a position is final: later swaps (at lower positions) never touch it |
| HomePage.SwapElements | src/pages/HomePage.jsx:295 | the destructuring swap exchanges two array cells |
| HomePage.ShuffleArray | src/pages/HomePage.jsx:291-298 | the copy, after the loop from the last index down to 1 with each index drawn in 0..i, is a permutation of the input of the same length; the input is not modified |
| HomePage.LatestReading | src/pages/HomePage.jsx:324-325 | the head of the newest-first list is a stored reading whose date no other reading's date passes |
| HomePage.HasHighBP | src/pages/HomePage.jsx:320-330 | the flag is set iff there are readings and the latest has systolic > 130 or diastolic > 85 |
| HomePage.HasHighBPIsHighClass | src/pages/HomePage.jsx:329 | the flag is exactly the corrected classifier's "high" for the latest reading |
| HomePage.LatestEntry | src/pages/HomePage.jsx:338-339 | the head of the newest-first list is a stored entry whose timestamp no other passes |
| HomePage.HasLowMood | src/pages/HomePage.jsx:334-354 | the flag is set iff there are entries and the latest has a keyword in its lower-cased text or a tag naming emotion or processing |
| HomePage.LowerAppend | src/pages/HomePage.jsx:345 | lower-casing distributes over concatenation |
| HomePage.LowMoodKeepsWithMoreText | src/pages/HomePage.jsx:343-345 | more text around the content never clears the flag |
| HomePage.LowerIdempotent | src/pages/HomePage.jsx:345 | lower-casing twice is lower-casing once |
| HomePage.LowMoodIgnoresCase | src/pages/HomePage.jsx:343-351 | lower-casing the content and every tag beforehand does not change the test |
| HomePage.LowerTags | src/pages/HomePage.jsx:350 | each tag lower-cased, one for one |
| HomePage.Candidates | src/pages/HomePage.jsx:376-381 | exactly the activities carrying every flag that is set, no more than there are activities |
| HomePage.CandidatesAppend | src/pages/HomePage.jsx:376-381 | the selection is a filter that splits over concatenation, so the chosen activities keep their declaration order |
| HomePage.GetRecommendedActivities | src/pages/HomePage.jsx:373-389 | at most three; with no flag, the first three of the page's shuffle; with a flag, min(3, candidates) distinct picks from the candidates, each carrying the set flags |
| HomePage.ShuffleAndTakeThree | src/pages/HomePage.jsx:388 | the first min(3, n) of a shuffle of the candidates, taken from them without repetition |
| HomePage.CandidateCounts | src/pages/HomePage.jsx:58-288 | both flags offer 3 activities, high blood pressure alone 4, low mood alone 6 |
| Timeline.OldestFirst | src/components/CognitiveTimelineGraph.jsx:14 | the logs sorted by date, oldest first, as a permutation |
| Timeline.LogPoints | src/components/CognitiveTimelineGraph.jsx:21-25 | one point per mark of a log, in mark order, carrying the log's display date |
| Timeline.Flatten | src/components/CognitiveTimelineGraph.jsx:20-26 | the number of points is the total number of marks |
| Timeline.FlattenSnoc | src/components/CognitiveTimelineGraph.jsx:20-26 | one more log appends its points after the earlier ones |
| Timeline.FlattenAppend | src/components/CognitiveTimelineGraph.jsx:20-26 | flattening distributes over concatenation: points keep the order of their logs |
| Timeline.EmojiSet | src/components/CognitiveTimelineGraph.jsx:28 | each emoji of the points exactly once, and no other |
| Timeline.ValuesAreLastIntensities | src/components/CognitiveTimelineGraph.jsx:33 | a date's values hold exactly the emojis marked that day, each with the intensity of its last point |
| Timeline.PivotStep | src/components/CognitiveTimelineGraph.jsx:31-34 | one `reduce` step appends the point's date and sets its emoji in that date's row only |
| Timeline.PivotPoint | src/components/CognitiveTimelineGraph.jsx:31-34 | one `reduce` step keeps the Map's keys in insertion order and each row equal to its pivoted values |
| Timeline.ChartData | src/components/CognitiveTimelineGraph.jsx:30-36 | one row per distinct date in order of first appearance, each holding its date and its pivoted values |
| Timeline.Render | src/components/CognitiveTimelineGraph.jsx:13-36 | the emoji lines and chart rows are those of the logs sorted oldest first and flattened |
| StrepTool.DownloadName | src/pages/StrepTool.jsx:35 | the name ends with ".json"; it is the given name exactly when that already ends so, otherwise the name with ".json" appended |
| StrepTool.DownloadNameIdempotent | src/pages/StrepTool.jsx:35 | applying the rule twice is applying it once |
| StrepTool.DefaultFileName | src/pages/StrepTool.jsx:27 | "EasyGP-export-", the first ten characters of the ISO time, ".json"; the download rule leaves it unchanged |
| StrepTool.ExportOutcome | src/pages/StrepTool.jsx:21-43 | no data exactly for an empty table; cancelled exactly for a cancelled or empty name; otherwise every row exported under the `.json` name |
| StrepTool.StrepToolPage.constructor | src/pages/StrepTool.jsx:7 | the page starts with an empty list |
| StrepTool.StrepToolPage.FetchLogs | src/pages/StrepTool.jsx:15-18 | the list is the stored logs, newest first |
| StrepTool.StrepToolPage.HandleExportClick | src/pages/StrepTool.jsx:21-43 | the prompt is offered the default name; the outcome is the export outcome; only a completed export clears the table and the list, and otherwise nothing changes |
| Lists.ToggleMembership | src/pages/CognitiveJournal.jsx:194-202 | toggling flips membership and keeps every other item's count; an absent item is appended once, at the end, behind the unchanged list; a present one is filtered out |
| Lists.ToggleTwiceAbsent | src/pages/CognitiveJournal.jsx:194-202 | toggling an absent item twice is the identity |
| Lists.ToggleKeepsNoDup | src/pages/CognitiveJournal.jsx:194-202 | toggling keeps a duplicate-free list duplicate-free |
| Lists.Without | src/pages/BPTracker.jsx:96 | `filter((x) => x !== m)` removes every copy of the item and keeps every other item's count; an absent item changes nothing |
| Lists.WithoutAppend | src/pages/BPTracker.jsx:96 | `filter((x) => x !== m)` distributes over concatenation |
| Lists.WithoutSplit | src/pages/BPTracker.jsx:96 | the filter drops exactly the copies of the item; every other item stays between what precedes it and what follows it |
| Lists.Distinct | src/pages/BPTracker.jsx:68 | `[...new Set(s)]`: no duplicates, the same items, no longer |
| Lists.DistinctFirstAppearance | src/pages/BPTracker.jsx:68 | the Set keeps items in the order of their first appearance |
| Lists.DistinctSnoc | src/components/CognitiveTimelineGraph.jsx:32 | a new item is added at the end, a seen one changes nothing |
| Lists.NoDupCounts | src/pages/CognitiveJournal.jsx:111 | in a duplicate-free list every item occurs at most once |
| Lists.CountsNoDup | src/pages/CognitiveJournal.jsx:111 | a list in which every item occurs at most once is duplicate-free |
| Lists.FirstIndexPrefix | src/pages/BPTracker.jsx:68 | an item's first index is the same in any longer list |
| Text.TrimStart | src/pages/BPTracker.jsx:61 | drops exactly the leading whitespace |
| Text.TrimEnd | src/pages/BPTracker.jsx:61 | drops exactly the trailing whitespace |
| Text.TrimEmptyIffBlank | src/pages/CognitiveJournal.jsx:211 | `trim()` is empty exactly for an all-whitespace string |
| Text.Lower | src/pages/HomePage.jsx:345 | `toLowerCase()` maps each character and keeps the length |
| Text.Take | src/pages/StrepTool.jsx:27 | `slice(0, n)` is the prefix of length min(n, length) |
| Text.ContainsExtended | src/pages/HomePage.jsx:345 | text around a match does not hide it |
| Ordering.StrLeTotal | src/pages/CognitiveJournal.jsx:111 | JavaScript string order is total |
| Ordering.StrLeTrans | src/pages/CognitiveJournal.jsx:111 | and transitive |
| Ordering.StrLeAntisym | src/pages/CognitiveJournal.jsx:111 | and antisymmetric |
| Ordering.StrLeCommonPrefix | src/pages/CognitiveJournal.jsx:111 | a shared prefix does not change the order |
| Ordering.Insert | src/pages/BPTracker.jsx:55 | inserting into a sorted list keeps it sorted and adds exactly the item |
| Ordering.Sort | src/pages/BPTracker.jsx:55 | the sort's result is sorted and a permutation of its input |
| Ordering.NewestFirst | src/pages/BPTracker.jsx:55 | newest first by a key (also src/pages/CognitiveJournal.jsx:72 and `orderBy("date").reverse()` in src/pages/StrepTool.jsx:16): sorted descending and a permutation of the input |
| Ordering.SortedHead | src/pages/HomePage.jsx:324-325 | the head of a sorted list comes before every item |
| Ordering.SortedLast | src/pages/CognitiveJournal.jsx:119 | the last item of a sorted list comes after every item |
| Ordering.SortedStringsLast | src/pages/CognitiveJournal.jsx:119 | in a list of strings sorted as text, the last is at least every member |

## Left out

- The store library is abstract. Real `open` and `close`, the asynchrony of every
  awaited call, `Dexie.delete` and `window.location.reload` are not modelled. The
  reload is a terminal outcome. The start-up race between src/main.jsx and src/db.js
  is concurrency and is not modelled either. Which call into the store fails is a
  parameter of `EnsureTablesExist` and `EnsurePageTable`. Failures of `add`, `update` and
  `delete` inside the page handlers (caught and alerted) are not modelled.
- Dexie's `update` merges the given fields into the stored object. In the blood
  pressure tracker the model replaces the data whole, which is the same there because
  `handleSubmit` passes every field of the form. The profile save merges
  (`HealthProfile.MergeProfile`): the only field its form can lack is `createdAt`.
- `symptomLogs`, `cognitiveLogs` and `medications` are never declared by the schema
  code (`Schema.ReadTablesNeverDeclared`). The pages that read them are modelled as if
  the table were present. On a real store those reads would fail.
- The import button shows only an alert. There is no import or merge to model.
- Dates, times and locale: `new Date(...)` parsing, time zones, daylight-saving time,
  `toLocaleDateString`, `toISOString` and `toTimeString` are not modelled. The
  current time is a parameter and the local calendar date of an entry is part of its
  `Timestamp`. Sorts by `new Date(x.date)` are modelled as sorts by the ISO date
  string, which orders ISO dates of one format the same way. Invalid dates (`NaN`
  comparisons) are not modelled.
- CognitiveJournal.DayStreakAsWritten: the parse `new Date(key.split("-"))` and the
  `Math.ceil` of the millisecond difference are abstracted as a `dayOfKey` function
  from key to day number, so only its ordering effect is stated exactly.
- CognitiveJournal.CalculateDayStreak: works on day numbers of local dates, the
  corrected reading of the streak, not on text keys.
- CognitiveJournal.CalculateHealthStats: its `dayStreak`, and so `healthPoints` and
  `healthLevel`, use the corrected streak. The code uses the text-key streak, so with
  entries on 9 and 10 January and today the 10th the app shows streak 0 and 2 points
  where the model gives 2 and 4.
- CognitiveJournal.JournalPage.LoadEntries: the statistics use the corrected streak,
  as for `CalculateHealthStats`.
- CognitiveJournal.JournalPage.HandleAddEntry: the statistics use the corrected
  streak, as for `CalculateHealthStats`.
- CognitiveJournal.JournalPage.HandleDeleteEntry: the statistics use the corrected
  streak, as for `CalculateHealthStats`.
- CognitiveJournal.JournalPage.SaveEntry: the statistics use the corrected streak, as
  for `CalculateHealthStats`.
- CognitiveJournal.JournalPage.RefreshStats: recomputes the statistics with the
  corrected streak (`StatsOf`), as for `CalculateHealthStats`.
- Schema.Database.DeclareTable: whether the library accepts `db.version(v)` is a
  parameter (`Faults.declare`, the `declareFault` of `EnsurePageTable`), and so it is
  for `Schema.Database.CheckAndDeclare`, `Schema.Database.EnsureTablesExist` and
  `Schema.Database.EnsurePageTable`. The model does not decide when the library
  refuses. Dexie refuses a new version while the database is open. Since
  `ensureTablesExist` declares right after `await db.open()`, on a store that lacks a
  table the likely outcome is the swallowed error (`Swallowed("SchemaError")`) with
  the schema unchanged, rather than the migration.
- Sorts stand in for `Array.prototype.sort` and Dexie's `orderBy("date").reverse()`.
  Both are stated as "sorted by the key and a permutation", so the relative order of
  rows with equal keys is not modelled.
- Form inputs hold strings that the comparisons coerce to numbers. The model holds
  the numbers, and the reset value `""` is modelled as 0.
- Lower-casing covers ASCII letters only, not full Unicode case mapping.
- A JSON body's numbers are integers in the model, so `NaN` and fractional
  truthiness are not modelled.
- `alert`, `console` output, scrolling, `isLoading`/`isSaving` and all rendering are
  not modelled. `confirm` and `prompt` are parameters.
- The Blob, object URL and anchor click of the export are I/O. The model returns the
  file name and the exported rows instead.
- `Math.random` is modelled as a supplied sequence of indices, each in 0..i for
  position i.
- The health profile's fields other than name, date of birth, gender and medications,
  and its separate medication editor, are not modelled. Neither is BMI, which is
  floating point.
- `if (editingId)` treats key 0 as "not editing". Keys start at 1, so this never
  arises and `editingId` is an `Option`.
- A chart row is the JavaScript object `{ date, [emoji]: intensity }`. The model keeps
  the date apart from the emoji values, so an emoji literally named "date" does not
  overwrite the row's date as it would in the code.
- The home page is modelled as functions over the loaded rows (`None` for a table the
  store lacks), not as a page class. Its calendar view, medication bands and chart
  are rendering and are not modelled.
- The regex highlighter and all date-window formatting of the journal are not
  modelled.

## Findings

| source | as written | input that shows it | evidently intended | confidence | as-written member | corrected member |
|---|---|---|---|---|---|---|
| src/pages/CognitiveJournal.jsx:107-121 | the latest day is the last of the unpadded `Y-M-D` keys sorted as text | entries on 9 and 10 January 2024, today 10 January: "2024-0-10" sorts before "2024-0-9", so the streak is 0 | the latest day in calendar order, giving a streak of 2 | not executed | CognitiveJournal.DayStreakAsWrittenMissesToday | CognitiveJournal.DayStreakByDateCountsYesterday |
| src/pages/BPTracker.jsx:185-189 | "elevated" is tested before "high", with either pressure in its elevated band enough | 135/82 is "elevated" while 135/70 is "high" | a pressure past its elevated band (systolic > 130 or diastolic > 85) is "high", the threshold the home page uses | not executed | BPTracker.GetBPStatusNotMonotone | BPTracker.ClassifyBPMonotone |
