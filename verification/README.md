# Gym tracker: local store and set-list editor in Dafny

This project models the two pieces of logic inside the gym-tracker web app.

- **The local store** (`src/storage.ts`). It keeps four independently
  persisted slots: muscle groups, workout types, sessions and the settings
  record. It offers first-start seeding (`initDefaults`), lookups, filtered
  and date-sorted lists, and append-only writers that give each new entity a
  fresh id.
- **The set-list editor and history statistics** (helpers in
  `src/pages/Workout.tsx`). `update`, `addSet`, `quickAdd` and `remove` edit
  the list of sets being logged. The save path renumbers the sets before
  storing the session. The history card shows the top set of each session.
  The header shows a "Personal Best" line only when the best is non-zero.
  For a best of 0, `best && …` renders a bare `0` in its place. The
  quick-stats cards show total sets and total reps, and appear only when
  the history is non-empty.

Modules, one per concept:

| file | module | models |
|---|---|---|
| `options.dfy` | `Options` | `T \| undefined` and the `??` operator |
| `seqs.dfy` | `Seqs` | `Array.filter` and `Array.find` on sequences, with their laws |
| `types.dfy` | `Types` | the entities of `src/type.ts` |
| `lex.dfy` | `Lex` | string comparison of ISO dates, and its order laws |
| `session_order.dfy` | `SessionOrder` | the stable sort of a workout's sessions by date |
| `storage.dfy` | `Storage` | `read`, `initDefaults` and every `db` accessor |
| `set_editor.dfy` | `SetEditor` | the set-list transformers and the save path |
| `stats.dfy` | `Stats` | top set, personal best, total sets, total reps |

Modelling choices:

- **Slots.** Browser storage is a value of the `Store` datatype. Each writer
  returns the next store. A slot reads as `Absent` (no text, or empty text),
  `Corrupt` (text that is not JSON) or `Present(value)`. JSON itself is not
  modelled.
- **Ids.** The uuid generator is an oracle. Each writer receives the new id
  as a parameter. `InitDefaults` receives six ids and requires them to be
  pairwise distinct, which is what uuid guarantees. The writers accept any
  id. Lookup-after-add and id-uniqueness lemmas require the id to be absent
  from the current collection.
- **Numbers.** Reps, weight and RPE are `real`. The reps input's default step of 1 and its `min={1}` are only validation hints, and nothing checks them, so a typed 2.5 or -3 is stored and counted in total reps. Set numbers are `int`.
- **Session order.** `localeCompare` on dates becomes lexicographic
  comparison by character code (`Lex.LexLe`). For zero-padded
  `YYYY-MM-DD` dates the two agree. `Array.prototype.sort` is stable, and a
  stable sort's output is fully determined by its comparison. The model
  therefore uses a stable insertion sort, `SessionOrder.SortByDate`.
  Stability is stated per date: keeping only the sessions of any date `d`
  gives the same sequence before and after sorting.
- **Folds.** Every `reduce` and `forEach` in the statistics is a left fold
  with an accumulator, as in the source. Each fold is proved equal to an
  independent reference definition: the concatenation of all sets, their
  count, the sum of their reps, their maximum weight.

Choices where the model follows the code as written:

- `addSession` (src/storage.ts:71-76) stores the caller's sets untouched.
  The store never renumbers them. Numbering is set by the save path
  (src/pages/Workout.tsx:172-177). `SetEditor.SaveDraft` models that path, and
  `SetEditor.SavedSessionIsNumbered` proves the stored sets are numbered.
- `initDefaults` (src/storage.ts:34-35) always rewrites the settings slot
  with the value it reads. An absent or corrupt slot therefore becomes
  `{unit: kg}`, and a parsed slot is written back unchanged. The unit is a
  closed enumeration (`Kg | Lb`), so malformed settings values cannot be
  represented.
- The optional muscle-id filter is in the query hook (src/hooks.ts:31),
  not in the store. The store offers `getWorkoutTypes` and
  `getWorkoutTypesByMuscle`.

## Model

| member | source | states |
|---|---|---|
| Storage.Read | src/storage.ts:11-15 | a slot that is absent, empty or unparseable reads as the fallback; a parsed slot reads as its value |
| Storage.Seed | src/storage.ts:24-31 | the seed list carries the six ids from the generator, in order |
| Storage.InitDefaults | src/storage.ts:21-36 | on a muscle-group list that reads as empty: exactly six groups Chest, Triceps, Shoulders, Biceps, Back, Legs in that order, each with a non-empty image and pairwise distinct ids; on a non-empty list: the slot is untouched; settings become their prior stored value, or `{unit: kg}` when absent or corrupt; workout types and sessions untouched |
| Storage.InitDefaultsIdempotent | src/storage.ts:21-36 | a second initialisation changes nothing, so no seed group is duplicated |
| Storage.GetMuscleGroups | src/storage.ts:39-41 | a missing or corrupt group slot reads as no groups rather than failing |
| Storage.GetMuscleGroup | src/storage.ts:42-44 | none exactly when no stored group has the id; otherwise a stored group with that id that no earlier group's id matches |
| Storage.AddMuscleGroup | src/storage.ts:45-50 | the group list becomes the old list plus one group with the given name, the new id and an empty image; the other three slots are untouched |
| Storage.AddMuscleGroupFresh | src/storage.ts:45-50 | with a fresh id, looking that id up afterwards finds the new group, and pairwise distinct group ids stay distinct |
| Storage.GetWorkoutTypes | src/storage.ts:51-53 | a missing or corrupt workout-type slot reads as no workout types |
| Storage.GetWorkoutTypesByMuscle | src/storage.ts:54-56 | exactly the stored workout types filed under the group, each kept as often as stored, in stored order; an id no type references gives the empty list; the filter callback is `Storage.InGroup` |
| Storage.AddWorkoutType | src/storage.ts:57-62 | appends one workout type with the given group, name and id, without checking the group exists; other slots untouched |
| Storage.AddWorkoutTypeFiling | src/storage.ts:54-62 | afterwards the group's filtered list is its previous value plus the new type at the end; every other group's list is unchanged |
| Storage.AddWorkoutTypeFresh | src/storage.ts:57-62 | with a fresh id, pairwise distinct workout type ids stay distinct |
| Storage.GetSessions | src/storage.ts:63-65 | a missing or corrupt session slot reads as no sessions |
| Storage.GetSessionsByWorkout | src/storage.ts:66-70 | a permutation of the sessions logged against the workout, ordered by date, with sessions of equal date in insertion order; the filter callback is `Storage.ForWorkout` |
| Storage.HistoryFacts | src/storage.ts:66-70 | the filter-then-sort result holds exactly the workout's sessions, is sorted by date, and is stable per date |
| Storage.AddSession | src/storage.ts:71-76 | appends `{id, ...draft}` with the draft's sets stored untouched; other slots untouched; the stored session is built by `SessionDraft.WithId`, the spread `{ id: uuid(), ...sess }` |
| Storage.AddSessionFresh | src/storage.ts:71-76 | with a fresh id, pairwise distinct session ids stay distinct |
| Storage.AddSessionHistory | src/storage.ts:66-76 | other workouts' histories are unchanged; in its own workout's history the new session lands after every session dated no later and before every session dated strictly later |
| Storage.GetSettings | src/storage.ts:77-79 | settings that were never written, or do not parse, read as `{unit: kg}` |
| Storage.SetSettings | src/storage.ts:77-82 | reading the settings after replacing them gives exactly the new settings; the other slots are untouched |
| SessionOrder.Insert | src/storage.ts:69 | one step of the stable sort: one session longer and holding the inserted session; its placement is in SessionOrder.InsertPosition |
| SessionOrder.SortByDate | src/storage.ts:69 | the stable sort by date: same length; its order, permutation and stability properties are in SessionOrder.SortSorted, SessionOrder.SortPermutes and SessionOrder.SortStable |
| SessionOrder.InsertPosition | src/storage.ts:69 | inserting into a date-sorted list puts the session after all no-later sessions and before all strictly later ones |
| SessionOrder.InsertSorted | src/storage.ts:69 | inserting into a date-sorted list keeps it sorted |
| SessionOrder.SortPermutes | src/storage.ts:69 | sorting loses and duplicates no session |
| SessionOrder.SortSorted | src/storage.ts:69 | the sorted list is non-decreasing by date under lexicographic comparison |
| SessionOrder.SortStableOn | src/storage.ts:69 | sessions sharing a date keep their relative order |
| SessionOrder.SortStable | src/storage.ts:69 | stability for every date at once |
| SessionOrder.SortThree | src/storage.ts:69 | three sessions whose first is dated after both others, and whose second is no later than the third, sort as second, third, first |
| SessionOrder.SortExample | src/storage.ts:69 | sessions dated 2024-03-01, 2024-01-15, 2024-02-10 come back as 2024-01-15, 2024-02-10, 2024-03-01 |
| Seqs.Filter | src/storage.ts:55 | no longer than the input and every kept element satisfies the predicate; multiplicities and order are in Seqs.FilterCount and Seqs.FilterIsSubsequence |
| Seqs.FilterIsSubsequence | src/storage.ts:55 | filtering keeps the relative order of the kept elements |
| Seqs.FilterAppend | src/storage.ts:55 | filtering a concatenation is concatenating the filtered parts |
| Seqs.FilterCount | src/storage.ts:55 | filtering keeps every occurrence of a selected value and no other value |
| Seqs.FirstMatch | src/storage.ts:43 | the position found satisfies the predicate and no earlier position does; none only when no position does |
| Lex.LexLe | src/storage.ts:69 | no contract; the comparator `a.date.localeCompare(b.date) <= 0` as code-point order, whose order laws are in Lex.LexLeTotal, Lex.LexLeTransitive and Lex.LexLeAntisymmetric |
| Lex.LexLeTotal | src/storage.ts:69 | any two dates are comparable |
| Lex.LexLeTransitive | src/storage.ts:69 | date comparison is transitive |
| Lex.LexLeAntisymmetric | src/storage.ts:69 | dates that compare both ways are equal |
| Lex.LexLeFirstDifference | src/storage.ts:69 | strings are ordered by their first differing character |
| SetEditor.ApplyPatch | src/pages/Workout.tsx:284 | the fields present in the patch overwrite, every other field is kept |
| SetEditor.Update | src/pages/Workout.tsx:283-285 | same length; only the set at the index is patched; every other set is identical; an index outside the list changes nothing |
| SetEditor.UpdateKeepsNumbering | src/pages/Workout.tsx:283-285 | a reps, weight or RPE edit keeps set numbers equal to positions |
| SetEditor.NextSet | src/pages/Workout.tsx:287 | no contract; the set appended by addSet and by each quickAdd step, whose fields are stated in SetEditor.AddSet and SetEditor.QuickAdd; `Option.GetOr` stands for the `??` defaults |
| SetEditor.AddSet | src/pages/Workout.tsx:286-288 | one more set; the prefix is unchanged; the new set is number length+1 and copies reps, weight and RPE of the last set (missing RPE becomes 8), or is 8 reps at 20 with RPE 8 on an empty list; numbering is preserved |
| SetEditor.QuickAdd | src/pages/Workout.tsx:289-298 | exactly n more sets (none for n not positive); the prefix is unchanged; the added sets are numbered length+1 to length+n and each has the load that addSet would add; n = 1 is addSet; numbering is preserved |
| SetEditor.RemoveAt | src/pages/Workout.tsx:300 | one set fewer when the index is in range, with the later sets shifted down; otherwise the list unchanged |
| SetEditor.Remove | src/pages/Workout.tsx:299-301 | one set fewer when the index is in range; the survivors keep their loads in their original order; the result is always numbered by position |
| SetEditor.RemoveUndoesAddSet | src/pages/Workout.tsx:286-301 | removing the set just added restores a numbered list exactly |
| SetEditor.RemoveOutOfRange | src/pages/Workout.tsx:299-301 | an out-of-range index only renumbers, which leaves a numbered list as it is |
| SetEditor.Renumber | src/pages/Workout.tsx:176 | same length and loads, numbered by position; a list that is already numbered is returned unchanged |
| SetEditor.SaveDraft | src/pages/Workout.tsx:172-177 | the submitted session carries the workout, date and notes, and its sets are the logged loads numbered by position |
| SetEditor.SavedSessionIsNumbered | src/pages/Workout.tsx:172-177 | the session stored by a save has numbered sets with the logged loads, is the last stored session, and appears in its workout's history |
| SetEditor.InitialSets | src/pages/Workout.tsx:15-20 | given the history available at the page's first render, the set list's mount-time value is the newest session's sets, or one default set of 8 reps at 20 without RPE when that history is absent or empty |
| SetEditor.InitialSetsNumbered | src/pages/Workout.tsx:15-20 | when the history's sessions are numbered, so is the starting list |
| Stats.FoldMax | src/pages/Workout.tsx:303 | the fold is at least its start and every weight, and equals the start or one of the weights; each step takes `Stats.Max`, which stands for `Math.max` |
| Stats.MaxSetWeight | src/pages/Workout.tsx:302-304 | the top set is at least 0 and every weight of the session, equals 0 or one of them, and is 0 for a session without sets |
| Stats.BestFold | src/pages/Workout.tsx:24-25 | the running maximum never drops below its start; its value is in Stats.BestFoldIsFoldMax |
| Stats.Best | src/pages/Workout.tsx:22-27 | absent exactly while the history is absent, otherwise at least 0; its value is in Stats.BestIsOverallMax |
| Stats.BestFoldIsFoldMax | src/pages/Workout.tsx:22-27 | the nested forEach equals one max fold over the concatenation of all sessions' sets |
| Stats.BestIsOverallMax | src/pages/Workout.tsx:22-27 | the personal best is the maximum of 0 and all weights of all sessions: it bounds every set and is 0 or one of their weights |
| Stats.BestIsLargestTopSet | src/pages/Workout.tsx:22-27 | the personal best bounds every session's top set and is 0 or one of them |
| Stats.FoldMaxAppend | src/pages/Workout.tsx:25 | the max fold over a concatenation continues from where the first part left off |
| Stats.FoldSetCount | src/pages/Workout.tsx:57 | the count fold never drops below its start; its value is in Stats.TotalSetsCountsAllSets |
| Stats.TotalSets | src/pages/Workout.tsx:57 | total sets is never negative; its value is in Stats.TotalSetsCountsAllSets |
| Stats.TotalSetsCountsAllSets | src/pages/Workout.tsx:57 | total sets is the number of sets over all sessions, 0 for no sessions |
| Stats.FoldReps | src/pages/Workout.tsx:63 | the inner reps fold of one session never drops below its start when no reps are negative; its value is in Stats.FoldRepsIsSum |
| Stats.FoldTotalReps | src/pages/Workout.tsx:63 | the outer reps fold never drops below its start when no reps are negative; its value is in Stats.TotalRepsSumsAllReps |
| Stats.TotalReps | src/pages/Workout.tsx:63 | total reps is at least 0 when no reps are negative; its value is in Stats.TotalRepsSumsAllReps |
| Stats.FoldRepsIsSum | src/pages/Workout.tsx:63 | the inner reduce equals its start plus the sum of the session's reps |
| Stats.TotalRepsSumsAllReps | src/pages/Workout.tsx:63 | total reps is the sum of reps over all sets of all sessions, 0 for no sessions |
| Stats.TotalsAfterInsert | src/pages/Workout.tsx:57-63 | placing one session anywhere in a history adds exactly its sets and reps to the totals |
| Stats.SaveAddsToTotals | src/pages/Workout.tsx:57-63 | a save adds exactly the logged sets and reps to the totals of its workout's history |

## Left out

- Browser storage and JSON are not modelled. A slot is `Absent`, `Corrupt` or `Present`. Stored text that parses to a value of the wrong shape is not modelled. For example, the text `null` parses: the list getters then return `null`, and the callers that use the result as a list throw (`mg.length`, `.find`, `.filter` and the spreads at src/storage.ts:23, 43, 48, 55, 60, 68 and 74).
- Write failures such as an exceeded storage quota are not modelled. Every write succeeds.
- uuid generation is not modelled. Ids are parameters. Freshness is a precondition of the lemmas that need it.
- Locale-sensitive `localeCompare` is not modelled. Dates compare by character code.
- `src/hooks.ts` (react-query caching and invalidation) is not part of this model. That includes one detail: an empty muscle id in `useWorkoutTypes` falls through to the full list (src/hooks.ts:31).
- Rendering, dayjs date formatting, theming, routing and the other pages are not modelled. The pages' only logic is a non-empty `name.trim()` check before calling the store, and the store itself accepts any name.
- The lost update between two overlapping read-modify-write calls is not modelled. It is a concurrency effect, and the model is sequential.
- Floating-point rounding is not modelled: reps, weight and RPE are exact reals. A cleared number input reads as `""`, and `Number("")` is 0, which the model represents as a plain value.
- The set list is React state seeded once at mount. `SetEditor.InitialSets` models only that seed value, from the history available at the first render. The list is not reseeded when the history loads later, and the model does not represent that timing.
- `best` is `null` while the history is loading. `Stats.Best` models this with an optional value. What the header renders for a best of 0 (a bare `0` instead of the "Personal Best" line) is rendering and is not modelled.
