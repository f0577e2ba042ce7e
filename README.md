# Chore Champ onboarding, modelled in Dafny

Chore Champ's onboarding turns what a new user types into rows for a
household, its areas and its chores. The flow has three parts, and this
project models each one and proves properties about it:

- **Schema** (`schema.dfy`) covers the zod schemas of `app/lib/db/schema.ts`.
  - Each schema appears twice: as an acceptance predicate, and as the list of
    issues zod reports, each with its path, code and message.
  - Lemmas tie the two together. They prove the length bounds and boundary
    cases, and that every failing field is reported at its own path.
  - A length is JavaScript's `.length`, which zod's `.min` and `.max`
    compare: UTF-16 code units (`Schema.Utf16Length`), so a character outside
    the Basic Multilingual Plane counts twice.
  - They also prove what `error.flatten()` files under each field, and the
    round trip of the frequency enum.
- **Draft** (`draft.dfy`) covers the client wizard of `app/routes/_index.tsx`.
  - Each button handler is a functional `setState` updater. It is modelled as
    a pure transition on a `State` record.
  - A button's `disabled` flag and its presence on screen are the guards of
    an event machine (`Next`, `Run`).
  - `Inv` is the invariant every reachable state keeps. It makes every event
    the screen allows run without throwing.
  - Two handlers are modelled both as written and corrected (see
    "## Findings").
- **Planner** (`planner.dfy`) covers the server `action` of the same route.
  - It validates the fields and builds the two id dictionaries with one
    `createId` call per area and per named chore.
  - It then builds the household, area, chore and area-to-chore rows, and
    inserts them table by table. It stops at the first insert that returns no
    rows.
  - The planning is specified by pure functions of the validated data and
    the ids in call order (`PlanFor`, `Steps`, `Outcome`).
  - The loops of the source are methods proved against those functions.
  - `Action` is proved against the whole specification: the answer, the ids
    drawn, and what the database holds afterwards.

Three supporting modules:

- `records.dfy` (**Records**) models a JavaScript plain object as an
  insertion-ordered list of entries; `Put` is `{...r, [k]: v}`.
- `store.dfy` (**Store**) holds the row types and two stand-ins: the
  database (`Database`, a class whose `Insert` appends rows or refuses) and
  `createId` (`IdSupply`, a class handing out distinct strings).
- `optional.dfy` (**Optional**) holds `Option` and `Result`.

Where a description of the system and the code differ, the model follows
the code:

- The success body is `{ succes: 'ok' }`, spelled as in the code. `Planner.Outcome` answers `Succeeded(SuccessBody)` with that body.
- The household name submitted is `inputs.householdName`, not the draft's copy (`Draft.Submit`). `Draft.SubmittedHousehold` proves the two agree in every reachable state.

## Model

| member | source | states |
|---|---|---|
| Records.Put | app/routes/_index.tsx:192-195 | after `{...r, [k]: v}`, `k` reads `v` and every other key reads as before |
| Records.PutKeys | app/routes/_index.tsx:50-53 | a new key goes to the end of `Object.keys`; an existing key keeps its place |
| Records.PutAt | app/routes/_index.tsx:192-195 | with distinct keys, `Put` rewrites exactly the entry under `k`, or appends one at the end |
| Records.PutEntries | app/routes/_index.tsx:50-53 | after a `Put`, each entry is the new entry or the entry that was at that place before; `Planner.PlanAreaRows` relies on it for the dictionary built here |
| Records.PutDistinct | app/routes/_index.tsx:192-195 | a `Put` keeps the keys distinct |
| Records.PutSame | app/routes/_index.tsx:275 | spreading a key's own list back under it leaves the object unchanged |
| Records.GetAt | app/routes/_index.tsx:113-114 | with distinct keys, looking up entry `i`'s key returns entry `i`'s value |
| Store.Database.Insert | app/routes/_index.tsx:63-66 | the attempt is logged; an accepting table gets the rows appended and they are returned; a refusing table changes nothing and returns no rows; other tables are unchanged |
| Store.IdSupply.CreateId | app/routes/_index.tsx:62 | each call returns the next id and advances the supply |
| Store.TokensDistinct | app/routes/_index.tsx:51 | the ids handed out are pairwise different |
| Schema.Utf16Length | app/lib/db/schema.ts:189-192 | the `.length` that `.min` and `.max` compare lies between the number of characters and twice that |
| Schema.BmpLength | app/lib/db/schema.ts:189-192 | a string of Basic Multilingual Plane characters is as long as it has characters |
| Schema.RepeatedLength | app/lib/db/schema.ts:189-192 | `n` copies of a character are `n` times its code units long |
| Schema.AstralNameRejected | app/lib/db/schema.ts:189-192 | a name of 26 emoji is 52 code units long and is rejected as too long, although it has only 26 characters |
| Schema.StringIssues | app/lib/db/schema.ts:189-192 | a zod string reports no issue exactly when every length check holds; each issue sits at the field's path |
| Schema.BetweenChecks | app/lib/db/schema.ts:191-192 | a `.min(lo)` and a `.max(hi)` check hold together exactly when `lo <= length <= hi` |
| Schema.NameIssues | app/lib/db/schema.ts:189-192 | a name is accepted exactly when its length is in [1, 50] |
| Schema.ChoreNameIssues | app/lib/db/schema.ts:207-211 | a chore name is accepted exactly when its length is in [1, 50] |
| Schema.PasswordIssues | app/lib/db/schema.ts:147 | a password is accepted exactly when its length is in [8, 50]; no such issue is the refinement's |
| Schema.DescriptionIssues | app/lib/db/schema.ts:212-215 | the combined schema accepts a description exactly when its length is at most 255 |
| Schema.TableDescriptionIssues | app/lib/db/schema.ts:184-185 | `insertChoreSchema` accepts a description exactly when its length is at most 50 |
| Schema.FrequencyName | app/lib/db/schema.ts:56-62 | every frequency's name is one of `frequencyOptions` |
| Schema.ParseFrequency | app/lib/db/schema.ts:217 | the enum accepts exactly the five option strings, and the value parsed names the string |
| Schema.FrequencyRoundTrip | app/lib/db/schema.ts:56-62 | parsing a frequency's name gives the frequency back |
| Schema.FrequencyIssues | app/lib/db/schema.ts:217 | an optional frequency is accepted exactly when it is absent or one of the options |
| Schema.Concat | app/lib/db/schema.ts:205-220 | the issues collected from an array are empty exactly when every element's are |
| Schema.ConcatMembers | app/lib/db/schema.ts:205-220 | every collected issue belongs to one of the elements |
| Schema.ConcatReported | app/lib/db/schema.ts:205-220 | a path is reported among the collected issues exactly when some element reports it |
| Schema.ReportedConcat | app/lib/db/schema.ts:188-221 | a path is reported in two joined issue lists exactly when one of them reports it |
| Schema.NameParts | app/lib/db/schema.ts:199-203 | element `j` of a string array is checked at `path + [j]` |
| Schema.NameListIssues | app/lib/db/schema.ts:199-203 | an array of names is accepted exactly when every element is a name |
| Schema.NameListPaths | app/lib/db/schema.ts:199-203 | each element's issues lie one index below the array's path, at an index of the array |
| Schema.NameListReported | app/lib/db/schema.ts:199-203 | element `j` is reported at its own index exactly when it is not a name |
| Schema.EntryIssues | app/lib/db/schema.ts:194-204 | an areas entry is accepted exactly when its key and every chore name under it are names |
| Schema.EntryPaths | app/lib/db/schema.ts:194-204 | an entry's issues lie at or under `[areas, key]` |
| Schema.EntryParts | app/lib/db/schema.ts:194-204 | the record's entries are checked in key order |
| Schema.EntryReported | app/lib/db/schema.ts:194-204 | an entry reports its key exactly when the key is not a name, and chore name `j` exactly when that name is not one |
| Schema.AreasIssues | app/lib/db/schema.ts:194-204 | the areas record is accepted exactly when every entry is |
| Schema.AreasPaths | app/lib/db/schema.ts:194-204 | the record's issues lie under `areas` |
| Schema.AreaReported | app/lib/db/schema.ts:194-204 | with distinct keys, only area `i`'s own entry reports paths under `[areas, key_i]` |
| Schema.ChoreIssues | app/lib/db/schema.ts:206-219 | a chore object is accepted exactly when its present name is a name, its present description is at most 255 long, and its present frequency is an option |
| Schema.ChorePaths | app/lib/db/schema.ts:206-219 | chore `i`'s issues lie at `[chores, i, field]` |
| Schema.ChoreFieldsReported | app/lib/db/schema.ts:206-219 | each field of a chore object is reported exactly when it fails its own rule |
| Schema.ChoreParts | app/lib/db/schema.ts:205-220 | chore `i` is checked under `[chores, i]` |
| Schema.ChoresIssues | app/lib/db/schema.ts:205-220 | the chores array is accepted exactly when every chore object is |
| Schema.ChoresPaths | app/lib/db/schema.ts:205-220 | the array's issues lie at `[chores, i, field]` for an index `i` of the array |
| Schema.ChoreReported | app/lib/db/schema.ts:205-220 | only chore `i`'s own object reports paths under `[chores, i]` |
| Schema.OnboardingIssues | app/lib/db/schema.ts:188-221 | the payload raises no issue exactly when the schema accepts it |
| Schema.ParseChores | app/lib/db/schema.ts:205-220 | validated chores keep every field, and each frequency is parsed from its string |
| Schema.ValidateOnboarding | app/lib/db/schema.ts:188-221 | `safeParse` succeeds exactly when the schema accepts; a failure carries every issue, never none; a success keeps the name and the areas and carries over each chore's fields |
| Schema.PayloadSplit | app/lib/db/schema.ts:188-221 | a path under `householdName`, `areas` or `chores` is reported exactly when that field's own schema reports it |
| Schema.HouseholdNameReported | app/lib/db/schema.ts:189-192 | the household name is reported exactly when its length is outside [1, 50] |
| Schema.AreaKeyReported | app/lib/db/schema.ts:194-198 | area key `i` is reported at `[areas, key]` exactly when its length is outside [1, 50] |
| Schema.AreaChoreNameReported | app/lib/db/schema.ts:199-203 | chore name `j` of area `i` is reported at `[areas, key, j]` exactly when its length is outside [1, 50] |
| Schema.ChoreFieldReported | app/lib/db/schema.ts:206-218 | each field of chore `i` is reported at `[chores, i, field]` exactly when it fails its rule; all failing fields are reported, not only the first |
| Schema.MessagesUnderSnoc | app/routes/_index.tsx:45 | one more issue adds its message under its first key and nowhere else |
| Schema.AddIssue | app/routes/_index.tsx:45 | filing an issue adds its message under its first key, or to the form errors when its path is empty |
| Schema.HasHeadSnoc | app/routes/_index.tsx:45 | one more issue adds exactly its first key to the keys with issues |
| Schema.Flatten | app/routes/_index.tsx:45 | `flatten()` files messages under exactly the first keys that occur, in issue order, and has no form errors when no path is empty |
| Schema.MessagesUnderEmpty | app/routes/_index.tsx:45 | a key that heads no issue files no message |
| Schema.HasHeadConcat | app/routes/_index.tsx:45 | a key heads an issue of two joined lists exactly when it heads one in either |
| Schema.HeadsOfRun | app/routes/_index.tsx:45 | a non-empty run of issues under one key has that key as its only head |
| Schema.PayloadHeads | app/lib/db/schema.ts:188-221 | the payload's issues are headed by exactly the top-level fields that fail |
| Schema.PayloadPaths | app/lib/db/schema.ts:188-221 | no payload issue has an empty path |
| Schema.FlattenedFields | app/routes/_index.tsx:45 | the 400 answer's errors have no form errors, and list each top-level field exactly when it fails |
| Schema.HouseholdNameOnly | app/routes/_index.tsx:45 | when only the household name fails, the flattened errors have `householdName` as their only key, holding the minimum's message for an empty name and the maximum's otherwise |
| Schema.NameBoundaries | app/lib/db/schema.ts:189-192 | lengths 0 and above 50 are rejected with exactly one issue carrying the schema's message; lengths 1 and 50 are accepted |
| Schema.DescriptionMessage | app/lib/db/schema.ts:212-215 | a description over 255 code units is rejected with the message that says 50 |
| Schema.DescriptionLimitsDiffer | app/lib/db/schema.ts:184-185 | the combined schema accepts and `insertChoreSchema` rejects exactly the descriptions of length 51 to 255 |
| Schema.HouseholdIssues | app/lib/db/schema.ts:162-168 | `insertHouseholdSchema` accepts exactly when the name's length is in [1, 50], whatever the optional id; issues sit at `name` |
| Schema.AreaInputIssues | app/lib/db/schema.ts:170-176 | `insertAreaSchema` accepts exactly when the name's length is in [1, 50], whatever the optional id |
| Schema.ChoreInputIssues | app/lib/db/schema.ts:178-186 | `insertChoreSchema` accepts exactly when the name is in [1, 50], the description is at most 50 and the frequency is an option |
| Schema.UserIssues | app/lib/db/schema.ts:145-149 | the password is accepted exactly when its length is in [8, 50] |
| Schema.RegisterIssues | app/lib/db/schema.ts:151-158 | `registerSchema` accepts exactly when the password's length is in [8, 50] and it equals `confirmPassword`; the mismatch issue is present exactly when they differ, at path `confirmPassword` |
| Schema.RegisterReportsAll | app/lib/db/schema.ts:151-158 | a short password that differs from its confirmation gets both the length issue and the mismatch, since the refinement still runs |
| Draft.NewArea | app/routes/_index.tsx:192-195 | `{...areas, [k]: []}` gives `k` an empty list, adds `k` at the end only when new, and keeps every other key and distinctness |
| Draft.Extend | app/routes/_index.tsx:224-227 | appending to a present key's list changes only that key, keeps the key order, and changes nothing when nothing is appended |
| Draft.GoToAreas | app/routes/_index.tsx:178-187 | the draft takes the household name from the input and the step becomes the areas step; nothing else changes |
| Draft.AddAnotherArea | app/routes/_index.tsx:189-201 | the area gets an empty list, replacing any list it had; other areas keep theirs; the area input clears; the step stays |
| Draft.GoToChores | app/routes/_index.tsx:203-215 | the area gets an empty list as in "Add another area", the area name stays, and the step becomes the chores step |
| Draft.AddAnotherChore | app/routes/_index.tsx:217-235 | as written: the review list and the area's list grow by the new chore, but the draft's chores become the review list plus the new chore |
| Draft.AddAnotherChoreCorrected | app/routes/_index.tsx:217-235 | corrected: the draft's own chores grow by the new chore |
| Draft.GoToAreasFromChores | app/routes/_index.tsx:237-257 | as written: the pending chore and its name are appended even when the name is empty; the inputs clear; the step returns to areas |
| Draft.GoToAreasFromChoresCorrected | app/routes/_index.tsx:237-257 | corrected: the draft changes exactly as under the check step's flush rule |
| Draft.GoToCheck | app/routes/_index.tsx:259-285 | the three-way flush: name and note append both, a name alone appends the name only, no name appends nothing; the area's list grows only when a name was typed; the inputs clear |
| Draft.Submit | app/routes/_index.tsx:158-165 | the action receives the household name input, the draft's areas, and each draft chore with its name and optional note |
| Draft.Next | app/routes/_index.tsx:437-484 | in an `Inv` state an event happens exactly when its control is on screen and enabled |
| Draft.InitInv | app/routes/_index.tsx:138-156 | the initial state satisfies `Inv` |
| Draft.NextInv | app/routes/_index.tsx:178-285 | every handler keeps `Inv` |
| Draft.RunInv | app/routes/_index.tsx:178-285 | every state reached from an `Inv` state satisfies `Inv` |
| Draft.NoThrow | app/routes/_index.tsx:226 | in every reachable state, an event the screen allows never reads the list of a missing area |
| Draft.SubmittedHousehold | app/routes/_index.tsx:158-165 | a reachable check-step state submits the draft's own household name, which is never empty |
| Draft.CorrectedNext | app/routes/_index.tsx:217-257 | the corrected handlers keep both invariants: no empty chore name is stored, and every listed chore name is a draft chore |
| Draft.CorrectedRun | app/routes/_index.tsx:217-257 | every state the corrected wizard reaches keeps `Inv`, `Clean` and `Covered` |
| Draft.CorrectedReachable | app/routes/_index.tsx:217-257 | every state the corrected wizard reaches from the start is clean and covered |
| Draft.CleanSubmitAccepted | app/routes/_index.tsx:158-165 | a clean check-step draft whose strings are short enough passes the onboarding schema |
| Draft.EmptyChoreRejected | app/routes/_index.tsx:237-257 | as written, an "Another area" click with no chore typed leads to a submission the schema rejects at `[chores, 0, name]` |
| Draft.EmptyChoreCorrected | app/routes/_index.tsx:237-257 | the corrected wizard on the same clicks stores no empty chore, and its submission is accepted |
| Draft.MopAddedAsWritten | app/routes/_index.tsx:228-231 | as written, "Another chore" rebuilds the draft's chores from the review list and drops the chore flushed earlier |
| Draft.MopAddedCorrected | app/routes/_index.tsx:228-231 | corrected, the same click keeps the earlier chore |
| Draft.DroppedChoreAccepted | app/routes/_index.tsx:217-235 | as written, a chore flushed by "Another area" stays listed under its area, is missing from the draft's chores, and the draft still passes the schema |
| Draft.DroppedChoreCorrected | app/routes/_index.tsx:217-235 | the corrected wizard on the same clicks keeps every listed name among the draft's chores |
| Planner.AreasDictionaryEntries | app/routes/_index.tsx:50-53 | the area dictionary has one entry per key, pairing the `i`-th key with the `i`-th id, and its keys are distinct |
| Planner.ChoresDictionaryKeys | app/routes/_index.tsx:55-60 | the chore dictionary's keys are distinct and are exactly the names of the named chores; duplicates collapse |
| Planner.ChoresDictionaryValues | app/routes/_index.tsx:55-60 | every chore id is one of the ids drawn, and no two entries share one |
| Planner.NamedWithSnoc | app/routes/_index.tsx:56 | a name belongs to a named chore of a longer list exactly when it does in the shorter list or it is the last chore's |
| Planner.LinksCount | app/routes/_index.tsx:107-117 | the number of links is the sum of the areas' list lengths |
| Planner.LinkAt | app/routes/_index.tsx:109-117 | the `j`-th name of area `i` gets its link at offset (names before area `i`) + `j`, built from the two dictionary lookups |
| Planner.PlanAreaId | app/routes/_index.tsx:50-53 | area `i`'s key maps to the `i`-th id drawn |
| Planner.PlanChoreLookup | app/routes/_index.tsx:114 | a chore name has an id exactly when some named chore carries it |
| Planner.PlanAreaRows | app/routes/_index.tsx:62-80 | one area row per area in key order, each with its own id and the household row's id |
| Planner.PlanChoreRows | app/routes/_index.tsx:90-97 | one chore row per distinct name of a named chore, and no other |
| Planner.PlanLinks | app/routes/_index.tsx:107-117 | the `j`-th name of area `i` gets a link with that area's id, and with a chore id exactly when some named chore has that name |
| Planner.PlanIdsDistinct | app/routes/_index.tsx:50-62 | with distinct ids, the household, area and chore rows all have different ids |
| Planner.PlanAreaIdsDrawn | app/routes/_index.tsx:50-62 | area `i` has the `i`-th id, and the household has the id drawn after the chores' |
| Planner.PlanChoreIdsDrawn | app/routes/_index.tsx:55-62 | every chore id is drawn after the area ids and before the household id, and no two chores share one |
| Planner.DrawnApart | app/routes/_index.tsx:50-62 | ids drawn from the three distinct runs are pairwise different across the plan |
| Planner.PlanChoreIds | app/routes/_index.tsx:55-60 | each chore row's id is one of the ids drawn for named chores, and no two are equal |
| Planner.NamesOnly | app/routes/_index.tsx:55-60 | only chore names matter to the chore dictionary; descriptions, due dates and frequencies never reach it |
| Planner.PlanNamesOnly | app/routes/_index.tsx:90-97 | two payloads with the same household, areas and chore names give the same plan |
| Planner.BuildAreasDictionary | app/routes/_index.tsx:50-53 | the reduce calls `createId` once per key and builds the area dictionary of the ids drawn |
| Planner.AreasDictionaryStep | app/routes/_index.tsx:51 | one more key puts the next id under it |
| Planner.BuildChoresDictionary | app/routes/_index.tsx:55-60 | the reduce calls `createId` once per named chore and builds the chore dictionary of the ids drawn |
| Planner.ChoresDictionaryStep | app/routes/_index.tsx:56-57 | a named chore puts the next id under its name; an unnamed one changes nothing and draws nothing |
| Planner.BuildLinks | app/routes/_index.tsx:107-117 | the nested `forEach` pushes exactly the links of the plan |
| Planner.StepsShape | app/routes/_index.tsx:63-128 | inserts go household, areas, chores, links; each carries its table's rows; none is empty; a table gets an insert exactly when it has rows |
| Planner.StepsOrdered | app/routes/_index.tsx:63-128 | the household insert comes first and the tables' ranks strictly increase |
| Planner.StepsRows | app/routes/_index.tsx:82-119 | each insert carries its table's rows, and none is empty |
| Planner.StepsTables | app/routes/_index.tsx:82-119 | a table is inserted into exactly when it has rows |
| Planner.Outcome | app/routes/_index.tsx:63-130 | the inserts answer either a thrown error or the success body `{ succes: 'ok' }` of :130 |
| Planner.ShortCircuit | app/routes/_index.tsx:68-127 | the attempted inserts are a prefix of the planned ones, and all but the last were accepted; the answer is an error exactly when one is refused, and it is then the last attempted insert's message |
| Planner.RefusedStops | app/routes/_index.tsx:68-127 | the inserts end in an error exactly when one of them is refused, and never in a validation answer |
| Planner.WrittenConcat | app/routes/_index.tsx:63-128 | the rows written by two runs of inserts are the rows of each, joined |
| Planner.TablesOfConcat | app/routes/_index.tsx:63-128 | the tables logged by two runs of inserts are the tables of each, joined |
| Planner.Advance | app/routes/_index.tsx:68-127 | a refused insert stops the run with its message; an accepted or skipped one lets the rest decide |
| Planner.StepTaken | app/routes/_index.tsx:68-127 | after the accepted inserts, the run either stops at the next one or goes on with the rest |
| Planner.OneStep | app/routes/_index.tsx:82-88 | a single guarded insert logs its table and stores its rows only when accepted |
| Planner.InsertStep | app/routes/_index.tsx:82-88 | one guarded insert goes on exactly when it is skipped or accepted, and the database then tracks one more insert |
| Planner.Persist | app/routes/_index.tsx:63-128 | the four guarded inserts answer with the first refused insert's message, or success; the database holds the rows of the accepted inserts and logs every attempt |
| Planner.AreaIdsFirst | app/routes/_index.tsx:50-53 | the area dictionary takes the first ids drawn |
| Planner.ChoreIdsNext | app/routes/_index.tsx:55-60 | the chore dictionary takes the ids drawn after the areas' |
| Planner.PlanBuilt | app/routes/_index.tsx:48-117 | the rows built from the two dictionaries and the household id, each drawn in call order, are the plan's |
| Planner.BuildPlan | app/routes/_index.tsx:48-117 | the ids are drawn in call order (areas, named chores, household), one per needed id, and the rows are those of the plan |
| Planner.CreateHousehold | app/routes/_index.tsx:48-130 | after validation, the ids are drawn, the answer is the outcome of the plan's inserts, and the database tracks the attempted ones |
| Planner.Action | app/routes/_index.tsx:35-131 | on a failed validation the 400 answer carries the flattened issues and the fields, and no id is drawn or row inserted; otherwise the answer and the database follow the plan's inserts |
| Planner.DreamHouseChores | app/routes/_index.tsx:55-60 | three different chore names draw three ids and give three dictionary entries |
| Planner.DreamHouseRows | app/routes/_index.tsx:62-117 | two areas listing three chores plan two area rows, three chore rows and three links |
| Planner.DreamHouseValidated | app/lib/db/schema.ts:188-221 | that submission passes validation under any valid household name, keeping its areas and chore names |
| Planner.FourInserts | app/routes/_index.tsx:63-130 | a plan with rows for every table runs four inserts, and succeeds when nothing is refused |
| Planner.DreamHousePlanned | app/routes/_index.tsx:48-130 | that validated data draws six ids, plans one household, two area, three chore and three link rows, runs four inserts and succeeds |
| Planner.BadHouseholdRejected | app/routes/_index.tsx:42-46 | with a household name of the wrong length, that submission is rejected with one message under `householdName` and nothing else |

## Left out

- Reading the request (`request.formData()`, `Object.fromEntries`, `JSON.parse`, app/routes/_index.tsx:36-40) and encoding it on the client (`FormData`, `JSON.stringify`, :158-165) are serialisation plumbing. `Draft.Submit` folds both round trips into a function, and the action starts from parsed, typed fields (`Schema.RawFields`).
- zod's type errors are not modelled: missing fields, non-string values, JSON that is not an object or an array. The record types already have the right shape.
- The e-mail check of `insertUserSchema` (app/lib/db/schema.ts:146) is a library regex.
- Schema.UserIssues: states the password bounds only; the e-mail format check is not part of this model.
- The database (drizzle `insert(...).values(...).returning()`, the `pgTable` and `relations` declarations, foreign keys) is foreign code.
  - `Store.Database` stands in for it. A fixed set of tables refuses inserts, and every other table stores the rows and returns them.
  - A `null` result is treated like an empty one, since the source handles both the same way.
  - Driver exceptions, constraint violations and the absence of a rollback beyond "nothing later is attempted" are not modelled.
- `createId` (cuid2) is modelled by `Store.IdSupply`, which hands out strings of growing length. Its collision-freedom is therefore exact here, where cuid2's is only probabilistic.
- Store.IdSupply.CreateId: only the order of the ids and that they are distinct matter; their format is not modelled.
- Awaiting each insert is modelled as running the inserts in sequence; concurrency does not arise.
- Column defaults computed from `new Date()` (`createdAt`, `updatedAt`) depend on the clock.
- JavaScript lists integer-like object keys (such as `"12"`) before the others, whatever their insertion order. `Records` keeps plain insertion order for every key, so its key order differs from JavaScript's for such keys.
- Records.Get: a `{}` literal inherits from `Object.prototype`, which is not modelled. `Records` treats every name as an own key or as missing. For the inherited names the source differs in two ways:
  - Planner.ChoresDictionary: a chore named `"__proto__"` draws an id in the source, but `acc["__proto__"] = id` (app/routes/_index.tsx:57) makes no entry, so no chore row follows. The model makes the entry and plans the row.
  - Planner.PlanLinks: the source's lookup `choresDictionary[chore]` (:114) of a name such as `"constructor"` or `"toString"` with no chore behind it returns the inherited function, not `undefined`. The model says that such a link has no chore id.
- React rendering, `useRef`, the `setTimeout` focus calls, the `useEffect` focus and logging, and `ErrorBoundary` (app/routes/_index.tsx:186, :287-293, :295-514) are UI.
  - A thrown error is modelled as the `Thrown` answer, and `Planner.Status` gives it 500.
  - The review list's display (:369-377, :416-427) is not modelled.
- `handleChange` (app/routes/_index.tsx:167-172) is `Draft.Typed`. Which inputs are on screen and that the note is disabled until a chore name is typed (:395) are `Draft.Editable`. The "Another area" and "Check" buttons (:471, :474) have no `disabled` flag, so they are enabled whenever the chores step shows them. "Done" (:480) is `Draft.Submit`, applied at the check step.
- `handleNextStep` (:174-176) is folded into `Draft.GoToCheck`.
- components/Themed.tsx and remix.config.js are presentation and build configuration.

## Findings

| source | as written | input that shows it | evidently intended | confidence | as-written member | corrected member |
|---|---|---|---|---|---|---|
| app/routes/_index.tsx:237-257 | "Another area" appends the pending chore to the draft, and its name to the current area's list, with no check. An empty chore name is stored too. | `Draft.EmptyChoreTrace`: household "Home", area "Kitchen", Next, then "Another area" with no chore typed, area "Bath", Next, Check. The submitted draft holds a chore named "" and "" under "Kitchen", and the schema rejects `[chores, 0, name]`. | Flush the pending chore only when a name was typed, as "Check" does (:259-285). | not executed | Draft.EmptyChoreRejected | Draft.EmptyChoreCorrected |
| app/routes/_index.tsx:228-231 | "Another chore" sets the draft's chores to the local review list plus the new chore (`...chores`), not to the draft's own list (`...state.chores`). A chore flushed by "Another area" is lost although its name stays listed under its area. | `Draft.DroppedChoreTrace`: "Dust" is typed under "Kitchen" and flushed by "Another area". Then "Mop" is added under "Bath" with "Another chore". The draft's chores become just "Mop" while "Kitchen" still lists "Dust", and the schema accepts it. By `Planner.PlanLinks`, the link planned for "Dust" then has no chore id. | Append to the draft's own chores, as "Another area" and "Check" do. | not executed | Draft.DroppedChoreAccepted | Draft.DroppedChoreCorrected |

For the first row, `Draft.GoToAreasFromChores` models the handler as written and `Draft.GoToAreasFromChoresCorrected` models the correction. For the second, `Draft.AddAnotherChore` and `Draft.AddAnotherChoreCorrected` do. `Draft.CorrectedReachable` proves that the corrected wizard never stores an empty chore name and never lists a name that is missing from its chores.

The combined schema caps a chore description at 255 characters, but its message says 50 (app/lib/db/schema.ts:214). `Schema.DescriptionMessage` and `Schema.DescriptionLimitsDiffer` pin this down. The model keeps both the 255 bound and the message, because it is unclear which one was meant.
