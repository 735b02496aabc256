# Profile Matching employee assessment — a Dafny model

This project models the arithmetic core of a small employee-assessment web
application. The application scores employees with Profile Matching: an
actual score per sub-criterion, its gap to a standard value, and a weight
per gap from a seeded table. It then ranks employees by the weighted sum of
their criterion scores. The criterion weights come from AHP rows that users
enter by hand.

Each module follows one source file:

| module | file | form |
|---|---|---|
| `Ranking` | app/perankingan/page.tsx | imperative: a weight `Map`, grouping loop, totals loop, in-place stable sort of an `array`, rank loop; all proved against specification functions |
| `PenilaianBatch` | app/api/penilaian/batch/route.ts | a class `PenilaianStore` with one map per table; its methods are proved against functions on the value `Db` |
| `ScoreGrid` | app/penilaian/page.tsx | pure initial data, cell update and CSV layout; a loop method for the mutating `reduce` that groups sub-criteria |
| `ImportExcel` | components/ImportExcel.tsx | pure row-to-record transform and template row |
| `SeedTables` | prisma/seed.ts | the literal gap table, sub-criterion codes, profile targets and factor split |
| `KaryawanService` | services/karyawan.service.ts | performance score and statistics as functions; a class `KaryawanStore` for create and batch import |
| `KriteriaService` | services/kriteria.service.ts | a nested loop method for flattening; pure factor counting |
| `KriteriaTypes` | types/kriteria.d.ts | the criterion and sub-criterion records, `FaktorType` |
| `JsBuiltins` | (JavaScript built-ins) | `parseInt` without a radix, `` `${n}` ``, `Math.round`, `join` and `split` |

All quantities are exact `real` numbers. A number that JavaScript may read
as NaN (`parseFloat`, a `parseInt` that finds no digit) is an
`Option<real>` or `Option<int>`, with `None` standing for NaN. The falsy
`||` default is written out wherever the source uses it: 0, NaN, `""`,
`null` and `undefined` all fall through. A `Map` or object keeps insertion
order, and so does its model (sequences, or maps whose order is not
observed).

## Model

| member | source | states |
|---|---|---|
| Ranking.BobotMap | app/perankingan/page.tsx:63-66 | the weight `Map` after the `forEach`; specified by `BobotMapLastWins` (last listed weight per id) |
| Ranking.KriteriaWithBobot | app/perankingan/page.tsx:69-72 | `kriteriaWithBobot`; specified by `KriteriaGetTheirWeight` |
| Ranking.Groups | app/perankingan/page.tsx:92-108 | `karyawanMap` after the grouping `forEach`, in insertion order; specified by `GroupsCover`, `GroupsFirstAppearance`, `GroupsFirstKaryawan` and `GroupsNilai` |
| Ranking.NilaiFor | app/perankingan/page.tsx:107 | an employee's score map read off the input; specified by `NilaiForLastWins` |
| Ranking.TotalScore | app/perankingan/page.tsx:114-125 | `nilaiTotal`, Σ score × weight over the listed criteria; specified by `TotalIgnoresUnscored` and `TotalScoreMonotone` |
| Ranking.PerKriteria | app/perankingan/page.tsx:115-121 | `nilaiPerKriteria`; specified by `PerKriteriaEntries` |
| Ranking.ResultOf | app/perankingan/page.tsx:113-134 | the pushed result of one group; `ResultOfGroup` computes it and `UnrankedEntries` relates it to `ResultFor` |
| Ranking.ResultFor | app/perankingan/page.tsx:92-134 | an employee's expected result read straight off the input, the reference for `RankingEntries` |
| Ranking.StableSortDesc | app/perankingan/page.tsx:138 | the stable descending sort; specified by `StableSortSpec` |
| Ranking.WithRanks | app/perankingan/page.tsx:139-141 | rank = position + 1; `AssignRanks` computes it and `RankingShape` states the ranks |
| Ranking.Ranking | app/perankingan/page.tsx:86-141 | `calculateRanking`'s result; `CalculateRanking` computes it and `RankingShape`, `RankingEntries`, `RankingDistinct`, `RankingCoversEmployees` and `RankingTieOrder` specify it |
| Ranking.BuildBobotMap | app/perankingan/page.tsx:63-66 | the loop of `bobotMap.set` computes the weight map of the weight list |
| Ranking.BobotMapLastWins | app/perankingan/page.tsx:63-66 | a criterion id is in the weight map iff some entry has that id, and it maps to the weight of the last such entry |
| Ranking.KriteriaGetTheirWeight | app/perankingan/page.tsx:68-72 | every criterion keeps id, code and name and gets the last listed weight for its id, or 0 when no entry has its id |
| Ranking.FindGroup | app/perankingan/page.tsx:100 | the position of the employee's group, or -1 exactly when no group has that employee |
| Ranking.FirstIndex | app/perankingan/page.tsx:97-105 | the position of an employee's first profile result: it has that employee and no earlier result does |
| Ranking.AddHasilShape | app/perankingan/page.tsx:100-107 | one step adds a group at the end for a new employee and otherwise keeps the group count; existing groups keep employee and record |
| Ranking.GroupsDistinct | app/perankingan/page.tsx:92-108 | no two groups share an employee id |
| Ranking.AddHasilFinds | app/perankingan/page.tsx:100-105 | one turn of the grouping keeps every employee's group and gives the result's employee one |
| Ranking.GroupsFindAppearing | app/perankingan/page.tsx:97-105 | looking up an employee with a profile result finds a group |
| Ranking.GroupsHasAppearing | app/perankingan/page.tsx:97-105 | every employee with a profile result has a group |
| Ranking.GroupsOnlyAppearing | app/perankingan/page.tsx:97-105 | every group's employee has a profile result |
| Ranking.GroupsCover | app/perankingan/page.tsx:92-108 | exactly one group per distinct employee id of the input |
| Ranking.GroupsFirstKaryawan | app/perankingan/page.tsx:100-104 | a group keeps the employee record of that employee's first result |
| Ranking.OrderAfterAdd | app/perankingan/page.tsx:100-105 | one step keeps the groups ordered by first appearance |
| Ranking.GroupsFirstAppearance | app/perankingan/page.tsx:92-108 | groups are in order of the first appearance of their employee (`Map` insertion order) |
| Ranking.GroupsNilai | app/perankingan/page.tsx:107 | a group's score map is the fold of all of that employee's results |
| Ranking.NilaiForAbsent | app/perankingan/page.tsx:107 | an employee with no result gets no scores |
| Ranking.NilaiForLastWins | app/perankingan/page.tsx:107 | a criterion has a score iff the employee has a result for it; the last such result wins, with a missing score stored as 0 |
| Ranking.PerKriteriaEntries | app/perankingan/page.tsx:117-121 | the per-criterion map has an entry for exactly the listed criteria, holding the score or 0 |
| Ranking.Scored | app/perankingan/page.tsx:117-125 | every criterion kept has both a score and a weight |
| Ranking.ScoredMembers | app/perankingan/page.tsx:117-125 | a criterion is kept iff it is listed and has both a score and a weight |
| Ranking.ScoredStep | app/perankingan/page.tsx:117-125 | adding a criterion to the list adds its product to the total over the scored criteria |
| Ranking.TotalIgnoresUnscored | app/perankingan/page.tsx:117-125 | a criterion missing a score or a weight contributes nothing to the total |
| Ranking.TotalScoreMonotone | app/perankingan/page.tsx:117-125 | with non-negative weights, raising scores never lowers the total |
| Ranking.TiesAppend | app/perankingan/page.tsx:138 | the tied results of a list extended by one result |
| Ranking.InsertPermutes | app/perankingan/page.tsx:138 | inserting one result adds exactly that result (multiset) |
| Ranking.InsertSorted | app/perankingan/page.tsx:138 | inserting into a list sorted by total, highest first, keeps it sorted |
| Ranking.InsertTies | app/perankingan/page.tsx:138 | insertion puts the new result after every earlier result of equal total |
| Ranking.StableSortPermutes | app/perankingan/page.tsx:138 | the sort is a permutation |
| Ranking.StableSortSorted | app/perankingan/page.tsx:138 | the sorted totals are non-increasing |
| Ranking.StableSortTies | app/perankingan/page.tsx:138 | results of equal total keep their relative order (stable sort) |
| Ranking.StableSortSpec | app/perankingan/page.tsx:138 | the sort is a sorted, stable permutation |
| Ranking.InsertMembers | app/perankingan/page.tsx:138 | every element after inserting is the new result or was already there |
| Ranking.InsertDistinct | app/perankingan/page.tsx:138 | inserting a new employee keeps employee ids distinct |
| Ranking.InsertTiesOrdered | app/perankingan/page.tsx:138 | inserting a result with a larger key keeps ties ordered by that key |
| Ranking.StableSortDistinct | app/perankingan/page.tsx:138 | sorting keeps employee ids distinct |
| Ranking.StableSortTiesOrdered | app/perankingan/page.tsx:138 | ties come out in their input order |
| Ranking.InsertPastSmaller | app/perankingan/page.tsx:138 | insertion passes over a suffix of smaller totals unchanged |
| Ranking.InsertStops | app/perankingan/page.tsx:138 | insertion stops after the last element whose total is not smaller |
| Ranking.ShiftSmaller | app/perankingan/page.tsx:138 | the in-place shift moves elements of smaller total up one slot and stops at the first one that is not smaller |
| Ranking.InsertInPlace | app/perankingan/page.tsx:138 | one pass of the in-place insertion sort gives the functional insertion |
| Ranking.SortByTotalDesc | app/perankingan/page.tsx:138 | sorting the array in place gives the stable descending sort of its contents |
| Ranking.AssignRanks | app/perankingan/page.tsx:139-141 | the rank loop writes rank = index + 1 into every array element |
| Ranking.UnrankedEntries | app/perankingan/page.tsx:113-135 | one unsorted result per group; it is the employee's result read straight off the input |
| Ranking.RankingShape | app/perankingan/page.tsx:111-141 | one result per group, ranks exactly 1..n, totals non-increasing |
| Ranking.RankingEntries | app/perankingan/page.tsx:113-141 | every ranked result is its employee's result: the code of the first record, the name falling back to the code, the last score per criterion, and a total of Σ score × weight with 0 for missing values |
| Ranking.RankingDistinct | app/perankingan/page.tsx:92-141 | no employee is ranked twice, so tied totals still get distinct ranks |
| Ranking.RankingCoversEmployees | app/perankingan/page.tsx:92-141 | an employee is ranked iff they have a profile result |
| Ranking.RankingTieOrder | app/perankingan/page.tsx:97-141 | employees of equal total are ranked in order of first appearance in the input |
| Ranking.TieGroups | app/perankingan/page.tsx:92-108 | in a two-employee example the groups appear in input order |
| Ranking.TieUnranked | app/perankingan/page.tsx:113-135 | in that example both totals are 2 and the unnamed employee is shown by code |
| Ranking.TieSorted | app/perankingan/page.tsx:138 | sorting two tied results leaves them in place |
| Ranking.TiedEmployeesGetConsecutiveRanks | app/perankingan/page.tsx:138-141 | in that example the tied employees get ranks 1 and 2, in input order (not a dense "both 1") |
| Ranking.GroupByKaryawan | app/perankingan/page.tsx:92-108 | the `forEach` grouping loop computes the groups specified by the fold |
| Ranking.ResultOfGroup | app/perankingan/page.tsx:113-134 | the accumulation loop for one employee computes the per-criterion map and the weighted total |
| Ranking.CalculateRanking | app/perankingan/page.tsx:86-141 | the imperative procedure returns exactly the specified ranking |
| Ranking.FetchData | app/perankingan/page.tsx:62-78 | the criteria get their weights; the ranking is computed only when there is at least one result, and is empty otherwise |
| PenilaianBatch.PostResult | app/api/penilaian/batch/route.ts:4-126 | the route's writes and answer; specified by `PostResponds`, `PostIdempotent` and `PostValid` |
| PenilaianBatch.FindPeriode | app/api/penilaian/batch/route.ts:16-33 | the latest period, or a new default one |
| PenilaianBatch.FindPenilaian | app/api/penilaian/batch/route.ts:42-66 | find-or-create of the assessment; specified by `FindPenilaianValid` |
| PenilaianBatch.SubkriteriaId | app/api/penilaian/batch/route.ts:72 | `parseInt(key.replace('sub_', ''))`; specified by `SubKeyRoundTrip` |
| PenilaianBatch.SubKey | app/penilaian/page.tsx:50 | `` `sub_${id}` ``; `SubKeyRoundTrip` and `SubKeyInjective` specify it |
| PenilaianBatch.BobotGap | app/api/penilaian/batch/route.ts:86-111 | the stored gap weight; specified by `BobotGapRounding` |
| PenilaianBatch.FieldWrite | app/api/penilaian/batch/route.ts:69-113 | the upsert one property makes; specified by `FieldWriteSpec` |
| PenilaianBatch.FieldWrites | app/api/penilaian/batch/route.ts:69-114 | the upserts of one row; specified by `FieldWritesSound` |
| PenilaianBatch.ApplyWrites | app/api/penilaian/batch/route.ts:94-113 | applying upserts in order; specified by `ApplyWritesLastWins` |
| PenilaianBatch.SaveAll | app/api/penilaian/batch/route.ts:38-121 | the loop over the rows; specified by `SaveAllShape`, `SaveAllDetail`, `SaveAllKeeps` and `SaveAllValid` |
| PenilaianBatch.SubKeyRoundTrip | app/api/penilaian/batch/route.ts:70-72 | `parseInt(key.replace('sub_',''))` reads back every integer id written by `` `sub_${id}` `` |
| PenilaianBatch.KaryawanIdIsNoScore | app/api/penilaian/batch/route.ts:39-70 | the `karyawanId` property never produces a detail |
| PenilaianBatch.FieldWriteSpec | app/api/penilaian/batch/route.ts:69-113 | a property produces one upsert iff it has the prefix, a non-NaN value in [1,5] and a known sub-criterion id; it is keyed by (assessment, sub-criterion) and stores the value, the unrounded gap and the gap weight |
| PenilaianBatch.FieldWritesSound | app/api/penilaian/batch/route.ts:69-113 | every upsert of a row is for its assessment and a known sub-criterion, with value in [1,5] and gap = value - standard |
| PenilaianBatch.BobotGapRounding | app/api/penilaian/batch/route.ts:86-111 | -2.5 is looked up under -2 and 2.5 under 3; an absent gap and a weight of 0 both store `null` |
| PenilaianBatch.ApplyWritesAppend | app/api/penilaian/batch/route.ts:94-113 | upserting two lists one after the other is upserting their concatenation |
| PenilaianBatch.ApplyWritesOverride | app/api/penilaian/batch/route.ts:94-113 | upserts override existing details and leave the rest |
| PenilaianBatch.ApplyWritesTwice | app/api/penilaian/batch/route.ts:94-113 | repeating the same upserts changes nothing |
| PenilaianBatch.ApplyWritesLastWins | app/api/penilaian/batch/route.ts:94-113 | a key is present iff it was present or written; an unwritten key keeps its detail; the last write wins |
| PenilaianBatch.SaveAllKeeps | app/api/penilaian/batch/route.ts:38-121 | the loop leaves the read-only tables and the periods alone and keeps every existing assessment |
| PenilaianBatch.SaveAllLength | app/api/penilaian/batch/route.ts:116-120 | one result per input row |
| PenilaianBatch.SaveAllAt | app/api/penilaian/batch/route.ts:42-120 | result i is a success for row i's employee, carrying the id of that employee's assessment for the period |
| PenilaianBatch.SaveAllShape | app/api/penilaian/batch/route.ts:38-121 | one success per input row, in input order, each with the employee's assessment |
| PenilaianBatch.SaveAllDetail | app/api/penilaian/batch/route.ts:69-114 | the details after the loop are the old details with every row's upserts applied in order |
| PenilaianBatch.SaveAllFindsExisting | app/api/penilaian/batch/route.ts:42-66 | when every employee already has an assessment for the period, none is created and those are used |
| PenilaianBatch.PostResponds | app/api/penilaian/batch/route.ts:9-126 | a missing or non-array body gives 400 and writes nothing; otherwise one success per input element, in order |
| PenilaianBatch.PostIdempotent | app/api/penilaian/batch/route.ts:4-126 | posting the same body twice gives the same database and response as posting it once |
| PenilaianBatch.FindPenilaianValid | app/api/penilaian/batch/route.ts:42-66 | find-or-create keeps at most one assessment per (employee, period) with fresh ids, and returns the employee's assessment |
| PenilaianBatch.SaveAllValid | app/api/penilaian/batch/route.ts:38-121 | the loop keeps the table invariant |
| PenilaianBatch.PostValid | app/api/penilaian/batch/route.ts:4-126 | the route keeps the table invariant |
| PenilaianBatch.PenilaianStore.constructor | app/api/penilaian/batch/route.ts:4-126 | an empty store satisfies the table invariant |
| PenilaianBatch.PenilaianStore.FindOrCreatePeriode | app/api/penilaian/batch/route.ts:16-33 | the latest period, or a new default one when there is none |
| PenilaianBatch.PenilaianStore.FindOrCreatePenilaian | app/api/penilaian/batch/route.ts:42-66 | the store's find-or-create does what `FindPenilaian` specifies |
| PenilaianBatch.PenilaianStore.SaveValues | app/api/penilaian/batch/route.ts:69-114 | the inner loop applies exactly the row's upserts to the details |
| PenilaianBatch.PenilaianStore.Post | app/api/penilaian/batch/route.ts:4-126 | the store's new state and the response are those of `PostResult` |
| ScoreGrid.InitialData | app/penilaian/page.tsx:47-53 | `initialData`; specified by `InitialDataSpec` |
| ScoreGrid.HandleValueChange | app/penilaian/page.tsx:63-74 | the guarded update; specified by `HandleValueChangeSpec` and `NaNIsStored` |
| ScoreGrid.KeyOrder | app/penilaian/page.tsx:129-139 | the group keys in first-met order; specified by `KeyOrderSpec`, computed by `GroupByKriteria` |
| ScoreGrid.Members | app/penilaian/page.tsx:137 | a group's sub-criteria in list order; specified by `MembersSpec` |
| ScoreGrid.Headers | app/penilaian/page.tsx:105 | the export header; specified by `ExportShape` |
| ScoreGrid.ExportRow | app/penilaian/page.tsx:106-113 | one export row; specified by `ExportShape` and `ExportInitialData` |
| ScoreGrid.CsvContent | app/penilaian/page.tsx:115-118 | `csvContent`; specified by `CsvReadsBack` |
| ScoreGrid.Lookup | app/penilaian/page.tsx:70-111 | a property is undefined iff no entry has its key |
| ScoreGrid.SetCell | app/penilaian/page.tsx:50-70 | the key now holds the value, every other key is unchanged, and keys stay distinct |
| ScoreGrid.StandardOrThree | app/penilaian/page.tsx:50 | the default is never 0, is the standard or 3, and lies in [1,5] when the standard does (or is 0), so it passes the grid's and the route's range checks |
| ScoreGrid.AssignDistinct | app/penilaian/page.tsx:49-51 | the assignments leave distinct keys |
| ScoreGrid.AssignKeys | app/penilaian/page.tsx:49-51 | a key is defined iff it was assigned |
| ScoreGrid.AssignValue | app/penilaian/page.tsx:49-51 | a key holds its last assigned value |
| ScoreGrid.SubKeyInjective | app/penilaian/page.tsx:50 | different ids give different `sub_<id>` keys |
| ScoreGrid.InitCellsValue | app/penilaian/page.tsx:50 | a fresh row holds each sub-criterion's standard value, or 3 |
| ScoreGrid.InitialDataSpec | app/penilaian/page.tsx:47-53 | one row per employee, in order; every row has a `sub_<id>` entry for exactly the sub-criteria, holding its standard value or 3 |
| ScoreGrid.HandleValueChangeSpec | app/penilaian/page.tsx:63-74 | a value below 1 or above 5 is ignored; otherwise only that employee's `sub_<id>` entry changes, other rows and keys stay, and the row count is kept |
| ScoreGrid.NaNIsStored | app/penilaian/page.tsx:64-65 | the guard lets NaN through and stores it |
| ScoreGrid.KeyOrderSpec | app/penilaian/page.tsx:129-139 | the keys are distinct, are exactly the sub-criteria's criterion codes (or "Unknown"), and each listed key has members |
| ScoreGrid.MembersSpec | app/penilaian/page.tsx:129-139 | each sub-criterion is in the group of its own key and in no other |
| ScoreGrid.GroupStep | app/penilaian/page.tsx:130-137 | one turn of the `reduce` adds a new key at the end and appends the sub-criterion to its group |
| ScoreGrid.PushedDomain | app/penilaian/page.tsx:131-137 | after one turn the groups are exactly those of the key list |
| ScoreGrid.PushedContents | app/penilaian/page.tsx:131-137 | after one turn a group holds its members in list order and the name of its first member |
| ScoreGrid.GroupStepKeeps | app/penilaian/page.tsx:129-139 | one turn of the `reduce` keeps the accumulator's invariant |
| ScoreGrid.GroupByKriteria | app/penilaian/page.tsx:129-139 | the mutating `reduce` leaves one group per key, holding its members in input order and the name of its first member |
| ScoreGrid.FindKaryawan | app/penilaian/page.tsx:107 | `find` returns an employee with the id, or nothing iff there is none |
| ScoreGrid.CellOrZero | app/penilaian/page.tsx:111 | the exported number is 0 or the number stored in the cell, and a stored number is exported as itself |
| ScoreGrid.JoinAvoids | app/penilaian/page.tsx:115-118 | joining never introduces a character other than the separator |
| ScoreGrid.ExportShape | app/penilaian/page.tsx:105-113 | the header is "Kode", "Nama" and the codes; a row holds the code, the name (or empty) and one field per sub-criterion, with a missing value written as 0 |
| ScoreGrid.RowFieldsPlain | app/penilaian/page.tsx:106-113 | no row field holds a separator when no code, name or number does |
| ScoreGrid.RowLineReadsBack | app/penilaian/page.tsx:117 | a row's line holds no newline and splits back into its fields |
| ScoreGrid.HeaderLineReadsBack | app/penilaian/page.tsx:116 | the header line holds no newline and splits back into the headers |
| ScoreGrid.CsvReadsBack | app/penilaian/page.tsx:115-118 | the CSV text is the header line plus one line per row, and each line splits back into that row's fields |
| ScoreGrid.ExportInitialData | app/penilaian/page.tsx:47-113 | an untouched grid exports each employee's code and each sub-criterion's default value |
| ScoreGrid.FindFirst | app/penilaian/page.tsx:107 | with distinct ids, `find` returns the employee with that id |
| ImportExcel.TransformRow | components/ImportExcel.tsx:67-83 | the record of one sheet row; specified by `FieldFallbacks`, `TransformRowDefaults` and `ScoreCases` |
| ImportExcel.Transform | components/ImportExcel.tsx:67-85 | `transformedData`; specified by `TransformShape` |
| ImportExcel.TemplateRow | components/ImportExcel.tsx:122-129 | the template row; specified by `TemplateRowCodes`, `TemplateRowFixed`, `TemplateScores` and `TemplateFields` |
| ImportExcel.OrElse | components/ImportExcel.tsx:79-82 | `v \|\| d` is the cell or the default, never a falsy cell, and truthy whenever the default is |
| ImportExcel.ReplaceBySelf | components/ImportExcel.tsx:69 | `replace('KRT','KRT')` is the identity |
| ImportExcel.Clamp | components/ImportExcel.tsx:74 | `Math.min(Math.max(n, 1), 5)` lies in [1,5] |
| ImportExcel.ClampSpec | components/ImportExcel.tsx:74 | the clamp keeps values inside [1,5], maps values below to 1 and above to 5, and is idempotent |
| ImportExcel.ScoreOf | components/ImportExcel.tsx:69-75 | the `nilai` of one sub-criterion lies in [1,5]; `ScoreCases` and `ScoreReadsBack` give its value |
| ImportExcel.ScoreCases | components/ImportExcel.tsx:69-75 | a missing or falsy cell gives 3, a number is clamped, a text is read by `parseInt` and clamped, and unreadable text gives 3 |
| ImportExcel.ScoreReadsBack | components/ImportExcel.tsx:69-75 | a cell holding k in 1..5, as number or digit text, imports as k |
| ImportExcel.TransformShape | components/ImportExcel.tsx:67-76 | one record per row, one score per sub-criterion in list order, with its id and a value in [1,5] |
| ImportExcel.TransformRowDefaults | components/ImportExcel.tsx:81-82 | no record has an empty position or department |
| ImportExcel.FieldFallbacks | components/ImportExcel.tsx:79-82 | nip = Alternatif ‖ NIP ‖ '', nama = Nama ‖ alternatif ‖ Alternatif ‖ '', jabatan = Jabatan ‖ 'Staff', departemen = Departemen ‖ Department ‖ 'Umum' |
| ImportExcel.TemplateRowCodes | components/ImportExcel.tsx:122-129 | every code column of the template holds 3 |
| ImportExcel.TemplateRowFixed | components/ImportExcel.tsx:122-129 | a header that is not a code keeps its template value |
| ImportExcel.TemplateScores | components/ImportExcel.tsx:67-129 | importing the template row gives 3 for every sub-criterion |
| ImportExcel.TemplateFields | components/ImportExcel.tsx:79-129 | importing the template row gives nip "A01", nama "Contoh Karyawan", "Staff IT" and "IT" |
| SeedTables.SeededGapTable | prisma/seed.ts:223-236 | the gap table after `createMany`; specified by `SeededGapTableIs` and `SeededGapWeights` |
| SeedTables.GapWeight | prisma/seed.ts:223-231 | the weight of a gap; specified by `SeededGapWeights` |
| SeedTables.Flatten | prisma/seed.ts:216 | the concatenation of the sub-criterion lists; specified by `FlattenParents` and `SubkriteriaSeedIs` |
| SeedTables.KrtCode | prisma/seed.ts:95-214 | the code `KRT<n>`; specified by `KrtCodeInjective` |
| SeedTables.ProfileSettings | prisma/seed.ts:283-294 | one setting per criterion; specified by `ProfileSettingsSplit` |
| SeedTables.GapDataShape | prisma/seed.ts:223-231 | seven rows with pairwise distinct gaps covering exactly -3..3 |
| SeedTables.SeededGapTableIs | prisma/seed.ts:223-231 | the gap table as a map from gap to weight |
| SeedTables.SeededGapWeights | prisma/seed.ts:224-230 | weight 5 at gap 0, 5.5 - k above and 5 - k below the profile, excess half a point above shortfall, all weights in [2,5], strictly falling with the gap on each side |
| SeedTables.IdealThreeAlwaysWeighted | prisma/seed.ts:223-261 | against the ideal value 3 every score in [1,5] rounds to a gap in -2..2 and gets a table weight |
| SeedTables.FlattenParents | prisma/seed.ts:216 | every flattened sub-criterion belongs to a listed criterion |
| SeedTables.SubkriteriaSeedIs | prisma/seed.ts:95-217 | the seeded sub-criteria, code by code, under KRT1, KRT2 and KRT3 |
| SeedTables.KrtCodeInjective | prisma/seed.ts:95-214 | different numbers give different KRT codes |
| SeedTables.SubkriteriaAt | prisma/seed.ts:95-214 | sub-criterion i has code KRT(i+1) |
| SeedTables.SubkriteriaCodes | prisma/seed.ts:95-266 | the eleven codes are KRT1..KRT11, distinct, each under a seeded criterion |
| SeedTables.ProfileTargetAt | prisma/seed.ts:244-261 | target i has code KRT(i+1), ideal value 3, and is CORE iff i+1 is one of 1,2,3,5,6,9,10 |
| SeedTables.FindByCode | prisma/seed.ts:265-266 | `find` by code returns the first match, or nothing iff no entry has the code |
| SeedTables.ProfileTargetsPartition | prisma/seed.ts:244-278 | every target finds exactly its own sub-criterion, has ideal value 3, and the CORE/SECONDARY split is {1,2,3,5,6,9,10} / {4,7,8,11} |
| SeedTables.ProfileSettingsSplit | prisma/seed.ts:283-294 | each criterion gets core 0.6 and secondary 0.4, summing to 1 |
| KaryawanService.PerformanceScore | services/karyawan.service.ts:128-130 | mean score / 5 × 100, 0 for no scores |
| KaryawanService.NewKaryawan | services/karyawan.service.ts:132-147 | the created employee; specified by `NewKaryawanSpec` |
| KaryawanService.Fails | services/karyawan.service.ts:176-184 | whether an item's create throws, as an independent reference for `ImportAllSpec` |
| KaryawanService.FailureMessages | services/karyawan.service.ts:180-183 | the failing items' messages; related to `ImportAll` by `ImportAllErrors` |
| KaryawanService.Stats | services/karyawan.service.ts:89-120 | `getKaryawanStats`; specified by `StatsSpec` |
| KaryawanService.Average | services/karyawan.service.ts:105-108 | sum / count; bounded by `StatsSpec` |
| KaryawanService.TotalNilaiBounds | services/karyawan.service.ts:128 | a sum of n scores in [lo,hi] lies in [n·lo, n·hi] |
| KaryawanService.DivBounds | services/karyawan.service.ts:129 | dividing such a sum by n gives a value in [lo,hi] |
| KaryawanService.PerformanceScoreBounds | services/karyawan.service.ts:128-130 | 0 for no scores; in [20,100] when every score lies in [1,5] |
| KaryawanService.PerformanceScoreOfEqual | services/karyawan.service.ts:128-130 | equal scores c give 20·c |
| KaryawanService.NewKaryawanSpec | services/karyawan.service.ts:132-147 | the input's identity fields, the performance score, zeros for attendance, productivity and work quality, and one detail per score with the same id and value |
| KaryawanService.Create | services/karyawan.service.ts:125-163 | creation fails iff the nip is taken, and otherwise stores the new employee under its nip |
| KaryawanService.ErrorMessageNames | services/karyawan.service.ts:182 | the message shows the item's nip and then its name |
| KaryawanService.ImportAll | services/karyawan.service.ts:168-186 | success + failed = number of inputs and errors.length = failed |
| KaryawanService.FailsPrefix | services/karyawan.service.ts:176-184 | whether an item fails depends only on the items before it |
| KaryawanService.ImportAllKeys | services/karyawan.service.ts:176-184 | after the import a nip is stored iff it was stored before or is an input's nip |
| KaryawanService.ImportAllKeeps | services/karyawan.service.ts:176-184 | an existing employee is never changed |
| KaryawanService.FailsLast | services/karyawan.service.ts:176-184 | the last item fails iff its nip is taken after the earlier items |
| KaryawanService.ImportAllStores | services/karyawan.service.ts:176-184 | an item that does not fail is stored as its new employee |
| KaryawanService.ImportAllErrors | services/karyawan.service.ts:180-183 | the errors are the failing items' messages, in order, and a failure does not stop later items |
| KaryawanService.ImportAllSpec | services/karyawan.service.ts:168-186 | the stored keys, the kept and the new employees and the error list together |
| KaryawanService.ImportAllFreshSucceeds | services/karyawan.service.ts:168-186 | new, pairwise distinct nips all succeed with no errors |
| KaryawanService.NoFailureMessages | services/karyawan.service.ts:180-183 | new, pairwise distinct nips give no messages |
| KaryawanService.KaryawanStore.constructor | services/karyawan.service.ts:125-191 | a store holding the given employees |
| KaryawanService.KaryawanStore.CreateKaryawanWithPenilaian | services/karyawan.service.ts:125-163 | creates the employee iff the nip is free and changes nothing otherwise |
| KaryawanService.KaryawanStore.ImportKaryawanBatch | services/karyawan.service.ts:168-191 | the counting loop leaves the store and counters that `ImportAll` specifies |
| KaryawanService.SumOfBounds | services/karyawan.service.ts:105-108 | a sum of n figures in [lo,hi] lies in [n·lo, n·hi] |
| KaryawanService.StatsSpec | services/karyawan.service.ts:89-120 | all zero for an empty list or a failed fetch; otherwise the count and each average = sum / count, lying within the figures' bounds |
| KriteriaService.AllKriteria | services/kriteria.service.ts:7-25 | `getAllKriteria`: the fetched list, or [] on failure |
| KriteriaService.Flat | services/kriteria.service.ts:92-100 | the flat list; specified by `FlatLength` and `FlatAt`, computed by `GetAllSubKriteriaFlat` |
| KriteriaService.CountFaktor | services/kriteria.service.ts:117-118 | `filter(...).length`; specified by `CountFaktorDisjoint` and `CountFaktorAbsent` |
| KriteriaService.GetKriteriaStats | services/kriteria.service.ts:112-135 | `getKriteriaStats`; specified by `KriteriaStatsSpec` and `EnumFaktorsCountAsNeither` |
| KriteriaService.FlatLength | services/kriteria.service.ts:92-100 | the flat list's length is the sum of the group sizes |
| KriteriaService.FlatAt | services/kriteria.service.ts:93-99 | entry j of criterion i sits after the earlier criteria's entries, with its fields and its parent's name |
| KriteriaService.GetAllSubKriteriaFlat | services/kriteria.service.ts:88-107 | the nested push loops compute the flat list, and a failed fetch gives [] |
| KriteriaService.CountFaktorDisjoint | services/kriteria.service.ts:117-118 | two different factor texts together count at most every entry |
| KriteriaService.CountFaktorAbsent | services/kriteria.service.ts:117-118 | a text no entry has counts 0 |
| KriteriaService.KriteriaStatsSpec | services/kriteria.service.ts:112-135 | the totals are the criterion and sub-criterion counts, core + secondary ≤ total, and a failure gives all zeros |
| KriteriaService.EnumFaktorsCountAsNeither | services/kriteria.service.ts:117-118 | factors stored as "CORE"/"SECONDARY" count as neither core nor secondary |
| JsBuiltins.ParseInt | app/api/penilaian/batch/route.ts:72 | `parseInt` without a radix; specified by `ParseIntOfDecimal`, `ParseDigits` and `TrimStart` |
| JsBuiltins.Join | app/penilaian/page.tsx:115-118 | `join`; specified by `SplitJoin` and `JoinAvoids` |
| JsBuiltins.NatToDecimal | app/penilaian/page.tsx:50 | `` `${n}` `` of a natural number is a non-empty string of digits |
| JsBuiltins.IntToDecimal | app/penilaian/page.tsx:50 | `` `${n}` `` of an integer: digits, with a leading '-' when negative |
| JsBuiltins.TrimStart | app/api/penilaian/batch/route.ts:72 | `parseInt` skips leading white space |
| JsBuiltins.DigitRun | app/api/penilaian/batch/route.ts:72 | the longest prefix of digits |
| JsBuiltins.ParseDigits | app/api/penilaian/batch/route.ts:72 | NaN iff the text does not start with a digit |
| JsBuiltins.DigitRunOfDigits | app/api/penilaian/batch/route.ts:72 | a digit string is read to its end |
| JsBuiltins.DigitsValueOfDecimal | app/api/penilaian/batch/route.ts:72 | reading the decimal digits of n gives n |
| JsBuiltins.ParseUnsignedOfDigits | app/api/penilaian/batch/route.ts:72 | a digit string is read as its value |
| JsBuiltins.ParseIntOfNegative | app/api/penilaian/batch/route.ts:72 | "-" and digits read as the negated value |
| JsBuiltins.ParseIntOfNonNegative | app/api/penilaian/batch/route.ts:72 | digits read as their value |
| JsBuiltins.ParseIntOfNegativeDecimal | app/api/penilaian/batch/route.ts:72 | `parseInt` reads back a negative integer's decimal text |
| JsBuiltins.ParseIntOfNonNegativeDecimal | app/api/penilaian/batch/route.ts:72 | `parseInt` reads back a natural number's decimal text |
| JsBuiltins.ParseIntOfDecimal | app/api/penilaian/batch/route.ts:72 | `parseInt` inverts `` `${n}` `` for every integer |
| JsBuiltins.MathRound | app/api/penilaian/batch/route.ts:90 | `Math.round(x)` is the integer in (x - 1/2, x + 1/2] |
| JsBuiltins.MathRoundIsUnique | app/api/penilaian/batch/route.ts:90 | that integer is unique |
| JsBuiltins.Split | app/penilaian/page.tsx:115-118 | a split has at least one part |
| JsBuiltins.SplitWithoutSeparator | app/penilaian/page.tsx:115-118 | text without the separator splits into itself |
| JsBuiltins.SplitAfterPart | app/penilaian/page.tsx:115-118 | a part followed by the separator splits off |
| JsBuiltins.SplitJoin | app/penilaian/page.tsx:115-118 | splitting a join of separator-free parts gives the parts back |

## Left out

- AHP and NCF/NSF computation: they are not in the modelled code. The matrix, weight and profile routes only store client numbers, so criterion weights and criterion scores are inputs.
- HTTP, Prisma and persistence: the tables are maps, and the requests and responses are datatypes. Connection handling, `include`/`orderBy` shapes, status plumbing and the 500 error paths of the routes are not modelled.
- Periods: a period is its id. "The latest period" is the one with the highest id, which is a field of `Db`. The name and dates a new default period gets are not modelled.
- `parseFloat`: its result is taken as an input `Option<real>`, with `None` for NaN. Its text-reading rules are not modelled.
- PenilaianBatch.FieldWrite: a NaN sub-criterion id (`parseInt` finding no digit) is skipped like an unknown id. The real code would send NaN to the `findUnique` query.
- JsBuiltins.TrimStart: only ASCII white space is skipped. The Unicode space characters that `parseInt` also skips are not modelled.
- ScoreGrid: row properties and the group keys of `groupedSubkriteria` keep insertion order. JavaScript lists integer-like keys first, in ascending order. `sub_<id>` and `karyawanId` are never integer-like. A criterion code such as "2" would be, and `Object.entries` would then render its group before groups inserted earlier; `KeyOrder` does not capture that. The seeded codes KRT1..KRT3 and "Unknown" are not integer-like.
- ScoreGrid.ExportRow: how `join` writes a number is the parameter `fmt`. JavaScript number formatting is not modelled.
- KaryawanService.Create: a taken nip (the unique key that `findUnique` by nip relies on) is the only failure modelled. Other database failures are not. The text of a thrown error is the parameter `error`.
- KaryawanService.Stats: a failed fetch is `None`. The statistics of a list are modelled; the fetch itself is not.
- KriteriaService.GetKriteriaStats: the function fetches the criteria twice (directly and through the flattening). It is modelled as one fetched result, and a failure of either fetch gives all zeros.
- KriteriaService: the service uses the legacy record shape (string ids, `namaKriteria`, a free-text `faktor`). It counts the texts "core factor" and "secondary factor"; `EnumFaktorsCountAsNeither` records that the enum values the seed stores match neither.
- Floating point: `toFixed`, IEEE rounding error and the `b.nilaiTotal - a.nilaiTotal` comparator's behaviour on NaN are not modelled. Quantities are exact reals.
- `Promise.all` fan-out and async sequencing: steps are taken in order.
- UI: rendering, dialogs, alerts, XLSX reading and writing, `FileReader`, `Blob` downloads, animation, date formatting, React state setters, and `console` logging.
- Ranks of tied totals: Profile Matching is often presented with dense ranks, where equal totals share a rank. The code gives rank = position + 1, so tied totals get different consecutive ranks, in first-appearance order. The model follows the code.
- Gap rounding and missing weights: Profile Matching is often presented with gaps rounded half away from zero and a weight of 0 for a gap the table lacks. The code uses `Math.round` (half up: -2.5 becomes -2) and stores `null` for a missing gap or a weight of 0. The model follows the code.
