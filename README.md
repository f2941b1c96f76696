# BOOTS ground operations, symbol slugs and symbol search, in Dafny

This project models three parts of a wargame adjudication repository.

- **The BOOTS engine** (`boots_calculator.py`, class `BOOTSCalculator`). It resolves one turn of ground
  operations in six stages, in this order:
  1. Red airborne and air-assault landings;
  2. Red ground attacks;
  3. Blue maneuver movements between troop organisations (TOs);
  4. Blue fire-support plans;
  5. casualty records;
  6. territory control.

  It then adds summary counts. Each stage is modelled as an imperative method, with loops and invariants
  matching the source's `for`/`append` loops. Each method is proved equal to a specification function,
  and lemmas state what the source promises about those functions.
- **The slug of a symbol label**, `slugify` in `tools/index_svg_symbols.js`, together with the
  `'unlabeled'` fallback and the `'symbol_' + i` fallback for preview file names.
- **The keyword filter** of `tools/search_symbols.js`.

Modules, one concept each:

| module | file | contents |
|---|---|---|
| `Common` | common.dfy | `Option`, `Result`, `dict.get` with a default, `min`/`max`, Python's `int()` on a real, ASCII lowercasing, substring search |
| `OrderedMaps` | ordered_maps.dfy | a Python `dict`: insertion-ordered keys and assignment that keeps a key's place |
| `BootsCore` | boots_core.dfy | the unit-strength and terrain tables (module constants: the source sets them once in `__init__` and never writes them again), the lookups, force strength, and the exceptions |
| `BootsLandings` … `BootsTerritory` | boots_*.dfy | the six stages |
| `Boots` | boots.dfy | `calculate_boots_operations`, its summary, and the empty-table finding below |
| `Slug` | slug.dfy | `slugify` and the two fallbacks |
| `SymbolSearch` | search.dfy | the term lowercasing, the usage exit and the filter |

**How the inputs are represented.** The DataFrames become sequences of row datatypes. Order records become
datatypes:

- A field whose absence changes behaviour (a hex, a battalion type, a unit type, a TO, a plan id, a target
  type, a label) is an `Option`.
- A field whose absence means a default (a count of 0, an empty list) is stored as that default.

**Exceptions.** The source raises exceptions in three places, and the model returns them as
`Err(BootsError)`:

- numpy's `ValueError`, when a landing's loss draw has an empty range;
- the `TypeError` raised by `'Arty' in None`, for a fire-support unit without a type;
- pandas' `KeyError`, for a column filter on a frame built from an empty list.

**Random draws.** Each draw is a parameter, under the precondition that it lies in the range the numpy call
returns:

- a landing draw is `LandingDraw(roll, loss)`, with `roll` in [0, 1) and `loss` in [1, hi) for the
  `randint(1, hi)` of its kind;
- an attack draw is `u` in [0.5, 1.5).

The landing draws come airborne orders first, one per order, as the source consumes them.

## Model

| member | source | states |
|---|---|---|
| `BootsCore.StrengthOf` | boots_calculator.py:33-49 | a unit type's per-battalion strength is its table entry, or 1.0 for an unknown or missing type; it always lies in [0.2, 2.0] |
| `BootsCore.TerrainAt` | boots_calculator.py:156 | a hex that is missing or absent from the terrain map is `open` |
| `BootsCore.TerrainMod` | boots_calculator.py:51-58 | a terrain's modifier is its table entry, or 1.0 for an unknown terrain; it always lies in [0.9, 1.8] |
| `BootsCore.TotalCount` | boots_calculator.py:223-227 | the number of battalions in a force list, non-negative when every count is |
| `BootsCore.EntryStrength` | boots_calculator.py:224-227 | one entry's `count * strength` lies between 0.2 and 2.0 per battalion for a non-negative count |
| `BootsCore.ForceStrength` | boots_calculator.py:222-235 | the strength of a force list lies between 0.2 and 2.0 times its battalion count, the extremes of the table |
| `BootsLandings.ResolveLanding` | boots_calculator.py:150-200 | one landing order: the row copies the order, uses the default battalion type per kind, and records the terrain. Success holds iff the roll is below 0.8/terrain modifier (airborne) or 0.85 (air assault). A success lands every battalion. A failure lands the attempted count less the loss draw: between 0 and n-1 for an airborne drop, and more than n - n//2 but fewer than n for an air assault. The order raises `ValueError` iff it fails with a count below 1 (airborne) or below 4 (air assault) |
| `BootsLandings.LossBound` | boots_calculator.py:163-190 | the upper end of the loss draw leaves a non-empty range iff the drop has at least 1 battalion (airborne) or at least 4 (air assault). An air assault's bound is at least 1 and, when the range is non-empty, at most half the battalions |
| `BootsLandings.SuccessChance` | boots_calculator.py:160-187 | the chance is positive; it is 0.85 for an air assault, and 0.8 once multiplied by the terrain modifier for an airborne drop. It is at most 1 on every terrain whose modifier is at least 0.8 |
| `BootsLandings.LandingRows` | boots_calculator.py:150-200 | a loop that does not raise yields one row per order; its only exception is numpy's `ValueError` |
| `BootsLandings.LandingRowsPerOrder` | boots_calculator.py:150-173 | one loop over orders of one kind gives one row per order, each the resolution of that order with its own draws. It raises iff some order raises, and then it raises the empty-range `ValueError` |
| `BootsLandings.ResolveLandingsOfKind` | boots_calculator.py:150-200 | the loop, with its early exit on the exception, computes exactly `LandingRows` |
| `BootsLandings.ProcessRedLandings` | boots_calculator.py:141-204 | `_process_red_landings` computes exactly `RedLandings`: the airborne loop, then the air-assault loop |
| `BootsLandings.RedLandings` | boots_calculator.py:147-204 | a stage that does not raise yields one row per order of either kind; its only exception is numpy's `ValueError` |
| `BootsLandings.RedLandingsRaise` | boots_calculator.py:163-190 | the stage raises iff some order of either kind raises, and only with the empty-range `ValueError` |
| `BootsLandings.RedLandingsPerOrder` | boots_calculator.py:147-204 | there is one row per order, airborne rows first. Row i is the resolution of order i. No row lands more battalions than it attempted, and a row is airborne iff it comes from the first list |
| `BootsLandings.AirAssaultIgnoresTerrain` | boots_calculator.py:184-190 | an air assault's success and the battalions it lands are the same whatever the terrain of its hex |
| `BootsLandings.AirborneRougherTerrainIsHarder` | boots_calculator.py:156-161 | with the same roll, an airborne drop that succeeds where the terrain modifier is larger also succeeds where it is smaller |
| `BootsLandings.MountainDropScenario` | boots_calculator.py:156-163 | a drop of four battalions on a mountain hex with a roll below 0.8/1.8 lands all four |
| `BootsAttacks.Classify` | boots_calculator.py:248-261 | the outcome is Success iff the ratio is at least 2.0, Partial iff it lies in [0.8, 2.0), and Failure iff it is below 0.8. The casualty ratio is 0.1 for Success and 0.4 for Failure. It is 0.2 iff the ratio lies in [1.5, 2.0), and 0.3 iff it lies in [0.8, 1.5) |
| `BootsAttacks.ClassifyMonotone` | boots_calculator.py:250-261 | a higher ratio never gives a worse outcome or a higher casualty ratio |
| `BootsAttacks.ResolveAttack` | boots_calculator.py:215-273 | one attack order: its strength is the attacking force plus half the fire support. The defence is `u * strength * terrain modifier`. The ratio has its denominator floored at 0.1, and the outcome is the grade of that ratio. Fire support counts as used iff its list is non-empty |
| `BootsAttacks.DefendingStrength` | boots_calculator.py:240-245 | with a draw in [0.5, 1.5] and non-negative strength and modifier, the defence lies between half and one and a half times the strength times the terrain modifier |
| `BootsAttacks.StrengthRatio` | boots_calculator.py:248 | the ratio times the defence is the attack strength once the defence reaches 0.1; below that, the ratio is ten times the attack strength |
| `BootsAttacks.SumForceStrength` | boots_calculator.py:222-235 | the accumulation loop computes `ForceStrength` |
| `BootsAttacks.ProcessRedGroundAttacks` | boots_calculator.py:206-278 | there is one row per attack, in order, and row i is `ResolveAttack` of attack i with draw i |
| `BootsAttacks.ZeroStrengthAttackFails` | boots_calculator.py:237-261 | an attack with no strength has ratio 0, fails, and has casualty ratio 0.4 |
| `BootsAttacks.AttackStrengthNonNegative` | boots_calculator.py:222-248 | with non-negative counts, the attack strength, the defence and the ratio are all non-negative |
| `BootsAttacks.RatioAtScale` | boots_calculator.py:240-248 | once the defence reaches the 0.1 floor, the ratio is `1 / (u * terrain modifier)`, whatever the force |
| `BootsAttacks.SuccessNeedsWeakDefence` | boots_calculator.py:240-251 | above the floor, a Success needs `u * modifier <= 0.5`, so it is impossible on urban, forest or mountain hexes |
| `BootsAttacks.OverwhelmingAttackScenario` | boots_calculator.py:248-252 | a ratio of 10/4 grades as Success with casualty ratio 0.1 |
| `BootsAttacks.CountOutcome` | boots_calculator.py:122 | the number of rows with a given outcome is at most the number of rows |
| `BootsAttacks.OutcomeCountsPartition` | boots_calculator.py:250-261 | the Success, Partial and Failure counts add up to the number of rows |
| `BootsMovements.CanMove` | boots_calculator.py:326-334 | a move is refused iff its two ends are TO 3 and TO 4, in either order; a move within one TO is always allowed |
| `BootsMovements.CanMoveSymmetric` | boots_calculator.py:332 | the rule is symmetric in its two ends |
| `BootsMovements.MovementExamples` | boots_calculator.py:330-334 | 3→4 and 4→3 are refused, and 1→2 is allowed |
| `BootsMovements.ProcessBlueMovements` | boots_calculator.py:280-324 | there is one row per order. The row copies the order's fields, its verdict is the restriction rule on the two TOs, and its reason is `Movement completed` or `Movement restricted` to match. Orders with the same TOs get the same verdict, whatever their unit |
| `Boots.MovementResult` | boots_calculator.py:296-319 | the row copies the order's unit and TO fields. It fails iff its two TOs are 3 and 4 in either order, and its reason is `Movement completed` iff it succeeds |
| `BootsFireSupport.PlanId` | boots_calculator.py:346 | a plan without an id is keyed `unknown` |
| `BootsFireSupport.IsArtillery` | boots_calculator.py:359 | a unit type counts as artillery iff `Arty` occurs in it at some offset, so it has at least four characters |
| `BootsFireSupport.FireEntryStrength` | boots_calculator.py:354-362 | one supporting unit raises `TypeError` iff its type is missing |
| `BootsFireSupport.FireStrength` | boots_calculator.py:352-362 | a plan's fire strength raises iff some unit has no type. With non-negative counts it lies between the plain combat strength and 1.5 times it |
| `BootsFireSupport.FireStrengthWithoutArtillery` | boots_calculator.py:359-362 | with no type containing `Arty`, the fire strength equals the combat strength |
| `BootsFireSupport.FireStrengthAllArtillery` | boots_calculator.py:359-360 | with only `Arty` types, the fire strength is 1.5 times the combat strength |
| `BootsFireSupport.SumFireStrength` | boots_calculator.py:352-362 | the inner loop, stopping at the first untyped unit, computes `FireStrength` |
| `BootsFireSupport.Effectiveness` | boots_calculator.py:365-379 | the effectiveness is never above 95 and is above 90 only against Artillery. It is non-negative for a non-negative strength. From a strength of 9 on it sits at its target type's ceiling: 90, 95, 54 or 72 |
| `BootsFireSupport.EffectivenessMonotone` | boots_calculator.py:365-379 | more fire strength never lowers effectiveness |
| `BootsFireSupport.PlanValue` | boots_calculator.py:346-379 | a plan raises iff its fire strength raises; otherwise its value is the effectiveness of that strength against its target type |
| `BootsFireSupport.AllPlanEffectiveness` | boots_calculator.py:343-384 | the dictionary lists each key once and has at most one key per plan. Its only exception is `TypeError` |
| `BootsFireSupport.AllPlanEffectivenessRaises` | boots_calculator.py:343-362 | the stage raises iff some plan raises |
| `BootsFireSupport.ProcessBlueFireSupport` | boots_calculator.py:336-384 | `_process_blue_fire_support`, with its early exit, computes `AllPlanEffectiveness` |
| `BootsFireSupport.PlanIdsRecorded` | boots_calculator.py:379 | when the stage does not raise, every plan's id is a key |
| `BootsFireSupport.KeysArePlanIds` | boots_calculator.py:379 | every key is some plan's id |
| `BootsFireSupport.LastPlanWins` | boots_calculator.py:379 | a key holds the value of the last plan that carries that id |
| `BootsFireSupport.PlanEffectivenessBounds` | boots_calculator.py:365-379 | every recorded effectiveness is at most 95, and it is non-negative when all counts are |
| `BootsFireSupport.LastWithId` | boots_calculator.py:379 | for every key there is a last plan carrying it |
| `BootsFireSupport.ArtilleryPlanScenario` | boots_calculator.py:352-379 | two Towed_Arty battalions against an Artillery target give strength 2.4 and effectiveness 28.8 |
| `BootsCasualties.CalculateUnitCasualties` | boots_calculator.py:386-420 | the records are the attack records in row order, then one record per plan in key order |
| `BootsCasualties.AttackCasualty` | boots_calculator.py:396-406 | an attack's record is Red's ground-attack record at the target hex. For a non-negative ratio it counts the whole part of ten times the casualty ratio |
| `BootsCasualties.FireCasualty` | boots_calculator.py:409-418 | a plan's record is Red's fire-support record at `Various`. For a non-negative effectiveness it counts non-negatively and at most a tenth of the effectiveness |
| `BootsCasualties.UnitCasualties` | boots_calculator.py:393-420 | there is one record per attack row plus one per plan id. Every record is Red's, and the ground-attack records are exactly the ones before the fire-support records |
| `BootsCasualties.AttackCasualtiesByOutcome` | boots_calculator.py:396-406 | an attack's record counts 1 casualty for Success and 4 for Failure. A Partial result counts 2 at a strength ratio of 1.5 or more and 3 below it. The reason names the outcome |
| `BootsCasualties.FireCasualtiesBounded` | boots_calculator.py:409-410 | an effectiveness in [0, 95] gives between 0 and 9 casualties, one per full ten percent |
| `BootsCasualties.UnitCasualtiesShape` | boots_calculator.py:393-420 | there is one record per attack row and one per plan id. Each plan's record carries its effectiveness, and every record is Red's |
| `BootsTerritory.CountLanded` | boots_calculator.py:120 | the number of successful landing rows is at most the number of rows |
| `BootsTerritory.LandingRecord` | boots_calculator.py:432-438 | a successful landing gives Red control of its hex, at the strength of the battalions landed. The source reads `Airborne Landing` iff the landing was airborne |
| `BootsTerritory.AttackRecord` | boots_calculator.py:441-458 | an attack record is at its target hex. It is Red's iff the attack succeeded, and contested otherwise. For a non-negative attack strength its strength lies between 0 and that strength |
| `BootsTerritory.TerritoryControl` | boots_calculator.py:428-460 | there are never more records than landing and attack rows together. There are none iff no landing succeeded and no attack succeeded or partially succeeded |
| `BootsTerritory.LandingControl` | boots_calculator.py:430-438 | the landing records, one per successful landing |
| `BootsTerritory.AttackControl` | boots_calculator.py:440-458 | the attack records for one outcome, one per attack with that outcome |
| `BootsTerritory.TerritoryControlAsWritten` | boots_calculator.py:431-441 | as written: no landing rows raise `KeyError('Success')`; otherwise no attack rows raise `KeyError('Outcome')`; otherwise the records |
| `BootsTerritory.UpdateTerritoryControl` | boots_calculator.py:422-460 | the three loops compute `TerritoryControl`: the landings, then the Success attacks, then the Partial attacks |
| `BootsTerritory.AttackRecords` | boots_calculator.py:440-458 | one attack loop of the stage computes `AttackControl`, the records of the attacks with the selected outcome |
| `BootsTerritory.LandingControlMembers` | boots_calculator.py:431-438 | a record comes from a landing iff that landing succeeded |
| `BootsTerritory.AttackControlMembers` | boots_calculator.py:441-458 | a record comes from an attack iff that attack had the selected outcome |
| `BootsTerritory.TerritoryControlSources` | boots_calculator.py:428-460 | every record is one of three kinds: Red at the landed battalions of a successful landing; Red at the full strength of a Success attack; or Contested at half the strength of a Partial attack. Contested appears iff the source is a partial attack, and failures leave nothing |
| `BootsTerritory.TerritoryControlCount` | boots_calculator.py:428-460 | the record count is the number of successful landings plus Success attacks plus Partial attacks, so it is at most the number of rows |
| `BootsTerritory.EmptyLandingsRaise` | boots_calculator.py:431 | as written, no landing rows raise `KeyError`, whereas the intended selection is empty |
| `Boots.CalculateBootsOperations` | boots_calculator.py:60-139 | the six stages in order, with the summary, compute `Resolve` |
| `Boots.Resolve` | boots_calculator.py:60-139 | the turn raises only the empty-range `ValueError` or the membership `TypeError`. Otherwise there is one landing row per landing order, one attack row per attack order and one movement row per movement order. The attempted counts are those, the dictionary is well formed, and there are no warnings |
| `Boots.ResolveAsWritten` | boots_calculator.py:60-139 | when the code as written does not raise, its result is the corrected turn's. When only the code as written raises, it is `KeyError` on the `Success` or `Outcome` column |
| `Boots.AttackStage` | boots_calculator.py:90-94 | step 2 yields exactly the per-order attack resolutions |
| `Boots.MovementStage` | boots_calculator.py:96-100 | step 3 yields exactly the per-order movement rows |
| `Boots.Summarise` | boots_calculator.py:108-139 | steps 5 and 6 and the summary counts build the result bundle: the casualty records, the territory records, the attempted counts, the successful landings and Success attacks, and no warnings |
| `Boots.ResolveOk` | boots_calculator.py:83-139 | when neither raising stage raises, the result is the bundle of all stages |
| `Boots.AttackResultsPointwise` | boots_calculator.py:89-92 | the attack rows are exactly the per-order resolutions |
| `Boots.MovementResultsPointwise` | boots_calculator.py:95-98 | the movement rows are exactly the per-order rows |
| `Boots.ResolveRaises` | boots_calculator.py:83-104 | the turn raises iff a landing draw range is empty or a fire-support unit has no type, and only with those two exceptions |
| `Boots.SummaryCounts` | boots_calculator.py:119-122 | every attempted landing and attack has a row, and the successes are among them. The successful landings are the rows marked successful, and the successful attacks are the rows with outcome Success. The casualty count is the attack count plus the plan count, and the warnings are empty |
| `Boots.NoOperations` | boots_calculator.py:60-139 | zero orders of every kind give empty results and zero counts |
| `Boots.NoOperationsAsWritten` | boots_calculator.py:431 | as written, zero orders raise `KeyError('Success')` |
| `Boots.AsWrittenAgreement` | boots_calculator.py:431-441 | with at least one landing and one attack, the code as written and the corrected code agree. With no landing orders, a turn that does not raise becomes `KeyError` as written |
| `Slug.CollapseFrom` | tools/index_svg_symbols.js:24 | replacing each run of non-alphanumerics gives only `[a-z0-9_]` and never two `_` in a row |
| `Slug.TrimStart` | tools/index_svg_symbols.js:25 | a suffix of the input that does not start with `_` |
| `Slug.TrimEnd` | tools/index_svg_symbols.js:25 | a prefix of the input that does not end with `_` |
| `Slug.Take` | tools/index_svg_symbols.js:26 | a prefix of at most n characters, and the whole input when it is short enough |
| `Slug.Slugify` | tools/index_svg_symbols.js:21-27 | the slug has only `[a-z0-9_]`, is at most 80 long, has no `__`, and never starts with `_`. It ends with `_` only when the 80-character cut removed something |
| `Slug.AlnumsCollapse` | tools/index_svg_symbols.js:24 | collapsing keeps every letter and digit, in order |
| `Slug.AlnumsTrimmed` | tools/index_svg_symbols.js:22-25 | lowering, collapsing and trimming keeps the lowered label's letters and digits |
| `Slug.SlugContent` | tools/index_svg_symbols.js:22-26 | deleting the `_` from the slug gives a prefix of the lowered label's letters and digits, and all of them when nothing was cut |
| `Slug.EmptySlug` | tools/index_svg_symbols.js:21-27 | the slug is empty iff the label has no ASCII letter or digit |
| `Slug.SlugifyFixesSlugs` | tools/index_svg_symbols.js:21-27 | a string that is already slug-shaped is its own slug |
| `Slug.SlugifyIdempotent` | tools/index_svg_symbols.js:21-27 | the slug of a slug without a trailing `_` is that slug |
| `Slug.TruncatedSlugNotIdempotent` | tools/index_svg_symbols.js:25-26 | 79 letters, a space and a letter slugify to a slug ending in `_`, which a second pass shortens |
| `Slug.LabelOr` | tools/index_svg_symbols.js:107 | a missing or empty label becomes `unlabeled`; any other label is kept |
| `Slug.UnlabeledSlug` | tools/index_svg_symbols.js:107-108 | the slug of an unlabeled panel is `unlabeled` |
| `Slug.NatToDecimal` | tools/index_svg_symbols.js:125 | the decimal numeral of the panel index is non-empty and made of digits |
| `Slug.NatToDecimalInjective` | tools/index_svg_symbols.js:125 | distinct indices have distinct numerals |
| `Slug.PreviewStem` | tools/index_svg_symbols.js:125 | the preview file stem is never empty and is the slug whenever the slug is non-empty |
| `Slug.PreviewStemsDistinct` | tools/index_svg_symbols.js:125 | panels with empty slugs at different indices get different preview files |
| `Common.Trunc` | boots_calculator.py:404-410 | Python's `int()` on a real truncates toward zero |
| `Common.Lower` | tools/search_symbols.js:15-25 | lowercasing keeps the length and maps every character through ASCII case folding |
| `Common.LowerIdempotent` | tools/search_symbols.js:25 | lowercasing twice is lowercasing once |
| `Common.SameUpToCaseLower` | tools/search_symbols.js:15-25 | strings that differ only in letter case have the same lowercase form |
| `Common.Contains` | tools/search_symbols.js:26 | `includes` finds nothing longer than the string |
| `Common.ContainsIff` | tools/search_symbols.js:26 | `includes` holds iff the term occurs at some offset |
| `Common.ContainsInEmpty` | tools/search_symbols.js:25-26 | only the empty term occurs in the empty label |
| `OrderedMaps.Put` | boots_calculator.py:379 | dictionary assignment keeps every key listed once. A new key is appended to the order; an existing key keeps its place and takes the new value |
| `OrderedMaps.ValidSize` | boots_calculator.py:379 | the dictionary has as many entries as its order lists keys |
| `SymbolSearch.Terms` | tools/search_symbols.js:15 | there is one lowercased term per argument |
| `SymbolSearch.LabelKey` | tools/search_symbols.js:25 | a missing label is searched as the empty string |
| `SymbolSearch.Matches` | tools/search_symbols.js:26 | a symbol matches iff every term occurs in its lowercased label, so no term is longer than the label |
| `SymbolSearch.Filter` | tools/search_symbols.js:24-27 | there are never more matches than symbols |
| `SymbolSearch.Search` | tools/search_symbols.js:15-27 | with no term the tool exits with its usage line; otherwise the result is the filtered index |
| `SymbolSearch.FilterMembers` | tools/search_symbols.js:24-27 | a symbol matches iff it is in the index and every term occurs in its lowercased label |
| `SymbolSearch.SearchMembers` | tools/search_symbols.js:15-27 | a symbol is found iff every argument, lowercased, occurs in its lowercased label |
| `SymbolSearch.FilterConcat` | tools/search_symbols.js:24 | filtering distributes over concatenation of the index |
| `SymbolSearch.FilterSubsequence` | tools/search_symbols.js:24 | the matches sit at strictly increasing positions of the index |
| `SymbolSearch.FilterNoTerms` | tools/search_symbols.js:26 | with no term, every symbol matches |
| `SymbolSearch.FilterMoreTerms` | tools/search_symbols.js:26 | searching for `t1 + t2` is searching the matches of `t1` for `t2` |
| `SymbolSearch.AddingTermsNarrows` | tools/search_symbols.js:26 | adding a term never adds a match |
| `SymbolSearch.SearchIgnoresTermCase` | tools/search_symbols.js:15 | arguments that differ only in letter case give the same result |
| `SymbolSearch.MatchIgnoresLabelCase` | tools/search_symbols.js:25 | labels that differ only in letter case match the same terms |
| `SymbolSearch.UnlabeledMatchesOnlyEmptyTerms` | tools/search_symbols.js:25 | a symbol without a label matches iff every term is empty |

## Findings

| source | as written | input that shows it | evidently intended | confidence | as-written member | corrected member |
|---|---|---|---|---|---|---|
| boots_calculator.py:431 | `landing_results[landing_results['Success'] == True]` indexes a column that a frame built from an empty list does not have; the same holds for `attack_results['Outcome']` at 441 and for the summary at 120 and 122 | a turn with no landing orders (or no attack orders), for example no orders at all: it raises `KeyError('Success')` | an empty order list gives empty results and zero counts, as every other stage does | high; not executed | `Boots.NoOperationsAsWritten` | `Boots.NoOperations` |

For the finding:

- `BootsTerritory.TerritoryControlAsWritten` and `Boots.ResolveAsWritten` model the code as written.
- `BootsTerritory.UpdateTerritoryControl` and `Boots.Resolve` are the corrected definitions, in which an empty
  table selects nothing. The rest of the model uses them.
- `Boots.AsWrittenAgreement` shows that the two coincide whenever there is at least one landing and one attack.

## Notes on the source

- A comment at boots_calculator.py:159-160 calls airborne drops better in difficult terrain. The code does
  the opposite: it divides 0.8 by the modifier. The model follows the code
  (`BootsLandings.AirborneRougherTerrainIsHarder`). This is not claimed as a finding, because the intent is
  not clear.
- The defence draw scales the attack strength, so above the 0.1 floor the outcome does not depend on the
  force at all (`BootsAttacks.RatioAtScale`).

## Left out

- pandas: DataFrames are sequences of row datatypes. Row order is the `append` order, and the column-less
  frame of an empty list is modelled only where it raises.
- numpy's random generator: draws are parameters with the ranges numpy guarantees. The draw order is one
  `random()` per landing, one `randint` after a failed landing, and one `uniform` per attack.
- Logging and the `warnings` list: the list is populated nowhere, so it is the empty list.
- Floating point: all arithmetic is on exact reals, so `int(10 * 0.3)` is exactly 3 here.
- Integer counts are unbounded, as Python's are.
- The inputs `landed_bns`, `green_maneuver`, `red_units`, `green_units` and `movement_results` are passed in by
  the source but never read, so they are not parameters.
- The `BOOTSResults` dataclass is the datatype `Boots.BootsResults`.
- `export_boots_data_for_external_program` and the rest of the repository are not part of this model,
  including `capture-screenshot.js`: file export and browser automation are I/O.
- In `tools/index_svg_symbols.js`, everything except `slugify` and the two fallbacks is not part of this
  model: SVG parsing, label extraction from `<switch>`/`<text>`, bounding boxes, writing previews and the
  index.
- In `tools/search_symbols.js`, reading and parsing the index file, the missing-file exit and printing are
  not part of this model.
- Slug.Slugify: `toLowerCase` is modelled as ASCII case folding, because Unicode case mapping is not
  available. A non-ASCII letter counts as a non-alphanumeric, as it does in the source once lowered. The
  only difference is which non-ASCII characters lowercase to ASCII ones, such as the Kelvin sign.
- Slug.Take: `substring(0, 80)` counts UTF-16 code units. After the replacement every character is ASCII,
  so code units and characters agree.
- SymbolSearch.Matches: labels are compared after ASCII lowercasing only, for the same reason.
- Explicit JSON nulls are not represented. The model has one `None` for a missing key and falls back to the
  default there. In `boots_calculator.py` an explicit null skips the default: `bn_type` null gives a `BN_Type` of None
  (lines 153 and 181); `plan_id` null gives a None key and the reason `Fire support plan None` (lines 346 and
  417); a null `count` makes the strength product raise `TypeError` (lines 227 and 355).
- Fire-support unit types are strings or missing. A type of any other JSON kind would also make `'Arty' in …`
  raise; such a type is not representable in the model.
