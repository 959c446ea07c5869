# Diet-plan engine and food explorer in Dafny

This project models the core of a diet-plan web service and proves properties of that model. The service has three parts:

- **The meal-plan engine** (`app/recommender.py`). It cleans the food catalog and normalises its meal categories. It computes a user's daily needs with the Mifflin-St Jeor equation, an activity factor and an optional 500 kcal deficit. It ranks foods by a nutrition score, blended with a glycemic score for diabetes. It cuts per-meal candidate pools of the top 200 rows, assembles 30 days of four meals by random draws, and totals each day.
- **The `POST /plan` route** (`app/main.py`). It normalises the goal and computes the needs. It compares the stored profile with the submitted one on six core fields. It then either answers from the cached plan document or generates a new plan.
- **The food explorer** (`app/food_search_local.py`). This is the `GET /ayur/search` route. It scores every database entry against the normalised query: a substring score in [0.8, 0.99], or else word-set Jaccard overlap. It filters on two flags. When the fuzzy pass finds nothing, it falls back to a containment test at 0.4. It orders the hits by score, then by shorter name, and truncates them to the limit.

Modules:

- `wrappers.dfy` defines `Option` and `Result`.
- `py_text.dfy` models, on ASCII text, the Python string operations the code uses: `strip`, `lower`, `title`, `replace`, `split` and substring `in`.
- `sorting.dfy` holds a generic insertion sort, with its sortedness, permutation and mapping lemmas.
- `recommender.dfy` is the plan engine.
- `plan_service.dfy` is the `/plan` route.
- `food_search.dfy` is the explorer.

How the model represents the Python:

- **Floats.** Floating-point values are `real`.
- **Rounding.** Python's `round` is round-half-to-even, and `round(x, 1)` rounds ten times `x` that way.
- **Missing values.** A NaN or missing cell is `None`.
- **Random choice.** The source's `pool.sample(n=1)` becomes an oracle `draw: nat -> nat`. Draw number `k` picks entry `draw(k) mod |pool|`.
- **The document store.** Reads become parameters of the route.

Loops stay loops in the model:

- the per-row deviation loop;
- the pool builder;
- the day and plan assembly;
- the profile comparison;
- the two search passes.

Each such loop is proved equal to a function that specifies it.

For a 30-year-old sedentary man of 70 kg and 175 cm who wants to lose weight, the formula gives a BMR of 1648.75 kcal. Multiplied by 1.2 and less the 500 kcal deficit, that is 1478.5 kcal, which rounds half-to-even to 1478. The needs are then 1478 kcal, 56 g protein, 185 g carbs and 41 g fat, as `Recommender.NeedsExample` proves.

## Model

| member | source | states |
|---|---|---|
| PyText.Lower | app/main.py:176 | `lower()` keeps the length and lower-cases each ASCII capital, leaving every other character |
| PyText.LowerIdempotent | app/main.py:176 | lower-casing twice is lower-casing once |
| PyText.ReplaceChar | app/main.py:176 | `replace("-", "_")` keeps the length and swaps exactly the hyphens |
| PyText.Strip | app/recommender.py:17 | `strip()` leaves no white space at either end and never lengthens the string |
| PyText.TrimLeftRemovesLeadingSpace | app/recommender.py:17 | the left strip is a suffix of the input, and everything it drops is white space |
| PyText.TrimRightRemovesTrailingSpace | app/recommender.py:17 | the right strip is a prefix of the input, and everything it drops is white space |
| PyText.StripBlank | app/main.py:231-232 | a string made only of white space strips to "" |
| PyText.Title | app/recommender.py:17 | `title()` keeps the length, and which characters are letters and which are white space; `PyText.TitleCasesWordStarts` states which letters change case |
| PyText.TitleCasesWordStarts | app/recommender.py:17 | a letter is upper-cased exactly when it is the first character or the character just before it is not a letter, and lower-cased otherwise; each letter stays the same letter up to case, and every other character is unchanged |
| PyText.TitleIdempotent | app/recommender.py:17 | title-casing a title-cased string changes nothing |
| PyText.StrippedTitleIsStable | app/recommender.py:17 | `strip().title()` gives a string that is its own strip and its own title |
| PyText.Contains | app/food_search_local.py:35 | `q in c` holds exactly when `q` occurs at some index of `c`; the empty string is in every string |
| PyText.Split | app/food_search_local.py:39-40 | `split()` yields no more words than characters; `PyText.SplitWordsAreWords`, `PyText.SplitAtSpace` and `PyText.SplitSingleWord` state which words |
| PyText.SplitWordsAreWords | app/food_search_local.py:39-40 | every word of `split()` is non-empty and free of white space |
| PyText.SplitSingleWord | app/food_search_local.py:39-40 | a non-empty string without white space splits into itself alone |
| PyText.SplitAtSpace | app/food_search_local.py:39-40 | white space separates words: the words of `a`, a space and `b` are the words of `a` followed by those of `b`; with `Split("") == []` and `SplitSingleWord` this fixes `split()` on every string |
| Sorting.InsertionSortSorted | app/recommender.py:92 | the sort returns an ordered permutation of its input under any total, transitive order |
| Recommender.NormalizeCategory | app/recommender.py:14-27 | a missing category stays missing and a present one stays present |
| Recommender.NormalizedCategoryIsNormal | app/recommender.py:14-27 | every normalised category is stripped, title-cased, and never "Snacks" or "Beverages" |
| Recommender.NormalizeCategoryIdempotent | app/recommender.py:14-27 | normalising a normalised category changes nothing |
| Recommender.NormalizeSnacksExample | app/recommender.py:17-23 | "  snacks " becomes "Snack" |
| Recommender.NormalizeBeveragesExample | app/recommender.py:17-25 | "BEVERAGES" becomes "Beverage" |
| Recommender.NormalizeUnknownExample | app/recommender.py:27 | an unmapped category such as "high tea" passes through title-cased, as "High Tea" |
| Recommender.PrepareRows | app/recommender.py:35 | the kept rows are no more than the input, and each is an input row with all four nutrition values and its normalised category |
| Recommender.PrepareRowsKeeps | app/recommender.py:35 | a row is kept exactly when its four nutrition values are present; the glycemic index plays no part |
| Recommender.PrepareRowsCounts | app/recommender.py:35 | a complete row is kept as many times as it occurs in the catalog, and no other food is kept |
| Recommender.PrepareDataset | app/recommender.py:11-36 | the usable table keeps the optional columns, and every row has all four nutrition values |
| Recommender.RoundHalfEven | app/recommender.py:60-63 | `round` is within 0.5 of its argument, and an exact tie goes to the even integer |
| Recommender.Round1 | app/recommender.py:122-125 | `round(x, 1)` is within 0.05 of `x` |
| Recommender.Bmr | app/recommender.py:42-45 | the Mifflin-St Jeor rate, whose male form applies to "male" in any letter case; its properties are stated by `MaleBmrExceedsOther`, `NeedsIgnoreCase` and `NeedsExample` |
| Recommender.MaleBmrExceedsOther | app/recommender.py:42-45 | for the same body, the male BMR exceeds every other by exactly 166 kcal |
| Recommender.ActivityFactor | app/recommender.py:47-50 | the factor lies in [1.2, 1.9], and a level outside the four named ones (any letter case) gets 1.2 |
| Recommender.DailyCalories | app/recommender.py:50-53 | BMR times the activity factor, less 500 for "weight_loss"; stated by `WeightLossDeficit` |
| Recommender.WeightLossDeficit | app/recommender.py:52-53 | "weight_loss" takes exactly 500 kcal off BMR × factor, and any other goal takes nothing |
| Recommender.CalculateNutrition | app/recommender.py:41-64 | calories are never below 1200, are exactly 1200 iff the raw total is at most 1200.5, and are otherwise within 0.5 of it; protein, carbs and fat are within 0.5 of 0.8 × weight, total/8 and total/36 |
| Recommender.ProteinDependsOnWeightOnly | app/recommender.py:55 | protein depends on the weight alone |
| Recommender.NeedsIgnoreCase | app/recommender.py:41-50 | gender and activity level are compared without regard to letter case |
| Recommender.NeedsExample | app/recommender.py:41-64 | 30 years, 70 kg, 175 cm, male, sedentary, weight loss gives 1478 kcal, 56 g, 185 g, 41 g |
| Recommender.FlooredNeedsExample | app/recommender.py:56-60 | when the 1200 kcal floor applies, carbs and fat still follow the unfloored total |
| Recommender.Deviation | app/recommender.py:75 | the relative deviation from a quarter of the target is non-negative, and zero exactly on target |
| Recommender.NutritionScore | app/recommender.py:71-76 | one minus the mean deviation over the qualifying columns, or 0 when none qualifies; computed by `ComputeNutritionScore` and bounded by `NutritionScoreAtMostOne`, `NutritionScoreIsOne` and `NutritionScoreUnclamped` |
| Recommender.ComputeNutritionScore | app/recommender.py:71-76 | the per-row loop over the four columns computes the nutrition score |
| Recommender.NutritionScoreAtMostOne | app/recommender.py:76 | the nutrition score never exceeds 1 |
| Recommender.NutritionScoreIsOne | app/recommender.py:71-76 | the score is 1 iff some column qualifies and every qualifying value is exactly a quarter of its target |
| Recommender.NutritionScoreUnclamped | app/recommender.py:76 | the score is not clamped below: a food at three quarters of every target scores -1 |
| Recommender.MaxGlycemic | app/recommender.py:84-85 | `gi.max()` is None iff no row has a GI; otherwise it bounds every GI and is one of them |
| Recommender.GlycemicScore | app/recommender.py:85 | GI_Score lies in [0, 1] when defined, and is undefined when the GI or the maximum is missing |
| Recommender.GlycemicScoreMonotone | app/recommender.py:85 | with a positive maximum, a lower GI never scores lower, and the maximum scores 0 |
| Recommender.ScoreFood | app/recommender.py:78-90 | the scored row keeps its food and that food's nutrition score; `RankOtherCondition` and `DiabetesScoreFood` state its Score under each condition |
| Recommender.Annotated | app/recommender.py:81-82 | the diabetes filter keeps exactly the rows with a benefits annotation |
| Recommender.AnnotatedCounts | app/recommender.py:81-82 | an annotated row is kept as many times as it occurs, and every other row is dropped |
| Recommender.Rank | app/recommender.py:69-92 | the ranking is in descending Score order (NaN last) and is a permutation of the scored rows |
| Recommender.RankPermutesRows | app/recommender.py:80-92 | the ranked foods are a permutation of the rows that enter the ranking |
| Recommender.RankedEntry | app/recommender.py:69-92 | every ranked entry is a row that enters the ranking, scored by that row's own rule |
| Recommender.RankOtherCondition | app/recommender.py:89-90 | outside "diabetes" no row is dropped, and Score equals NutritionScore |
| Recommender.RankDiabetes | app/recommender.py:80-88 | under "diabetes", ranked rows are annotated (when the column exists), GI_Score lies in [0, 1] (0.5 without a GI column), and Score is 0.7 × nutrition + 0.3 × GI_Score |
| Recommender.DiabetesScoreFood | app/recommender.py:83-88 | one row's diabetes score: GI_Score in range, 0.5 without the column, then the 0.7/0.3 blend |
| Recommender.InCategory | app/recommender.py:99 | the meal's rows are exactly the ranked rows of that category |
| Recommender.InCategorySorted | app/recommender.py:99 | filtering a ranking by category keeps it in descending order |
| Recommender.InCategoryAppend | app/recommender.py:99 | the category filter distributes over concatenation, so the meal's rows keep their ranked order |
| Recommender.InCategoryCounts | app/recommender.py:99 | each ranked row of the meal is kept as many times as it occurs, and no other row is kept |
| Recommender.Pool | app/recommender.py:99-102 | the first top_k rows of the meal's own rows, or of the whole ranking when the meal has none; stated by `PoolShape` and `PoolIsTopK` |
| Recommender.PoolShape | app/recommender.py:96-103 | a pool holds at most top_k rows from the ranking and is empty only when the ranking is (or top_k is 0); when the meal has rows it is their first min(top_k, count), all of that meal, and otherwise the first min(top_k, count) rows of the whole ranking |
| Recommender.PoolIsTopK | app/recommender.py:102 | a pool is in descending order and outranks every row of its source that it leaves out |
| Recommender.BuildCandidatePools | app/recommender.py:96-103 | the loop builds exactly the four meals' pools |
| Recommender.Serve | app/recommender.py:119-126 | a meal row names the meal and the food, and each of its four values is within 0.05 of the food's |
| Recommender.Draw | app/recommender.py:116-126 | a draw yields the served row of one entry of the meal's pool: the meal's name, that food's name and that food's four values rounded as `Serve` states |
| Recommender.DrawReachesEvery | app/recommender.py:116-117 | every entry of a non-empty pool is the draw of some oracle value, so no pool entry is out of reach of `sample(n=1)` |
| Recommender.AssembleOneDay | app/recommender.py:108-128 | a day succeeds iff every meal's pool is non-empty, fails on the first empty pool, and otherwise holds draw `first + i` of meal i's pool |
| Recommender.DayFailsOnBreakfast | app/recommender.py:115-117 | with the pools of one ranking, a day fails exactly when the ranking is empty, and then on Breakfast |
| Recommender.FollowsPoolsExtend | app/recommender.py:135-138 | appending an assembled day, tagged with its day number, keeps the plan following the pools |
| Recommender.AssembleDays | app/recommender.py:134-140 | the day loop yields 120 rows where row k is day k/4+1 and a draw from meal k mod 4's pool, or fails on Breakfast exactly when nothing is ranked |
| Recommender.DaySumOfDay | app/recommender.py:141-143 | in a plan laid out four rows a day, a day's total is the sum of its own four rows |
| Recommender.DailyTotals | app/recommender.py:141-143 | one total per day, days 1 to 30 in order; `DaySumOfDay` and `PlanTotals` state each is its day's sum |
| Recommender.PlanTotals | app/recommender.py:141-143 | the daily totals are, day by day, the sums of that day's four meals |
| Recommender.Generate30DayPlan | app/recommender.py:130-145 | the plan has 120 rows following the pools of the ranking, and 30 totals each summing its own day; it fails with an empty Breakfast pool exactly when nothing is ranked |
| PlanService.NormalizeGoal | app/main.py:175-179 | the condition is "weight_loss" or "diabetes", and a missing or empty goal gives "diabetes" |
| PlanService.GoalKey | app/main.py:176 | the lower-cased goal with hyphens turned into underscores, "" for a missing goal; stated by `NormalizeGoalIgnoresCase`, `NormalizeGoalIgnoresHyphen` and `WeightLossSpellings` |
| PlanService.NormalizeGoalIdempotent | app/main.py:175-179 | normalising a normalised goal changes nothing |
| PlanService.NormalizeGoalIgnoresCase | app/main.py:176 | letter case does not matter |
| PlanService.NormalizeGoalIgnoresHyphen | app/main.py:176 | a hyphen and an underscore are interchangeable |
| PlanService.WeightLossSpellings | app/main.py:175-178 | "Weight-Loss", "weightloss" and "WEIGHT_LOSS" all mean weight loss |
| PlanService.ComputeNeeds | app/main.py:210-217 | the request's needs from its normalised goal; `NeedsFollowCondition` states that only weight loss takes the deficit |
| PlanService.NeedsFollowCondition | app/main.py:210-217 | a weight-loss request gets the 500 kcal deficit; any other request, diabetes included, is computed for maintenance |
| PlanService.SameOnEvery | app/main.py:227-235 | the profiles agree iff every core key's stripped `str()` values are equal |
| PlanService.ProfileFields | app/main.py:206 | the submitted profile's map holds every core key, and carries the user id, gender, activity level and goal as given |
| PlanService.CompareProfiles | app/main.py:227-235 | the loop reports "same" iff every key agrees, and otherwise stops at the first key that disagrees |
| PlanService.UserIdIgnored | app/main.py:227 | the user id is not compared: changing it on either side changes nothing |
| PlanService.MissingMatchesBlank | app/main.py:231-232 | a key missing from the stored profile matches a blank submitted value |
| PlanService.CachedResponse | app/main.py:240-248 | a cached plan stored as null is a server error; otherwise the answer is the stored plan (or []) with the stored needs (or the fresh ones) |
| PlanService.StoredNeedsWin | app/main.py:244-245 | with stored needs present, the freshly computed needs play no part |
| PlanService.EmptyDocFallback | app/main.py:240-245 | an empty plan document answers with the fresh needs and an empty plan |
| PlanService.GeneratePlan | app/main.py:202-253 | on a cache hit the answer is the cached response; otherwise it succeeds iff anything is ranked for the normalised goal, with the fresh needs and a 120-row plan following the pools, and fails as a server error on an empty Breakfast pool |
| FoodSearch.Norm | app/food_search_local.py:14-15 | a normalised name is no longer than the input, has no white space at either end and no capital letter |
| FoodSearch.NormIdempotent | app/food_search_local.py:14-17 | a normalised name is its own normal form |
| FoodSearch.SubstringScore | app/food_search_local.py:35-37 | the containment score lies in [0.8, 0.99] and is 0.99 exactly when the lengths are equal |
| FoodSearch.Jaccard | app/food_search_local.py:39-45 | the overlap of the word sets lies in [0, 1]; `FoodSearch.JaccardExtremes` states when it is 0 or 1 |
| FoodSearch.JaccardExtremes | app/food_search_local.py:39-45 | the overlap is 1 iff the word sets are equal and non-empty, and 0 iff no word is shared |
| FoodSearch.SharedAtMostAll | app/food_search_local.py:43-45 | the shared words never outnumber all words, and equal them only when both sets agree |
| FoodSearch.Score | app/food_search_local.py:31-45 | `_score` lies in [0, 1]; it is 0 with an empty side, in [0.8, 0.99] on containment, and the Jaccard overlap otherwise |
| FoodSearch.ExactMatchScore | app/food_search_local.py:35-37 | an exact match scores 0.99 |
| FoodSearch.ShorterContainerScoresHigher | app/food_search_local.py:37 | among names containing the query, the shorter never scores lower |
| FoodSearch.ReorderedWordsOutrankExactMatch | app/food_search_local.py:31-45 | the query's words reordered, not occurring as a substring, score 1, above the 0.99 of an exact match |
| FoodSearch.ScoredHits | app/food_search_local.py:74-87 | every hit a scoring pass keeps has a positive score and passes both filters; `FoodSearch.FuzzyHitsStep` states the database order for the fuzzy pass |
| FoodSearch.ScoredHitsSound | app/food_search_local.py:74-87 | every hit of a scoring pass is one of the scanned entries, with that entry's name, properties and own score |
| FoodSearch.ScoredHitsComplete | app/food_search_local.py:74-87 | every scanned entry with a positive score that passes both filters is a hit of the scoring pass |
| FoodSearch.FuzzyHits | app/food_search_local.py:74-87 | every fuzzy hit has a positive score and passes both filters; the pass is the scoring pass under `_score` against the normalised query |
| FoodSearch.FuzzyHitsScored | app/food_search_local.py:74-87 | every fuzzy hit is a database entry with that entry's own `_score` against the query |
| FoodSearch.FuzzyHitsComplete | app/food_search_local.py:74-87 | every entry that scores above 0 and passes both filters is a fuzzy hit, with its own score |
| FoodSearch.FuzzyHitsStep | app/food_search_local.py:74-87 | scanning one more entry appends its hit at the end when it scores and passes, and changes nothing otherwise, so hits come in database order |
| FoodSearch.FallbackHits | app/food_search_local.py:90-102 | every fallback hit scores 0.4, passes both filters, and carries a database entry's name and properties; `FoodSearch.FallbackHitsSound` states that its entry contains the query |
| FoodSearch.FallbackHitsSound | app/food_search_local.py:90-102 | every fallback hit is a scanned entry whose normalised name contains the query and that passes both filters, with that entry's name and properties and score 0.4 |
| FoodSearch.FallbackHitsComplete | app/food_search_local.py:90-102 | every entry whose normalised name contains the query and that passes both filters is a fallback hit at 0.4 |
| FoodSearch.Hits | app/food_search_local.py:74-102 | the fuzzy hits, or the fallback hits when there are none; stated by `HitsAreValid`, `HitsOfNonBlankQuery` and `BlankQueryListsAll` |
| FoodSearch.HitsAreValid | app/food_search_local.py:74-102 | every hit of a search has a positive score, passes both filters and comes from the database |
| FoodSearch.FallbackNeedsBlankQuery | app/food_search_local.py:89-102 | with a non-empty query the fallback finds nothing, since a containing name already scores at least 0.8 |
| FoodSearch.FallbackHitsNone | app/food_search_local.py:90-102 | the fallback finds nothing when no entry's name contains the query while passing both filters |
| FoodSearch.ContainedScoresHigh | app/food_search_local.py:35-37 | a name that contains a non-empty query scores at least 0.8 |
| FoodSearch.HitsOfNonBlankQuery | app/food_search_local.py:90 | so with a non-empty query the hits are exactly those of the fuzzy pass |
| FoodSearch.BlankQueryScoresNothing | app/food_search_local.py:33-34 | a blank query gives no fuzzy hit |
| FoodSearch.BlankQueryListsAll | app/food_search_local.py:90-102 | a blank query returns every entry passing the filters at 0.4 |
| FoodSearch.HitBeforeIsOrder | app/food_search_local.py:105 | score descending, then shorter name, is a total and transitive order |
| FoodSearch.RankedHits | app/food_search_local.py:105 | the hits in response order are sorted by that key and are a permutation of the hits |
| FoodSearch.RankedHitsPass | app/food_search_local.py:105-108 | every head of the ranking, stripped of scores, passes both filters |
| FoodSearch.FuzzyPass | app/food_search_local.py:74-87 | the first loop computes exactly the fuzzy hits, in database order |
| FoodSearch.FallbackPass | app/food_search_local.py:90-102 | the fallback loop computes exactly the fallback hits, in database order |
| FoodSearch.SearchAyurFoods | app/food_search_local.py:47-110 | the response echoes the query; its count is min(hits, limit); result i is ranked hit i without its score; every result passes both filters |

## Left out

- Reading the CSV and the JSON database, and pandas' column coercion. A catalog row arrives with its numeric cells already numbers or `None`. A table says whether the GI and benefits columns exist.
- The construction of the `_DB` index. A database entry arrives with its normalised name. `_norm` (`FoodSearch.Norm`) is modelled as strip-then-lower on ASCII. Unicode NFKD decomposition and the removal of combining marks are not modelled.
- All string operations are modelled on ASCII only. Unicode white space and case mappings are out of scope.
- The document store (Firestore), the FastAPI routing and validation, logging, and HTTP exceptions:
  - Reads of the profile and plan documents are parameters of `PlanService.GeneratePlan`.
  - `regenerate_plan`'s writes of the plan and the profile, with their server timestamp, are left out. They do not change the answer.
  - Exceptions appear only where the route's answer depends on them: a null cached plan, and an empty pool. Both give HTTP 500.
- The random number generator and its seed. The draws are an oracle.
- The unused `meal_split`, `target_cals` and `tolerance` of `assemble_one_day`. They do not affect the result.
- IEEE floating point. Real arithmetic stands in for it, so rounding errors of binary floats are not modelled.
- `Recommender.Round1`: the contract states only the 0.05 bound. Python rounds the binary value nearest to a decimal, which the model does not reproduce.
- `PlanService.ProfileFields`: how Python prints an int or a float with `str()` is a parameter. Stored profile values arrive as their `str()` forms.
- `Recommender.Rank`: pandas' `sort_values` is not stable, so only the descending order and the permutation are stated. Where tied rows end up is not stated.
- `Recommender.Pool`: a pool is cut from the model's ranking, which keeps rows of equal Score in catalog order. When several rows of one meal tie on Score at the top_k boundary, pandas' unstable sort may put a different one of them in the pool than the model does.
- `Recommender.Generate30DayPlan`: its rows follow the pools of the model's ranking, so they inherit the `Recommender.Pool` caveat on Score ties at the top_k boundary. With no such tie, every sorted order gives pools with the same entries. Only the order among tied entries differs, and the draw can reach every entry of a pool (`Recommender.DrawReachesEvery`).
- `FoodSearch.RankedHits`: Python's `list.sort` is stable, but only the order and the permutation are stated. Where tied hits end up is not stated.
- `Recommender.Generate30DayPlan` requires every row to have its four nutrition values. `PrepareDataset` guarantees this, and it is the only producer of the table the route passes in. On an unprepared table the source would carry NaN values into the plan.
- `Recommender.MaxGlycemic` ignores missing GI values, like pandas' `max`. A table whose GI column exists but is entirely empty gives no maximum, so every GI_Score is NaN.
