# Fitness multi-agent core, in Dafny

A model of the deterministic logic of five agents in a fitness coaching app.
Around each agent sit file I/O and language-model calls.

- **Feedback interpreter** (`FeedbackAgent`):
  - `process_feedback` lower-cases the user's text and runs an ordered chain of substring tests: workout intensity, then diet sub-rules, then general feedback.
  - The result is an action tag, two adjustment flags, a profile patch and meal preferences.
  - The entry is appended to the user's feedback history.
  - `get_common_issues` counts the history entries by issue; `get_recent_feedback` returns the newest entries.
- **Conflict resolver** (`CoordinatorAgent.resolve_conflicts`): three independent keyword rules set the feedback text against the profile's health information. They produce parallel lists of conflicts and resolutions, plus a status.
- **Exercise filter** (`WorkoutAgent._filter_exercises`):
  - an order-preserving narrowing of the exercise catalogue by level, injury, "no running" and each resolution's adjustment;
  - the survivors are then formatted one line per exercise.
- **Progress bookkeeping** (`ProgressAgent`):
  - the day number of a new log entry;
  - the entry `log_progress` appends;
  - the weight and body-measure trends and the completion rate;
  - the summary.
- **Meal-plan post-processing** (`NutritionAgent`):
  - the nutrition estimate for one meal: the built-in table first, then the remote database, then a default;
  - the dietary restriction and past feedback put into the prompt;
  - the mapping of the language model's reply onto the five meals of the day.

Some cross-agent facts live in `Pipeline`:
- the orchestrator's profile merge;
- how a feedback patch reaches the meal plan;
- how resolutions narrow the exercise list;
- the orchestrator's call of the coordinator (see Findings).

Modules:

| file | module | contents |
|---|---|---|
| values.dfy | `Values` | `Option`, `Result` with the raised errors, JSON-like `Value`, dictionary reads |
| text.dfy | `Text` | `str.lower`, substring `in`, `split`, `join`, `strip`, string ordering |
| seqs.dfy | `Seqs` | list-comprehension filter, subsequences, Python slicing |
| feedback.dfy | `Feedback` | `agents/feedback_agent.py` |
| coordinator.dfy | `Coordinator` | `agents/coordinator_agent.py` |
| workout.dfy | `Workout` | `agents/workout_agent.py` |
| progress.dfy | `Progress` | `agents/progress_agent.py` |
| nutrition.dfy | `Nutrition` | `agents/nutrition_agent.py` |
| pipeline.dfy | `Pipeline` | the merge and calls in `agents/orchestrator.py` |

Python's exceptions are modelled as `Err` results (`Values.Error`):
- `.lower()` on a value that is not a string, and `+=` of a string onto a value that is neither a string nor a list;
- `"foods" in data` or `data["foods"]` on a decoded body that is not a dictionary and does not allow them;
- `.get` on a value that is not a dictionary;
- `row[key]` on a missing column.

The language model's reply, the database's answer and the timestamp are parameters.

Two places where the behaviour as commonly described differs from the code. The model follows the code:
- A catalogue row with no `Difficulty` is excluded for the levels "beginner" and "advanced". The code compares the empty string, so such a row does not pass vacuously.
- `_next_day` does not cycle. Once days 1 to 7 are used it returns 1 on every later call (`Progress.NextDayStaysAtOne`).

## Model

| member | source | states |
|---|---|---|
| Feedback.Interpret | agents/feedback_agent.py:47-122 | A workout mention never reaches the diet or general branch: a hard word lowers the intensity, else an easy word raises it, else nothing is set or adjusted. A diet word without "workout" always flags a nutrition adjustment, and its action is the first diet rule that fires in the table order. The general branch is positive exactly when a positive word occurs, else recorded. `adjustments_needed` is exactly one of the two flags. Patch and meal preferences are those of the action |
| Feedback.HardWinsOverEasy | agents/feedback_agent.py:62-67 | "workout" plus a hard word lowers the intensity even if easy words also occur |
| Feedback.FirstMatch | agents/feedback_agent.py:79-115 | A rule table picks the action of the first rule that fires, and none exactly when no rule fires |
| Feedback.DietChainIsFirstMatch | agents/feedback_agent.py:79-115 | The diet `elif` chain equals first-match over the table fish-only, chicken-only, vegetarian, vegan, taste, portion |
| Feedback.ProcessFeedback | agents/feedback_agent.py:35-41 | The history gains the user's key. The user's list grows by exactly one entry, processed, carrying the action. Other users' lists are unchanged |
| Feedback.CommonIssues | agents/feedback_agent.py:148-175 | Each counter equals the number of entries whose first matching issue is that one. The counters add up to the classified entries, at most the history length |
| Feedback.ClassifiedIsSum | agents/feedback_agent.py:160-173 | Each entry adds to at most one counter: the classified count is the sum of the per-issue counts |
| Feedback.SortNewestFirst | agents/feedback_agent.py:146 | The sort by timestamp, newest first, is a permutation of the history |
| Feedback.SortIsStable | agents/feedback_agent.py:146 | Python's sort is stable: for every timestamp, the entries carrying it come out in their stored order |
| Feedback.InsertKeepsTies | agents/feedback_agent.py:146 | Inserting an entry into a newest-first list puts it after every entry with the same timestamp |
| Feedback.RecentFeedback | agents/feedback_agent.py:143-146 | For a count of 0 or more, the smaller of `count` and the history's length in entries; for a negative count, as Python slicing does, all but the last `-count` (none when that exceeds the history). The entries are newest first and all from the history; every left-out entry is no newer than any returned one |
| Coordinator.Fired | agents/coordinator_agent.py:65-96 | A rule is listed exactly when it fires, in R1, R2, R3 order, at most three |
| Coordinator.Resolve | agents/coordinator_agent.py:62-117 | Conflicts and resolutions run parallel to the fired rules. Status is "resolved" exactly when some resolution exists |
| Coordinator.ResolutionIffFires | agents/coordinator_agent.py:65-96 | A rule's resolution is present if and only if the rule fires |
| Coordinator.ConflictIffFires | agents/coordinator_agent.py:65-96 | A rule's conflict text is present if and only if the rule fires |
| Coordinator.HighPriorityNeedsHighIntensity | agents/coordinator_agent.py:68-96 | A high-priority resolution implies "high intensity" in the feedback text |
| Coordinator.ResolveConflicts | agents/coordinator_agent.py:46-67 | Absent inputs are empty maps. The result is an error exactly when a read text is not a string; otherwise the rules run on the lower-cased texts. Absent feedback gives no conflicts; absent profile gives only medium priorities |
| Coordinator.OutdoorRainExample | agents/coordinator_agent.py:88-96 | "outdoor workout in the rain" fires only the weather rule |
| Coordinator.InjuryAndAsthmaExample | agents/coordinator_agent.py:66-85 | "high intensity" against "injury, asthma" fires R1 and R2, not R3 |
| Workout.ApplyResolutions | agents/workout_agent.py:79-96 | The resolutions loop keeps an ordered sub-list holding exactly the rows every recognised adjustment admits |
| Workout.ApplyIsOneFilter | agents/workout_agent.py:79-96 | Filtering once per resolution equals one filter by all adjustments together |
| Workout.SelectSpec | agents/workout_agent.py:62-96 | The selection is an order-preserving sub-list of the catalogue containing exactly the rows passing every filter |
| Workout.SelectIsOneFilter | agents/workout_agent.py:62-96 | The whole selection is one per-row filter of the catalogue |
| Workout.SelectIdempotent | agents/workout_agent.py:62-96 | Filtering the result again with the same profile and resolutions returns it unchanged |
| Workout.ProfileFilters | agents/workout_agent.py:63-75 | Beginner keeps only beginner rows; intermediate drops advanced ones; advanced keeps advanced or intermediate. "injury" drops high-risk rows; "no running" drops rows named exactly "running" |
| Workout.FilterCatalogue | agents/workout_agent.py:58-96 | The two loops compute exactly the specified selection |
| Workout.FormatRow | agents/workout_agent.py:100-103 | A row formats exactly when it has all five columns; a missing one is the error. The line starts with "- ", the name, ": Targets " and the body part; it contains ", Equipment: " with the equipment and ", Difficulty: " with the difficulty; it ends with ", Injury Risk: " and the risk |
| Workout.FormatRows | agents/workout_agent.py:99-105 | One line per row, in order, or exactly the error of the first incomplete row |
| Workout.FormatListLines | agents/workout_agent.py:99-105 | Splitting the joined list on line breaks gives back one "- " line per surviving row |
| Workout.FilterExercises | agents/workout_agent.py:49-106 | A non-text preferences or level value is an error, preferences first. Otherwise the output is the formatted selection under the lower-cased level (default "Beginner") and preferences |
| Progress.LoadProgress | agents/progress_agent.py:134-153 | A user's rows are exactly the file's rows with that user id |
| Progress.LoadAfterAppend | agents/progress_agent.py:134-144 | Appending a row changes only its own user's rows |
| Progress.FirstFree | agents/progress_agent.py:99-100 | The result is always in 1..7. It is the smallest unused day from the start day on, or 1 when there is none |
| Progress.NextDaySpec | agents/progress_agent.py:87-102 | The next day is in 1..7 and the smallest unused day, or 1 once all seven are used |
| Progress.NextDayIgnoresOthers | agents/progress_agent.py:94-99 | Other users' rows do not change a user's next day |
| Progress.FirstDayIsOne | agents/progress_agent.py:96-97 | A user with no rows starts on day 1 |
| Progress.NextDayAfterPrefix | agents/progress_agent.py:99-100 | With days 1..k-1 used the next day is k |
| Progress.NextDayStaysAtOne | agents/progress_agent.py:99-100 | With all seven days used the day is 1, and stays 1 after another log |
| Progress.LogEntry | agents/progress_agent.py:59-70 | The entry carries the user, the timestamp and the next day. Weight, height, duration and calories are the form's numbers. `workout_completed` is the form's flag, defaulting to true. Waist and chest are read from `body_measurements`, missing meaning none. A non-dictionary `body_measurements` is an error |
| Progress.LogProgress | agents/progress_agent.py:55-85 | Success appends exactly the entry; failure leaves the file unchanged |
| Progress.LogAddsOneRow | agents/progress_agent.py:59-79 | A log adds one row for the user and none for anyone else, and the day it used is then taken |
| Progress.LogWeek | agents/progress_agent.py:87-100 | The k-th log of a week gets day k and leaves days 1..k used |
| Progress.TrendOf | agents/progress_agent.py:195-204 | A trend exists exactly with at least two observations. It runs first to last with change = end − start; the percentage is change/start·100, or 0 for a zero start |
| Progress.ChangeIsSumOfSteps | agents/progress_agent.py:196-199 | The overall change equals the sum of the changes between successive observations |
| Progress.TrendAfterLog | agents/progress_agent.py:195-212 | Logging a new measurement keeps the trend's start and moves its end to the new value |
| Progress.RoundHalfEven | agents/progress_agent.py:221 | Python's `round` gives an integer within one half of its argument, ties to even |
| Progress.CompletionRate | agents/progress_agent.py:219-221 | The rate exists exactly when some completion mark exists. It is within one half of the exact completed share of the marks times 100, and lies in 0..100: 100 when all marks are true, 0 when none is |
| Progress.AnalyzeTrends | agents/progress_agent.py:189-223 | The weight, waist and chest trends are those of the non-missing observations, and the completion rate is in range |
| Progress.GetSummary | agents/progress_agent.py:158-187 | No rows gives "No data". Rows without any completion mark give "Analysis failed". Otherwise the summary shows the final entry, at most the last five entries, the weight, waist and chest trends, the completion rate and the total count |
| Progress.WeightLossExample | agents/progress_agent.py:194-204 | Weights 80, 78, 76 give a change of −4 and −5 percent |
| Nutrition.FirstMatch | agents/nutrition_agent.py:69-70 | The first table key, in table order, contained in the text, or none exactly when no key occurs |
| Nutrition.FetchNutrition | agents/nutrition_agent.py:58-105 | A table hit returns that row's values. Otherwise a missing credential gives the default 300/20/30/10, and with both credentials the database's answer decides |
| Nutrition.FromReply | agents/nutrition_agent.py:85-105 | A failed request gives the default. A null, boolean or number body is an error. A list or string body is an error exactly when it mentions "foods" (as an element, as a substring), and otherwise gives the default. A dictionary body without foods or with empty foods gives the default. A list whose first food is a dictionary gives that food's fields, each defaulting to the default's value. A dictionary body is an error exactly when its foods are non-empty and not a list whose first item is a dictionary |
| Nutrition.FetchErrors | agents/nutrition_agent.py:85-105 | An error needs both credentials, no table hit, and an answer that mentions "foods" or cannot be asked whether it does; a dictionary answer then has truthy `foods` |
| Nutrition.TableHitIgnoresRemote | agents/nutrition_agent.py:61-76 | A meal naming a table row gets an estimate from that row or an earlier one, whatever the credentials and the database say |
| Nutrition.TableOrderWins | agents/nutrition_agent.py:69-76 | Table order decides, not position in the text: naming the salmon and then the omelette gives the omelette's values |
| Nutrition.LookupWithoutCredentials | agents/nutrition_agent.py:78-79 | Without an application id the lookup never fails |
| Nutrition.Restriction | agents/nutrition_agent.py:115-119 | Fish as protein source gives the fish text. Otherwise a vegetarian diet gives the vegetarian text; otherwise the restriction is empty. A non-dictionary preference is an error |
| Nutrition.StoreFeedback | agents/nutrition_agent.py:52-56 | Storing appends exactly one entry and keeps the rest |
| Nutrition.PastFeedback | agents/nutrition_agent.py:123-124 | The collected texts are exactly those of the entries whose user equals the profile's name |
| Nutrition.PastFeedbackAfterStore | agents/nutrition_agent.py:123-124 | Storing an entry appends its text to the past feedback of that user, and of no other; with the empty store this fixes the order and the repeats of the collected texts |
| Nutrition.Preferences | agents/nutrition_agent.py:112-126 | Without past feedback the preference is unchanged. With it, a text preference is followed by " Past feedback: " and the texts joined by "; "; a list preference is followed by one one-character string per character of that text; any other preference is an error |
| Nutrition.PastFeedbackInPrompt | agents/nutrition_agent.py:123-126 | Every feedback the user stored occurs in the appended text, and so in the prompt's preferences when they are text |
| Nutrition.StoredFeedbackEndsPrompt | agents/nutrition_agent.py:124-126 | Feedback just stored ends the next prompt's preferences |
| Nutrition.Descriptions | agents/nutrition_agent.py:134 | At most five descriptions: the first non-blank stripped lines, each a stripped line of the reply |
| Nutrition.DescriptionsOfLines | agents/nutrition_agent.py:134 | A reply written one clean meal per line gives back its first five meals |
| Nutrition.Meals | agents/nutrition_agent.py:136-147 | The plan exists exactly when every zipped description's lookup succeeds. Zipping gives min(types, descriptions) meals. Meal i has type i, description i and the facts the lookup gives for description i |
| Nutrition.GenerateMealPlan | agents/nutrition_agent.py:107-148 | The plan exists exactly when the restriction, the preferences and every meal's lookup succeed; restriction errors come first, then preference errors. The prompt has the goal and level with their defaults. The plan has one meal per description, typed Breakfast to Dinner in order, with that description's looked-up facts |
| Nutrition.NoCredentialsNeverFails | agents/nutrition_agent.py:134-147 | Without credentials the plan has min(5, non-blank lines) meals |
| Pipeline.Merge | agents/orchestrator.py:54 | The merged profile has both key sets; the patch's values win |
| Pipeline.RestrictionAfterPatch | agents/orchestrator.py:54 | After the fish patch the meal plan demands fish; after the vegetarian patch, vegetarian. The chicken and vegan patches leave no restriction; other actions keep the old one |
| Pipeline.FishFeedbackReachesMealPlan | agents/feedback_agent.py:80-86 | Feedback read as fish-only makes the next meal plan demand fish |
| Pipeline.ResolutionNarrows | agents/workout_agent.py:81-96 | Each rule's resolution applies that rule's exercise narrowing |
| Pipeline.FiredRuleNarrowsWorkout | agents/workout_agent.py:79-96 | After a rule fires, every surviving exercise meets its narrowing: no high risk after an injury conflict, beginner only after a health-condition conflict, indoor-capable after a weather conflict |
| Pipeline.ResultObject | agents/feedback_agent.py:49-59 | The feedback result holds its text under `feedback_text` and has no `feedback` key |
| Pipeline.PatchKeepsHealthInfo | agents/feedback_agent.py:57-115 | No patch the feedback interpreter builds has a `health_info` key, so the merge keeps the profile's health information |
| Pipeline.AsCalledNeverConflicts | agents/orchestrator.py:58 | For any feedback result whose patch leaves `health_info` alone, the call as written succeeds exactly when `health_info` is text, and then reports nothing, whatever the user wrote |
| Pipeline.IntendedSeesFeedback | agents/coordinator_agent.py:66-67 | For any such feedback result, with the text under `feedback`, the rules run on the user's lower-cased text against the profile's health information |
| Pipeline.InjuryFeedbackIgnored | agents/orchestrator.py:58 | "high intensity" from a user with "injury, asthma": nothing as called, two conflicts as intended |

## Left out

- Language-model calls (`Ollama.invoke`) and prompt formatting are left out. The reply is a parameter, so plan texts and `dynamic_rules` are not modelled.
- The Nutritionix HTTP request is an opaque `Reply` parameter: a failed request or a decoded body.
- File access is left out: the JSON and CSV files, `os.path.exists`, and the double write in `process_feedback`. The stores are values passed in and returned.
- `datetime.now()` is left out; timestamps are parameters.
- `resolve_conflicts` with a `None` argument (agents/coordinator_agent.py:40-43) reads the whole profile or feedback file through `load_profile_data` or `load_feedback_data`, which open the file without a guard: a missing file raises, and an existing one yields the store of every user, whose `feedback` or `health_info` key is normally absent. The model follows neither behaviour: it treats a `None` argument as an empty dictionary, which matches the existing-file case only when the store has no such top-level key.
- The `dynamic_rules` call inside `resolve_conflicts`, and the audit logging (`log_decision`), are left out.
- `_update_profile` and `profile_agent.py` are left out: JSON read-modify-write and wall-clock expiry.
- The error paths of `get_summary` and `log_progress` are partly left out. The model keeps the `body_measurements` error and the rounding of a rate with no marks. A failure while reading files is not modelled.
- The two feedback file formats are not reconciled. The feedback agent treats the shared file as a dictionary of lists; the nutrition agent treats it as a list. The model keeps them as two separate stores.
- Text.Lower: lower-cases ASCII letters only, because Python's full Unicode case mapping is not modelled.
- Text.IsSpace: covers the ASCII and Latin-1 white space that `str.strip` removes, not every Unicode space.
- Progress.Number: a form value that is neither a number nor missing is read as missing. The form only supplies numbers, and the CSV round trip's type inference is not modelled.
- Progress.Completed: a `workout_completed` form value that is not a boolean is read as missing, for the same reason.
- Progress.LoadProgress: user ids are compared as strings. pandas may read all-digit ids as numbers, which then match no string id; that is not modelled.
- Progress.TrendOf: the changes are exact reals; `round(..., 2)` on floats is not modelled.
- Progress.GetSummary: `recent_progress` rows are not given the `body_measurements` copy that `load_progress` adds.
- Progress.CompletionRate: rounds the exact rational share, not the double that `mean() * 100` computes. The two can differ by one where the exact value is a tie: 23 of 40 marks gives 57.5 exactly, hence 58, while the double product lies just below 57.5, hence 57.
- Nutrition.Preferences: returns the extended list as a new value. Python's `+=` extends the profile's own list in place, so the caller's profile changes too; profiles are values here.
- Workout.Row: catalogue cells are strings. A short CSV row, where `csv.DictReader` fills `None`, is not modelled.
- The orchestrator's other logic is left out: the Streamlit app, the profile agent, `base_agent.py`, and `dynamic_rule_generator.py`. Only the merge and the coordinator call are modelled.

## Findings

| source | as written | input that shows it | evidently intended | confidence | as-written member | corrected member |
|---|---|---|---|---|---|---|
| agents/orchestrator.py:58 | The coordinator receives the feedback result dictionary. Its text sits under `feedback_text`, but the coordinator reads `feedback`, so the rules see an empty text | profile `{"health_info": "injury, asthma"}`, feedback "high intensity": no conflicts | The rules see the user's text: R1 and R2 fire | medium, not executed | Pipeline.AsCalledNeverConflicts | Pipeline.IntendedSeesFeedback |
