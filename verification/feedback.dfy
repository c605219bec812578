/** The feedback agent (agents/feedback_agent.py): it interprets free-text
    feedback by ordered keyword tests, records it in the per-user history,
    and reads the history back (common issues, most recent entries). */
module Feedback {
  import opened Values
  import opened Text
  import opened Seqs

  // ---------------------------------------------------------------------
  // Keywords, tested against the lower-cased text

  const HardWords: seq<string> := ["hard", "intense", "difficult", "tough"]
  const EasyWords: seq<string> := ["easy", "simple", "light"]
  const DietWords: seq<string> := ["meal", "food", "diet", "eat", "fish", "chicken", "vegetarian", "vegan"]
  const ExclusiveWords: seq<string> := ["only", "just"]
  const TasteWords: seq<string> := ["not tasty", "bad taste", "don't like", "disgusting"]
  const PortionWords: seq<string> := ["too much", "too large", "big portion"]
  const PositiveWords: seq<string> := ["good", "great", "like", "enjoy"]
  const ProteinWords: seq<string> := ["fish", "chicken", "vegetarian", "vegan"]

  /** The `suggested_action` tags. */
  datatype Action =
    | DecreaseIntensity | IncreaseIntensity
    | FishOnlyMeals | ChickenOnlyMeals | VegetarianMeals | VeganMeals
    | ChangeMeal | ReducePortion
    | PositiveFeedback | Recorded

  /** The tag as the agent writes it. */
  function Tag(a: Action): string {
    match a
    case DecreaseIntensity => "decrease_intensity"
    case IncreaseIntensity => "increase_intensity"
    case FishOnlyMeals => "fish_only_meals"
    case ChickenOnlyMeals => "chicken_only_meals"
    case VegetarianMeals => "vegetarian_meals"
    case VeganMeals => "vegan_meals"
    case ChangeMeal => "change_meal"
    case ReducePortion => "reduce_portion"
    case PositiveFeedback => "positive_feedback"
    case Recorded => "recorded"
  }

  /** The `updated_profile` patch each action writes. */
  function PatchFor(a: Action): Object {
    match a
    case DecreaseIntensity => map["workout_intensity" := Str("lower")]
    case IncreaseIntensity => map["workout_intensity" := Str("higher")]
    case FishOnlyMeals =>
      map["dietary_preferences" := Obj(map["protein_source" := Str("fish"),
        "restrictions" := Strs(["no_chicken", "no_mutton", "no_vegetarian"])])]
    case ChickenOnlyMeals =>
      map["dietary_preferences" := Obj(map["protein_source" := Str("chicken"),
        "restrictions" := Strs(["no_fish", "no_mutton", "no_vegetarian"])])]
    case VegetarianMeals =>
      map["dietary_preferences" := Obj(map["diet_type" := Str("vegetarian"),
        "restrictions" := Strs(["no_meat", "no_fish", "no_chicken"])])]
    case VeganMeals =>
      map["dietary_preferences" := Obj(map["diet_type" := Str("vegan"),
        "restrictions" := Strs(["no_meat", "no_fish", "no_chicken", "no_dairy", "no_eggs"])])]
    case ChangeMeal => map["meal_preferences" := Str("adjusted")]
    case ReducePortion => map["portion_size" := Str("smaller")]
    case PositiveFeedback => map[]
    case Recorded => map[]
  }

  /** The actions whose patch replaces `dietary_preferences`. */
  predicate IsDietAction(a: Action) {
    a == FishOnlyMeals || a == ChickenOnlyMeals || a == VegetarianMeals || a == VeganMeals
  }

  /** The `meal_preferences` each nutrition action reports. */
  function MealPrefsFor(a: Action): Option<Object> {
    match a
    case FishOnlyMeals => Some(map["protein_source" := Str("fish"), "exclusive" := Bool(true)])
    case ChickenOnlyMeals => Some(map["protein_source" := Str("chicken"), "exclusive" := Bool(true)])
    case VegetarianMeals => Some(map["diet_type" := Str("vegetarian")])
    case VeganMeals => Some(map["diet_type" := Str("vegan")])
    case ChangeMeal => Some(map["issue" := Str("taste"), "action" := Str("replace")])
    case ReducePortion => Some(map["issue" := Str("portion"), "action" := Str("reduce")])
    case _ => None
  }

  /** The dictionary `process_feedback` returns. */
  datatype FeedbackResult = FeedbackResult(
    stored: bool,
    feedbackText: string,
    timestamp: string,
    suggestedAction: Option<Action>,
    adjustmentsNeeded: bool,
    nutritionAdjustment: bool,
    workoutAdjustment: bool,
    updatedProfile: Object,
    mealPreferences: Option<Object>)

  // ---------------------------------------------------------------------
  // Interpretation

  /** The diet sub-rules, as the `if`/`elif` chain writes them. */
  function DietAction(l: string): Option<Action> {
    if Contains(l, "fish") && ContainsAny(l, ExclusiveWords) then Some(FishOnlyMeals)
    else if Contains(l, "chicken") && ContainsAny(l, ExclusiveWords) then Some(ChickenOnlyMeals)
    else if Contains(l, "vegetarian") then Some(VegetarianMeals)
    else if Contains(l, "vegan") then Some(VeganMeals)
    else if ContainsAny(l, TasteWords) then Some(ChangeMeal)
    else if ContainsAny(l, PortionWords) then Some(ReducePortion)
    else None
  }

  /** The analysis part of `process_feedback`: lower-case the text, then the
      first branch that matches (workout, then diet, then general) decides. */
  function Interpret(text: string, timestamp: string): (r: FeedbackResult)
    ensures r.stored && r.feedbackText == text && r.timestamp == timestamp
    // a workout mention never reaches the nutrition or general branch
    ensures Contains(Lower(text), "workout") ==>
              !r.nutritionAdjustment && r.mealPreferences == None
              && r.suggestedAction in {None, Some(DecreaseIntensity), Some(IncreaseIntensity)}
    // a workout mention with no intensity word leaves everything unset
    ensures Contains(Lower(text), "workout") && !ContainsAny(Lower(text), HardWords)
              && !ContainsAny(Lower(text), EasyWords) ==>
              r.suggestedAction == None && !r.adjustmentsNeeded && r.updatedProfile == map[]
    // a workout mention with an intensity word: "too hard" first, then "too easy"
    ensures Contains(Lower(text), "workout") && ContainsAny(Lower(text), HardWords) ==>
              r.suggestedAction == Some(DecreaseIntensity) && r.workoutAdjustment
    ensures Contains(Lower(text), "workout") && !ContainsAny(Lower(text), HardWords)
              && ContainsAny(Lower(text), EasyWords) ==>
              r.suggestedAction == Some(IncreaseIntensity) && r.workoutAdjustment
    // a diet word without "workout": the first diet rule that fires decides
    ensures !Contains(Lower(text), "workout") && ContainsAny(Lower(text), DietWords) ==>
              r.suggestedAction == FirstMatch(DietRules, Lower(text))
    // a diet word without "workout" always flags a nutrition adjustment
    ensures !Contains(Lower(text), "workout") && ContainsAny(Lower(text), DietWords) ==>
              r.nutritionAdjustment && r.adjustmentsNeeded && !r.workoutAdjustment
    // the general branch always names an action and adjusts nothing
    ensures !Contains(Lower(text), "workout") && !ContainsAny(Lower(text), DietWords) ==>
              r.suggestedAction in {Some(PositiveFeedback), Some(Recorded)}
              && !r.adjustmentsNeeded && r.updatedProfile == map[]
    ensures !Contains(Lower(text), "workout") && !ContainsAny(Lower(text), DietWords) ==>
              (r.suggestedAction == Some(PositiveFeedback) <==> ContainsAny(Lower(text), PositiveWords))
    ensures r.adjustmentsNeeded <==> r.workoutAdjustment || r.nutritionAdjustment
    ensures !(r.workoutAdjustment && r.nutritionAdjustment)
    // the patch and meal preferences are those of the action taken
    ensures r.updatedProfile == (if r.suggestedAction.Some? then PatchFor(r.suggestedAction.value) else map[])
    ensures r.mealPreferences == (if r.suggestedAction.Some? then MealPrefsFor(r.suggestedAction.value) else None)
  {
    var l := Lower(text);
    var base := FeedbackResult(true, text, timestamp, None, false, false, false, map[], None);
    if Contains(l, "workout") then
      if ContainsAny(l, HardWords) then
        base.(suggestedAction := Some(DecreaseIntensity), adjustmentsNeeded := true,
              workoutAdjustment := true, updatedProfile := PatchFor(DecreaseIntensity))
      else if ContainsAny(l, EasyWords) then
        base.(suggestedAction := Some(IncreaseIntensity), adjustmentsNeeded := true,
              workoutAdjustment := true, updatedProfile := PatchFor(IncreaseIntensity))
      else base
    else if ContainsAny(l, DietWords) then
      var a := DietAction(l);
      DietChainIsFirstMatch(l);
      base.(suggestedAction := a, nutritionAdjustment := true, adjustmentsNeeded := true,
            updatedProfile := if a.Some? then PatchFor(a.value) else map[],
            mealPreferences := if a.Some? then MealPrefsFor(a.value) else None)
    else
      base.(suggestedAction := Some(if ContainsAny(l, PositiveWords) then PositiveFeedback else Recorded))
  }

  /** "workout" with a "too hard" word lowers the intensity, whatever
      "too easy" words also appear. */
  lemma HardWinsOverEasy(text: string, timestamp: string, k: nat)
    requires Contains(Lower(text), "workout")
    requires k < |HardWords| && Contains(Lower(text), HardWords[k])
    ensures Interpret(text, timestamp).suggestedAction == Some(DecreaseIntensity)
    ensures Interpret(text, timestamp).updatedProfile == map["workout_intensity" := Str("lower")]
    ensures Interpret(text, timestamp).workoutAdjustment
  {
  }

  // ---------------------------------------------------------------------
  // The diet sub-rules as an ordered table

  /** A keyword rule: every `required` word and, when `anyOf` is not empty,
      one of its words. */
  datatype Rule = Rule(required: seq<string>, anyOf: seq<string>, action: Action)

  predicate Fires(rule: Rule, l: string) {
    && (forall j :: 0 <= j < |rule.required| ==> Contains(l, rule.required[j]))
    && (|rule.anyOf| == 0 || ContainsAny(l, rule.anyOf))
  }

  /** The action of the first rule that fires. */
  function FirstMatch(rules: seq<Rule>, l: string): (r: Option<Action>)
    ensures r.Some? ==> exists i :: 0 <= i < |rules| && Fires(rules[i], l) && rules[i].action == r.value
                          && forall j :: 0 <= j < i ==> !Fires(rules[j], l)
    ensures r.None? <==> forall i :: 0 <= i < |rules| ==> !Fires(rules[i], l)
    decreases |rules|
  {
    if |rules| == 0 then None
    else if Fires(rules[0], l) then Some(rules[0].action)
    else
      var r := FirstMatch(rules[1..], l);
      assert forall i :: 1 <= i < |rules| ==> rules[i] == rules[1..][i - 1];
      r
  }

  /** The nutrition priority order: fish-only, chicken-only, vegetarian,
      vegan, taste complaint, portion complaint. */
  const DietRules: seq<Rule> := [
    Rule(["fish"], ExclusiveWords, FishOnlyMeals),
    Rule(["chicken"], ExclusiveWords, ChickenOnlyMeals),
    Rule(["vegetarian"], [], VegetarianMeals),
    Rule(["vegan"], [], VeganMeals),
    Rule([], TasteWords, ChangeMeal),
    Rule([], PortionWords, ReducePortion)
  ]

  /** A rule with one required word fires when that word, and one of its
      alternatives if it has any, occurs. */
  lemma FiresOneWord(rule: Rule, l: string)
    requires |rule.required| == 1
    ensures Fires(rule, l) <==> Contains(l, rule.required[0]) && (|rule.anyOf| == 0 || ContainsAny(l, rule.anyOf))
  {
  }

  /** The `if`/`elif` chain is exactly first-match over the rule table. */
  lemma DietChainIsFirstMatch(l: string)
    ensures DietAction(l) == FirstMatch(DietRules, l)
  {
    var rules := DietRules;
    FiresOneWord(rules[0], l);
    FiresOneWord(rules[1], l);
    FiresOneWord(rules[2], l);
    FiresOneWord(rules[3], l);
    assert rules[1..][0] == rules[1] && rules[1..][1..][0] == rules[2];
    assert rules[1..][1..][1..][0] == rules[3] && rules[1..][1..][1..][1..][0] == rules[4];
    assert rules[1..][1..][1..][1..][1..][0] == rules[5];
    assert rules[1..][1..][1..][1..][1..][1..] == [];
  }

  // ---------------------------------------------------------------------
  // History

  /** A stored feedback entry. */
  datatype Entry = Entry(feedback: string, timestamp: string, processed: bool, actionTaken: Option<Action>)

  /** The feedback file: user name to that user's entries, oldest first. */
  type History = map<string, seq<Entry>>

  /** `get_feedback_history`: the user's entries, none when unknown. */
  function HistoryOf(h: History, user: string): seq<Entry> {
    if user in h then h[user] else []
  }

  /** `process_feedback`: interpret the text and append one processed entry,
      carrying the action, to the user's history. */
  function ProcessFeedback(h: History, user: string, text: string, timestamp: string): (r: (FeedbackResult, History))
    ensures r.0 == Interpret(text, timestamp)
    ensures r.1.Keys == h.Keys + {user}
    ensures r.1[user] == HistoryOf(h, user) + [Entry(text, timestamp, true, r.0.suggestedAction)]
    ensures forall u :: u in h && u != user ==> r.1[u] == h[u]
  {
    var result := Interpret(text, timestamp);
    (result, h[user := HistoryOf(h, user) + [Entry(text, timestamp, true, result.suggestedAction)]])
  }

  // ---------------------------------------------------------------------
  // Common issues

  datatype Issue = WorkoutTooHard | WorkoutTooEasy | MealNotTasty | PortionTooLarge | Positive | DietaryPreferences

  /** The one counter an entry's text adds to, if any. */
  function IssueOf(text: string): Option<Issue> {
    var l := Lower(text);
    if ContainsAny(l, HardWords) then Some(WorkoutTooHard)
    else if ContainsAny(l, EasyWords) then Some(WorkoutTooEasy)
    else if ContainsAny(l, TasteWords) then Some(MealNotTasty)
    else if ContainsAny(l, PortionWords) then Some(PortionTooLarge)
    else if ContainsAny(l, ProteinWords) then Some(DietaryPreferences)
    else if ContainsAny(l, PositiveWords) then Some(Positive)
    else None
  }

  datatype Counts = Counts(tooHard: nat, tooEasy: nat, notTasty: nat, portion: nat, positive: nat, dietary: nat) {
    function Get(i: Issue): nat {
      match i
      case WorkoutTooHard => tooHard
      case WorkoutTooEasy => tooEasy
      case MealNotTasty => notTasty
      case PortionTooLarge => portion
      case Positive => positive
      case DietaryPreferences => dietary
    }
    function Total(): nat {
      tooHard + tooEasy + notTasty + portion + positive + dietary
    }
    function Bump(i: Issue): (c: Counts)
      ensures forall k :: c.Get(k) == Get(k) + (if k == i then 1 else 0)
      ensures c.Total() == Total() + 1
    {
      match i
      case WorkoutTooHard => this.(tooHard := tooHard + 1)
      case WorkoutTooEasy => this.(tooEasy := tooEasy + 1)
      case MealNotTasty => this.(notTasty := notTasty + 1)
      case PortionTooLarge => this.(portion := portion + 1)
      case Positive => this.(positive := positive + 1)
      case DietaryPreferences => this.(dietary := dietary + 1)
    }
  }

  /** How many entries fall under issue `k`. */
  function CountOf(es: seq<Entry>, k: Issue): nat {
    if |es| == 0 then 0
    else CountOf(es[..|es| - 1], k) + (if IssueOf(es[|es| - 1].feedback) == Some(k) then 1 else 0)
  }

  /** How many entries fall under some issue. */
  function Classified(es: seq<Entry>): (n: nat)
    ensures n <= |es|
  {
    if |es| == 0 then 0
    else Classified(es[..|es| - 1]) + (if IssueOf(es[|es| - 1].feedback).Some? then 1 else 0)
  }

  /** The entries under some issue are those under each issue, added up. */
  lemma {:induction false} ClassifiedIsSum(es: seq<Entry>)
    ensures Classified(es) == CountOf(es, WorkoutTooHard) + CountOf(es, WorkoutTooEasy) + CountOf(es, MealNotTasty)
                              + CountOf(es, PortionTooLarge) + CountOf(es, Positive) + CountOf(es, DietaryPreferences)
  {
    if |es| > 0 {
      ClassifiedIsSum(es[..|es| - 1]);
    }
  }

  lemma CountStep(es: seq<Entry>, i: nat)
    requires i < |es|
    ensures forall k :: CountOf(es[..i + 1], k) == CountOf(es[..i], k) + (if IssueOf(es[i].feedback) == Some(k) then 1 else 0)
  {
    assert es[..i + 1][..i] == es[..i];
  }

  /** `get_common_issues`: each counter counts the entries under its issue,
      so the counters add up to at most the number of entries. */
  method CommonIssues(h: History, user: string) returns (c: Counts)
    ensures forall k :: c.Get(k) == CountOf(HistoryOf(h, user), k)
    ensures c.Total() == Classified(HistoryOf(h, user)) <= |HistoryOf(h, user)|
  {
    var es := HistoryOf(h, user);
    c := Counts(0, 0, 0, 0, 0, 0);
    var i := 0;
    while i < |es|
      invariant 0 <= i <= |es|
      invariant forall k :: c.Get(k) == CountOf(es[..i], k)
    {
      var issue := IssueOf(es[i].feedback);
      CountStep(es, i);
      if issue.Some? {
        c := c.Bump(issue.value);
      }
      i := i + 1;
    }
    assert es[..i] == es;
    assert c.Total() == Classified(es) by {
      ClassifiedIsSum(es);
      assert c.Total() == c.Get(WorkoutTooHard) + c.Get(WorkoutTooEasy) + c.Get(MealNotTasty)
                          + c.Get(PortionTooLarge) + c.Get(Positive) + c.Get(DietaryPreferences);
    }
  }

  // ---------------------------------------------------------------------
  // Most recent feedback

  /** Newest first: later timestamps (as strings) come earlier. */
  predicate NewestFirst(es: seq<Entry>) {
    forall i, j :: 0 <= i < j < |es| ==> StrLe(es[j].timestamp, es[i].timestamp)
  }

  /** Put `e` after every entry whose timestamp is not earlier than its own. */
  function InsertNewestFirst(sorted: seq<Entry>, e: Entry): (r: seq<Entry>)
    requires NewestFirst(sorted)
    ensures NewestFirst(r)
    ensures multiset(r) == multiset(sorted) + multiset{e}
    decreases |sorted|
  {
    if |sorted| == 0 then [e]
    else if StrLe(e.timestamp, sorted[0].timestamp) then
      var rest := InsertNewestFirst(sorted[1..], e);
      assert sorted == [sorted[0]] + sorted[1..];
      forall j | 0 <= j < |rest|
        ensures StrLe(rest[j].timestamp, sorted[0].timestamp)
      {
        assert rest[j] in multiset(sorted[1..]) + multiset{e};
        if rest[j] != e {
          assert rest[j] in sorted[1..];
        }
      }
      [sorted[0]] + rest
    else
      StrLeTotal(e.timestamp, sorted[0].timestamp);
      forall j | 0 <= j < |sorted|
        ensures StrLe(sorted[j].timestamp, e.timestamp)
      {
        if j > 0 {
          StrLeTransitive(sorted[j].timestamp, sorted[0].timestamp, e.timestamp);
        }
      }
      [e] + sorted
  }

  /** `sorted(es, key=timestamp, reverse=True)`; `SortIsStable` shows that
      entries with equal timestamps keep their stored order. */
  function SortNewestFirst(es: seq<Entry>): (r: seq<Entry>)
    ensures NewestFirst(r)
    ensures multiset(r) == multiset(es)
  {
    if |es| == 0 then []
    else
      assert es == es[..|es| - 1] + [es[|es| - 1]];
      InsertNewestFirst(SortNewestFirst(es[..|es| - 1]), es[|es| - 1])
  }

  /** The entries stamped `t`, in order. */
  function StampedAt(t: string): Entry -> bool {
    (e: Entry) => e.timestamp == t
  }

  /** A newest-first list whose head is older than `e` holds no entry
      stamped like `e`. */
  lemma NoTieBelowNewer(sorted: seq<Entry>, e: Entry)
    requires NewestFirst(sorted) && |sorted| > 0
    requires !StrLe(e.timestamp, sorted[0].timestamp)
    ensures Filter(sorted, StampedAt(e.timestamp)) == []
  {
    StrLeTotal(e.timestamp, e.timestamp);
    forall i | 0 <= i < |sorted|
      ensures !StampedAt(e.timestamp)(sorted[i])
    {
      if i > 0 {
        assert StrLe(sorted[i].timestamp, sorted[0].timestamp);
      }
    }
    FilterNonePass(sorted, StampedAt(e.timestamp));
  }

  /** The tail of a newest-first list is newest first. */
  lemma NewestFirstTail(es: seq<Entry>)
    requires NewestFirst(es) && |es| > 0
    ensures NewestFirst(es[1..])
  {
    forall i, j | 0 <= i < j < |es| - 1
      ensures StrLe(es[1..][j].timestamp, es[1..][i].timestamp)
    {
      assert es[1..][j] == es[j + 1] && es[1..][i] == es[i + 1];
    }
  }

  /** The two shapes an insertion takes. */
  lemma InsertShape(sorted: seq<Entry>, e: Entry)
    requires NewestFirst(sorted) && |sorted| > 0
    ensures StrLe(e.timestamp, sorted[0].timestamp) ==>
              InsertNewestFirst(sorted, e) == [sorted[0]] + InsertNewestFirst(sorted[1..], e)
    ensures !StrLe(e.timestamp, sorted[0].timestamp) ==> InsertNewestFirst(sorted, e) == [e] + sorted
  {
  }

  /** The entries of `es` stamped `t`, with `e` after them when it is
      stamped `t` too. */
  function TiesWith(es: seq<Entry>, e: Entry, t: string): seq<Entry> {
    Filter(es, StampedAt(t)) + (if e.timestamp == t then [e] else [])
  }

  /** Inserting behind the head keeps the head's place among its ties. */
  lemma InsertTiesBehindHead(sorted: seq<Entry>, e: Entry, t: string)
    requires NewestFirst(sorted) && |sorted| > 0
    requires StrLe(e.timestamp, sorted[0].timestamp)
    requires NewestFirst(sorted[1..])
    requires Filter(InsertNewestFirst(sorted[1..], e), StampedAt(t)) == TiesWith(sorted[1..], e, t)
    ensures Filter(InsertNewestFirst(sorted, e), StampedAt(t)) == TiesWith(sorted, e, t)
  {
    InsertShape(sorted, e);
    var p := StampedAt(t);
    var head := if p(sorted[0]) then [sorted[0]] else [];
    var tail := Filter(sorted[1..], p);
    var extra := if e.timestamp == t then [e] else [];
    FilterCons(sorted[0], InsertNewestFirst(sorted[1..], e), p);
    assert Filter(InsertNewestFirst(sorted, e), p) == head + (tail + extra);
    assert Filter(sorted, p) == head + tail;
    ConcatAssoc(head, tail, extra);
  }

  /** Inserting in front of an older head puts `e` after no tie. */
  lemma InsertTiesInFront(sorted: seq<Entry>, e: Entry, t: string)
    requires NewestFirst(sorted) && |sorted| > 0
    requires !StrLe(e.timestamp, sorted[0].timestamp)
    ensures Filter(InsertNewestFirst(sorted, e), StampedAt(t)) == TiesWith(sorted, e, t)
  {
    InsertShape(sorted, e);
    FilterCons(e, sorted, StampedAt(t));
    if e.timestamp == t {
      NoTieBelowNewer(sorted, e);
    }
  }

  /** Inserting an entry puts it after every stored entry with its timestamp. */
  lemma {:induction false} InsertKeepsTies(sorted: seq<Entry>, e: Entry, t: string)
    requires NewestFirst(sorted)
    ensures Filter(InsertNewestFirst(sorted, e), StampedAt(t)) == TiesWith(sorted, e, t)
    decreases |sorted|
  {
    if |sorted| == 0 {
      assert InsertNewestFirst(sorted, e) == [e];
      FilterCons(e, [], StampedAt(t));
    } else if StrLe(e.timestamp, sorted[0].timestamp) {
      NewestFirstTail(sorted);
      InsertKeepsTies(sorted[1..], e, t);
      InsertTiesBehindHead(sorted, e, t);
    } else {
      InsertTiesInFront(sorted, e, t);
    }
  }

  /** The sort is stable: for every timestamp, the entries stamped with it
      come out in the order they were stored. */
  lemma {:induction false} SortIsStable(es: seq<Entry>, t: string)
    ensures Filter(SortNewestFirst(es), StampedAt(t)) == Filter(es, StampedAt(t))
    decreases |es|
  {
    if |es| > 0 {
      var init, last := es[..|es| - 1], es[|es| - 1];
      var sortedInit := SortNewestFirst(init);
      assert SortNewestFirst(es) == InsertNewestFirst(sortedInit, last);
      SortIsStable(init, t);
      InsertKeepsTies(sortedInit, last, t);
      FilterLast(es, StampedAt(t));
    }
  }

  /** A prefix of a newest-first arrangement of `es` is drawn from `es`,
      and nothing of `es` left out of it is newer than anything in it. */
  lemma PrefixOfSorted(es: seq<Entry>, all: seq<Entry>, n: nat)
    requires NewestFirst(all) && multiset(all) == multiset(es) && n <= |all|
    ensures |all| == |es|
    ensures NewestFirst(all[..n])
    ensures multiset(all[..n]) <= multiset(es)
    ensures forall e :: e in es && e !in all[..n] ==>
              forall i :: 0 <= i < n ==> StrLe(e.timestamp, all[..n][i].timestamp)
  {
    assert |all| == |multiset(all)| == |multiset(es)| == |es|;
    assert all == all[..n] + all[n..];
    forall e | e in es && e !in all[..n]
      ensures forall i :: 0 <= i < n ==> StrLe(e.timestamp, all[..n][i].timestamp)
    {
      assert e in multiset(all);
      var k :| 0 <= k < |all| && all[k] == e;
      assert k >= n;
    }
  }

  /** `get_recent_feedback`: at most `count` entries (Python slicing for a
      negative count), newest first, all from the user's history. */
  function RecentFeedback(h: History, user: string, count: int): (r: seq<Entry>)
    ensures count >= 0 ==> |r| == if count < |HistoryOf(h, user)| then count else |HistoryOf(h, user)|
    ensures count < 0 ==> |r| == if |HistoryOf(h, user)| + count > 0 then |HistoryOf(h, user)| + count else 0
    ensures NewestFirst(r)
    ensures multiset(r) <= multiset(HistoryOf(h, user))
    ensures forall e :: e in HistoryOf(h, user) && e !in r ==>
              forall i :: 0 <= i < |r| ==> StrLe(e.timestamp, r[i].timestamp)
  {
    var all := SortNewestFirst(HistoryOf(h, user));
    var r := PyHead(all, count);
    PrefixOfSorted(HistoryOf(h, user), all, |r|);
    r
  }
}
