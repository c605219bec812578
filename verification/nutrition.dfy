/** The deterministic parts of the nutrition agent (agents/nutrition_agent.py):
    the nutrition estimate for one meal (a fixed table first, then the
    remote database, then a default), the dietary restriction and past
    feedback put into the prompt, and the mapping of the language model's
    reply onto the five meals of the day. The remote database's answer and
    the model's reply are parameters. */
module Nutrition {
  import opened Values
  import opened Text
  import opened Seqs

  /** Calories, protein, carbohydrate and fat of one meal. */
  datatype Macros = Macros(calories: real, protein: real, carbs: real, fat: real)

  /** One row of the built-in estimate table. */
  datatype Estimate = Estimate(meal: string, macros: Macros)

  /** The built-in estimates, in the table's order. */
  const Estimates: seq<Estimate> := [
    Estimate("avocado and egg omelette", Macros(731.82, 29.76, 33.04, 55.94)),
    Estimate("cottage cheese with cucumber", Macros(139.79, 13.55, 11.64, 4.93)),
    Estimate("grilled chicken with brown rice", Macros(420.66, 60.76, 28.52, 7.64)),
    Estimate("carrot sticks with hummus", Macros(149.62, 5.87, 20.26, 6.05)),
    Estimate("baked salmon with asparagus", Macros(889.44, 84.99, 23.56, 48.72))
  ]

  /** The nutrition record of a meal; values that come from the remote
      database are passed through whatever their type. */
  datatype Facts = Facts(calories: Value, protein: Value, carbs: Value, fat: Value)

  function FromMacros(m: Macros): Facts {
    Facts(Num(m.calories), Num(m.protein), Num(m.carbs), Num(m.fat))
  }

  /** The estimate used when nothing better is known. */
  const Default: Facts := Facts(Num(300.0), Num(20.0), Num(30.0), Num(10.0))

  /** The index of the first table row whose meal occurs in `l`. */
  function FirstMatch(table: seq<Estimate>, l: string): (r: Option<nat>)
    ensures r.None? <==> forall i :: 0 <= i < |table| ==> !Contains(l, table[i].meal)
    ensures r.Some? ==> r.value < |table| && Contains(l, table[r.value].meal)
                        && forall j :: 0 <= j < r.value ==> !Contains(l, table[j].meal)
    decreases |table|
  {
    if |table| == 0 then None
    else if Contains(l, table[0].meal) then Some(0)
    else
      match FirstMatch(table[1..], l)
      case None => None
      case Some(k) => Some(k + 1)
  }

  /** Python's truth value of a JSON value. */
  predicate Truthy(v: Value) {
    match v
    case Null => false
    case Bool(b) => b
    case Num(n) => n != 0.0
    case Str(s) => |s| > 0
    case List(items) => |items| > 0
    case Obj(fields) => |fields| > 0
  }

  /** What the remote database answered: a failed request (an HTTP error or
      an undecodable body) or a decoded JSON body. */
  datatype Reply = RequestFailed | Answer(data: Value)

  /** `item.get(key, default)`. */
  function FieldOr(item: Object, key: string, default: real): Value {
    if key in item then item[key] else Num(default)
  }

  /** Each field of `f` is the food's value for the matching database key,
      or the default's value when the food has no such key. */
  predicate ReadFrom(f: Facts, food: Object) {
    && f.calories == (if "nf_calories" in food then food["nf_calories"] else Default.calories)
    && f.protein == (if "nf_protein" in food then food["nf_protein"] else Default.protein)
    && f.carbs == (if "nf_total_carbohydrate" in food then food["nf_total_carbohydrate"] else Default.carbs)
    && f.fat == (if "nf_total_fat" in food then food["nf_total_fat"] else Default.fat)
  }

  /** The answer's `foods` entry, when the answer is a dictionary holding one. */
  function Foods(reply: Reply): Option<Value> {
    if reply.Answer? && reply.data.Obj? && "foods" in reply.data.fields then Some(reply.data.fields["foods"])
    else None
  }

  /** Python's `"foods" in data` for a decoded body: a key of a dictionary,
      an element of a list, a substring of a string; `None` where `in`
      raises `TypeError` (null, a boolean, a number). */
  function MentionsFoods(data: Value): Option<bool> {
    match data
    case Obj(fields) => Some("foods" in fields)
    case List(items) => Some(Str("foods") in items)
    case Str(s) => Some(Contains(s, "foods"))
    case _ => None
  }

  /** The nutrition record read from the database's answer: the first food,
      field by field with the default's values for missing fields. Only a
      failed request is caught: a body that `in` rejects, a list or string
      body mentioning "foods" (which `data["foods"]` then rejects), and a
      first "food" that is not a dictionary all raise. */
  function FromReply(reply: Reply): (r: Result<Facts>)
    ensures reply.RequestFailed? ==> r == Ok(Default)
    ensures reply.Answer? && (reply.data.Null? || reply.data.Bool? || reply.data.Num?) ==> r.Err?
    ensures reply.Answer? && reply.data.List? ==>
              (r.Err? <==> Str("foods") in reply.data.items) && (r.Ok? ==> r.value == Default)
    ensures reply.Answer? && reply.data.Str? ==>
              (r.Err? <==> Contains(reply.data.s, "foods")) && (r.Ok? ==> r.value == Default)
    ensures reply.Answer? && reply.data.Obj? && Foods(reply).None? ==> r == Ok(Default)
    ensures Foods(reply).Some? && !Truthy(Foods(reply).value) ==> r == Ok(Default)
    ensures Foods(reply).Some? && Foods(reply).value.List? && |Foods(reply).value.items| > 0
            && Foods(reply).value.items[0].Obj? ==>
              r.Ok? && ReadFrom(r.value, Foods(reply).value.items[0].fields)
    ensures reply.Answer? && reply.data.Obj? ==>
              (r.Err? <==> Foods(reply).Some? && Truthy(Foods(reply).value)
                           && !(Foods(reply).value.List? && Foods(reply).value.items[0].Obj?))
  {
    match reply
    case RequestFailed => Ok(Default)
    case Answer(data) =>
      match MentionsFoods(data)
      case None => Err(NotKeyed("data"))
      case Some(false) => Ok(Default)
      case Some(true) =>
        if !data.Obj? then Err(NotKeyed("data"))
        else if !Truthy(data.fields["foods"]) then Ok(Default)
        else
          var foods := data.fields["foods"];
          if foods.List? && foods.items[0].Obj? then
            var item := foods.items[0].fields;
            Ok(Facts(FieldOr(item, "nf_calories", 300.0), FieldOr(item, "nf_protein", 20.0),
                     FieldOr(item, "nf_total_carbohydrate", 30.0), FieldOr(item, "nf_total_fat", 10.0)))
          else
            Err(NotMapping("foods"))
  }

  /** `_fetch_nutrition`: a table hit wins, in table order; otherwise the
      default when a credential is missing, else the database's answer. */
  function FetchNutrition(meal: string, appId: string, apiKey: string, reply: Reply): (r: Result<Facts>)
    ensures FirstMatch(Estimates, Lower(meal)).Some? ==>
              r == Ok(FromMacros(Estimates[FirstMatch(Estimates, Lower(meal)).value].macros))
    ensures FirstMatch(Estimates, Lower(meal)).None? && (appId == "" || apiKey == "") ==> r == Ok(Default)
    ensures FirstMatch(Estimates, Lower(meal)).None? && appId != "" && apiKey != "" ==> r == FromReply(reply)
  {
    match FirstMatch(Estimates, Lower(meal))
    case Some(i) => Ok(FromMacros(Estimates[i].macros))
    case None =>
      if appId == "" || apiKey == "" then Ok(Default)
      else FromReply(reply)
  }

  /** The result is an error only when the database was asked and answered
      with a body that mentions "foods" or cannot be asked whether it does;
      a dictionary body then has a truthy `foods`. */
  lemma FetchErrors(meal: string, appId: string, apiKey: string, reply: Reply)
    requires FetchNutrition(meal, appId, apiKey, reply).Err?
    ensures FirstMatch(Estimates, Lower(meal)).None? && appId != "" && apiKey != ""
    ensures reply.Answer? && MentionsFoods(reply.data) != Some(false)
    ensures reply.data.Obj? ==> "foods" in reply.data.fields && Truthy(reply.data.fields["foods"])
  {
  }

  /** A meal that names a table row gets that row's values whatever the
      credentials and the database say. */
  lemma TableHitIgnoresRemote(meal: string, appId: string, apiKey: string, reply: Reply, a: string, b: string, i: nat)
    requires i < |Estimates|
    requires Lower(meal) == a + Estimates[i].meal + b
    ensures FetchNutrition(meal, appId, apiKey, reply).Ok?
    ensures exists j :: 0 <= j <= i && FetchNutrition(meal, appId, apiKey, reply) == Ok(FromMacros(Estimates[j].macros))
  {
    Occurs(a, Estimates[i].meal, b);
  }

  /** Table order, not position in the text, decides: a meal naming the
      salmon row before the omelette row gets the omelette's values. */
  lemma TableOrderWins(meal: string, appId: string, apiKey: string, reply: Reply, a: string, b: string, c: string)
    requires Lower(meal) == a + Estimates[4].meal + b + Estimates[0].meal + c
    ensures FetchNutrition(meal, appId, apiKey, reply) == Ok(FromMacros(Macros(731.82, 29.76, 33.04, 55.94)))
  {
    Occurs(a + Estimates[4].meal + b, Estimates[0].meal, c);
  }

  // ---------------------------------------------------------------------
  // The prompt

  const FishOnlyText := "All meals must include fish as the primary protein source."
  const VegetarianText := "All meals must be vegetarian (no meat, fish, or poultry)."

  /** The dietary restriction: fish as the protein source takes precedence
      over a vegetarian diet; a `dietary_preferences` value that is not a
      dictionary makes `.get` raise. */
  function Restriction(profile: Object): (r: Result<string>)
    ensures r.Err? <==> ObjectOr(profile, "dietary_preferences").Err?
    ensures r.Ok? ==> var prefs := ObjectOr(profile, "dietary_preferences").value;
              && (r.value == FishOnlyText <==> HasText(prefs, "protein_source", "fish"))
              && (r.value == VegetarianText <==>
                    !HasText(prefs, "protein_source", "fish") && HasText(prefs, "diet_type", "vegetarian"))
              && (r.value == "" <==>
                    !HasText(prefs, "protein_source", "fish") && !HasText(prefs, "diet_type", "vegetarian"))
  {
    var prefs :- ObjectOr(profile, "dietary_preferences");
    assert |FishOnlyText| == 58 && |VegetarianText| == 57;
    if HasText(prefs, "protein_source", "fish") then Ok(FishOnlyText)
    else if HasText(prefs, "diet_type", "vegetarian") then Ok(VegetarianText)
    else Ok("")
  }

  /** One entry of the nutrition agent's feedback list. */
  datatype StoredFeedback = StoredFeedback(user: string, feedback: string)

  /** `store_feedback`: append an entry. */
  function StoreFeedback(store: seq<StoredFeedback>, user: string, feedback: string): (r: seq<StoredFeedback>)
    ensures |r| == |store| + 1 && r[..|store|] == store
    ensures r[|store|].user == user && r[|store|].feedback == feedback
  {
    store + [StoredFeedback(user, feedback)]
  }

  /** The profile's `name` when it is a string; any other value equals no
      stored user. */
  function UserName(profile: Object): Option<string> {
    if "name" in profile && profile["name"].Str? then Some(profile["name"].s) else None
  }

  /** The feedback texts stored under `name`, in stored order. */
  function PastFeedback(store: seq<StoredFeedback>, name: Option<string>): (r: seq<string>)
    ensures |r| <= |store|
    ensures forall fb :: fb in r ==> exists i :: 0 <= i < |store| && Some(store[i].user) == name && store[i].feedback == fb
    ensures forall i :: 0 <= i < |store| && Some(store[i].user) == name ==> store[i].feedback in r
    decreases |store|
  {
    if |store| == 0 then []
    else
      var rest := PastFeedback(store[..|store| - 1], name);
      var last := store[|store| - 1];
      assert forall i :: 0 <= i < |store| - 1 ==> store[..|store| - 1][i] == store[i];
      rest + (if Some(last.user) == name then [last.feedback] else [])
  }

  /** Every part occurs in the joined string. */
  lemma {:induction false} JoinContainsParts(parts: seq<string>, sep: string, i: nat)
    requires i < |parts|
    ensures Contains(Join(parts, sep), parts[i])
    decreases |parts|
  {
    if |parts| == 1 {
      assert Contains(Join(parts, sep), parts[i]) by {
        assert Join(parts, sep) == "" + parts[0] + "";
        Occurs("", parts[0], "");
      }
    } else if i == 0 {
      assert Contains(Join(parts, sep), parts[i]) by {
        assert Join(parts, sep) == "" + parts[0] + (sep + Join(parts[1..], sep));
        Occurs("", parts[0], sep + Join(parts[1..], sep));
      }
    } else {
      JoinContainsParts(parts[1..], sep, i - 1);
      assert Contains(Join(parts, sep), parts[i]) by {
        assert parts[1..][i - 1] == parts[i];
        assert Join(parts, sep) == (parts[0] + sep) + Join(parts[1..], sep) + "";
        ContainsInExtension(parts[0] + sep, Join(parts[1..], sep), "", parts[i]);
      }
    }
  }

  /** The text appended to the preferences for the given past feedback. */
  function Appended(past: seq<string>): string {
    " Past feedback: " + Join(past, "; ")
  }

  /** The one-character strings a `list += str` appends, one per character. */
  function Chars(s: string): (r: seq<Value>)
    ensures |r| == |s|
    ensures forall i :: 0 <= i < |s| ==> r[i] == Str([s[i]])
  {
    seq(|s|, i requires 0 <= i < |s| => Str([s[i]]))
  }

  /** The `preferences` the prompt receives: the profile's
      `meal_preference`, with the user's past feedback appended when there
      is any. `+=` extends a string by the text and a list by the text's
      characters, and raises for any other value. */
  function Preferences(profile: Object, store: seq<StoredFeedback>): (r: Result<Value>)
    ensures var base := if "meal_preference" in profile then profile["meal_preference"] else Str("");
            var past := PastFeedback(store, UserName(profile));
            && (|past| == 0 ==> r == Ok(base))
            && (|past| > 0 ==> (r.Ok? <==> base.Str? || base.List?))
            && (|past| > 0 && base.Str? ==>
                  r.Ok? && r.value.Str? && |r.value.s| == |base.s| + |Appended(past)|
                  && r.value.s[..|base.s|] == base.s && r.value.s[|base.s|..] == Appended(past))
            && (|past| > 0 && base.List? ==>
                  r.Ok? && r.value.List? && |r.value.items| == |base.items| + |Appended(past)|
                  && r.value.items[..|base.items|] == base.items
                  && forall i :: 0 <= i < |Appended(past)| ==> r.value.items[|base.items| + i] == Str([Appended(past)[i]]))
    ensures r.Err? ==> r.error == NotText("meal_preference")
  {
    var base := if "meal_preference" in profile then profile["meal_preference"] else Str("");
    var past := PastFeedback(store, UserName(profile));
    if |past| == 0 then Ok(base)
    else if base.Str? then Ok(Str(base.s + Appended(past)))
    else if base.List? then Ok(List(base.items + Chars(Appended(past))))
    else Err(NotText("meal_preference"))
  }

  /** Every feedback the user stored is in the appended text, and so in the
      prompt's preferences when they are text. */
  lemma PastFeedbackInPrompt(profile: Object, store: seq<StoredFeedback>, i: nat)
    requires i < |store| && Some(store[i].user) == UserName(profile)
    ensures Contains(Appended(PastFeedback(store, UserName(profile))), store[i].feedback)
    ensures Preferences(profile, store).Ok? && Preferences(profile, store).value.Str? ==>
              Contains(Preferences(profile, store).value.s, store[i].feedback)
  {
    var base := if "meal_preference" in profile then profile["meal_preference"] else Str("");
    var past := PastFeedback(store, UserName(profile));
    var k :| 0 <= k < |past| && past[k] == store[i].feedback;
    JoinContainsParts(past, "; ", k);
    ContainsInExtension(" Past feedback: ", Join(past, "; "), "", store[i].feedback);
    assert " Past feedback: " + Join(past, "; ") + "" == Appended(past);
    if base.Str? {
      ContainsInExtension(base.s, Appended(past), "", store[i].feedback);
      assert base.s + Appended(past) + "" == base.s + Appended(past);
    }
  }

  /** Storing an entry appends its text to that user's past feedback and
      leaves every other user's past feedback as it was. */
  lemma PastFeedbackAfterStore(store: seq<StoredFeedback>, user: string, feedback: string, name: Option<string>)
    ensures PastFeedback(StoreFeedback(store, user, feedback), name)
            == PastFeedback(store, name) + (if Some(user) == name then [feedback] else [])
  {
    var after := StoreFeedback(store, user, feedback);
    assert after[..|after| - 1] == store;
  }

  /** The appended text ends with the newest feedback. */
  lemma AppendedEndsWith(past: seq<string>, feedback: string)
    ensures |Appended(past + [feedback])| >= |feedback|
    ensures Appended(past + [feedback])[|Appended(past + [feedback])| - |feedback|..] == feedback
  {
    var t := Appended(past + [feedback]);
    if |past| > 0 {
      JoinAppend(past, feedback, "; ");
      assert t == (" Past feedback: " + Join(past, "; ") + "; ") + feedback;
    } else {
      assert past + [feedback] == [feedback];
      assert t == " Past feedback: " + feedback;
    }
  }

  /** Feedback that was just stored ends the preferences of the next plan. */
  lemma StoredFeedbackEndsPrompt(profile: Object, store: seq<StoredFeedback>, name: string, feedback: string)
    requires UserName(profile) == Some(name)
    requires "meal_preference" in profile ==> profile["meal_preference"].Str?
    ensures var r := Preferences(profile, StoreFeedback(store, name, feedback));
            && r.Ok? && r.value.Str?
            && |r.value.s| >= |feedback|
            && r.value.s[|r.value.s| - |feedback|..] == feedback
  {
    var past := PastFeedback(store, Some(name));
    PastFeedbackAfterStore(store, name, feedback, Some(name));
    AppendedEndsWith(past, feedback);
    var base := if "meal_preference" in profile then profile["meal_preference"] else Str("");
    var t := Appended(past + [feedback]);
    var s := Preferences(profile, StoreFeedback(store, name, feedback)).value.s;
    assert s == base.s + t;
    assert s[|s| - |feedback|..] == t[|t| - |feedback|..];
  }

  // ---------------------------------------------------------------------
  // The meal plan

  const MealTypes: seq<string> := ["Breakfast", "Morning Snack", "Lunch", "Afternoon Snack", "Dinner"]

  function StripAll(lines: seq<string>): (r: seq<string>)
    ensures |r| == |lines|
    ensures forall i :: 0 <= i < |lines| ==> r[i] == Strip(lines[i])
  {
    seq(|lines|, i requires 0 <= i < |lines| => Strip(lines[i]))
  }

  function NonEmptyPred(): string -> bool {
    s => |s| > 0
  }

  /** The reply's non-blank lines, stripped. */
  function NonBlankLines(response: string): seq<string> {
    Filter(StripAll(Split(response, '\n')), NonEmptyPred())
  }

  /** `[m.strip() for m in response.split('\n') if m.strip()][:5]`. */
  function Descriptions(response: string): (r: seq<string>)
    ensures |r| == if |NonBlankLines(response)| < 5 then |NonBlankLines(response)| else 5
    ensures r == NonBlankLines(response)[..|r|]
    ensures forall i :: 0 <= i < |r| ==>
              && |r[i]| > 0 && !IsSpace(r[i][0]) && !IsSpace(r[i][|r[i]| - 1])
              && exists line :: line in Split(response, '\n') && r[i] == Strip(line)
  {
    var lines := NonBlankLines(response);
    var r := PyHead(lines, 5);
    forall i | 0 <= i < |r|
      ensures |r[i]| > 0 && exists line :: line in Split(response, '\n') && r[i] == Strip(line)
    {
      assert r[i] in lines;
      var k :| 0 <= k < |StripAll(Split(response, '\n'))| && StripAll(Split(response, '\n'))[k] == r[i];
      assert Split(response, '\n')[k] in Split(response, '\n');
    }
    r
  }

  /** A reply written as one meal per line, without blank lines or padding,
      gives back its first five meals. */
  lemma DescriptionsOfLines(meals: seq<string>)
    requires |meals| >= 1
    requires forall i :: 0 <= i < |meals| ==>
               |meals[i]| > 0 && '\n' !in meals[i] && !IsSpace(meals[i][0]) && !IsSpace(meals[i][|meals[i]| - 1])
    ensures Descriptions(Join(meals, "\n")) == PyHead(meals, 5)
  {
    SplitJoin(meals, '\n');
    forall i | 0 <= i < |meals|
      ensures Strip(meals[i]) == meals[i]
    {
      StripStripped(meals[i]);
    }
    assert StripAll(meals) == meals;
    FilterAllPass(meals, NonEmptyPred());
  }

  /** One meal of the plan. */
  datatype Meal = Meal(kind: string, description: string, facts: Facts)

  /** The nutrition of one described meal, asking the database with the
      description as the query. */
  function Lookup(description: string, appId: string, apiKey: string, reply: string -> Reply): Result<Facts> {
    FetchNutrition(description, appId, apiKey, reply(description))
  }

  /** The lookup as a function of the description alone. */
  function LookupWith(appId: string, apiKey: string, reply: string -> Reply): string -> Result<Facts> {
    description => Lookup(description, appId, apiKey, reply)
  }

  /** The `zip` of meal types and descriptions, each with its nutrition;
      the first failing lookup aborts the plan. */
  function Meals(kinds: seq<string>, descriptions: seq<string>, lookup: string -> Result<Facts>): (r: Result<seq<Meal>>)
    ensures r.Ok? <==> forall i :: 0 <= i < |kinds| && i < |descriptions| ==> lookup(descriptions[i]).Ok?
    ensures r.Ok? ==> |r.value| == (if |kinds| < |descriptions| then |kinds| else |descriptions|)
    ensures r.Ok? ==> forall i :: 0 <= i < |r.value| ==>
                        && r.value[i].kind == kinds[i]
                        && r.value[i].description == descriptions[i]
                        && Ok(r.value[i].facts) == lookup(descriptions[i])
    decreases |kinds|
  {
    if |kinds| == 0 || |descriptions| == 0 then Ok([])
    else
      var facts :- lookup(descriptions[0]);
      var rest :- Meals(kinds[1..], descriptions[1..], lookup);
      Ok([Meal(kinds[0], descriptions[0], facts)] + rest)
  }

  /** The values the prompt is filled with. */
  datatype Prompt = Prompt(goal: Value, level: Value, preferences: Value, restrictions: string)

  datatype MealPlan = MealPlan(prompt: Prompt, meals: seq<Meal>)

  /** `m.get(key, default)`. */
  function ValueOr(m: Object, key: string, default: Value): Value {
    if key in m then m[key] else default
  }

  /** `generate_meal_plan`, given the model's reply to the prompt and the
      database's reply to each meal. */
  function GenerateMealPlan(profile: Object, store: seq<StoredFeedback>, response: string,
                            appId: string, apiKey: string, reply: string -> Reply): (r: Result<MealPlan>)
    ensures Restriction(profile).Err? ==> r == Err(Restriction(profile).error)
    ensures Restriction(profile).Ok? && Preferences(profile, store).Err? ==> r == Err(Preferences(profile, store).error)
    ensures r.Ok? ==> r.value.prompt.restrictions == Restriction(profile).value
                      && r.value.prompt.preferences == Preferences(profile, store).value
    ensures r.Ok? <==> && Restriction(profile).Ok? && Preferences(profile, store).Ok?
                       && forall i :: 0 <= i < |Descriptions(response)| ==>
                            Lookup(Descriptions(response)[i], appId, apiKey, reply).Ok?
    ensures r.Ok? ==> r.value.prompt.goal == ValueOr(profile, "goal", Str("maintain health"))
                      && r.value.prompt.level == ValueOr(profile, "level", Str("beginner"))
    ensures r.Ok? ==> |r.value.meals| == |Descriptions(response)| <= 5
                      && forall i :: 0 <= i < |r.value.meals| ==>
                           r.value.meals[i].kind == MealTypes[i]
                           && r.value.meals[i].description == Descriptions(response)[i]
                           && Ok(r.value.meals[i].facts) == Lookup(Descriptions(response)[i], appId, apiKey, reply)
  {
    var restrictions :- Restriction(profile);
    var preferences :- Preferences(profile, store);
    var meals :- Meals(MealTypes, Descriptions(response), LookupWith(appId, apiKey, reply));
    Ok(MealPlan(Prompt(ValueOr(profile, "goal", Str("maintain health")), ValueOr(profile, "level", Str("beginner")),
                       preferences, restrictions), meals))
  }

  /** Without credentials every meal gets a plan entry: the lookup cannot
      fail, so the plan has one meal per non-blank line, up to five. */
  lemma NoCredentialsNeverFails(profile: Object, store: seq<StoredFeedback>, response: string,
                                apiKey: string, reply: string -> Reply)
    requires Restriction(profile).Ok? && Preferences(profile, store).Ok?
    ensures GenerateMealPlan(profile, store, response, "", apiKey, reply).Ok?
    ensures |GenerateMealPlan(profile, store, response, "", apiKey, reply).value.meals|
            == if |NonBlankLines(response)| < 5 then |NonBlankLines(response)| else 5
  {
    var d := Descriptions(response);
    forall i | 0 <= i < |MealTypes| && i < |d|
      ensures Lookup(d[i], "", apiKey, reply).Ok?
    {
      LookupWithoutCredentials(d[i], apiKey, reply);
    }
    assert Meals(MealTypes, d, LookupWith("", apiKey, reply)).Ok?;
  }

  /** Without an application id the database is never asked. */
  lemma LookupWithoutCredentials(description: string, apiKey: string, reply: string -> Reply)
    ensures Lookup(description, "", apiKey, reply).Ok?
  {
  }
}
