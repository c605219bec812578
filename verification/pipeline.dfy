/** How the agents' outputs feed each other (agents/orchestrator.py): the
    feedback patch merged into the profile steers the meal plan's
    restriction, and the coordinator's resolutions narrow the exercise
    list. The orchestrator's call of the coordinator is modelled twice: as
    written, and with the feedback text under the key the coordinator
    reads. */
module Pipeline {
  import opened Values
  import opened Text
  import opened Seqs
  import Feedback
  import Coordinator
  import Workout
  import Nutrition

  /** `{**profile, **patch}`: the patch's keys win, the others keep their
      values. */
  function Merge(profile: Object, patch: Object): (r: Object)
    ensures r.Keys == profile.Keys + patch.Keys
    ensures forall k :: k in patch ==> r[k] == patch[k]
    ensures forall k :: k in profile && k !in patch ==> r[k] == profile[k]
  {
    profile + patch
  }

  /** The meal-plan restriction after a diet action's patch is merged into
      the profile: the fish patch asks for fish, the vegetarian patch for
      vegetarian meals, the chicken and vegan patches for nothing (they
      replace the whole `dietary_preferences`), and the other actions leave
      the restriction as it was. */
  lemma RestrictionAfterPatch(profile: Object, a: Feedback.Action)
    ensures a == Feedback.FishOnlyMeals ==>
              Nutrition.Restriction(Merge(profile, Feedback.PatchFor(a))) == Ok(Nutrition.FishOnlyText)
    ensures a == Feedback.VegetarianMeals ==>
              Nutrition.Restriction(Merge(profile, Feedback.PatchFor(a))) == Ok(Nutrition.VegetarianText)
    ensures a == Feedback.ChickenOnlyMeals || a == Feedback.VeganMeals ==>
              Nutrition.Restriction(Merge(profile, Feedback.PatchFor(a))) == Ok("")
    ensures !Feedback.IsDietAction(a) ==>
              Nutrition.Restriction(Merge(profile, Feedback.PatchFor(a))) == Nutrition.Restriction(profile)
  {
    var merged := Merge(profile, Feedback.PatchFor(a));
    if !Feedback.IsDietAction(a) {
      assert "dietary_preferences" !in Feedback.PatchFor(a);
      assert ObjectOr(merged, "dietary_preferences") == ObjectOr(profile, "dietary_preferences");
    }
  }

  /** Feedback that the interpreter reads as "fish only" makes the next
      meal plan's prompt demand fish. */
  lemma FishFeedbackReachesMealPlan(profile: Object, text: string, timestamp: string)
    requires Feedback.Interpret(text, timestamp).suggestedAction == Some(Feedback.FishOnlyMeals)
    ensures Nutrition.Restriction(Merge(profile, Feedback.Interpret(text, timestamp).updatedProfile))
            == Ok(Nutrition.FishOnlyText)
  {
    RestrictionAfterPatch(profile, Feedback.FishOnlyMeals);
  }

  // ---------------------------------------------------------------------
  // Resolutions and the exercise list

  /** The resolutions as the dictionaries the workout agent receives. */
  function ResolutionObjects(out: Coordinator.Outcome): (r: seq<Object>)
    ensures |r| == |out.resolutions|
    ensures forall i :: 0 <= i < |r| ==> r[i] == Coordinator.ResolutionObject(out.resolutions[i])
  {
    seq(|out.resolutions|, i requires 0 <= i < |out.resolutions| => Coordinator.ResolutionObject(out.resolutions[i]))
  }

  /** What each rule's resolution asks of an exercise. */
  predicate Narrowed(rule: Coordinator.Rule, row: Workout.Row) {
    match rule
    case InjuryVsIntensity => Workout.Risk(row) == "low" || Workout.Risk(row) == "medium"
    case ConditionVsIntensity => Workout.Difficulty(row) == "beginner"
    case WeatherVsOutdoor =>
      Workout.Equipment(row) != "none" || Workout.Name(row) in ["yoga", "push-ups", "squats"]
  }

  /** The narrowing a single rule's resolution applies. */
  lemma ResolutionNarrows(rule: Coordinator.Rule, row: Workout.Row)
    requires Workout.AdjustmentOk(Coordinator.ResolutionObject(Coordinator.ResolutionFor(rule)), row)
    ensures Narrowed(rule, row)
  {
    assert |Coordinator.LowImpactAdjustment| == 51;
    assert |Coordinator.LowIntensityAdjustment| == 31;
    assert |Coordinator.IndoorAdjustment| == 23;
  }

  /** Every exercise that survives the resolutions of a rule that fired
      meets that rule's narrowing: no high-risk exercise after an injury
      conflict, only beginner exercises after a health-condition conflict,
      only indoor-capable exercises after a weather conflict. */
  lemma FiredRuleNarrowsWorkout(feedback: string, health: string, catalogue: seq<Workout.Row>,
                                level: string, prefs: string, rule: Coordinator.Rule, row: Workout.Row)
    requires Coordinator.Fires(rule, feedback, health)
    requires row in Workout.Select(catalogue, level, prefs, ResolutionObjects(Coordinator.Resolve(feedback, health)))
    ensures Narrowed(rule, row)
    ensures row in catalogue
  {
    var out := Coordinator.Resolve(feedback, health);
    var objects := ResolutionObjects(out);
    Coordinator.ResolutionIffFires(feedback, health, rule);
    var i :| 0 <= i < |out.resolutions| && out.resolutions[i] == Coordinator.ResolutionFor(rule);
    Workout.SelectSpec(catalogue, level, prefs, objects);
    assert Workout.AdjustmentOk(objects[i], row);
    ResolutionNarrows(rule, row);
  }

  // ---------------------------------------------------------------------
  // The coordinator call

  /** The dictionary `process_feedback` returns, as the orchestrator holds it. */
  function ResultObject(r: Feedback.FeedbackResult): (o: Object)
    ensures "feedback" !in o
    ensures HasText(o, "feedback_text", r.feedbackText)
  {
    map["stored" := Bool(r.stored),
        "feedback_text" := Str(r.feedbackText),
        "timestamp" := Str(r.timestamp),
        "suggested_action" := (match r.suggestedAction case Some(a) => Str(Feedback.Tag(a)) case None => Null),
        "adjustments_needed" := Bool(r.adjustmentsNeeded),
        "nutrition_adjustment" := Bool(r.nutritionAdjustment),
        "workout_adjustment" := Bool(r.workoutAdjustment),
        "updated_profile" := Obj(r.updatedProfile),
        "meal_preferences" := (match r.mealPreferences case Some(m) => Obj(m) case None => Null)]
  }

  /** No feedback patch touches `health_info`. */
  lemma PatchKeepsHealthInfo(text: string, timestamp: string)
    ensures "health_info" !in Feedback.Interpret(text, timestamp).updatedProfile
  {
    var r := Feedback.Interpret(text, timestamp);
    if r.suggestedAction.Some? {
      assert "health_info" !in Feedback.PatchFor(r.suggestedAction.value);
    }
  }

  /** The coordinator call as the orchestrator makes it: the profile with
      the patch merged in, and the feedback result, whose text sits under
      `feedback_text`. */
  function ResolveAsCalled(profile: Object, result: Feedback.FeedbackResult): Result<Coordinator.Outcome> {
    Coordinator.ResolveConflicts(Some(Merge(profile, result.updatedProfile)), Some(ResultObject(result)))
  }

  /** As called, the coordinator reads an empty feedback text, so no rule
      ever fires, whatever the user wrote. */
  lemma AsCalledNeverConflicts(profile: Object, result: Feedback.FeedbackResult)
    requires "health_info" !in result.updatedProfile
    ensures ResolveAsCalled(profile, result).Ok? <==> TextOr(profile, "health_info", "").Ok?
    ensures ResolveAsCalled(profile, result).Ok? ==> ResolveAsCalled(profile, result).value == Coordinator.Outcome([], [], "none")
  {
    assert TextOr(Merge(profile, result.updatedProfile), "health_info", "") == TextOr(profile, "health_info", "");
    assert TextOr(ResultObject(result), "feedback", "") == Ok("");
    var l := Lower("");
    MissingCharNotContained(l, Coordinator.HighIntensity, 0);
    MissingCharNotContained(l, "outdoor", 0);
    if TextOr(profile, "health_info", "").Ok? {
      assert Coordinator.Fired(l, Lower(TextOr(profile, "health_info", "").value)) == [];
    }
  }

  /** The coordinator call with the feedback text under the key the
      coordinator reads. */
  function ResolveIntended(profile: Object, result: Feedback.FeedbackResult): Result<Coordinator.Outcome> {
    Coordinator.ResolveConflicts(Some(Merge(profile, result.updatedProfile)),
                                 Some(map["feedback" := Str(result.feedbackText)]))
  }

  /** With the text passed on, the rules see what the user wrote against the
      profile's health information. */
  lemma IntendedSeesFeedback(profile: Object, result: Feedback.FeedbackResult)
    requires "health_info" !in result.updatedProfile
    ensures ResolveIntended(profile, result).Ok? <==> TextOr(profile, "health_info", "").Ok?
    ensures ResolveIntended(profile, result).Ok? ==>
              ResolveIntended(profile, result).value
              == Coordinator.Resolve(Lower(result.feedbackText), Lower(TextOr(profile, "health_info", "").value))
  {
    assert TextOr(Merge(profile, result.updatedProfile), "health_info", "") == TextOr(profile, "health_info", "");
  }

  /** "high intensity" from a user with an injury and asthma: as called,
      nothing is resolved; with the text passed on, both intensity rules
      fire. */
  lemma InjuryFeedbackIgnored(timestamp: string)
    ensures ResolveAsCalled(map["health_info" := Str("injury, asthma")], Feedback.Interpret("high intensity", timestamp))
            == Ok(Coordinator.Outcome([], [], "none"))
    ensures ResolveIntended(map["health_info" := Str("injury, asthma")], Feedback.Interpret("high intensity", timestamp))
            == Coordinator.ResolveConflicts(Some(map["health_info" := Str("injury, asthma")]),
                                            Some(map["feedback" := Str("high intensity")]))
    ensures ResolveIntended(map["health_info" := Str("injury, asthma")], Feedback.Interpret("high intensity", timestamp))
            .value.conflicts
            == [Coordinator.ConflictText(Coordinator.InjuryVsIntensity),
                Coordinator.ConflictText(Coordinator.ConditionVsIntensity)]
  {
    var profile := map["health_info" := Str("injury, asthma")];
    var result := Feedback.Interpret("high intensity", timestamp);
    PatchKeepsHealthInfo("high intensity", timestamp);
    AsCalledNeverConflicts(profile, result);
    IntendedSeesFeedback(profile, result);
    Coordinator.InjuryAndAsthmaExample();
  }
}
