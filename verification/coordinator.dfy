/** The conflict resolver of the coordinator agent
    (agents/coordinator_agent.py): three independent keyword rules that set
    the feedback text against the profile's health information. */
module Coordinator {
  import opened Values
  import opened Text
  import opened Seqs

  const HighIntensity := "high intensity"

  /** The three conflict rules, in the order they are checked. */
  datatype Rule =
    | InjuryVsIntensity     // R1
    | ConditionVsIntensity  // R2
    | WeatherVsOutdoor      // R3

  const RuleOrder: seq<Rule> := [InjuryVsIntensity, ConditionVsIntensity, WeatherVsOutdoor]

  datatype Priority = High | Medium

  /** One entry of `resolutions`. */
  datatype Resolution = Resolution(adjustment: string, safeFallback: string, priority: Priority)

  /** The adjustment texts the workout agent recognises. */
  const LowImpactAdjustment := "Decrease intensity and suggest low-impact exercises"
  const LowIntensityAdjustment := "Suggest low-intensity exercises"
  const IndoorAdjustment := "Suggest indoor workouts"

  function ConflictText(rule: Rule): string {
    match rule
    case InjuryVsIntensity => "Increase intensity conflicts with injury status"
    case ConditionVsIntensity => "High-intensity workout conflicts with health condition"
    case WeatherVsOutdoor => "Outdoor workout conflicts with weather conditions"
  }

  function ResolutionFor(rule: Rule): Resolution {
    match rule
    case InjuryVsIntensity =>
      Resolution(LowImpactAdjustment, "Swap high-impact exercises with cycling or swimming", High)
    case ConditionVsIntensity =>
      Resolution(LowIntensityAdjustment, "Replace running with walking or yoga", High)
    case WeatherVsOutdoor =>
      Resolution(IndoorAdjustment, "Replace outdoor running with treadmill or indoor cycling", Medium)
  }

  /** Whether a rule fires, given the lower-cased feedback text and the
      lower-cased health information. */
  predicate Fires(rule: Rule, feedback: string, health: string) {
    match rule
    case InjuryVsIntensity => Contains(feedback, HighIntensity) && Contains(health, "injury")
    case ConditionVsIntensity =>
      Contains(feedback, HighIntensity) && (Contains(health, "heart_condition") || Contains(health, "asthma"))
    case WeatherVsOutdoor =>
      Contains(feedback, "outdoor") && (Contains(feedback, "rain") || Contains(feedback, "extreme_heat"))
  }

  /** The dictionary `resolve_conflicts` returns (without the free-text
      `dynamic_rules`, which comes from the language model). */
  datatype Outcome = Outcome(conflicts: seq<string>, resolutions: seq<Resolution>, status: string)

  /** Position of a rule in the checking order. */
  function Rank(rule: Rule): nat {
    match rule
    case InjuryVsIntensity => 0
    case ConditionVsIntensity => 1
    case WeatherVsOutdoor => 2
  }

  /** The rules that fire, in checking order. Every rule is checked: none
      of them stops the others. */
  function Fired(feedback: string, health: string): (rules: seq<Rule>)
    ensures forall rule :: rule in rules <==> Fires(rule, feedback, health)
    ensures forall i, j :: 0 <= i < j < |rules| ==> Rank(rules[i]) < Rank(rules[j])
    ensures |rules| <= 3
  {
    (if Fires(InjuryVsIntensity, feedback, health) then [InjuryVsIntensity] else [])
    + (if Fires(ConditionVsIntensity, feedback, health) then [ConditionVsIntensity] else [])
    + (if Fires(WeatherVsOutdoor, feedback, health) then [WeatherVsOutdoor] else [])
  }

  /** Different rules give different resolutions. */
  lemma ResolutionsDistinct(a: Rule, b: Rule)
    requires a != b
    ensures ResolutionFor(a) != ResolutionFor(b)
  {
    // the adjustment texts differ in length
    assert |LowImpactAdjustment| == 51 && |LowIntensityAdjustment| == 31 && |IndoorAdjustment| == 23;
  }

  /** Different rules give different conflict texts. */
  lemma ConflictTextsDistinct(a: Rule, b: Rule)
    requires a != b
    ensures ConflictText(a) != ConflictText(b)
  {
    assert |ConflictText(InjuryVsIntensity)| == 47;
    assert |ConflictText(ConditionVsIntensity)| == 54;
    assert |ConflictText(WeatherVsOutdoor)| == 49;
  }

  /** The three rule checks on already lower-cased texts: one conflict and
      one resolution per rule that fires, in rule order. */
  function Resolve(feedback: string, health: string): (r: Outcome)
    ensures |r.conflicts| == |r.resolutions| == |Fired(feedback, health)|
    ensures forall i :: 0 <= i < |r.resolutions| ==>
              r.conflicts[i] == ConflictText(Fired(feedback, health)[i])
              && r.resolutions[i] == ResolutionFor(Fired(feedback, health)[i])
    ensures r.status == (if |r.resolutions| > 0 then "resolved" else "none")
  {
    var fired := Fired(feedback, health);
    var conflicts := seq(|fired|, i requires 0 <= i < |fired| => ConflictText(fired[i]));
    var resolutions := seq(|fired|, i requires 0 <= i < |fired| => ResolutionFor(fired[i]));
    Outcome(conflicts, resolutions, if |resolutions| > 0 then "resolved" else "none")
  }

  /** A rule's resolution is among the resolutions exactly when the rule fires. */
  lemma ResolutionIffFires(feedback: string, health: string, rule: Rule)
    ensures ResolutionFor(rule) in Resolve(feedback, health).resolutions <==> Fires(rule, feedback, health)
  {
    var fired := Fired(feedback, health);
    var res := Resolve(feedback, health).resolutions;
    if rule in fired {
      var i :| 0 <= i < |fired| && fired[i] == rule;
      assert res[i] == ResolutionFor(rule);
    } else {
      forall i | 0 <= i < |fired|
        ensures res[i] != ResolutionFor(rule)
      {
        ResolutionsDistinct(fired[i], rule);
      }
    }
  }

  /** A rule's conflict is reported exactly when the rule fires. */
  lemma ConflictIffFires(feedback: string, health: string, rule: Rule)
    ensures ConflictText(rule) in Resolve(feedback, health).conflicts <==> Fires(rule, feedback, health)
  {
    var fired := Fired(feedback, health);
    var con := Resolve(feedback, health).conflicts;
    if rule in fired {
      var i :| 0 <= i < |fired| && fired[i] == rule;
      assert con[i] == ConflictText(rule);
    } else {
      forall i | 0 <= i < |fired|
        ensures con[i] != ConflictText(rule)
      {
        ConflictTextsDistinct(fired[i], rule);
      }
    }
  }

  /** A high-priority resolution needs "high intensity" in the feedback. */
  lemma HighPriorityNeedsHighIntensity(feedback: string, health: string, i: nat)
    requires i < |Resolve(feedback, health).resolutions|
    requires Resolve(feedback, health).resolutions[i].priority == High
    ensures Contains(feedback, HighIntensity)
  {
    var rule := Fired(feedback, health)[i];
    assert rule in Fired(feedback, health);
  }

  /** `resolve_conflicts`: an empty argument is an empty dictionary, and so,
      in this model, is an absent one (the source reads a whole data file
      instead); the feedback's `feedback` text and the profile's
      `health_info` are lower-cased (a non-string value raises) and the
      rules run on them. */
  function ResolveConflicts(profile: Option<Object>, feedback: Option<Object>): (r: Result<Outcome>)
    ensures r.Ok? <==> TextOr(feedback.GetOr(map[]), "feedback", "").Ok?
                       && TextOr(profile.GetOr(map[]), "health_info", "").Ok?
    ensures r.Ok? ==> r.value == Resolve(Lower(TextOr(feedback.GetOr(map[]), "feedback", "").value),
                                         Lower(TextOr(profile.GetOr(map[]), "health_info", "").value))
    ensures feedback.None? && r.Ok? ==> r.value.conflicts == [] && r.value.status == "none"
    ensures profile.None? && r.Ok? ==> forall i :: 0 <= i < |r.value.resolutions| ==> r.value.resolutions[i].priority == Medium
  {
    var p := profile.GetOr(map[]);
    var f := feedback.GetOr(map[]);
    match TextOr(f, "feedback", "")
    case Err(e) => Err(e)
    case Ok(action) =>
      match TextOr(p, "health_info", "")
      case Err(e) => Err(e)
      case Ok(health) =>
        var l := Lower(action);
        var h := Lower(health);
        if feedback.None? then
          MissingCharNotContained(l, HighIntensity, 0);
          MissingCharNotContained(l, "outdoor", 0);
          Ok(Resolve(l, h))
        else if profile.None? then
          MissingCharNotContained(h, "injury", 0);
          MissingCharNotContained(h, "heart_condition", 0);
          MissingCharNotContained(h, "asthma", 0);
          Ok(Resolve(l, h))
        else Ok(Resolve(l, h))
  }

  /** The resolution as the dictionary the workout agent receives. */
  function ResolutionObject(res: Resolution): (o: Object)
    ensures HasText(o, "adjustment", res.adjustment)
  {
    map["adjustment" := Str(res.adjustment), "safe_fallback" := Str(res.safeFallback),
        "priority" := Str(if res.priority == High then "high" else "medium")]
  }

  const RainText := "I want outdoor workout in the rain"

  /** Only the weather rule fires on the rain text with empty health information. */
  lemma RainTextFiresWeatherOnly()
    ensures Fired(Lower(RainText), Lower("")) == [WeatherVsOutdoor]
  {
    var l := "i want outdoor workout in the rain";
    assert Lower(RainText) == l;
    RainTextSignals(l);
  }

  lemma RainTextSignals(l: string)
    requires l == "i want outdoor workout in the rain"
    ensures Contains(l, "outdoor") && Contains(l, "rain") && !Contains(l, HighIntensity)
  {
    assert l == "i want " + "outdoor" + " workout in the rain";
    Occurs("i want ", "outdoor", " workout in the rain");
    assert l == "i want outdoor workout in the " + "rain" + "";
    Occurs("i want outdoor workout in the ", "rain", "");
    NoY(l);
  }

  lemma NoY(l: string)
    requires l == "i want outdoor workout in the rain"
    ensures !Contains(l, HighIntensity)
  {
    assert HighIntensity[13] == 'y';
    MissingCharNotContained(l, HighIntensity, 13);
  }

  /** Outdoor workout in the rain, with no health information: only R3. */
  lemma OutdoorRainExample()
    ensures ResolveConflicts(Some(map["health_info" := Str("")]), Some(map["feedback" := Str(RainText)]))
            == Ok(Outcome([ConflictText(WeatherVsOutdoor)], [ResolutionFor(WeatherVsOutdoor)], "resolved"))
  {
    RainTextFiresWeatherOnly();
    var o := Resolve(Lower(RainText), Lower(""));
    assert o.conflicts == [ConflictText(WeatherVsOutdoor)];
    assert o.resolutions == [ResolutionFor(WeatherVsOutdoor)];
  }

  /** R1 and R2, not R3, fire on "high intensity" against "injury, asthma". */
  lemma InjuryAsthmaFiresBoth()
    ensures Fired(Lower("high intensity"), Lower("injury, asthma")) == [InjuryVsIntensity, ConditionVsIntensity]
  {
    var l := Lower("high intensity");
    assert l == HighIntensity;
    assert l == "" + HighIntensity + "";
    Occurs("", HighIntensity, "");
    assert "outdoor"[1] == 'u';
    MissingCharNotContained(l, "outdoor", 1);
    InjuryAsthmaHealth(Lower("injury, asthma"));
  }

  lemma InjuryAsthmaHealth(h: string)
    requires h == Lower("injury, asthma")
    ensures Contains(h, "injury") && Contains(h, "asthma")
  {
    assert h == "" + "injury" + ", asthma";
    Occurs("", "injury", ", asthma");
    assert h == "injury, " + "asthma" + "";
    Occurs("injury, ", "asthma", "");
  }

  /** High intensity with an injury and asthma: two conflicts, two resolutions. */
  lemma InjuryAndAsthmaExample()
    ensures ResolveConflicts(Some(map["health_info" := Str("injury, asthma")]),
                             Some(map["feedback" := Str("high intensity")]))
            == Ok(Outcome([ConflictText(InjuryVsIntensity), ConflictText(ConditionVsIntensity)],
                          [ResolutionFor(InjuryVsIntensity), ResolutionFor(ConditionVsIntensity)], "resolved"))
  {
    InjuryAsthmaFiresBoth();
    var o := Resolve(Lower("high intensity"), Lower("injury, asthma"));
    assert o.conflicts == [ConflictText(InjuryVsIntensity), ConflictText(ConditionVsIntensity)];
    assert o.resolutions == [ResolutionFor(InjuryVsIntensity), ResolutionFor(ConditionVsIntensity)];
  }
}
