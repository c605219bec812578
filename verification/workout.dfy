/** The exercise filter of the workout agent (agents/workout_agent.py): an
    order-preserving narrowing of the exercise catalogue by fitness level,
    injury, "no running", and the adjustments of the conflict resolutions,
    followed by one bulleted line per surviving exercise. */
module Workout {
  import opened Values
  import opened Text
  import opened Seqs
  import Coordinator

  /** A catalogue row: column name to cell text. */
  type Row = map<string, string>

  /** `row.get(key, "")`. */
  function Cell(row: Row, key: string): string {
    if key in row then row[key] else ""
  }

  function Difficulty(row: Row): string { Lower(Cell(row, "Difficulty")) }
  function Risk(row: Row): string { Lower(Cell(row, "InjuryRisk")) }
  function Name(row: Row): string { Lower(Cell(row, "ExerciseName")) }
  function Equipment(row: Row): string { Lower(Cell(row, "Equipment")) }

  /** The level filter (`level` already lower-cased). */
  predicate LevelOk(level: string, row: Row) {
    if level == "beginner" then Difficulty(row) == "beginner"
    else if level == "intermediate" then Difficulty(row) != "advanced"
    else if level == "advanced" then Difficulty(row) in ["advanced", "intermediate"]
    else true
  }

  /** The profile filters of the first loop (`prefs` already lower-cased). */
  predicate ProfileOk(level: string, prefs: string, row: Row) {
    && LevelOk(level, row)
    && !(Contains(prefs, "injury") && Risk(row) == "high")
    && !(Contains(prefs, "no running") && Name(row) == "running")
  }

  /** The narrowing one resolution asks for; a resolution whose adjustment
      is not one of the three known texts asks for nothing. */
  predicate AdjustmentOk(res: Object, row: Row) {
    if HasText(res, "adjustment", Coordinator.LowImpactAdjustment) then Risk(row) in ["low", "medium"]
    else if HasText(res, "adjustment", Coordinator.LowIntensityAdjustment) then Difficulty(row) in ["beginner"]
    else if HasText(res, "adjustment", Coordinator.IndoorAdjustment) then
      Equipment(row) != "none" || Name(row) in ["yoga", "push-ups", "squats"]
    else true
  }

  /** A row meets every resolution's narrowing. */
  predicate AllAdjustmentsOk(resolutions: seq<Object>, row: Row) {
    forall k :: 0 <= k < |resolutions| ==> AdjustmentOk(resolutions[k], row)
  }

  /** One surviving row of the whole filter. */
  predicate Keeps(level: string, prefs: string, resolutions: seq<Object>, row: Row) {
    ProfileOk(level, prefs, row) && AllAdjustmentsOk(resolutions, row)
  }

  function ProfilePred(level: string, prefs: string): Row -> bool {
    row => ProfileOk(level, prefs, row)
  }

  function AdjustmentPred(res: Object): Row -> bool {
    row => AdjustmentOk(res, row)
  }

  function KeepsPred(level: string, prefs: string, resolutions: seq<Object>): Row -> bool {
    row => Keeps(level, prefs, resolutions, row)
  }

  /** The resolutions loop: each resolution re-filters the current list. */
  function ApplyResolutions(rows: seq<Row>, resolutions: seq<Object>): (r: seq<Row>)
    ensures IsSubseq(r, rows)
    ensures forall row :: row in r <==> row in rows && AllAdjustmentsOk(resolutions, row)
    decreases |resolutions|
  {
    if |resolutions| == 0 then
      SubseqReflexive(rows);
      rows
    else
      var narrowed := Filter(rows, AdjustmentPred(resolutions[0]));
      FilterIsSubseq(rows, AdjustmentPred(resolutions[0]));
      forall row | row in rows && AdjustmentOk(resolutions[0], row)
        ensures row in narrowed
      {
        FilterKeeps(rows, AdjustmentPred(resolutions[0]), row);
      }
      var r := ApplyResolutions(narrowed, resolutions[1..]);
      SubseqTransitive(r, narrowed, rows);
      forall row
        ensures AllAdjustmentsOk(resolutions, row) <==>
                AdjustmentOk(resolutions[0], row) && AllAdjustmentsOk(resolutions[1..], row)
      {
        if AdjustmentOk(resolutions[0], row) && AllAdjustmentsOk(resolutions[1..], row) {
          forall k | 0 <= k < |resolutions|
            ensures AdjustmentOk(resolutions[k], row)
          {
            if k > 0 {
              assert resolutions[k] == resolutions[1..][k - 1];
            }
          }
        }
      }
      r
  }

  /** The rows `_filter_exercises` keeps, as a specification. */
  function Select(catalogue: seq<Row>, level: string, prefs: string, resolutions: seq<Object>): seq<Row> {
    ApplyResolutions(Filter(catalogue, ProfilePred(level, prefs)), resolutions)
  }

  /** The selection is an order-preserving sub-list of the catalogue holding
      exactly the catalogue rows that pass every filter. */
  lemma SelectSpec(catalogue: seq<Row>, level: string, prefs: string, resolutions: seq<Object>)
    ensures IsSubseq(Select(catalogue, level, prefs, resolutions), catalogue)
    ensures forall row :: row in Select(catalogue, level, prefs, resolutions) <==>
              row in catalogue && Keeps(level, prefs, resolutions, row)
  {
    var base := Filter(catalogue, ProfilePred(level, prefs));
    FilterIsSubseq(catalogue, ProfilePred(level, prefs));
    SubseqTransitive(Select(catalogue, level, prefs, resolutions), base, catalogue);
    forall row | row in catalogue && ProfileOk(level, prefs, row)
      ensures row in base
    {
      FilterKeeps(catalogue, ProfilePred(level, prefs), row);
    }
  }

  /** The selection is the catalogue filtered by one per-row predicate. */
  lemma {:induction false} SelectIsOneFilter(catalogue: seq<Row>, level: string, prefs: string, resolutions: seq<Object>)
    ensures Select(catalogue, level, prefs, resolutions) == Filter(catalogue, KeepsPred(level, prefs, resolutions))
    decreases |resolutions|
  {
    ApplyIsOneFilter(Filter(catalogue, ProfilePred(level, prefs)), resolutions);
    FilterFilter(catalogue, ProfilePred(level, prefs), AllAdjustmentsPred(resolutions),
                 KeepsPred(level, prefs, resolutions));
  }

  function AllAdjustmentsPred(resolutions: seq<Object>): Row -> bool {
    row => AllAdjustmentsOk(resolutions, row)
  }

  /** The resolutions loop is one filter by all adjustments together. */
  lemma {:induction false} ApplyIsOneFilter(rows: seq<Row>, resolutions: seq<Object>)
    ensures ApplyResolutions(rows, resolutions) == Filter(rows, AllAdjustmentsPred(resolutions))
    decreases |resolutions|
  {
    if |resolutions| == 0 {
      FilterAllPass(rows, AllAdjustmentsPred(resolutions));
    } else {
      var narrowed := Filter(rows, AdjustmentPred(resolutions[0]));
      ApplyIsOneFilter(narrowed, resolutions[1..]);
      forall row
        ensures AllAdjustmentsOk(resolutions, row) ==
                (AdjustmentOk(resolutions[0], row) && AllAdjustmentsOk(resolutions[1..], row))
      {
        if AdjustmentOk(resolutions[0], row) && AllAdjustmentsOk(resolutions[1..], row) {
          forall k | 0 <= k < |resolutions|
            ensures AdjustmentOk(resolutions[k], row)
          {
            if k > 0 {
              assert resolutions[k] == resolutions[1..][k - 1];
            }
          }
        }
      }
      FilterFilter(rows, AdjustmentPred(resolutions[0]), AllAdjustmentsPred(resolutions[1..]),
                   AllAdjustmentsPred(resolutions));
    }
  }

  /** Filtering an already filtered catalogue again changes nothing. */
  lemma SelectIdempotent(catalogue: seq<Row>, level: string, prefs: string, resolutions: seq<Object>)
    ensures Select(Select(catalogue, level, prefs, resolutions), level, prefs, resolutions)
            == Select(catalogue, level, prefs, resolutions)
  {
    var once := Select(catalogue, level, prefs, resolutions);
    var p := KeepsPred(level, prefs, resolutions);
    SelectIsOneFilter(catalogue, level, prefs, resolutions);
    SelectIsOneFilter(once, level, prefs, resolutions);
    FilterFilter(catalogue, p, p, p);
  }

  /** What the profile filters promise about every surviving row. */
  lemma ProfileFilters(catalogue: seq<Row>, level: string, prefs: string, resolutions: seq<Object>, row: Row)
    requires row in Select(catalogue, level, prefs, resolutions)
    ensures level == "beginner" ==> Difficulty(row) == "beginner"
    ensures level == "intermediate" ==> Difficulty(row) != "advanced"
    ensures level == "advanced" ==> Difficulty(row) == "advanced" || Difficulty(row) == "intermediate"
    ensures Contains(prefs, "injury") ==> Risk(row) != "high"
    ensures Contains(prefs, "no running") ==> Name(row) != "running"
  {
    SelectSpec(catalogue, level, prefs, resolutions);
  }

  /** The first loop of `_filter_exercises` followed by the resolutions loop. */
  method FilterCatalogue(catalogue: seq<Row>, level: string, prefs: string, resolutions: seq<Object>)
    returns (kept: seq<Row>)
    ensures kept == Select(catalogue, level, prefs, resolutions)
  {
    var p := ProfilePred(level, prefs);
    kept := [];
    var i := 0;
    while i < |catalogue|
      invariant 0 <= i <= |catalogue|
      invariant kept == Filter(catalogue[..i], p)
    {
      FilterAppend(catalogue[..i], catalogue[i], p);
      assert catalogue[..i + 1] == catalogue[..i] + [catalogue[i]];
      if ProfileOk(level, prefs, catalogue[i]) {
        kept := kept + [catalogue[i]];
      }
      i := i + 1;
    }
    assert catalogue[..i] == catalogue;
    var j := 0;
    while j < |resolutions|
      invariant 0 <= j <= |resolutions|
      invariant ApplyResolutions(kept, resolutions[j..]) == Select(catalogue, level, prefs, resolutions)
    {
      assert resolutions[j..][1..] == resolutions[j + 1..];
      kept := Filter(kept, AdjustmentPred(resolutions[j]));
      j := j + 1;
    }
  }

  // ---------------------------------------------------------------------
  // Formatting

  /** `row[key]`: a missing column raises. */
  function Column(row: Row, key: string): Result<string> {
    if key in row then Ok(row[key]) else Err(MissingKey(key))
  }

  /** One bulleted line of the prompt's exercise list: the exercise's name
      and body part lead, its equipment and difficulty follow, its injury
      risk ends the line. */
  function FormatRow(row: Row): (r: Result<string>)
    ensures r.Ok? <==> forall key :: key in Columns ==> key in row
    ensures r.Ok? ==> |r.value| >= 2 && r.value[..2] == "- "
    ensures r.Ok? ==> var lead := "- " + row["ExerciseName"] + ": Targets " + row["BodyPart"];
                      |r.value| >= |lead| && r.value[..|lead|] == lead
    ensures r.Ok? ==> && Contains(r.value, ", Equipment: " + row["Equipment"])
                      && Contains(r.value, ", Difficulty: " + row["Difficulty"])
    ensures r.Ok? ==> var tail := ", Injury Risk: " + row["InjuryRisk"];
                      |r.value| >= |tail| && r.value[|r.value| - |tail|..] == tail
    ensures r.Err? ==> r.error.MissingKey? && r.error.key in Columns && r.error.key !in row
  {
    var name :- Column(row, "ExerciseName");
    var part :- Column(row, "BodyPart");
    var equipment :- Column(row, "Equipment");
    var difficulty :- Column(row, "Difficulty");
    var risk :- Column(row, "InjuryRisk");
    LineParts(name, part, equipment, difficulty, risk);
    Ok(Line(name, part, equipment, difficulty, risk))
  }

  const Columns: set<string> := {"ExerciseName", "BodyPart", "Equipment", "Difficulty", "InjuryRisk"}

  /** The line for one exercise's five cells. */
  function Line(name: string, part: string, equipment: string, difficulty: string, risk: string): string {
    "- " + name + ": Targets " + part + ", Equipment: " + equipment
    + ", Difficulty: " + difficulty + ", Injury Risk: " + risk
  }

  /** Where each cell sits in its line. */
  lemma LineParts(name: string, part: string, equipment: string, difficulty: string, risk: string)
    ensures var l := Line(name, part, equipment, difficulty, risk);
            var lead := "- " + name + ": Targets " + part;
            var tail := ", Injury Risk: " + risk;
            && |l| >= 2 && l[..2] == "- "
            && |l| >= |lead| && l[..|lead|] == lead
            && Contains(l, ", Equipment: " + equipment) && Contains(l, ", Difficulty: " + difficulty)
            && |l| >= |tail| && l[|l| - |tail|..] == tail
  {
    var l := Line(name, part, equipment, difficulty, risk);
    var lead := "- " + name + ": Targets " + part;
    var eq := ", Equipment: " + equipment;
    var df := ", Difficulty: " + difficulty;
    var tail := ", Injury Risk: " + risk;
    assert l == lead + eq + (df + tail);
    Occurs(lead, eq, df + tail);
    assert l == (lead + eq) + df + tail;
    Occurs(lead + eq, df, tail);
    assert l == (lead + eq + df) + tail;
    assert lead[..2] == "- ";
  }

  /** The formatted lines, or the first row's missing column. */
  function FormatRows(rows: seq<Row>): (r: Result<seq<string>>)
    ensures r.Ok? <==> forall i :: 0 <= i < |rows| ==> FormatRow(rows[i]).Ok?
    ensures r.Ok? ==> |r.value| == |rows|
                      && forall i :: 0 <= i < |rows| ==> r.value[i] == FormatRow(rows[i]).value
    ensures forall k :: 0 <= k < |rows| && FormatRow(rows[k]).Err?
                        && (forall j :: 0 <= j < k ==> FormatRow(rows[j]).Ok?) ==>
                          r == Err(FormatRow(rows[k]).error)
    decreases |rows|
  {
    if |rows| == 0 then Ok([])
    else
      var line :- FormatRow(rows[0]);
      var rest :- FormatRows(rows[1..]);
      assert forall k :: 1 <= k < |rows| ==> rows[k] == rows[1..][k - 1];
      Ok([line] + rest)
  }

  /** `"\n".join(...)` over the formatted lines. */
  function FormatList(rows: seq<Row>): Result<string> {
    var lines :- FormatRows(rows);
    Ok(Join(lines, "\n"))
  }

  /** No cell of the row holds a line break. */
  predicate SingleLine(row: Row) {
    forall key :: key in row ==> '\n' !in row[key]
  }

  /** A row without line breaks formats to a single line. */
  lemma FormattedSingleLine(row: Row)
    requires SingleLine(row) && FormatRow(row).Ok?
    ensures '\n' !in FormatRow(row).value
  {
    assert FormatRow(row).value == Line(row["ExerciseName"], row["BodyPart"], row["Equipment"],
                                        row["Difficulty"], row["InjuryRisk"]);
  }

  /** Splitting the formatted list on line breaks gives back one `"- "`
      line per row, in order. */
  lemma FormatListLines(rows: seq<Row>)
    requires |rows| > 0
    requires forall i :: 0 <= i < |rows| ==> SingleLine(rows[i])
    requires FormatList(rows).Ok?
    ensures |Split(FormatList(rows).value, '\n')| == |rows|
    ensures forall i :: 0 <= i < |rows| ==>
              Split(FormatList(rows).value, '\n')[i] == FormatRow(rows[i]).value
              && Split(FormatList(rows).value, '\n')[i][..2] == "- "
  {
    var lines := FormatRows(rows).value;
    forall i | 0 <= i < |lines|
      ensures '\n' !in lines[i]
    {
      FormattedSingleLine(rows[i]);
    }
    SplitJoin(lines, '\n');
  }

  /** `_filter_exercises`: read the profile's preferences and level
      (default "Beginner"), lower-case them, select, and format. */
  method FilterExercises(profile: Object, catalogue: seq<Row>, resolutions: seq<Object>)
    returns (r: Result<string>)
    ensures TextOr(profile, "preferences", "").Err? ==> r == Err(TextOr(profile, "preferences", "").error)
    ensures TextOr(profile, "preferences", "").Ok? && TextOr(profile, "level", "Beginner").Err? ==>
              r == Err(TextOr(profile, "level", "Beginner").error)
    ensures TextOr(profile, "preferences", "").Ok? && TextOr(profile, "level", "Beginner").Ok? ==>
              r == FormatList(Select(catalogue, Lower(TextOr(profile, "level", "Beginner").value),
                                     Lower(TextOr(profile, "preferences", "").value), resolutions))
  {
    var prefs := TextOr(profile, "preferences", "");
    if prefs.Err? {
      return Err(prefs.error);
    }
    var level := TextOr(profile, "level", "Beginner");
    if level.Err? {
      return Err(level.error);
    }
    var kept := FilterCatalogue(catalogue, Lower(level.value), Lower(prefs.value), resolutions);
    r := FormatList(kept);
  }
}
