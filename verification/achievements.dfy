/**
 * Achievements: named goals with a target value. Progress reports overwrite the
 * current value until it reaches the target; from then on the achievement is
 * unlocked and frozen.
 */
module Achievements {
  import opened Seqs
  import opened Pieces

  datatype Achievement = Achievement(id: string, title: string, description: string,
                                     unlocked: bool, targetValue: int, currentValue: int)

  /** A new achievement starts locked with no progress. */
  function NewAchievement(i: string, t: string, d: string, target: int): (a: Achievement)
    ensures !a.unlocked && a.currentValue == 0
    ensures a.id == i && a.title == t && a.description == d && a.targetValue == target
  {
    Achievement(i, t, d, false, target, 0)
  }

  /** The achievements keyed by id, with the two running totals they track. */
  datatype AchievementManager = AchievementManager(achievements: map<string, Achievement>, totalLinesCleared: int, totalCombos: int)

  /** The ids of the built-in achievements, in the order they are created. */
  const AchievementIds: seq<string> := [
    "first_game", "first_line", "score_100", "score_500", "score_1000", "clear_5",
    "clear_10", "combo_3", "easy_win", "medium_win", "hard_win"]

  /**
   * The eleven built-in achievements, keyed by their own id, each locked and
   * without progress.
   */
  function InitializeAchievements(): (r: map<string, Achievement>)
    ensures forall k :: k in r <==> k in AchievementIds
    ensures forall k :: k in r ==> r[k].id == k && !r[k].unlocked && r[k].currentValue == 0
  {
    map[
      "first_game" := NewAchievement("first_game", "First Steps", "Play your first game", 1),
      "first_line" := NewAchievement("first_line", "Line Clear", "Clear your first line", 1),
      "score_100" := NewAchievement("score_100", "Century", "Score 100 points", 100),
      "score_500" := NewAchievement("score_500", "High Scorer", "Score 500 points", 500),
      "score_1000" := NewAchievement("score_1000", "Block Master", "Score 1000 points", 1000),
      "clear_5" := NewAchievement("clear_5", "Line Clearer", "Clear 5 lines total", 5),
      "clear_10" := NewAchievement("clear_10", "Line Expert", "Clear 10 lines total", 10),
      "combo_3" := NewAchievement("combo_3", "Combo King", "Get 3 combos", 3),
      "easy_win" := NewAchievement("easy_win", "Easy Victory", "Score 50+ on Easy", 1),
      "medium_win" := NewAchievement("medium_win", "Medium Victory", "Score 50+ on Medium", 1),
      "hard_win" := NewAchievement("hard_win", "Hard Victory", "Score 50+ on Hard", 1)
    ]
  }

  /** There are exactly eleven built-in achievements. */
  lemma ElevenAchievements()
    ensures |InitializeAchievements()| == 11
  {
    var r := InitializeAchievements();
    assert Distinct(AchievementIds);
    DistinctCard(AchievementIds);
    assert r.Keys == set x | x in AchievementIds;
  }

  /**
   * `after` is a possible later state of `before`: the same ids with the same
   * names, descriptions and targets, and every unlocked achievement left
   * exactly as it was.
   */
  ghost predicate Progressed(before: AchievementManager, after: AchievementManager) {
    && after.achievements.Keys == before.achievements.Keys
    && forall k :: k in before.achievements ==>
         && after.achievements[k].id == before.achievements[k].id
         && after.achievements[k].title == before.achievements[k].title
         && after.achievements[k].description == before.achievements[k].description
         && after.achievements[k].targetValue == before.achievements[k].targetValue
         && (before.achievements[k].unlocked ==> after.achievements[k] == before.achievements[k])
  }

  lemma ProgressedTransitive(a: AchievementManager, b: AchievementManager, c: AchievementManager)
    requires Progressed(a, b) && Progressed(b, c)
    ensures Progressed(a, c)
  {
  }

  /**
   * `value` was reported to achievement `id`: if it was still locked in
   * `before`, it is unlocked in `after` exactly when the value reaches the
   * target, and its value is the reported one capped at the target.
   */
  predicate Reported(before: AchievementManager, after: AchievementManager, id: string, value: int) {
    id in before.achievements && !before.achievements[id].unlocked ==>
      var target := before.achievements[id].targetValue;
      && id in after.achievements
      && (after.achievements[id].unlocked <==> value >= target)
      && after.achievements[id].currentValue == (if value >= target then target else value)
  }

  /**
   * Reports a progress value for one achievement. An unknown id or an
   * unlocked achievement is left alone. Otherwise the value replaces the
   * current one (it may go down), and reaching the target unlocks the
   * achievement with its value pinned to the target.
   */
  function UpdateProgress(m: AchievementManager, id: string, value: int): (r: AchievementManager)
    ensures Progressed(m, r)
    ensures r.totalLinesCleared == m.totalLinesCleared && r.totalCombos == m.totalCombos
    ensures forall k :: k in m.achievements && k != id ==> r.achievements[k] == m.achievements[k]
    ensures id !in m.achievements || m.achievements[id].unlocked ==> r == m
    ensures id in m.achievements && !m.achievements[id].unlocked ==>
      var a := m.achievements[id];
      var a' := r.achievements[id];
      && (a'.unlocked <==> value >= a.targetValue)
      && a'.currentValue == (if value >= a.targetValue then a.targetValue else value)
      && a'.id == a.id && a'.title == a.title && a'.description == a.description
  {
    if id !in m.achievements then m
    else
      var a := m.achievements[id];
      if a.unlocked then m
      else
        var a1 := a.(currentValue := value);
        var a2 := if a1.currentValue >= a1.targetValue then a1.(unlocked := true, currentValue := a1.targetValue) else a1;
        m.(achievements := m.achievements[id := a2])
  }

  function OnGameStarted(m: AchievementManager): (r: AchievementManager)
    ensures Progressed(m, r)
    ensures r.totalLinesCleared == m.totalLinesCleared && r.totalCombos == m.totalCombos
    ensures forall k :: k in m.achievements && k != "first_game" ==> r.achievements[k] == m.achievements[k]
    ensures Reported(m, r, "first_game", 1)
    ensures "first_game" in m.achievements && m.achievements["first_game"].targetValue <= 1 ==> r.achievements["first_game"].unlocked
  {
    UpdateProgress(m, "first_game", 1)
  }

  /** Reports the score to the three score achievements. */
  function OnScoreChanged(m: AchievementManager, score: int): (r: AchievementManager)
    ensures Progressed(m, r)
    ensures r.totalLinesCleared == m.totalLinesCleared && r.totalCombos == m.totalCombos
    ensures forall k :: k in m.achievements && k !in {"score_100", "score_500", "score_1000"} ==> r.achievements[k] == m.achievements[k]
    ensures Reported(m, r, "score_100", score) && Reported(m, r, "score_500", score) && Reported(m, r, "score_1000", score)
  {
    ReportToThree(m, "score_100", "score_500", "score_1000", score)
  }

  /** Reports one value to three different achievements in turn. */
  function ReportToThree(m: AchievementManager, a: string, b: string, c: string, value: int): (r: AchievementManager)
    requires a != b && b != c && a != c
    ensures Progressed(m, r)
    ensures r.totalLinesCleared == m.totalLinesCleared && r.totalCombos == m.totalCombos
    ensures forall k :: k in m.achievements && k != a && k != b && k != c ==> r.achievements[k] == m.achievements[k]
    ensures Reported(m, r, a, value) && Reported(m, r, b, value) && Reported(m, r, c, value)
  {
    UpdateProgress(UpdateProgress(UpdateProgress(m, a, value), b, value), c, value)
  }

  /**
   * Adds the cleared lines to the running total, reports it to the line
   * achievements, and on a combo also counts the combo and reports that.
   */
  function OnLineCleared(m: AchievementManager, lines: int, isCombo: bool): (r: AchievementManager)
    ensures Progressed(m, r)
    ensures r.totalLinesCleared == m.totalLinesCleared + lines
    ensures r.totalCombos == m.totalCombos + (if isCombo then 1 else 0)
    ensures forall k :: k in m.achievements && k !in {"first_line", "clear_5", "clear_10", "combo_3"} ==> r.achievements[k] == m.achievements[k]
    ensures !isCombo ==> "combo_3" in m.achievements ==> r.achievements["combo_3"] == m.achievements["combo_3"]
    ensures Reported(m, r, "first_line", r.totalLinesCleared)
    ensures Reported(m, r, "clear_5", r.totalLinesCleared)
    ensures Reported(m, r, "clear_10", r.totalLinesCleared)
    ensures isCombo ==> Reported(m, r, "combo_3", r.totalCombos)
  {
    var m3 := CountLines(m, lines);
    if isCombo then CountCombo(m3) else m3
  }

  /** Adds the cleared lines to the running total and reports it to the three line achievements. */
  function CountLines(m: AchievementManager, lines: int): (r: AchievementManager)
    ensures Progressed(m, r)
    ensures r.totalLinesCleared == m.totalLinesCleared + lines && r.totalCombos == m.totalCombos
    ensures forall k :: k in m.achievements && k !in {"first_line", "clear_5", "clear_10"} ==> r.achievements[k] == m.achievements[k]
    ensures Reported(m, r, "first_line", r.totalLinesCleared)
    ensures Reported(m, r, "clear_5", r.totalLinesCleared)
    ensures Reported(m, r, "clear_10", r.totalLinesCleared)
  {
    var m0 := m.(totalLinesCleared := m.totalLinesCleared + lines);
    ReportToThree(m0, "first_line", "clear_5", "clear_10", m0.totalLinesCleared)
  }

  /** Counts one more combo and reports the new combo total to "combo_3". */
  function CountCombo(m: AchievementManager): (r: AchievementManager)
    ensures Progressed(m, r)
    ensures r.totalLinesCleared == m.totalLinesCleared && r.totalCombos == m.totalCombos + 1
    ensures forall k :: k in m.achievements && k != "combo_3" ==> r.achievements[k] == m.achievements[k]
    ensures Reported(m, r, "combo_3", r.totalCombos)
  {
    UpdateProgress(m.(totalCombos := m.totalCombos + 1), "combo_3", m.totalCombos + 1)
  }

  /** The win achievement of a tier. */
  function WinId(d: Difficulty): string {
    match d
    case Easy => "easy_win"
    case Medium => "medium_win"
    case Hard => "hard_win"
  }

  /** A final score of at least 50 counts as a win on the tier played; anything less changes nothing. */
  function OnGameOver(m: AchievementManager, d: Difficulty, score: int): (r: AchievementManager)
    ensures Progressed(m, r)
    ensures score < 50 ==> r == m
    ensures forall k :: k in m.achievements && k != WinId(d) ==> r.achievements[k] == m.achievements[k]
    ensures r.totalLinesCleared == m.totalLinesCleared && r.totalCombos == m.totalCombos
    ensures score >= 50 ==> Reported(m, r, WinId(d), 1)
    ensures score >= 50 && WinId(d) in m.achievements && m.achievements[WinId(d)].targetValue <= 1 ==>
      r.achievements[WinId(d)].unlocked
  {
    if score >= 50 then
      match d
      case Easy => UpdateProgress(m, "easy_win", 1)
      case Medium => UpdateProgress(m, "medium_win", 1)
      case Hard => UpdateProgress(m, "hard_win", 1)
    else m
  }

  ghost function UnlockedIds(m: AchievementManager): set<string> {
    set k | k in m.achievements && m.achievements[k].unlocked
  }

  /** Counts the unlocked achievements, visiting each entry once. */
  method GetUnlockedCount(m: AchievementManager) returns (count: nat)
    ensures count == |UnlockedIds(m)|
    ensures count <= |m.achievements|
  {
    count := 0;
    var remaining := m.achievements.Keys;
    ghost var seen: set<string> := {};
    ghost var counted: set<string> := {};
    while remaining != {}
      invariant remaining !! seen && remaining + seen == m.achievements.Keys
      invariant counted <= seen
      invariant forall k :: k in seen ==> (k in counted <==> m.achievements[k].unlocked)
      invariant count == |counted|
      decreases |remaining|
    {
      var k :| k in remaining;
      if m.achievements[k].unlocked {
        count := count + 1;
        counted := counted + {k};
      }
      remaining := remaining - {k};
      seen := seen + {k};
    }
    assert counted == UnlockedIds(m);
    SubsetCard(UnlockedIds(m), m.achievements.Keys);
  }

  /** A fresh manager: every achievement locked, no lines or combos counted. */
  function Fresh(): (m: AchievementManager)
    ensures |m.achievements| == 11 && UnlockedIds(m) == {}
  {
    ElevenAchievements();
    AchievementManager(InitializeAchievements(), 0, 0)
  }

  /**
   * However play proceeds, the manager keeps the eleven built-in ids, so at
   * most eleven achievements are unlocked.
   */
  lemma UnlockedAtMostEleven(m: AchievementManager)
    requires forall k :: k in m.achievements <==> k in AchievementIds
    ensures |UnlockedIds(m)| <= 11
  {
    ElevenAchievements();
    assert m.achievements.Keys == InitializeAchievements().Keys;
    SubsetCard(UnlockedIds(m), m.achievements.Keys);
  }
}
