/**
 * The score keeper: the running score it is told about, and best scores per
 * difficulty and of all time in the persistent store.
 */
module Scores {
  import opened Pieces
  import opened Prefs

  const HighScoreEasyKey := "HighScore_Easy"
  const HighScoreMediumKey := "HighScore_Medium"
  const HighScoreHardKey := "HighScore_Hard"
  const AllTimeHighKey := "AllTimeHighScore"

  /**
   * `highScore` and `allTimeHighScore` are in-memory copies of stored values;
   * they are filled in only by LoadHighScore and by a new record.
   */
  datatype ScoreManager = ScoreManager(currentScore: int, highScore: int, allTimeHighScore: int, store: Store)

  /** Sets the running score to zero and touches nothing else. */
  function ResetScore(s: ScoreManager): (r: ScoreManager)
    ensures r.currentScore == 0
    ensures r.highScore == s.highScore && r.allTimeHighScore == s.allTimeHighScore && r.store == s.store
  {
    s.(currentScore := 0)
  }

  /** Sets the running score to `newScore` and touches nothing else. */
  function UpdateScore(s: ScoreManager, newScore: int): (r: ScoreManager)
    ensures r.currentScore == newScore
    ensures r.highScore == s.highScore && r.allTimeHighScore == s.allTimeHighScore && r.store == s.store
  {
    s.(currentScore := newScore)
  }

  /** The store key of each tier's best score. */
  function GetHighScoreKey(d: Difficulty): (k: string)
    ensures k == HighScoreEasyKey || k == HighScoreMediumKey || k == HighScoreHardKey
    ensures k != AllTimeHighKey
  {
    match d
    case Easy => HighScoreEasyKey
    case Medium => HighScoreMediumKey
    case Hard => HighScoreHardKey
  }

  /** The three tiers use three different keys, none of them the all-time key. */
  lemma HighScoreKeysDistinct(d1: Difficulty, d2: Difficulty)
    ensures GetHighScoreKey(d1) == GetHighScoreKey(d2) <==> d1 == d2
    ensures GetHighScoreKey(d1) != AllTimeHighKey
  {
  }

  /** The stored best for a tier; 0 when nothing has been stored. */
  function GetHighScore(s: ScoreManager, d: Difficulty): (h: int)
    ensures GetHighScoreKey(d) in s.store ==> h == s.store[GetHighScoreKey(d)]
    ensures GetHighScoreKey(d) !in s.store ==> h == 0
  {
    GetInt(s.store, GetHighScoreKey(d), 0)
  }

  /** The stored all-time best; 0 when nothing has been stored. */
  function GetAllTimeHighScore(s: ScoreManager): (h: int)
    ensures AllTimeHighKey in s.store ==> h == s.store[AllTimeHighKey]
    ensures AllTimeHighKey !in s.store ==> h == 0
  {
    GetInt(s.store, AllTimeHighKey, 0)
  }

  /** Reading from a store without the key gives 0. */
  lemma MissingScoresReadZero(s: ScoreManager, d: Difficulty)
    requires GetHighScoreKey(d) !in s.store && AllTimeHighKey !in s.store
    ensures GetHighScore(s, d) == 0 && GetAllTimeHighScore(s) == 0
  {
  }

  /** Copies the stored tier best and all-time best into the in-memory fields. */
  function LoadHighScore(s: ScoreManager, d: Difficulty): (r: ScoreManager)
    ensures r.highScore == GetHighScore(s, d) && r.allTimeHighScore == GetAllTimeHighScore(s)
    ensures r.store == s.store && r.currentScore == s.currentScore
  {
    s.(highScore := GetHighScore(s, d), allTimeHighScore := GetAllTimeHighScore(s))
  }

  function Max(a: int, b: int): int {
    if a < b then b else a
  }

  datatype HighScoreCheck = HighScoreCheck(manager: ScoreManager, isNewHigh: bool)

  /**
   * Records `finalScore` as the tier's best when it beats the stored best for
   * that tier, and as the all-time best when it beats the in-memory all-time
   * copy (not the stored value). Reports whether the tier best was beaten.
   */
  function CheckAndSaveHighScore(s: ScoreManager, finalScore: int, d: Difficulty): (r: HighScoreCheck)
    ensures r.isNewHigh <==> finalScore > GetHighScore(s, d)
    ensures GetHighScore(r.manager, d) == Max(GetHighScore(s, d), finalScore)
    ensures forall d' :: d' != d ==> GetHighScore(r.manager, d') == GetHighScore(s, d')
    ensures r.manager.highScore == (if r.isNewHigh then finalScore else s.highScore)
    ensures finalScore > s.allTimeHighScore ==>
      GetAllTimeHighScore(r.manager) == finalScore && r.manager.allTimeHighScore == finalScore
    ensures finalScore <= s.allTimeHighScore ==>
      GetAllTimeHighScore(r.manager) == GetAllTimeHighScore(s) && r.manager.allTimeHighScore == s.allTimeHighScore
    ensures forall k, dflt :: k != GetHighScoreKey(d) && k != AllTimeHighKey ==> GetInt(r.manager.store, k, dflt) == GetInt(s.store, k, dflt)
    ensures r.manager.currentScore == s.currentScore
  {
    var key := GetHighScoreKey(d);
    var currentHigh := GetInt(s.store, key, 0);
    var s1 := if finalScore > currentHigh then s.(store := SetInt(s.store, key, finalScore), highScore := finalScore) else s;
    var s2 := if finalScore > s.allTimeHighScore then s1.(store := SetInt(s1.store, AllTimeHighKey, finalScore), allTimeHighScore := finalScore) else s1;
    HighScoreCheck(s2, finalScore > currentHigh)
  }

  /**
   * Because the all-time comparison uses the in-memory copy, a score below the
   * stored all-time best overwrites it when that copy was never loaded.
   */
  lemma StaleCopyCanLowerAllTimeBest()
    ensures var s := ScoreManager(0, 0, 0, map[AllTimeHighKey := 100]);
            GetAllTimeHighScore(CheckAndSaveHighScore(s, 50, Easy).manager) == 50 < GetAllTimeHighScore(s)
  {
  }
}
