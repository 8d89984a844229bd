/**
 * The game state machine (Menu, Playing, Paused, GameOver) and the score it
 * accumulates, wired to the grid, the tray, the undo counter and the score
 * keeper.
 */
module Game {
  import opened Wrappers
  import opened Pieces
  import opened Grid
  import opened Undo
  import opened Spawner
  import opened Scores

  datatype GameState = Menu | Playing | Paused | GameOver

  datatype GameManager = GameManager(
    state: GameState,
    difficulty: Difficulty,
    currentScore: int,
    maxUndos: int,
    undo: UndoManager,
    board: Board,
    tray: Tray,
    scores: ScoreManager)
  {
    predicate Valid() {
      board.Valid() && tray.Valid()
    }
  }

  /** Every slot with a spawn point holds a piece of the tier's pool; the others are empty. */
  predicate TrayFilledFrom(t: Tray, d: Difficulty)
    requires t.Valid()
  {
    forall i :: 0 <= i < SlotCount ==>
      t.objects[i] == t.spawnPoints[i]
      && (t.spawnPoints[i] ==> t.data[i].Some? && t.data[i].value in GetPiecesForDifficulty(d))
      && (!t.spawnPoints[i] ==> t.data[i].None?)
  }

  /** Clears the tray and deals a new set of the tray's tier. */
  method Respawn(t: Tray) returns (r: Tray)
    requires t.Valid()
    ensures r.Valid() && r.spawnPoints == t.spawnPoints && r.difficulty == t.difficulty
    ensures TrayFilledFrom(r, t.difficulty)
  {
    var chosen, attempts;
    r, chosen, attempts := SpawnNewSet(t);
  }

  /**
   * Starts a game on tier d: Playing, score 0, the undo counter refilled to
   * the configured maximum, a fresh empty grid of the same size, and a new
   * set of pieces of tier d in the tray. The score keeper is not told.
   */
  method StartGame(g: GameManager, d: Difficulty) returns (r: GameManager)
    requires g.Valid()
    ensures r.Valid()
    ensures r.state == Playing && r.difficulty == d && r.currentScore == 0
    ensures r.undo.remainingUndos == g.maxUndos && r.undo.maxUndos == g.maxUndos
    ensures r.maxUndos == g.maxUndos && r.scores == g.scores
    ensures r.board.SameShape(g.board) && forall x, y :: r.board.InBounds(x, y) ==> !r.board.cells[x][y]
    ensures r.tray.difficulty == d && r.tray.spawnPoints == g.tray.spawnPoints && TrayFilledFrom(r.tray, d)
  {
    var tray := Respawn(SetDifficulty(g.tray, d));
    r := g.(
      state := Playing,
      difficulty := d,
      currentScore := 0,
      undo := ResetUndos(g.undo, g.maxUndos),
      board := InitializeGrid(g.board.width, g.board.height),
      tray := tray);
  }

  /** Starts a new game on the current tier. */
  method RestartGame(g: GameManager) returns (r: GameManager)
    requires g.Valid()
    ensures r.Valid()
    ensures r.state == Playing && r.difficulty == g.difficulty && r.currentScore == 0
    ensures r.undo.remainingUndos == g.maxUndos && r.undo.maxUndos == g.maxUndos
    ensures r.maxUndos == g.maxUndos && r.scores == g.scores
    ensures r.board.SameShape(g.board) && forall x, y :: r.board.InBounds(x, y) ==> !r.board.cells[x][y]
    ensures r.tray.difficulty == g.difficulty && r.tray.spawnPoints == g.tray.spawnPoints
    ensures TrayFilledFrom(r.tray, g.difficulty)
  {
    r := StartGame(g, g.difficulty);
  }

  /** The remaining pieces as the possibly-null references the fit search takes. */
  function AsRefs(ps: seq<PieceData>): (r: seq<Option<PieceData>>)
    ensures |r| == |ps| && forall k :: 0 <= k < |r| ==> r[k] == Some(ps[k])
  {
    seq(|ps|, k requires 0 <= k < |ps| => Some(ps[k]))
  }

  /** No piece of the list fits anywhere on the board. */
  predicate NoneFits(b: Board, ps: seq<PieceData>)
    requires b.Valid()
  {
    forall k :: 0 <= k < |ps| ==> !CanPieceFitAnywhere(b, Some(ps[k]))
  }

  datatype GameOverReport = GameOverReport(game: GameManager, isNewHighScore: bool)

  /**
   * Ends the game. The score is a new record when it beats the stored
   * all-time best, and only then is it offered to the score keeper, under
   * the current tier.
   */
  function TriggerGameOver(g: GameManager): (r: GameOverReport)
    ensures r.game.state == GameOver
    ensures r.isNewHighScore <==> g.currentScore > GetAllTimeHighScore(g.scores)
    ensures !r.isNewHighScore ==> r.game == g.(state := GameOver)
    ensures r.isNewHighScore ==> r.game.scores == CheckAndSaveHighScore(g.scores, g.currentScore, g.difficulty).manager
    ensures r.isNewHighScore ==>
      && r.game == g.(state := GameOver, scores := r.game.scores)
      && GetHighScore(r.game.scores, g.difficulty) == Max(GetHighScore(g.scores, g.difficulty), g.currentScore)
      && forall d :: d != g.difficulty ==> GetHighScore(r.game.scores, d) == GetHighScore(g.scores, d)
  {
    var over := g.(state := GameOver);
    var currentHigh := GetAllTimeHighScore(g.scores);
    var isNew := g.currentScore > currentHigh;
    if isNew then
      GameOverReport(over.(scores := CheckAndSaveHighScore(g.scores, g.currentScore, g.difficulty).manager), true)
    else GameOverReport(over, false)
  }

  /**
   * While playing with pieces left in the tray, ends the game when none of
   * them fits anywhere; in every other case nothing happens.
   */
  function CheckGameOver(g: GameManager): (r: GameManager)
    requires g.Valid()
    ensures r.Valid()
    ensures g.state != Playing || |GetRemainingPieces(g.tray)| == 0 ==> r == g
    ensures g.state == Playing && |GetRemainingPieces(g.tray)| > 0 ==>
      (r.state == GameOver <==> NoneFits(g.board, GetRemainingPieces(g.tray)))
    ensures r.state != GameOver ==> r == g
    ensures r.state == GameOver && g.state != GameOver ==> r == TriggerGameOver(g).game
    ensures r.board == g.board && r.tray == g.tray && r.currentScore == g.currentScore && r.undo == g.undo
    ensures r.difficulty == g.difficulty && r.maxUndos == g.maxUndos
  {
    if g.state != Playing then g
    else
      var remaining := GetRemainingPieces(g.tray);
      if |remaining| == 0 then g
      else if !CanAnyPieceFit(g.board, AsRefs(remaining)) then TriggerGameOver(g).game
      else g
  }

  /**
   * Adds a placement's score, tells the score keeper, deals a new set when
   * the tray is empty, and then checks for game over against the tray as it
   * now stands.
   */
  method OnBlockPlaced(g: GameManager, scoreToAdd: int, linesCleared: int, isCombo: bool) returns (r: GameManager)
    requires g.Valid()
    ensures r.Valid()
    ensures r.currentScore == g.currentScore + scoreToAdd
    ensures r.board == g.board && r.undo == g.undo && r.difficulty == g.difficulty && r.maxUndos == g.maxUndos
    ensures r.tray.spawnPoints == g.tray.spawnPoints && r.tray.difficulty == g.tray.difficulty
    ensures !AllPiecesPlaced(g.tray) ==> r.tray == g.tray
    ensures AllPiecesPlaced(g.tray) ==> TrayFilledFrom(r.tray, g.tray.difficulty)
    ensures g.state != Playing ==> r.state == g.state
    ensures g.state == Playing ==>
      (r.state == GameOver <==> |GetRemainingPieces(r.tray)| > 0 && NoneFits(r.board, GetRemainingPieces(r.tray)))
    ensures g.state == Playing && r.state != GameOver ==> r.state == Playing
    ensures g.state == Playing && r.state == GameOver ==>
      r == TriggerGameOver(r.(state := Playing, scores := UpdateScore(g.scores, r.currentScore))).game
    ensures g.state != Playing || r.state != GameOver ==> r.scores == UpdateScore(g.scores, r.currentScore)
  {
    var score := g.currentScore + scoreToAdd;
    var g1 := g.(currentScore := score, scores := UpdateScore(g.scores, score));
    if AllPiecesPlaced(g1.tray) {
      var tray := Respawn(g1.tray);
      g1 := g1.(tray := tray);
    }
    r := CheckGameOver(g1);
  }

  /** Sets the score outright and tells the score keeper. */
  function SetScore(g: GameManager, score: int): (r: GameManager)
    ensures r.currentScore == score && r.scores.currentScore == score
    ensures r == g.(currentScore := score, scores := r.scores)
    ensures r.scores.highScore == g.scores.highScore && r.scores.allTimeHighScore == g.scores.allTimeHighScore
    ensures r.scores.store == g.scores.store
  {
    g.(currentScore := score, scores := UpdateScore(g.scores, score))
  }

  /**
   * Spends an undo while playing and while one is left. The board, the tray
   * and the score are not restored: only the counter moves.
   */
  function TryUndo(g: GameManager): (r: GameManager)
    ensures g.state != Playing || !CanUndo(g.undo) ==> r == g
    ensures g.state == Playing && CanUndo(g.undo) ==>
      r == g.(undo := r.undo) && r.undo.remainingUndos == g.undo.remainingUndos - 1
      && r.undo.maxUndos == g.undo.maxUndos
    ensures r.board == g.board && r.tray == g.tray && r.currentScore == g.currentScore && r.state == g.state
  {
    if g.state != Playing then g
    else if CanUndo(g.undo) then g.(undo := Undo.TryUndo(g.undo).manager)
    else g
  }

  function PauseGame(g: GameManager): (r: GameManager)
    ensures g.state == Playing ==> r == g.(state := Paused)
    ensures g.state != Playing ==> r == g
  {
    if g.state == Playing then g.(state := Paused) else g
  }

  function ResumeGame(g: GameManager): (r: GameManager)
    ensures g.state == Paused ==> r == g.(state := Playing)
    ensures g.state != Paused ==> r == g
  {
    if g.state == Paused then g.(state := Playing) else g
  }

  /** Pausing a running game and resuming it gives back the same game. */
  lemma PauseResumeRoundTrip(g: GameManager)
    requires g.state == Playing
    ensures ResumeGame(PauseGame(g)) == g
  {
  }

  /**
   * Back to the menu from any state. The tray is emptied; the grid's
   * occupancy is left as it was (only its visuals are destroyed).
   */
  function ReturnToMenu(g: GameManager): (r: GameManager)
    requires g.Valid()
    ensures r.Valid() && r.state == Menu
    ensures AllPiecesPlaced(r.tray) && GetRemainingPieces(r.tray) == []
    ensures r.board == g.board && r.currentScore == g.currentScore && r.undo == g.undo
    ensures r == g.(state := Menu, tray := r.tray)
    ensures r.tray.spawnPoints == g.tray.spawnPoints && r.tray.difficulty == g.tray.difficulty
  {
    g.(state := Menu, tray := ClearAllPieces(g.tray))
  }

  /** Once over, a game stays over whatever pieces are placed, paused, resumed or undone. */
  lemma GameOverIsSticky(g: GameManager)
    requires g.Valid() && g.state == GameOver
    ensures CheckGameOver(g) == g
    ensures PauseGame(g) == g && ResumeGame(g) == g && TryUndo(g) == g
  {
  }

  /** The in-memory all-time copy never exceeds the stored all-time best. */
  predicate CopyWithinStore(s: ScoreManager) {
    s.allTimeHighScore <= GetAllTimeHighScore(s)
  }

  /**
   * As long as the score keeper's in-memory copy is not above the stored
   * value, ending a game leaves the stored all-time best at the larger of
   * the old best and the final score, and keeps the copy within the store.
   */
  lemma GameOverKeepsAllTimeBest(g: GameManager)
    requires CopyWithinStore(g.scores)
    ensures var s := TriggerGameOver(g).game.scores;
            && GetAllTimeHighScore(s) == Max(GetAllTimeHighScore(g.scores), g.currentScore)
            && CopyWithinStore(s)
  {
  }

  /**
   * A final score that beats the tier's best but not the all-time best is
   * not recorded for the tier.
   */
  lemma TierBestNeedsAllTimeBest(g: GameManager)
    requires GetHighScore(g.scores, g.difficulty) < g.currentScore <= GetAllTimeHighScore(g.scores)
    ensures GetHighScore(TriggerGameOver(g).game.scores, g.difficulty) < g.currentScore
  {
  }
}
