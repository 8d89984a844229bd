/**
 * The end of a drag: the piece is placed when the grid accepts it and
 * otherwise goes back to its slot. A placement is scored, and the tray,
 * the game and the line-clear listeners are told in a fixed order.
 */
module Drag {
  import opened Wrappers
  import opened Pieces
  import opened Grid
  import opened Spawner
  import opened Game
  import opened Scores

  /** One cell per block, 10 per cleared line, and 5 more per line on a combo. */
  function PlacementScore(blockCount: nat, r: PlacementResult): (s: int)
    ensures s >= blockCount
    ensures r.linesCleared == 0 ==> s == blockCount
    ensures s - blockCount == r.linesCleared * (if r.isCombo then 15 else 10)
  {
    blockCount + r.linesCleared * 10 + (if r.isCombo then r.linesCleared * 5 else 0)
  }

  /**
   * The score is never below the block count and equals it when no line is
   * cleared. With a combo exactly when more than one line clears, one line
   * scores 10 extra and k >= 2 lines score 15k extra.
   */
  lemma PlacementScoreByLines(blockCount: nat, lines: nat)
    ensures var r := PlacementResult(true, lines, lines > 1);
            && PlacementScore(blockCount, r) >= blockCount
            && (lines == 0 ==> PlacementScore(blockCount, r) == blockCount)
            && (lines == 1 ==> PlacementScore(blockCount, r) == blockCount + 10)
            && (lines >= 2 ==> PlacementScore(blockCount, r) == blockCount + 15 * lines)
  {
  }

  /** What a successful placement announces, in order. */
  datatype Notice =
    | SlotEmptied(slot: int)
    | BlockPlaced(score: int, linesCleared: nat, isCombo: bool)
    | LinesCleared(lines: nat, isCombo: bool)

  /**
   * The announcements of a placement: the tray slot is emptied first, then
   * the game is told the score, then the line-clear listeners are told, but
   * only when lines were cleared.
   */
  function PlacementNotices(slot: int, blockCount: nat, r: PlacementResult): (ns: seq<Notice>)
    requires r.success
    ensures |ns| == (if r.linesCleared > 0 then 3 else 2)
    ensures ns[0] == SlotEmptied(slot)
    ensures ns[1] == BlockPlaced(PlacementScore(blockCount, r), r.linesCleared, r.isCombo)
    ensures forall k :: 0 <= k < |ns| && ns[k].LinesCleared? ==> k == 2 && r.linesCleared > 0
  {
    [SlotEmptied(slot), BlockPlaced(PlacementScore(blockCount, r), r.linesCleared, r.isCombo)]
    + (if r.linesCleared > 0 then [LinesCleared(r.linesCleared, r.isCombo)] else [])
  }

  /**
   * Drops the piece of tray slot `slot` with its anchor on `anchor`. When the
   * grid refuses it (or there is no piece) nothing changes and nothing is
   * announced. Otherwise the piece is placed, the slot is emptied, and only
   * then the game adds the score, possibly dealing a new set and ending the
   * game.
   */
  method EndDrag(g: GameManager, slot: int, piece: Option<PieceData>, anchor: Vec)
    returns (r: GameManager, placed: bool, notices: seq<Notice>)
    requires g.Valid()
    ensures r.Valid()
    ensures placed <==> CanPlacePiece(g.board, piece, anchor)
    ensures !placed ==> r == g && notices == []
    ensures placed ==>
      var p := PlacePiece(g.board, piece, anchor);
      && notices == PlacementNotices(slot, BlockCount(piece.value), p.result)
      && r.board == p.board
      && r.currentScore == g.currentScore + PlacementScore(BlockCount(piece.value), p.result)
      && r.undo == g.undo && r.difficulty == g.difficulty
    ensures placed && 0 <= slot < SlotCount && (forall j :: 0 <= j < SlotCount && j != slot ==> !g.tray.objects[j]) ==>
      TrayFilledFrom(r.tray, g.tray.difficulty)
    ensures placed && g.state == Playing ==>
      (r.state == GameOver <==> |GetRemainingPieces(r.tray)| > 0 && NoneFits(r.board, GetRemainingPieces(r.tray)))
    ensures placed ==> r.tray.spawnPoints == g.tray.spawnPoints && r.tray.difficulty == g.tray.difficulty
    ensures placed ==> r.maxUndos == g.maxUndos
    ensures placed && g.state == Playing && r.state != GameOver ==> r.state == Playing
    ensures placed && g.state != Playing ==> r.state == g.state
    ensures placed && !AllPiecesPlaced(OnPiecePlaced(g.tray, slot)) ==> r.tray == OnPiecePlaced(g.tray, slot)
    ensures placed && (g.state != Playing || r.state != GameOver) ==> r.scores == UpdateScore(g.scores, r.currentScore)
    ensures placed && g.state == Playing && r.state == GameOver ==>
      r == TriggerGameOver(r.(state := Playing, scores := UpdateScore(g.scores, r.currentScore))).game
  {
    if piece.None? || !CanPlacePiece(g.board, piece, anchor) {
      return g, false, [];
    }
    var p := PlacePiece(g.board, piece, anchor);
    placed := p.result.success;
    if placed {
      var score := PlacementScore(BlockCount(piece.value), p.result);
      notices := PlacementNotices(slot, BlockCount(piece.value), p.result);
      var g1 := g.(board := p.board, tray := OnPiecePlaced(g.tray, slot));
      r := OnBlockPlaced(g1, score, p.result.linesCleared, p.result.isCombo);
    } else {
      r, notices := g, [];
    }
  }
}
