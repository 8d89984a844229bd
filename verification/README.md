# ColorBlocks core in Dafny

ColorBlocks is a block-placement puzzle. The player drags pieces from a tray
of three slots onto a grid, 8 x 8 by default. A piece is a set of cell
offsets from an anchor, and it can be placed only where every cell it covers
is inside the grid and empty. After a placement, every full row and every
full column is cleared. The score grows by one per block, 10 per cleared
line, and 5 more per line on a combo (more than one line at once). When the
tray is empty a new set of three pieces is dealt. The game ends when none of
the pieces still on offer fits anywhere.

This project models the game logic as immutable Dafny datatypes and pure
functions, one module per component of the game:

- `Grid`: the placement engine, GridManager. It covers occupancy, placement
  checks, atomic placement, clearing of rows and columns, and the search for
  a fit.
- `Pieces`: the piece catalog, BlockPieceData. The three tiers hold 7, 12 and
  16 pieces; each tier's pool extends the one below it.
- `Undo`: the undo budget, UndoManager. It is only a counter; no board state
  is ever restored.
- `Game`: the GameManager state machine, with the states Menu, Playing,
  Paused and GameOver.
- `Spawner`: the tray of three slots, BlockSpawner.
- `Drag`: the end of a drag in DraggablePiece. It makes the decision to
  place, computes the score, and fixes the order of notifications.
- `Scores`: the score keeper, ScoreManager, over a persistent integer store.
- `Achievements`: AchievementManager.
- `Settings`: SettingsManager, with the sound, music and vibration flags.
- `Prefs` and `Wrappers`: the key/value store, and `Option` standing in for
  a null reference.
- `Seqs`: facts about duplicate-free and increasing sequences shared by the
  modules above.

Collaborators that the source reaches through possibly-null references
become plain values. Engine randomness (`Random.Range`) becomes a
nondeterministic choice. The engine's persistent store (PlayerPrefs) becomes
a `map<string, int>` in which a missing key reads as the caller's default.
The score keeper and the settings each hold their own map; "## Left out"
says why that loses nothing.

Three behaviours of the code are modelled as written:

- Undo spends one unit of a counter and restores nothing.
- The score keeper decides whether a score is a new all-time record by
  comparing it with its in-memory copy of the all-time best. Nothing ever
  loads that copy, so it starts at 0 (`StaleCopyCanLowerAllTimeBest`).
- At game over, the score is offered to the score keeper only when it beats
  the stored all-time best. A score that beats only the tier's best is
  therefore not recorded for that tier (`TierBestNeedsAllTimeBest`).

## Model

| member | source | states |
|---|---|---|
| Grid.InitializeGrid | Core/GridManager.cs:51-64 | a new occupancy grid has the requested size and every cell is empty |
| Grid.SetCell | Core/GridManager.cs:232-240 | writing one cell changes that cell and no other, and keeps the grid's shape |
| Grid.OffsetsFree | Core/GridManager.cs:143-154 | the loop over offsets succeeds exactly when every target cell is inside the grid and empty |
| Grid.CanPlacePiece | Core/GridManager.cs:139-155 | a piece is placeable iff it is not null and every target cell is in bounds and free; a non-null piece with no offsets is always placeable |
| Grid.MarkCells | Core/GridManager.cs:167-172 | after marking, a cell is occupied iff it was occupied before or is the target of some offset; the shape is unchanged |
| Grid.FullRowsFrom | Core/GridManager.cs:201-209 | the rows collected are in increasing order, each is full, and every full row is collected |
| Grid.FullColsFrom | Core/GridManager.cs:211-219 | the columns collected are in increasing order, each is full, and every full column is collected |
| Grid.IncreasingCard | Core/GridManager.cs:229 | a strictly increasing list has no repeats, so its length is the number of distinct lines |
| Grid.FullRowsCount | Core/GridManager.cs:201-209 | the number of rows collected equals the number of full rows |
| Grid.FullColsCount | Core/GridManager.cs:211-219 | the number of columns collected equals the number of full columns |
| Grid.ClearRow | Core/GridManager.cs:221-223 | clearing row y empties that row from column x on and leaves every other cell as it was |
| Grid.ClearCol | Core/GridManager.cs:225-227 | clearing column x empties that column from row y on and leaves every other cell as it was |
| Grid.ClearRows | Core/GridManager.cs:221-223 | after clearing a list of rows, a cell is empty if its row is listed and keeps its value otherwise |
| Grid.ClearCols | Core/GridManager.cs:225-227 | after clearing a list of columns, a cell is empty if its column is listed and keeps its value otherwise |
| Grid.ClearedCells | Core/GridManager.cs:196-230 | clearing the full rows and then the full columns empties exactly the cells on a line that was full before any clearing |
| Grid.CheckAndClearLines | Core/GridManager.cs:196-230 | lines are detected on the grid as it stands and then all cleared; a cell where a full row meets a full column is cleared twice and adds to both counts, so the result is the number of full rows plus the number of full columns |
| Grid.PlacePiece | Core/GridManager.cs:157-194 | an invalid placement changes nothing and reports failure with 0 lines; a valid one marks the targets, then clears the full lines of the marked grid, with a combo iff more than one line |
| Grid.PlacementOutcomeCells | Core/GridManager.cs:167-191 | after a placement each target cell is occupied iff neither its row nor its column was full once the piece was marked; a cell off the piece on no full line keeps its value |
| Grid.FitsInColumn | Core/GridManager.cs:281-283 | the inner loop finds a fit iff some anchor in the rest of the column accepts the piece |
| Grid.FitsFromColumn | Core/GridManager.cs:281-283 | the outer loop finds a fit iff some in-bounds anchor in the remaining columns accepts the piece |
| Grid.CanPieceFitAnywhere | Core/GridManager.cs:278-285 | true iff the piece is not null and some in-bounds anchor accepts it |
| Grid.CanAnyPieceFit | Core/GridManager.cs:271-276 | true iff some non-null piece of the list fits somewhere; an empty list fits nowhere |
| Grid.FitsAtOriginOfEmptyGrid | Core/GridManager.cs:139-155 | on an empty grid, a piece whose offsets lie inside the grid fits at (0, 0) |
| Grid.CatalogFitsFreshGrid | Core/BlockPieceData.cs:43-132 | every piece of every tier fits at (0, 0) on a fresh 8 x 8 grid |
| Grid.OneHoleAdmitsOnlySingles | Core/GridManager.cs:139-155 | on a grid with exactly one empty cell, a placeable piece whose offsets are distinct (as every catalog piece's are) has at most one block |
| Grid.LineCompletesBottomRow | Core/GridManager.cs:139-172 | a three-cell horizontal line at (5, 0) fits next to five filled cells of row 0 and completes that row |
| Grid.OnlyRowZeroFull | Core/GridManager.cs:201-219 | when only row 0 is occupied, row 0 is the one full row and no column is full |
| Grid.CompletingBottomRowClearsIt | Core/GridManager.cs:157-230 | completing the bottom row clears one line without a combo and leaves the grid empty |
| Grid.BottomRowExample | Core/BlockPieceData.cs:60-62 | the catalog's Line3_H piece, placed at (5, 0) next to five filled bottom cells, clears one line without a combo and leaves the grid empty |
| Pieces.BlockCount | Core/BlockPieceData.cs:22 | a well-formed piece counts at least one block |
| Pieces.BlockCountIsCellCount | Core/BlockPieceData.cs:22 | for a well-formed piece the block count is the number of distinct cells it covers |
| Pieces.EasyPieces | Core/BlockPieceData.cs:47-75 | the easy tier lists 7 well-formed Easy pieces whose offsets lie in [0, 4] |
| Pieces.MediumPieces | Core/BlockPieceData.cs:77-104 | the medium additions are 5 well-formed Medium pieces whose offsets lie in [0, 4] |
| Pieces.HardPieces | Core/BlockPieceData.cs:106-129 | the hard additions are 4 well-formed Hard pieces whose offsets lie in [0, 4] |
| Pieces.GetPiecesForDifficulty | Core/BlockPieceData.cs:43-132 | pools hold 7, 12 and 16 pieces; each is non-empty and duplicate-free, has a minimum tier at most the requested one, and has offsets in [0, 4] |
| Pieces.PoolsArePrefixes | Core/BlockPieceData.cs:77-129 | a lower tier's pool is a prefix of a higher tier's pool |
| Pieces.PickRandom | Core/BlockPieceData.cs:24-29 | an empty pool yields null; otherwise the pick is a member of the pool |
| Pieces.GetRandomPiece | Core/BlockPieceData.cs:24-29 | a random piece of any tier is never null and comes from that tier's pool |
| Undo.ResetUndos | Core/UndoManager.cs:26-31 | the budget and the remaining count are both set to the given maximum |
| Undo.GetRemainingUndos | Core/UndoManager.cs:45-48 | the count reported is the remaining count, with no side effect |
| Undo.HasUndos | Core/UndoManager.cs:50-53 | HasUndos always answers the same as CanUndo |
| Undo.CanUndo | Core/UndoManager.cs:55-58 | an undo is possible iff the reported remaining count is positive |
| Undo.UndoQueriesAgree | Core/UndoManager.cs:26-58 | the two queries agree; after a reset to n the count reads n and an undo is possible iff n > 0; an undo lowers the reported count by one exactly when CanUndo held |
| Undo.TryUndo | Core/UndoManager.cs:33-58 | an undo succeeds iff one is left, as CanUndo and HasUndos report; a refusal changes nothing; a success lowers the count by exactly one; the count never goes below 0 from a non-negative start |
| Undo.TryUndoTimesCount | Core/UndoManager.cs:33-43 | n undos in a row from count c succeed min(n, c) times and leave max(c - n, 0) |
| Undo.ResetGivesExactlyNUndos | Core/UndoManager.cs:26-43 | after a reset to n, exactly n undos succeed and the next is refused |
| Game.Respawn | Core/BlockSpawner.cs:55-75 | dealing a new set fills every slot that has a spawn point with a piece of the tray's tier |
| Game.StartGame | Core/GameManager.cs:48-73 | starting a game sets Playing, the tier and score 0, refills the undo budget, empties the grid, and deals a set from the tier's pool |
| Game.RestartGame | Core/GameManager.cs:153-156 | a restart starts a new game on the current tier: Playing, score 0, the undo budget refilled, an empty grid of the same size, the score keeper untouched, and a new set of that tier dealt at the same spawn points |
| Game.AsRefs | Core/GameManager.cs:109-112 | the remaining pieces are handed to the fit search unchanged and in order |
| Game.TriggerGameOver | Core/GameManager.cs:120-141 | the state becomes GameOver; the game reports a new record iff the score beats the stored all-time best, and only then is the score offered to the score keeper, whose result becomes the new score keeper; otherwise nothing but the state changes |
| Game.CheckGameOver | Core/GameManager.cs:104-118 | outside Playing, or with no piece on offer, nothing happens; otherwise the game ends iff no piece on offer fits, and an ending is exactly TriggerGameOver; the grid, tray, score, tier and undo settings are never touched |
| Game.OnBlockPlaced | Core/GameManager.cs:75-91 | the score grows by the amount given; a new set is dealt iff the tray was empty; a Playing game then ends iff pieces are on offer and none of them fits, and otherwise stays Playing; outside Playing the state is kept; the score keeper is told the new score, and when the placement ends a Playing game the result is exactly TriggerGameOver applied to the game as it stood after that update |
| Game.SetScore | Core/GameManager.cs:93-102 | the score is set and the score keeper's running score follows it; the keeper's bests and store and the rest of the game are unchanged |
| Game.TryUndo | Core/GameManager.cs:143-151 | while Playing with an undo left, one undo is spent and the budget is kept; otherwise nothing happens; the board, the tray and the score are never restored |
| Game.PauseGame | Core/GameManager.cs:158-165 | only a running game pauses |
| Game.ResumeGame | Core/GameManager.cs:167-174 | only a paused game resumes |
| Game.PauseResumeRoundTrip | Core/GameManager.cs:158-174 | pausing and then resuming a running game gives back the same game |
| Game.ReturnToMenu | Core/GameManager.cs:176-190 | returning to the menu empties the tray, keeping its spawn points and tier, and changes nothing else: the grid's occupancy, score, tier, undo settings and score keeper stay as they were |
| Game.GameOverIsSticky | Core/GameManager.cs:104-174 | a finished game is not changed by a game-over check, a pause, a resume or an undo |
| Game.GameOverKeepsAllTimeBest | Core/GameManager.cs:120-141 | when the in-memory copy does not exceed the stored all-time best, game over leaves that best at the larger of the old best and the final score |
| Game.TierBestNeedsAllTimeBest | Core/GameManager.cs:127-132 | a score that beats the tier's best but not the all-time best is not recorded for the tier |
| Spawner.SetDifficulty | Core/BlockSpawner.cs:50-53 | only the tray's tier changes |
| Spawner.OnPiecePlaced | Core/BlockSpawner.cs:127-134 | placing from slot i empties that slot only; an index outside the three slots changes nothing |
| Spawner.NoObjectsFrom | Core/BlockSpawner.cs:138-140 | the loop answers true iff no slot from i on still holds a piece object |
| Spawner.AllPiecesPlaced | Core/BlockSpawner.cs:136-141 | true iff no slot holds a piece object; the data is not consulted |
| Spawner.RemainingFrom | Core/BlockSpawner.cs:146-148 | the pieces listed come exactly from the live slots from i on |
| Spawner.GetRemainingPieces | Core/BlockSpawner.cs:143-150 | the list holds each live slot's piece, at most three, and is empty iff no slot is live |
| Spawner.LiveSlotsFrom | Core/BlockSpawner.cs:146-147 | the slots visited from i on whose object and data are both present, in increasing order, and no others |
| Spawner.RemainingFromInSlotOrder | Core/BlockSpawner.cs:146-148 | the k-th piece collected from slot i on is the piece of the k-th live slot from i on |
| Spawner.PiecesOfSlotsCons | Core/BlockSpawner.cs:147-148 | appending a live slot's piece keeps the collected list matched with the slots it came from |
| Spawner.RemainingInSlotOrder | Core/BlockSpawner.cs:143-150 | the remaining pieces are listed in slot order: the k-th entry is the piece of the k-th live slot |
| Spawner.AllPlacedMeansNoneRemaining | Core/BlockSpawner.cs:136-150 | once every piece object is gone, nothing is on offer |
| Spawner.ClearAllPieces | Core/BlockSpawner.cs:152-163 | every slot is emptied and nothing is on offer afterwards |
| Spawner.SpawnPieceAtSlot | Core/BlockSpawner.cs:77-109 | an index outside the three slots, or a slot without a spawn point, changes nothing; otherwise only that slot receives the piece |
| Spawner.SpawnNewSet | Core/BlockSpawner.cs:55-75 | each slot draws from the tier's pool; a slot draws 1 to 20 times and keeps a repeated choice only after 20 draws; slots with a spawn point hold the chosen piece and the others are empty |
| Spawner.NewSetFillsTray | Core/BlockSpawner.cs:55-75 | with all three spawn points present, a new set puts three pieces on offer |
| Spawner.CalculatePieceCenter | Core/BlockSpawner.cs:111-125 | the result is twice the centre of the bounding box, taken from the least and greatest offsets on each axis; a piece without offsets gives (0, 0) |
| Drag.PlacementScore | Core/DraggablePiece.cs:161-164 | a placement scores at least its block count, exactly that when no line clears, and 10 more per cleared line, or 15 per line on a combo |
| Drag.PlacementScoreByLines | Core/DraggablePiece.cs:161-164 | a placement scores its block count, plus 10 for a single line or 15 per line for two or more lines |
| Drag.PlacementNotices | Core/DraggablePiece.cs:166-182 | a placement first empties the slot, then tells the game the score, and only when lines were cleared tells the line-clear listeners |
| Drag.EndDrag | Core/DraggablePiece.cs:111-190 | a piece is placed iff the grid accepts it at the anchor; otherwise nothing changes and nothing is announced; after a placement the grid, the score, the order of notices, the new set and game over follow the rules above; the tray keeps its spawn points and tier and the undo budget is kept; when a piece object remains after the slot is emptied, the tray is the old one with only that slot emptied, a Playing game that does not end stays Playing and any other state is kept; the score keeper is told the new score, and when the placement ends a Playing game the result is exactly TriggerGameOver applied to the game as it stood after that update |
| Scores.ResetScore | Core/ScoreManager.cs:38-42 | the running score becomes 0 and nothing else changes |
| Scores.UpdateScore | Core/ScoreManager.cs:44-48 | the running score takes the new value and nothing else changes |
| Scores.GetHighScoreKey | Core/ScoreManager.cs:88-97 | each tier's key is one of the three tier keys and never the all-time key |
| Scores.GetHighScore | Core/ScoreManager.cs:99-103 | the tier's best is the stored value under its key, or 0 when none is stored |
| Scores.GetAllTimeHighScore | Core/ScoreManager.cs:105-108 | the all-time best is the stored value under its key, or 0 when none is stored |
| Scores.HighScoreKeysDistinct | Core/ScoreManager.cs:88-97 | the three tiers use three different keys, none of them the all-time key |
| Scores.MissingScoresReadZero | Core/ScoreManager.cs:99-108 | a best score that was never stored reads as 0 |
| Scores.LoadHighScore | Core/ScoreManager.cs:50-56 | the in-memory bests become the stored tier best and the stored all-time best |
| Scores.CheckAndSaveHighScore | Core/ScoreManager.cs:58-86 | the tier's best becomes the larger of the old best and the score, and the result says whether it grew; the all-time entry is overwritten iff the score beats the in-memory copy; other tiers and keys are untouched |
| Scores.StaleCopyCanLowerAllTimeBest | Core/ScoreManager.cs:72-76 | with the in-memory copy at 0, a score of 50 replaces a stored all-time best of 100 |
| Prefs.SetInt | Core/ScoreManager.cs:67 | a write is read back and leaves every other key as it was |
| Settings.LoadSettings | Core/SettingsManager.cs:38-43 | a missing flag reads as on; a stored flag is on iff its value is 1 |
| Settings.SaveSettings | Core/SettingsManager.cs:45-51 | loading what was saved gives back the saved flags, and other keys are untouched |
| Settings.Awake | Core/SettingsManager.cs:23-36 | the starting flags are exactly the ones the store holds, and the store is kept as it is |
| Settings.SetSoundEnabled | Core/SettingsManager.cs:53-58 | only the sound flag takes the new value; the store then loads as the current flags and every other key of the store is kept |
| Settings.SetMusicEnabled | Core/SettingsManager.cs:60-65 | only the music flag takes the new value; the store then loads as the current flags and every other key of the store is kept |
| Settings.SetVibrationEnabled | Core/SettingsManager.cs:67-72 | only the vibration flag takes the new value; the store then loads as the current flags and every other key of the store is kept |
| Settings.ToggleSound | Core/SettingsManager.cs:74-77 | the sound flag flips and the others stay; the store is saved, so it loads as the new flags, and every other key of the store is kept |
| Settings.ToggleMusic | Core/SettingsManager.cs:79-82 | the music flag flips and the others stay; the store is saved, so it loads as the new flags, and every other key of the store is kept |
| Settings.ToggleVibration | Core/SettingsManager.cs:84-87 | the vibration flag flips and the others stay; the store is saved, so it loads as the new flags, and every other key of the store is kept |
| Settings.ToggleTwiceRestores | Core/SettingsManager.cs:74-87 | toggling a flag twice restores the flags |
| Settings.ResetToDefaults | Core/SettingsManager.cs:89-96 | every flag is on; the store then loads as all on and every other key of the store is kept |
| Settings.SavingSettingsKeepsScores | Core/SettingsManager.cs:45-51 | saving the flags leaves every saved best score, per tier and all-time, as it was |
| Settings.FreshStoreLoadsDefaults | Core/SettingsManager.cs:38-43 | an empty store loads the defaults: everything on |
| Achievements.NewAchievement | Achievements/AchievementManager.cs:15-23 | a new achievement keeps its id, title, description and target, and is locked with value 0 |
| Achievements.InitializeAchievements | Achievements/AchievementManager.cs:52-66 | the built-in achievements are keyed by their own ids, and each is locked with value 0 |
| Seqs.DistinctCard | Achievements/AchievementManager.cs:54-65 | a sequence without duplicates has as many distinct elements as entries |
| Achievements.ElevenAchievements | Achievements/AchievementManager.cs:54-65 | there are exactly eleven built-in achievements |
| Achievements.UpdateProgress | Achievements/AchievementManager.cs:104-119 | an unknown or unlocked id changes nothing; otherwise the value replaces the current one, and the achievement unlocks iff the value reaches the target, with the value then pinned to the target; other entries and the totals are untouched |
| Achievements.ProgressedTransitive | Achievements/AchievementManager.cs:106-114 | keeping ids, titles, descriptions, targets and unlocked entries is preserved along a chain of updates |
| Achievements.OnGameStarted | Achievements/AchievementManager.cs:68-71 | starting a game reports 1 to "first_game", unlocking it when its target is at most 1; no other entry, no name or description and neither total changes |
| Achievements.ReportToThree | Achievements/AchievementManager.cs:73-86 | reporting one value to three different achievements in turn applies the unlock rule to each of them, keeps every id, title, description and target, and leaves every other entry and both totals unchanged |
| Achievements.OnScoreChanged | Achievements/AchievementManager.cs:73-78 | the score is reported to the three score achievements: each one still locked unlocks iff the score reaches its target, and holds the score capped at the target; no other entry and no id, title, description or target changes |
| Achievements.OnLineCleared | Achievements/AchievementManager.cs:80-92 | the line total grows by the lines cleared and the combo total by one iff a combo happened; the new line total is reported to the three line achievements and, on a combo, the new combo total to the combo achievement, each still-locked one unlocking iff the total reaches its target; no other entry and no id, title, description or target changes |
| Achievements.OnGameOver | Achievements/AchievementManager.cs:94-102 | a score under 50 changes nothing; otherwise 1 is reported to the win achievement of the tier played, which unlocks when its target is at most 1; no other entry and no id, title, description or target changes |
| Seqs.SubsetCard | Achievements/AchievementManager.cs:126-132 | a subset is no larger than the set that holds it |
| Achievements.GetUnlockedCount | Achievements/AchievementManager.cs:126-132 | the count is the number of unlocked entries, and no more than the number of entries |
| Achievements.Fresh | Achievements/AchievementManager.cs:52-66 | a fresh manager has eleven entries, none unlocked |
| Achievements.UnlockedAtMostEleven | Achievements/AchievementManager.cs:126-132 | a manager holding the eleven built-in ids, which every update keeps, has at most eleven unlocked achievements |

## Left out

- Rendering, sprites, colours of placed blocks, the placement preview (`ShowPlacementPreview`, `ClearPreview`) and the `placedBlocks` matrix. These are visuals only; the occupancy grid alone decides placement.
- `ClearGrid`: it destroys visuals only. This is why `ReturnToMenu` leaves the occupancy grid as it was.
- `WorldToGrid`, `GridToWorld` and the screen-to-world conversion in `EndDrag`. They are floating-point geometry, so the grid anchor is a parameter of `Drag.EndDrag`.
- Input handling, `TryStartDrag`, `UpdateDrag`, `CancelDrag` and `ReturnToOriginal`. These move game objects only.
- UIManager and AudioManager are not part of this model. Notifications to them appear only as the `Drag.Notice` sequence and the `isNewHighScore` flag.
- Unity events (`OnScoreChanged`, `OnGameStart`, `OnGameOver`, `OnUndoCountChanged`, `OnSettingsChanged`, `OnAchievementUnlocked`). They only inform listeners.
- `Time.timeScale` in pause, resume and return to menu. It is engine timing, not game state.
- Singleton `Awake`/`OnDestroy` bookkeeping, and the null checks on collaborators. Every collaborator is assumed present.
- `PlayerPrefs.Save` and the real file I/O behind the store. The store is an in-memory map.
- Achievement persistence (`SaveAchievements`, `LoadAchievements`). It copies the entries to and from the store and adds no game rule.
- `GetAllAchievements`. It returns the dictionary's values in an unspecified order.
- Random piece colours in `SpawnNewSet`. They are cosmetic.
- Spawner.SpawnNewSet: the random draws are nondeterministic choices, so the contract states which outcomes are possible, not their distribution.
- Spawner.CalculatePieceCenter: returns twice the centre as integers, because the source halves a float; the halving is left to the caller.
- One store shared by the score keeper, the settings and the achievements is modelled as two separate maps, `ScoreManager.store` and `SettingsManager.store`. Their keys are disjoint, and each writer keeps every key but its own (`Settings.OtherKeysKept`, `Settings.SavingSettingsKeepsScores`, `Scores.CheckAndSaveHighScore`), so no write of one component can change what another reads. Achievement persistence, the third user, is left out as listed above.
- 32-bit integer overflow of the running score and of the totals. Dafny integers are unbounded, and real games stay far below the limit.
- A snapshot-based undo that restores the board, the tray and the score is not modelled. The code keeps no snapshot, so undo only spends a counter.
