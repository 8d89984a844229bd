/**
 * The undo budget. There is no history of board states: an undo only spends
 * one unit of a counter that is refilled when a game starts.
 */
module Undo {

  datatype UndoManager = UndoManager(maxUndos: int, remainingUndos: int)

  /** Sets both the budget and the remaining count to `maxCount`. */
  function ResetUndos(u: UndoManager, maxCount: int): (r: UndoManager)
    ensures r.maxUndos == maxCount && r.remainingUndos == maxCount
  {
    UndoManager(maxCount, maxCount)
  }

  /** The number of undos left. */
  function GetRemainingUndos(u: UndoManager): (n: int)
    ensures n == u.remainingUndos
  {
    u.remainingUndos
  }

  /** Whether an undo is left; the same question as CanUndo. */
  function HasUndos(u: UndoManager): (b: bool)
    ensures b <==> CanUndo(u)
  {
    u.remainingUndos > 0
  }

  /** Whether an undo would be accepted: some of the budget is left. */
  function CanUndo(u: UndoManager): (b: bool)
    ensures b <==> GetRemainingUndos(u) > 0
    ensures b ==> u.remainingUndos >= 1
  {
    u.remainingUndos > 0
  }

  datatype UndoStep = UndoStep(manager: UndoManager, undone: bool)

  /**
   * Spends one undo if any is left. A refused undo changes nothing; an
   * accepted one lowers the remaining count by exactly one.
   */
  function TryUndo(u: UndoManager): (r: UndoStep)
    ensures r.undone <==> CanUndo(u)
    ensures r.undone <==> HasUndos(u)
    ensures !r.undone ==> r.manager == u
    ensures r.undone ==> r.manager == u.(remainingUndos := u.remainingUndos - 1)
    ensures u.remainingUndos >= 0 ==> r.manager.remainingUndos >= 0
  {
    if u.remainingUndos <= 0 then UndoStep(u, false)
    else UndoStep(u.(remainingUndos := u.remainingUndos - 1), true)
  }

  /**
   * The three queries agree with what the counter operations do: a reset to n
   * reports n left, and an undo lowers the report by one exactly when one was
   * available.
   */
  lemma UndoQueriesAgree(u: UndoManager, n: int)
    ensures HasUndos(u) == CanUndo(u)
    ensures GetRemainingUndos(ResetUndos(u, n)) == n
    ensures CanUndo(ResetUndos(u, n)) <==> n > 0
    ensures GetRemainingUndos(TryUndo(u).manager) == GetRemainingUndos(u) - (if CanUndo(u) then 1 else 0)
  {
  }

  datatype UndoRun = UndoRun(manager: UndoManager, succeeded: nat)

  /** Calls TryUndo n times in a row, counting the calls that succeed. */
  function TryUndoTimes(u: UndoManager, n: nat): UndoRun
    decreases n
  {
    if n == 0 then UndoRun(u, 0)
    else
      var step := TryUndo(u);
      var rest := TryUndoTimes(step.manager, n - 1);
      UndoRun(rest.manager, rest.succeeded + if step.undone then 1 else 0)
  }

  /**
   * From a non-negative count c, n calls succeed min(n, c) times and leave
   * max(c - n, 0) undos; the budget itself never moves.
   */
  lemma {:induction false} TryUndoTimesCount(u: UndoManager, n: nat)
    requires u.remainingUndos >= 0
    decreases n
    ensures var run := TryUndoTimes(u, n);
            && run.succeeded == (if n <= u.remainingUndos then n else u.remainingUndos)
            && run.manager.remainingUndos == (if n <= u.remainingUndos then u.remainingUndos - n else 0)
            && run.manager.maxUndos == u.maxUndos
  {
    if n > 0 {
      TryUndoTimesCount(TryUndo(u).manager, n - 1);
    }
  }

  /** After ResetUndos(n), exactly n undos in a row succeed and the next one is refused. */
  lemma ResetGivesExactlyNUndos(u: UndoManager, n: nat)
    ensures TryUndoTimes(ResetUndos(u, n), n).succeeded == n
    ensures !TryUndo(TryUndoTimes(ResetUndos(u, n), n).manager).undone
  {
    TryUndoTimesCount(ResetUndos(u, n), n);
  }
}
