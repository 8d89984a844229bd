/**
 * The tray of three slots from which pieces are dragged. Each slot holds a
 * piece object (present or not) and the piece data behind it; a slot can only
 * be filled if it has a spawn point.
 */
module Spawner {
  import opened Wrappers
  import opened Pieces
  import opened Seqs

  const SlotCount: nat := 3

  /** How many draws a slot may take while looking for a piece not yet chosen in the same set. */
  const MaxAttempts: nat := 20

  datatype Tray = Tray(objects: seq<bool>, data: seq<Option<PieceData>>, spawnPoints: seq<bool>, difficulty: Difficulty) {
    predicate Valid() {
      |objects| == SlotCount && |data| == SlotCount && |spawnPoints| == SlotCount
    }
  }

  /** A slot whose piece is still on offer: both its object and its data are present. */
  predicate Live(t: Tray, i: nat)
    requires t.Valid() && i < SlotCount
  {
    t.objects[i] && t.data[i].Some?
  }

  function SetDifficulty(t: Tray, d: Difficulty): (r: Tray)
    ensures r.difficulty == d && r.objects == t.objects && r.data == t.data && r.spawnPoints == t.spawnPoints
  {
    t.(difficulty := d)
  }

  /** Empties slot i (object and data) when i names a slot; any other index changes nothing. */
  function OnPiecePlaced(t: Tray, i: int): (r: Tray)
    requires t.Valid()
    ensures r.Valid() && r.spawnPoints == t.spawnPoints && r.difficulty == t.difficulty
    ensures 0 <= i < SlotCount ==> !r.objects[i] && r.data[i].None?
    ensures forall j :: 0 <= j < SlotCount && j != i ==> r.objects[j] == t.objects[j] && r.data[j] == t.data[j]
    ensures !(0 <= i < SlotCount) ==> r == t
  {
    if 0 <= i < SlotCount then t.(objects := t.objects[i := false], data := t.data[i := None]) else t
  }

  /** No slot from i onwards holds a piece object. */
  function NoObjectsFrom(t: Tray, i: nat): (r: bool)
    requires t.Valid() && i <= SlotCount
    decreases SlotCount - i
    ensures r <==> forall j :: i <= j < SlotCount ==> !t.objects[j]
  {
    if i == SlotCount then true
    else if t.objects[i] then false
    else NoObjectsFrom(t, i + 1)
  }

  /** Whether every slot's piece object is gone; the data is not consulted. */
  function AllPiecesPlaced(t: Tray): (r: bool)
    requires t.Valid()
    ensures r <==> forall j :: 0 <= j < SlotCount ==> !t.objects[j]
  {
    NoObjectsFrom(t, 0)
  }

  /** The live slots from i onwards, in increasing order. */
  function LiveSlotsFrom(t: Tray, i: nat): (s: seq<nat>)
    requires t.Valid() && i <= SlotCount
    decreases SlotCount - i
    ensures Increasing(s)
    ensures forall k :: 0 <= k < |s| ==> i <= s[k] < SlotCount && Live(t, s[k])
    ensures forall j :: i <= j < SlotCount && Live(t, j) ==> j in s
  {
    if i == SlotCount then []
    else if Live(t, i) then [i] + LiveSlotsFrom(t, i + 1)
    else LiveSlotsFrom(t, i + 1)
  }

  /** Piece `p` is the data of some live slot from i onwards. */
  predicate FromLiveSlot(t: Tray, i: nat, p: PieceData)
    requires t.Valid()
  {
    exists j :: i <= j < SlotCount && Live(t, j) && t.data[j] == Some(p)
  }

  /** The data of the live slots from i onwards, in slot order. */
  function RemainingFrom(t: Tray, i: nat): (r: seq<PieceData>)
    requires t.Valid() && i <= SlotCount
    decreases SlotCount - i
    ensures |r| <= SlotCount - i
    ensures forall k :: 0 <= k < |r| ==> FromLiveSlot(t, i, r[k])
    ensures forall j :: i <= j < SlotCount && Live(t, j) ==> t.data[j].value in r
  {
    if i == SlotCount then []
    else if Live(t, i) then [t.data[i].value] + RemainingFrom(t, i + 1)
    else RemainingFrom(t, i + 1)
  }

  /**
   * The pieces still on offer: every entry comes from a live slot and every
   * live slot contributes its piece. There are at most three.
   */
  function GetRemainingPieces(t: Tray): (r: seq<PieceData>)
    requires t.Valid()
    ensures |r| <= SlotCount
    ensures forall k :: 0 <= k < |r| ==> FromLiveSlot(t, 0, r[k])
    ensures forall j :: 0 <= j < SlotCount && Live(t, j) ==> t.data[j].value in r
    ensures |r| == 0 <==> forall j :: 0 <= j < SlotCount ==> !Live(t, j)
  {
    RemainingFrom(t, 0)
  }

  /** `r` lists, position by position, the pieces of the slots named in `slots`. */
  predicate PiecesOfSlots(t: Tray, r: seq<PieceData>, slots: seq<nat>)
    requires t.Valid()
  {
    |r| == |slots| && forall k :: 0 <= k < |r| ==> slots[k] < SlotCount && t.data[slots[k]] == Some(r[k])
  }

  /** The pieces listed from slot i on are those of the live slots from i on, in slot order. */
  lemma {:induction false} RemainingFromInSlotOrder(t: Tray, i: nat)
    requires t.Valid() && i <= SlotCount
    decreases SlotCount - i
    ensures PiecesOfSlots(t, RemainingFrom(t, i), LiveSlotsFrom(t, i))
  {
    if i < SlotCount {
      RemainingFromInSlotOrder(t, i + 1);
      var r, r' := RemainingFrom(t, i), RemainingFrom(t, i + 1);
      var s, s' := LiveSlotsFrom(t, i), LiveSlotsFrom(t, i + 1);
      if Live(t, i) {
        assert r == [t.data[i].value] + r' && s == [i] + s';
        PiecesOfSlotsCons(t, t.data[i].value, r', i, s');
        assert PiecesOfSlots(t, r, s);
      } else {
        assert r == r' && s == s';
        assert PiecesOfSlots(t, r, s);
      }
    } else {
      assert RemainingFrom(t, i) == [] && LiveSlotsFrom(t, i) == [];
    }
  }

  /** Putting a live slot in front of both lists keeps them matched. */
  lemma PiecesOfSlotsCons(t: Tray, p: PieceData, r: seq<PieceData>, i: nat, slots: seq<nat>)
    requires t.Valid() && i < SlotCount && t.data[i] == Some(p)
    requires PiecesOfSlots(t, r, slots)
    ensures PiecesOfSlots(t, [p] + r, [i] + slots)
  {
    forall k | 0 < k < |r| + 1
      ensures ([i] + slots)[k] < SlotCount && t.data[([i] + slots)[k]] == Some(([p] + r)[k])
    {
      assert ([p] + r)[k] == r[k - 1] && ([i] + slots)[k] == slots[k - 1];
    }
  }

  /**
   * The pieces on offer come in slot order: the k-th entry is the piece of
   * the k-th live slot, counting slots upwards.
   */
  lemma RemainingInSlotOrder(t: Tray)
    requires t.Valid()
    ensures var r := GetRemainingPieces(t);
            var live := LiveSlotsFrom(t, 0);
            && Increasing(live)
            && (forall j :: 0 <= j < SlotCount ==> (j in live <==> Live(t, j)))
            && PiecesOfSlots(t, r, live)
  {
    RemainingFromInSlotOrder(t, 0);
  }

  /** A live slot still has its object, so nothing is on offer once every piece is placed. */
  lemma AllPlacedMeansNoneRemaining(t: Tray)
    requires t.Valid() && AllPiecesPlaced(t)
    ensures GetRemainingPieces(t) == []
  {
  }

  /** Empties every slot; spawn points and difficulty stay. */
  function ClearAllPieces(t: Tray): (r: Tray)
    requires t.Valid()
    ensures r.Valid() && r.spawnPoints == t.spawnPoints && r.difficulty == t.difficulty
    ensures forall j :: 0 <= j < SlotCount ==> !r.objects[j] && r.data[j].None?
    ensures AllPiecesPlaced(r) && GetRemainingPieces(r) == []
  {
    t.(objects := [false, false, false], data := [None, None, None])
  }

  /**
   * Puts a piece into slot i. An index outside the three slots, or a slot
   * without a spawn point, is ignored.
   */
  function SpawnPieceAtSlot(t: Tray, i: int, p: PieceData): (r: Tray)
    requires t.Valid()
    ensures r.Valid() && r.spawnPoints == t.spawnPoints && r.difficulty == t.difficulty
    ensures !(0 <= i < SlotCount) || !t.spawnPoints[i] ==> r == t
    ensures 0 <= i < SlotCount && t.spawnPoints[i] ==> r.objects[i] && r.data[i] == Some(p)
    ensures forall j :: 0 <= j < SlotCount && j != i ==> r.objects[j] == t.objects[j] && r.data[j] == t.data[j]
  {
    if !(0 <= i < SlotCount) then t
    else if !t.spawnPoints[i] then t
    else t.(objects := t.objects[i := true], data := t.data[i := Some(p)])
  }

  /**
   * Clears the tray and fills each slot with a random piece of the tray's
   * tier. A slot keeps drawing while its draw repeats an earlier slot's
   * choice, for at most 20 draws, so a repeat is kept only after 20 draws.
   * Returned besides the tray: each slot's chosen pool index and its number
   * of draws.
   */
  method SpawnNewSet(t: Tray) returns (r: Tray, chosen: seq<nat>, attempts: seq<nat>)
    requires t.Valid()
    ensures r.Valid() && r.spawnPoints == t.spawnPoints && r.difficulty == t.difficulty
    ensures |chosen| == SlotCount && |attempts| == SlotCount
    ensures forall i :: 0 <= i < SlotCount ==> chosen[i] < |GetPiecesForDifficulty(t.difficulty)|
    ensures forall i :: 0 <= i < SlotCount ==> 1 <= attempts[i] <= MaxAttempts
    ensures forall i :: 0 <= i < SlotCount && chosen[i] in chosen[..i] ==> attempts[i] == MaxAttempts
    ensures forall i :: 0 <= i < SlotCount ==>
      r.objects[i] == t.spawnPoints[i]
      && r.data[i] == (if t.spawnPoints[i] then Some(GetPiecesForDifficulty(t.difficulty)[chosen[i]]) else None)
  {
    r := ClearAllPieces(t);
    var pool := GetPiecesForDifficulty(t.difficulty);
    chosen := [];
    attempts := [];
    var i := 0;
    while i < SlotCount
      invariant 0 <= i <= SlotCount
      invariant r.Valid() && r.spawnPoints == t.spawnPoints && r.difficulty == t.difficulty
      invariant |chosen| == i && |attempts| == i
      invariant forall k :: 0 <= k < i ==> chosen[k] < |pool|
      invariant forall k :: 0 <= k < i ==> 1 <= attempts[k] <= MaxAttempts
      invariant forall k :: 0 <= k < i && chosen[k] in chosen[..k] ==> attempts[k] == MaxAttempts
      invariant forall k :: 0 <= k < i ==>
        r.objects[k] == t.spawnPoints[k] && r.data[k] == (if t.spawnPoints[k] then Some(pool[chosen[k]]) else None)
      invariant forall k :: i <= k < SlotCount ==> !r.objects[k] && r.data[k].None?
    {
      var index: nat :| index < |pool|;
      var tries: nat := 1;
      while index in chosen && tries < MaxAttempts
        invariant 1 <= tries <= MaxAttempts && index < |pool|
        decreases MaxAttempts - tries
      {
        index :| index < |pool|;
        tries := tries + 1;
      }
      assert (chosen + [index])[..i] == chosen;
      chosen := chosen + [index];
      attempts := attempts + [tries];
      r := SpawnPieceAtSlot(r, i, pool[index]);
      i := i + 1;
    }
  }

  /** With all three spawn points present, a new set offers three pieces. */
  lemma NewSetFillsTray(t: Tray, r: Tray, chosen: seq<nat>)
    requires t.Valid() && r.Valid() && |chosen| == SlotCount
    requires forall i :: 0 <= i < SlotCount ==> t.spawnPoints[i]
    requires forall i :: 0 <= i < SlotCount ==>
      r.objects[i] == t.spawnPoints[i] && r.data[i].Some?
    ensures !AllPiecesPlaced(r)
    ensures |GetRemainingPieces(r)| == SlotCount
  {
    assert Live(r, 0) && Live(r, 1) && Live(r, 2);
    assert RemainingFrom(r, 2) == [r.data[2].value];
    assert RemainingFrom(r, 1) == [r.data[1].value, r.data[2].value];
  }

  /** Offsets lo and hi hold the least and greatest x among the first n offsets. */
  predicate SpanX(offs: seq<Vec>, n: nat, lo: nat, hi: nat)
    requires n <= |offs|
  {
    lo < n && hi < n && forall k :: 0 <= k < n ==> offs[lo].x <= offs[k].x <= offs[hi].x
  }

  /** Offsets lo and hi hold the least and greatest y among the first n offsets. */
  predicate SpanY(offs: seq<Vec>, n: nat, lo: nat, hi: nat)
    requires n <= |offs|
  {
    lo < n && hi < n && forall k :: 0 <= k < n ==> offs[lo].y <= offs[k].y <= offs[hi].y
  }

  /**
   * The doubled centre of a piece's bounding box: (minX + maxX, minY + maxY)
   * over its offsets, halved by the caller. A piece with no offsets gives
   * (0, 0), as the C# sentinels float.MaxValue and float.MinValue cancel.
   */
  method CalculatePieceCenter(p: PieceData) returns (c: Vec)
    ensures |p.offsets| == 0 ==> c == Vec(0, 0)
    ensures |p.offsets| > 0 ==>
      exists lo: nat, hi: nat :: SpanX(p.offsets, |p.offsets|, lo, hi) && c.x == p.offsets[lo].x + p.offsets[hi].x
    ensures |p.offsets| > 0 ==>
      exists lo: nat, hi: nat :: SpanY(p.offsets, |p.offsets|, lo, hi) && c.y == p.offsets[lo].y + p.offsets[hi].y
  {
    var offs := p.offsets;
    if |offs| == 0 {
      return Vec(0, 0);
    }
    var minX, maxX, minY, maxY := offs[0].x, offs[0].x, offs[0].y, offs[0].y;
    ghost var loX: nat, hiX: nat, loY: nat, hiY: nat := 0, 0, 0, 0;
    var k := 1;
    while k < |offs|
      invariant 1 <= k <= |offs|
      invariant SpanX(offs, k, loX, hiX) && minX == offs[loX].x && maxX == offs[hiX].x
      invariant SpanY(offs, k, loY, hiY) && minY == offs[loY].y && maxY == offs[hiY].y
    {
      if offs[k].x < minX { minX := offs[k].x; loX := k; }
      if offs[k].x > maxX { maxX := offs[k].x; hiX := k; }
      if offs[k].y < minY { minY := offs[k].y; loY := k; }
      if offs[k].y > maxY { maxY := offs[k].y; hiY := k; }
      k := k + 1;
    }
    c := Vec(minX + maxX, minY + maxY);
  }
}
