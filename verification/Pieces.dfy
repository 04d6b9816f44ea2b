/** The mutable piece objects and their seven move validators, in the form of src/models/pieces.
    Every validator is proved to decide exactly the declarative relation Rules.Attacks. */
module Pieces {
  import opened Rules

  datatype Offset = Offset(dr: int, dc: int)

  const GENERAL_DIR: seq<Offset> := [Offset(1, 0), Offset(-1, 0), Offset(0, 1), Offset(0, -1)]

  const ADVISOR_DIR: seq<Offset> := [Offset(1, 1), Offset(1, -1), Offset(-1, 1), Offset(-1, -1)]

  const ELEPHANT_DIR: seq<Offset> := [Offset(2, 2), Offset(2, -2), Offset(-2, 2), Offset(-2, -2)]

  const HORSE_DIR: seq<Offset> :=
    [Offset(2, 1), Offset(2, -1), Offset(-2, 1), Offset(-2, -1),
     Offset(1, 2), Offset(-1, 2), Offset(1, -2), Offset(-1, -2)]

  const PAWN_DIR: seq<Offset> := [Offset(1, 0), Offset(-1, 0), Offset(0, 1), Offset(0, -1)]

  // The chariot's four rays.
  datatype Ray = Down | Up | Right | Left {
    function Length(): nat { if Down? || Up? then 9 else 8 }

    /** The k-th offset out along the ray, counting from 0. */
    function Entry(k: int): Offset {
      match this
      case Down => Offset(k + 1, 0)
      case Up => Offset(-k - 1, 0)
      case Right => Offset(0, k + 1)
      case Left => Offset(0, -k - 1)
    }
  }

  function ChariotDir(ray: Ray): seq<Offset> {
    match ray
    case Down =>
      [Offset(1, 0), Offset(2, 0), Offset(3, 0), Offset(4, 0), Offset(5, 0),
       Offset(6, 0), Offset(7, 0), Offset(8, 0), Offset(9, 0)]
    case Up =>
      [Offset(-1, 0), Offset(-2, 0), Offset(-3, 0), Offset(-4, 0), Offset(-5, 0),
       Offset(-6, 0), Offset(-7, 0), Offset(-8, 0), Offset(-9, 0)]
    case Right =>
      [Offset(0, 1), Offset(0, 2), Offset(0, 3), Offset(0, 4), Offset(0, 5),
       Offset(0, 6), Offset(0, 7), Offset(0, 8)]
    case Left =>
      [Offset(0, -1), Offset(0, -2), Offset(0, -3), Offset(0, -4), Offset(0, -5),
       Offset(0, -6), Offset(0, -7), Offset(0, -8)]
  }

  /** One look-up in the chariot's table. */
  method ChariotDirEntry(ray: Ray, k: nat) returns (o: Offset)
    requires k < ray.Length()
    ensures o == ray.Entry(k)
  {
    o := ChariotDir(ray)[k];
  }

  // ----- boards of piece objects -----

  ghost predicate Sized(b: array2<Piece?>) {
    b.Length0 == 10 && b.Length1 == 9
  }

  /** The position a board of piece objects shows. */
  ghost function View(b: array2<Piece?>): Pos
    requires Sized(b)
    reads b
  {
    map r, c | 0 <= r < 10 && 0 <= c < 9 && b[r, c] != null :: Sq(r, c) := b[r, c].Man()
  }

  /** pos has a piece exactly where the board has one. */
  ghost predicate Shows(b: array2<Piece?>, pos: Pos)
    requires Sized(b)
    reads b
  {
    forall r, c | 0 <= r < 10 && 0 <= c < 9 :: Sq(r, c) in pos <==> b[r, c] != null
  }

  /** A general's table: the four steps never change, the fifth entry is scratch space. */
  ghost predicate GeneralTable(d: array<Offset>)
    reads d
  {
    d.Length == 5 && d[..4] == GENERAL_DIR
  }

  /** Every piece on the board carries its own coordinates, and every general's table is known. */
  ghost predicate Occupied(b: array2<Piece?>, pieces: set<Piece>, dirs: set<array<Offset>>)
    requires Sized(b)
    reads b, pieces
  {
    forall r, c | 0 <= r < 10 && 0 <= c < 9 && b[r, c] != null ::
      && b[r, c] in pieces
      && b[r, c].row == r && b[r, c].col == c
      && (b[r, c].kind.General? ==> b[r, c].dir in dirs)
  }

  ghost predicate Tables(dirs: set<array<Offset>>)
    reads dirs
  {
    forall d <- dirs :: GeneralTable(d)
  }

  ghost predicate Consistent(b: array2<Piece?>, pieces: set<Piece>, dirs: set<array<Offset>>)
    reads b, pieces, dirs
  {
    Sized(b) && Occupied(b, pieces, dirs) && Tables(dirs)
  }

  class Piece {
    const color: Color
    const kind: Kind
    /** Only generals have a table that is written; the other kinds share the constants above. */
    const dir: array<Offset>
    var row: int
    var col: int

    function Man(): Man { Rules.Man(color, kind) }

    ghost function At(): Sq
      reads this
    {
      Sq(row, col)
    }

    constructor (color: Color, kind: Kind, row: int, col: int)
      ensures this.color == color && this.kind == kind && this.row == row && this.col == col
      ensures kind.General? ==> GeneralTable(dir)
      ensures fresh(dir)
    {
      this.color, this.kind, this.row, this.col := color, kind, row, col;
      var table := if kind.General? then GENERAL_DIR + [Offset(0, 0)] else [];
      this.dir := new Offset[|table|](i requires 0 <= i < |table| => table[i]);
      new;
      assert dir[..] == table;
      assert kind.General? ==> dir[..4] == dir[..][..4];
    }

    /** A field-by-field copy: the offset table is shared with the original. */
    constructor Clone(p: Piece)
      ensures color == p.color && kind == p.kind && dir == p.dir && row == p.row && col == p.col
    {
      color, kind, dir, row, col := p.color, p.kind, p.dir, p.row, p.col;
    }

    predicate IsFriendly(newRow: int, newCol: int, b: array2<Piece?>): (friendly: bool)
      requires Sized(b) && OnBoard(Sq(newRow, newCol))
      reads b
      ensures friendly == Friendly(View(b), color, Sq(newRow, newCol))
    {
      b[newRow, newCol] != null && b[newRow, newCol].color == color
    }

    predicate CheckMove(newRow: int, newCol: int, valid: seq<Offset>, b: array2<Piece?>)
      requires Sized(b) && OnBoard(Sq(newRow, newCol))
      reads this, b
    {
      !IsFriendly(newRow, newCol, b) && Offset(newRow - row, newCol - col) in valid
    }

    // ----- general -----

    /** The offset of the first piece on the general's file, when that piece is a general. */
    method FindColTgt(side: Color, b: array2<Piece?>) returns (tgt: seq<Offset>)
      requires Sized(b) && OnBoard(At())
      ensures |tgt| <= 1
      ensures forall t :: OnBoard(t) ==>
        (Flies(View(b), side, At(), t) <==> Offset(t.row - row, t.col - col) in tgt)
    {
      if side.Black? {
        var i := row + 1;
        while i <= 9
          invariant row < i <= 10
          invariant forall k | row < k < i :: b[k, col] == null
        {
          if b[i, col] != null {
            assert Sq(i, col) in View(b);
            if b[i, col].kind != General { break; }
            return [Offset(i - row, 0)];
          }
          i := i + 1;
        }
      } else {
        var i := row - 1;
        while i >= 0
          invariant -1 <= i < row
          invariant forall k | i < k < row :: b[k, col] == null
        {
          if b[i, col] != null {
            assert Sq(i, col) in View(b);
            if b[i, col].kind != General { break; }
            return [Offset(i - row, 0)];
          }
          i := i - 1;
        }
      }
      return [];
    }

    /** The steps not barred by the palace edge the general stands on. */
    method GeneralSteps() returns (valid: seq<Offset>)
      requires GeneralTable(dir)
      ensures forall t: Sq :: Offset(t.row - row, t.col - col) in valid <==> GeneralStep(color, At(), t)
    {
      valid := [];
      assert forall k | 0 <= k < 4 :: dir[k] == GENERAL_DIR[k] by {
        assert forall k | 0 <= k < 4 :: dir[k] == dir[..4][k];
      }
      if col != 3 { valid := valid + [dir[3]]; }
      if col != 5 { valid := valid + [dir[2]]; }
      assert forall o :: o in valid <==> (col != 3 && o == Offset(0, -1)) || (col != 5 && o == Offset(0, 1));
      if row != (if color.Black? then 0 else 7) { valid := valid + [dir[1]]; }
      if row != (if color.Black? then 2 else 9) { valid := valid + [dir[0]]; }
    }

    method GeneralOffsets(b: array2<Piece?>) returns (valid: seq<Offset>, tgt: seq<Offset>)
      requires Sized(b) && OnBoard(At()) && GeneralTable(dir)
      ensures |tgt| <= 1
      ensures forall t :: OnBoard(t) ==>
        (Offset(t.row - row, t.col - col) in valid <==> GeneralStep(color, At(), t) || Flies(View(b), color, At(), t))
    {
      var steps := GeneralSteps();
      tgt := FindColTgt(color, b);
      valid := steps + tgt;
      assert forall o :: o in valid <==> o in steps || o in tgt;
    }

    method ValidateGeneral(newRow: int, newCol: int, b: array2<Piece?>) returns (ok: bool)
      requires Sized(b) && OnBoard(At()) && OnBoard(Sq(newRow, newCol))
      requires kind.General? && GeneralTable(dir)
      requires At() in View(b) && View(b)[At()] == Man()
      modifies dir
      ensures GeneralTable(dir)
      ensures ok == Attacks(View(b), At(), Sq(newRow, newCol))
    {
      var valid, tgt := GeneralOffsets(b);
      ok := CheckMove(newRow, newCol, valid, b);
      GeneralAttacks(View(b), At(), Sq(newRow, newCol));
      WriteScratch(if tgt != [] then tgt[0] else Offset(0, 0));
    }

    /** The fifth entry is overwritten at every call. */
    method WriteScratch(o: Offset)
      requires GeneralTable(dir)
      modifies dir
      ensures GeneralTable(dir)
    {
      dir[4] := o;
      assert dir[..4] == old(dir[..4]);
    }

    // ----- advisor, elephant, horse, pawn -----

    method ValidateAdvisor(newRow: int, newCol: int, b: array2<Piece?>) returns (ok: bool)
      requires Sized(b) && OnBoard(At()) && OnBoard(Sq(newRow, newCol))
      requires kind.Advisor? && At() in View(b) && View(b)[At()] == Man()
      ensures ok == Attacks(View(b), At(), Sq(newRow, newCol))
    {
      var valid: seq<Offset> := [];
      if newCol >= 3 && newCol <= 5 {
        if color.Red? && newRow >= 7 && newRow <= 9 { valid := valid + ADVISOR_DIR; }
        if color.Black? && newRow >= 0 && newRow <= 2 { valid := valid + ADVISOR_DIR; }
      }
      ok := CheckMove(newRow, newCol, valid, b);
    }

    method ValidateElephant(newRow: int, newCol: int, b: array2<Piece?>) returns (ok: bool)
      requires Sized(b) && OnBoard(At()) && OnBoard(Sq(newRow, newCol))
      requires kind.Elephant? && At() in View(b) && View(b)[At()] == Man()
      ensures ok == Attacks(View(b), At(), Sq(newRow, newCol))
    {
      var valid: seq<Offset> := [];
      if color.Red? && newRow >= 5 && newRow <= 9 {
        valid := valid + ELEPHANT_DIR;
      } else if color.Black? && newRow >= 0 && newRow <= 4 {
        valid := valid + ELEPHANT_DIR;
      }
      if !CheckMove(newRow, newCol, valid, b) { return false; }
      var midRow := row + (newRow - row) / 2;
      var midCol := col + (newCol - col) / 2;
      assert Sq(midRow, midCol) == ElephantEye(At(), Sq(newRow, newCol));
      return b[midRow, midCol] == null;
    }

    method ValidateHorse(newRow: int, newCol: int, b: array2<Piece?>) returns (ok: bool)
      requires Sized(b) && OnBoard(At()) && OnBoard(Sq(newRow, newCol))
      requires kind.Horse? && At() in View(b) && View(b)[At()] == Man()
      ensures ok == Attacks(View(b), At(), Sq(newRow, newCol))
    {
      if !CheckMove(newRow, newCol, HORSE_DIR, b) { return false; }
      var rowChange, colChange := newRow - row, newCol - col;
      var legRow := if Abs(rowChange) == 2 then row + rowChange / 2 else row;
      var legCol := if Abs(colChange) == 2 then col + colChange / 2 else col;
      assert Sq(legRow, legCol) == HorseLeg(At(), Sq(newRow, newCol));
      return b[legRow, legCol] == null;
    }

    method ValidatePawn(newRow: int, newCol: int, b: array2<Piece?>) returns (ok: bool)
      requires Sized(b) && OnBoard(At()) && OnBoard(Sq(newRow, newCol))
      requires kind.Pawn? && At() in View(b) && View(b)[At()] == Man()
      ensures ok == Attacks(View(b), At(), Sq(newRow, newCol))
    {
      var valid: seq<Offset> := [];
      if color.Red? {
        if row <= 4 {
          valid := valid + [PAWN_DIR[1]];
        } else {
          valid := valid + [PAWN_DIR[1], PAWN_DIR[2], PAWN_DIR[3]];
        }
      } else {
        if row >= 5 {
          valid := valid + [PAWN_DIR[0]];
        } else {
          valid := valid + [PAWN_DIR[0], PAWN_DIR[2], PAWN_DIR[3]];
        }
      }
      ok := CheckMove(newRow, newCol, valid, b);
    }

    // ----- chariot -----

    /** The index of the last usable entry of the upward or downward ray. */
    method RowLimit(ray: Ray, b: array2<Piece?>, ghost pos: Pos) returns (limit: int)
      requires Sized(b) && OnBoard(At()) && (ray.Up? || ray.Down?) && Shows(b, pos)
      ensures Stops(pos, At(), ray, limit)
    {
      limit := -1;
      for i := 0 to 9
        invariant limit == i - 1
        invariant FreeUpTo(pos, At(), ray, i)
      {
        var o := ChariotDirEntry(ray, i);
        var newRow := row + o.dr;
        assert Step(At(), o) == Sq(newRow, col);
        if newRow < 0 || newRow > 9 { break; }
        limit := limit + 1;
        if b[newRow, col] != null { break; }
        FreeExtends(pos, At(), ray, i);
      }
    }

    /** The index of the last usable entry of the rightward or leftward ray. */
    method ColLimit(ray: Ray, b: array2<Piece?>, ghost pos: Pos) returns (limit: int)
      requires Sized(b) && OnBoard(At()) && (ray.Right? || ray.Left?) && Shows(b, pos)
      ensures Stops(pos, At(), ray, limit)
    {
      limit := -1;
      for i := 0 to 8
        invariant limit == i - 1
        invariant FreeUpTo(pos, At(), ray, i)
      {
        var o := ChariotDirEntry(ray, i);
        var newCol := col + o.dc;
        assert Step(At(), o) == Sq(row, newCol);
        if newCol < 0 || newCol > 8 { break; }
        limit := limit + 1;
        if b[row, newCol] != null { break; }
        FreeExtends(pos, At(), ray, i);
      }
    }

    /** Pushes the usable entries of one ray; t is the square whose offset the caller will look for. */
    method PushRay(valid: seq<Offset>, ray: Ray, limit: int, ghost pos: Pos, ghost t: Sq)
      returns (longer: seq<Offset>)
      requires Limits(pos, At(), ray, limit) && OnBoard(t)
      ensures Offset(t.row - row, t.col - col) in longer <==>
              Offset(t.row - row, t.col - col) in valid || (OnRay(At(), ray, t) && Clear(pos, At(), t))
    {
      longer := valid;
      ghost var o := Offset(t.row - row, t.col - col);
      var i := 0;
      while i <= limit
        invariant 0 <= i <= limit + 1
        invariant o in longer <==> o in valid || (OnRay(At(), ray, t) && Distance(At(), t) <= i)
      {
        EntryIsAt(At(), ray, i, t);
        var entry := ChariotDirEntry(ray, i);
        longer := longer + [entry];
        i := i + 1;
      }
      LimitsReach(pos, At(), ray, limit, t);
    }

    method PushReachable(valid: seq<Offset>, ray: Ray, b: array2<Piece?>, ghost t: Sq) returns (longer: seq<Offset>)
      requires Sized(b) && OnBoard(At()) && OnBoard(t)
      ensures Offset(t.row - row, t.col - col) in longer <==>
              Offset(t.row - row, t.col - col) in valid || (OnRay(At(), ray, t) && Clear(View(b), At(), t))
    {
      var limit: int;
      if ray.Up? || ray.Down? {
        limit := RowLimit(ray, b, View(b));
      } else {
        limit := ColLimit(ray, b, View(b));
      }
      RayLimit(View(b), At(), ray, limit);
      longer := PushRay(valid, ray, limit, View(b), t);
    }

    /** The usable entries of all four rays; t is the square looked for. */
    method ReachableOffsets(b: array2<Piece?>, ghost t: Sq) returns (valid: seq<Offset>)
      requires Sized(b) && OnBoard(At()) && OnBoard(t)
      ensures Offset(t.row - row, t.col - col) in valid <==> OnSomeRay(At(), t) && Clear(View(b), At(), t)
    {
      valid := PushReachable([], Up, b, t);
      valid := PushReachable(valid, Down, b, t);
      valid := PushSideways(valid, b, t);
    }

    method PushSideways(valid: seq<Offset>, b: array2<Piece?>, ghost t: Sq) returns (longer: seq<Offset>)
      requires Sized(b) && OnBoard(At()) && OnBoard(t)
      ensures Offset(t.row - row, t.col - col) in longer <==>
              || Offset(t.row - row, t.col - col) in valid
              || ((OnRay(At(), Right, t) || OnRay(At(), Left, t)) && Clear(View(b), At(), t))
    {
      longer := PushReachable(valid, Right, b, t);
      longer := PushReachable(longer, Left, b, t);
    }

    method ValidateChariot(newRow: int, newCol: int, b: array2<Piece?>) returns (ok: bool)
      requires Sized(b) && OnBoard(At()) && OnBoard(Sq(newRow, newCol))
      requires kind.Chariot? && At() in View(b) && View(b)[At()] == Man()
      ensures ok == Attacks(View(b), At(), Sq(newRow, newCol))
    {
      var valid := ReachableOffsets(b, Sq(newRow, newCol));
      RaysReach(View(b), At(), Sq(newRow, newCol));
      ok := CheckMove(newRow, newCol, valid, b);
    }

    // ----- cannon -----

    method RowObstacles(newCol: int, b: array2<Piece?>) returns (obstacles: nat)
      requires Sized(b) && OnBoard(At()) && OnBoard(Sq(row, newCol))
      ensures Counts(View(b), At(), Sq(row, newCol), obstacles)
    {
      obstacles := 0;
      var start := (if col < newCol then col else newCol) + 1;
      var end := if col < newCol then newCol else col;
      var c := start;
      while c < end
        invariant start <= c && (c <= end || c == start)
        invariant obstacles == CountLine(View(b), At(), true, start, c)
      {
        if b[row, c] != null {
          obstacles := obstacles + 1;
        }
        c := c + 1;
      }
      CountLineCounts(View(b), At(), true, newCol);
    }

    method ColObstacles(newRow: int, b: array2<Piece?>) returns (obstacles: nat)
      requires Sized(b) && OnBoard(At()) && OnBoard(Sq(newRow, col))
      ensures Counts(View(b), At(), Sq(newRow, col), obstacles)
    {
      obstacles := 0;
      var start := (if row < newRow then row else newRow) + 1;
      var end := if row < newRow then newRow else row;
      var r := start;
      while r < end
        invariant start <= r && (r <= end || r == start)
        invariant obstacles == CountLine(View(b), At(), false, start, r)
      {
        if b[r, col] != null {
          obstacles := obstacles + 1;
        }
        r := r + 1;
      }
      CountLineCounts(View(b), At(), false, newRow);
    }

    method ValidateCannon(newRow: int, newCol: int, b: array2<Piece?>) returns (ok: bool)
      requires Sized(b) && OnBoard(At()) && OnBoard(Sq(newRow, newCol))
      requires kind.Cannon? && At() in View(b) && View(b)[At()] == Man()
      ensures ok == Attacks(View(b), At(), Sq(newRow, newCol))
    {
      if IsFriendly(newRow, newCol, b) { return false; }
      if row != newRow && col != newCol { return false; }
      var obstacles: nat;
      if row == newRow {
        obstacles := RowObstacles(newCol, b);
      } else {
        obstacles := ColObstacles(newRow, b);
      }
      if b[newRow, newCol] == null {
        return obstacles == 0;
      } else {
        return obstacles == 1;
      }
    }

    // ----- dispatch -----

    /** The virtual validateMove. It leaves every piece and board alone, and of a general's
        table it touches the fifth entry only. */
    method ValidateMove(newRow: int, newCol: int, b: array2<Piece?>) returns (ok: bool)
      requires Sized(b) && OnBoard(At()) && OnBoard(Sq(newRow, newCol))
      requires kind.General? ==> GeneralTable(dir)
      requires At() in View(b) && View(b)[At()] == Man()
      modifies if kind.General? then {dir} else {}
      ensures kind.General? ==> GeneralTable(dir)
      ensures ok == Attacks(View(b), At(), Sq(newRow, newCol))
    {
      match kind
      case General => ok := ValidateGeneral(newRow, newCol, b);
      case Chariot => ok := ValidateChariot(newRow, newCol, b);
      case Horse => ok := ValidateHorse(newRow, newCol, b);
      case Elephant => ok := ValidateElephant(newRow, newCol, b);
      case Advisor => ok := ValidateAdvisor(newRow, newCol, b);
      case Pawn => ok := ValidatePawn(newRow, newCol, b);
      case Cannon => ok := ValidateCannon(newRow, newCol, b);
    }
  }

  // ----- the cannon's screens -----

  /** n tells apart no piece, one piece, and more pieces strictly between s and t. */
  ghost predicate Counts(pos: Pos, s: Sq, t: Sq, n: nat) {
    (n == 0 <==> Clear(pos, s, t)) && (n == 1 <==> OneScreen(pos, s, t))
  }

  /** The k-th square of the row or column through s. */
  function OnLine(s: Sq, alongRow: bool, k: int): Sq {
    if alongRow then Sq(s.row, k) else Sq(k, s.col)
  }

  function CountLine(pos: Pos, s: Sq, alongRow: bool, lo: int, hi: int): nat
    decreases hi - lo
  {
    if hi <= lo then 0
    else CountLine(pos, s, alongRow, lo, hi - 1) + if OnLine(s, alongRow, hi - 1) in pos then 1 else 0
  }

  ghost predicate AloneOnLine(pos: Pos, s: Sq, alongRow: bool, lo: int, hi: int, k: int) {
    && lo <= k < hi && OnLine(s, alongRow, k) in pos
    && forall j | lo <= j < hi :: OnLine(s, alongRow, j) in pos ==> j == k
  }

  lemma EmptyEndCountsNot(pos: Pos, s: Sq, alongRow: bool, lo: int, last: int, hi: int)
    requires lo <= last == hi - 1 && OnLine(s, alongRow, last) !in pos
    ensures (exists k :: AloneOnLine(pos, s, alongRow, lo, hi, k)) <==>
            (exists k :: AloneOnLine(pos, s, alongRow, lo, last, k))
  {
    if k :| AloneOnLine(pos, s, alongRow, lo, hi, k) {
      assert AloneOnLine(pos, s, alongRow, lo, last, k);
    }
    if k :| AloneOnLine(pos, s, alongRow, lo, last, k) {
      assert AloneOnLine(pos, s, alongRow, lo, hi, k);
    }
  }

  lemma {:induction false} CountLineTells(pos: Pos, s: Sq, alongRow: bool, lo: int, hi: int)
    ensures var n := CountLine(pos, s, alongRow, lo, hi);
      && (n == 0 <==> forall j | lo <= j < hi :: OnLine(s, alongRow, j) !in pos)
      && (n == 1 <==> exists k :: AloneOnLine(pos, s, alongRow, lo, hi, k))
    decreases hi - lo
  {
    if lo < hi {
      CountLineTells(pos, s, alongRow, lo, hi - 1);
      var n := CountLine(pos, s, alongRow, lo, hi - 1);
      if OnLine(s, alongRow, hi - 1) in pos {
        if n == 0 { assert AloneOnLine(pos, s, alongRow, lo, hi, hi - 1); }
      } else {
        EmptyEndCountsNot(pos, s, alongRow, lo, hi - 1, hi);
      }
    }
  }

  lemma CountLineCounts(pos: Pos, s: Sq, alongRow: bool, to: int)
    ensures
      var from := if alongRow then s.col else s.row;
      var lo, hi := if from < to then from else to, if from < to then to else from;
      Counts(pos, s, OnLine(s, alongRow, to), CountLine(pos, s, alongRow, lo + 1, hi))
  {
    var from := if alongRow then s.col else s.row;
    var lo, hi := if from < to then from else to, if from < to then to else from;
    var t, first := OnLine(s, alongRow, to), lo + 1;
    CountLineTells(pos, s, alongRow, first, hi);
    assert forall k | lo < k < hi :: Between(s, t, OnLine(s, alongRow, k));
    assert forall u | Between(s, t, u) ::
      var k := if alongRow then u.col else u.row;
      lo < k < hi && u == OnLine(s, alongRow, k);
    if k :| AloneOnLine(pos, s, alongRow, first, hi, k) {
      assert IsScreen(pos, s, t, OnLine(s, alongRow, k));
    }
    if u :| IsScreen(pos, s, t, u) {
      assert AloneOnLine(pos, s, alongRow, first, hi, if alongRow then u.col else u.row);
    }
  }

  // ----- the chariot's rays -----

  function Step(s: Sq, o: Offset): Sq { Sq(s.row + o.dr, s.col + o.dc) }

  function Distance(s: Sq, t: Sq): nat { Abs(t.row - s.row) + Abs(t.col - s.col) }

  predicate OnRay(s: Sq, ray: Ray, t: Sq) {
    1 <= Distance(s, t) <= ray.Length() && t == Step(s, ray.Entry(Distance(s, t) - 1))
  }

  ghost predicate FreeUpTo(pos: Pos, s: Sq, ray: Ray, n: nat) {
    forall k | 0 <= k < n :: OnBoard(Step(s, ray.Entry(k))) && Step(s, ray.Entry(k)) !in pos
  }

  ghost predicate Usable(pos: Pos, s: Sq, t: Sq) {
    OnBoard(t) && Clear(pos, s, t)
  }

  /** Exactly the entries of the ray up to index limit lead to a usable square. */
  ghost predicate Limits(pos: Pos, s: Sq, ray: Ray, limit: int) {
    && -1 <= limit < ray.Length()
    && forall i | 0 <= i < ray.Length() :: i <= limit <==> Usable(pos, s, Step(s, ray.Entry(i)))
  }

  /** Why a scan along the ray stops after entry limit: the ray or the board ends, or a piece stands there. */
  ghost predicate Stops(pos: Pos, s: Sq, ray: Ray, limit: int) {
    && -1 <= limit < ray.Length()
    && (0 <= limit ==> FreeUpTo(pos, s, ray, limit) && OnBoard(Step(s, ray.Entry(limit))))
    && (|| limit == ray.Length() - 1
        || !OnBoard(Step(s, ray.Entry(limit + 1)))
        || (0 <= limit && Step(s, ray.Entry(limit)) in pos))
  }

  lemma FreeExtends(pos: Pos, s: Sq, ray: Ray, n: nat)
    requires FreeUpTo(pos, s, ray, n) && OnBoard(Step(s, ray.Entry(n))) && Step(s, ray.Entry(n)) !in pos
    ensures FreeUpTo(pos, s, ray, n + 1)
  {}

  lemma EntryIsAt(s: Sq, ray: Ray, i: nat, t: Sq)
    requires i < ray.Length()
    ensures Offset(t.row - s.row, t.col - s.col) == ray.Entry(i) <==> OnRay(s, ray, t) && Distance(s, t) == i + 1
  {}

  lemma LimitsReach(pos: Pos, s: Sq, ray: Ray, limit: int, t: Sq)
    requires Limits(pos, s, ray, limit) && OnBoard(t)
    ensures OnRay(s, ray, t) ==> (Distance(s, t) <= limit + 1 <==> Clear(pos, s, t))
  {
    if OnRay(s, ray, t) {
      assert Distance(s, t) - 1 <= limit <==> Usable(pos, s, Step(s, ray.Entry(Distance(s, t) - 1)));
    }
  }

  lemma RayLimit(pos: Pos, s: Sq, ray: Ray, limit: int)
    requires OnBoard(s) && Stops(pos, s, ray, limit)
    ensures Limits(pos, s, ray, limit)
  {
    forall i | 0 <= i < ray.Length()
      ensures i <= limit <==> Usable(pos, s, Step(s, ray.Entry(i)))
    {
      var t := Step(s, ray.Entry(i));
      if i <= limit {
        forall u | Between(s, t, u) ensures u !in pos {
          assert u == Step(s, ray.Entry(Distance(s, u) - 1));
        }
      } else if 0 <= limit && Step(s, ray.Entry(limit)) in pos {
        assert Between(s, t, Step(s, ray.Entry(limit)));
      }
    }
  }

  lemma GeneralAttacks(pos: Pos, s: Sq, t: Sq)
    requires s in pos && pos[s].kind.General?
    ensures var c := pos[s].color;
      Attacks(pos, s, t) <==> !Friendly(pos, c, t) && (GeneralStep(c, s, t) || Flies(pos, c, s, t))
  {}

  predicate OnSomeRay(s: Sq, t: Sq) {
    OnRay(s, Up, t) || OnRay(s, Down, t) || OnRay(s, Right, t) || OnRay(s, Left, t)
  }

  /** The four rays together reach what the chariot reaches. */
  lemma RaysReach(pos: Pos, s: Sq, t: Sq)
    requires OnBoard(s) && OnBoard(t)
    requires s in pos && pos[s].kind.Chariot?
    ensures Reaches(pos, pos[s], s, t) <==> OnSomeRay(s, t) && Clear(pos, s, t)
  {
    if Aligned(s, t) {
      var ray := if t.row < s.row then Up else if s.row < t.row then Down else if s.col < t.col then Right else Left;
      assert OnRay(s, ray, t);
    }
  }
}
