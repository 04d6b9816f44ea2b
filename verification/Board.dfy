/** The board of mutable piece objects: check detection, the suicide test on a copied board,
    and the exhaustive search for a legal move, as in src/core/board.js. */
module Boards {
  import opened Options
  import opened Rules
  import opened Pieces

  /** The initial placement of one piece: a row of the parsed position text. */
  datatype Placement = Placement(kind: Kind, color: Color, row: int, col: int)

  /** Later placements overwrite earlier ones on the same square. */
  function Placed(situation: seq<Placement>): Pos {
    if situation == [] then map[]
    else
      var p := situation[|situation| - 1];
      Placed(situation[..|situation| - 1])[Sq(p.row, p.col) := Man(p.color, p.kind)]
  }

  /** Scans a board in row-major order for the general of the given colour. */
  method FindGeneral(color: Color, b: array2<Piece?>) returns (found: bool, king: Sq)
    requires Sized(b)
    ensures found <==> HasGeneral(View(b), color)
    ensures found ==> FirstGeneral(View(b), color, king)
  {
    for i := 0 to 10
      invariant forall s <- View(b) | s.row < i :: View(b)[s] != Man(color, General)
    {
      for j := 0 to 9
        invariant forall s <- View(b) | Before(s, Sq(i, j)) :: View(b)[s] != Man(color, General)
      {
        var p := b[i, j];
        if p != null && p.kind == General && p.color == color {
          assert Sq(i, j) in View(b);
          return true, Sq(i, j);
        }
      }
    }
    return false, Sq(0, 0);
  }

  lemma FirstGeneralIsUnique(pos: Pos, c: Color, k: Sq)
    requires FirstGeneral(pos, c, k)
    ensures InCheck(pos, c) <==> Attacked(pos, c, k)
  {
    if InCheck(pos, c) {
      var k' :| FirstGeneral(pos, c, k') && Attacked(pos, c, k');
      assert k' == k;
    }
  }

  /** Whether cell (i, j) holds a piece of the given colour that may go to the king's square. */
  method CellReaches(i: int, j: int, enemyColor: Color, king: Sq, b: array2<Piece?>,
                 ghost pieces: set<Piece>, ghost dirs: set<array<Offset>>)
    returns (reached: bool)
    requires Consistent(b, pieces, dirs)
    requires OnBoard(Sq(i, j)) && OnBoard(king)
    modifies dirs
    ensures Consistent(b, pieces, dirs) && View(b) == old(View(b))
    ensures reached == (Sq(i, j) in Attackers(View(b), enemyColor, king))
  {
    var enemy := b[i, j];
    if enemy == null || enemy.color != enemyColor { return false; }
    assert enemy.At() == Sq(i, j);
    reached := enemy.ValidateMove(king.row, king.col, b);
  }

  /** Whether row i holds a piece of the given colour that may go to the king's square. */
  method RowReaches(i: int, enemyColor: Color, king: Sq, b: array2<Piece?>,
                    ghost pieces: set<Piece>, ghost dirs: set<array<Offset>>)
    returns (reached: bool)
    requires Consistent(b, pieces, dirs)
    requires 0 <= i <= 9 && OnBoard(king)
    modifies dirs
    ensures Consistent(b, pieces, dirs) && View(b) == old(View(b))
    ensures reached == exists e <- Attackers(View(b), enemyColor, king) :: e.row == i
  {
    ghost var attackers := Attackers(View(b), enemyColor, king);
    for j := 0 to 9
      invariant Consistent(b, pieces, dirs) && View(b) == old(View(b))
      invariant forall k | 0 <= k < j :: Sq(i, k) !in attackers
    {
      reached := CellReaches(i, j, enemyColor, king, b, pieces, dirs);
      if reached { return; }
    }
    reached := false;
  }

  /** True when the colour has no general, or an enemy piece may go to its general's square. */
  method IsKingInDanger(color: Color, b: array2<Piece?>, ghost pieces: set<Piece>, ghost dirs: set<array<Offset>>)
    returns (danger: bool)
    requires Consistent(b, pieces, dirs)
    modifies dirs
    ensures Consistent(b, pieces, dirs)
    ensures danger == InCheck(View(b), color)
    ensures (forall k <- View(b) :: View(b)[k] != Man(color, General)) ==> danger
  {
    var found, king := FindGeneral(color, b);
    if !found { return true; }
    ghost var pos := View(b);
    FirstGeneralIsUnique(pos, color, king);
    var enemyColor := if color.Red? then Black else Red;
    for i := 0 to 10
      invariant Consistent(b, pieces, dirs) && View(b) == pos
      invariant forall e <- Attackers(pos, enemyColor, king) :: i <= e.row
    {
      danger := RowReaches(i, enemyColor, king, b, pieces, dirs);
      if danger { return; }
    }
    danger := false;
  }

  method CopyBoard(original: array2<Piece?>) returns (copy: array2<Piece?>)
    requires Sized(original)
    ensures Sized(copy) && fresh(copy)
    ensures forall r, c | 0 <= r < 10 && 0 <= c < 9 :: copy[r, c] == original[r, c]
  {
    copy := new Piece?[10, 9]((r, c) requires 0 <= r < 10 && 0 <= c < 9 reads original => original[r, c]);
  }

  // ----- what a search looks for -----

  ghost predicate HasTarget(pos: Pos, s: Sq) {
    exists t :: Legal(pos, s, t)
  }

  /** targets are the squares the piece on s may legally go to. */
  ghost predicate AreTargets(pos: Pos, s: Sq, targets: iset<Sq>) {
    forall t {:trigger Legal(pos, s, t)} :: t in targets <==> Legal(pos, s, t)
  }

  /** movers are the squares of the pieces of colour c that have a legal move. */
  ghost predicate AreMovers(pos: Pos, c: Color, movers: iset<Sq>) {
    forall s {:trigger HasTarget(pos, s)} :: s in movers <==> Friendly(pos, c, s) && HasTarget(pos, s)
  }

  ghost function TargetSet(pos: Pos, s: Sq): (targets: iset<Sq>)
    ensures AreTargets(pos, s, targets)
    ensures HasTarget(pos, s) <==> exists r, c | 0 <= r <= 9 && 0 <= c <= 8 :: Sq(r, c) in targets
  {
    var targets := iset t | Legal(pos, s, t);
    assert forall t <- targets :: OnBoard(t) && t == Sq(t.row, t.col);
    targets
  }

  ghost function MoverSet(pos: Pos, c: Color): (movers: iset<Sq>)
    requires WellPlaced(pos)
    ensures AreMovers(pos, c, movers)
    ensures CanMove(pos, c) <==> exists i, j | 0 <= i <= 9 && 0 <= j <= 8 :: Sq(i, j) in movers
  {
    var movers := iset s | Friendly(pos, c, s) && HasTarget(pos, s);
    assert forall s <- movers :: OnBoard(s) && s == Sq(s.row, s.col);
    assert CanMove(pos, c) <==> exists s :: s in movers;
    movers
  }

  /** Board b' is b with the piece taken away and its copy standing on the copy's own square. */
  ghost predicate Relocated(b: array2<Piece?>, piece: Piece, b': array2<Piece?>, copy: Piece)
    reads b, b', piece, copy
  {
    && Sized(b) && Sized(b')
    && copy.Man() == piece.Man() && copy.dir == piece.dir
    && OnBoard(piece.At()) && b[piece.row, piece.col] == piece
    && OnBoard(copy.At()) && b'[copy.row, copy.col] == copy
    && (piece.At() != copy.At() ==> b'[piece.row, piece.col] == null)
    && forall r, c | 0 <= r < 10 && 0 <= c < 9 ::
         Sq(r, c) == piece.At() || Sq(r, c) == copy.At() || b'[r, c] == b[r, c]
  }

  lemma RelocatedView(b: array2<Piece?>, piece: Piece, b': array2<Piece?>, copy: Piece,
                      pieces: set<Piece>, dirs: set<array<Offset>>)
    requires Consistent(b, pieces, dirs) && Relocated(b, piece, b', copy)
    ensures Consistent(b', pieces + {copy}, dirs)
    ensures View(b') == Moved(View(b), piece.At(), copy.At())
  {
    var after := Moved(View(b), piece.At(), copy.At());
    assert forall q :: q in View(b') <==> q in after;
  }

  /** Writing one cell of a board changes what it shows on that square only. */
  twostate lemma PlacedView(b: array2<Piece?>, new piece: Piece)
    requires Sized(b) && OnBoard(piece.At()) && b[piece.row, piece.col] == piece
    requires forall r, c | 0 <= r < 10 && 0 <= c < 9 ::
      Sq(r, c) == piece.At() || b[r, c] == old(b[r, c])
    ensures View(b) == old(View(b))[piece.At() := piece.Man()]
  {
    assert forall q :: q in View(b) <==> q in old(View(b)) || q == piece.At();
  }

  ghost function Winner(pos: Pos, turn: Color): Option<Color> {
    if CanMove(pos, turn) then None else Some(turn.Other())
  }

  class Board {
    var board: array2<Piece?>
    var turn: Color
    var status: bool
    var curPiece: Piece?
    ghost var pieces: set<Piece>
    ghost var dirs: set<array<Offset>>

    constructor ()
      ensures turn == Red && status && curPiece == null
      ensures Valid() && Position() == map[]
      ensures fresh(board) && fresh(pieces) && fresh(dirs)
    {
      board := new Piece?[10, 9]((r, c) => null);
      turn, status, curPiece := Red, true, null;
      pieces, dirs := {}, {};
    }

    ghost predicate Valid()
      reads this, board, pieces, dirs
    {
      && Consistent(board, pieces, dirs)
      && (curPiece != null ==> Holds(curPiece))
    }

    ghost predicate Holds(p: Piece)
      requires Consistent(board, pieces, dirs)
      reads this, board, pieces, dirs
    {
      p in pieces && OnBoard(p.At()) && board[p.row, p.col] == p
    }

    ghost function Position(): Pos
      requires Sized(board)
      reads this, board
    {
      View(board)
    }

    /** A copied board on which a clone of the piece stands on the new square. */
    method Attempt(piece: Piece, newRow: int, newCol: int) returns (tempBoard: array2<Piece?>, clonePiece: Piece)
      requires Valid() && Holds(piece) && OnBoard(Sq(newRow, newCol))
      ensures fresh(tempBoard) && fresh(clonePiece)
      ensures Relocated(board, piece, tempBoard, clonePiece) && clonePiece.At() == Sq(newRow, newCol)
    {
      tempBoard := CopyBoard(board);
      clonePiece := new Piece.Clone(piece);
      clonePiece.row := newRow;
      clonePiece.col := newCol;
      tempBoard[piece.row, piece.col] := null;
      tempBoard[newRow, newCol] := clonePiece;
    }

    /** A copied board that shows the move made; it shares the tables of the generals. */
    method Rehearse(piece: Piece, newRow: int, newCol: int) returns (tempBoard: array2<Piece?>, clonePiece: Piece)
      requires Valid() && Holds(piece) && OnBoard(Sq(newRow, newCol))
      ensures fresh(tempBoard) && fresh(clonePiece)
      ensures Consistent(tempBoard, pieces + {clonePiece}, dirs)
      ensures View(tempBoard) == Moved(Position(), piece.At(), Sq(newRow, newCol))
    {
      tempBoard, clonePiece := Attempt(piece, newRow, newCol);
      RelocatedView(board, piece, tempBoard, clonePiece, pieces, dirs);
    }

    /** Whether the piece's colour is in check once the piece really stands on the new square.
        Only scratch entries of the generals' tables, which the clone shares, are written. */
    method IsSuicideMove(piece: Piece, newRow: int, newCol: int) returns (danger: bool)
      requires Valid() && Holds(piece) && OnBoard(Sq(newRow, newCol))
      modifies dirs
      ensures Valid() && Position() == old(Position())
      ensures danger == InCheck(Moved(Position(), piece.At(), Sq(newRow, newCol)), piece.color)
    {
      var tempBoard, clonePiece := Rehearse(piece, newRow, newCol);
      ghost var after := View(tempBoard);
      danger := IsKingInDanger(piece.color, tempBoard, pieces + {clonePiece}, dirs);
      assert View(tempBoard) == after;
      assert Occupied(board, pieces, dirs);
    }

    /** The piece's own rule first, then the suicide test. */
    method Attempted(piece: Piece, newRow: int, newCol: int) returns (ok: bool)
      requires Valid() && Holds(piece) && OnBoard(Sq(newRow, newCol))
      modifies dirs
      ensures Valid() && Position() == old(Position())
      ensures ok == Legal(Position(), piece.At(), Sq(newRow, newCol))
    {
      var reaches := piece.ValidateMove(newRow, newCol, board);
      assert Position() == old(Position()) && Valid();
      if !reaches { return false; }
      var danger := IsSuicideMove(piece, newRow, newCol);
      return !danger;
    }

    /** The entry point for a move: true exactly for the legal ones. Nothing is moved yet. */
    method MovePiece(piece: Piece, newRow: int, newCol: int) returns (ok: bool)
      requires Valid() && OnBoard(piece.At())
      modifies dirs
      ensures Valid() && Position() == old(Position())
      ensures ok == (board[piece.row, piece.col] == piece && Legal(Position(), piece.At(), Sq(newRow, newCol)))
    {
      if newRow < 0 || newRow > 9 || newCol < 0 || newCol > 8 { return false; }
      if board[piece.row, piece.col] != piece { return false; }
      ok := Attempted(piece, newRow, newCol);
    }

    method AttemptedIn(piece: Piece, newRow: int, newCol: int, ghost targets: iset<Sq>) returns (ok: bool)
      requires Valid() && Holds(piece) && OnBoard(Sq(newRow, newCol))
      requires AreTargets(Position(), piece.At(), targets)
      modifies dirs
      ensures Valid() && Position() == old(Position())
      ensures ok == (Sq(newRow, newCol) in targets)
    {
      ok := Attempted(piece, newRow, newCol);
    }

    /** Tries one piece against every square of one row. */
    method PieceHasMoveInRow(piece: Piece, r: int, ghost targets: iset<Sq>) returns (found: bool)
      requires Valid() && Holds(piece) && 0 <= r <= 9
      requires AreTargets(Position(), piece.At(), targets)
      modifies dirs
      ensures Valid() && Position() == old(Position())
      ensures found <==> exists c | 0 <= c <= 8 :: Sq(r, c) in targets
    {
      for c := 0 to 9
        invariant Valid() && Position() == old(Position())
        invariant forall k | 0 <= k < c :: Sq(r, k) !in targets
      {
        found := AttemptedIn(piece, r, c, targets);
        if found { return; }
      }
      found := false;
    }

    /** Tries one piece against every square of the board. */
    method PieceHasMove(piece: Piece, ghost targets: iset<Sq>) returns (found: bool)
      requires Valid() && Holds(piece)
      requires AreTargets(Position(), piece.At(), targets)
      modifies dirs
      ensures Valid() && Position() == old(Position())
      ensures found <==> exists r, c | 0 <= r <= 9 && 0 <= c <= 8 :: Sq(r, c) in targets
    {
      for r := 0 to 10
        invariant Valid() && Position() == old(Position())
        invariant forall i, j | 0 <= i < r && 0 <= j <= 8 :: Sq(i, j) !in targets
      {
        found := PieceHasMoveInRow(piece, r, targets);
        if found { return; }
      }
      found := false;
    }

    method HasValidMovesInRow(color: Color, i: int, ghost movers: iset<Sq>) returns (found: bool)
      requires Valid() && 0 <= i <= 9
      requires AreMovers(Position(), color, movers)
      modifies dirs
      ensures Valid() && Position() == old(Position())
      ensures found <==> exists j | 0 <= j <= 8 :: Sq(i, j) in movers
    {
      for j := 0 to 9
        invariant Valid() && Position() == old(Position())
        invariant forall k | 0 <= k < j :: Sq(i, k) !in movers
      {
        var piece := board[i, j];
        if piece != null && piece.color == color {
          ghost var targets := TargetSet(Position(), piece.At());
          found := PieceHasMove(piece, targets);
          if found { return; }
        } else {
          assert HasTarget(Position(), Sq(i, j)) ==> Sq(i, j) !in movers;
        }
      }
      found := false;
    }

    method HasValidMovesAmong(color: Color, ghost movers: iset<Sq>) returns (found: bool)
      requires Valid()
      requires AreMovers(Position(), color, movers)
      modifies dirs
      ensures Valid() && Position() == old(Position())
      ensures found <==> exists i, j | 0 <= i <= 9 && 0 <= j <= 8 :: Sq(i, j) in movers
    {
      for i := 0 to 10
        invariant Valid() && Position() == old(Position())
        invariant forall k, j | 0 <= k < i && 0 <= j <= 8 :: Sq(k, j) !in movers
      {
        found := HasValidMovesInRow(color, i, movers);
        if found { return; }
      }
      found := false;
    }

    /** Exhaustive search: true exactly when the colour has a legal move. */
    method HasValidMoves(color: Color) returns (found: bool)
      requires Valid()
      modifies dirs
      ensures Valid() && Position() == old(Position())
      ensures found == CanMove(Position(), color)
    {
      ghost var movers := MoverSet(Position(), color);
      found := HasValidMovesAmong(color, movers);
    }

    /** No winner while the side to move has a legal move; otherwise the other side. */
    method CheckWinner() returns (winner: Option<Color>)
      requires Valid()
      modifies dirs
      ensures Valid() && Position() == old(Position())
      ensures winner.Some? <==> !CanMove(Position(), turn)
      ensures winner.Some? ==> winner.value != turn
      ensures winner == Winner(Position(), turn)
    {
      var currentTurn := turn;
      var found := HasValidMoves(currentTurn);
      if !found { return Some(if currentTurn.Red? then Black else Red); }
      return None;
    }

    method PlacePiece(p: Placement)
      requires Consistent(board, pieces, dirs) && OnBoard(Sq(p.row, p.col))
      modifies this`pieces, this`dirs, board
      ensures Consistent(board, pieces, dirs)
      ensures fresh(dirs - old(dirs)) && fresh(pieces - old(pieces))
      ensures Position() == old(Position())[Sq(p.row, p.col) := Man(p.color, p.kind)]
    {
      var piece := new Piece(p.color, p.kind, p.row, p.col);
      board[p.row, p.col] := piece;
      pieces := pieces + {piece};
      if p.kind.General? { dirs := dirs + {piece.dir}; }
      assert board == old(board);
      PlacedView(board, piece);
    }

    method InitBoard(situation: seq<Placement>)
      requires forall p <- situation :: OnBoard(Sq(p.row, p.col))
      modifies this`board, this`pieces, this`dirs
      ensures fresh(board) && fresh(dirs) && fresh(pieces)
      ensures Consistent(board, pieces, dirs) && Position() == Placed(situation)
    {
      board := new Piece?[10, 9]((r, c) => null);
      pieces, dirs := {}, {};
      for n := 0 to |situation|
        invariant fresh(board) && fresh(dirs) && fresh(pieces)
        invariant Consistent(board, pieces, dirs) && Position() == Placed(situation[..n])
      {
        assert situation[..n + 1][..n] == situation[..n];
        PlacePiece(situation[n]);
      }
      assert situation[..|situation|] == situation;
    }
  }
}
