/** A game under play: the click loop of src/core/gameController.js, first as functions on
    values, then as methods on the mutable board proved to follow those functions. */
module Games {
  import opened Options
  import opened Rules
  import opened Pieces
  import opened Boards

  datatype Game = Game(pos: Pos, turn: Color, status: bool, sel: Option<Sq>)

  datatype Reason = Checkmate | Stalemate

  /** What checkGameStatus announces, if anything. */
  datatype GameOver = GameOver(winner: Color, reason: Reason)

  ghost function Announced(pos: Pos, turn: Color): Option<GameOver> {
    match Winner(pos, turn)
    case None => None
    case Some(c) => Some(GameOver(c, if InCheck(pos, turn) then Checkmate else Stalemate))
  }

  ghost function Executed(g: Game, s: Sq, t: Sq): Game
    requires s in g.pos
  {
    var pos := Moved(g.pos, s, t);
    var turn := g.turn.Other();
    Game(pos, turn, g.status && Winner(pos, turn).None?, None)
  }

  function Selected(g: Game, q: Sq): Game {
    if Friendly(g.pos, g.turn, q) then g.(sel := Some(q)) else g
  }

  /** The click completes a move: a piece is selected and the clicked square is legal for it. */
  ghost predicate MovesOn(g: Game, q: Sq) {
    g.status && g.sel.Some? && g.sel.value != q && Legal(g.pos, g.sel.value, q)
  }

  ghost function Click(g: Game, q: Sq): Game {
    if MovesOn(g, q) then Executed(g, g.sel.value, q)
    else if !g.status then g
    else if g.sel == Some(q) then g.(sel := None)
    else Selected(g, q)
  }

  function Choose(g: Game, q: Sq): Game {
    if g.status then Selected(g, q) else g
  }

  function Cancel(g: Game, q: Sq): Game {
    if g.status && g.sel == Some(q) then g.(sel := None) else g
  }

  function Start(situation: seq<Placement>): Game {
    Game(Placed(situation), Red, true, None)
  }

  /** Who is announced and why: the side to move has no legal move, so the other side wins, by
      checkmate if the loser is in check and by stalemate if it is not. */
  lemma AnnouncedMeans(pos: Pos, turn: Color)
    ensures Announced(pos, turn).Some? <==> forall s, t | Legal(pos, s, t) :: pos[s].color != turn
    ensures Announced(pos, turn).Some? ==>
      && Announced(pos, turn).value.winner != turn
      && (Announced(pos, turn).value.reason == Checkmate <==> InCheck(pos, turn))
      && (Announced(pos, turn).value.reason == Stalemate <==> !InCheck(pos, turn))
  {}

  /** What a click does. The position changes only when a legal move of the selected piece is
      completed: then that piece stands on the clicked square, its old square is empty, the other
      squares are as they were, and the turn passes. Otherwise only the selection can change. */
  lemma ClickMeans(g: Game, q: Sq)
    ensures var g' := Click(g, q);
      if g.status && g.sel.Some? && g.sel.value != q && Legal(g.pos, g.sel.value, q) then
        var s := g.sel.value;
        && q in g'.pos && g'.pos[q] == g.pos[s] && s !in g'.pos
        && (forall u | u != q && u != s :: (u in g'.pos <==> u in g.pos) && (u in g.pos ==> g'.pos[u] == g.pos[u]))
        && g'.turn != g.turn && g'.sel == None && (g'.status <==> CanMove(g'.pos, g'.turn))
      else
        && g'.pos == g.pos && g'.turn == g.turn && g'.status == g.status
        && (!g.status ==> g'.sel == g.sel)
        && (g.status && g.sel == Some(q) ==> g'.sel == None)
        && (g.status && g.sel != Some(q) && q in g.pos && g.pos[q].color == g.turn ==> g'.sel == Some(q))
        && (g.status && g.sel != Some(q) && (q in g.pos ==> g.pos[q].color != g.turn) ==> g'.sel == g.sel)
  {}

  /** The two piece listeners change nothing but the selection, and only while the game is on. */
  lemma ListenersMean(g: Game, q: Sq)
    ensures var g' := Choose(g, q);
      g'.(sel := g.sel) == g && g'.sel == if g.status && q in g.pos && g.pos[q].color == g.turn then Some(q) else g.sel
    ensures var g' := Cancel(g, q);
      g'.(sel := g.sel) == g && g'.sel == if g.status && g.sel == Some(q) then None else g.sel
  {}

  class GameController {
    const chessboard: Board
    const initialPosition: seq<Placement>

    constructor (initialPosition: seq<Placement>)
      requires forall p <- initialPosition :: OnBoard(Sq(p.row, p.col))
      ensures this.initialPosition == initialPosition
      ensures Valid() && State() == Start(initialPosition)
    {
      chessboard := new Board();
      this.initialPosition := initialPosition;
      new;
      chessboard.InitBoard(initialPosition);
    }

    ghost predicate Valid()
      reads this, chessboard, chessboard.board, chessboard.pieces, chessboard.dirs
    {
      && chessboard.Valid()
      && forall p <- initialPosition :: OnBoard(Sq(p.row, p.col))
    }

    ghost function State(): Game
      requires Sized(chessboard.board)
      reads chessboard, chessboard.board, chessboard.pieces, chessboard.curPiece
    {
      Game(chessboard.Position(), chessboard.turn, chessboard.status,
           if chessboard.curPiece == null then None else Some(chessboard.curPiece.At()))
    }

    method MoveCells(newRow: int, newCol: int)
      requires Valid() && chessboard.curPiece != null && OnBoard(Sq(newRow, newCol))
      modifies chessboard.board
      ensures var piece, b := chessboard.curPiece, chessboard.board;
        && View(b) == Moved(old(chessboard.Position()), piece.At(), Sq(newRow, newCol))
        && b[newRow, newCol] == piece
        && forall r, c | 0 <= r < 10 && 0 <= c < 9 && Sq(r, c) != Sq(newRow, newCol) ::
             b[r, c] == if Sq(r, c) == piece.At() then null else old(b[r, c])
    {
      var piece, b := chessboard.curPiece, chessboard.board;
      var curRow, curCol := piece.row, piece.col;
      b[curRow, curCol] := null;
      b[newRow, newCol] := piece;
      ghost var after := Moved(old(chessboard.Position()), piece.At(), Sq(newRow, newCol));
      assert forall q :: q in View(b) <==> q in after;
    }

    /** Writes the two cells, the turn and the piece's coordinates, in the order of the source. */
    method MoveSelected(newRow: int, newCol: int)
      requires Valid() && chessboard.curPiece != null && OnBoard(Sq(newRow, newCol))
      modifies chessboard`turn, chessboard`curPiece, chessboard.board, chessboard.pieces
      ensures Valid()
      ensures chessboard.turn == old(chessboard.turn).Other() && chessboard.curPiece == null
      ensures chessboard.Position() == Moved(old(chessboard.Position()), old(State().sel.value), Sq(newRow, newCol))
    {
      var piece := chessboard.curPiece;
      MoveCells(newRow, newCol);
      chessboard.turn := if chessboard.turn == Red then Black else Red;
      piece.row := newRow;
      piece.col := newCol;
      chessboard.curPiece := null;
    }

    method CheckGameStatus() returns (over: Option<GameOver>)
      requires Valid()
      modifies chessboard`status, chessboard.dirs
      ensures Valid() && chessboard.Position() == old(chessboard.Position())
      ensures over.Some? <==> !CanMove(chessboard.Position(), chessboard.turn)
      ensures over.Some? ==>
        && over.value.winner != chessboard.turn
        && (over.value.reason == Checkmate <==> InCheck(chessboard.Position(), chessboard.turn))
      ensures over == Announced(chessboard.Position(), chessboard.turn)
      ensures chessboard.status == (old(chessboard.status) && Winner(chessboard.Position(), chessboard.turn).None?)
    {
      var b := chessboard;
      var isCheck := IsKingInDanger(b.turn, b.board, b.pieces, b.dirs);
      assert b.Valid() && b.Position() == old(b.Position());
      var winner := b.CheckWinner();
      if winner.None? { return None; }
      b.status := false;
      return Some(GameOver(winner.value, if isCheck then Checkmate else Stalemate));
    }

    /** Moves the selected piece for good, passes the turn and looks for the end of the game.
        The move itself is not tested here. */
    method ExecuteMove(newRow: int, newCol: int) returns (over: Option<GameOver>)
      requires Valid() && chessboard.curPiece != null && OnBoard(Sq(newRow, newCol))
      modifies chessboard`turn, chessboard`status, chessboard`curPiece
      modifies chessboard.board, chessboard.pieces, chessboard.dirs
      ensures Valid()
      ensures State() == Executed(old(State()), old(State().sel.value), Sq(newRow, newCol))
      ensures over == Announced(State().pos, State().turn)
    {
      MoveSelected(newRow, newCol);
      over := CheckGameStatus();
    }

    method SelectAt(x: int, y: int)
      requires Valid() && OnBoard(Sq(x, y))
      modifies chessboard`curPiece
      ensures Valid() && State() == Selected(old(State()), Sq(x, y))
    {
      var piece := chessboard.board[x, y];
      if piece != null && piece.color == chessboard.turn {
        chessboard.curPiece := piece;
      }
    }

    method HandleBoardClick(x: int, y: int) returns (over: Option<GameOver>)
      requires Valid() && OnBoard(Sq(x, y))
      modifies chessboard`turn, chessboard`status, chessboard`curPiece
      modifies chessboard.board, chessboard.pieces, chessboard.dirs
      ensures Valid() && State() == Click(old(State()), Sq(x, y))
      ensures over == if MovesOn(old(State()), Sq(x, y)) then Announced(State().pos, State().turn) else None
    {
      if !chessboard.status { return None; }
      if chessboard.curPiece == null {
        SelectAt(x, y);
        return None;
      }
      if chessboard.curPiece.row == x && chessboard.curPiece.col == y {
        chessboard.curPiece := null;
        return None;
      }
      var res := chessboard.MovePiece(chessboard.curPiece, x, y);
      assert State() == old(State());
      if res {
        over := ExecuteMove(x, y);
      } else {
        SelectAt(x, y);
        over := None;
      }
    }

    /** The listener on a piece of the board while nothing is selected. */
    method ChoosePiece(x: int, y: int)
      requires Valid() && OnBoard(Sq(x, y))
      modifies chessboard`curPiece
      ensures Valid() && State() == Choose(old(State()), Sq(x, y))
    {
      if chessboard.status { SelectAt(x, y); }
    }

    /** The listener on a piece of the board while some piece is selected. */
    method CancelPiece(x: int, y: int)
      requires Valid() && OnBoard(Sq(x, y))
      modifies chessboard`curPiece
      ensures Valid() && State() == Cancel(old(State()), Sq(x, y))
    {
      var selectedPiece := chessboard.board[x, y];
      if chessboard.status && chessboard.curPiece != null && chessboard.curPiece == selectedPiece {
        chessboard.curPiece := null;
      }
    }

    method HandleResign()
      requires Valid()
      modifies chessboard`status
      ensures Valid() && State() == old(State()).(status := false)
    {
      chessboard.status := false;
    }

    method Reset()
      requires Valid()
      modifies chessboard
      ensures Valid() && State() == Start(initialPosition)
    {
      chessboard.curPiece := null;
      chessboard.InitBoard(initialPosition);
      chessboard.turn := Red;
      chessboard.status := true;
    }

    /** What the suicide test says before a move is what check detection says once the move is
        really made. */
    method SuicideTestForetells(x: int, y: int) returns (foretold: bool, danger: bool)
      requires Valid() && chessboard.curPiece != null && OnBoard(Sq(x, y))
      modifies chessboard`turn, chessboard`curPiece
      modifies chessboard.board, chessboard.pieces, chessboard.dirs
      ensures foretold == danger
    {
      var piece := chessboard.curPiece;
      foretold := chessboard.IsSuicideMove(piece, x, y);
      MoveSelected(x, y);
      danger := IsKingInDanger(piece.color, chessboard.board, chessboard.pieces, chessboard.dirs);
    }
  }
}
