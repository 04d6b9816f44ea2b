/** One player's controller in an online game (src/core/networkGameController.js): the board of
    Games.GameController plus the turn token, first on values, then as a class. */
module Network {
  import opened Options
  import opened Rules
  import opened Pieces
  import opened Boards
  import opened Games
  import opened Matches

  datatype Client = Client(game: Game, online: bool, myTurn: bool, color: Option<Color>, spectator: bool)

  function From(m: Coords): Sq { Sq(m.fromRow, m.fromCol) }

  function To(m: Coords): Sq { Sq(m.toRow, m.toCol) }

  function MoveOf(s: Sq, t: Sq): Coords { Coords(s.row, s.col, t.row, t.col) }

  /** Who has watched a match as a spectator stays one, even in a match of its own. */
  function Joined(spectator: bool, color: Color, situation: seq<Placement>): Client {
    Client(Start(situation), true, color.Red?, Some(color), spectator)
  }

  function Watching(k: Client): Client {
    k.(spectator := true, online := true, myTurn := false)
  }

  /** A click on the board. When it completes a move online, the move is made and sent only by
      the holder of the turn, and only if the message can be sent. A spectator never moves. */
  ghost function Clicked(k: Client, q: Sq, canSend: bool): (Client, Option<Coords>) {
    if !MovesOn(k.game, q) then (k.(game := Click(k.game, q)), None)
    else if (k.online && !k.myTurn) || k.spectator || k.game.pos[k.game.sel.value].color != k.game.turn then (k, None)
    else if !k.online then (k.(game := Click(k.game, q)), None)
    else if !canSend then (k, None)
    else (k.(game := Click(k.game, q), myTurn := false), Some(MoveOf(k.game.sel.value, q)))
  }

  /** A move of the opponent is applied without any test but that a piece stands on its source.
      With a target off the board the source's square is cleared and then the write fails: the
      piece is gone, still selected, and the turn is left as it was set for the move. */
  ghost function OpponentMoved(k: Client, m: Coords): Client {
    if From(m) !in k.game.pos then k
    else
      var g := k.game.(turn := k.game.pos[From(m)].color);
      if OnBoard(To(m)) then k.(game := Executed(g, From(m), To(m)), myTurn := true)
      else k.(game := g.(pos := g.pos - {From(m)}, sel := Some(From(m))))
  }

  function GameEnded(k: Client): Client {
    k.(online := false, myTurn := false)
  }

  /** The mark of a spectator is never cleared, and who bears it neither moves nor sends. */
  lemma SpectatorsNeverMove(k: Client, q: Sq, canSend: bool, m: Coords, color: Color, situation: seq<Placement>)
    requires k.spectator
    ensures Clicked(k, q, canSend).1.None? && Clicked(k, q, canSend).0.game.pos == k.game.pos
    ensures Clicked(k, q, canSend).0.spectator && OpponentMoved(k, m).spectator && GameEnded(k).spectator
    ensures Joined(k.spectator, color, situation).spectator && Watching(k).spectator
    ensures Watching(k).online && !Watching(k).myTurn
  {}

  /** When a click sends a move, which, and when it moves a piece at all. */
  lemma ClickSendsExactly(k: Client, q: Sq, canSend: bool)
    ensures var (k', sent) := Clicked(k, q, canSend);
      var moves := MovesOn(k.game, q) && !k.spectator && k.game.pos[k.game.sel.value].color == k.game.turn
                   && (k.online ==> k.myTurn && canSend);
      && (sent.Some? <==> moves && k.online)
      && (sent.Some? ==> From(sent.value) == k.game.sel.value && To(sent.value) == q && !k'.myTurn)
      && (sent.None? ==> k'.myTurn == k.myTurn)
      && (moves ==> k'.game == Executed(k.game, k.game.sel.value, q))
      && (!moves ==> k'.game.pos == k.game.pos && k'.game.turn == k.game.turn)
      && k'.online == k.online && k'.color == k.color && k'.spectator == k.spectator
  {}

  /** A move with a target off the board takes the piece off the board and leaves it selected, on a
      square that is now empty; the turn does not come back. */
  lemma OffBoardMoveLosesThePiece(k: Client, m: Coords)
    requires From(m) in k.game.pos && !OnBoard(To(m))
    ensures var k' := OpponentMoved(k, m);
      && k'.game.sel == Some(From(m)) && From(m) !in k'.game.pos && k'.game.turn == k.game.pos[From(m)].color
      && (forall u | u != From(m) ::
            (u in k'.game.pos <==> u in k.game.pos) && (u in k.game.pos ==> k'.game.pos[u] == k.game.pos[u]))
      && k'.myTurn == k.myTurn
  {}

  class NetworkGameController {
    const game: GameController
    var isOnlineMode: bool
    var isMyTurn: bool
    var myColor: Option<Color>
    var isSpectator: bool

    constructor (initialPosition: seq<Placement>)
      requires forall p <- initialPosition :: OnBoard(Sq(p.row, p.col))
      ensures Valid() && game.initialPosition == initialPosition
      ensures State() == Client(Start(initialPosition), false, false, None, false)
    {
      game := new GameController(initialPosition);
      isOnlineMode, isMyTurn, myColor, isSpectator := false, false, None, false;
    }

    ghost predicate Valid()
      reads this, game, game.chessboard, game.chessboard.board, game.chessboard.pieces, game.chessboard.dirs
    {
      game.Valid()
    }

    ghost function State(): Client
      requires Sized(game.chessboard.board)
      reads this, game, game.chessboard, game.chessboard.board, game.chessboard.pieces, game.chessboard.curPiece
    {
      Client(game.State(), isOnlineMode, isMyTurn, myColor, isSpectator)
    }

    method HandleMatchFound(color: Color)
      requires Valid()
      modifies this, game.chessboard
      ensures Valid() && State() == Joined(isSpectator, color, game.initialPosition)
      ensures isSpectator == old(isSpectator)
    {
      myColor := Some(color);
      isOnlineMode := true;
      isMyTurn := color == Red;
      game.Reset();
    }

    /** Once the server has let the user watch. */
    method JoinSpectate()
      requires Valid()
      modifies this`isSpectator, this`isOnlineMode, this`isMyTurn
      ensures Valid() && State() == Watching(old(State()))
    {
      isSpectator := true;
      isOnlineMode := true;
      isMyTurn := false;
    }

    /** The click loop of the base class, with the overriding execution of the move. */
    method HandleBoardClick(x: int, y: int, canSend: bool) returns (sent: Option<Coords>)
      requires Valid() && OnBoard(Sq(x, y))
      modifies this`isMyTurn
      modifies game.chessboard`turn, game.chessboard`status, game.chessboard`curPiece
      modifies game.chessboard.board, game.chessboard.pieces, game.chessboard.dirs
      ensures Valid()
      ensures (State(), sent) == Clicked(old(State()), Sq(x, y), canSend)
    {
      var b := game.chessboard;
      if !b.status { return None; }
      if b.curPiece == null {
        game.SelectAt(x, y);
        return None;
      }
      if b.curPiece.row == x && b.curPiece.col == y {
        b.curPiece := null;
        return None;
      }
      var res := b.MovePiece(b.curPiece, x, y);
      assert State() == old(State());
      if !res {
        game.SelectAt(x, y);
        return None;
      }
      sent := ExecuteMove(x, y, canSend);
    }

    method ExecuteMove(newRow: int, newCol: int, canSend: bool) returns (sent: Option<Coords>)
      requires Valid() && game.chessboard.curPiece != null && OnBoard(Sq(newRow, newCol))
      requires MovesOn(game.State(), Sq(newRow, newCol))
      modifies this`isMyTurn
      modifies game.chessboard`turn, game.chessboard`status, game.chessboard`curPiece
      modifies game.chessboard.board, game.chessboard.pieces, game.chessboard.dirs
      ensures Valid()
      ensures (State(), sent) == Clicked(old(State()), Sq(newRow, newCol), canSend)
    {
      var piece := game.chessboard.curPiece;
      var m := Coords(piece.row, piece.col, newRow, newCol);
      if isOnlineMode && !isMyTurn { return None; }
      if isSpectator { return None; }
      if piece.color != game.chessboard.turn { return None; }
      if !isOnlineMode {
        var over := game.ExecuteMove(newRow, newCol);
        return None;
      }
      if !canSend { return None; }
      var over := game.ExecuteMove(newRow, newCol);
      isMyTurn := false;
      return Some(m);
    }

    /** No source square, no piece: nothing changes. A target off the board leaves the object in
        the state OpponentMoved tells, with a selected piece that stands nowhere. */
    method HandleOpponentMove(m: Coords) returns (applied: bool)
      requires Valid()
      modifies this`isMyTurn
      modifies game.chessboard`turn, game.chessboard`status, game.chessboard`curPiece
      modifies game.chessboard.board, game.chessboard.pieces, game.chessboard.dirs
      ensures Sized(game.chessboard.board) && State() == OpponentMoved(old(State()), m)
      ensures applied <==> From(m) in old(State()).game.pos && OnBoard(To(m))
      ensures applied || From(m) !in old(State()).game.pos ==> Valid()
    {
      if !OnBoard(From(m)) { return false; }
      if game.chessboard.board[m.fromRow, m.fromCol] == null { return false; }
      TakeUp(m.fromRow, m.fromCol);
      if !OnBoard(To(m)) {
        LoseSelected();
        return false;
      }
      var over := game.ExecuteMove(m.toRow, m.toCol);
      isMyTurn := true;
      return true;
    }

    /** Selects the piece and gives its colour the turn, so that the move can be executed. */
    method TakeUp(row: int, col: int)
      requires Valid() && OnBoard(Sq(row, col)) && game.chessboard.board[row, col] != null
      modifies game.chessboard`turn, game.chessboard`curPiece
      ensures Valid() && game.chessboard.curPiece != null
      ensures var g := old(State()).game;
        Sq(row, col) in g.pos
        && State() == old(State()).(game := g.(turn := g.pos[Sq(row, col)].color, sel := Some(Sq(row, col))))
    {
      var piece := game.chessboard.board[row, col];
      game.chessboard.turn := piece.color;
      game.chessboard.curPiece := piece;
    }

    /** The part of the move that is done before the write to no square fails. */
    method LoseSelected()
      requires Valid() && game.chessboard.curPiece != null
      modifies game.chessboard.board
      ensures Sized(game.chessboard.board)
      ensures var g := old(State()).game;
        State() == old(State()).(game := g.(pos := g.pos - {g.sel.value}))
    {
      var piece := game.chessboard.curPiece;
      game.chessboard.board[piece.row, piece.col] := null;
      assert forall q :: q in View(game.chessboard.board) <==> q in old(View(game.chessboard.board)) && q != piece.At();
    }

    method HandleGameEnd()
      requires Valid()
      modifies this`isOnlineMode, this`isMyTurn
      ensures Valid() && State() == GameEnded(old(State()))
    {
      isOnlineMode := false;
      isMyTurn := false;
    }
  }
}
