/** One online match as a protocol: two client replicas, the server's record, and four reliable
    first-in-first-out channels. The clients' steps are those of module Network, the server's
    those of module Matches. The receiver applies moves untested and the server trusts the
    senders; that both are right to do so rests on the token proved here. */
module Protocol {
  import opened Options
  import opened Rules
  import opened Boards
  import opened Games
  import opened Safety
  import opened Matches
  import opened Network

  // ----- the state -----

  datatype Duo<T> = Duo(red: T, black: T) {
    function Of(c: Color): T { if c.Red? then red else black }
    function With(c: Color, v: T): Duo<T> { if c.Red? then Duo(v, black) else Duo(red, v) }
  }

  /** What a client sends about the match. */
  datatype Up = MoveUp(move: Coords) | ResignUp | AcceptDrawUp

  /** What the server sends that a client reacts to. */
  datatype Down = FoundDown(color: Color) | MoveDown(move: Coords) | EndDown

  type Setup = seq<Placement>

  /** setup is the position both clients start from. logs are history: the moves a replica has
      made or applied since it last joined. */
  datatype World = World(
    setup: Setup, clients: Duo<Client>, up: Duo<seq<Up>>, down: Duo<seq<Down>>, match_: Match, logs: Duo<seq<Coords>>)

  function User(m: Match, c: Color): int { if c.Red? then m.red else m.black }

  // ----- the steps -----

  datatype Action =
    | ClickBoard(c: Color, at: Sq, canSend: bool)
    | ChoosePiece(c: Color, at: Sq)
    | CancelPiece(c: Color, at: Sq)
    | PressResign(c: Color)
    | SendResign(c: Color)
    | SendAcceptDraw(c: Color)
    | Receive(c: Color)
    | Serve(c: Color, now: int)
    | SweepMatch(now: int, announced: bool)

  ghost function Act(w: World, a: Action): World {
    match a
    case ClickBoard(c, q, canSend) =>
      var (k, sent) := Clicked(w.clients.Of(c), q, canSend);
      var w1 := w.(clients := w.clients.With(c, k));
      if sent.None? then w1
      else w1.(up := w.up.With(c, w.up.Of(c) + [MoveUp(sent.value)]),
               logs := w.logs.With(c, w.logs.Of(c) + [sent.value]))
    case ChoosePiece(c, q) =>
      var k := w.clients.Of(c);
      w.(clients := w.clients.With(c, k.(game := Choose(k.game, q))))
    case CancelPiece(c, q) =>
      var k := w.clients.Of(c);
      w.(clients := w.clients.With(c, k.(game := Cancel(k.game, q))))
    case PressResign(c) =>
      var k := w.clients.Of(c);
      w.(clients := w.clients.With(c, k.(game := k.game.(status := false))))
    case SendResign(c) =>
      if w.clients.Of(c).online then w.(up := w.up.With(c, w.up.Of(c) + [ResignUp])) else w
    case SendAcceptDraw(c) =>
      if w.clients.Of(c).color.Some? then w.(up := w.up.With(c, w.up.Of(c) + [AcceptDrawUp])) else w
    case Receive(c) =>
      if w.down.Of(c) == [] then w
      else Received(w.(down := w.down.With(c, w.down.Of(c)[1..])), c, w.down.Of(c)[0])
    case Serve(c, now) =>
      if w.up.Of(c) == [] then w
      else Served(w.(up := w.up.With(c, w.up.Of(c)[1..])), c, w.up.Of(c)[0], now)
    case SweepMatch(now, announced) => SweptWorld(w, now, announced)
  }

  /** A timeout found by the sweep is announced to both clients, or to none when more than a
      hundred are found at once. */
  function SweptWorld(w: World, now: int, announced: bool): World {
    var w1 := w.(match_ := Swept(w.match_, now));
    if TimedOut(w.match_, now) && announced then Broadcast(w1) else w1
  }

  ghost function Received(w: World, c: Color, d: Down): World {
    var k := w.clients.Of(c);
    match d
    case FoundDown(color) =>
      w.(clients := w.clients.With(c, Joined(k.spectator, color, w.setup)), logs := w.logs.With(c, []))
    case MoveDown(move) =>
      w.(clients := w.clients.With(c, OpponentMoved(k, move)), logs := w.logs.With(c, w.logs.Of(c) + [move]))
    case EndDown =>
      w.(clients := w.clients.With(c, GameEnded(k)))
  }

  function Broadcast(w: World): World {
    w.(down := Duo(w.down.red + [EndDown], w.down.black + [EndDown]))
  }

  function Served(w: World, c: Color, u: Up, now: int): World {
    match u
    case MoveUp(move) =>
      var (m, reply) := HandleMove(w.match_, User(w.match_, c), move, now);
      var w1 := w.(match_ := m);
      var o := c.Other();
      (match reply
       case MoveAccepted => w1.(down := w.down.With(o, w.down.Of(o) + [MoveDown(move)]))
       case TimeExpired => Broadcast(w1)
       case _ => w1)
    case ResignUp =>
      var w1 := w.(match_ := HandleResign(w.match_, User(w.match_, c)));
      if w.match_.active then Broadcast(w1) else w1
    case AcceptDrawUp =>
      var w1 := w.(match_ := HandleDrawAccepted(w.match_));
      if w.match_.active then Broadcast(w1) else w1
  }

  /** Just after handle_find_match: the requester, Red, is told twice, once by the notification
      and once by the response, which its bridge turns into a second match_found. */
  ghost predicate Fresh(w: World) {
    && (forall c :: w.clients.Of(c).color.None? && !w.clients.Of(c).online && !w.clients.Of(c).myTurn)
    && w.up == Duo([], []) && w.logs == Duo([], [])
    && w.down == Duo([FoundDown(Red), FoundDown(Red)], [FoundDown(Black)])
    && Coherent(w.match_) && w.match_.active && w.match_.moves == [] && w.match_.red != w.match_.black
  }

  // ----- positions and legal lines -----

  function TurnAfter(n: nat): Color { if n % 2 == 0 then Red else Black }

  function PosAfter(s: Setup, line: seq<Coords>): Pos {
    if line == [] then Placed(s)
    else
      var pos, m := PosAfter(s, line[..|line| - 1]), line[|line| - 1];
      if From(m) in pos then Moved(pos, From(m), To(m)) else pos
  }

  /** m is a legal move for the side to move after the line. */
  ghost predicate LegalNext(s: Setup, line: seq<Coords>, m: Coords) {
    var pos := PosAfter(s, line);
    && Friendly(pos, TurnAfter(|line|), From(m)) && Legal(pos, From(m), To(m))
    && OnBoard(From(m)) && OnBoard(To(m))
  }

  ghost predicate LegalLine(s: Setup, line: seq<Coords>) {
    line == [] || (LegalLine(s, line[..|line| - 1]) && LegalNext(s, line[..|line| - 1], line[|line| - 1]))
  }

  function ServerLog(m: Match): seq<Coords> {
    seq(|m.moves|, i requires 0 <= i < |m.moves| => m.moves[i].move)
  }

  /** No further move will be accepted: the match is over, or its record is full. */
  predicate Finished(m: Match) { !m.active || |m.moves| == MAX_MOVES_PER_MATCH }

  // ----- the token -----

  /** Where the right to move is: with a client, in a move on its way to the server, in one on
      its way to the other client, or lost with a move the server refused. */
  datatype Token = Holds(c: Color) | Asking(c: Color) | Relayed(c: Color) | Dropped(c: Color)

  function MoveIn(u: Up): seq<Coords> { if u.MoveUp? then [u.move] else [] }

  function MovesIn(up: seq<Up>): seq<Coords> {
    if up == [] then [] else MoveIn(up[0]) + MovesIn(up[1..])
  }

  function RelayIn(d: Down): seq<Coords> { if d.MoveDown? then [d.move] else [] }

  function RelaysIn(down: seq<Down>): seq<Coords> {
    if down == [] then [] else RelayIn(down[0]) + RelaysIn(down[1..])
  }

  /** Nothing but endings follows an ending, and a client is only told its own colour. */
  ghost predicate Tidy(down: seq<Down>, c: Color, active: bool) {
    && (forall i | 0 <= i < |down| && down[i].FoundDown? :: down[i].color == c)
    && (forall i, j | 0 <= i < j < |down| && down[i].EndDown? :: down[j].EndDown?)
    && (active ==> forall i | 0 <= i < |down| :: !down[i].EndDown?)
  }

  /** The board is the one the list of moves leads to, with the right side to move. */
  ghost predicate BoardShows(s: Setup, g: Game, log: seq<Coords>) {
    g.pos == PosAfter(s, log) && g.turn == TurnAfter(|log|)
  }

  /** A replica that is playing shows the position its log leads to. */
  ghost predicate Shows(s: Setup, k: Client, log: seq<Coords>) {
    BoardShows(s, k.game, log) && Safe(k.game)
  }

  ghost predicate ClientOk(s: Setup, k: Client, log: seq<Coords>, up: seq<Up>, down: seq<Down>, active: bool, c: Color,
                           holds: bool) {
    && Tidy(down, c, active)
    && match k.color
       case None =>
         !k.online && !k.myTurn && log == [] && up == [] && down != [] && down[0].FoundDown?
       case Some(color) =>
         && color == c
         && (k.online ==> Shows(s, k, log) && (k.myTurn <==> holds))
         && (!k.online ==> !k.myTurn && !active && forall i | 0 <= i < |down| :: down[i].EndDown?)
  }

  ghost predicate ClientFits(w: World, c: Color, tok: Token) {
    ClientOk(w.setup, w.clients.Of(c), w.logs.Of(c), w.up.Of(c), w.down.Of(c), w.match_.active, c, tok == Holds(c))
  }

  /** log is the server's log and one more legal move. */
  ghost predicate OneAhead(s: Setup, log: seq<Coords>, server: seq<Coords>) {
    |log| == |server| + 1 && log[..|server|] == server && LegalLine(s, log)
  }

  /** What the place of the token says of the lists: log, moves and relays are those of the
      token's colour, the others those of the other colour. */
  ghost predicate TokenFits(s: Setup, server: seq<Coords>, tok: Token, log: seq<Coords>, otherLog: seq<Coords>,
                            moves: seq<Coords>, otherMoves: seq<Coords>, relays: seq<Coords>,
                            otherRelays: seq<Coords>) {
    var n := |server|;
    && tok.c == TurnAfter(n)
    && otherMoves == [] && otherRelays == [] && otherLog == server
    && match tok
       case Holds(_) => log == server && moves == [] && relays == []
       case Asking(_) => OneAhead(s, log, server) && moves == [log[n]] && relays == []
       case Relayed(_) => 0 < n && log == server[..n - 1] && moves == [] && relays == [server[n - 1]]
       case Dropped(_) => OneAhead(s, log, server) && moves == [] && relays == []
  }

  ghost predicate TokenOk(w: World, tok: Token) {
    var c, o := tok.c, tok.c.Other();
    TokenFits(w.setup, ServerLog(w.match_), tok, w.logs.Of(c), w.logs.Of(o),
              MovesIn(w.up.Of(c)), MovesIn(w.up.Of(o)), RelaysIn(w.down.Of(c)), RelaysIn(w.down.Of(o)))
  }

  ghost predicate Inv(w: World, tok: Token) {
    && Coherent(w.match_) && w.match_.red != w.match_.black
    && Safe(Start(w.setup)) && LegalLine(w.setup, ServerLog(w.match_))
    && TokenOk(w, tok)
    && ClientFits(w, Red, tok) && ClientFits(w, Black, tok)
  }

  // ----- lines and queues -----

  lemma {:induction false} LegalPrefix(s: Setup, line: seq<Coords>, n: nat)
    requires LegalLine(s, line) && n <= |line|
    ensures LegalLine(s, line[..n])
  {
    if n < |line| {
      LegalPrefix(s, line[..|line| - 1], n);
      assert line[..|line| - 1][..n] == line[..n];
    } else {
      assert line[..n] == line;
    }
  }

  lemma {:induction false} MovesInAppend(up: seq<Up>, u: Up)
    ensures MovesIn(up + [u]) == MovesIn(up) + MoveIn(u)
  {
    if up == [] {
      assert up + [u] == [u];
      assert MovesIn([u][1..]) == [];
    } else {
      assert (up + [u])[1..] == up[1..] + [u];
      MovesInAppend(up[1..], u);
      assert MoveIn(up[0]) + (MovesIn(up[1..]) + MoveIn(u)) == MovesIn(up) + MoveIn(u);
    }
  }

  lemma {:induction false} RelaysInAppend(down: seq<Down>, d: Down)
    ensures RelaysIn(down + [d]) == RelaysIn(down) + RelayIn(d)
  {
    if down == [] {
      assert down + [d] == [d];
      assert RelaysIn([d][1..]) == [];
    } else {
      assert (down + [d])[1..] == down[1..] + [d];
      RelaysInAppend(down[1..], d);
      assert RelayIn(down[0]) + (RelaysIn(down[1..]) + RelayIn(d)) == RelaysIn(down) + RelayIn(d);
    }
  }

  lemma LegalNextExtends(s: Setup, line: seq<Coords>, m: Coords)
    requires LegalLine(s, line) && LegalNext(s, line, m)
    ensures LegalLine(s, line + [m]) && OneAhead(s, line + [m], line)
    ensures PosAfter(s, line + [m]) == Moved(PosAfter(s, line), From(m), To(m))
    ensures TurnAfter(|line| + 1) == TurnAfter(|line|).Other()
  {
    var longer := line + [m];
    assert longer[..|longer| - 1] == line;
  }

  // ----- what each action keeps -----

  /** The move a playing client sends continues its log legally. */
  lemma SentMoveIsLegal(s: Setup, k: Client, log: seq<Coords>, q: Sq, canSend: bool)
    requires Shows(s, k, log) && k.online && Clicked(k, q, canSend).1.Some?
    ensures k.myTurn && LegalNext(s, log, Clicked(k, q, canSend).1.value)
  {
    var m := Clicked(k, q, canSend).1.value;
    assert From(m) == k.game.sel.value && To(m) == q;
  }

  lemma QuietClickShows(s: Setup, k: Client, log: seq<Coords>, q: Sq)
    requires Shows(s, k, log) && !MovesOn(k.game, q)
    ensures Shows(s, k.(game := Click(k.game, q)), log)
  {
    EventKeepsSafe(k.game, ClickOn(q));
  }

  lemma MoveShows(s: Setup, k: Client, log: seq<Coords>, k': Client, m: Coords)
    requires Shows(s, k, log) && LegalLine(s, log) && LegalNext(s, log, m)
    requires k'.game == Executed(k.game, From(m), To(m))
    ensures Shows(s, k', log + [m])
  {
    LegalMoveKeepsSafe(k.game, From(m), To(m));
    LegalNextExtends(s, log, m);
  }

  lemma ClickKeepsShowing(s: Setup, k: Client, log: seq<Coords>, q: Sq, canSend: bool)
    requires Shows(s, k, log) && k.online && LegalLine(s, log)
    ensures var (k', sent) := Clicked(k, q, canSend);
      && k'.online && k'.color == k.color
      && (sent.None? ==> Shows(s, k', log) && k'.myTurn == k.myTurn)
      && (sent.Some? ==> Shows(s, k', log + [sent.value]) && !k'.myTurn)
  {
    var (k', sent) := Clicked(k, q, canSend);
    if !MovesOn(k.game, q) {
      QuietClickShows(s, k, log, q);
    } else if sent.Some? {
      SentMoveIsLegal(s, k, log, q, canSend);
      MoveShows(s, k, log, k', sent.value);
    }
  }

  /** Sending a legal move puts the token on its way to the server. */
  lemma SendingAsks(w: World, tok: Token, c: Color, m: Coords, k: Client)
    requires Inv(w, tok) && tok == Holds(c) && LegalNext(w.setup, w.logs.Of(c), m)
    ensures TokenOk(w.(clients := w.clients.With(c, k), up := w.up.With(c, w.up.Of(c) + [MoveUp(m)]),
                       logs := w.logs.With(c, w.logs.Of(c) + [m])), Asking(c))
  {
    LegalNextExtends(w.setup, w.logs.Of(c), m);
    MovesInAppend(w.up.Of(c), MoveUp(m));
  }

  lemma ClickSends(w: World, tok: Token, c: Color, m: Coords, k': Client)
    requires Inv(w, tok) && tok == Holds(c) && LegalNext(w.setup, w.logs.Of(c), m)
    requires w.clients.Of(c).online && k'.online && k'.color == w.clients.Of(c).color && !k'.myTurn
    requires Shows(w.setup, k', w.logs.Of(c) + [m])
    ensures Inv(w.(clients := w.clients.With(c, k'), up := w.up.With(c, w.up.Of(c) + [MoveUp(m)]),
                   logs := w.logs.With(c, w.logs.Of(c) + [m])), Asking(c))
  {
    var w' := w.(clients := w.clients.With(c, k'), up := w.up.With(c, w.up.Of(c) + [MoveUp(m)]),
                 logs := w.logs.With(c, w.logs.Of(c) + [m]));
    SendingAsks(w, tok, c, m, k');
    assert ClientFits(w, c, tok);
    assert ClientFits(w', c, Asking(c));
    ClientsStillFit(w, w', tok, Asking(c), c);
  }

  /** The token depends on the moves in the queues only, and on the logs. */
  lemma SameToken(w: World, w': World, tok: Token)
    requires TokenOk(w, tok) && w'.setup == w.setup && w'.logs == w.logs && ServerLog(w'.match_) == ServerLog(w.match_)
    requires forall c :: MovesIn(w'.up.Of(c)) == MovesIn(w.up.Of(c))
    requires forall c :: RelaysIn(w'.down.Of(c)) == RelaysIn(w.down.Of(c))
    ensures TokenOk(w', tok)
  {}

  /** A client that changes only what it shows or selects keeps fitting. */
  lemma LocalKeeps(w: World, tok: Token, c: Color, k': Client)
    requires Inv(w, tok)
    requires var k := w.clients.Of(c);
      && k'.online == k.online && k'.color == k.color && k'.myTurn == k.myTurn
      && (k.online ==> Shows(w.setup, k', w.logs.Of(c)))
    ensures Inv(w.(clients := w.clients.With(c, k')), tok)
  {
    var w' := w.(clients := w.clients.With(c, k'));
    assert ClientFits(w, c, tok);
    assert ClientFits(w', c, tok);
    SameToken(w, w', tok);
    ClientsStillFit(w, w', tok, tok, c);
  }

  lemma ClickBoardKeeps(w: World, tok: Token, c: Color, q: Sq, canSend: bool) returns (tok': Token)
    requires Inv(w, tok)
    ensures Inv(Act(w, ClickBoard(c, q, canSend)), tok')
    ensures tok' == tok || (tok == Holds(c) && tok' == Asking(c))
  {
    var k := w.clients.Of(c);
    var (k', sent) := Clicked(k, q, canSend);
    assert ClientFits(w, c, tok);
    if k.online {
      LogIsLegal(w, tok, c);
      ClickKeepsShowing(w.setup, k, w.logs.Of(c), q, canSend);
    }
    if sent.Some? {
      SentMoveIsLegal(w.setup, k, w.logs.Of(c), q, canSend);
      ClickSends(w, tok, c, sent.value, k');
      tok' := Asking(c);
    } else {
      LocalKeeps(w, tok, c, k');
      tok' := tok;
    }
  }

  lemma SelectionKeeps(w: World, tok: Token, c: Color, e: Event)
    requires Inv(w, tok) && (e.ChooseOn? || e.CancelOn? || e.Resign?)
    ensures Inv(w.(clients := w.clients.With(c, w.clients.Of(c).(game := Apply(w.clients.Of(c).game, e)))), tok)
  {
    var k := w.clients.Of(c);
    assert ClientFits(w, c, tok);
    if k.online { EventKeepsSafe(k.game, e); }
    LocalKeeps(w, tok, c, k.(game := Apply(k.game, e)));
  }

  lemma NonMoveSent(w: World, tok: Token, c: Color, u: Up)
    requires TokenOk(w, tok) && !u.MoveUp?
    ensures TokenOk(w.(up := w.up.With(c, w.up.Of(c) + [u])), tok)
  {
    MovesInAppend(w.up.Of(c), u);
    assert MovesIn(w.up.Of(c) + [u]) == MovesIn(w.up.Of(c));
  }

  lemma SentFits(w: World, tok: Token, c: Color, u: Up)
    requires ClientFits(w, c, tok) && w.clients.Of(c).color.Some?
    ensures ClientFits(w.(up := w.up.With(c, w.up.Of(c) + [u])), c, tok)
  {}

  lemma SendKeeps(w: World, tok: Token, c: Color, u: Up)
    requires Inv(w, tok) && !u.MoveUp? && w.clients.Of(c).color.Some?
    ensures Inv(w.(up := w.up.With(c, w.up.Of(c) + [u])), tok)
  {
    assert ClientFits(w, c, tok);
    NonMoveSent(w, tok, c, u);
    SentFits(w, tok, c, u);
    ClientsStillFit(w, w.(up := w.up.With(c, w.up.Of(c) + [u])), tok, tok, c);
  }

  /** The other client keeps fitting when nothing of its own and not the end of the match changes. */
  lemma ClientsStillFit(w: World, w': World, tok: Token, tok': Token, c: Color)
    requires Inv(w, tok) && w'.match_ == w.match_ && w'.setup == w.setup && TokenOk(w', tok')
    requires ClientFits(w', c, tok')
    requires
      var o := c.Other();
      && w'.clients.Of(o) == w.clients.Of(o) && w'.logs.Of(o) == w.logs.Of(o)
      && w'.up.Of(o) == w.up.Of(o) && w'.down.Of(o) == w.down.Of(o)
      && (tok' == Holds(o) <==> tok == Holds(o))
    ensures Inv(w', tok')
  {}

  lemma LogIsLegal(w: World, tok: Token, c: Color)
    requires Inv(w, tok)
    ensures LegalLine(w.setup, w.logs.Of(c))
  {
    var server := ServerLog(w.match_);
    if tok.Relayed? && tok.c == c { LegalPrefix(w.setup, server, |server| - 1); }
  }

  // ----- receiving -----

  lemma RelayToken(w: World, tok: Token, c: Color)
    requires TokenOk(w, tok) && w.down.Of(c) != [] && w.down.Of(c)[0].MoveDown?
    ensures tok == Relayed(c) && TurnAfter(|w.logs.Of(c)|) == c.Other()
    ensures var server := ServerLog(w.match_);
      && 0 < |server| && w.logs.Of(c) == server[..|server| - 1]
      && w.down.Of(c)[0].move == server[|server| - 1] && RelaysIn(w.down.Of(c)[1..]) == []
  {
    var relays, first, rest := RelaysIn(w.down.Of(c)), w.down.Of(c)[0].move, RelaysIn(w.down.Of(c)[1..]);
    assert relays == [first] + rest;
    var d, o := tok.c, tok.c.Other();
    assert c == d || c == o;
    FitsOneRelay(w.setup, ServerLog(w.match_), tok, w.logs.Of(d), w.logs.Of(o),
                 MovesIn(w.up.Of(d)), MovesIn(w.up.Of(o)), RelaysIn(w.down.Of(d)), RelaysIn(w.down.Of(o)));
    OneRelay(first, rest, ServerLog(w.match_));
  }

  lemma FitsOneRelay(s: Setup, server: seq<Coords>, tok: Token, log: seq<Coords>, otherLog: seq<Coords>,
                     moves: seq<Coords>, otherMoves: seq<Coords>, relays: seq<Coords>, otherRelays: seq<Coords>)
    requires TokenFits(s, server, tok, log, otherLog, moves, otherMoves, relays, otherRelays)
    ensures otherRelays == []
    ensures relays != [] ==>
      && tok.Relayed? && TurnAfter(|log|) == tok.c.Other()
      && server != [] && log == server[..|server| - 1] && relays == [server[|server| - 1]]
  {}

  lemma OneRelay(first: Coords, rest: seq<Coords>, server: seq<Coords>)
    requires server != [] && [first] + rest == [server[|server| - 1]]
    ensures first == server[|server| - 1] && rest == []
  {
    assert ([first] + rest)[0] == first && |[first] + rest| == 1 + |rest|;
  }

  lemma RelayClient(s: Setup, k: Client, log: seq<Coords>, up: seq<Up>, down: seq<Down>, active: bool, c: Color,
                    holds: bool)
    requires ClientOk(s, k, log, up, down, active, c, holds) && down != [] && down[0].MoveDown?
    ensures k.color == Some(c) && k.online && Shows(s, k, log)
  {}

  /** A relayed move reaches a playing client holding the position it was made in. */
  lemma RelayFindsItsPosition(w: World, tok: Token, c: Color)
    requires Inv(w, tok) && w.down.Of(c) != [] && w.down.Of(c)[0].MoveDown?
    ensures tok == Relayed(c) && w.clients.Of(c).color == Some(c) && TurnAfter(|w.logs.Of(c)|) == c.Other()
    ensures w.logs.Of(c) + [w.down.Of(c)[0].move] == ServerLog(w.match_) && RelaysIn(w.down.Of(c)[1..]) == []
    ensures LegalNext(w.setup, w.logs.Of(c), w.down.Of(c)[0].move)
    ensures w.clients.Of(c).online && Shows(w.setup, w.clients.Of(c), w.logs.Of(c))
  {
    assert ClientFits(w, c, tok);
    RelayToken(w, tok, c);
    RelayClient(w.setup, w.clients.Of(c), w.logs.Of(c), w.up.Of(c), w.down.Of(c), w.match_.active, c, tok == Holds(c));
    LastIsLegal(w.setup, ServerLog(w.match_));
  }

  lemma LastIsLegal(s: Setup, line: seq<Coords>)
    requires LegalLine(s, line) && line != []
    ensures LegalNext(s, line[..|line| - 1], line[|line| - 1])
    ensures line[..|line| - 1] + [line[|line| - 1]] == line
  {}

  /** The move applied without a test is legal on the receiver's board, and is the other side's. */
  lemma AppliedMoveIsLegal(w: World, tok: Token, c: Color)
    requires Inv(w, tok) && w.down.Of(c) != [] && w.down.Of(c)[0].MoveDown?
    ensures var g, m := w.clients.Of(c).game, w.down.Of(c)[0].move;
      Friendly(g.pos, g.turn, From(m)) && g.turn == c.Other() && Legal(g.pos, From(m), To(m))
  {
    RelayFindsItsPosition(w, tok, c);
    LegalOnBoard(w.setup, w.clients.Of(c), w.logs.Of(c), w.down.Of(c)[0].move);
  }

  lemma LegalOnBoard(s: Setup, k: Client, log: seq<Coords>, m: Coords)
    requires Shows(s, k, log) && LegalNext(s, log, m)
    ensures Friendly(k.game.pos, k.game.turn, From(m)) && Legal(k.game.pos, From(m), To(m))
    ensures k.game.turn == TurnAfter(|log|)
  {}

  lemma OpponentMoveKeepsShowing(s: Setup, k: Client, log: seq<Coords>, m: Coords)
    requires Shows(s, k, log) && LegalLine(s, log) && LegalNext(s, log, m)
    ensures var k' := OpponentMoved(k, m);
      Shows(s, k', log + [m]) && k'.myTurn && k'.online == k.online && k'.color == k.color
  {
    LegalMoveKeepsSafe(k.game, From(m), To(m));
    LegalNextExtends(s, log, m);
    assert k.game.(turn := k.game.pos[From(m)].color) == k.game;
  }

  lemma MoveFits(s: Setup, k: Client, log: seq<Coords>, up: seq<Up>, down: seq<Down>, active: bool, c: Color)
    requires ClientOk(s, k, log, up, down, active, c, false)
    requires down != [] && down[0].MoveDown? && k.online && LegalLine(s, log) && LegalNext(s, log, down[0].move)
    ensures ClientOk(s, OpponentMoved(k, down[0].move), log + [down[0].move], up, down[1..], active, c, true)
  {
    OpponentMoveKeepsShowing(s, k, log, down[0].move);
  }

  lemma RelayLands(w: World, tok: Token, c: Color, k: Client)
    requires TokenOk(w, tok) && tok == Relayed(c)
    requires w.down.Of(c) != [] && RelaysIn(w.down.Of(c)[1..]) == []
    requires w.logs.Of(c) + [w.down.Of(c)[0].move] == ServerLog(w.match_) && w.down.Of(c)[0].MoveDown?
    ensures TokenOk(w.(down := w.down.With(c, w.down.Of(c)[1..]), clients := w.clients.With(c, k),
                       logs := w.logs.With(c, w.logs.Of(c) + [w.down.Of(c)[0].move])), Holds(c))
  {}

  lemma ReceiveMoveKeeps(w: World, tok: Token, c: Color)
    requires Inv(w, tok) && w.down.Of(c) != [] && w.down.Of(c)[0].MoveDown?
    ensures Inv(Received(w.(down := w.down.With(c, w.down.Of(c)[1..])), c, w.down.Of(c)[0]), Holds(c))
  {
    var k, log, m := w.clients.Of(c), w.logs.Of(c), w.down.Of(c)[0].move;
    RelayFindsItsPosition(w, tok, c);
    LogIsLegal(w, tok, c);
    assert ClientFits(w, c, tok);
    MoveFits(w.setup, k, log, w.up.Of(c), w.down.Of(c), w.match_.active, c);
    RelayLands(w, tok, c, OpponentMoved(k, m));
    var w' := w.(down := w.down.With(c, w.down.Of(c)[1..]), clients := w.clients.With(c, OpponentMoved(k, m)),
                 logs := w.logs.With(c, log + [m]));
    assert w' == Received(w.(down := w.down.With(c, w.down.Of(c)[1..])), c, MoveDown(m));
    assert ClientFits(w', c, Holds(c));
    ClientsStillFit(w, w', tok, Holds(c), c);
  }

  lemma NonMovePopped(w: World, tok: Token, c: Color, k: Client)
    requires TokenOk(w, tok) && w.down.Of(c) != [] && !w.down.Of(c)[0].MoveDown?
    ensures TokenOk(w.(down := w.down.With(c, w.down.Of(c)[1..]), clients := w.clients.With(c, k)), tok)
  {
    assert RelaysIn(w.down.Of(c)) == RelaysIn(w.down.Of(c)[1..]);
    SameToken(w, w.(down := w.down.With(c, w.down.Of(c)[1..]), clients := w.clients.With(c, k)), tok);
  }

  lemma EndFits(s: Setup, k: Client, log: seq<Coords>, up: seq<Up>, down: seq<Down>, active: bool, c: Color,
                holds: bool)
    requires ClientOk(s, k, log, up, down, active, c, holds) && down != [] && down[0].EndDown?
    ensures ClientOk(s, GameEnded(k), log, up, down[1..], active, c, holds)
  {}

  lemma ReceiveEndKeeps(w: World, tok: Token, c: Color)
    requires Inv(w, tok) && w.down.Of(c) != [] && w.down.Of(c)[0].EndDown?
    ensures Inv(Received(w.(down := w.down.With(c, w.down.Of(c)[1..])), c, EndDown), tok)
  {
    assert ClientFits(w, c, tok);
    EndFits(w.setup, w.clients.Of(c), w.logs.Of(c), w.up.Of(c), w.down.Of(c), w.match_.active, c, tok == Holds(c));
    NonMovePopped(w, tok, c, GameEnded(w.clients.Of(c)));
    ClientsStillFit(w, Received(w.(down := w.down.With(c, w.down.Of(c)[1..])), c, EndDown), tok, tok, c);
  }

  /** Joining does no harm to a client that has neither made nor seen a move since it joined,
      nor when the server has no move and none of this client's is on its way. */
  ghost predicate Harmless(w: World, c: Color) {
    w.logs.Of(c) == [] || (ServerLog(w.match_) == [] && MovesIn(w.up.Of(c)) == [])
  }

  lemma FoundFits(s: Setup, k: Client, log: seq<Coords>, up: seq<Up>, down: seq<Down>, active: bool, c: Color,
                  holds: bool)
    requires ClientOk(s, k, log, up, down, active, c, holds) && Safe(Start(s))
    requires down != [] && down[0].FoundDown?
    ensures ClientOk(s, Joined(k.spectator, c, s), [], up, down[1..], active, c, c.Red?)
    ensures down[0].color == c
  {}

  lemma HarmlessToken(w: World, tok: Token, c: Color) returns (tok': Token)
    requires Inv(w, tok) && Harmless(w, c)
    ensures tok' == Holds(c) <==> c.Red?
    ensures tok' == Holds(c.Other()) <==> tok == Holds(c.Other())
    ensures TokenOk(w.(logs := w.logs.With(c, [])), tok')
    ensures tok' == tok || (tok' == Holds(c) && w.match_.moves == [])
  {
    assert ServerLog(w.match_) == [] ==> w.match_.moves == [];
    tok' := if w.logs.Of(c) == [] then tok else Holds(c);
  }

  lemma ReceiveFoundKeeps(w: World, tok: Token, c: Color) returns (tok': Token)
    requires Inv(w, tok) && w.down.Of(c) != [] && w.down.Of(c)[0].FoundDown? && Harmless(w, c)
    ensures Inv(Received(w.(down := w.down.With(c, w.down.Of(c)[1..])), c, w.down.Of(c)[0]), tok')
    ensures tok' == tok || (tok' == Holds(c) && w.match_.moves == [])
  {
    tok' := HarmlessToken(w, tok, c);
    var w0, k := w.(logs := w.logs.With(c, [])), Joined(w.clients.Of(c).spectator, c, w.setup);
    var w' := w0.(down := w.down.With(c, w.down.Of(c)[1..]), clients := w.clients.With(c, k));
    assert ClientFits(w, c, tok);
    FoundFits(w.setup, w.clients.Of(c), w.logs.Of(c), w.up.Of(c), w.down.Of(c), w.match_.active, c, tok == Holds(c));
    NonMovePopped(w0, tok', c, k);
    assert w' == Received(w.(down := w.down.With(c, w.down.Of(c)[1..])), c, w.down.Of(c)[0]);
    assert ClientFits(w', c, tok');
    ClientsStillFit(w, w', tok, tok', c);
  }

  /** Joining anew with a move made leaves no placement of the token that fits both clients, the
      channels and the server. */
  lemma HarmfulJoinBreaks(w: World, tok: Token, c: Color, tok': Token)
    requires Inv(w, tok) && w.down.Of(c) != [] && w.down.Of(c)[0].FoundDown? && !Harmless(w, c)
    ensures !Inv(Received(w.(down := w.down.With(c, w.down.Of(c)[1..])), c, w.down.Of(c)[0]), tok')
  {
    var w' := Received(w.(down := w.down.With(c, w.down.Of(c)[1..])), c, w.down.Of(c)[0]);
    HarmfulJoinDisturbs(w, tok, c);
    assert w' == Act(w, Receive(c));
    if Inv(w', tok') { InvAgrees(w', tok'); }
  }

  // ----- serving -----

  /** The match may change in any way that keeps its log: the agreement does not depend on it,
      as long as it never comes back to life. */
  lemma RecordKeeps(w: World, tok: Token, m: Match)
    requires Inv(w, tok) && Coherent(m) && ServerLog(m) == ServerLog(w.match_)
    requires m.red == w.match_.red && m.black == w.match_.black && (m.active ==> w.match_.active)
    ensures Inv(w.(match_ := m), tok)
  {
    assert ClientFits(w, Red, tok) && ClientFits(w, Black, tok);
    assert ClientFits(w.(match_ := m), Red, tok) && ClientFits(w.(match_ := m), Black, tok);
  }

  lemma BroadcastFits(s: Setup, k: Client, log: seq<Coords>, up: seq<Up>, down: seq<Down>, c: Color, holds: bool)
    requires ClientOk(s, k, log, up, down, false, c, holds)
    requires forall i | 0 <= i < |down| :: !down[i].EndDown?
    ensures ClientOk(s, k, log, up, down + [EndDown], false, c, holds)
  {}

  lemma BroadcastKeepsFit(w: World, tok: Token, c: Color)
    requires ClientFits(w, c, tok) && !w.match_.active
    requires forall i | 0 <= i < |w.down.Of(c)| :: !w.down.Of(c)[i].EndDown?
    ensures ClientFits(Broadcast(w), c, tok)
  {
    assert Broadcast(w).down.Of(c) == w.down.Of(c) + [EndDown];
    BroadcastFits(w.setup, w.clients.Of(c), w.logs.Of(c), w.up.Of(c), w.down.Of(c), c, tok == Holds(c));
  }

  lemma BroadcastToken(w: World, tok: Token)
    requires TokenOk(w, tok)
    ensures TokenOk(Broadcast(w), tok)
  {
    RelaysInAppend(w.down.red, EndDown);
    RelaysInAppend(w.down.black, EndDown);
    assert forall c :: RelaysIn(Broadcast(w).down.Of(c)) == RelaysIn(w.down.Of(c));
    SameToken(w, Broadcast(w), tok);
  }

  lemma BroadcastKeeps(w: World, tok: Token)
    requires Inv(w, tok) && !w.match_.active
    requires forall c, i | 0 <= i < |w.down.Of(c)| :: !w.down.Of(c)[i].EndDown?
    ensures Inv(Broadcast(w), tok)
  {
    BroadcastToken(w, tok);
    forall i | 0 <= i < |w.down.red| ensures !w.down.red[i].EndDown? { assert !w.down.Of(Red)[i].EndDown?; }
    forall i | 0 <= i < |w.down.black| ensures !w.down.black[i].EndDown? { assert !w.down.Of(Black)[i].EndDown?; }
    BroadcastKeepsFit(w, tok, Red);
    BroadcastKeepsFit(w, tok, Black);
  }

  /** Ending an active match and telling both clients keeps the agreement. */
  lemma EndingKeeps(w: World, tok: Token, m: Match)
    requires Inv(w, tok) && w.match_.active && !m.active && Coherent(m) && ServerLog(m) == ServerLog(w.match_)
    requires m.red == w.match_.red && m.black == w.match_.black
    ensures Inv(w.(match_ := m), tok) && Inv(Broadcast(w.(match_ := m)), tok)
  {
    RecordKeeps(w, tok, m);
    NoEndingYet(w, tok, Red);
    NoEndingYet(w, tok, Black);
    BroadcastKeeps(w.(match_ := m), tok);
  }

  lemma NoEndingYet(w: World, tok: Token, c: Color)
    requires ClientFits(w, c, tok) && w.match_.active
    ensures forall i | 0 <= i < |w.down.Of(c)| :: !w.down.Of(c)[i].EndDown?
  {}

  /** The server's answer to a move in flight: the turn check always passes. */
  lemma AskedMoveIsInTurn(w: World, tok: Token, c: Color, now: int)
    requires Inv(w, tok) && w.up.Of(c) != [] && w.up.Of(c)[0].MoveUp?
    ensures tok == Asking(c) && HandleMove(w.match_, User(w.match_, c), w.up.Of(c)[0].move, now).1 != NotYourTurn
    ensures var n := |ServerLog(w.match_)|;
      w.up.Of(c)[0].move == w.logs.Of(c)[n] && MovesIn(w.up.Of(c)[1..]) == []
  {
    assert MovesIn(w.up.Of(c)) == [w.up.Of(c)[0].move] + MovesIn(w.up.Of(c)[1..]);
    assert MovesIn(w.up.Of(c))[0] == w.up.Of(c)[0].move;
    assert |MovesIn(w.up.Of(c))| == 1 + |MovesIn(w.up.Of(c)[1..])|;
    assert RedToMove(w.match_) <==> c.Red?;
  }

  /** On board coordinates survive being stored in a byte. */
  lemma StoredAsSent(m: Coords)
    requires OnBoard(From(m)) && OnBoard(To(m))
    ensures Stored(m) == m
  {
    SmallInt8(m.fromRow);
    SmallInt8(m.fromCol);
    SmallInt8(m.toRow);
    SmallInt8(m.toCol);
  }

  lemma SmallInt8(x: int)
    requires 0 <= x < 128
    ensures Int8(x) == x
  {}

  lemma AcceptedGrowsLog(m: Match, user: int, move: Coords, now: int)
    requires HandleMove(m, user, move, now).1 == MoveAccepted && Stored(move) == move
    ensures var m' := HandleMove(m, user, move, now).0;
      && ServerLog(m') == ServerLog(m) + [move] && m'.red == m.red && m'.black == m.black
      && m.active && m'.active && (Coherent(m) ==> Coherent(m'))
  {
    if Coherent(m) { NextIsCoherent(m, Move(user, move, now)); }
  }

  lemma RefusedKeepsLog(m: Match, user: int, move: Coords, now: int)
    requires HandleMove(m, user, move, now).1 != MoveAccepted
    ensures var (m', reply) := HandleMove(m, user, move, now);
      && ServerLog(m') == ServerLog(m) && m'.red == m.red && m'.black == m.black
      && (reply == TimeExpired ==> m.active && !m'.active)
      && (m'.active ==> m.active)
      && (Coherent(m) ==> Coherent(m') && (reply != NotYourTurn ==> Finished(m')))
  {
    if Coherent(m) { NextIsCoherent(m, Move(user, move, now)); }
  }

  /** The move has left its queue unanswered: the token counts as lost for the moment. */
  lemma TakenFromQueue(w: World, c: Color)
    requires Inv(w, Asking(c)) && w.up.Of(c) != [] && w.up.Of(c)[0].MoveUp? && MovesIn(w.up.Of(c)[1..]) == []
    ensures Inv(w.(up := w.up.With(c, w.up.Of(c)[1..])), Dropped(c))
  {
    var w' := w.(up := w.up.With(c, w.up.Of(c)[1..]));
    assert ClientFits(w, c, Asking(c));
    assert ClientFits(w', c, Dropped(c));
    assert TokenOk(w', Dropped(c));
    ClientsStillFit(w, w', Asking(c), Dropped(c), c);
  }

  /** An accepted move is logged and relayed; the token is on its way to the other client. */
  lemma AcceptedRelays(w: World, c: Color, move: Coords, m: Match)
    requires Inv(w, Dropped(c)) && move == w.logs.Of(c)[|ServerLog(w.match_)|]
    requires w.match_.active && m.active && Coherent(m) && ServerLog(m) == ServerLog(w.match_) + [move]
    requires m.red == w.match_.red && m.black == w.match_.black
    ensures var o := c.Other();
      Inv(w.(match_ := m, down := w.down.With(o, w.down.Of(o) + [MoveDown(move)])), Relayed(o))
  {
    var o := c.Other();
    var w' := w.(match_ := m, down := w.down.With(o, w.down.Of(o) + [MoveDown(move)]));
    AheadByOne(w.setup, w.logs.Of(c), ServerLog(w.match_));
    RelayedToken(w, c, move, m);
    assert ClientFits(w, c, Dropped(c)) && ClientFits(w, o, Dropped(c));
    RelayFits(w.setup, w.clients.Of(o), w.logs.Of(o), w.up.Of(o), w.down.Of(o), o, move);
    assert ClientFits(w', c, Relayed(o)) && ClientFits(w', o, Relayed(o));
  }

  lemma RelayFits(s: Setup, k: Client, log: seq<Coords>, up: seq<Up>, down: seq<Down>, c: Color, move: Coords)
    requires ClientOk(s, k, log, up, down, true, c, false)
    ensures ClientOk(s, k, log, up, down + [MoveDown(move)], true, c, false)
  {}

  lemma RelayedFits(s: Setup, server: seq<Coords>, c: Color, log: seq<Coords>, otherLog: seq<Coords>,
                    moves: seq<Coords>, otherMoves: seq<Coords>, relays: seq<Coords>, otherRelays: seq<Coords>,
                    move: Coords)
    requires TokenFits(s, server, Dropped(c), log, otherLog, moves, otherMoves, relays, otherRelays)
    requires log == server + [move]
    ensures TokenFits(s, server + [move], Relayed(c.Other()), otherLog, log,
                      otherMoves, moves, otherRelays + [move], relays)
  {
    var longer := server + [move];
    assert longer[..|longer| - 1] == server && otherRelays + [move] == [move];
  }

  lemma RelayedToken(w: World, c: Color, move: Coords, m: Match)
    requires TokenOk(w, Dropped(c)) && w.logs.Of(c) == ServerLog(m)
    requires ServerLog(m) == ServerLog(w.match_) + [move]
    ensures var o := c.Other();
      TokenOk(w.(match_ := m, down := w.down.With(o, w.down.Of(o) + [MoveDown(move)])), Relayed(o))
  {
    var o := c.Other();
    RelaysInAppend(w.down.Of(o), MoveDown(move));
    RelayedFits(w.setup, ServerLog(w.match_), c, w.logs.Of(c), w.logs.Of(o), MovesIn(w.up.Of(c)), MovesIn(w.up.Of(o)),
                RelaysIn(w.down.Of(c)), RelaysIn(w.down.Of(o)), move);
  }

  lemma AheadByOne(s: Setup, log: seq<Coords>, server: seq<Coords>)
    requires OneAhead(s, log, server)
    ensures log == server + [log[|server|]]
  {}

  lemma AheadIsLegal(s: Setup, log: seq<Coords>, server: seq<Coords>)
    requires OneAhead(s, log, server)
    ensures LegalNext(s, server, log[|server|])
  {
    assert log[..|log| - 1] == server;
  }

  lemma AcceptedKeeps(w: World, c: Color, move: Coords, now: int)
    requires Inv(w, Dropped(c)) && move == w.logs.Of(c)[|ServerLog(w.match_)|]
    requires HandleMove(w.match_, User(w.match_, c), move, now).1 == MoveAccepted
    ensures Inv(Served(w, c, MoveUp(move), now), Relayed(c.Other()))
  {
    var user := User(w.match_, c);
    AheadIsLegal(w.setup, w.logs.Of(c), ServerLog(w.match_));
    StoredAsSent(move);
    AcceptedGrowsLog(w.match_, user, move, now);
    AcceptedRelays(w, c, move, HandleMove(w.match_, user, move, now).0);
  }

  /** The record after a refusal, told to both clients if that ended the match. */
  lemma RefusalKeeps(w: World, tok: Token, m: Match, expired: bool)
    requires Inv(w, tok) && Coherent(m) && ServerLog(m) == ServerLog(w.match_)
    requires m.red == w.match_.red && m.black == w.match_.black
    requires if expired then w.match_.active && !m.active else m.active ==> w.match_.active
    ensures Inv(if expired then Broadcast(w.(match_ := m)) else w.(match_ := m), tok)
  {
    if expired { EndingKeeps(w, tok, m); } else { RecordKeeps(w, tok, m); }
  }

  lemma RefusedKeeps(w: World, c: Color, move: Coords, now: int)
    requires Inv(w, Dropped(c))
    requires HandleMove(w.match_, User(w.match_, c), move, now).1 != MoveAccepted
    ensures Inv(Served(w, c, MoveUp(move), now), Dropped(c))
  {
    var user := User(w.match_, c);
    var (m, reply) := HandleMove(w.match_, user, move, now);
    RefusedKeepsLog(w.match_, user, move, now);
    RefusalKeeps(w, Dropped(c), m, reply == TimeExpired);
  }

  lemma ServeMoveKeeps(w: World, tok: Token, c: Color, now: int) returns (tok': Token)
    requires Inv(w, tok) && w.up.Of(c) != [] && w.up.Of(c)[0].MoveUp?
    ensures Inv(Served(w.(up := w.up.With(c, w.up.Of(c)[1..])), c, w.up.Of(c)[0], now), tok')
    ensures tok == Asking(c)
    ensures tok' == Relayed(c.Other())
         || Finished(Served(w.(up := w.up.With(c, w.up.Of(c)[1..])), c, w.up.Of(c)[0], now).match_)
  {
    var w1, move := w.(up := w.up.With(c, w.up.Of(c)[1..])), w.up.Of(c)[0].move;
    AskedMoveIsInTurn(w, tok, c, now);
    TakenFromQueue(w, c);
    if HandleMove(w.match_, User(w.match_, c), move, now).1 == MoveAccepted {
      AcceptedKeeps(w1, c, move, now);
      tok' := Relayed(c.Other());
    } else {
      RefusedKeeps(w1, c, move, now);
      RefusedKeepsLog(w.match_, User(w.match_, c), move, now);
      tok' := Dropped(c);
    }
  }

  lemma TakenFits(w: World, tok: Token, c: Color)
    requires ClientFits(w, c, tok) && w.up.Of(c) != []
    ensures ClientFits(w.(up := w.up.With(c, w.up.Of(c)[1..])), c, tok)
  {}

  lemma NonMoveTaken(w: World, tok: Token, c: Color)
    requires TokenOk(w, tok) && w.up.Of(c) != [] && !w.up.Of(c)[0].MoveUp?
    ensures TokenOk(w.(up := w.up.With(c, w.up.Of(c)[1..])), tok)
  {
    assert MovesIn(w.up.Of(c)) == MovesIn(w.up.Of(c)[1..]);
    SameToken(w, w.(up := w.up.With(c, w.up.Of(c)[1..])), tok);
  }

  lemma OtherTakenFromQueue(w: World, tok: Token, c: Color)
    requires Inv(w, tok) && w.up.Of(c) != [] && !w.up.Of(c)[0].MoveUp?
    ensures Inv(w.(up := w.up.With(c, w.up.Of(c)[1..])), tok)
  {
    assert ClientFits(w, c, tok);
    TakenFits(w, tok, c);
    NonMoveTaken(w, tok, c);
    ClientsStillFit(w, w.(up := w.up.With(c, w.up.Of(c)[1..])), tok, tok, c);
  }

  lemma ServeOtherKeeps(w: World, tok: Token, c: Color, now: int)
    requires Inv(w, tok) && w.up.Of(c) != [] && !w.up.Of(c)[0].MoveUp?
    ensures Inv(Served(w.(up := w.up.With(c, w.up.Of(c)[1..])), c, w.up.Of(c)[0], now), tok)
  {
    OtherTakenFromQueue(w, tok, c);
    OtherServedKeeps(w.(up := w.up.With(c, w.up.Of(c)[1..])), tok, c, w.up.Of(c)[0], now);
  }

  lemma OtherServedKeeps(w: World, tok: Token, c: Color, u: Up, now: int)
    requires Inv(w, tok) && !u.MoveUp?
    ensures Inv(Served(w, c, u, now), tok)
  {
    if w.match_.active {
      if u.ResignUp? {
        NextIsCoherent(w.match_, Step.Resign(User(w.match_, c)));
        EndingKeeps(w, tok, HandleResign(w.match_, User(w.match_, c)));
      } else {
        NextIsCoherent(w.match_, AcceptDraw);
        EndingKeeps(w, tok, HandleDrawAccepted(w.match_));
      }
    }
  }

  lemma SweepKeeps(w: World, tok: Token, now: int, announced: bool)
    requires Inv(w, tok)
    ensures Inv(SweptWorld(w, now, announced), tok)
  {
    NextIsCoherent(w.match_, Sweep(now));
    if TimedOut(w.match_, now) {
      EndingKeeps(w, tok, Swept(w.match_, now));
    }
  }

  // ----- whole runs -----

  /** The action does not deliver a match_found to a client that it would set back. */
  ghost predicate Sound(w: World, a: Action) {
    a.Receive? && w.down.Of(a.c) != [] && w.down.Of(a.c)[0].FoundDown? ==> Harmless(w, a.c)
  }

  lemma ReceiveKeeps(w: World, tok: Token, c: Color) returns (tok': Token)
    requires Inv(w, tok) && Sound(w, Receive(c)) && w.down.Of(c) != []
    ensures Inv(Received(w.(down := w.down.With(c, w.down.Of(c)[1..])), c, w.down.Of(c)[0]), tok')
    ensures tok' == tok || (tok' == Holds(c) && (tok == Relayed(c) || w.match_.moves == []))
  {
    match w.down.Of(c)[0]
    case FoundDown(_) => tok' := ReceiveFoundKeeps(w, tok, c);
    case MoveDown(_) =>
      RelayToken(w, tok, c);
      ReceiveMoveKeeps(w, tok, c);
      tok' := Holds(c);
    case EndDown => ReceiveEndKeeps(w, tok, c); tok' := tok;
  }

  lemma ServeKeeps(w: World, tok: Token, c: Color, now: int) returns (tok': Token)
    requires Inv(w, tok) && w.up.Of(c) != []
    ensures Inv(Served(w.(up := w.up.With(c, w.up.Of(c)[1..])), c, w.up.Of(c)[0], now), tok')
    ensures tok' == tok || (tok == Asking(c)
      && (tok' == Relayed(c.Other())
          || Finished(Served(w.(up := w.up.With(c, w.up.Of(c)[1..])), c, w.up.Of(c)[0], now).match_)))
  {
    tok' := tok;
    if w.up.Of(c)[0].MoveUp? { tok' := ServeMoveKeeps(w, tok, c, now); } else { ServeOtherKeeps(w, tok, c, now); }
  }

  predicate IsLocal(a: Action) {
    a.ClickBoard? || a.ChoosePiece? || a.CancelPiece? || a.PressResign?
  }

  lemma LocalActKeeps(w: World, tok: Token, a: Action) returns (tok': Token)
    requires Inv(w, tok) && IsLocal(a)
    ensures Inv(Act(w, a), tok')
    ensures tok' == tok || tok'.Asking?
    ensures tok.Dropped? ==> tok' == tok
  {
    tok' := tok;
    if a.ClickBoard? {
      tok' := ClickBoardKeeps(w, tok, a.c, a.at, a.canSend);
    } else {
      SelectingKeeps(w, tok, a);
    }
  }

  lemma SelectingKeeps(w: World, tok: Token, a: Action)
    requires Inv(w, tok) && IsLocal(a) && !a.ClickBoard?
    ensures Inv(Act(w, a), tok)
  {
    match a
    case ChoosePiece(c, q) => SelectionKeeps(w, tok, c, ChooseOn(q));
    case CancelPiece(c, q) => SelectionKeeps(w, tok, c, CancelOn(q));
    case PressResign(c) => SelectionKeeps(w, tok, c, Event.Resign);
  }

  lemma ActKeeps(w: World, tok: Token, a: Action) returns (tok': Token)
    requires Inv(w, tok) && Sound(w, a)
    ensures Inv(Act(w, a), tok')
    ensures tok'.Dropped? ==> tok' == tok || Finished(Act(w, a).match_)
    ensures tok.Dropped? && w.match_.moves != [] ==> tok' == tok
  {
    tok' := tok;
    if IsLocal(a) {
      tok' := LocalActKeeps(w, tok, a);
    } else if a.Receive? {
      if w.down.Of(a.c) != [] { tok' := ReceiveKeeps(w, tok, a.c); }
    } else if a.Serve? {
      if w.up.Of(a.c) != [] { tok' := ServeKeeps(w, tok, a.c, a.now); }
    } else if a.SweepMatch? {
      SweepKeeps(w, tok, a.now, a.announced);
    } else {
      SendsKeep(w, tok, a);
    }
  }

  lemma SendsKeep(w: World, tok: Token, a: Action)
    requires Inv(w, tok) && (a.SendResign? || a.SendAcceptDraw?)
    ensures Inv(Act(w, a), tok)
  {
    OnlineHasColor(w, tok, a.c);
    if w.clients.Of(a.c).color.Some? {
      if a.SendResign? { SendKeeps(w, tok, a.c, ResignUp); } else { SendKeeps(w, tok, a.c, AcceptDrawUp); }
    }
  }

  lemma OnlineHasColor(w: World, tok: Token, c: Color)
    requires Inv(w, tok)
    ensures w.clients.Of(c).online ==> w.clients.Of(c).color.Some?
  {
    assert ClientFits(w, c, tok);
  }

  /** An action keeps the token's invariant if and only if it is sound. */
  lemma KeepsIffSound(w: World, tok: Token, a: Action)
    requires Inv(w, tok)
    ensures (exists tok' :: Inv(Act(w, a), tok')) <==> Sound(w, a)
  {
    if Sound(w, a) {
      var tok' := ActKeeps(w, tok, a);
    } else {
      forall tok' ensures !Inv(Act(w, a), tok') {
        HarmfulJoinBreaks(w, tok, a.c, tok');
      }
    }
  }

  ghost function RunFrom(w: World, actions: seq<Action>): World {
    if actions == [] then w else Act(RunFrom(w, actions[..|actions| - 1]), actions[|actions| - 1])
  }

  ghost predicate SoundRun(w: World, actions: seq<Action>) {
    actions == [] ||
    (SoundRun(w, actions[..|actions| - 1]) && Sound(RunFrom(w, actions[..|actions| - 1]), actions[|actions| - 1]))
  }

  lemma FreshFits(w: World)
    requires Fresh(w) && Safe(Start(w.setup))
    ensures Inv(w, Holds(Red))
  {
    assert ServerLog(w.match_) == [];
  }

  /** Whatever happens, the record changes by a step of the match, if at all. */
  lemma MatchSteps(w: World, a: Action)
    ensures Act(w, a).match_ == w.match_ || exists e :: Act(w, a).match_ == Next(w.match_, e)
  {
    match a
    case Serve(c, now) =>
      if w.up.Of(c) != [] {
        var user := User(w.match_, c);
        match w.up.Of(c)[0]
        case MoveUp(move) => assert Act(w, a).match_ == Next(w.match_, Move(user, move, now));
        case ResignUp => assert Act(w, a).match_ == Next(w.match_, Step.Resign(user));
        case AcceptDrawUp => assert Act(w, a).match_ == Next(w.match_, AcceptDraw);
      }
    case SweepMatch(now, announced) => assert Act(w, a).match_ == Next(w.match_, Sweep(now));
    case _ =>
  }

  lemma FinishedStays(w: World, a: Action)
    requires Coherent(w.match_) && Finished(w.match_)
    ensures Finished(Act(w, a).match_) && Act(w, a).match_.moves == w.match_.moves
  {
    MatchSteps(w, a);
    if e :| Act(w, a).match_ == Next(w.match_, e) { NextIsCoherent(w.match_, e); }
  }

  /** Every run without a harmful join keeps replicas, server and token in agreement. */
  lemma {:induction false} RunsAgree(w: World, actions: seq<Action>) returns (tok: Token)
    requires Fresh(w) && Safe(Start(w.setup)) && SoundRun(w, actions)
    ensures Inv(RunFrom(w, actions), tok)
    ensures tok.Dropped? ==> Finished(RunFrom(w, actions).match_)
  {
    if actions == [] {
      FreshFits(w);
      tok := Holds(Red);
    } else {
      var n := |actions| - 1;
      var before := RunsAgree(w, actions[..n]);
      if before.Dropped? { FinishedStays(RunFrom(w, actions[..n]), actions[n]); }
      tok := ActKeeps(RunFrom(w, actions[..n]), before, actions[n]);
    }
  }

  // ----- what the agreement means -----

  ghost predicate Close(a: seq<Coords>, b: seq<Coords>) {
    (a <= b && |b| <= |a| + 1) || (b <= a && |a| <= |b| + 1)
  }

  function Count(b: bool): nat { if b then 1 else 0 }

  /** The client has made a move that the server has refused. */
  predicate Lost(w: World, c: Color) {
    |w.logs.Of(c)| == |w.match_.moves| + 1 && MovesIn(w.up.Of(c)) == []
  }

  /** How often the right to move exists for one colour: with its client, in its moves on their
      way to the server, in moves relayed to it, in a move of its that the server refused. */
  function Rights(w: World, c: Color): nat {
    Count(w.clients.Of(c).myTurn) + |MovesIn(w.up.Of(c))| + |RelaysIn(w.down.Of(c))|
    + Count(Lost(w, c))
  }

  lemma AgreementMeans(w: World, tok: Token)
    requires Inv(w, tok)
    ensures Close(w.logs.red, w.logs.black)
    ensures Close(w.logs.red, ServerLog(w.match_)) && Close(w.logs.black, ServerLog(w.match_))
    ensures LegalLine(w.setup, w.logs.red) && LegalLine(w.setup, w.logs.black)
    ensures Rights(w, Red) + Rights(w, Black) <= 1
    ensures w.clients.red.online && w.clients.black.online ==> Rights(w, Red) + Rights(w, Black) == 1
  {
    assert ClientFits(w, Red, tok) && ClientFits(w, Black, tok);
    LogIsLegal(w, tok, Red);
    LogIsLegal(w, tok, Black);
    var server := ServerLog(w.match_);
    var c, o := tok.c, tok.c.Other();
    assert Close(w.logs.Of(c), w.logs.Of(o)) && Close(w.logs.Of(c), server) && Close(w.logs.Of(o), server);
  }

  /** The two replicas and the server hold the same legal game up to one move, each playing replica
      shows it, the right to move exists exactly once while both play, and each move a replica is
      about to apply without a test is a legal move of its opponent on its own board. */
  ghost predicate Agreed(w: World) {
    && Close(w.logs.red, w.logs.black)
    && Close(w.logs.red, ServerLog(w.match_)) && Close(w.logs.black, ServerLog(w.match_))
    && LegalLine(w.setup, w.logs.red) && LegalLine(w.setup, w.logs.black)
    && Rights(w, Red) + Rights(w, Black) <= 1
    && (w.clients.red.online && w.clients.black.online ==> Rights(w, Red) + Rights(w, Black) == 1)
    && (forall c | w.clients.Of(c).online :: BoardShows(w.setup, w.clients.Of(c).game, w.logs.Of(c)))
    && forall c | w.down.Of(c) != [] && w.down.Of(c)[0].MoveDown? ::
         var g, m := w.clients.Of(c).game, w.down.Of(c)[0].move;
         Friendly(g.pos, g.turn, From(m)) && g.turn == c.Other() && Legal(g.pos, From(m), To(m))
  }

  /** No move is lost: what the server has logged is on each board, or still on its way to it. */
  ghost predicate Complete(w: World) {
    forall c :: ServerLog(w.match_) <= w.logs.Of(c) + RelaysIn(w.down.Of(c))
  }

  lemma InvAgrees(w: World, tok: Token)
    requires Inv(w, tok)
    ensures Agreed(w) && Complete(w)
  {
    AgreementMeans(w, tok);
    forall c | w.clients.Of(c).online ensures BoardShows(w.setup, w.clients.Of(c).game, w.logs.Of(c)) {
      assert ClientFits(w, c, tok);
    }
    forall c | w.down.Of(c) != [] && w.down.Of(c)[0].MoveDown?
      ensures var g, m := w.clients.Of(c).game, w.down.Of(c)[0].move;
        Friendly(g.pos, g.turn, From(m)) && g.turn == c.Other() && Legal(g.pos, From(m), To(m))
    {
      AppliedMoveIsLegal(w, tok, c);
    }
    TokenKeepsMoves(w, tok);
  }

  lemma TokenKeepsMoves(w: World, tok: Token)
    requires TokenOk(w, tok)
    ensures Complete(w)
  {
    var c, o := tok.c, tok.c.Other();
    FitsKeepsMoves(w.setup, ServerLog(w.match_), tok, w.logs.Of(c), w.logs.Of(o),
                   MovesIn(w.up.Of(c)), MovesIn(w.up.Of(o)), RelaysIn(w.down.Of(c)), RelaysIn(w.down.Of(o)));
    forall d ensures ServerLog(w.match_) <= w.logs.Of(d) + RelaysIn(w.down.Of(d)) {
      assert d == c || d == o;
    }
  }

  lemma FitsKeepsMoves(s: Setup, server: seq<Coords>, tok: Token, log: seq<Coords>, otherLog: seq<Coords>,
                       moves: seq<Coords>, otherMoves: seq<Coords>, relays: seq<Coords>, otherRelays: seq<Coords>)
    requires TokenFits(s, server, tok, log, otherLog, moves, otherMoves, relays, otherRelays)
    ensures server <= log + relays && server <= otherLog + otherRelays
  {
    if tok.Relayed? {
      assert server == server[..|server| - 1] + [server[|server| - 1]];
    } else {
      assert log[..|server|] == server && log + relays == log;
    }
    assert otherLog + otherRelays == server;
  }

  /** Replica agreement, in every run of a match from the opening in which no match_found sets a
      client back. */
  lemma ReplicasAgree(w: World, actions: seq<Action>)
    requires Fresh(w) && w.setup == OPENING && SoundRun(w, actions)
    ensures Agreed(RunFrom(w, actions)) && Complete(RunFrom(w, actions))
  {
    OpeningIsSafe();
    var tok := RunsAgree(w, actions);
    InvAgrees(RunFrom(w, actions), tok);
  }

  // ----- a right once lost -----

  lemma LostIsDropped(w: World, tok: Token, c: Color)
    requires TokenOk(w, tok)
    ensures Lost(w, c) <==> tok == Dropped(c)
  {
    assert |ServerLog(w.match_)| == |w.match_.moves|;
    assert c == tok.c || c == tok.c.Other();
  }

  /** In every sound run of a match from the opening the right to move is lost only with the match
      over or its record of 300 moves full: short of that, somebody can always go on. */
  lemma RightIsNotLost(w: World, actions: seq<Action>, c: Color)
    requires Fresh(w) && w.setup == OPENING && SoundRun(w, actions)
    ensures Lost(RunFrom(w, actions), c) ==> Finished(RunFrom(w, actions).match_)
  {
    OpeningIsSafe();
    var tok := RunsAgree(w, actions);
    LostIsDropped(RunFrom(w, actions), tok, c);
  }

  lemma {:induction false} DroppedStays(w: World, tok: Token, actions: seq<Action>)
    requires Inv(w, tok) && tok.Dropped? && Finished(w.match_) && w.match_.moves != [] && SoundRun(w, actions)
    ensures Inv(RunFrom(w, actions), tok) && Finished(RunFrom(w, actions).match_)
    ensures RunFrom(w, actions).match_.moves == w.match_.moves
  {
    if actions != [] {
      var before, a := actions[..|actions| - 1], actions[|actions| - 1];
      DroppedStays(w, tok, before);
      FinishedStays(RunFrom(w, before), a);
      var tok' := ActKeeps(RunFrom(w, before), tok, a);
    }
  }

  lemma {:induction false} FullRecordStays(w: World, tok: Token, actions: seq<Action>) returns (tok': Token)
    requires Inv(w, tok) && |w.match_.moves| == MAX_MOVES_PER_MATCH && SoundRun(w, actions)
    ensures Inv(RunFrom(w, actions), tok') && RunFrom(w, actions).match_.moves == w.match_.moves
  {
    tok' := tok;
    if actions != [] {
      var before, a := actions[..|actions| - 1], actions[|actions| - 1];
      var tok1 := FullRecordStays(w, tok, before);
      FinishedStays(RunFrom(w, before), a);
      tok' := ActKeeps(RunFrom(w, before), tok1, a);
    }
  }

  /** At 300 moves the right to move is lost for good: no move is accepted any more, and a client
      whose move was refused is left waiting, one move ahead, in every sound run. */
  lemma FullMatchIsStuck(w: World, tok: Token, actions: seq<Action>, c: Color)
    requires Inv(w, tok) && |w.match_.moves| == MAX_MOVES_PER_MATCH && SoundRun(w, actions)
    ensures RunFrom(w, actions).match_.moves == w.match_.moves
    ensures Lost(w, c) ==> Lost(RunFrom(w, actions), c)
  {
    var tok' := FullRecordStays(w, tok, actions);
    if Lost(w, c) {
      LostIsDropped(w, tok, c);
      DroppedStays(w, tok, actions);
      LostIsDropped(RunFrom(w, actions), tok, c);
    }
  }

  // ----- endings are told -----

  /** The step that ends a match sends the ending to both clients, unless it is a sweep whose
      finding is not announced: then nothing is sent to anybody. */
  lemma EndingReachesBoth(w: World, a: Action, c: Color)
    requires w.match_.active && !Act(w, a).match_.active
    ensures !(a.SweepMatch? && !a.announced) ==> EndDown in Act(w, a).down.Of(c)
    ensures a.SweepMatch? && !a.announced ==> Act(w, a).down == w.down
  {
    assert a.Serve? || a.SweepMatch?;
    if !(a.SweepMatch? && !a.announced) {
      assert Act(w, a).down.Of(c)[|Act(w, a).down.Of(c)| - 1] == EndDown;
    }
  }

  /** What the server makes of the message it takes from a player of an active match: a resignation
      loses the match for that player, an accepted draw is a draw, an accepted move goes, as it was
      sent, to the other player and to nobody else, and a refused one to nobody. */
  lemma ServedMeans(w: World, c: Color, now: int)
    requires Coherent(w.match_) && w.match_.active && w.match_.red != w.match_.black && w.up.Of(c) != []
    ensures var w', u := Act(w, Serve(c, now)), w.up.Of(c)[0];
      && w'.up.Of(c) == w.up.Of(c)[1..] && w'.up.Of(c.Other()) == w.up.Of(c.Other())
      && w'.clients == w.clients && w'.logs == w.logs
      && (u.ResignUp? ==>
            w'.match_.result == (if c == Red then BlackWins else RedWins) && w'.match_.endReason == Resigned)
      && (u.AcceptDrawUp? ==> w'.match_.result == Draw && w'.match_.endReason == Agreement)
      && (u.MoveUp? && |w'.match_.moves| > |w.match_.moves| ==>
            && w'.down.Of(c) == w.down.Of(c) && w'.down.Of(c.Other()) == w.down.Of(c.Other()) + [MoveDown(u.move)]
            && c == TurnAfter(|w.match_.moves|))
      && (u.MoveUp? && w'.match_.active && w'.match_.moves == w.match_.moves ==> w'.down == w.down)
  {
    if w.up.Of(c)[0].MoveUp? {
      var user, move := User(w.match_, c), w.up.Of(c)[0].move;
      RepliesMean(w.match_, user, move, now);
      NextIsCoherent(w.match_, Move(user, move, now));
    } else {
      EndingsName(w.match_, User(w.match_, c), Coords(0, 0, 0, 0), now);
    }
  }

  /** What the players' buttons put on the wire, and when. */
  lemma SendsMean(w: World, c: Color)
    ensures Act(w, SendResign(c)) ==
      if w.clients.Of(c).online then w.(up := w.up.With(c, w.up.Of(c) + [ResignUp])) else w
    ensures Act(w, SendAcceptDraw(c)) ==
      if w.clients.Of(c).color == None then w else w.(up := w.up.With(c, w.up.Of(c) + [AcceptDrawUp]))
  {}

  /** No match_found is queued behind an ending. */
  ghost predicate Ordered(down: seq<Down>) {
    forall i, j | 0 <= i < j < |down| :: !(down[i].EndDown? && down[j].FoundDown?)
  }

  ghost predicate HasFound(down: seq<Down>) {
    exists i :: 0 <= i < |down| && down[i].FoundDown?
  }

  /** The client knows of the end, or will by what is on its way to it, and stays out of play. */
  ghost predicate KnowsTheEnd(k: Client, down: seq<Down>) {
    EndDown in down || (k.color.Some? && !k.online && !HasFound(down))
  }

  /** The client takes itself to be in a running match, or has not yet been told of it. */
  ghost predicate InPlay(k: Client, down: seq<Down>) {
    EndDown !in down && (k.color.Some? ==> k.online)
  }

  ghost predicate ToldOf(w: World, c: Color) {
    var k, down := w.clients.Of(c), w.down.Of(c);
    && Ordered(down) && (k.color.None? ==> !k.online && HasFound(down))
    && if w.match_.active then InPlay(k, down) else KnowsTheEnd(k, down)
  }

  /** What a step does to the queue of one client: it stays, grows at its end by other than a
      match_found, or loses its head to the client. */
  ghost predicate QueueStep(w: World, a: Action, c: Color) {
    var down, down' := w.down.Of(c), Act(w, a).down.Of(c);
    || (down' == down && Same(w.clients.Of(c), Act(w, a).clients.Of(c)))
    || (Same(w.clients.Of(c), Act(w, a).clients.Of(c))
        && exists d: Down :: !d.FoundDown? && (d.EndDown? ==> !Act(w, a).match_.active) && down' == down + [d])
    || (a == Receive(c) && down != [] && down' == down[1..] && Took(w.clients.Of(c), Act(w, a).clients.Of(c), down[0])
        && Act(w, a).match_ == w.match_)
  }

  ghost predicate Same(k: Client, k': Client) { k'.online == k.online && k'.color == k.color }

  /** The client is online exactly from a match_found to an ending. */
  ghost predicate Took(k: Client, k': Client, d: Down) {
    match d
    case FoundDown(_) => k'.online && k'.color.Some?
    case MoveDown(_) => Same(k, k')
    case EndDown => !k'.online && k'.color == k.color
  }

  lemma StepsInQueues(w: World, a: Action, c: Color)
    ensures QueueStep(w, a, c)
  {
    match a
    case Receive(o) =>
    case Serve(o, now) => if w.up.Of(o) != [] { ServedInQueues(w, o, now, c); }
    case SweepMatch(now, announced) =>
      if TimedOut(w.match_, now) && announced { assert Act(w, a).down.Of(c) == w.down.Of(c) + [EndDown]; }
    case _ =>
  }

  lemma ServedInQueues(w: World, o: Color, now: int, c: Color)
    requires w.up.Of(o) != []
    ensures QueueStep(w, Serve(o, now), c)
  {
    var u, down, down' := w.up.Of(o)[0], w.down.Of(c), Act(w, Serve(o, now)).down.Of(c);
    assert down' == down || down' == down + [EndDown] || (u.MoveUp? && down' == down + [MoveDown(u.move)]);
    if down' == down + [EndDown] {
      assert down'[|down|] == EndDown;
      if u.MoveUp? {
        assert (down + [MoveDown(u.move)])[|down|] != EndDown;
        var reply := HandleMove(w.match_, User(w.match_, o), u.move, now).1;
        assert reply == TimeExpired;
      }
    }
  }

  lemma QueueGrows(k: Client, k': Client, down: seq<Down>, d: Down)
    requires Same(k, k') && !d.FoundDown? && Ordered(down)
    ensures Ordered(down + [d]) && (HasFound(down + [d]) <==> HasFound(down))
    ensures KnowsTheEnd(k, down) ==> KnowsTheEnd(k', down + [d])
    ensures d.EndDown? ==> KnowsTheEnd(k', down + [d])
    ensures !d.EndDown? && InPlay(k, down) ==> InPlay(k', down + [d])
  {
    var down' := down + [d];
    assert forall i | 0 <= i < |down| :: down'[i] == down[i];
    assert down'[|down|] == d;
    if HasFound(down) {
      var i :| 0 <= i < |down| && down[i].FoundDown?;
      assert down'[i].FoundDown?;
    }
  }

  lemma QueueShrinks(k: Client, k': Client, down: seq<Down>)
    requires down != [] && Took(k, k', down[0]) && Ordered(down)
    requires k.color.None? ==> !k.online && HasFound(down)
    ensures Ordered(down[1..])
    ensures k'.color.None? ==> !k'.online && HasFound(down[1..])
    ensures KnowsTheEnd(k, down) ==> KnowsTheEnd(k', down[1..])
    ensures InPlay(k, down) ==> InPlay(k', down[1..])
  {
    var rest := down[1..];
    assert down == [down[0]] + rest;
    assert forall i | 0 <= i < |rest| :: rest[i] == down[i + 1];
    if HasFound(down) && !down[0].FoundDown? {
      var i :| 0 <= i < |down| && down[i].FoundDown?;
      assert rest[i - 1].FoundDown?;
    }
    if HasFound(rest) {
      var i :| 0 <= i < |rest| && rest[i].FoundDown?;
      assert down[i + 1].FoundDown?;
    }
  }

  lemma OverStaysOver(w: World, a: Action)
    requires Coherent(w.match_)
    ensures Coherent(Act(w, a).match_) && (!w.match_.active ==> !Act(w, a).match_.active)
  {
    MatchSteps(w, a);
    if e :| Act(w, a).match_ == Next(w.match_, e) { NextIsCoherent(w.match_, e); }
  }

  lemma ToldOfStays(w: World, a: Action, c: Color)
    requires Coherent(w.match_) && ToldOf(w, c) && !(a.SweepMatch? && !a.announced)
    ensures ToldOf(Act(w, a), c)
  {
    var w', k, down := Act(w, a), w.clients.Of(c), w.down.Of(c);
    var k', down' := w'.clients.Of(c), w'.down.Of(c);
    StepsInQueues(w, a, c);
    OverStaysOver(w, a);
    if w.match_.active && !w'.match_.active { EndingReachesBoth(w, a, c); }
    if a == Receive(c) && down != [] && down' == down[1..] && Took(k, k', down[0]) && w'.match_ == w.match_ {
      QueueShrinks(k, k', down);
    } else if d: Down :| !d.FoundDown? && (d.EndDown? ==> !w'.match_.active) && down' == down + [d] {
      QueueGrows(k, k', down, d);
    }
  }

  predicate AllAnnounced(actions: seq<Action>) {
    forall k | 0 <= k < |actions| && actions[k].SweepMatch? :: actions[k].announced
  }

  /** In every run from the creation of a match in which no sweep hides a finding, whatever else
      happens: once the match is over, each client has an ending on its way to it, or is offline for
      good; and before that neither is so. */
  lemma {:induction false} EndIsToldExactly(w: World, actions: seq<Action>, c: Color)
    requires Fresh(w) && AllAnnounced(actions)
    ensures var r := RunFrom(w, actions);
      && Coherent(r.match_) && ToldOf(r, c)
      && (!r.match_.active ==> KnowsTheEnd(r.clients.Of(c), r.down.Of(c)))
      && (r.match_.active ==> InPlay(r.clients.Of(c), r.down.Of(c)))
  {
    if actions == [] {
      assert w.down.Of(c)[0].FoundDown?;
    } else {
      var before, a := actions[..|actions| - 1], actions[|actions| - 1];
      EndIsToldExactly(w, before, c);
      ToldOfStays(RunFrom(w, before), a, c);
      OverStaysOver(RunFrom(w, before), a);
    }
  }

  // ----- exactly when replicas disagree -----

  /** What a harmful join leaves: the client's board is empty of moves. Either the server has
      moves, which reach it no more, or its own first move is still on its way and it has the
      turn again. */
  lemma HarmfulJoinLoses(w: World, tok: Token, c: Color)
    requires Inv(w, tok) && w.down.Of(c) != [] && w.down.Of(c)[0].FoundDown? && !Harmless(w, c)
    ensures var w' := Act(w, Receive(c));
      && w'.logs.Of(c) == [] && w'.match_ == w.match_ && w'.up == w.up
      && (ServerLog(w.match_) != [] ==> !(ServerLog(w.match_) <= RelaysIn(w'.down.Of(c))))
      && (ServerLog(w.match_) == [] ==> c == Red && |MovesIn(w'.up.red)| == 1)
      && (c == Red ==> w'.clients.red.myTurn)
  {
    assert ClientFits(w, c, tok);
    JoinResets(w, c);
    if ServerLog(w.match_) == [] {
      OnlyRedAsks(w, tok, c);
    } else {
      LostMoves(w, tok, c);
    }
  }

  lemma JoinResets(w: World, c: Color)
    requires w.down.Of(c) != [] && w.down.Of(c)[0] == FoundDown(c)
    ensures var w' := Act(w, Receive(c));
      && w'.logs.Of(c) == [] && w'.logs.Of(c.Other()) == w.logs.Of(c.Other())
      && w'.match_ == w.match_ && w'.up == w.up && w'.down.Of(c.Other()) == w.down.Of(c.Other())
      && RelaysIn(w'.down.Of(c)) == RelaysIn(w.down.Of(c))
      && w'.clients.Of(c.Other()) == w.clients.Of(c.Other())
      && w'.clients.Of(c) == Joined(w.clients.Of(c).spectator, c, w.setup)
  {
    assert RelaysIn(w.down.Of(c)) == RelaysIn(w.down.Of(c)[1..]);
  }

  lemma OnlyRedAsks(w: World, tok: Token, c: Color)
    requires TokenOk(w, tok) && ServerLog(w.match_) == [] && MovesIn(w.up.Of(c)) != []
    ensures c == Red && |MovesIn(w.up.Of(c))| == 1
  {}

  lemma LostMoves(w: World, tok: Token, c: Color)
    requires TokenOk(w, tok) && ServerLog(w.match_) != [] && w.logs.Of(c) != []
    ensures !(ServerLog(w.match_) <= RelaysIn(w.down.Of(c)))
  {}

  lemma HarmfulJoinDisturbs(w: World, tok: Token, c: Color)
    requires Inv(w, tok) && w.down.Of(c) != [] && w.down.Of(c)[0].FoundDown? && !Harmless(w, c)
    ensures var w' := Act(w, Receive(c)); !Complete(w') || Rights(w', Red) >= 2
  {
    HarmfulJoinLoses(w, tok, c);
    if ServerLog(w.match_) != [] { NotComplete(Act(w, Receive(c)), c); }
  }

  lemma NotComplete(w: World, c: Color)
    requires w.logs.Of(c) == [] && !(ServerLog(w.match_) <= RelaysIn(w.down.Of(c)))
    ensures !Complete(w)
  {
    assert w.logs.Of(c) + RelaysIn(w.down.Of(c)) == RelaysIn(w.down.Of(c));
  }

  /** An action leads from agreement to agreement with no move lost if and only if it does not
      deliver a match_found to a client that it would set back. */
  lemma AgreesIffSound(w: World, tok: Token, a: Action)
    requires Inv(w, tok)
    ensures Agreed(Act(w, a)) && Complete(Act(w, a)) <==> Sound(w, a)
  {
    if Sound(w, a) {
      var tok' := ActKeeps(w, tok, a);
      InvAgrees(Act(w, a), tok');
    } else {
      HarmfulJoinDisturbs(w, tok, a.c);
    }
  }

  ghost predicate AgreesThroughout(w: World, actions: seq<Action>) {
    && Agreed(RunFrom(w, actions)) && Complete(RunFrom(w, actions))
    && (actions != [] ==> AgreesThroughout(w, actions[..|actions| - 1]))
  }

  /** In every run from the opening: every state agrees and has lost no move, if and only if no
      match_found sets a client back. */
  lemma {:induction false} RunAgreesIffSound(w: World, actions: seq<Action>)
    requires Fresh(w) && w.setup == OPENING
    ensures AgreesThroughout(w, actions) <==> SoundRun(w, actions)
  {
    if actions == [] {
      ReplicasAgree(w, actions);
    } else {
      var before, a := actions[..|actions| - 1], actions[|actions| - 1];
      RunAgreesIffSound(w, before);
      if SoundRun(w, before) {
        OpeningIsSafe();
        var tok := RunsAgree(w, before);
        AgreesIffSound(RunFrom(w, before), tok, a);
      }
    }
  }

  // ----- once both messages have arrived -----

  /** A client has been told of the match once and for all, or is still to be told once. */
  ghost predicate Told(down: seq<Down>, color: Option<Color>) {
    forall i | 0 <= i < |down| && down[i].FoundDown? :: i == 0 && color.None?
  }

  ghost predicate Informed(w: World, c: Color) {
    Told(w.down.Of(c), w.clients.Of(c).color)
  }

  lemma ToldPops(down: seq<Down>, color: Option<Color>, color': Option<Color>)
    requires Told(down, color) && down != []
    ensures Told(down[1..], color')
  {
    forall i | 0 <= i < |down[1..]| ensures !down[1..][i].FoundDown? {
      assert down[1..][i] == down[i + 1];
    }
  }

  lemma ToldGrows(down: seq<Down>, color: Option<Color>)
    requires Told(down, color)
    ensures Told(down + [EndDown], color)
    ensures forall move :: Told(down + [MoveDown(move)], color)
  {
  }

  lemma InformedStays(w: World, a: Action, c: Color)
    requires Informed(w, c)
    ensures Informed(Act(w, a), c)
  {
    ToldGrows(w.down.Of(c), w.clients.Of(c).color);
    if a.Receive? && w.down.Of(a.c) != [] {
      if a.c == c {
        ToldPops(w.down.Of(c), w.clients.Of(c).color, Act(w, a).clients.Of(c).color);
        assert Act(w, a).down.Of(c) == w.down.Of(c)[1..];
      }
    }
  }

  lemma InformedIsSound(w: World, tok: Token, a: Action)
    requires Inv(w, tok) && Informed(w, Red) && Informed(w, Black)
    ensures Sound(w, a)
  {
    if a.Receive? { assert ClientFits(w, a.c, tok); }
  }

  // ----- while the match is on, disagreement shows at once -----

  /** With a move logged or under way, a harmful join gives Red the turn beside Black or beside
      Red's own move, or sets its list two moves behind. */
  lemma HarmfulJoinDisagrees(w: World, tok: Token)
    requires Inv(w, tok) && w.match_.active
    requires w.down.red != [] && w.down.red[0].FoundDown? && !Harmless(w, Red)
    ensures !Agreed(Act(w, Receive(Red)))
  {
    HarmfulJoinLoses(w, tok, Red);
    assert ClientFits(w, Red, tok);
    JoinResets(w, Red);
    var w', server := Act(w, Receive(Red)), ServerLog(w.match_);
    assert w'.clients.red.myTurn;
    if |server| >= 2 {
      assert !Close(w'.logs.red, server);
    } else if |server| == 1 {
      assert ClientFits(w, Black, tok);
      BlackHasTheRight(w, tok);
      assert Rights(w', Black) == Rights(w, Black);
    }
  }

  lemma BlackHasTheRight(w: World, tok: Token)
    requires TokenOk(w, tok) && ClientFits(w, Black, tok)
    requires w.match_.active && |w.match_.moves| == 1 && w.logs.red != []
    ensures Rights(w, Black) >= 1
  {
    assert |ServerLog(w.match_)| == 1 && tok.c == Black;
    match tok
    case Holds(_) => assert w.clients.Of(Black).myTurn;
    case Asking(_) => assert |MovesIn(w.up.Of(Black))| == 1;
    case Relayed(_) => assert |RelaysIn(w.down.Of(Black))| == 1;
    case Dropped(_) => assert |w.logs.Of(Black)| == 2;
  }

  /** While the match is on, an action leads to agreement if and only if it is sound. */
  lemma PlayingAgreesIffSound(w: World, tok: Token, a: Action)
    requires Inv(w, tok) && w.match_.active && Informed(w, Black)
    ensures Agreed(Act(w, a)) <==> Sound(w, a)
  {
    if Sound(w, a) {
      AgreesIffSound(w, tok, a);
    } else {
      assert ClientFits(w, a.c, tok);
      assert a == Receive(Red);
      HarmfulJoinDisagrees(w, tok);
    }
  }

  /** After the end the agreement alone may hide the harm: with one move played and Black gone,
      Red put back to the opening still differs by one move from the others. */
  lemma EndedMatchHidesTheLoss(w: World)
    requires Inv(w, Holds(Black)) && !w.match_.active && |w.match_.moves| == 1 && !w.clients.black.online
    requires w.down.red != [] && w.down.red[0].FoundDown?
    ensures !Sound(w, Receive(Red)) && Agreed(Act(w, Receive(Red)))
  {
    assert ClientFits(w, Red, Holds(Black)) && ClientFits(w, Black, Holds(Black));
    JoinResets(w, Red);
    RedSetBackAlone(Act(w, Receive(Red)));
  }

  lemma RedSetBackAlone(w: World)
    requires |ServerLog(w.match_)| == 1 && LegalLine(w.setup, ServerLog(w.match_))
    requires w.logs == Duo([], ServerLog(w.match_))
    requires w.clients.red.myTurn && !w.clients.black.myTurn && !w.clients.black.online
    requires BoardShows(w.setup, w.clients.red.game, [])
    requires MovesIn(w.up.red) == [] && MovesIn(w.up.black) == []
    requires RelaysIn(w.down.red) == [] && RelaysIn(w.down.black) == []
    ensures Agreed(w)
  {
    forall c | w.down.Of(c) != [] ensures !w.down.Of(c)[0].MoveDown? { NoRelayFirst(w, c); }
  }

  lemma NoRelayFirst(w: World, c: Color)
    requires w.down.Of(c) != [] && RelaysIn(w.down.red) == [] && RelaysIn(w.down.black) == []
    ensures !w.down.Of(c)[0].MoveDown?
  {
    FirstIsNoRelay(w.down.Of(c));
  }

  /** The match is still on before each action. */
  ghost predicate Playing(w: World, actions: seq<Action>) {
    actions == [] || (Playing(w, actions[..|actions| - 1]) && RunFrom(w, actions[..|actions| - 1]).match_.active)
  }

  ghost predicate AlwaysAgreed(w: World, actions: seq<Action>) {
    Agreed(RunFrom(w, actions)) && (actions != [] ==> AlwaysAgreed(w, actions[..|actions| - 1]))
  }

  lemma {:induction false} RunInforms(w: World, actions: seq<Action>, c: Color)
    requires Informed(w, c)
    ensures Informed(RunFrom(w, actions), c)
  {
    if actions != [] {
      RunInforms(w, actions[..|actions| - 1], c);
      InformedStays(RunFrom(w, actions[..|actions| - 1]), actions[|actions| - 1], c);
    }
  }

  /** In every run of a match from the opening, up to its end: the replicas agree in every state
      if and only if no match_found sets a client back. */
  lemma {:induction false} PlayingRunAgreesIffSound(w: World, actions: seq<Action>)
    requires Fresh(w) && w.setup == OPENING && Playing(w, actions)
    ensures AlwaysAgreed(w, actions) <==> SoundRun(w, actions)
  {
    if actions == [] {
      ReplicasAgree(w, actions);
    } else {
      var before, a := actions[..|actions| - 1], actions[|actions| - 1];
      PlayingRunAgreesIffSound(w, before);
      if SoundRun(w, before) {
        OpeningIsSafe();
        var tok := RunsAgree(w, before);
        RunInforms(w, before, Black);
        PlayingAgreesIffSound(RunFrom(w, before), tok, a);
      }
    }
  }

  /** From then on every run whatever is sound. */
  lemma {:induction false} InformedRunsAreSound(w: World, tok: Token, actions: seq<Action>) returns (tok': Token)
    requires Inv(w, tok) && Informed(w, Red) && Informed(w, Black)
    ensures SoundRun(w, actions) && Inv(RunFrom(w, actions), tok')
    ensures Informed(RunFrom(w, actions), Red) && Informed(RunFrom(w, actions), Black)
  {
    tok' := tok;
    if actions != [] {
      var before, a := actions[..|actions| - 1], actions[|actions| - 1];
      var tok1 := InformedRunsAreSound(w, tok, before);
      var r := RunFrom(w, before);
      InformedIsSound(r, tok1, a);
      InformedStays(r, a, Red);
      InformedStays(r, a, Black);
      tok' := ActKeeps(r, tok1, a);
    }
  }

  /** No move has been made yet. */
  ghost predicate Waiting(w: World) {
    && Inv(w, Holds(Red)) && Informed(w, Black)
    && w.logs == Duo([], []) && w.match_.moves == []
  }

  predicate RedClicks(a: Action) { a.ClickBoard? && a.c.Red? }

  lemma WaitingStays(w: World, a: Action)
    requires Waiting(w) && !RedClicks(a)
    ensures Sound(w, a) && Waiting(Act(w, a))
  {
    var tok := ActKeeps(w, Holds(Red), a);
    InformedStays(w, a, Black);
    NothingMoves(w, a);
    RedBegins(Act(w, a), tok);
  }

  lemma RedBegins(w: World, tok: Token)
    requires TokenOk(w, tok) && w.logs == Duo([], []) && w.match_.moves == []
    ensures tok == Holds(Red)
  {}

  lemma NothingMoves(w: World, a: Action)
    requires Waiting(w) && !RedClicks(a)
    ensures Act(w, a).logs == Duo([], []) && Act(w, a).match_.moves == []
  {
    if a.ClickBoard? {
      assert ClientFits(w, a.c, Holds(Red));
      NothingSent(w.clients.Of(a.c), a.at, a.canSend);
    } else if a.Serve? {
      QueuesHoldNoMoves(w, a.c);
      NothingServed(w, a.c, a.now);
    } else if a.Receive? {
      QueuesHoldNoMoves(w, a.c);
      NothingReceived(w, a.c);
    }
  }

  lemma QueuesHoldNoMoves(w: World, c: Color)
    requires TokenOk(w, Holds(Red)) && w.match_.moves == []
    ensures MovesIn(w.up.Of(c)) == [] && RelaysIn(w.down.Of(c)) == []
  {}

  lemma NothingReceived(w: World, c: Color)
    requires RelaysIn(w.down.Of(c)) == []
    ensures Act(w, Receive(c)).logs == w.logs || Act(w, Receive(c)).logs == w.logs.With(c, [])
    ensures Act(w, Receive(c)).match_ == w.match_
  {
    if w.down.Of(c) != [] { FirstIsNoRelay(w.down.Of(c)); }
  }

  lemma FirstIsNoRelay(down: seq<Down>)
    requires down != [] && RelaysIn(down) == []
    ensures !down[0].MoveDown?
  {}

  lemma NothingServed(w: World, c: Color, now: int)
    requires MovesIn(w.up.Of(c)) == []
    ensures Act(w, Serve(c, now)).logs == w.logs && Act(w, Serve(c, now)).match_.moves == w.match_.moves
  {
    var up := w.up.Of(c);
    if up != [] {
      FirstIsNoMove(up);
      OtherServed(w.(up := w.up.With(c, up[1..])), c, up[0], now);
    }
  }

  lemma FirstIsNoMove(up: seq<Up>)
    requires up != [] && MovesIn(up) == []
    ensures !up[0].MoveUp?
  {}

  lemma OtherServed(w: World, c: Color, u: Up, now: int)
    requires !u.MoveUp?
    ensures Served(w, c, u, now).logs == w.logs && Served(w, c, u, now).match_.moves == w.match_.moves
  {}

  lemma NothingSent(k: Client, q: Sq, canSend: bool)
    requires !k.myTurn
    ensures Clicked(k, q, canSend).1.None?
  {}

  lemma {:induction false} WaitingRunsAreSound(w: World, actions: seq<Action>)
    requires Waiting(w) && forall k | 0 <= k < |actions| :: !RedClicks(actions[k])
    ensures SoundRun(w, actions) && Waiting(RunFrom(w, actions))
  {
    if actions != [] {
      WaitingRunsAreSound(w, actions[..|actions| - 1]);
      WaitingStays(RunFrom(w, actions[..|actions| - 1]), actions[|actions| - 1]);
    }
  }

  lemma {:induction false} RunsJoin(w: World, first: seq<Action>, second: seq<Action>)
    ensures RunFrom(w, first + second) == RunFrom(RunFrom(w, first), second)
  {
    if second == [] {
      assert first + second == first;
    } else {
      var before, a := second[..|second| - 1], second[|second| - 1];
      RunsJoin(w, first, before);
      assert second == before + [a] && first + second == (first + before) + [a];
      LastStep(w, first + second, first + before, a);
      LastStep(RunFrom(w, first), second, before, a);
    }
  }

  lemma LastStep(w: World, all: seq<Action>, before: seq<Action>, a: Action)
    requires all == before + [a]
    ensures RunFrom(w, all) == Act(RunFrom(w, before), a)
  {
    assert all[..|all| - 1] == before;
  }

  /** Replica agreement without a condition on the deliveries: if Red does not click before both
      match_found messages have reached it, every run that follows agrees. */
  lemma ReplicasAgreeOnceInformed(w: World, waiting: seq<Action>, rest: seq<Action>)
    requires Fresh(w) && w.setup == OPENING
    requires forall k | 0 <= k < |waiting| :: !RedClicks(waiting[k])
    requires forall i | 0 <= i < |RunFrom(w, waiting).down.red| :: !RunFrom(w, waiting).down.red[i].FoundDown?
    ensures Agreed(RunFrom(w, waiting + rest))
  {
    OpeningIsSafe();
    FreshFits(w);
    WaitingRunsAreSound(w, waiting);
    var tok := InformedRunsAreSound(RunFrom(w, waiting), Holds(Red), rest);
    InvAgrees(RunFrom(RunFrom(w, waiting), rest), tok);
    RunsJoin(w, waiting, rest);
  }

  lemma FourSteps(w: World, a: Action, b: Action, c: Action, d: Action)
    ensures RunFrom(w, [a, b, c, d]) == Act(Act(Act(Act(w, a), b), c), d)
  {
    assert [a, b, c, d] == [a, b, c] + [d] && [a, b, c] == [a, b] + [c] && [a, b] == [a] + [b] && [a] == [] + [a];
    LastStep(w, [a, b, c, d], [a, b, c], d);
    LastStep(w, [a, b, c], [a, b], c);
    LastStep(w, [a, b], [a], b);
    LastStep(w, [a], [], a);
  }

  lemma FirstJoin(w: World)
    requires Fresh(w) && !w.clients.red.spectator
    ensures var w' := Act(w, Receive(Red));
      w' == w.(clients := w.clients.With(Red, Joined(false, Red, w.setup)), down := Duo([FoundDown(Red)], w.down.black))
  {}

  lemma PawnSelected(w: World)
    requires IsOpening(Placed(w.setup)) && w.clients.red == Joined(false, Red, w.setup)
    ensures var k := w.clients.red;
      Act(w, ClickBoard(Red, Sq(6, 0), true)) ==
      w.(clients := w.clients.With(Red, k.(game := k.game.(sel := Some(Sq(6, 0))))))
  {
    OpeningPawnMove(Placed(w.setup));
  }

  lemma PawnMoved(w: World)
    requires IsOpening(Placed(w.setup)) && w.up.red == []
    requires var k := Joined(false, Red, w.setup); w.clients.red == k.(game := k.game.(sel := Some(Sq(6, 0))))
    ensures var w' := Act(w, ClickBoard(Red, Sq(5, 0), true));
      w'.up.red == [MoveUp(Coords(6, 0, 5, 0))] && w'.down == w.down && w'.match_ == w.match_
  {
    OpeningPawnMove(Placed(w.setup));
    assert MovesOn(w.clients.red.game, Sq(5, 0));
  }

  lemma JoinedAgain(w: World, m: Coords)
    requires w.up.red == [MoveUp(m)] && w.down.red == [FoundDown(Red)] && w.match_.moves == []
    ensures Rights(Act(w, Receive(Red)), Red) == 2
  {
    assert MovesIn(w.up.red[1..]) == [];
    assert MovesIn(w.up.red) == [m];
  }

  /** The second match_found can do the harm: Red joins, moves a pawn, and is told again. Then
      Red has the turn once more while its first move is still on its way. */
  lemma SecondJoinDoublesTheTurn(w: World)
    requires Fresh(w) && w.setup == OPENING && !w.clients.red.spectator
    ensures Rights(RunFrom(w, [Receive(Red), ClickBoard(Red, Sq(6, 0), true), ClickBoard(Red, Sq(5, 0), true),
                               Receive(Red)]), Red) == 2
  {
    OpeningPlaced();
    FourSteps(w, Receive(Red), ClickBoard(Red, Sq(6, 0), true), ClickBoard(Red, Sq(5, 0), true), Receive(Red));
    var w1 := Act(w, Receive(Red));
    var w2 := Act(w1, ClickBoard(Red, Sq(6, 0), true));
    FirstJoin(w);
    PawnSelected(w1);
    PawnMoved(w2);
    JoinedAgain(Act(w2, ClickBoard(Red, Sq(5, 0), true)), Coords(6, 0, 5, 0));
  }
}
