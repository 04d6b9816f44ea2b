/** The handlers of handlers.c that join the tables: matchmaking with its rollback, resignation
    and agreed draws with their rating updates. Which users are connected, and whether a
    notification could be sent, are inputs. */
module Servers {
  import opened Options
  import Rules
  import opened Matches
  import opened MatchStores
  import opened Lobbies
  import opened Ratings
  import opened Records

  const RATING_TOLERANCE := 200

  /** The three ways to be told "Queued for match" look the same on the wire. */
  datatype FindReply =
    | QueuedNoOpponent | QueuedOpponentGone(opponent: int) | QueuedRolledBack(opponent: int)
    | YouAreNotConnected(opponent: int) | FailedToCreate(opponent: int)
    | MatchFound(opponent: int)
  {
    function Opponent(): Option<int> { if QueuedNoOpponent? then None else Some(opponent) }
  }

  /** The list after a failed notification: a player still connected is put back. */
  ghost function Requeued(q: Queue, p: Player, connected: bool): Queue {
    if connected then Readied(q, p) else q
  }

  /** What the requester is told once an opponent is found, by the first test that fails. */
  function Answer(user: int, opponent: int, connected: set<int>, full: bool, notified: bool): FindReply {
    if user !in connected then YouAreNotConnected(opponent)
    else if opponent !in connected then QueuedOpponentGone(opponent)
    else if full then FailedToCreate(opponent)
    else if !notified then QueuedRolledBack(opponent)
    else MatchFound(opponent)
  }

  /** Which answer is given when. */
  lemma AnswerMeans(user: int, o: int, connected: set<int>, full: bool, notified: bool)
    ensures var reply := Answer(user, o, connected, full, notified);
      && reply.Opponent() == Some(o)
      && (reply.YouAreNotConnected? <==> user !in connected)
      && (reply.QueuedOpponentGone? <==> user in connected && o !in connected)
      && (reply.FailedToCreate? <==> user in connected && o in connected && full)
      && (reply.QueuedRolledBack? <==> user in connected && o in connected && !full && !notified)
      && (reply.MatchFound? <==> user in connected && o in connected && !full && notified)
  {}

  /** The match made for a pair: the requester is red, the opponent black, red to move, ten minutes
      each; active if both were told, aborted if not. Every other record is as it was. */
  lemma PairingMeans(s: State, user: int, o: int, rated: bool, now: int, notified: bool)
    requires user in s.users && o in s.users && user != o && s.table.count < |s.table.slots|
    ensures var s' := RecordsAfter(s, user, rated, now, if notified then MatchFound(o) else QueuedRolledBack(o));
      var n := s.table.count;
      var m := s'.table.slots[n];
      && s'.table.count == n + 1 && s'.users == s.users && |s'.table.slots| == |s.table.slots|
      && (forall i | 0 <= i < |s.table.slots| && i != n :: s'.table.slots[i] == s.table.slots[i])
      && m.red == user && m.black == o && m.rated == rated && m.turn == Rules.Red && m.moves == []
      && m.redTimeMs == 600000 && m.blackTimeMs == 600000 && m.startedAt == now && m.lastMoveAt == now
      && (if notified then m.active && m.result == Ongoing else !m.active && m.result == Aborted)
  {}

  /** The list after the reply, when left is the list without the two players. */
  ghost function ListAfter(left: Queue, p: Player, o: Player, connectedAfter: set<int>, reply: FindReply): Queue {
    if reply.QueuedRolledBack?
    then Requeued(Requeued(left, p, p.userId in connectedAfter), o, o.userId in connectedAfter)
    else left
  }

  /** The records after the reply: a new match, active or taken back, or all as it was. */
  ghost function RecordsAfter(s: State, user: int, rated: bool, now: int, reply: FindReply): State {
    if reply.MatchFound? || reply.QueuedRolledBack?
    then Handle(s, Pairing(user, reply.opponent, rated, now, reply.MatchFound?))
    else s
  }

  /** Everyone in the list is a registered user. */
  ghost predicate AllKnown(q: Queue, users: Users) {
    forall p <- q :: p.userId in users
  }

  class Server {
    const store: MatchStore
    const lobby: Lobby
    var users: Users

    constructor ()
      ensures Valid() && Records() == START && lobby.Ready() == []
      ensures fresh(store) && fresh(store.matches) && fresh(store.pendingTimeouts)
      ensures fresh(lobby) && fresh(lobby.readyPlayers)
    {
      store := new MatchStore();
      lobby := new Lobby();
      users := map[];
      new;
      StartsEmpty(store.matches[..]);
      NobodyIsKnown(lobby.Ready(), users);
    }

    ghost function Frame(): set<object> {
      {store, store.matches, store.pendingTimeouts, lobby, lobby.readyPlayers}
    }

    ghost predicate Valid()
      reads this, Frame()
    {
      && store.Valid() && lobby.Valid()
      && Known(store.matches[..], users) && AllKnown(lobby.Ready(), users)
    }

    ghost function Records(): State
      reads this, store, store.matches
    {
      State(TableState(store.matches[..], store.matchCount), users)
    }

    /** The new user's number comes from the database, which never gives one out twice. */
    method Register(id: int)
      requires Valid() && 0 < id && id !in users
      modifies this`users
      ensures Valid() && Records() == Handle(old(Records()), Registration(id))
    {
      HandleKeepsKnown(Records(), Registration(id));
      users := users[id := NEW_USER];
    }

    /** A resignation ends the match once, and settles the ratings exactly if it was rated. */
    method HandleResign(id: string, user: int, redExpected: real) returns (ok: bool)
      requires Valid() && IsExpectedScore(redExpected)
      modifies this`users, store.matches
      ensures Valid()
      ensures Records() == Handle(old(Records()), OnMatch(id, Resign(user), redExpected))
      ensures ok == ActiveWith(old(store.matches[..]), id).Some?
      ensures var m := ActiveWith(old(store.matches[..]), id);
        m.Some? && m.value.rated && user in {m.value.red, m.value.black} ==>
          var other := if user == m.value.red then m.value.black else m.value.red;
          user in old(users) && other in old(users) && Beat(old(users), users, other, user)
      ensures users == match ActiveWith(old(store.matches[..]), id)
        case None => old(users)
        case Some(m) =>
          if m.rated then Settled(old(users), m.red, m.black, Next(m, Resign(user)).result, redExpected) else old(users)
    {
      HandleKeepsKnown(Records(), OnMatch(id, Resign(user), redExpected));
      ActiveIsKnown(store.matches[..], id, users);
      var ended := store.EndByResignation(id, user);
      if ended.None? { return false; }
      if ended.value.rated {
        var result := if ended.value.red == user then BlackWins else RedWins;
        WinnerIsRewarded(users, Game(ended.value.red, ended.value.black, result, redExpected));
        users := Settled(users, ended.value.red, ended.value.black, result, redExpected);
      }
      return true;
    }

    method HandleDrawResponse(id: string, accept: bool, redExpected: real) returns (ok: bool)
      requires Valid() && IsExpectedScore(redExpected)
      modifies this`users, store.matches
      ensures Valid()
      ensures !accept ==> ok && Records() == old(Records())
      ensures accept ==>
        && Records() == Handle(old(Records()), OnMatch(id, AcceptDraw, redExpected))
        && ok == ActiveWith(old(store.matches[..]), id).Some?
        && (var m := ActiveWith(old(store.matches[..]), id);
            m.Some? && m.value.rated ==>
              m.value.red in old(users) && m.value.black in old(users)
              && Drew(old(users), users, m.value.red, m.value.black))
        && users == match ActiveWith(old(store.matches[..]), id)
             case None => old(users)
             case Some(m) => if m.rated then Settled(old(users), m.red, m.black, Draw, redExpected) else old(users)
    {
      if !accept { return true; }
      HandleKeepsKnown(Records(), OnMatch(id, AcceptDraw, redExpected));
      ActiveIsKnown(store.matches[..], id, users);
      var ended := store.EndByAgreement(id);
      if ended.None? { return false; }
      if ended.value.rated {
        DrawIsRecorded(users, Game(ended.value.red, ended.value.black, Draw, redExpected));
        users := Settled(users, ended.value.red, ended.value.black, Draw, redExpected);
      }
      return true;
    }

    /** Neither a move nor its clocks touch the ratings, so any expected score will do in Handle. */
    method HandleMove(id: string, user: int, move: Coords, now: int) returns (reply: Option<MoveReply>)
      requires Valid()
      modifies store.matches
      ensures Valid()
      ensures Records() == Handle(old(Records()), OnMatch(id, Move(user, move, now), 0.5))
      ensures var i := IndexOf(old(store.matches[..]), id);
        reply == if i == -1 then None else Some(Matches.HandleMove(old(store.matches[..])[i], user, move, now).1)
    {
      HandleKeepsKnown(Records(), OnMatch(id, Move(user, move, now), 0.5));
      reply := store.HandleMove(id, user, move, now);
    }

    /** The periodic part of server_run: the sweep, and the messages to send, at most a hundred. */
    method SweepTimeouts(now: int) returns (timeouts: seq<TimeoutInfo>)
      requires Valid()
      modifies store, store.matches, store.pendingTimeouts
      ensures Valid()
      ensures Records() == Handle(old(Records()), TimeoutSweep(now)) && store.Pending() == []
      ensures var queue := old(store.Pending()) + FoundTimeouts(old(store.matches[..]), now);
        timeouts == if |queue| < 100 then queue else queue[..100]
    {
      HandleKeepsKnown(Records(), TimeoutSweep(now));
      store.MatchCheckAllTimeouts(now);
      timeouts := store.MatchGetPendingTimeouts(100);
    }

    method FindOpponent(user: int, rated: bool, now: int) returns (opponent: Option<int>)
      requires Valid() && user in users
      modifies lobby, lobby.readyPlayers
      ensures Valid()
      ensures var q := Readied(old(lobby.Ready()), Player(user, users[user].rating, now));
        && Chosen(q, user, rated, users[user].rating, RATING_TOLERANCE, opponent)
        && lobby.Ready() == if opponent.None? then q else Without(Without(q, user), opponent.value)
      ensures opponent.Some? ==>
        opponent.value in users && opponent.value != user && !Has(lobby.Ready(), opponent.value)
    {
      ReadiedHas(lobby.Ready(), Player(user, users[user].rating, now));
      lobby.SetReady(user, users[user].rating, now, true);
      opponent := Search(user, rated, users[user].rating);
    }

    method Search(user: int, rated: bool, rating: int) returns (opponent: Option<int>)
      requires Valid()
      modifies lobby, lobby.readyPlayers
      ensures Valid()
      ensures Chosen(old(lobby.Ready()), user, rated, rating, RATING_TOLERANCE, opponent)
      ensures lobby.Ready() ==
        if opponent.None? then old(lobby.Ready()) else Without(Without(old(lobby.Ready()), user), opponent.value)
      ensures opponent.Some? ==>
        opponent.value in users && opponent.value != user && !Has(lobby.Ready(), opponent.value)
    {
      ghost var q := lobby.Ready();
      if rated {
        opponent := lobby.FindRatedMatch(user, rating, RATING_TOLERANCE);
      } else {
        opponent := lobby.FindRandomMatch(user);
      }
      assert forall i | 0 <= i < |q| :: q[i] in q;
      if opponent.Some? { ChosenLeave(q, user, opponent.value); }
    }

    /** Puts a still-connected player back into the list. */
    method Requeue(user: int, connected: set<int>, now: int)
      requires Valid() && user in users
      modifies lobby, lobby.readyPlayers
      ensures Valid()
      ensures lobby.Ready() == Requeued(old(lobby.Ready()), Player(user, users[user].rating, now), user in connected)
    {
      ReadiedHas(lobby.Ready(), Player(user, users[user].rating, now));
      if user in connected { lobby.SetReady(user, users[user].rating, now, true); }
    }

    /** handle_find_match. The search runs over the list with the requester in it; connected and
        connectedAfter are the users connected before the match is created and after its players
        were notified. Every reply but the last leaves no active match behind. A queued reply means
        being in the list only after a vain search, or after a rollback for a player still
        connected; when the opponent has gone the requester, too, has left the list. */
    method FindMatch(user: int, rated: bool, now: int, connected: set<int>, notified: bool, connectedAfter: set<int>)
      returns (reply: FindReply)
      requires Valid() && user in users
      modifies store`matchCount, store.matches, lobby, lobby.readyPlayers
      ensures Valid()
      ensures var p := Player(user, users[user].rating, now);
        var q := Readied(old(lobby.Ready()), p);
        && Chosen(q, user, rated, users[user].rating, RATING_TOLERANCE, reply.Opponent())
        && match reply.Opponent()
           case None => lobby.Ready() == q
           case Some(o) =>
             && o in users && o != user
             && reply == Answer(user, o, connected, old(store.matchCount) == MAX_MATCHES, notified)
             && lobby.Ready() ==
                  ListAfter(Without(Without(q, user), o), p, Player(o, users[o].rating, now), connectedAfter, reply)
      ensures Records() == RecordsAfter(old(Records()), user, rated, now, reply)
    {
      var opponent := FindOpponent(user, rated, now);
      reply := Conclude(user, opponent, rated, now, connected, notified, connectedAfter);
    }

    method Conclude(user: int, opponent: Option<int>, rated: bool, now: int, connected: set<int>, notified: bool,
                    connectedAfter: set<int>)
      returns (reply: FindReply)
      requires Valid() && user in users
      requires opponent.Some? ==>
        opponent.value in users && opponent.value != user && !Has(lobby.Ready(), opponent.value)
      modifies store`matchCount, store.matches, lobby, lobby.readyPlayers
      ensures Valid() && reply.Opponent() == opponent
      ensures match opponent
        case None => lobby.Ready() == old(lobby.Ready())
        case Some(o) =>
          && reply == Answer(user, o, connected, old(store.matchCount) == MAX_MATCHES, notified)
          && lobby.Ready() == ListAfter(old(lobby.Ready()), Player(user, users[user].rating, now),
                                        Player(o, users[o].rating, now), connectedAfter, reply)
      ensures Records() == RecordsAfter(old(Records()), user, rated, now, reply)
    {
      if opponent.None? { return QueuedNoOpponent; }
      reply := TryOpponent(user, opponent.value, rated, now, connected, notified, connectedAfter);
    }

    method TryOpponent(user: int, o: int, rated: bool, now: int, connected: set<int>, notified: bool,
                       connectedAfter: set<int>)
      returns (reply: FindReply)
      requires Valid() && user in users && o in users && o != user && !Has(lobby.Ready(), o)
      modifies store`matchCount, store.matches, lobby, lobby.readyPlayers
      ensures Valid()
      ensures reply == Answer(user, o, connected, old(store.matchCount) == MAX_MATCHES, notified)
      ensures lobby.Ready() == ListAfter(
        old(lobby.Ready()), Player(user, users[user].rating, now), Player(o, users[o].rating, now),
        connectedAfter, reply)
      ensures Records() == RecordsAfter(old(Records()), user, rated, now, reply)
    {
      if user !in connected { return YouAreNotConnected(o); }
      if o !in connected {
        Drop(o);
        return QueuedOpponentGone(o);
      }
      if store.matchCount == MAX_MATCHES { return FailedToCreate(o); }
      reply := PairUp(user, o, rated, now, notified, connectedAfter);
    }

    /** A second removal, of a player who has left the list already. */
    method Drop(o: int)
      requires Valid() && !Has(lobby.Ready(), o)
      modifies lobby, lobby.readyPlayers
      ensures Valid() && lobby.Ready() == old(lobby.Ready())
    {
      WithoutNobody(lobby.Ready(), o);
      lobby.RemovePlayer(o);
    }

    method Enter(red: int, black: int, rated: bool, now: int, notified: bool)
      requires Valid() && red in users && black in users && red != black && store.matchCount < MAX_MATCHES
      modifies store`matchCount, store.matches
      ensures Valid() && Records() == Handle(old(Records()), Pairing(red, black, rated, now, notified))
    {
      HandleKeepsKnown(Records(), Pairing(red, black, rated, now, notified));
      var id := store.CreateAndNotify(red, black, rated, INITIAL_TIME_MS, now, notified);
    }

    /** Creates the match, and takes it back when a player could not be told. */
    method PairUp(user: int, o: int, rated: bool, now: int, notified: bool, connectedAfter: set<int>)
      returns (reply: FindReply)
      requires Valid() && user in users && o in users && o != user
      requires store.matchCount < MAX_MATCHES
      modifies store`matchCount, store.matches, lobby, lobby.readyPlayers
      ensures Valid()
      ensures reply == if notified then MatchFound(o) else QueuedRolledBack(o)
      ensures lobby.Ready() == ListAfter(
        old(lobby.Ready()), Player(user, users[user].rating, now), Player(o, users[o].rating, now),
        connectedAfter, reply)
      ensures Records() == RecordsAfter(old(Records()), user, rated, now, reply)
    {
      Enter(user, o, rated, now, notified);
      if notified { return MatchFound(o); }
      Requeue(user, connectedAfter, now);
      Requeue(o, connectedAfter, now);
      return QueuedRolledBack(o);
    }
  }

  lemma StartsEmpty(slots: seq<Match>)
    requires |slots| == MAX_MATCHES && forall i | 0 <= i < MAX_MATCHES :: slots[i] == EMPTY_SLOT
    ensures State(TableState(slots, 0), map[]) == START && Known(slots, map[])
  {}

  lemma NobodyIsKnown(q: Queue, users: Users)
    requires q == []
    ensures AllKnown(q, users)
  {}

  lemma ActiveIsKnown(slots: seq<Match>, id: string, users: Users)
    requires Known(slots, users)
    ensures ActiveWith(slots, id).Some? ==> PlayersIn(ActiveWith(slots, id).value, users)
  {
    var i := IndexOf(slots, id);
    assert i != -1 ==> PlayersIn(slots[i], users);
  }

  lemma ChosenLeave(q: Queue, a: int, b: int)
    ensures var r := Without(Without(q, a), b); !Has(r, b) && forall p <- r :: p in q
  {
    WithoutKeepsOthers(q, a);
    WithoutKeepsOthers(Without(q, a), b);
  }

  /** The opponent found stood in the list before. */
  lemma ChosenWasReady(before: Queue, p: Player, rated: bool, o: int)
    requires Chosen(Readied(before, p), p.userId, rated, p.rating, RATING_TOLERANCE, Some(o))
    ensures o != p.userId && Has(before, o)
  {
    var q := Readied(before, p);
    ReadiedHas(before, p);
    var i :| 0 <= i < |q| && q[i].userId == o && o != p.userId;
    assert Has(q, o);
  }

  /** What a rated search finds lies within 200 points; it finds nobody only if all others lie
      further off. */
  lemma SearchIsWithin200(q: Queue, user: int, rating: int, opponent: Option<int>)
    requires Chosen(q, user, true, rating, RATING_TOLERANCE, opponent)
    ensures opponent.Some? ==>
      exists x <- q :: x.userId == opponent.value && opponent.value != user && rating - 200 <= x.rating <= rating + 200
    ensures opponent.None? ==>
      forall x <- q | x.userId != user :: x.rating < rating - 200 || rating + 200 < x.rating
  {
    if opponent.Some? {
      var i :| BestOpponent(q, user, rating, RATING_TOLERANCE, i) && opponent.value == q[i].userId;
      assert q[i] in q;
    }
  }

  /** Whoever is neither the requester nor the opponent keeps its place in the order, and neither
      of the two is left. */
  lemma OthersKeepTheirPlaces(before: Queue, p: Player, rated: bool, w: int)
    requires NoDuplicates(before)
    requires Chosen(Readied(before, p), p.userId, rated, p.rating, RATING_TOLERANCE, Some(w))
    ensures var left := Without(Without(Readied(before, p), p.userId), w);
      && left == Without(Without(before, p.userId), w)
      && !Has(left, p.userId) && !Has(left, w)
      && |left| == |before| - if Has(before, p.userId) then 2 else 1
  {
    ChosenWasReady(before, p, rated, w);
    WithoutReadied(before, p);
    BothGone(before, p.userId, w);
  }

  /** After a rollback the two stand, in this order, behind everyone else, each if and only if it
      was still connected. The one exception is a list that was full without the requester: the
      requester then takes the place of the opponent, who is refused. */
  lemma RollbackRequeues(before: Queue, p: Player, rated: bool, o: Player, connectedAfter: set<int>, reply: FindReply)
    requires NoDuplicates(before) && |before| <= MAX_READY_PLAYERS
    requires Chosen(Readied(before, p), p.userId, rated, p.rating, RATING_TOLERANCE, Some(o.userId))
    requires reply.QueuedRolledBack?
    ensures var left := Without(Without(Readied(before, p), p.userId), o.userId);
      var userIn, opponentIn := p.userId in connectedAfter, o.userId in connectedAfter;
      var room := !userIn || |before| < MAX_READY_PLAYERS || Has(before, p.userId);
      ListAfter(left, p, o, connectedAfter, reply)
      == left + (if userIn then [p] else []) + (if opponentIn && room then [o] else [])
  {
    OthersKeepTheirPlaces(before, p, rated, o.userId);
    var left := Without(Without(Readied(before, p), p.userId), o.userId);
    AppendHas(left, p);
    assert !Has(Requeued(left, p, p.userId in connectedAfter), o.userId);
  }

  /** Who of the two is in the list after a reply: only a rollback puts anybody back. */
  lemma InListAfter(before: Queue, p: Player, rated: bool, o: Player, connectedAfter: set<int>, reply: FindReply)
    requires NoDuplicates(before) && |before| <= MAX_READY_PLAYERS
    requires Chosen(Readied(before, p), p.userId, rated, p.rating, RATING_TOLERANCE, Some(o.userId))
    ensures var left := Without(Without(Readied(before, p), p.userId), o.userId);
      var list := ListAfter(left, p, o, connectedAfter, reply);
      var room := p.userId !in connectedAfter || |before| < MAX_READY_PLAYERS || Has(before, p.userId);
      && (Has(list, p.userId) <==> reply.QueuedRolledBack? && p.userId in connectedAfter)
      && (Has(list, o.userId) <==> reply.QueuedRolledBack? && o.userId in connectedAfter && room)
  {
    OthersKeepTheirPlaces(before, p, rated, o.userId);
    ChosenWasReady(before, p, rated, o.userId);
    var room := p.userId !in connectedAfter || |before| < MAX_READY_PLAYERS || Has(before, p.userId);
    if reply.QueuedRolledBack? {
      RollbackRequeues(before, p, rated, o, connectedAfter, reply);
      TwoAppended(Without(Without(Readied(before, p), p.userId), o.userId), p, o,
                  p.userId in connectedAfter, o.userId in connectedAfter && room);
    }
  }

  lemma TwoAppended(left: Queue, p: Player, o: Player, first: bool, second: bool)
    requires !Has(left, p.userId) && !Has(left, o.userId) && p.userId != o.userId
    ensures var list := left + (if first then [p] else []) + (if second then [o] else []);
      (Has(list, p.userId) <==> first) && (Has(list, o.userId) <==> second)
  {
    var mid := left + if first then [p] else [];
    if first { AppendHas(left, p); } else { assert mid == left; }
    if second { AppendHas(mid, o); } else { assert mid + [] == mid; }
  }

  lemma WithoutSize(q: Queue, a: int)
    requires NoDuplicates(q)
    ensures |Without(q, a)| == |q| - if Has(q, a) then 1 else 0
  {
    if Has(q, a) {
      var i :| 0 <= i < |q| && q[i].userId == a;
      WithoutIsCut(q, a, i);
    } else {
      WithoutNobody(q, a);
    }
  }

  lemma WithoutHas(q: Queue, a: int, u: int)
    ensures Has(Without(q, a), u) <==> u != a && Has(q, u)
  {
    WithoutKeepsOthers(q, a);
    if Has(Without(q, a), u) {
      var i :| 0 <= i < |Without(q, a)| && Without(q, a)[i].userId == u;
      assert Without(q, a)[i] in q;
    }
    if u != a && Has(q, u) {
      var i :| 0 <= i < |q| && q[i].userId == u;
      assert q[i] in Without(q, a);
    }
  }

  lemma BothGone(q: Queue, a: int, b: int)
    requires NoDuplicates(q) && a != b && Has(q, b)
    ensures var r := Without(Without(q, a), b);
      !Has(r, a) && !Has(r, b) && |r| == |q| - if Has(q, a) then 2 else 1
  {
    var q1 := Without(q, a);
    WithoutHasNoDuplicates(q, a);
    WithoutSize(q, a);
    WithoutSize(q1, b);
    WithoutHas(q, a, a);
    WithoutHas(q, a, b);
    WithoutHas(q1, b, a);
    WithoutHas(q1, b, b);
  }
}
