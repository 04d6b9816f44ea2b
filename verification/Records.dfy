/** The server's lasting records, on values: the table of matches and the users' ratings and
    counts, and what every request does to them. */
module Records {
  import opened Options
  import opened Matches
  import opened MatchStores
  import opened Ratings

  const INITIAL_TIME_MS := 600000
  const NEW_USER := User(1200, 0, 0, 0)

  datatype State = State(table: TableState, users: Users)

  /** Pairing is the creation of a match for two players the ready list has brought together. */
  datatype Request =
    | Registration(userId: int)
    | Pairing(red: int, black: int, rated: bool, now: int, notified: bool)
    | OnMatch(id: string, step: Step, redExpected: real)
    | TimeoutSweep(now: int)

  ghost const START := State(Operated([]), map[])

  /** The match whose end by this step settles ratings: rated, active, resigned or agreed drawn. */
  ghost function SettledBy(slots: seq<Match>, id: string, step: Step): Option<Match> {
    var m := ActiveWith(slots, id);
    if m.Some? && m.value.rated && (step.Resign? || step.AcceptDraw?) then m else None
  }

  ghost function UsersAfter(s: State, id: string, step: Step, redExpected: real): Users {
    match SettledBy(s.table.slots, id, step)
    case None => s.users
    case Some(m) =>
      if m.red in s.users && m.black in s.users
      then Settled(s.users, m.red, m.black, Next(m, step).result, redExpected)
      else s.users
  }

  ghost function Handle(s: State, r: Request): State {
    match r
    case Registration(id) => if 0 < id && id !in s.users then s.(users := s.users[id := NEW_USER]) else s
    case Pairing(red, black, rated, now, notified) =>
      if red in s.users && black in s.users && red != black
      then s.(table := Operate(s.table, Create(red, black, rated, INITIAL_TIME_MS, now, notified)))
      else s
    case OnMatch(id, step, redExpected) =>
      State(Operate(s.table, At(id, step)), UsersAfter(s, id, step, redExpected))
    case TimeoutSweep(now) => s.(table := Operate(s.table, SweepAll(now)))
  }

  // ----- who plays is registered -----

  ghost predicate PlayersIn(m: Match, users: Users) {
    m.rated ==> m.red in users && m.black in users && m.red != m.black
  }

  /** The players of every rated match are two registered users; user numbers are positive. */
  ghost predicate Known(slots: seq<Match>, users: Users) {
    && (forall i | 0 <= i < |slots| :: PlayersIn(slots[i], users))
    && (forall u <- users :: 0 < u)
  }

  lemma StepKeepsPlayers(m: Match, e: Step)
    ensures Next(m, e).red == m.red && Next(m, e).black == m.black && Next(m, e).rated == m.rated
  {}

  lemma OperateKeepsKnown(t: TableState, op: Operation, users: Users)
    requires Known(t.slots, users)
    requires op.Create? ==> op.red in users && op.black in users && op.red != op.black
    ensures Known(Operate(t, op).slots, users)
  {
    match op
    case At(id, step) =>
      var i := IndexOf(t.slots, id);
      if i != -1 { StepKeepsPlayers(t.slots[i], step); }
    case SweepAll(now) =>
      forall i | 0 <= i < |t.slots| ensures PlayersIn(SweptSlots(t.slots, now)[i], users) {
        StepKeepsPlayers(t.slots[i], Sweep(now));
      }
    case Create(_, _, _, _, _, _) =>
  }

  lemma SettledKeepsUsers(users: Users, red: int, black: int, result: Result, e: real)
    requires red in users && black in users
    ensures Settled(users, red, black, result, e).Keys == users.Keys
  {}

  lemma UsersAfterKeeps(s: State, id: string, step: Step, e: real)
    ensures UsersAfter(s, id, step, e).Keys == s.users.Keys
  {}

  lemma MoreUsersKnow(slots: seq<Match>, users: Users, users': Users)
    requires Known(slots, users) && users.Keys <= users'.Keys && forall u <- users' :: 0 < u
    ensures Known(slots, users')
  {
    forall i | 0 <= i < |slots| ensures PlayersIn(slots[i], users') {
      assert PlayersIn(slots[i], users);
    }
  }

  lemma HandleKeepsKnown(s: State, r: Request)
    requires Known(s.table.slots, s.users)
    ensures Known(Handle(s, r).table.slots, Handle(s, r).users) && s.users.Keys <= Handle(s, r).users.Keys
  {
    match r
    case Registration(id) => MoreUsersKnow(s.table.slots, s.users, Handle(s, r).users);
    case Pairing(red, black, rated, now, notified) =>
      if red in s.users && black in s.users && red != black {
        OperateKeepsKnown(s.table, Create(red, black, rated, INITIAL_TIME_MS, now, notified), s.users);
      }
    case OnMatch(id, step, e) =>
      OperateKeepsKnown(s.table, At(id, step), s.users);
      UsersAfterKeeps(s, id, step, e);
      MoreUsersKnow(Handle(s, r).table.slots, s.users, Handle(s, r).users);
    case TimeoutSweep(now) => OperateKeepsKnown(s.table, SweepAll(now), s.users);
  }

  // ----- over all requests -----

  ghost function Serve(requests: seq<Request>): State {
    if requests == [] then START
    else Handle(Serve(requests[..|requests| - 1]), requests[|requests| - 1])
  }

  ghost function NewIds(s: State, r: Request): seq<int> {
    if r.Registration? && 0 < r.userId && r.userId !in s.users then [r.userId] else []
  }

  /** The users in the order of their registration. */
  ghost function Registered(requests: seq<Request>): seq<int> {
    if requests == [] then []
    else Registered(requests[..|requests| - 1]) + NewIds(Serve(requests[..|requests| - 1]), requests[|requests| - 1])
  }

  ghost function SlotsSettled(s: State, r: Request): seq<nat> {
    if r.OnMatch? && SettledBy(s.table.slots, r.id, r.step).Some? then [IndexOf(s.table.slots, r.id)] else []
  }

  /** The slots of the matches that have settled ratings, in order, one entry for each time. */
  ghost function AllSettled(requests: seq<Request>): seq<nat> {
    if requests == [] then []
    else
      var before, r := requests[..|requests| - 1], requests[|requests| - 1];
      AllSettled(before) + SlotsSettled(Serve(before), r)
  }

  /** Every entry is a rated match now over, and no match has two. */
  ghost predicate OverOnce(t: TableState, settled: seq<nat>) {
    && (forall k | 0 <= k < |settled| :: settled[k] < t.count && settled[k] < |t.slots| && IsOver(t.slots[settled[k]]))
    && Distinct(settled)
  }

  predicate IsOver(m: Match) { m.rated && !m.active }

  lemma OperateKeepsOver(t: TableState, op: Operation, settled: seq<nat>)
    requires Table(t.slots, t.count) && OverOnce(t, settled)
    ensures OverOnce(Operate(t, op), settled)
  {
    OperateKeepsTable(t, op);
  }

  /** The match that settles is active, so it has no entry yet; afterwards it is over. */
  lemma SettlingIsNew(s: State, id: string, step: Step, settled: seq<nat>)
    requires Table(s.table.slots, s.table.count) && OverOnce(s.table, settled)
    requires SettledBy(s.table.slots, id, step).Some?
    ensures OverOnce(Operate(s.table, At(id, step)), settled + [IndexOf(s.table.slots, id)])
  {
    var i, slots := IndexOf(s.table.slots, id), s.table.slots;
    OperateKeepsOver(s.table, At(id, step), settled);
    OperateKeepsTable(s.table, At(id, step));
    assert slots[i].active && slots[i] != EMPTY_SLOT;
    assert IsOver(Next(slots[i], step));
    forall k | 0 <= k < |settled| ensures settled[k] != i {
      assert IsOver(slots[settled[k]]);
    }
  }

  // ----- what the users' records add up to -----

  ghost predicate Balanced(ids: seq<int>, users: Users, games: nat) {
    && Lists(ids, users)
    && Sum(ids, users, RATING) == 1200 * |ids|
    && Sum(ids, users, WINS) == Sum(ids, users, LOSSES)
    && 2 * Sum(ids, users, WINS) + Sum(ids, users, DRAWS) == 2 * games
  }

  lemma {:induction false} SumExtends(ids: seq<int>, users: Users, f: User -> int, id: int, user: User)
    requires forall k | 0 <= k < |ids| :: ids[k] in users
    requires id !in ids
    ensures Sum(ids, users[id := user], f) == Sum(ids, users, f)
  {
    if ids != [] { SumExtends(ids[..|ids| - 1], users, f, id, user); }
  }

  lemma SumAppends(ids: seq<int>, users: Users, f: User -> int, id: int, user: User)
    requires (forall k | 0 <= k < |ids| :: ids[k] in users) && id !in ids
    ensures Sum(ids + [id], users[id := user], f) == Sum(ids, users, f) + f(user)
  {
    SumExtends(ids, users, f, id, user);
    assert (ids + [id])[..|ids|] == ids;
  }

  lemma RegistrationBalances(ids: seq<int>, users: Users, games: nat, id: int)
    requires Balanced(ids, users, games) && id !in users
    ensures Balanced(ids + [id], users[id := NEW_USER], games)
  {
    SumAppends(ids, users, RATING, id, NEW_USER);
    SumAppends(ids, users, WINS, id, NEW_USER);
    SumAppends(ids, users, LOSSES, id, NEW_USER);
    SumAppends(ids, users, DRAWS, id, NEW_USER);
  }

  lemma SettlingBalances(ids: seq<int>, users: Users, games: nat, g: Game)
    requires Balanced(ids, users, games) && g.red in users && g.black in users && Rated(g)
    ensures Balanced(ids, Settled(users, g.red, g.black, g.result, g.redExpected), games + 1)
  {
    SettledConserves(ids, users, g);
  }

  predicate Sensible(r: Request) { r.OnMatch? ==> IsExpectedScore(r.redExpected) }

  lemma HandleBalances(s: State, r: Request, ids: seq<int>, games: nat)
    requires Known(s.table.slots, s.users) && Balanced(ids, s.users, games) && Sensible(r)
    ensures Balanced(ids + NewIds(s, r), Handle(s, r).users, games + |SlotsSettled(s, r)|)
  {
    assert ids + [] == ids;
    if r.Registration? && 0 < r.userId && r.userId !in s.users {
      RegistrationBalances(ids, s.users, games, r.userId);
    } else if r.OnMatch? && SettledBy(s.table.slots, r.id, r.step).Some? {
      var m := SettledBy(s.table.slots, r.id, r.step).value;
      assert PlayersIn(s.table.slots[IndexOf(s.table.slots, r.id)], s.users);
      SettlingBalances(ids, s.users, games, Game(m.red, m.black, Next(m, r.step).result, r.redExpected));
    }
  }

  /** Over any sequence of requests: each match settles ratings at most once, and only when over;
      the ratings add up to 1200 for every user; every win is somebody's loss; and the wins and half
      the draws number the games settled. */
  lemma {:induction false} RecordsBalance(requests: seq<Request>)
    requires forall k | 0 <= k < |requests| :: Sensible(requests[k])
    ensures var s := Serve(requests);
      && Table(s.table.slots, s.table.count) && Known(s.table.slots, s.users)
      && OverOnce(s.table, AllSettled(requests))
      && Balanced(Registered(requests), s.users, |AllSettled(requests)|)
  {
    if requests == [] {
      OperatedIsTable([]);
    } else {
      var before, r := requests[..|requests| - 1], requests[|requests| - 1];
      RecordsBalance(before);
      var s := Serve(before);
      HandleKeepsKnown(s, r);
      HandleKeepsTable(s, r, AllSettled(before));
      HandleBalances(s, r, Registered(before), |AllSettled(before)|);
    }
  }

  lemma HandleKeepsTable(s: State, r: Request, settled: seq<nat>)
    requires Table(s.table.slots, s.table.count) && OverOnce(s.table, settled)
    ensures Table(Handle(s, r).table.slots, Handle(s, r).table.count)
    ensures OverOnce(Handle(s, r).table, settled + SlotsSettled(s, r))
  {
    assert settled + [] == settled;
    match r
    case Registration(_) =>
    case Pairing(red, black, rated, now, notified) =>
      OperateKeepsTable(s.table, Create(red, black, rated, INITIAL_TIME_MS, now, notified));
      OperateKeepsOver(s.table, Create(red, black, rated, INITIAL_TIME_MS, now, notified), settled);
    case OnMatch(id, step, _) =>
      OperateKeepsTable(s.table, At(id, step));
      OperateKeepsOver(s.table, At(id, step), settled);
      if SettledBy(s.table.slots, id, step).Some? { SettlingIsNew(s, id, step, settled); }
    case TimeoutSweep(now) =>
      OperateKeepsTable(s.table, SweepAll(now));
      OperateKeepsOver(s.table, SweepAll(now), settled);
  }
}
