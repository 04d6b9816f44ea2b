/** Elo ratings (rating.c) and the rating and record updates of the ending handlers, over reals.
    The expected score, a power function in the source, is a parameter. */
module Ratings {
  import opened Matches

  const DEFAULT_K_FACTOR := 32

  /** round() of section 7.12.9.6 of ISO/IEC 9899:2011: to nearest, halves away from zero. */
  function Round(x: real): int {
    if x >= 0.0 then (x + 0.5).Floor else -((-x + 0.5).Floor)
  }

  /** What is used of the expected score of red against black: it lies strictly between 0 and 1. */
  predicate IsExpectedScore(e: real) { 0.0 < e < 1.0 }

  function RedScore(result: Result): real {
    match result
    case RedWins => 1.0
    case BlackWins => 0.0
    case _ => 0.5
  }

  datatype RatingChange = RatingChange(red: int, black: int)

  /** The points for a score that lies d above the expected one. */
  function Points(k: nat, d: real): int {
    Round(k as real * d)
  }

  function Calculate(redExpected: real, result: Result, k: nat): RatingChange {
    var redScore := RedScore(result);
    var blackScore := match result case RedWins => 0.0 case BlackWins => 1.0 case _ => 0.5;
    RatingChange(Points(k, redScore - redExpected), Points(k, blackScore - (1.0 - redExpected)))
  }

  /** k times d, as a sum of k copies. */
  function Times(k: nat, d: real): real {
    if k == 0 then 0.0 else Times(k - 1, d) + d
  }

  lemma {:induction false} TimesIsProduct(k: nat, d: real)
    ensures Times(k, d) == k as real * d
  {
    if k > 0 {
      TimesIsProduct(k - 1, d);
      OneMore((k - 1) as real, k as real, d);
    } else {
      assert k as real == 0.0;
    }
  }

  lemma OneMore(a: real, b: real, d: real)
    requires b == a + 1.0
    ensures b * d == a * d + d
  {}

  lemma RoundIsOdd(x: real)
    ensures Round(-x) == -Round(x)
  {}

  lemma RoundWithin(x: real, k: int)
    requires -(k as real) <= x <= k as real
    ensures -k <= Round(x) <= k
  {}

  lemma RoundSign(x: real)
    ensures x >= 0.0 ==> Round(x) >= 0
    ensures x <= 0.0 ==> Round(x) <= 0
  {}

  lemma {:induction false} TimesWithin(k: nat, d: real)
    requires -1.0 <= d <= 1.0
    ensures -(k as real) <= Times(k, d) <= k as real
    ensures d >= 0.0 ==> Times(k, d) >= 0.0
  {
    if k > 0 { TimesWithin(k - 1, d); }
  }

  lemma {:induction false} TimesNegates(k: nat, d: real)
    ensures Times(k, -d) == -Times(k, d)
  {
    if k > 0 { TimesNegates(k - 1, d); }
  }

  lemma PointsWithin(k: nat, d: real)
    requires -1.0 <= d <= 1.0
    ensures -(k as int) <= Points(k, d) <= k
    ensures d >= 0.0 ==> Points(k, d) >= 0
  {
    TimesIsProduct(k, d);
    TimesWithin(k, d);
    RoundWithin(Times(k, d), k);
    RoundSign(Times(k, d));
  }

  /** The two changes cancel, neither exceeds k in size, and a winner never loses points. */
  lemma ChangesBalance(e: real, result: Result, k: nat)
    requires IsExpectedScore(e)
    ensures var c := Calculate(e, result, k); c.red + c.black == 0 && -(k as int) <= c.red <= k
    ensures result.RedWins? ==> Calculate(e, result, k).red >= 0
    ensures result.BlackWins? ==> Calculate(e, result, k).black >= 0
  {
    PointsWithin(k, RedScore(result) - e);
    PointsWithin(k, -(RedScore(result) - e));
    BlackMirrorsRed(e, result, k);
  }

  /** p is x rounded to the nearest whole number, halves away from zero. */
  predicate IsNearest(p: int, x: real) {
    && -0.5 <= p as real - x <= 0.5
    && (p as real - x == 0.5 ==> x > 0.0)
    && (p as real - x == -0.5 ==> x < 0.0)
  }

  lemma RoundIsNearest(x: real)
    ensures IsNearest(Round(x), x)
  {}

  /** How many points a result earns: k times the score above expectation, to the nearest point.
      A win scores 1, a draw 1/2, a loss 0; the expectations of the two players add up to 1. */
  lemma CalculateIsNearest(e: real, result: Result, k: nat)
    requires result.RedWins? || result.BlackWins? || result.Draw?
    ensures var c := Calculate(e, result, k);
      var score := if result.RedWins? then 1.0 else if result.BlackWins? then 0.0 else 0.5;
      IsNearest(c.red, k as real * (score - e)) && IsNearest(c.black, k as real * ((1.0 - score) - (1.0 - e)))
  {
    var score := if result.RedWins? then 1.0 else if result.BlackWins? then 0.0 else 0.5;
    RoundIsNearest(k as real * (score - e));
    RoundIsNearest(k as real * ((1.0 - score) - (1.0 - e)));
  }

  /** A win whose exact value is at least half a point earns at least one. */
  lemma WinEarnsPoints(e: real, k: nat)
    requires k as real * (1.0 - e) >= 0.5
    ensures Calculate(e, RedWins, k).red >= 1 && Calculate(e, RedWins, k).black <= -1
  {
    CalculateIsNearest(e, RedWins, k);
    BlackMirrorsRed(e, RedWins, k);
  }

  lemma {:induction false} TimesMonotone(k: nat, d: real, d': real)
    requires d <= d'
    ensures Times(k, d) <= Times(k, d')
  {
    if k > 0 { TimesMonotone(k - 1, d, d'); }
  }

  lemma RoundMonotone(x: real, y: real)
    requires x <= y
    ensures Round(x) <= Round(y)
  {}

  lemma PointsNegate(k: nat, d: real)
    ensures Points(k, -d) == -Points(k, d)
  {
    TimesIsProduct(k, d);
    TimesIsProduct(k, -d);
    TimesNegates(k, d);
    RoundIsOdd(Times(k, d));
  }

  lemma PointsMonotone(k: nat, d: real, d': real)
    requires d <= d'
    ensures Points(k, d) <= Points(k, d')
  {
    TimesIsProduct(k, d);
    TimesIsProduct(k, d');
    TimesMonotone(k, d, d');
    RoundMonotone(Times(k, d), Times(k, d'));
  }

  predicate NoWorseForRed(a: Result, b: Result) {
    b.BlackWins? || a.RedWins? || (!a.BlackWins? && !b.RedWins?)
  }

  /** A result that is no worse, reached from an expectation that is no higher, earns no less. */
  lemma EarnsNoLess(e: real, e': real, result: Result, result': Result, k: nat)
    requires e <= e' && NoWorseForRed(result, result')
    ensures Calculate(e, result, k).red >= Calculate(e', result', k).red
    ensures Calculate(e, result, k).black <= Calculate(e', result', k).black
  {
    var d, d' := RedScore(result) - e, RedScore(result') - e';
    PointsMonotone(k, d', d);
    BlackMirrorsRed(e, result, k);
    BlackMirrorsRed(e', result', k);
  }

  lemma BlackMirrorsRed(e: real, result: Result, k: nat)
    ensures Calculate(e, result, k).black == -Calculate(e, result, k).red
  {
    var d := RedScore(result) - e;
    var d' := (match result case RedWins => 0.0 case BlackWins => 1.0 case _ => 0.5) - (1.0 - e);
    assert d' == -d;
    PointsNegate(k, d);
  }

  // ----- the users' table -----

  datatype User = User(rating: int, wins: int, losses: int, draws: int)

  type Users = map<int, User>

  /** What a rated ending writes back for the two players. */
  function Settled(users: Users, red: int, black: int, result: Result, redExpected: real): Users
    requires red in users && black in users
  {
    var c := Calculate(redExpected, result, DEFAULT_K_FACTOR);
    var r, b := users[red], users[black];
    var r' := match result
      case RedWins => r.(rating := r.rating + c.red, wins := r.wins + 1)
      case BlackWins => r.(rating := r.rating + c.red, losses := r.losses + 1)
      case _ => r.(rating := r.rating + c.red, draws := r.draws + 1);
    var b' := match result
      case RedWins => b.(rating := b.rating + c.black, losses := b.losses + 1)
      case BlackWins => b.(rating := b.rating + c.black, wins := b.wins + 1)
      case _ => b.(rating := b.rating + c.black, draws := b.draws + 1);
    users[red := r'][black := b']
  }

  /** A sum over all users, listed in any order without repetition. */
  function Sum(ids: seq<int>, users: Users, f: User -> int): int
    requires forall k | 0 <= k < |ids| :: ids[k] in users
  {
    if ids == [] then 0 else Sum(ids[..|ids| - 1], users, f) + f(users[ids[|ids| - 1]])
  }

  ghost predicate Lists(ids: seq<int>, users: Users) {
    && (forall k | 0 <= k < |ids| :: ids[k] in users)
    && (forall u <- users :: u in ids)
    && (forall i, j | 0 <= i < j < |ids| :: ids[i] != ids[j])
  }

  lemma {:induction false} SumChanges(ids: seq<int>, users: Users, f: User -> int, id: int, user: User)
    requires forall k | 0 <= k < |ids| :: ids[k] in users
    requires id in users
    requires forall i, j | 0 <= i < j < |ids| :: ids[i] != ids[j]
    ensures Sum(ids, users[id := user], f) == Sum(ids, users, f) + if id in ids then f(user) - f(users[id]) else 0
  {
    if ids != [] {
      SumChanges(ids[..|ids| - 1], users, f, id, user);
      assert ids == ids[..|ids| - 1] + [ids[|ids| - 1]];
    }
  }

  /** A rated game between two different users that ended by resignation or agreement. */
  datatype Game = Game(red: int, black: int, result: Result, redExpected: real)

  predicate PlayersListed(games: seq<Game>, users: Users) {
    forall k | 0 <= k < |games| :: games[k].red in users && games[k].black in users
  }

  ghost predicate Rated(g: Game) {
    && g.red != g.black
    && IsExpectedScore(g.redExpected)
    && (g.result.RedWins? || g.result.BlackWins? || g.result.Draw?)
  }

  function SettledAll(users: Users, games: seq<Game>): Users
    requires PlayersListed(games, users)
    ensures SettledAll(users, games).Keys == users.Keys
  {
    if games == [] then users
    else
      var g := games[|games| - 1];
      Settled(SettledAll(users, games[..|games| - 1]), g.red, g.black, g.result, g.redExpected)
  }

  const RATING := (u: User) => u.rating
  const WINS := (u: User) => u.wins
  const LOSSES := (u: User) => u.losses
  const DRAWS := (u: User) => u.draws

  /** The winner gains a win and no fewer points, the loser the reverse, nobody else is touched. */
  lemma WinnerIsRewarded(users: Users, g: Game)
    requires g.red in users && g.black in users && Rated(g) && !g.result.Draw?
    ensures var users' := Settled(users, g.red, g.black, g.result, g.redExpected);
      var (winner, loser) := if g.result.RedWins? then (g.red, g.black) else (g.black, g.red);
      && users'[winner].wins == users[winner].wins + 1 && users'[winner].losses == users[winner].losses
      && users'[loser].losses == users[loser].losses + 1 && users'[loser].wins == users[loser].wins
      && users'[winner].rating >= users[winner].rating && users'[loser].rating <= users[loser].rating
      && forall u <- users :: u != winner && u != loser ==> users'[u] == users[u]
  {
    ChangesBalance(g.redExpected, g.result, DEFAULT_K_FACTOR);
  }

  /** Both players' ratings move by the nearest whole number to 32 times their score above
      expectation, whatever the result. */
  lemma SettledPays(users: Users, g: Game)
    requires g.red in users && g.black in users && Rated(g)
    ensures var users' := Settled(users, g.red, g.black, g.result, g.redExpected);
      var score := if g.result.RedWins? then 1.0 else if g.result.BlackWins? then 0.0 else 0.5;
      && IsNearest(users'[g.red].rating - users[g.red].rating, 32.0 * (score - g.redExpected))
      && IsNearest(users'[g.black].rating - users[g.black].rating, 32.0 * (g.redExpected - score))
  {
    CalculateIsNearest(g.redExpected, g.result, 32);
  }

  /** An agreed draw adds a draw to both players and no win or loss to anybody. */
  lemma DrawIsRecorded(users: Users, g: Game)
    requires g.red in users && g.black in users && Rated(g) && g.result.Draw?
    ensures Drew(users, Settled(users, g.red, g.black, g.result, g.redExpected), g.red, g.black)
  {}

  predicate Drew(users: Users, users': Users, a: int, b: int)
    requires a in users && b in users
  {
    && a in users' && b in users'
    && users'[a].draws == users[a].draws + 1 && users'[b].draws == users[b].draws + 1
    && users'[a].wins == users[a].wins && users'[b].wins == users[b].wins
    && users'[a].losses == users[a].losses && users'[b].losses == users[b].losses
  }

  /** The record of a decided game: a win and no fewer points, a loss and no more points. */
  predicate Beat(users: Users, users': Users, winner: int, loser: int)
    requires winner in users && loser in users
  {
    && winner in users' && loser in users'
    && users'[winner].wins == users[winner].wins + 1 && users'[loser].losses == users[loser].losses + 1
    && users'[winner].losses == users[winner].losses && users'[loser].wins == users[loser].wins
    && users'[winner].rating >= users[winner].rating && users'[loser].rating <= users[loser].rating
  }

  lemma SettledSum(ids: seq<int>, users: Users, g: Game, f: User -> int)
    requires Lists(ids, users) && g.red in users && g.black in users && Rated(g)
    ensures
      var users' := Settled(users, g.red, g.black, g.result, g.redExpected);
      Sum(ids, users', f) == Sum(ids, users, f)
        + f(users'[g.red]) - f(users[g.red]) + f(users'[g.black]) - f(users[g.black])
  {
    var users' := Settled(users, g.red, g.black, g.result, g.redExpected);
    SumChanges(ids, users, f, g.red, users'[g.red]);
    SumChanges(ids, users[g.red := users'[g.red]], f, g.black, users'[g.black]);
    assert users' == users[g.red := users'[g.red]][g.black := users'[g.black]];
  }

  lemma SettledConserves(ids: seq<int>, users: Users, g: Game)
    requires Lists(ids, users) && g.red in users && g.black in users && Rated(g)
    ensures var users' := Settled(users, g.red, g.black, g.result, g.redExpected);
      && Lists(ids, users')
      && Sum(ids, users', RATING) == Sum(ids, users, RATING)
      && (Sum(ids, users', WINS) - Sum(ids, users, WINS) == if g.result.Draw? then 0 else 1)
      && (Sum(ids, users', LOSSES) - Sum(ids, users, LOSSES) == if g.result.Draw? then 0 else 1)
      && (Sum(ids, users', DRAWS) - Sum(ids, users, DRAWS) == if g.result.Draw? then 2 else 0)
  {
    SettledSum(ids, users, g, RATING);
    SettledSum(ids, users, g, WINS);
    SettledSum(ids, users, g, LOSSES);
    SettledSum(ids, users, g, DRAWS);
    ChangesBalance(g.redExpected, g.result, DEFAULT_K_FACTOR);
  }

  /** The ratings' total is unchanged, wins have grown exactly as losses have, and the draws by an
      even number. */
  ghost predicate Conserved(ids: seq<int>, users: Users, users': Users) {
    && Lists(ids, users) && Lists(ids, users')
    && Sum(ids, users', RATING) == Sum(ids, users, RATING)
    && Sum(ids, users', WINS) - Sum(ids, users, WINS) == Sum(ids, users', LOSSES) - Sum(ids, users, LOSSES)
    && (Sum(ids, users', DRAWS) - Sum(ids, users, DRAWS)) % 2 == 0
  }

  lemma ConservedTransitive(ids: seq<int>, a: Users, b: Users, c: Users)
    requires Conserved(ids, a, b) && Conserved(ids, b, c)
    ensures Conserved(ids, a, c)
  {}

  lemma GameConserves(ids: seq<int>, users: Users, g: Game, users': Users)
    requires Lists(ids, users) && g.red in users && g.black in users && Rated(g)
    requires users' == Settled(users, g.red, g.black, g.result, g.redExpected)
    ensures Conserved(ids, users, users')
  {
    SettledConserves(ids, users, g);
  }

  /** Over any sequence of rated endings between different users the ratings' total is constant,
      wins grow exactly as losses do, and the draws grow by an even number. */
  lemma {:induction false} RatingsAreConserved(ids: seq<int>, users: Users, games: seq<Game>)
    requires Lists(ids, users) && PlayersListed(games, users) && forall k | 0 <= k < |games| :: Rated(games[k])
    ensures Conserved(ids, users, SettledAll(users, games))
  {
    if games != [] {
      var n := |games| - 1;
      RatingsAreConserved(ids, users, games[..n]);
      GameConserves(ids, SettledAll(users, games[..n]), games[n], SettledAll(users, games));
      ConservedTransitive(ids, users, SettledAll(users, games[..n]), SettledAll(users, games));
    }
  }
}
