/** The ready list of lobby.c: a fixed array with a count, kept free of duplicates, and the two
    searches that take an opponent out of it. */
module Lobbies {
  import opened Options

  const MAX_READY_PLAYERS := 100

  datatype Player = Player(userId: int, rating: int, readySince: int)

  type Queue = seq<Player>

  ghost predicate NoDuplicates(q: Queue) {
    forall i, j | 0 <= i < j < |q| :: q[i].userId != q[j].userId
  }

  ghost predicate Has(q: Queue, userId: int) {
    exists i | 0 <= i < |q| :: q[i].userId == userId
  }

  /** Everyone but the given user, in order. */
  function Without(q: Queue, userId: int): Queue {
    if q == [] then []
    else
      var n := |q| - 1;
      Without(q[..n], userId) + if q[n].userId == userId then [] else [q[n]]
  }

  /** The list once a user has declared readiness: refreshed in place, appended, or refused when full. */
  ghost function Readied(q: Queue, p: Player): Queue {
    if Has(q, p.userId) then Refreshed(q, p)
    else if |q| < MAX_READY_PLAYERS then q + [p]
    else q
  }

  function Refreshed(q: Queue, p: Player): Queue {
    seq(|q|, i requires 0 <= i < |q| => if q[i].userId == p.userId then p else q[i])
  }

  // ----- what the searches look for -----

  function Gap(p: Player, rating: int): nat { if p.rating < rating then rating - p.rating else p.rating - rating }

  /** i is the earliest of the closest opponents, and close enough. */
  ghost predicate BestOpponent(q: Queue, userId: int, rating: int, tolerance: nat, i: int) {
    && 0 <= i < |q| && q[i].userId != userId && Gap(q[i], rating) <= tolerance
    && (forall j | 0 <= j < |q| && q[j].userId != userId :: Gap(q[i], rating) <= Gap(q[j], rating))
    && (forall j | 0 <= j < i && q[j].userId != userId :: Gap(q[i], rating) < Gap(q[j], rating))
  }

  /** i is the first opponent in the list. */
  ghost predicate FirstOpponent(q: Queue, userId: int, i: int) {
    0 <= i < |q| && q[i].userId != userId && forall j | 0 <= j < i :: q[j].userId == userId
  }

  /** The opponent a search picks, if any: the closest within the tolerance, or just the first. */
  ghost predicate Chosen(q: Queue, userId: int, rated: bool, rating: int, tolerance: nat, opponent: Option<int>) {
    match opponent
    case None => forall p <- q :: p.userId == userId || (rated && tolerance < Gap(p, rating))
    case Some(u) =>
      exists i :: (if rated then BestOpponent(q, userId, rating, tolerance, i) else FirstOpponent(q, userId, i))
        && u == q[i].userId
  }

  lemma {:induction false} WithoutKeepsOthers(q: Queue, userId: int)
    ensures !Has(Without(q, userId), userId)
    ensures forall p :: p in Without(q, userId) <==> p in q && p.userId != userId
    ensures |Without(q, userId)| <= |q|
  {
    if q != [] {
      var n := |q| - 1;
      WithoutKeepsOthers(q[..n], userId);
      assert q == q[..n] + [q[n]];
    }
  }

  lemma {:induction false} WithoutHasNoDuplicates(q: Queue, userId: int)
    requires NoDuplicates(q)
    ensures NoDuplicates(Without(q, userId))
  {
    if q != [] {
      var n := |q| - 1;
      WithoutHasNoDuplicates(q[..n], userId);
      WithoutKeepsOthers(q[..n], userId);
      forall i | 0 <= i < |Without(q[..n], userId)| ensures Without(q[..n], userId)[i].userId != q[n].userId {
        assert Without(q[..n], userId)[i] in q[..n];
      }
    }
  }

  /** In a list without duplicates, removing a user takes out one entry or none. */
  lemma {:induction false} WithoutIsCut(q: Queue, userId: int, i: int)
    requires NoDuplicates(q) && 0 <= i < |q| && q[i].userId == userId
    ensures Without(q, userId) == q[..i] + q[i + 1..]
  {
    var n := |q| - 1;
    if i == n {
      WithoutNobody(q[..n], userId);
      assert q[..n] == q[..i] + q[i + 1..];
    } else {
      WithoutIsCut(q[..n], userId, i);
      assert q[..n][..i] + q[..n][i + 1..] + [q[n]] == q[..i] + q[i + 1..];
    }
  }

  lemma {:induction false} WithoutNobody(q: Queue, userId: int)
    requires !Has(q, userId)
    ensures Without(q, userId) == q
  {
    if q != [] {
      var n := |q| - 1;
      assert !Has(q[..n], userId);
      WithoutNobody(q[..n], userId);
    }
  }

  lemma RefreshedIsUpdate(q: Queue, p: Player, i: int)
    requires NoDuplicates(q) && 0 <= i < |q| && q[i].userId == p.userId
    ensures Refreshed(q, p) == q[i := p]
  {}

  lemma RefreshedHas(q: Queue, p: Player)
    ensures forall u :: Has(Refreshed(q, p), u) <==> Has(q, u)
    ensures forall x <- Refreshed(q, p) :: x == p || x in q
    ensures NoDuplicates(q) ==> NoDuplicates(Refreshed(q, p))
  {
    var q' := Refreshed(q, p);
    assert forall i | 0 <= i < |q| :: q'[i].userId == q[i].userId;
    forall u ensures Has(q', u) <==> Has(q, u) {
      if i :| 0 <= i < |q| && q[i].userId == u { assert q'[i].userId == u; }
    }
  }

  lemma AppendHas(q: Queue, p: Player)
    ensures forall u :: Has(q + [p], u) <==> u == p.userId || Has(q, u)
    ensures !Has(q, p.userId) && NoDuplicates(q) ==> NoDuplicates(q + [p])
  {
    var q' := q + [p];
    assert q'[|q|] == p;
    forall u | Has(q, u) ensures Has(q', u) {
      var i :| 0 <= i < |q| && q[i].userId == u;
      assert q'[i].userId == u;
    }
  }

  lemma ReadiedHas(q: Queue, p: Player)
    ensures forall u | u != p.userId :: Has(Readied(q, p), u) <==> Has(q, u)
    ensures |q| < MAX_READY_PLAYERS ==> Has(Readied(q, p), p.userId)
    ensures forall x <- Readied(q, p) :: x == p || x in q
    ensures NoDuplicates(q) ==> NoDuplicates(Readied(q, p))
  {
    RefreshedHas(q, p);
    AppendHas(q, p);
  }

  /** Readiness keeps everybody's place, and what it puts in is the player as it is now: in its old
      place if it has one, else at the end if there is room. */
  lemma ReadiedMeans(q: Queue, p: Player)
    ensures var q' := Readied(q, p);
      && |q| <= |q'| && forall i | 0 <= i < |q| :: q'[i] == if q[i].userId == p.userId then p else q[i]
    ensures !Has(q, p.userId) ==> Readied(q, p) == if |q| < 100 then q + [p] else q
    ensures Has(q, p.userId) ==> |Readied(q, p)| == |q|
  {}

  // ----- everyone else in order -----

  lemma {:induction false} WithoutRefreshed(q: Queue, p: Player)
    ensures Without(Refreshed(q, p), p.userId) == Without(q, p.userId)
  {
    if q != [] {
      var n := |q| - 1;
      WithoutRefreshed(q[..n], p);
      assert Refreshed(q, p)[..n] == Refreshed(q[..n], p);
    }
  }

  /** Declaring readiness moves nobody else. */
  lemma WithoutReadied(q: Queue, p: Player)
    ensures Without(Readied(q, p), p.userId) == Without(q, p.userId)
  {
    WithoutRefreshed(q, p);
    assert (q + [p])[..|q|] == q;
  }

  class Lobby {
    const readyPlayers: array<Player>
    var readyCount: nat

    ghost predicate Valid()
      reads this, readyPlayers
    {
      && readyPlayers.Length == MAX_READY_PLAYERS
      && readyCount <= MAX_READY_PLAYERS
      && NoDuplicates(Ready())
    }

    ghost function Ready(): Queue
      requires readyCount <= readyPlayers.Length
      reads this, readyPlayers
    {
      readyPlayers[..readyCount]
    }

    constructor ()
      ensures Valid() && Ready() == [] && fresh(readyPlayers)
    {
      readyPlayers := new Player[MAX_READY_PLAYERS](_ => Player(0, 0, 0));
      readyCount := 0;
    }

    method SetReady(userId: int, rating: int, now: int, ready: bool)
      requires Valid()
      modifies this, readyPlayers
      ensures Valid()
      ensures ready ==> Ready() == Readied(old(Ready()), Player(userId, rating, now))
      ensures !ready ==> Ready() == Without(old(Ready()), userId)
    {
      if !ready {
        RemovePlayer(userId);
        return;
      }
      for i := 0 to readyCount
        invariant readyCount == old(readyCount) && readyPlayers[..] == old(readyPlayers[..])
        invariant forall j | 0 <= j < i :: readyPlayers[j].userId != userId
      {
        if readyPlayers[i].userId == userId {
          assert Ready()[i].userId == userId;
          RefreshedIsUpdate(Ready(), Player(userId, rating, now), i);
          readyPlayers[i] := readyPlayers[i].(rating := rating, readySince := now);
          assert Ready() == old(Ready())[i := Player(userId, rating, now)];
          return;
        }
      }
      if readyCount < MAX_READY_PLAYERS {
        readyPlayers[readyCount] := Player(userId, rating, now);
        readyCount := readyCount + 1;
        assert Ready() == old(Ready()) + [Player(userId, rating, now)];
      }
    }

    /** Shifts everyone behind the user one place forward. */
    method RemovePlayer(userId: int)
      requires Valid()
      modifies this`readyCount, readyPlayers
      ensures Valid() && Ready() == Without(old(Ready()), userId)
    {
      ghost var q := Ready();
      WithoutHasNoDuplicates(q, userId);
      for i := 0 to readyCount
        invariant readyCount == old(readyCount) && readyPlayers[..] == old(readyPlayers[..])
        invariant forall j | 0 <= j < i :: readyPlayers[j].userId != userId
      {
        if readyPlayers[i].userId == userId {
          WithoutIsCut(q, userId, i);
          ShiftDown(i);
          readyCount := readyCount - 1;
          assert Ready() == q[..i] + q[i + 1..];
          return;
        }
      }
      WithoutNobody(q, userId);
    }

    method ShiftDown(i: nat)
      requires i < readyCount <= readyPlayers.Length
      modifies readyPlayers
      ensures readyPlayers[..readyCount - 1] == old(readyPlayers[..i]) + old(readyPlayers[i + 1..readyCount])
    {
      for j := i to readyCount - 1
        invariant forall k | 0 <= k < i :: readyPlayers[k] == old(readyPlayers[k])
        invariant forall k | i <= k < j :: readyPlayers[k] == old(readyPlayers[k + 1])
        invariant forall k | j <= k < readyCount :: readyPlayers[k] == old(readyPlayers[k])
      {
        readyPlayers[j] := readyPlayers[j + 1];
      }
    }

    /** Takes the first ready player other than the user, and the user, out of the list. */
    method FindRandomMatch(userId: int) returns (opponent: Option<int>)
      requires Valid()
      modifies this`readyCount, readyPlayers
      ensures Valid()
      ensures opponent.None? ==> Ready() == old(Ready()) && forall p <- old(Ready()) :: p.userId == userId
      ensures opponent.Some? ==>
        && (exists i :: FirstOpponent(old(Ready()), userId, i) && opponent.value == old(Ready())[i].userId)
        && Ready() == Without(Without(old(Ready()), userId), opponent.value)
    {
      for i := 0 to readyCount
        invariant readyCount == old(readyCount) && readyPlayers[..] == old(readyPlayers[..])
        invariant forall j | 0 <= j < i :: readyPlayers[j].userId == userId
      {
        if readyPlayers[i].userId != userId {
          var found := readyPlayers[i].userId;
          assert FirstOpponent(Ready(), userId, i);
          RemovePlayer(userId);
          RemovePlayer(found);
          return Some(found);
        }
      }
      return None;
    }

    /** Takes the earliest player of least rating gap within the tolerance out of the list,
        together with the user; fails exactly when nobody is close enough. */
    method FindRatedMatch(userId: int, rating: int, tolerance: nat) returns (opponent: Option<int>)
      requires Valid() && forall p <- Ready() :: p.userId != -1
      modifies this`readyCount, readyPlayers
      ensures Valid()
      ensures opponent.None? ==>
        Ready() == old(Ready()) && forall p <- old(Ready()) :: p.userId == userId || tolerance < Gap(p, rating)
      ensures opponent.Some? ==>
        && (exists i :: BestOpponent(old(Ready()), userId, rating, tolerance, i)
                        && opponent.value == old(Ready())[i].userId)
        && Ready() == Without(Without(old(Ready()), userId), opponent.value)
    {
      var bestOpponent, bestDiff := -1, tolerance + 1;
      ghost var best := -1;
      for i := 0 to readyCount
        invariant bestDiff <= tolerance + 1
        invariant bestOpponent == -1 <==> best == -1
        invariant best == -1 ==> bestDiff == tolerance + 1
        invariant best != -1 ==>
          && 0 <= best < i && bestOpponent == readyPlayers[best].userId != userId
          && bestDiff == Gap(readyPlayers[best], rating) <= tolerance
          && forall j | 0 <= j < best && readyPlayers[j].userId != userId :: bestDiff < Gap(readyPlayers[j], rating)
        invariant forall j | 0 <= j < i && readyPlayers[j].userId != userId ::
          bestDiff <= Gap(readyPlayers[j], rating)
      {
        if readyPlayers[i].userId != userId {
          assert Ready()[i] in Ready();
          var diff := Gap(readyPlayers[i], rating);
          if diff <= tolerance && diff < bestDiff {
            bestDiff := diff;
            bestOpponent := readyPlayers[i].userId;
            best := i;
          }
        }
      }
      if bestOpponent == -1 { return None; }
      assert BestOpponent(Ready(), userId, rating, tolerance, best);
      RemovePlayer(userId);
      RemovePlayer(bestOpponent);
      return Some(bestOpponent);
    }
  }
}
