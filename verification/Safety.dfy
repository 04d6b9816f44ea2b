/** Whole-game safety: what every position reached from the opening by any sequence of clicks,
    piece listeners, resignations and resets keeps. */
module Safety {
  import opened Options
  import opened Rules
  import opened Boards
  import opened Games

  // ----- the opening -----

  const OPENING: seq<Placement> := [
    Placement(Chariot, Red, 9, 0), Placement(Horse, Red, 9, 1), Placement(Elephant, Red, 9, 2),
    Placement(Advisor, Red, 9, 3), Placement(General, Red, 9, 4), Placement(Advisor, Red, 9, 5),
    Placement(Elephant, Red, 9, 6), Placement(Horse, Red, 9, 7), Placement(Chariot, Red, 9, 8),
    Placement(Cannon, Red, 7, 1), Placement(Cannon, Red, 7, 7),
    Placement(Pawn, Red, 6, 0), Placement(Pawn, Red, 6, 2), Placement(Pawn, Red, 6, 4),
    Placement(Pawn, Red, 6, 6), Placement(Pawn, Red, 6, 8),
    Placement(Pawn, Black, 3, 0), Placement(Pawn, Black, 3, 2), Placement(Pawn, Black, 3, 4),
    Placement(Pawn, Black, 3, 6), Placement(Pawn, Black, 3, 8),
    Placement(Cannon, Black, 2, 1), Placement(Cannon, Black, 2, 7),
    Placement(Chariot, Black, 0, 0), Placement(Horse, Black, 0, 1), Placement(Elephant, Black, 0, 2),
    Placement(Advisor, Black, 0, 3), Placement(General, Black, 0, 4), Placement(Advisor, Black, 0, 5),
    Placement(Elephant, Black, 0, 6), Placement(Horse, Black, 0, 7), Placement(Chariot, Black, 0, 8)]

  /** The 32 men of the opening, square by square. */
  function OpeningMan(s: Sq): Option<Man> {
    if s.row == 9 && 0 <= s.col <= 8 then Some(Man(Red, BackRank(s.col)))
    else if s.row == 7 && (s.col == 1 || s.col == 7) then Some(Man(Red, Cannon))
    else if s.row == 6 && s.col in {0, 2, 4, 6, 8} then Some(Man(Red, Pawn))
    else if s.row == 3 && s.col in {0, 2, 4, 6, 8} then Some(Man(Black, Pawn))
    else if s.row == 2 && (s.col == 1 || s.col == 7) then Some(Man(Black, Cannon))
    else if s.row == 0 && 0 <= s.col <= 8 then Some(Man(Black, BackRank(s.col)))
    else None
  }

  function BackRank(col: int): Kind {
    if col == 0 || col == 8 then Chariot
    else if col == 1 || col == 7 then Horse
    else if col == 2 || col == 6 then Elephant
    else if col == 3 || col == 5 then Advisor
    else General
  }

  ghost predicate IsOpening(pos: Pos) {
    forall s :: (s in pos <==> OpeningMan(s).Some?) && (s in pos ==> pos[s] == OpeningMan(s).value)
  }

  lemma {:induction false} PlacedHolds(situation: seq<Placement>, s: Sq)
    ensures s in Placed(situation) <==> exists p :: p in situation && Sq(p.row, p.col) == s
    ensures s in Placed(situation) ==>
      exists p :: p in situation && Sq(p.row, p.col) == s && Placed(situation)[s] == Man(p.color, p.kind)
  {
    if situation != [] {
      var n := |situation| - 1;
      PlacedHolds(situation[..n], s);
      assert situation == situation[..n] + [situation[n]];
    }
  }

  lemma ListedIsOpening(i: nat)
    requires i < |OPENING|
    ensures var p := OPENING[i]; OpeningMan(Sq(p.row, p.col)) == Some(Man(p.color, p.kind))
  {}

  lemma OpeningIsListed(s: Sq)
    requires OpeningMan(s).Some?
    ensures Placement(OpeningMan(s).value.kind, OpeningMan(s).value.color, s.row, s.col) in OPENING
  {
    var i := if s.row == 9 then s.col
             else if s.row == 7 then (if s.col == 1 then 9 else 10)
             else if s.row == 6 then 11 + s.col / 2
             else if s.row == 3 then 16 + s.col / 2
             else if s.row == 2 then (if s.col == 1 then 21 else 22)
             else 23 + s.col;
    assert OPENING[i] == Placement(OpeningMan(s).value.kind, OpeningMan(s).value.color, s.row, s.col);
  }

  /** Placing the listed pieces one after the other gives the opening. */
  lemma OpeningPlaced()
    ensures IsOpening(Placed(OPENING))
  {
    var situation := OPENING;
    forall s
      ensures s in Placed(situation) <==> OpeningMan(s).Some?
      ensures s in Placed(situation) ==> Placed(situation)[s] == OpeningMan(s).value
    {
      OpeningPlacedAt(situation, s);
    }
  }

  lemma OpeningPlacedAt(situation: seq<Placement>, s: Sq)
    requires situation == OPENING
    ensures s in Placed(situation) <==> OpeningMan(s).Some?
    ensures s in Placed(situation) ==> Placed(situation)[s] == OpeningMan(s).value
  {
    PlacedHolds(situation, s);
    if s in Placed(situation) {
      var p :| p in situation && Sq(p.row, p.col) == s && Placed(situation)[s] == Man(p.color, p.kind);
      var i :| 0 <= i < |situation| && situation[i] == p;
      ListedIsOpening(i);
    }
    if OpeningMan(s).Some? {
      OpeningIsListed(s);
    }
  }

  // ----- confinement -----

  /** The five squares of an advisor, with rows counted from its own back rank. */
  predicate AdvisorSquare(c: Color, s: Sq) {
    Sq(if c.Red? then 9 - s.row else s.row, s.col) in {Sq(0, 3), Sq(0, 5), Sq(1, 4), Sq(2, 3), Sq(2, 5)}
  }

  /** The seven squares of an elephant, with rows counted from its own back rank. */
  predicate ElephantSquare(c: Color, s: Sq) {
    Sq(if c.Red? then 9 - s.row else s.row, s.col)
    in {Sq(0, 2), Sq(0, 6), Sq(2, 0), Sq(2, 4), Sq(2, 8), Sq(4, 2), Sq(4, 6)}
  }

  /** Where a man may ever stand. */
  predicate AtHome(m: Man, s: Sq) {
    match m.kind
    case General => InPalace(m.color, s)
    case Advisor => AdvisorSquare(m.color, s)
    case Elephant => ElephantSquare(m.color, s)
    case Pawn => if m.color.Red? then s.row <= 6 else 3 <= s.row
    case _ => true
  }

  ghost predicate Confined(pos: Pos) {
    forall s <- pos :: OnBoard(s) && AtHome(pos[s], s)
  }

  /** A step that is not a capture of a general keeps the mover where its kind belongs. */
  lemma ReachStaysHome(pos: Pos, m: Man, s: Sq, t: Sq)
    requires OnBoard(s) && OnBoard(t) && AtHome(m, s)
    requires Reaches(pos, m, s, t)
    requires t in pos ==> !pos[t].kind.General?
    ensures AtHome(m, t)
  {
    match m.kind
    case Advisor => AdvisorStaysHome(m.color, s, t);
    case Elephant => ElephantStaysHome(m.color, s, t);
    case _ =>
  }

  lemma AdvisorStaysHome(c: Color, s: Sq, t: Sq)
    requires AdvisorSquare(c, s) && DiagonalStep(s, t, 1) && InPalace(c, t)
    ensures AdvisorSquare(c, t)
  {}

  lemma ElephantStaysHome(c: Color, s: Sq, t: Sq)
    requires OnBoard(t) && ElephantSquare(c, s) && DiagonalStep(s, t, 2) && OwnHalf(c, t)
    ensures ElephantSquare(c, t)
  {}

  // ----- generals -----

  ghost predicate HasOneGeneral(pos: Pos, c: Color) {
    exists k :: OneGeneral(pos, c, k)
  }

  /** With the waiting side not in check, no move of the other side captures its general. */
  lemma NoGeneralIsCaptured(pos: Pos, s: Sq, t: Sq)
    requires s in pos && Attacks(pos, s, t)
    requires HasOneGeneral(pos, pos[s].color.Other())
    requires !InCheck(pos, pos[s].color.Other())
    ensures t in pos ==> !pos[t].kind.General?
  {
    var c := pos[s].color.Other();
    var k :| OneGeneral(pos, c, k);
    assert FirstGeneral(pos, c, k);
    assert Attacks(pos, s, k) ==> s in Attackers(pos, c.Other(), k);
  }

  lemma MoveKeepsGenerals(pos: Pos, s: Sq, t: Sq, c: Color)
    requires s in pos && s != t && (t in pos ==> !pos[t].kind.General?)
    requires HasOneGeneral(pos, c)
    ensures HasOneGeneral(Moved(pos, s, t), c)
  {
    var k :| OneGeneral(pos, c, k);
    assert OneGeneral(Moved(pos, s, t), c, if k == s then t else k);
  }

  ghost predicate Facing(pos: Pos) {
    exists r, b :: OneGeneral(pos, Red, r) && OneGeneral(pos, Black, b) && r.col == b.col && Clear(pos, r, b)
  }

  /** Generals on an open file check each other, whatever the side. */
  lemma FacingIsCheck(pos: Pos, c: Color)
    requires Confined(pos) && Facing(pos)
    ensures InCheck(pos, c)
  {
    var r, b :| OneGeneral(pos, Red, r) && OneGeneral(pos, Black, b) && r.col == b.col && Clear(pos, r, b);
    var k, e := if c.Red? then r else b, if c.Red? then b else r;
    assert FirstGeneral(pos, c, k);
    assert Clear(pos, e, k);
    assert Flies(pos, c.Other(), e, k);
    assert e in Attackers(pos, c.Other(), k);
  }

  // ----- the invariant of play -----

  ghost predicate Safe(g: Game) {
    && Confined(g.pos)
    && HasOneGeneral(g.pos, Red) && HasOneGeneral(g.pos, Black)
    && !InCheck(g.pos, g.turn.Other())
    && (g.sel.Some? ==> Friendly(g.pos, g.turn, g.sel.value))
  }

  lemma LegalMoveKeepsSafe(g: Game, s: Sq, t: Sq)
    requires Safe(g) && Friendly(g.pos, g.turn, s) && Legal(g.pos, s, t)
    ensures t in g.pos ==> !g.pos[t].kind.General?
    ensures Safe(Executed(g, s, t))
  {
    var pos := Moved(g.pos, s, t);
    NoGeneralIsCaptured(g.pos, s, t);
    assert s != t;
    MoveKeepsGenerals(g.pos, s, t, Red);
    MoveKeepsGenerals(g.pos, s, t, Black);
    ReachStaysHome(g.pos, g.pos[s], s, t);
  }

  datatype Event = ClickOn(at: Sq) | ChooseOn(at: Sq) | CancelOn(at: Sq) | Resign | Reset

  ghost function Apply(g: Game, e: Event): Game {
    match e
    case ClickOn(q) => Click(g, q)
    case ChooseOn(q) => Choose(g, q)
    case CancelOn(q) => Cancel(g, q)
    case Resign => g.(status := false)
    case Reset => Start(OPENING)
  }

  ghost function Play(events: seq<Event>): Game {
    if events == [] then Start(OPENING)
    else Apply(Play(events[..|events| - 1]), events[|events| - 1])
  }

  lemma OpeningIsSafe()
    ensures Safe(Start(OPENING))
  {
    OpeningPlaced();
    var pos := Placed(OPENING);
    OpeningConfined(pos);
    OpeningGenerals(pos);
    OpeningHasNoAttack(pos);
  }

  lemma OpeningConfined(pos: Pos)
    requires IsOpening(pos)
    ensures Confined(pos)
  {
    forall s <- pos ensures OnBoard(s) && AtHome(pos[s], s) {
      assert OpeningMan(s).Some?;
    }
  }

  lemma OpeningGenerals(pos: Pos)
    requires IsOpening(pos)
    ensures OneGeneral(pos, Red, Sq(9, 4)) && OneGeneral(pos, Black, Sq(0, 4))
  {
    forall s <- pos ensures pos[s].kind.General? ==> s == Sq(9, 4) || s == Sq(0, 4) {
      assert OpeningMan(s).Some?;
    }
  }

  lemma OpeningHasNoAttack(pos: Pos)
    requires IsOpening(pos)
    ensures !InCheck(pos, Black)
  {
    var k := Sq(0, 4);
    OpeningGenerals(pos);
    assert FirstGeneral(pos, Black, k);
    forall e <- pos | pos[e].color == Red ensures !Attacks(pos, e, k) {
      assert OpeningMan(e).Some?;
      assert e.col == 4 ==> Sq(6, 4) in pos && (e == Sq(6, 4) || Between(e, k, Sq(6, 4)));
    }
    assert Attackers(pos, Red, k) == {};
    forall k' | FirstGeneral(pos, Black, k') ensures k' == k {}
  }

  lemma EventKeepsSafe(g: Game, e: Event)
    requires Safe(g)
    ensures Safe(Apply(g, e))
  {
    if e.Reset? {
      OpeningIsSafe();
    } else if e.ClickOn? && MovesOn(g, e.at) {
      LegalMoveKeepsSafe(g, g.sel.value, e.at);
    }
  }

  /** After any sequence of events: both generals are on the board, the side not to move is
      not in check, the generals do not face each other, and every man stands where it may. */
  lemma {:induction false} PlayIsSafe(events: seq<Event>)
    ensures Safe(Play(events))
    ensures !Facing(Play(events).pos)
  {
    if events == [] {
      OpeningIsSafe();
    } else {
      PlayIsSafe(events[..|events| - 1]);
      EventKeepsSafe(Play(events[..|events| - 1]), events[|events| - 1]);
    }
    var g := Play(events);
    if Facing(g.pos) {
      FacingIsCheck(g.pos, g.turn.Other());
    }
  }

  lemma OpeningPawnMove(pos: Pos)
    requires IsOpening(pos)
    ensures Friendly(pos, Red, Sq(6, 0)) && Legal(pos, Sq(6, 0), Sq(5, 0))
  {
    var s, t, k := Sq(6, 0), Sq(5, 0), Sq(9, 4);
    assert OpeningMan(s) == Some(Man(Red, Pawn)) && OpeningMan(t).None?;
    var after := Moved(pos, s, t);
    OpeningGenerals(pos);
    assert FirstGeneral(after, Red, k);
    forall e | e in after && after[e].color == Black ensures !Attacks(after, e, k) {
      assert OpeningMan(e).Some?;
      assert e.col == 4 ==> Sq(3, 4) in after && (e == Sq(3, 4) || Between(e, k, Sq(3, 4)));
    }
    assert Attackers(after, Black, k) == {};
    forall k' | FirstGeneral(after, Red, k') ensures k' == k {}
  }

  /** While a game is on, the side to move has a legal move; without one it has been stopped. */
  lemma {:induction false} PlayIsNeverStuck(events: seq<Event>)
    ensures Play(events).status ==> CanMove(Play(events).pos, Play(events).turn)
  {
    if events == [] || events[|events| - 1].Reset? {
      OpeningPlaced();
      OpeningPawnMove(Placed(OPENING));
    } else {
      PlayIsNeverStuck(events[..|events| - 1]);
    }
  }

  // ----- pawns -----

  /** Where the piece standing on s is after an event, unless it was captured or cleared away. */
  ghost function Track(g: Game, e: Event, s: Sq): Option<Sq> {
    if e.Reset? then None
    else if e.ClickOn? && MovesOn(g, e.at) then
      if s == g.sel.value then Some(e.at) else if s == e.at then None else Some(s)
    else Some(s)
  }

  ghost function Continued(g: Game, events: seq<Event>): Game {
    if events == [] then g
    else Apply(Continued(g, events[..|events| - 1]), events[|events| - 1])
  }

  ghost function Tracked(g: Game, events: seq<Event>, s: Sq): Option<Sq> {
    if events == [] then Some(s)
    else
      var n := |events| - 1;
      match Tracked(g, events[..n], s)
      case None => None
      case Some(q) => Track(Continued(g, events[..n]), events[n], q)
  }

  /** t is no step back for a pawn of colour c on s; beyond the river it is on the same file. */
  predicate Ahead(c: Color, s: Sq, t: Sq) {
    && (if c.Red? then t.row <= s.row else s.row <= t.row)
    && (!OwnHalf(c, s) ==> t.col == s.col)
  }

  lemma TrackAhead(g: Game, e: Event, s: Sq)
    requires Safe(g) && s in g.pos
    ensures Track(g, e, s).Some? ==>
      var t := Track(g, e, s).value;
      var pos := Apply(g, e).pos;
      && t in pos && pos[t] == g.pos[s]
      && (pos[t].kind.Pawn? ==> Ahead(pos[t].color, s, t))
  {
    if e.ClickOn? && MovesOn(g, e.at) && s == g.sel.value && g.pos[s].kind.Pawn? {
      assert PawnStep(g.pos[s].color, s, e.at);
    }
  }

  /** A piece followed through any run keeps its identity; a pawn never retreats and, once
      across the river, never leaves its file. */
  lemma {:induction false} PawnsNeverRetreat(g: Game, events: seq<Event>, s: Sq)
    requires Safe(g) && s in g.pos
    ensures Safe(Continued(g, events))
    ensures Tracked(g, events, s).Some? ==>
      var t := Tracked(g, events, s).value;
      var pos := Continued(g, events).pos;
      && t in pos && pos[t] == g.pos[s]
      && (pos[t].kind.Pawn? ==> Ahead(pos[t].color, s, t))
  {
    if events != [] {
      var n := |events| - 1;
      PawnsNeverRetreat(g, events[..n], s);
      EventKeepsSafe(Continued(g, events[..n]), events[n]);
      if Tracked(g, events[..n], s).Some? {
        TrackAhead(Continued(g, events[..n]), events[n], Tracked(g, events[..n], s).value);
      }
    }
  }

  // ----- the shapes of the moves -----

  /** In its palace a general reaches by its own step exactly the palace squares next to it: the
      test of the edge it stands on is enough. */
  lemma GeneralStepsInPalace(c: Color, s: Sq, t: Sq)
    requires InPalace(c, s)
    ensures GeneralStep(c, s, t) <==> InPalace(c, t) && Abs(t.row - s.row) + Abs(t.col - s.col) == 1
  {}

  /** The leg is the one square next to the horse from which the target is a diagonal step. */
  lemma LegIsBetween(s: Sq, t: Sq, u: Sq)
    requires HorseStep(s, t)
    ensures u == HorseLeg(s, t) <==>
      Abs(u.row - s.row) + Abs(u.col - s.col) == 1 && Abs(t.row - u.row) == 1 && Abs(t.col - u.col) == 1
  {}

  /** The eye is the square halfway. */
  lemma EyeIsHalfway(s: Sq, t: Sq, u: Sq)
    requires DiagonalStep(s, t, 2)
    ensures u == ElephantEye(s, t) <==> u.row + u.row == s.row + t.row && u.col + u.col == s.col + t.col
  {}

  /** A pawn on its own half reaches the squares ahead and beside it, one beyond the river only the
      square ahead; ahead is towards the enemy's back rank. */
  lemma PawnReaches(pos: Pos, c: Color, s: Sq, t: Sq)
    ensures var ahead := Sq(if c == Red then s.row - 1 else s.row + 1, s.col);
      Reaches(pos, Man(c, Pawn), s, t) <==>
        t == ahead || (OwnHalf(c, s) && (t == Sq(s.row, s.col - 1) || t == Sq(s.row, s.col + 1)))
  {}

  /** t is one square from s along a row or column, or further on in the same direction, and t' is
      the square after t. */
  predicate Onward(s: Sq, t: Sq, t': Sq) {
    || (s.row == t.row == t'.row && ((s.col < t.col && t'.col == t.col + 1) || (t.col < s.col && t'.col == t.col - 1)))
    || (s.col == t.col == t'.col && ((s.row < t.row && t'.row == t.row + 1) || (t.row < s.row && t'.row == t.row - 1)))
  }

  /** A chariot slides square by square: it always reaches the next square, and one further on
      exactly when it reaches the square before and that one is empty. */
  lemma ChariotSlides(pos: Pos, c: Color, s: Sq, t: Sq, t': Sq)
    ensures Abs(t.row - s.row) + Abs(t.col - s.col) == 1 ==> Reaches(pos, Man(c, Chariot), s, t)
    ensures Onward(s, t, t') ==>
      (Reaches(pos, Man(c, Chariot), s, t') <==> Reaches(pos, Man(c, Chariot), s, t) && t !in pos)
  {
    if Onward(s, t, t') {
      assert forall u :: Between(s, t', u) <==> Between(s, t, u) || u == t;
    }
  }

  /** A cannon takes a piece exactly over one screen: the chariot would take the screen, and would
      take the piece if the screen were not there. */
  lemma CannonJumps(pos: Pos, c: Color, s: Sq, t: Sq)
    requires t in pos
    ensures Reaches(pos, Man(c, Cannon), s, t) <==>
      exists u :: u in pos && Between(s, t, u) && Reaches(pos - {u}, Man(c, Chariot), s, t)
  {
    if u :| IsScreen(pos, s, t, u) {
      assert Clear(pos - {u}, s, t);
    }
    if u :| u in pos && Between(s, t, u) && Reaches(pos - {u}, Man(c, Chariot), s, t) {
      forall v <- pos | Between(s, t, v) ensures v == u {
        assert v in pos - {u} || v == u;
      }
      assert IsScreen(pos, s, t, u);
    }
  }

  // ----- the two sliding pieces -----

  /** Cannon and chariot agree on empty squares and never both take the same piece. */
  lemma CannonVersusChariot(pos: Pos, c: Color, s: Sq, t: Sq)
    ensures t !in pos ==> (Reaches(pos, Man(c, Cannon), s, t) <==> Reaches(pos, Man(c, Chariot), s, t))
    ensures t in pos ==> !(Reaches(pos, Man(c, Cannon), s, t) && Reaches(pos, Man(c, Chariot), s, t))
  {
    if t in pos && Reaches(pos, Man(c, Cannon), s, t) {
      var u :| IsScreen(pos, s, t, u);
      assert !Clear(pos, s, t);
    }
  }
}
