/** The two symmetries of the board. Mirror swaps left and right; Turn rotates the board half a
    turn and swaps the colours. Both carry every judgement of the rules over to itself. */
module Symmetry {
  import opened Options
  import opened Rules
  import opened Boards
  import opened Games
  import opened Safety

  datatype Sym = Mirror | Turn {
    function Square(s: Sq): Sq {
      if Mirror? then Sq(s.row, 8 - s.col) else Sq(9 - s.row, 8 - s.col)
    }

    function Color(c: Color): Color { if Mirror? then c else c.Other() }

    function Man(m: Man): Man { Rules.Man(Color(m.color), m.kind) }

    function Pos(pos: Pos): Pos {
      map s | s in pos :: Square(s) := Man(pos[s])
    }

    function Sel(sel: Option<Sq>): Option<Sq> {
      match sel
      case None => None
      case Some(s) => Some(Square(s))
    }

    function Game(g: Game): Game {
      Games.Game(Pos(g.pos), Color(g.turn), g.status, Sel(g.sel))
    }

    function Event(e: Event): Event {
      match e
      case ClickOn(q) => ClickOn(Square(q))
      case ChooseOn(q) => ChooseOn(Square(q))
      case CancelOn(q) => CancelOn(Square(q))
      case _ => e
    }
  }

  ghost predicate ImageAt(y: Sym, pos: Pos, pos': Pos, q: Sq) {
    && (q in pos' <==> y.Square(q) in pos)
    && (q in pos' ==> pos'[q] == y.Man(pos[y.Square(q)]))
  }

  /** pos' is the image of pos under the symmetry. */
  ghost predicate IsImage(y: Sym, pos: Pos, pos': Pos) {
    forall q {:trigger ImageAt(y, pos, pos', q)} :: ImageAt(y, pos, pos', q)
  }

  lemma PosIsImage(y: Sym, pos: Pos)
    ensures IsImage(y, pos, y.Pos(pos))
  {
    forall q ensures ImageAt(y, pos, y.Pos(pos), q) {
      assert y.Square(y.Square(q)) == q;
      if q in y.Pos(pos) {
        var u :| u in pos && y.Square(u) == q;
        assert y.Square(q) == u;
      }
    }
  }

  /** What an image says of one square, seen from either board. */
  lemma Onto(y: Sym, pos: Pos, pos': Pos, q: Sq)
    requires IsImage(y, pos, pos')
    ensures y.Square(y.Square(q)) == q
    ensures (y.Square(q) in pos' <==> q in pos) && (q in pos ==> pos'[y.Square(q)] == y.Man(pos[q]))
    ensures (q in pos' <==> y.Square(q) in pos) && (q in pos' ==> pos'[q] == y.Man(pos[y.Square(q)]))
  {
    assert ImageAt(y, pos, pos', q) && ImageAt(y, pos, pos', y.Square(q));
  }

  lemma ImageBack(y: Sym, pos: Pos, pos': Pos)
    requires IsImage(y, pos, pos')
    ensures IsImage(y, pos', pos)
  {
    forall q ensures ImageAt(y, pos', pos, q) {
      Onto(y, pos, pos', q);
    }
  }

  lemma ImagesAgree(y: Sym, pos: Pos, a: Pos, b: Pos)
    requires IsImage(y, pos, a) && IsImage(y, pos, b)
    ensures a == b
  {
    forall q ensures (q in a <==> q in b) && (q in a ==> a[q] == b[q]) {
      assert ImageAt(y, pos, a, q) && ImageAt(y, pos, b, q);
    }
  }

  lemma BetweenImage(y: Sym, s: Sq, t: Sq, u: Sq)
    ensures Between(s, t, u) <==> Between(y.Square(s), y.Square(t), y.Square(u))
    ensures y.Square(y.Square(u)) == u
  {}

  lemma ClearImage(y: Sym, pos: Pos, pos': Pos, s: Sq, t: Sq)
    requires IsImage(y, pos, pos') && Clear(pos, s, t)
    ensures Clear(pos', y.Square(s), y.Square(t))
  {
    forall u | u in pos' ensures !Between(y.Square(s), y.Square(t), u) {
      Onto(y, pos, pos', u);
      BetweenImage(y, s, t, y.Square(u));
    }
  }

  lemma ScreenImage(y: Sym, pos: Pos, pos': Pos, s: Sq, t: Sq)
    requires IsImage(y, pos, pos') && OneScreen(pos, s, t)
    ensures OneScreen(pos', y.Square(s), y.Square(t))
  {
    var u :| IsScreen(pos, s, t, u);
    var u' := y.Square(u);
    BetweenImage(y, s, t, u);
    Onto(y, pos, pos', u);
    forall v | v in pos' && Between(y.Square(s), y.Square(t), v) ensures v == u' {
      Onto(y, pos, pos', v);
      BetweenImage(y, s, t, y.Square(v));
    }
    assert IsScreen(pos', y.Square(s), y.Square(t), u');
  }

  lemma FliesImage(y: Sym, pos: Pos, pos': Pos, c: Color, s: Sq, t: Sq)
    requires IsImage(y, pos, pos') && Flies(pos, c, s, t)
    ensures Flies(pos', y.Color(c), y.Square(s), y.Square(t))
  {
    ClearImage(y, pos, pos', s, t);
    Onto(y, pos, pos', t);
  }

  lemma LinesImage(y: Sym, pos: Pos, pos': Pos, m: Man, s: Sq, t: Sq)
    requires IsImage(y, pos, pos')
    requires m.kind.General? || m.kind.Chariot? || m.kind.Cannon?
    requires Reaches(pos, m, s, t)
    ensures Reaches(pos', y.Man(m), y.Square(s), y.Square(t))
  {
    Onto(y, pos, pos', t);
    match m.kind
    case General => if Flies(pos, m.color, s, t) { FliesImage(y, pos, pos', m.color, s, t); }
    case Chariot => ClearImage(y, pos, pos', s, t);
    case Cannon => if t in pos { ScreenImage(y, pos, pos', s, t); } else { ClearImage(y, pos, pos', s, t); }
  }

  lemma HorseImage(y: Sym, s: Sq, t: Sq)
    requires HorseStep(s, t)
    ensures HorseStep(y.Square(s), y.Square(t)) && HorseLeg(y.Square(s), y.Square(t)) == y.Square(HorseLeg(s, t))
  {}

  lemma ElephantImage(y: Sym, c: Color, s: Sq, t: Sq)
    requires OnBoard(t) && DiagonalStep(s, t, 2) && OwnHalf(c, t)
    ensures DiagonalStep(y.Square(s), y.Square(t), 2) && OwnHalf(y.Color(c), y.Square(t))
    ensures ElephantEye(y.Square(s), y.Square(t)) == y.Square(ElephantEye(s, t))
  {}

  lemma StepsImage(y: Sym, pos: Pos, pos': Pos, m: Man, s: Sq, t: Sq)
    requires IsImage(y, pos, pos')
    requires !m.kind.General? && !m.kind.Chariot? && !m.kind.Cannon?
    requires OnBoard(s) && OnBoard(t)
    requires Reaches(pos, m, s, t)
    ensures Reaches(pos', y.Man(m), y.Square(s), y.Square(t))
  {
    match m.kind
    case Horse =>
      HorseImage(y, s, t);
      Onto(y, pos, pos', HorseLeg(s, t));
    case Elephant =>
      ElephantImage(y, m.color, s, t);
      Onto(y, pos, pos', ElephantEye(s, t));
    case Advisor =>
    case Pawn =>
  }

  lemma AttacksImage(y: Sym, pos: Pos, pos': Pos, s: Sq, t: Sq)
    requires IsImage(y, pos, pos')
    requires OnBoard(s) && OnBoard(t) && s in pos && Attacks(pos, s, t)
    ensures y.Square(s) in pos' && pos'[y.Square(s)] == y.Man(pos[s])
    ensures Attacks(pos', y.Square(s), y.Square(t))
  {
    Onto(y, pos, pos', s);
    Onto(y, pos, pos', t);
    if pos[s].kind.General? || pos[s].kind.Chariot? || pos[s].kind.Cannon? {
      LinesImage(y, pos, pos', pos[s], s, t);
    } else {
      StepsImage(y, pos, pos', pos[s], s, t);
    }
  }

  /** Every piece's own rule of movement is symmetric, on any board. */
  lemma AttacksSymmetric(y: Sym, pos: Pos, pos': Pos, s: Sq, t: Sq)
    requires IsImage(y, pos, pos')
    requires OnBoard(s) && OnBoard(t) && s in pos
    ensures y.Square(s) in pos'
    ensures Attacks(pos, s, t) <==> Attacks(pos', y.Square(s), y.Square(t))
  {
    Onto(y, pos, pos', s);
    if Attacks(pos, s, t) {
      AttacksImage(y, pos, pos', s, t);
    }
    if Attacks(pos', y.Square(s), y.Square(t)) {
      AttacksBack(y, pos, pos', s, t);
    }
  }

  lemma AttacksBack(y: Sym, pos: Pos, pos': Pos, s: Sq, t: Sq)
    requires IsImage(y, pos, pos') && OnBoard(s) && OnBoard(t)
    requires y.Square(s) in pos' && Attacks(pos', y.Square(s), y.Square(t))
    ensures s in pos && Attacks(pos, s, t)
  {
    ImageBack(y, pos, pos');
    assert y.Square(y.Square(s)) == s && y.Square(y.Square(t)) == t;
    AttacksOnto(y, pos', pos, y.Square(s), y.Square(t), s, t);
  }

  lemma AttacksOnto(y: Sym, pos: Pos, pos': Pos, s: Sq, t: Sq, s': Sq, t': Sq)
    requires IsImage(y, pos, pos') && OnBoard(s) && OnBoard(t) && s in pos && Attacks(pos, s, t)
    requires s' == y.Square(s) && t' == y.Square(t)
    ensures s' in pos' && Attacks(pos', s', t')
  {
    AttacksImage(y, pos, pos', s, t);
  }

  // ----- check, legality, end of the game -----

  /** No colour has two generals. */
  ghost predicate Unique(pos: Pos) {
    forall s, t | s in pos && t in pos && pos[s] == pos[t] && pos[s].kind.General? :: s == t
  }

  lemma RegularImage(y: Sym, pos: Pos, pos': Pos)
    requires IsImage(y, pos, pos') && WellPlaced(pos) && Unique(pos)
    ensures WellPlaced(pos') && Unique(pos')
  {
    forall s | s in pos' ensures OnBoard(s) { Onto(y, pos, pos', s); }
    forall s, t | s in pos' && t in pos' && pos'[s] == pos'[t] && pos'[s].kind.General? ensures s == t {
      Onto(y, pos, pos', s);
      Onto(y, pos, pos', t);
      assert y.Square(s) == y.Square(t);
    }
  }

  lemma InCheckImage(y: Sym, pos: Pos, pos': Pos, c: Color)
    requires IsImage(y, pos, pos') && WellPlaced(pos) && Unique(pos) && InCheck(pos, c)
    ensures InCheck(pos', y.Color(c))
  {
    var c' := y.Color(c);
    if HasGeneral(pos', c') {
      var k' :| k' in pos' && pos'[k'] == Man(c', General);
      var k := y.Square(k');
      Onto(y, pos, pos', k');
      assert pos[k] == Man(c, General);
      assert Attacked(pos, c, k) by {
        var i :| FirstGeneral(pos, c, i) && Attacked(pos, c, i);
        assert i == k;
      }
      var e :| e in Attackers(pos, c.Other(), k);
      AttacksImage(y, pos, pos', e, k);
      assert y.Square(e) in Attackers(pos', c'.Other(), k');
      RegularImage(y, pos, pos');
      assert FirstGeneral(pos', c', k');
    }
  }

  /** Check is symmetric on every board where no colour has two generals. */
  lemma CheckSymmetric(y: Sym, pos: Pos, pos': Pos, c: Color)
    requires IsImage(y, pos, pos') && WellPlaced(pos) && Unique(pos)
    ensures InCheck(pos, c) <==> InCheck(pos', y.Color(c))
  {
    if InCheck(pos, c) {
      InCheckImage(y, pos, pos', c);
    }
    if InCheck(pos', y.Color(c)) {
      InCheckBack(y, pos, pos', c);
    }
  }

  lemma InCheckBack(y: Sym, pos: Pos, pos': Pos, c: Color)
    requires IsImage(y, pos, pos') && WellPlaced(pos) && Unique(pos) && InCheck(pos', y.Color(c))
    ensures InCheck(pos, c)
  {
    RegularImage(y, pos, pos');
    ImageBack(y, pos, pos');
    assert y.Color(y.Color(c)) == c;
    InCheckImage(y, pos', pos, y.Color(c));
  }

  lemma MovedImage(y: Sym, pos: Pos, pos': Pos, s: Sq, t: Sq)
    requires IsImage(y, pos, pos') && s in pos
    ensures y.Square(s) in pos' && pos'[y.Square(s)] == y.Man(pos[s])
    ensures IsImage(y, Moved(pos, s, t), Moved(pos', y.Square(s), y.Square(t)))
  {
    Onto(y, pos, pos', s);
    var s', t' := y.Square(s), y.Square(t);
    forall q ensures ImageAt(y, Moved(pos, s, t), Moved(pos', s', t'), q) {
      Onto(y, pos, pos', q);
      assert q == s' <==> y.Square(q) == s;
      assert q == t' <==> y.Square(q) == t;
    }
  }

  lemma LegalSymmetric(y: Sym, pos: Pos, pos': Pos, s: Sq, t: Sq)
    requires IsImage(y, pos, pos') && WellPlaced(pos) && Unique(pos)
    ensures Legal(pos, s, t) <==> Legal(pos', y.Square(s), y.Square(t))
  {
    Onto(y, pos, pos', s);
    if s in pos && OnBoard(t) {
      AttacksSymmetric(y, pos, pos', s, t);
      MovedImage(y, pos, pos', s, t);
      if Attacks(pos, s, t) {
        MovedUnique(pos, s, t);
        CheckSymmetric(y, Moved(pos, s, t), Moved(pos', y.Square(s), y.Square(t)), pos[s].color);
      }
    }
  }

  lemma MovedUnique(pos: Pos, s: Sq, t: Sq)
    requires WellPlaced(pos) && Unique(pos) && s in pos && OnBoard(t)
    ensures WellPlaced(Moved(pos, s, t)) && Unique(Moved(pos, s, t))
  {
    var after := Moved(pos, s, t);
    forall p, q | p in after && q in after && after[p] == after[q] && after[p].kind.General? ensures p == q {
      var p', q' := if p == t then s else p, if q == t then s else q;
      assert pos[p'] == pos[q'];
    }
  }

  lemma CanMoveImage(y: Sym, pos: Pos, pos': Pos, c: Color)
    requires IsImage(y, pos, pos') && WellPlaced(pos) && Unique(pos) && CanMove(pos, c)
    ensures CanMove(pos', y.Color(c))
  {
    var s, t :| Legal(pos, s, t) && pos[s].color == c;
    LegalSymmetric(y, pos, pos', s, t);
    Onto(y, pos, pos', s);
  }

  lemma CanMoveBack(y: Sym, pos: Pos, pos': Pos, c: Color)
    requires IsImage(y, pos, pos') && WellPlaced(pos) && Unique(pos) && CanMove(pos', y.Color(c))
    ensures CanMove(pos, c)
  {
    RegularImage(y, pos, pos');
    ImageBack(y, pos, pos');
    CanMoveImage(y, pos', pos, y.Color(c));
    assert y.Color(y.Color(c)) == c;
  }

  /** The winner of the rotated board is the other colour, that of the mirrored one the same. */
  lemma WinnerSymmetric(y: Sym, pos: Pos, pos': Pos, turn: Color)
    requires IsImage(y, pos, pos') && WellPlaced(pos) && Unique(pos)
    ensures CanMove(pos, turn) <==> CanMove(pos', y.Color(turn))
    ensures Winner(pos', y.Color(turn)) == match Winner(pos, turn) case None => None case Some(c) => Some(y.Color(c))
  {
    if CanMove(pos, turn) {
      CanMoveImage(y, pos, pos', turn);
    }
    if CanMove(pos', y.Color(turn)) {
      CanMoveBack(y, pos, pos', turn);
    }
  }

  // ----- play -----

  lemma ExecutedSymmetric(y: Sym, g: Game, s: Sq, t: Sq)
    requires WellPlaced(g.pos) && Unique(g.pos) && s in g.pos && OnBoard(t)
    ensures y.Square(s) in y.Pos(g.pos)
    ensures y.Game(Executed(g, s, t)) == Executed(y.Game(g), y.Square(s), y.Square(t))
  {
    var after := Moved(g.pos, s, t);
    PosIsImage(y, g.pos);
    PosIsImage(y, after);
    MovedImage(y, g.pos, y.Pos(g.pos), s, t);
    ImagesAgree(y, after, y.Pos(after), Moved(y.Pos(g.pos), y.Square(s), y.Square(t)));
    MovedUnique(g.pos, s, t);
    WinnerSymmetric(y, after, y.Pos(after), g.turn.Other());
  }

  lemma SelectedSymmetric(y: Sym, g: Game, q: Sq)
    ensures y.Game(Selected(g, q)) == Selected(y.Game(g), y.Square(q))
  {
    PosIsImage(y, g.pos);
    Onto(y, g.pos, y.Pos(g.pos), q);
  }

  lemma MovesOnSymmetric(y: Sym, g: Game, q: Sq)
    requires WellPlaced(g.pos) && Unique(g.pos)
    ensures MovesOn(g, q) <==> MovesOn(y.Game(g), y.Square(q))
  {
    assert y.Square(y.Square(q)) == q;
    if g.sel.Some? {
      assert y.Square(y.Square(g.sel.value)) == g.sel.value;
      PosIsImage(y, g.pos);
      LegalSymmetric(y, g.pos, y.Pos(g.pos), g.sel.value, q);
    }
  }

  /** A click on the image square does to the image game what the click does to the game. */
  lemma ClickSymmetric(y: Sym, g: Game, q: Sq)
    requires WellPlaced(g.pos) && Unique(g.pos)
    ensures y.Game(Click(g, q)) == Click(y.Game(g), y.Square(q))
  {
    MovesOnSymmetric(y, g, q);
    if MovesOn(g, q) {
      ExecutedSymmetric(y, g, g.sel.value, q);
    } else {
      SelectedSymmetric(y, g, q);
      assert y.Square(y.Square(q)) == q;
      if g.sel.Some? { assert y.Square(y.Square(g.sel.value)) == g.sel.value; }
    }
  }

  lemma OpeningManSymmetric(y: Sym, q: Sq)
    ensures OpeningMan(q).Some? <==> OpeningMan(y.Square(q)).Some?
    ensures OpeningMan(q).Some? ==> OpeningMan(q).value == y.Man(OpeningMan(y.Square(q)).value)
  {
    assert 0 <= q.col <= 8 ==> BackRank(q.col) == BackRank(8 - q.col);
  }

  lemma OpeningImageAt(y: Sym, pos: Pos, q: Sq)
    requires IsOpening(pos)
    ensures ImageAt(y, pos, pos, q)
  {
    OpeningManSymmetric(y, q);
    assert q in pos <==> OpeningMan(q).Some?;
    assert y.Square(q) in pos <==> OpeningMan(y.Square(q)).Some?;
  }

  lemma OpeningIsItsImage(y: Sym, pos: Pos)
    requires IsOpening(pos)
    ensures y.Pos(pos) == pos
  {
    forall q ensures ImageAt(y, pos, pos, q) {
      OpeningImageAt(y, pos, q);
    }
    PosIsImage(y, pos);
    ImagesAgree(y, pos, pos, y.Pos(pos));
  }

  /** The opening is left-right symmetric, and looks the same from both sides. */
  lemma OpeningSymmetric(y: Sym)
    ensures y.Pos(Placed(OPENING)) == Placed(OPENING)
  {
    OpeningPlaced();
    OpeningIsItsImage(y, Placed(OPENING));
  }

  lemma SafeIsUnique(g: Game)
    requires Safe(g)
    ensures WellPlaced(g.pos) && Unique(g.pos)
  {
    var r :| OneGeneral(g.pos, Red, r);
    var b :| OneGeneral(g.pos, Black, b);
    forall s, t | s in g.pos && t in g.pos && g.pos[s] == g.pos[t] && g.pos[s].kind.General? ensures s == t {
      assert g.pos[s] == Man(Red, General) || g.pos[s] == Man(Black, General);
    }
  }

  function Images(y: Sym, events: seq<Event>): seq<Event> {
    seq(|events|, i requires 0 <= i < |events| => y.Event(events[i]))
  }

  /** An event of play does to the image game what its image does to the game. */
  lemma ApplySymmetric(y: Sym, g: Game, e: Event)
    requires WellPlaced(g.pos) && Unique(g.pos) && !e.Reset?
    ensures Apply(y.Game(g), y.Event(e)) == y.Game(Apply(g, e))
  {
    match e
    case ClickOn(q) => ClickSymmetric(y, g, q);
    case ChooseOn(q) => SelectedSymmetric(y, g, q);
    case CancelOn(q) =>
      if g.sel.Some? { assert y.Square(y.Square(g.sel.value)) == g.sel.value; }
      assert y.Square(y.Square(q)) == q;
    case Resign =>
  }

  /** From any safe game, playing the images of any events gives the image of the game played,
      left-right reversed or seen from the other side with the colours swapped. */
  lemma {:induction false} ContinuedSymmetric(y: Sym, g: Game, events: seq<Event>)
    requires Safe(g) && forall k | 0 <= k < |events| :: !events[k].Reset?
    ensures Safe(Continued(g, events))
    ensures Continued(y.Game(g), Images(y, events)) == y.Game(Continued(g, events))
  {
    if events != [] {
      var n := |events| - 1;
      ContinuedSymmetric(y, g, events[..n]);
      assert Images(y, events)[..n] == Images(y, events[..n]);
      EventKeepsSafe(Continued(g, events[..n]), events[n]);
      SafeIsUnique(Continued(g, events[..n]));
      ApplySymmetric(y, Continued(g, events[..n]), events[n]);
    }
  }

  /** Playing any sequence of events left-right reversed gives the same game left-right reversed. */
  lemma {:induction false} PlayMirrored(events: seq<Event>)
    ensures Play(Images(Mirror, events)) == Mirror.Game(Play(events))
  {
    if events == [] {
      StartMirrored(OPENING);
    } else {
      var n := |events| - 1;
      PlayMirrored(events[..n]);
      assert Images(Mirror, events)[..n] == Images(Mirror, events[..n]);
      PlayIsSafe(events[..n]);
      SafeIsUnique(Play(events[..n]));
      StepMirrored(Play(events[..n]), events[n]);
    }
  }

  lemma StepMirrored(g: Game, e: Event)
    requires WellPlaced(g.pos) && Unique(g.pos)
    ensures Apply(Mirror.Game(g), Mirror.Event(e)) == Mirror.Game(Apply(g, e))
  {
    if e.Reset? { ResetMirrored(g); } else { ApplySymmetric(Mirror, g, e); }
  }

  lemma ResetMirrored(g: Game)
    ensures Apply(Mirror.Game(g), Reset) == Mirror.Game(Apply(g, Reset))
  {
    var setup: seq<Placement> :| setup == OPENING;
    StartMirrored(setup);
    assert Apply(g, Reset) == Start(setup);
  }

  lemma StartMirrored(setup: seq<Placement>)
    requires setup == OPENING
    ensures Mirror.Game(Start(setup)) == Start(setup)
  {
    OpeningSymmetric(Mirror);
  }
}
