/** The rules of Xiangqi as the pieces' validators state them, over positions as values.
    Each reach condition is declarative: a relation between squares and the pieces in between.
    The validators of module Pieces, with their offset tables and loops, are proved equal to it. */
module Rules {

  datatype Color = Red | Black {
    function Other(): Color { if Red? then Black else Red }
  }

  datatype Kind = General | Chariot | Horse | Elephant | Advisor | Pawn | Cannon

  datatype Man = Man(color: Color, kind: Kind)

  datatype Sq = Sq(row: int, col: int)

  type Pos = map<Sq, Man>

  predicate OnBoard(s: Sq) {
    0 <= s.row <= 9 && 0 <= s.col <= 8
  }

  ghost predicate WellPlaced(pos: Pos) {
    forall s <- pos :: OnBoard(s)
  }

  // ----- lines -----

  /** u lies strictly between s and t on a common row or column. */
  predicate Between(s: Sq, t: Sq, u: Sq) {
    || (s.row == t.row == u.row && (s.col < u.col < t.col || t.col < u.col < s.col))
    || (s.col == t.col == u.col && (s.row < u.row < t.row || t.row < u.row < s.row))
  }

  predicate Aligned(s: Sq, t: Sq) {
    s != t && (s.row == t.row || s.col == t.col)
  }

  ghost predicate Clear(pos: Pos, s: Sq, t: Sq) {
    forall u <- pos :: !Between(s, t, u)
  }

  ghost predicate IsScreen(pos: Pos, s: Sq, t: Sq, u: Sq) {
    && u in pos && Between(s, t, u)
    && forall v <- pos :: Between(s, t, v) ==> v == u
  }

  ghost predicate OneScreen(pos: Pos, s: Sq, t: Sq) {
    exists u :: IsScreen(pos, s, t, u)
  }

  // ----- regions -----

  predicate InPalace(c: Color, s: Sq) {
    3 <= s.col <= 5 && if c.Red? then 7 <= s.row <= 9 else 0 <= s.row <= 2
  }

  predicate OwnHalf(c: Color, s: Sq) {
    if c.Red? then 5 <= s.row <= 9 else 0 <= s.row <= 4
  }

  // ----- how each kind reaches a square -----

  /** The general's own step tests only which palace edge it stands on, never the target. */
  predicate GeneralStep(c: Color, s: Sq, t: Sq) {
    || (t == Sq(s.row, s.col - 1) && s.col != 3)
    || (t == Sq(s.row, s.col + 1) && s.col != 5)
    || (t == Sq(s.row - 1, s.col) && s.row != (if c.Red? then 7 else 0))
    || (t == Sq(s.row + 1, s.col) && s.row != (if c.Red? then 9 else 2))
  }

  /** The flying move: t holds the first piece met on the general's file, looking towards
      the enemy, and that piece is a general of either colour. */
  ghost predicate Flies(pos: Pos, c: Color, s: Sq, t: Sq) {
    && s.col == t.col
    && (if c.Red? then t.row < s.row else s.row < t.row)
    && t in pos && pos[t].kind.General?
    && Clear(pos, s, t)
  }

  function Abs(x: int): nat { if x < 0 then -x else x }

  predicate HorseStep(s: Sq, t: Sq) {
    || (Abs(t.row - s.row) == 2 && Abs(t.col - s.col) == 1)
    || (Abs(t.row - s.row) == 1 && Abs(t.col - s.col) == 2)
  }

  /** The square orthogonally next to the horse, in the direction of its long leg. */
  function HorseLeg(s: Sq, t: Sq): Sq {
    if Abs(t.row - s.row) == 2
    then Sq(if s.row < t.row then s.row + 1 else s.row - 1, s.col)
    else Sq(s.row, if s.col < t.col then s.col + 1 else s.col - 1)
  }

  predicate DiagonalStep(s: Sq, t: Sq, n: nat) {
    Abs(t.row - s.row) == n && Abs(t.col - s.col) == n
  }

  function ElephantEye(s: Sq, t: Sq): Sq {
    Sq(if s.row < t.row then s.row + 1 else s.row - 1,
       if s.col < t.col then s.col + 1 else s.col - 1)
  }

  function Forward(c: Color): int { if c.Red? then -1 else 1 }

  /** Sideways steps are open on the pawn's own half and closed beyond the river,
      the reverse of the usual rule. */
  predicate PawnStep(c: Color, s: Sq, t: Sq) {
    || t == Sq(s.row + Forward(c), s.col)
    || (OwnHalf(c, s) && t.row == s.row && Abs(t.col - s.col) == 1)
  }

  ghost predicate Reaches(pos: Pos, m: Man, s: Sq, t: Sq) {
    match m.kind
    case General => GeneralStep(m.color, s, t) || Flies(pos, m.color, s, t)
    case Chariot => Aligned(s, t) && Clear(pos, s, t)
    case Cannon => Aligned(s, t) && if t in pos then OneScreen(pos, s, t) else Clear(pos, s, t)
    case Horse => HorseStep(s, t) && HorseLeg(s, t) !in pos
    case Elephant => DiagonalStep(s, t, 2) && OwnHalf(m.color, t) && ElephantEye(s, t) !in pos
    case Advisor => DiagonalStep(s, t, 1) && InPalace(m.color, t)
    case Pawn => PawnStep(m.color, s, t)
  }

  predicate Friendly(pos: Pos, c: Color, t: Sq) {
    t in pos && pos[t].color == c
  }

  /** The piece on s may go to t by its own rule of movement. */
  ghost predicate Attacks(pos: Pos, s: Sq, t: Sq)
    requires s in pos
  {
    !Friendly(pos, pos[s].color, t) && Reaches(pos, pos[s], s, t)
  }

  // ----- check, legality, end of the game -----

  predicate Before(s: Sq, t: Sq) {
    s.row < t.row || (s.row == t.row && s.col < t.col)
  }

  /** k is the first square in row-major order holding the general of colour c. */
  ghost predicate FirstGeneral(pos: Pos, c: Color, k: Sq) {
    && k in pos && pos[k] == Man(c, General)
    && forall s <- pos :: pos[s] == Man(c, General) ==> s == k || Before(k, s)
  }

  ghost predicate HasGeneral(pos: Pos, c: Color) {
    exists k <- pos :: pos[k] == Man(c, General)
  }

  /** The squares of the pieces of colour c that may go to k. */
  ghost function Attackers(pos: Pos, c: Color, k: Sq): set<Sq> {
    set e | e in pos && pos[e].color == c && Attacks(pos, e, k)
  }

  ghost predicate Attacked(pos: Pos, c: Color, k: Sq) {
    Attackers(pos, c.Other(), k) != {}
  }

  /** A colour without a general counts as being in check. */
  ghost predicate InCheck(pos: Pos, c: Color) {
    HasGeneral(pos, c) ==> exists k :: FirstGeneral(pos, c, k) && Attacked(pos, c, k)
  }

  function Moved(pos: Pos, s: Sq, t: Sq): Pos
    requires s in pos
  {
    (pos - {s})[t := pos[s]]
  }

  ghost predicate Legal(pos: Pos, s: Sq, t: Sq) {
    && s in pos && OnBoard(t)
    && Attacks(pos, s, t)
    && !InCheck(Moved(pos, s, t), pos[s].color)
  }

  ghost predicate CanMove(pos: Pos, c: Color) {
    exists s, t :: Legal(pos, s, t) && pos[s].color == c
  }

  ghost predicate OneGeneral(pos: Pos, c: Color, k: Sq) {
    && k in pos && pos[k] == Man(c, General)
    && forall s <- pos :: pos[s] == Man(c, General) ==> s == k
  }
}
