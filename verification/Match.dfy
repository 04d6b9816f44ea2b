/** The server's record of one match and the functions of match.c and handlers.c that change it,
    on values. Every function reads the clock once, as the argument now (seconds). */
module Matches {
  import opened Rules

  const MAX_MATCHES := 500
  const MAX_MOVES_PER_MATCH := 300

  datatype Result = Ongoing | RedWins | BlackWins | Draw | Aborted

  datatype EndReason = NoReason | Resigned | Timeout | Agreement | NotifyFailed

  /** The four coordinates of a move, as the message carries them. */
  datatype Coords = Coords(fromRow: int, fromCol: int, toRow: int, toCol: int)

  datatype MoveRecord = MoveRecord(move: Coords, timestamp: int, redTimeMs: int, blackTimeMs: int)

  datatype Match = Match(
    id: string, red: int, black: int, turn: Color, moves: seq<MoveRecord>, rated: bool,
    redTimeMs: int, blackTimeMs: int, startedAt: int, lastMoveAt: int,
    active: bool, result: Result, endReason: EndReason)
  {
    function Clock(c: Color): int { if c.Red? then redTimeMs else blackTimeMs }
  }

  /** A slot of the table as memset leaves it. */
  const EMPTY_SLOT := Match("", 0, 0, Red, [], false, 0, 0, 0, 0, false, Ongoing, NoReason)

  // ----- machine integers -----

  /** The value kept by a conversion to a signed integer of the given number of values. */
  function Wrap(x: int, size: int): int
    requires size > 0
  {
    (x + size / 2) % size - size / 2
  }

  function Int32(x: int): int { Wrap(x, 0x1_0000_0000) }

  function Int8(x: int): int { Wrap(x, 0x100) }

  /** What a conversion keeps: a value of the type that differs by whole turns of its range. */
  lemma ConversionsMean(x: int)
    ensures -0x8000_0000 <= Int32(x) < 0x8000_0000
    ensures x == Int32(x) + 0x1_0000_0000 * ((x + 0x8000_0000) / 0x1_0000_0000)
    ensures -128 <= Int8(x) < 128 && x == Int8(x) + 256 * ((x + 128) / 256)
  {}

  function Stored(m: Coords): Coords {
    Coords(Int8(m.fromRow), Int8(m.fromCol), Int8(m.toRow), Int8(m.toCol))
  }

  function ElapsedMs(m: Match, now: int): int {
    Int32((now - m.lastMoveAt) * 1000)
  }

  /** The seconds that fit into a signed 32-bit count of milliseconds. */
  predicate InRange(seconds: int) { -2147483 <= seconds <= 2147483 }

  /** The elapsed time is exact exactly when the gap fits into a 32-bit count of milliseconds. */
  lemma ElapsedIsExact(m: Match, now: int)
    ensures ElapsedMs(m, now) == (now - m.lastMoveAt) * 1000 <==> InRange(now - m.lastMoveAt)
  {
    var x := (now - m.lastMoveAt) * 1000;
    assert Int32(x) == x <==> -0x8000_0000 <= x < 0x8000_0000;
  }

  // ----- match.c -----

  function Created(id: string, red: int, black: int, rated: bool, timeMs: int, now: int): Match {
    Match(id, red, black, Red, [], rated, timeMs, timeMs, now, now, true, Ongoing, NoReason)
  }

  function Floor0(x: int): int { if x < 0 then 0 else x }

  /** match_update_timer: charges the time since the last reading to the side to move. */
  function TimerUpdated(m: Match, now: int): Match {
    if !m.active then m
    else if m.turn.Red? then m.(redTimeMs := Floor0(m.redTimeMs - ElapsedMs(m, now)), lastMoveAt := now)
    else m.(blackTimeMs := Floor0(m.blackTimeMs - ElapsedMs(m, now)), lastMoveAt := now)
  }

  /** match_check_timeout. */
  predicate TimedOut(m: Match, now: int) {
    m.active && m.Clock(m.turn) - ElapsedMs(m, now) <= 0
  }

  /** match_get_timer_json: the remaining times shown to a client. */
  function TimerView(m: Match, now: int): (view: (int, int)) {
    if !m.active then (m.redTimeMs, m.blackTimeMs)
    else if m.turn.Red? then (Floor0(m.redTimeMs - ElapsedMs(m, now)), m.blackTimeMs)
    else (m.redTimeMs, Floor0(m.blackTimeMs - ElapsedMs(m, now)))
  }

  /** match_add_move: none on a finished match or beyond the length of the move array. */
  predicate Addable(m: Match) {
    m.active && |m.moves| < MAX_MOVES_PER_MATCH
  }

  function MoveAdded(m: Match, move: MoveRecord, now: int): Match {
    if Addable(m) then m.(moves := m.moves + [move], lastMoveAt := now, turn := m.turn.Other()) else m
  }

  /** match_end has no guard: it overwrites whatever outcome the match had. */
  function Ended(m: Match, result: Result, reason: EndReason): Match {
    m.(active := false, result := result, endReason := reason)
  }

  function WinnerAgainst(c: Color): Result { if c.Red? then BlackWins else RedWins }

  /** One slot of match_check_all_timeouts. */
  function Swept(m: Match, now: int): Match {
    if TimedOut(m, now) then Ended(m, WinnerAgainst(m.turn), Timeout) else m
  }

  // ----- handlers.c, once the match has been found -----

  datatype MoveReply = NotYourTurn | TimeExpired | FailedToAdd | MoveAccepted

  /** Whose turn it is by the parity of the move count. */
  predicate RedToMove(m: Match) { |m.moves| % 2 == 0 }

  function HandleMove(m: Match, user: int, move: Coords, now: int): (Match, MoveReply) {
    if RedToMove(m) != (m.red == user) then (m, NotYourTurn)
    else
      var m1 := TimerUpdated(m, now);
      if TimedOut(m1, now) then
        (Ended(m1, WinnerAgainst(if m.red == user then Red else Black), Timeout), TimeExpired)
      else if Addable(m1) then
        (MoveAdded(m1, MoveRecord(Stored(move), now, m1.redTimeMs, m1.blackTimeMs), now), MoveAccepted)
      else (m1, FailedToAdd)
  }

  /** Whoever sends it, the sender is taken for Black unless it is the red player. */
  function HandleResign(m: Match, user: int): Match {
    if m.active then Ended(m, WinnerAgainst(if m.red == user then Red else Black), Resigned) else m
  }

  function HandleDrawAccepted(m: Match): Match {
    if m.active then Ended(m, Draw, Agreement) else m
  }

  /** The end of handle_find_match: the new match is rolled back when a player cannot be told. */
  function Announced(m: Match, notified: bool): Match {
    if notified then m else Ended(m, Aborted, NotifyFailed)
  }

  // ----- one match over time -----

  datatype Step =
    | Move(user: int, move: Coords, now: int)
    | Resign(user: int)
    | AcceptDraw
    | Sweep(now: int)

  function Next(m: Match, e: Step): Match {
    match e
    case Move(user, move, now) => HandleMove(m, user, move, now).0
    case Resign(user) => HandleResign(m, user)
    case AcceptDraw => HandleDrawAccepted(m)
    case Sweep(now) => Swept(m, now)
  }

  function Run(m: Match, steps: seq<Step>): Match {
    if steps == [] then m else Next(Run(m, steps[..|steps| - 1]), steps[|steps| - 1])
  }

  /** What every match in the table satisfies once it has been announced. */
  ghost predicate Coherent(m: Match) {
    && (m.turn.Red? <==> RedToMove(m))
    && |m.moves| <= MAX_MOVES_PER_MATCH
    && (m.active <==> m.result == Ongoing)
    && (m.active <==> m.endReason == NoReason)
  }

  /** What a match created with a positive time keeps besides. */
  ghost predicate HasTime(m: Match) {
    m.active ==> 0 < m.redTimeMs && 0 < m.blackTimeMs
  }

  lemma NextIsCoherent(m: Match, e: Step)
    requires Coherent(m)
    ensures Coherent(Next(m, e)) && (HasTime(m) ==> HasTime(Next(m, e)))
    ensures m.moves <= Next(m, e).moves && |Next(m, e).moves| <= |m.moves| + 1
    ensures !m.active ==> Next(m, e) == m
  {}

  lemma CreatedIsCoherent(id: string, red: int, black: int, rated: bool, timeMs: int, now: int, notified: bool)
    ensures var m := Announced(Created(id, red, black, rated, timeMs, now), notified);
      Coherent(m) && (0 < timeMs ==> HasTime(m))
  {}

  /** The turn string and the move parity always name the same player, the flag and the result
      agree, time that was there is left while the match lasts, and the log only grows: it is
      never rewritten. */
  lemma {:induction false} RunIsCoherent(m: Match, steps: seq<Step>)
    requires Coherent(m)
    ensures Coherent(Run(m, steps)) && (HasTime(m) ==> HasTime(Run(m, steps)))
    ensures m.moves <= Run(m, steps).moves
  {
    if steps != [] {
      var n := |steps| - 1;
      RunIsCoherent(m, steps[..n]);
      NextIsCoherent(Run(m, steps[..n]), steps[n]);
    }
  }

  lemma {:induction false} RunSplits(m: Match, before: seq<Step>, after: seq<Step>)
    ensures Run(m, before + after) == Run(Run(m, before), after)
  {
    if after == [] {
      assert before + after == before;
    } else {
      var n := |after| - 1;
      assert (before + after)[..|before| + n] == before + after[..n];
      RunSplits(m, before, after[..n]);
    }
  }

  /** Outcomes are written once: a match that is inactive at some point of a run never changes
      again, in any field, although match_end itself has no guard. */
  lemma {:induction false} OutcomeIsWrittenOnce(m: Match, before: seq<Step>, after: seq<Step>)
    requires Coherent(m)
    requires !Run(m, before).active
    ensures Run(m, before + after) == Run(m, before)
  {
    RunSplits(m, before, after);
    RunIsCoherent(m, before);
    if after != [] {
      var n := |after| - 1;
      OutcomeIsWrittenOnce(m, before, after[..n]);
      RunSplits(m, before, after[..n]);
      NextIsCoherent(Run(m, before), after[n]);
    }
  }

  /** Without the callers' guards the outcome would not be stable: any other one replaces it. */
  lemma UnguardedEndOverwrites(m: Match, result: Result, reason: EndReason)
    ensures Ended(m, result, reason) == m <==> !m.active && m.result == result && m.endReason == reason
  {}

  // ----- who wins, what is recorded -----

  /** The outcome of every way a match ends: the resigner loses, an accepted draw is a draw, the
      side to move loses on time whoever finds it, and a match that could not be announced is
      aborted. */
  lemma EndingsName(m: Match, user: int, move: Coords, now: int)
    requires m.active
    ensures var r := Next(m, Resign(user));
      r.result == (if user == m.red then BlackWins else RedWins) && r.endReason == Resigned && !r.active
    ensures var r := Next(m, AcceptDraw); r.result == Draw && r.endReason == Agreement && !r.active
    ensures var r := Next(m, Sweep(now));
      !r.active ==> r.result == (if m.turn == Red then BlackWins else RedWins) && r.endReason == Timeout
    ensures var r := Next(m, Move(user, move, now));
      !r.active ==> r.result == (if user == m.red then BlackWins else RedWins) && r.endReason == Timeout
    ensures var r := Announced(m, false); r.result == Aborted && r.endReason == NotifyFailed && !r.active
    ensures Announced(m, true) == m
  {}

  /** When a move message is answered how, in an ordered match. */
  lemma RepliesMean(m: Match, user: int, move: Coords, now: int)
    requires Coherent(m)
    ensures var reply := HandleMove(m, user, move, now).1;
      && (reply == NotYourTurn <==> (m.turn == Red) != (user == m.red))
      && (reply == TimeExpired <==>
            (m.turn == Red <==> user == m.red) && m.active && m.Clock(m.turn) - ElapsedMs(m, now) <= 0)
      && (reply == MoveAccepted <==>
            && (m.turn == Red <==> user == m.red)
            && m.active && 0 < m.Clock(m.turn) - ElapsedMs(m, now) && |m.moves| < 300)
  {}

  /** An accepted move is recorded with its coordinates, the time, and both clocks as they stand
      after the charge: the mover's shorter by the time taken, the other as it was. */
  lemma AcceptedIsRecorded(m: Match, user: int, move: Coords, now: int)
    requires Coherent(m) && HandleMove(m, user, move, now).1 == MoveAccepted
    ensures var r := Next(m, Move(user, move, now));
      var record := r.moves[|m.moves|];
      && |r.moves| == |m.moves| + 1 && r.moves[..|m.moves|] == m.moves
      && record.move == Stored(move) && record.timestamp == now == r.lastMoveAt
      && record.redTimeMs == r.redTimeMs == (if m.turn == Red then m.redTimeMs - ElapsedMs(m, now) else m.redTimeMs)
      && record.blackTimeMs == r.blackTimeMs
         == (if m.turn == Black then m.blackTimeMs - ElapsedMs(m, now) else m.blackTimeMs)
      && r.turn != m.turn && r.active
  {}

  // ----- clocks -----

  /** Seconds charged to a colour. */
  datatype Ledger = Ledger(red: int, black: int) {
    function Of(c: Color): int { if c.Red? then red else black }
    function Charge(c: Color, seconds: int): Ledger {
      if c.Red? then Ledger(red + seconds, black) else Ledger(red, black + seconds)
    }
  }

  /** A move message from the player to move charges the time since the last charge, whether or
      not the move is then accepted; nothing else charges anybody. */
  predicate Charging(m: Match, e: Step) {
    e.Move? && m.active && (m.turn.Red? <==> m.red == e.user)
  }

  function Charged(m: Match, e: Step, l: Ledger): Ledger {
    if Charging(m, e) then l.Charge(m.turn, e.now - m.lastMoveAt) else l
  }

  function Charges(m: Match, steps: seq<Step>): Ledger {
    if steps == [] then Ledger(0, 0)
    else
      var n := |steps| - 1;
      Charged(Run(m, steps[..n]), steps[n], Charges(m, steps[..n]))
  }

  ghost predicate Exact(m: Match, timeMs: int, l: Ledger) {
    && m.redTimeMs == timeMs - 1000 * l.red
    && m.blackTimeMs == timeMs - 1000 * l.black
    && l.red + l.black == m.lastMoveAt - m.startedAt
  }

  /** A charge the match survives is no longer than a 32-bit count of milliseconds can tell. */
  predicate Measured(m: Match, e: Step) {
    Charging(m, e) && Next(m, e).active ==> InRange(e.now - m.lastMoveAt)
  }

  /** One step keeps the clocks exact if and only if its charge is measured. */
  lemma ExactIffMeasured(m: Match, timeMs: int, e: Step, l: Ledger)
    requires Coherent(m) && (m.active ==> Exact(m, timeMs, l))
    ensures (Next(m, e).active ==> Exact(Next(m, e), timeMs, Charged(m, e, l))) <==> Measured(m, e)
  {
    if e.Move? {
      ElapsedIsExact(m, e.now);
    }
  }

  ghost predicate Timely(m: Match, steps: seq<Step>) {
    steps == [] ||
    (Timely(m, steps[..|steps| - 1]) && Measured(Run(m, steps[..|steps| - 1]), steps[|steps| - 1]))
  }

  /** In every state of the run in which the match is active. */
  ghost predicate AlwaysExact(m: Match, timeMs: int, steps: seq<Step>) {
    && (steps != [] ==> AlwaysExact(m, timeMs, steps[..|steps| - 1]))
    && (Run(m, steps).active ==> Exact(Run(m, steps), timeMs, Charges(m, steps)))
  }

  /** Exact clocks: throughout a run each clock of the active match is the initial time less 1000
      per second charged to its own turns, and all charges make up the time since the start, if
      and only if every charge the match survives is within 2147483 s either way. */
  lemma {:induction false} ClocksAreExact(m: Match, timeMs: int, steps: seq<Step>)
    requires Coherent(m) && m.active && m.redTimeMs == m.blackTimeMs == timeMs && m.lastMoveAt == m.startedAt
    ensures AlwaysExact(m, timeMs, steps) <==> Timely(m, steps)
  {
    if steps != [] {
      var before, e := steps[..|steps| - 1], steps[|steps| - 1];
      ClocksAreExact(m, timeMs, before);
      RunIsCoherent(m, before);
      if AlwaysExact(m, timeMs, before) {
        ExactIffMeasured(Run(m, before), timeMs, e, Charges(m, before));
      }
    }
  }

  /** A gap of 4294968 s, just under 50 days, counts as 704 ms: that much and no more is taken
      from the clock of the player to move, who is not timed out. */
  lemma LongGapWraps(m: Match, user: int, move: Coords)
    requires Coherent(m) && m.active && 704 < m.Clock(m.turn) && (m.turn.Red? <==> m.red == user)
    ensures var now := m.lastMoveAt + 4294968;
      && !TimedOut(m, now)
      && Next(m, Move(user, move, now)).Clock(m.turn) == m.Clock(m.turn) - 704
      && Next(m, Move(user, move, now)).active
  {}

  // ----- why the sweep keeps the clocks exact -----

  predicate Reads(e: Step) { e.Move? || e.Sweep? }

  /** The latest clock reading of a run, and the latest sweep; both are the start if there is none. */
  function LastReading(start: int, steps: seq<Step>): int {
    if steps == [] then start
    else if Reads(steps[|steps| - 1]) then steps[|steps| - 1].now
    else LastReading(start, steps[..|steps| - 1])
  }

  function LastSweep(start: int, steps: seq<Step>): int {
    if steps == [] then start
    else if steps[|steps| - 1].Sweep? then steps[|steps| - 1].now
    else LastSweep(start, steps[..|steps| - 1])
  }

  /** The clock never goes back, and nothing happens more than 2146883 s after a sweep. */
  predicate Paced(start: int, steps: seq<Step>) {
    steps == [] ||
    var before, e := steps[..|steps| - 1], steps[|steps| - 1];
    && Paced(start, before)
    && (Reads(e) ==> LastReading(start, before) <= e.now <= LastSweep(start, before) + 2146883)
  }

  const MAX_TIME_MS := 600000

  /** A match that a sweep let live was charged less than ten minutes before that sweep. */
  ghost predicate RecentlyCharged(m: Match, reading: int, sweep: int) {
    && m.redTimeMs <= MAX_TIME_MS && m.blackTimeMs <= MAX_TIME_MS
    && m.lastMoveAt <= reading && sweep - m.lastMoveAt < 600
  }

  lemma NextIsRecentlyCharged(m: Match, e: Step, reading: int, sweep: int)
    requires Coherent(m) && m.active && RecentlyCharged(m, reading, sweep) && sweep <= reading
    requires Reads(e) ==> reading <= e.now <= sweep + 2146883
    ensures Reads(e) ==> InRange(e.now - m.lastMoveAt)
    ensures Next(m, e).active ==>
      RecentlyCharged(Next(m, e), if Reads(e) then e.now else reading, if e.Sweep? then e.now else sweep)
  {
    if Reads(e) { ElapsedIsExact(m, e.now); }
  }

  /** The schedule alone keeps every charge measured. */
  lemma {:induction false} PacedIsTimely(m: Match, steps: seq<Step>)
    requires Coherent(m) && m.active && RecentlyCharged(m, m.startedAt, m.startedAt) && Paced(m.startedAt, steps)
    ensures LastSweep(m.startedAt, steps) <= LastReading(m.startedAt, steps)
    ensures Run(m, steps).active ==>
      RecentlyCharged(Run(m, steps), LastReading(m.startedAt, steps), LastSweep(m.startedAt, steps))
    ensures Timely(m, steps)
  {
    if steps != [] {
      var before, e := steps[..|steps| - 1], steps[|steps| - 1];
      PacedIsTimely(m, before);
      RunIsCoherent(m, before);
      var m1 := Run(m, before);
      NextIsCoherent(m1, e);
      if m1.active {
        NextIsRecentlyCharged(m1, e, LastReading(m.startedAt, before), LastSweep(m.startedAt, before));
      }
    }
  }

  /** With a sweep at least every 2146883 s, nearly 25 days, and at most ten minutes a side, the
      clocks are exact in every run: no gap is ever long enough to wrap. */
  lemma SweptClocksAreExact(m: Match, timeMs: int, steps: seq<Step>)
    requires Coherent(m) && m.active && m.redTimeMs == m.blackTimeMs == timeMs <= MAX_TIME_MS
    requires m.lastMoveAt == m.startedAt && Paced(m.startedAt, steps)
    ensures AlwaysExact(m, timeMs, steps) && (0 < timeMs ==> HasTime(Run(m, steps)))
  {
    PacedIsTimely(m, steps);
    ClocksAreExact(m, timeMs, steps);
    RunIsCoherent(m, steps);
  }

  /** So they are in every match as it is created with a positive time of up to ten minutes. */
  lemma CreatedClocksAreExact(id: string, red: int, black: int, rated: bool, timeMs: int, now: int, steps: seq<Step>)
    requires 0 < timeMs <= MAX_TIME_MS && Paced(now, steps)
    ensures AlwaysExact(Created(id, red, black, rated, timeMs, now), timeMs, steps)
    ensures HasTime(Run(Created(id, red, black, rated, timeMs, now), steps))
  {
    SweptClocksAreExact(Created(id, red, black, rated, timeMs, now), timeMs, steps);
  }

  // ----- the ways a timeout is found -----

  /** At one instant the check after an update, the bare check, the sweep and the timer view
      say the same about the side to move, and they name the same winner. */
  lemma TimeoutPathsAgree(m: Match, user: int, move: Coords, now: int)
    requires Coherent(m) && m.active
    requires RedToMove(m) <==> m.red == user
    ensures TimedOut(TimerUpdated(m, now), now) <==> TimedOut(m, now)
    ensures TimedOut(m, now) <==> !Swept(m, now).active
    ensures TimedOut(m, now) <==> (if m.turn.Red? then TimerView(m, now).0 else TimerView(m, now).1) == 0
    ensures TimedOut(m, now) <==> HandleMove(m, user, move, now).1 == TimeExpired
    ensures TimedOut(m, now) ==>
      && Swept(m, now).result == HandleMove(m, user, move, now).0.result == WinnerAgainst(m.turn)
      && Swept(m, now).result == (if m.turn == Red then BlackWins else RedWins)
      && Swept(m, now).endReason == HandleMove(m, user, move, now).0.endReason == Timeout
  {}

  /** The timer a client is shown is what an update at the same instant would store. */
  lemma TimerViewIsUpdate(m: Match, now: int)
    ensures TimerView(m, now) == (TimerUpdated(m, now).redTimeMs, TimerUpdated(m, now).blackTimeMs)
  {}
}
