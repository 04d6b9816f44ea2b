/** The match table of match.c: a static array of match records updated in place, searched
    linearly by id, swept for timeouts, with a queue of timeouts to announce. */
module MatchStores {
  import opened Options
  import opened Rules
  import opened Matches

  // ----- ids -----

  /** The decimal rendering of %d. */
  function Decimal(n: int): string
    decreases if n < 0 then 1 else 0, if n < 0 then -n else n
  {
    if n < 0 then "-" + Decimal(-n)
    else if n < 10 then [Digit(n)]
    else Decimal(n / 10) + [Digit(n % 10)]
  }

  function Digit(d: int): char
    requires 0 <= d < 10
  {
    "0123456789"[d]
  }

  function MatchId(count: int, now: int): string {
    "match_" + Decimal(count) + "_" + Decimal(now)
  }

  lemma {:induction false} DecimalHasNoUnderscore(n: nat)
    ensures Decimal(n) != [] && '_' !in Decimal(n)
  {
    if n >= 10 { DecimalHasNoUnderscore(n / 10); }
  }

  /** The number a string of digits denotes. */
  function Value(s: string): int {
    if s == [] then 0 else 10 * Value(s[..|s| - 1]) + (s[|s| - 1] as int - '0' as int)
  }

  /** The rendering denotes the number. */
  lemma {:induction false} DecimalDenotes(n: nat)
    ensures Value(Decimal(n)) == n
  {
    LastDigit(n);
    if n >= 10 { DecimalDenotes(n / 10); } else { assert Decimal(n)[..0] == []; }
  }

  lemma LastDigit(n: nat)
    ensures Decimal(n) != [] && Decimal(n)[|Decimal(n)| - 1] == Digit(n % 10)
    ensures if n < 10 then |Decimal(n)| == 1 else Decimal(n)[..|Decimal(n)| - 1] == Decimal(n / 10)
  {}

  lemma DigitIsInjective(c: int, d: int)
    requires 0 <= c < 10 && 0 <= d < 10 && Digit(c) == Digit(d)
    ensures c == d
  {}

  lemma {:induction false} DecimalIsInjective(n: nat, m: nat)
    requires Decimal(n) == Decimal(m)
    ensures n == m
  {
    LastDigit(n);
    LastDigit(m);
    DigitIsInjective(n % 10, m % 10);
    LastDigit(n / 10);
    LastDigit(m / 10);
    if n >= 10 && m >= 10 { DecimalIsInjective(n / 10, m / 10); }
  }

  lemma {:induction false} UpToUnderscore(a: string, a': string, b: string, b': string)
    requires '_' !in a && '_' !in a'
    requires a + "_" + b == a' + "_" + b'
    ensures a == a'
  {
    var s := a + "_" + b;
    assert s[|a|] == '_' && s[|a'|] == '_';
    assert forall k | 0 <= k < |a| :: s[k] == a[k];
    assert forall k | 0 <= k < |a'| :: s[k] == a'[k];
    assert a == s[..|a|] && a' == s[..|a'|];
  }

  /** Ids with different counters differ, whatever the clock said. */
  lemma MatchIdsDiffer(n: nat, m: nat, t: int, u: int)
    requires MatchId(n, t) == MatchId(m, u)
    ensures n == m
  {
    DecimalHasNoUnderscore(n);
    DecimalHasNoUnderscore(m);
    var a, b := Decimal(n) + "_" + Decimal(t), Decimal(m) + "_" + Decimal(u);
    assert MatchId(n, t)[6..] == a && MatchId(m, u)[6..] == b;
    UpToUnderscore(Decimal(n), Decimal(m), Decimal(t), Decimal(u));
    DecimalIsInjective(n, m);
  }

  ghost predicate Numbered(id: string, count: nat) {
    exists t :: id == MatchId(count, t)
  }

  // ----- the table as a value -----

  /** What a queued timeout tells the two players. */
  datatype TimeoutInfo = TimeoutInfo(id: string, result: Result, red: int, black: int)

  function InfoOf(m: Match): TimeoutInfo {
    TimeoutInfo(m.id, WinnerAgainst(m.turn), m.red, m.black)
  }

  /** The index of the first slot with the given id. */
  ghost predicate FirstWith(slots: seq<Match>, id: string, i: int) {
    0 <= i < |slots| && slots[i].id == id && forall k | 0 <= k < i :: slots[k].id != id
  }

  /** match_get on values: the first slot with the id, or -1. */
  ghost function IndexOf(slots: seq<Match>, id: string): (i: int)
    ensures -1 <= i < |slots|
    ensures i == -1 ==> forall k | 0 <= k < |slots| :: slots[k].id != id
    ensures i != -1 ==> FirstWith(slots, id, i)
  {
    if slots == [] then -1
    else
      var i := IndexOf(slots[..|slots| - 1], id);
      if i != -1 then i
      else if slots[|slots| - 1].id == id then |slots| - 1
      else -1
  }

  lemma IndexIsFirst(slots: seq<Match>, id: string, i: int)
    requires FirstWith(slots, id, i)
    ensures IndexOf(slots, id) == i
  {
    var j := IndexOf(slots, id);
    assert slots[i].id == id;
  }

  /** The match a guarded handler may end. */
  ghost function ActiveWith(slots: seq<Match>, id: string): Option<Match> {
    var i := IndexOf(slots, id);
    if i == -1 || !slots[i].active then None else Some(slots[i])
  }

  /** The table with the match of the given id, if any, replaced by its image. */
  ghost function Changed(slots: seq<Match>, id: string, f: Match -> Match): seq<Match> {
    var i := IndexOf(slots, id);
    if i == -1 then slots else slots[i := f(slots[i])]
  }

  /** The slots after a sweep, and the timeouts it finds in order. */
  function SweptSlots(slots: seq<Match>, now: int): seq<Match> {
    seq(|slots|, i requires 0 <= i < |slots| => Swept(slots[i], now))
  }

  function FoundTimeouts(slots: seq<Match>, now: int): seq<TimeoutInfo> {
    if slots == [] then []
    else
      var n := |slots| - 1;
      FoundTimeouts(slots[..n], now) + if TimedOut(slots[n], now) then [InfoOf(slots[n])] else []
  }

  function SweptUpTo(slots: seq<Match>, now: int, n: nat): seq<Match> {
    seq(|slots|, i requires 0 <= i < |slots| => if i < n then Swept(slots[i], now) else slots[i])
  }

  lemma SweptUpToNext(slots: seq<Match>, now: int, n: nat)
    requires n < |slots|
    ensures SweptUpTo(slots, now, n)[n] == slots[n]
    ensures SweptUpTo(slots, now, n + 1) == SweptUpTo(slots, now, n)[n := Swept(slots[n], now)]
  {}

  lemma FoundTimeoutsGrow(slots: seq<Match>, i: nat, now: int)
    requires i < |slots|
    ensures FoundTimeouts(slots[..i + 1], now) ==
            FoundTimeouts(slots[..i], now) + if TimedOut(slots[i], now) then [InfoOf(slots[i])] else []
  {
    assert slots[..i + 1][..i] == slots[..i];
  }

  /** Used slots are a prefix of the table; slot i carries the id made from count i + 1. */
  ghost predicate Table(slots: seq<Match>, count: nat) {
    && |slots| == MAX_MATCHES && count <= MAX_MATCHES
    && (forall i | 0 <= i < count :: Coherent(slots[i]) && Numbered(slots[i].id, i + 1))
    && (forall i | count <= i < MAX_MATCHES :: slots[i] == EMPTY_SLOT)
  }

  lemma IdsAreDistinct(slots: seq<Match>, count: nat, i: nat, j: nat)
    requires Table(slots, count) && i < count && j < count
    ensures slots[i].id != ""
    ensures slots[i].id == slots[j].id ==> i == j
  {
    var t :| slots[i].id == MatchId(i + 1, t);
    var u :| slots[j].id == MatchId(j + 1, u);
    if slots[i].id == slots[j].id {
      MatchIdsDiffer(i + 1, j + 1, t, u);
    }
  }

  /** A linear search for a created id finds its own slot, so the table is a map. */
  lemma SearchFindsOwnSlot(slots: seq<Match>, count: nat, i: nat)
    requires Table(slots, count) && i < count
    ensures FirstWith(slots, slots[i].id, i)
  {
    forall k | 0 <= k < i ensures slots[k].id != slots[i].id {
      IdsAreDistinct(slots, count, k, i);
    }
  }

  /** Entry k of the timeouts found so far tells of slot sources[k], a match over by timeout, as recorded there;
      no match is told of twice. */
  ghost predicate Queued(slots: seq<Match>, count: nat, found: seq<TimeoutInfo>, sources: seq<nat>)
    requires |slots| == MAX_MATCHES && count <= MAX_MATCHES
  {
    && |found| == |sources|
    && (forall k | 0 <= k < |sources| :: sources[k] < count && TellsOf(found[k], slots[sources[k]]))
    && Distinct(sources)
  }

  ghost predicate TellsOf(info: TimeoutInfo, m: Match) {
    !m.active && m.endReason == Timeout && info == TimeoutInfo(m.id, m.result, m.red, m.black)
  }

  ghost predicate Distinct(s: seq<nat>) {
    forall j, k | 0 <= j < k < |s| :: s[j] != s[k]
  }

  // ----- what one step keeps -----

  lemma StepKeepsTable(slots: seq<Match>, count: nat, found: seq<TimeoutInfo>, sources: seq<nat>, i: nat, e: Step)
    requires Table(slots, count) && Queued(slots, count, found, sources) && i < MAX_MATCHES
    ensures Table(slots[i := Next(slots[i], e)], count)
    ensures Queued(slots[i := Next(slots[i], e)], count, found, sources)
  {
    if i < count {
      NextIsCoherent(slots[i], e);
    } else {
      assert Next(EMPTY_SLOT, e) == EMPTY_SLOT;
    }
  }

  /** More than n distinct numbers do not fit below n. */
  lemma {:induction false} Pigeonhole(s: seq<nat>, n: nat)
    requires Distinct(s) && forall k | 0 <= k < |s| :: s[k] < n
    ensures |s| <= n
  {
    if s != [] {
      assert s[0] < n;
      if k :| 0 <= k < |s| && s[k] == n - 1 {
        Pigeonhole(s[..k] + s[k + 1..], n - 1);
      } else {
        Pigeonhole(s, n - 1);
      }
    }
  }

  /** A match about to be found out of time is not in the queue yet, and the queue has room for it. */
  lemma TimeoutIsNew(slots: seq<Match>, count: nat, found: seq<TimeoutInfo>, sources: seq<nat>, i: nat)
    requires Table(slots, count) && Queued(slots, count, found, sources) && i < count && slots[i].active
    ensures Distinct(sources + [i])
    ensures |found| < MAX_MATCHES
  {
    Pigeonhole(sources + [i], count);
  }

  lemma SuffixGrows<T>(s: seq<T>, n: nat, x: T)
    requires n <= |s|
    ensures (s + [x])[|s + [x]| - (n + 1)..] == s[|s| - n..] + [x]
  {}

  lemma QueueGrows(slots: seq<Match>, count: nat, found: seq<TimeoutInfo>, sources: seq<nat>, i: nat)
    requires |slots| == MAX_MATCHES && count <= MAX_MATCHES && i < count
    requires Queued(slots, count, found, sources) && Distinct(sources + [i])
    requires !slots[i].active && slots[i].endReason == Timeout && slots[i].result == WinnerAgainst(slots[i].turn)
    ensures Queued(slots, count, found + [InfoOf(slots[i])], sources + [i])
  {}

  /** Distinct sources have distinct ids, so no two timeouts found are of the same match. */
  lemma QueueHasNoDuplicates(slots: seq<Match>, count: nat, found: seq<TimeoutInfo>, sources: seq<nat>, j: nat, k: nat)
    requires Table(slots, count) && Queued(slots, count, found, sources) && j < k < |found|
    ensures found[j].id != found[k].id
  {
    IdsAreDistinct(slots, count, sources[j], sources[k]);
  }

  // ----- the whole table over time -----

  datatype Operation =
    | At(id: string, step: Step)
    | SweepAll(now: int)
    | Create(red: int, black: int, rated: bool, timeMs: int, now: int, notified: bool)

  datatype TableState = TableState(slots: seq<Match>, count: nat)

  ghost function Operate(t: TableState, op: Operation): TableState {
    match op
    case At(id, step) => t.(slots := Changed(t.slots, id, m => Next(m, step)))
    case SweepAll(now) => t.(slots := SweptSlots(t.slots, now))
    case Create(red, black, rated, timeMs, now, notified) =>
      if t.count < |t.slots|
      then TableState(
        t.slots[t.count := Announced(Created(MatchId(t.count + 1, now), red, black, rated, timeMs, now), notified)],
        t.count + 1)
      else t
  }

  ghost function Operated(ops: seq<Operation>): TableState {
    if ops == [] then TableState(seq(MAX_MATCHES, _ => EMPTY_SLOT), 0)
    else Operate(Operated(ops[..|ops| - 1]), ops[|ops| - 1])
  }

  /** Slot by slot, the used part of the table keeps its ids, and inactive matches as they are. */
  ghost predicate Preserves(slots: seq<Match>, slots': seq<Match>, count: nat) {
    && count <= |slots| == |slots'|
    && forall i | 0 <= i < count :: slots'[i].id == slots[i].id && (slots[i].active || slots'[i] == slots[i])
  }

  lemma SweepKeepsTable(slots: seq<Match>, count: nat, now: int)
    requires Table(slots, count)
    ensures Table(SweptSlots(slots, now), count) && Preserves(slots, SweptSlots(slots, now), count)
  {
    forall i | 0 <= i < count ensures Coherent(Swept(slots[i], now)) {
      NextIsCoherent(slots[i], Sweep(now));
    }
  }

  lemma StepPreserves(slots: seq<Match>, count: nat, i: nat, e: Step)
    requires Table(slots, count) && i < MAX_MATCHES
    ensures Table(slots[i := Next(slots[i], e)], count) && Preserves(slots, slots[i := Next(slots[i], e)], count)
  {
    StepKeepsTable(slots, count, [], [], i, e);
    if i < count { NextIsCoherent(slots[i], e); }
  }

  lemma OperateKeepsTable(t: TableState, op: Operation)
    requires Table(t.slots, t.count)
    ensures Table(Operate(t, op).slots, Operate(t, op).count)
    ensures t.count <= Operate(t, op).count && Preserves(t.slots, Operate(t, op).slots, t.count)
  {
    match op
    case At(id, step) =>
      var i := IndexOf(t.slots, id);
      if i != -1 { StepPreserves(t.slots, t.count, i, step); }
    case SweepAll(now) =>
      SweepKeepsTable(t.slots, t.count, now);
    case Create(red, black, rated, timeMs, now, notified) =>
      if t.count < MAX_MATCHES {
        CreatedIsCoherent(MatchId(t.count + 1, now), red, black, rated, timeMs, now, notified);
        CreateKeepsTable(t.slots, t.count, now,
          Announced(Created(MatchId(t.count + 1, now), red, black, rated, timeMs, now), notified));
      }
  }

  lemma CreateKeepsTable(slots: seq<Match>, count: nat, now: int, m: Match)
    requires Table(slots, count) && count < MAX_MATCHES && Coherent(m) && m.id == MatchId(count + 1, now)
    ensures Table(slots[count := m], count + 1) && Preserves(slots, slots[count := m], count)
  {
    assert Numbered(m.id, count + 1);
  }

  lemma RollbackKeepsTable(slots: seq<Match>, count: nat, found: seq<TimeoutInfo>, sources: seq<nat>, i: nat)
    requires Table(slots, count) && Queued(slots, count, found, sources) && i < count && slots[i].active
    ensures var slots' := slots[i := Ended(slots[i], Aborted, NotifyFailed)];
      Table(slots', count) && Queued(slots', count, found, sources)
  {}

  lemma LastOperationPreserves(ops: seq<Operation>)
    requires ops != []
    ensures var before := Operated(ops[..|ops| - 1]);
      before.count <= Operated(ops).count && Preserves(before.slots, Operated(ops).slots, before.count)
  {
    OperatedIsTable(ops[..|ops| - 1]);
    OperateKeepsTable(Operated(ops[..|ops| - 1]), ops[|ops| - 1]);
  }

  lemma {:induction false} SlotHistory(ops: seq<Operation>, more: seq<Operation>)
    ensures Operated(ops).count <= Operated(ops + more).count
    ensures Preserves(Operated(ops).slots, Operated(ops + more).slots, Operated(ops).count)
  {
    if more == [] {
      assert ops + more == ops;
      OperatedCount(ops);
    } else {
      var shorter, all := more[..|more| - 1], ops + more;
      assert all[..|all| - 1] == ops + shorter;
      SlotHistory(ops, shorter);
      LastOperationPreserves(all);
      HistoryGrows(Operated(ops), Operated(ops + shorter), Operated(all));
    }
  }

  lemma HistoryGrows(a: TableState, b: TableState, c: TableState)
    requires a.count <= b.count <= c.count
    requires Preserves(a.slots, b.slots, a.count) && Preserves(b.slots, c.slots, b.count)
    ensures a.count <= c.count && Preserves(a.slots, c.slots, a.count)
  {}

  lemma OperatedCount(ops: seq<Operation>)
    ensures Operated(ops).count <= |Operated(ops).slots|
  {
    OperatedIsTable(ops);
  }

  /** Over any sequence of operations on the table: a created match is found by its own id for
      ever after, and once inactive it is never touched again. */
  lemma TableHistory(ops: seq<Operation>, more: seq<Operation>, i: nat)
    requires i < Operated(ops).count
    ensures |Operated(ops).slots| == MAX_MATCHES && i < MAX_MATCHES && Operated(ops).slots[i].id != ""
    ensures IndexOf(Operated(ops + more).slots, Operated(ops).slots[i].id) == i
    ensures !Operated(ops).slots[i].active ==> Operated(ops + more).slots[i] == Operated(ops).slots[i]
  {
    SlotHistory(ops, more);
    OperatedIsTable(ops);
    OperatedIsTable(ops + more);
    IdsAreDistinct(Operated(ops).slots, Operated(ops).count, i, i);
    SearchFindsOwnSlot(Operated(ops + more).slots, Operated(ops + more).count, i);
    IndexIsFirst(Operated(ops + more).slots, Operated(ops).slots[i].id, i);
  }

  lemma {:induction false} OperatedIsTable(ops: seq<Operation>)
    ensures Table(Operated(ops).slots, Operated(ops).count)
  {
    if ops != [] {
      OperatedIsTable(ops[..|ops| - 1]);
      OperateKeepsTable(Operated(ops[..|ops| - 1]), ops[|ops| - 1]);
    }
  }

  // ----- every timeout found over time -----

  /** The slots whose matches a sweep finds out of time, in order. */
  function FoundSlots(slots: seq<Match>, now: int): seq<nat> {
    if slots == [] then []
    else
      var n := |slots| - 1;
      FoundSlots(slots[..n], now) + if TimedOut(slots[n], now) then [n] else []
  }

  function FoundBy(t: TableState, op: Operation): seq<TimeoutInfo> {
    if op.SweepAll? then FoundTimeouts(t.slots, op.now) else []
  }

  function SlotsBy(t: TableState, op: Operation): seq<nat> {
    if op.SweepAll? then FoundSlots(t.slots, op.now) else []
  }

  /** Everything that is ever queued, over all sweeps, however often the queue is emptied. */
  ghost function AllFound(ops: seq<Operation>): seq<TimeoutInfo> {
    if ops == [] then []
    else AllFound(ops[..|ops| - 1]) + FoundBy(Operated(ops[..|ops| - 1]), ops[|ops| - 1])
  }

  ghost function AllSlots(ops: seq<Operation>): seq<nat> {
    if ops == [] then []
    else AllSlots(ops[..|ops| - 1]) + SlotsBy(Operated(ops[..|ops| - 1]), ops[|ops| - 1])
  }

  /** f are slots of running matches out of time, in increasing order, and infos tell of them. */
  ghost predicate Finds(slots: seq<Match>, now: int, f: seq<nat>, infos: seq<TimeoutInfo>) {
    && |f| == |infos|
    && (forall k | 0 <= k < |f| :: f[k] < |slots| && TimedOut(slots[f[k]], now) && infos[k] == InfoOf(slots[f[k]]))
    && (forall j, k | 0 <= j < k < |f| :: f[j] < f[k])
  }

  lemma FindsGrows(slots: seq<Match>, now: int, f: seq<nat>, infos: seq<TimeoutInfo>, m: Match)
    requires Finds(slots, now, f, infos)
    ensures Finds(slots + [m], now, f, infos)
    ensures TimedOut(m, now) ==> Finds(slots + [m], now, f + [|slots|], infos + [InfoOf(m)])
  {}

  lemma {:induction false} FoundSlotsTell(slots: seq<Match>, now: int)
    ensures Finds(slots, now, FoundSlots(slots, now), FoundTimeouts(slots, now))
  {
    if slots != [] {
      var n := |slots| - 1;
      FoundSlotsTell(slots[..n], now);
      FindsGrows(slots[..n], now, FoundSlots(slots[..n], now), FoundTimeouts(slots[..n], now), slots[n]);
      assert slots == slots[..n] + [slots[n]];
    }
  }

  lemma {:induction false} SweepFindsAll(slots: seq<Match>, now: int, i: nat)
    requires i < |slots|
    ensures i in FoundSlots(slots, now) <==> TimedOut(slots[i], now)
  {
    if i < |slots| - 1 {
      SweepFindsAll(slots[..|slots| - 1], now, i);
    } else {
      FoundSlotsTell(slots[..i], now);
    }
  }

  lemma QueueExtends(slots: seq<Match>, slots': seq<Match>, count: nat, found: seq<TimeoutInfo>, sources: seq<nat>,
                     infos: seq<TimeoutInfo>, f: seq<nat>)
    requires |slots| == |slots'| == MAX_MATCHES && count <= MAX_MATCHES && Queued(slots, count, found, sources)
    requires forall i | 0 <= i < MAX_MATCHES && !slots[i].active :: slots'[i] == slots[i]
    requires |f| == |infos| && Distinct(f)
    requires forall k | 0 <= k < |f| :: f[k] < count && slots[f[k]].active && TellsOf(infos[k], slots'[f[k]])
    ensures Queued(slots', count, found + infos, sources + f)
  {
    forall j, k | 0 <= j < |sources| && 0 <= k < |f| ensures sources[j] != f[k] {
      assert TellsOf(found[j], slots[sources[j]]);
    }
    forall k | 0 <= k < |sources| ensures TellsOf(found[k], slots'[sources[k]]) {
      assert TellsOf(found[k], slots[sources[k]]);
    }
  }

  lemma SweptTells(m: Match, now: int)
    ensures TimedOut(m, now) ==> m.active && m != EMPTY_SLOT && TellsOf(InfoOf(m), Swept(m, now))
    ensures !m.active ==> Swept(m, now) == m
  {}

  lemma SweepQueues(slots: seq<Match>, count: nat, found: seq<TimeoutInfo>, sources: seq<nat>, now: int)
    requires Table(slots, count) && Queued(slots, count, found, sources)
    ensures Queued(SweptSlots(slots, now), count, found + FoundTimeouts(slots, now), sources + FoundSlots(slots, now))
  {
    var f, infos, swept := FoundSlots(slots, now), FoundTimeouts(slots, now), SweptSlots(slots, now);
    FoundSlotsTell(slots, now);
    forall i | 0 <= i < MAX_MATCHES && !slots[i].active ensures swept[i] == slots[i] {
      SweptTells(slots[i], now);
    }
    forall k | 0 <= k < |f| ensures f[k] < count && slots[f[k]].active && TellsOf(infos[k], swept[f[k]]) {
      SweptTells(slots[f[k]], now);
    }
    QueueExtends(slots, swept, count, found, sources, infos, f);
  }

  lemma OperationQueues(t: TableState, op: Operation, found: seq<TimeoutInfo>, sources: seq<nat>)
    requires Table(t.slots, t.count) && Queued(t.slots, t.count, found, sources)
    ensures var t' := Operate(t, op);
      && |t'.slots| == MAX_MATCHES && t'.count <= MAX_MATCHES
      && Queued(t'.slots, t'.count, found + FoundBy(t, op), sources + SlotsBy(t, op))
  {
    OperateKeepsTable(t, op);
    if op.SweepAll? {
      SweepQueues(t.slots, t.count, found, sources, op.now);
    } else {
      assert found + [] == found && sources + [] == sources;
      if op.At? {
        var i := IndexOf(t.slots, op.id);
        if i != -1 { StepKeepsTable(t.slots, t.count, found, sources, i, op.step); }
      }
    }
  }

  /** Each timeout ever queued tells of its own slot, as it stands recorded at the end; at most
      500 ever are. */
  lemma {:induction false} AllFoundAreQueued(ops: seq<Operation>)
    ensures Table(Operated(ops).slots, Operated(ops).count)
    ensures Queued(Operated(ops).slots, Operated(ops).count, AllFound(ops), AllSlots(ops))
    ensures |AllFound(ops)| <= MAX_MATCHES
  {
    OperatedIsTable(ops);
    if ops != [] {
      var before := ops[..|ops| - 1];
      AllFoundAreQueued(before);
      OperationQueues(Operated(before), ops[|ops| - 1], AllFound(before), AllSlots(before));
    }
    Pigeonhole(AllSlots(ops), Operated(ops).count);
  }

  /** Over any sequence of operations no match is queued twice for its timeout, whether or not the
      queue was emptied in between. */
  lemma QueuedOnce(ops: seq<Operation>, j: nat, k: nat)
    requires j < k < |AllFound(ops)|
    ensures AllFound(ops)[j].id != AllFound(ops)[k].id
  {
    AllFoundAreQueued(ops);
    QueueHasNoDuplicates(Operated(ops).slots, Operated(ops).count, AllFound(ops), AllSlots(ops), j, k);
  }

  // ----- the table as an object -----

  /** The table is in order, and the queue holds the latest of the timeouts found so far. */
  ghost predicate Kept(slots: seq<Match>, count: nat, pending: seq<TimeoutInfo>, found: seq<TimeoutInfo>,
                       sources: seq<nat>) {
    && Table(slots, count) && Queued(slots, count, found, sources)
    && |pending| <= |found| && pending == found[|found| - |pending|..]
  }

  lemma EmptyIsKept(slots: seq<Match>)
    requires |slots| == MAX_MATCHES && forall i | 0 <= i < MAX_MATCHES :: slots[i] == EMPTY_SLOT
    ensures Kept(slots, 0, [], [], [])
  {}

  lemma StepIsKept(slots: seq<Match>, count: nat, pending: seq<TimeoutInfo>, found: seq<TimeoutInfo>, sources: seq<nat>,
                   i: nat, e: Step)
    requires Kept(slots, count, pending, found, sources) && i < MAX_MATCHES
    ensures Kept(slots[i := Next(slots[i], e)], count, pending, found, sources)
  {
    StepKeepsTable(slots, count, found, sources, i, e);
  }

  lemma CreatedIsKept(slots: seq<Match>, count: nat, pending: seq<TimeoutInfo>, found: seq<TimeoutInfo>,
                      sources: seq<nat>, now: int, m: Match)
    requires Kept(slots, count, pending, found, sources) && count < MAX_MATCHES
    requires Coherent(m) && m.id == MatchId(count + 1, now)
    ensures Kept(slots[count := m], count + 1, pending, found, sources)
  {
    CreateKeepsTable(slots, count, now, m);
  }

  lemma RollbackIsKept(slots: seq<Match>, count: nat, pending: seq<TimeoutInfo>, found: seq<TimeoutInfo>,
                       sources: seq<nat>, i: nat)
    requires Kept(slots, count, pending, found, sources) && i < count && slots[i].active
    ensures Kept(slots[i := Ended(slots[i], Aborted, NotifyFailed)], count, pending, found, sources)
  {
    RollbackKeepsTable(slots, count, found, sources, i);
  }

  /** Queueing the timeout of slot i, which has just been recorded. */
  lemma QueueingIsKept(slots: seq<Match>, count: nat, pending: seq<TimeoutInfo>, found: seq<TimeoutInfo>,
                       sources: seq<nat>, i: nat)
    requires Kept(slots, count, pending, found, sources) && i < count && Distinct(sources + [i])
    requires !slots[i].active && slots[i].endReason == Timeout && slots[i].result == WinnerAgainst(slots[i].turn)
    ensures Kept(slots, count, pending + [InfoOf(slots[i])], found + [InfoOf(slots[i])], sources + [i])
  {
    QueueGrows(slots, count, found, sources, i);
    SuffixGrows(found, |pending|, InfoOf(slots[i]));
  }

  class MatchStore {
    const matches: array<Match>
    const pendingTimeouts: array<TimeoutInfo>
    var matchCount: nat
    var pendingTimeoutCount: nat
    /** Every timeout queued since the start, handed out or not, and the slots they come from. */
    ghost var found: seq<TimeoutInfo>
    ghost var sources: seq<nat>

    ghost predicate Valid()
      reads this, matches, pendingTimeouts
    {
      && matches.Length == MAX_MATCHES && pendingTimeouts.Length == MAX_MATCHES
      && pendingTimeoutCount <= MAX_MATCHES
      && Kept(matches[..], matchCount, Pending(), found, sources)
    }

    ghost function Pending(): seq<TimeoutInfo>
      requires pendingTimeoutCount <= pendingTimeouts.Length
      reads this, pendingTimeouts
    {
      pendingTimeouts[..pendingTimeoutCount]
    }

    constructor ()
      ensures Valid() && matchCount == 0 && Pending() == [] && found == []
      ensures forall i | 0 <= i < MAX_MATCHES :: matches[i] == EMPTY_SLOT
      ensures fresh(matches) && fresh(pendingTimeouts)
    {
      matches := new Match[MAX_MATCHES](i => EMPTY_SLOT);
      pendingTimeouts := new TimeoutInfo[MAX_MATCHES](i => TimeoutInfo("", Ongoing, 0, 0));
      matchCount, pendingTimeoutCount, found, sources := 0, 0, [], [];
      new;
      EmptyIsKept(matches[..]);
    }
  
    /** match_get: linear search for the first slot with the id, or -1. */
    method MatchGet(id: string) returns (i: int)
      ensures i == IndexOf(matches[..], id)
    {
      for k := 0 to matches.Length
        invariant forall j | 0 <= j < k :: matches[j].id != id
      {
        if matches[k].id == id {
          IndexIsFirst(matches[..], id, k);
          return k;
        }
      }
      return -1;
    }

    method MatchCreate(red: int, black: int, rated: bool, timeMs: int, now: int) returns (id: string)
      requires Valid()
      modifies this`matchCount, matches
      ensures Valid() && Pending() == old(Pending())
      ensures old(matchCount) == MAX_MATCHES ==>
        id == "" && matches[..] == old(matches[..]) && matchCount == old(matchCount)
      ensures old(matchCount) < MAX_MATCHES ==>
        && id == MatchId(old(matchCount) + 1, now) && matchCount == old(matchCount) + 1
        && matches[..] == old(matches[..])[old(matchCount) := Created(id, red, black, rated, timeMs, now)]
        && FirstWith(matches[..], id, old(matchCount))
    {
      if matchCount >= MAX_MATCHES { return ""; }
      ghost var slots, n := matches[..], matchCount;
      var slot := FindEmptySlot();
      matchCount := matchCount + 1;
      id := MatchId(matchCount, now);
      CreatedIsKept(slots, n, Pending(), found, sources, now, Created(id, red, black, rated, timeMs, now));
      matches[slot] := Created(id, red, black, rated, timeMs, now);
      assert matches[..] == slots[n := Created(id, red, black, rated, timeMs, now)];
      SearchFindsOwnSlot(matches[..], matchCount, slot);
    }

    /** The first unused slot follows the used ones. */
    method FindEmptySlot() returns (slot: nat)
      requires Valid() && matchCount < MAX_MATCHES
      ensures slot == matchCount
    {
      slot := 0;
      while slot < MAX_MATCHES
        invariant 0 <= slot <= matchCount
      {
        if !matches[slot].active && matches[slot].id == "" { break; }
        IdsAreDistinct(matches[..], matchCount, slot, slot);
        slot := slot + 1;
      }
    }

    /** match_end as it is: no guard, any outcome may be overwritten. */
    method MatchEnd(id: string, result: Result, reason: EndReason) returns (ok: bool)
      modifies matches
      ensures ok == (IndexOf(old(matches[..]), id) != -1)
      ensures matches[..] == Changed(old(matches[..]), id, m => Ended(m, result, reason))
    {
      var i := MatchGet(id);
      if i == -1 { return false; }
      matches[i] := matches[i].(active := false);
      matches[i] := matches[i].(result := result);
      matches[i] := matches[i].(endReason := reason);
      return true;
    }

    method MatchUpdateTimer(id: string, now: int) returns (ok: bool)
      modifies matches
      ensures matches[..] == Changed(old(matches[..]), id, m => TimerUpdated(m, now))
    {
      var i := MatchGet(id);
      if i == -1 || !matches[i].active { return false; }
      var elapsedMs := Int32((now - matches[i].lastMoveAt) * 1000);
      if matches[i].turn == Red {
        matches[i] := matches[i].(redTimeMs := matches[i].redTimeMs - elapsedMs);
        if matches[i].redTimeMs < 0 { matches[i] := matches[i].(redTimeMs := 0); }
      } else {
        matches[i] := matches[i].(blackTimeMs := matches[i].blackTimeMs - elapsedMs);
        if matches[i].blackTimeMs < 0 { matches[i] := matches[i].(blackTimeMs := 0); }
      }
      matches[i] := matches[i].(lastMoveAt := now);
      return true;
    }

    method MatchCheckTimeout(id: string, now: int) returns (timeout: bool)
      ensures timeout == (IndexOf(matches[..], id) != -1 && TimedOut(matches[IndexOf(matches[..], id)], now))
    {
      var i := MatchGet(id);
      if i == -1 || !matches[i].active { return false; }
      var elapsedMs := Int32((now - matches[i].lastMoveAt) * 1000);
      if matches[i].turn == Red {
        return matches[i].redTimeMs - elapsedMs <= 0;
      } else {
        return matches[i].blackTimeMs - elapsedMs <= 0;
      }
    }

    method MatchAddMove(id: string, move: MoveRecord, now: int) returns (ok: bool)
      modifies matches
      ensures ok == (IndexOf(old(matches[..]), id) != -1 && Addable(old(matches[IndexOf(matches[..], id)])))
      ensures matches[..] == Changed(old(matches[..]), id, m => MoveAdded(m, move, now))
    {
      var i := MatchGet(id);
      if i == -1 || !matches[i].active { return false; }
      if |matches[i].moves| >= MAX_MOVES_PER_MATCH { return false; }
      matches[i] := matches[i].(moves := matches[i].moves + [move], lastMoveAt := now);
      matches[i] := matches[i].(turn := if matches[i].turn == Red then Black else Red);
      return true;
    }

    // ----- the handlers' part in the table -----

    /** The part of handle_move after the turn check: charge, test for a timeout, log the move.
        The record found first is kept at hand while the helpers search for it again. */
    method ChargeAndLog(i: int, id: string, user: int, move: Coords, now: int) returns (reply: MoveReply)
      requires FirstWith(matches[..], id, i)
      requires RedToMove(matches[i]) == (matches[i].red == user)
      modifies matches
      ensures matches[..] == old(matches[..])[i := Matches.HandleMove(old(matches[i]), user, move, now).0]
      ensures reply == Matches.HandleMove(old(matches[i]), user, move, now).1
    {
      ghost var m := matches[i];
      IndexIsFirst(matches[..], id, i);
      var updated := MatchUpdateTimer(id, now);
      assert matches[..] == old(matches[..])[i := TimerUpdated(m, now)];
      IndexIsFirst(matches[..], id, i);
      var timeout := MatchCheckTimeout(id, now);
      if timeout {
        var ended := MatchEnd(id, if matches[i].red == user then BlackWins else RedWins, Timeout);
        return TimeExpired;
      }
      var record := MoveRecord(Stored(move), now, matches[i].redTimeMs, matches[i].blackTimeMs);
      var added := MatchAddMove(id, record, now);
      return if added then MoveAccepted else FailedToAdd;
    }

    /** handle_move from the look-up on. No reply stands for "Match not found". */
    method HandleMove(id: string, user: int, move: Coords, now: int) returns (reply: Option<MoveReply>)
      requires Valid()
      modifies matches
      ensures Valid() && Pending() == old(Pending())
      ensures matches[..] == Changed(old(matches[..]), id, m => Next(m, Move(user, move, now)))
      ensures var i := IndexOf(old(matches[..]), id);
        reply == if i == -1 then None else Some(Matches.HandleMove(old(matches[..])[i], user, move, now).1)
    {
      var i := MatchGet(id);
      if i == -1 { return None; }
      StepIsKept(matches[..], matchCount, Pending(), found, sources, i, Move(user, move, now));
      var isRedTurn := |matches[i].moves| % 2 == 0;
      var isRedPlayer := matches[i].red == user;
      if isRedTurn != isRedPlayer { return Some(NotYourTurn); }
      var r := ChargeAndLog(i, id, user, move, now);
      return Some(r);
    }

    /** The guarded ending of handle_resign. The record it was given back ended is the old one. */
    method EndByResignation(id: string, user: int) returns (ended: Option<Match>)
      requires Valid()
      modifies matches
      ensures Valid() && Pending() == old(Pending())
      ensures matches[..] == Changed(old(matches[..]), id, m => Next(m, Resign(user)))
      ensures ended == ActiveWith(old(matches[..]), id)
    {
      var i := MatchGet(id);
      if i == -1 || !matches[i].active { return None; }
      ended := Some(matches[i]);
      StepIsKept(matches[..], matchCount, Pending(), found, sources, i, Resign(user));
      var ok := MatchEnd(id, if matches[i].red == user then BlackWins else RedWins, Resigned);
    }

    /** The guarded ending of handle_draw_response, when the draw is accepted. */
    method EndByAgreement(id: string) returns (ended: Option<Match>)
      requires Valid()
      modifies matches
      ensures Valid() && Pending() == old(Pending())
      ensures matches[..] == Changed(old(matches[..]), id, m => Next(m, AcceptDraw))
      ensures ended == ActiveWith(old(matches[..]), id)
    {
      var i := MatchGet(id);
      if i == -1 || !matches[i].active { return None; }
      ended := Some(matches[i]);
      StepIsKept(matches[..], matchCount, Pending(), found, sources, i, AcceptDraw);
      var ok := MatchEnd(id, Draw, Agreement);
    }

    /** The creation and rollback of handle_find_match; the rollback meets no other step. */
    method CreateAndNotify(red: int, black: int, rated: bool, timeMs: int, now: int, notified: bool)
      returns (id: string)
      requires Valid() && matchCount < MAX_MATCHES
      modifies this`matchCount, matches
      ensures Valid() && Pending() == old(Pending()) && matchCount == old(matchCount) + 1
      ensures id == MatchId(matchCount, now)
      ensures matches[..] == old(matches[..])[old(matchCount) :=
        Announced(Created(id, red, black, rated, timeMs, now), notified)]
    {
      id := MatchCreate(red, black, rated, timeMs, now);
      if !notified { RollBack(id, matchCount - 1); }
    }

    method RollBack(id: string, ghost i: nat)
      requires Valid() && i < matchCount && FirstWith(matches[..], id, i) && matches[i].active
      modifies matches
      ensures Valid() && Pending() == old(Pending())
      ensures matches[..] == old(matches[..])[i := Ended(old(matches[i]), Aborted, NotifyFailed)]
    {
      IndexIsFirst(matches[..], id, i);
      RollbackIsKept(matches[..], matchCount, Pending(), found, sources, i);
      var ok := MatchEnd(id, Aborted, NotifyFailed);
    }

    // ----- the sweep -----

    method SweepSlot(i: int, now: int)
      requires Valid() && 0 <= i < MAX_MATCHES
      modifies this`pendingTimeoutCount, this`found, this`sources, matches, pendingTimeouts
      ensures Valid()
      ensures matches[..] == old(matches[..])[i := Swept(old(matches[i]), now)]
      ensures Pending() == old(Pending()) + if TimedOut(old(matches[i]), now) then [InfoOf(old(matches[i]))] else []
      ensures found == old(found) + if TimedOut(old(matches[i]), now) then [InfoOf(old(matches[i]))] else []
    {
      StepIsKept(matches[..], matchCount, Pending(), found, sources, i, Sweep(now));
      if !matches[i].active { return; }
      var timeout, winner := OutOfTime(i, now);
      if timeout {
        TimeoutIsNew(matches[..], matchCount, found, sources, i);
        ghost var m := matches[i];
        matches[i] := matches[i].(active := false, result := winner, endReason := Timeout);
        assert matches[i] == Swept(m, now) && InfoOf(matches[i]) == InfoOf(m);
        assert matches[..] == old(matches[..])[i := Next(m, Sweep(now))];
        QueueTimeout(i, winner);
      }
    }

    method OutOfTime(i: nat, now: int) returns (timeout: bool, winner: Result)
      requires i < matches.Length && matches[i].active
      ensures timeout == TimedOut(matches[i], now)
      ensures timeout ==> winner == WinnerAgainst(matches[i].turn)
    {
      timeout, winner := false, Ongoing;
      var elapsedMs := Int32((now - matches[i].lastMoveAt) * 1000);
      if matches[i].turn == Red {
        if matches[i].redTimeMs - elapsedMs <= 0 { timeout, winner := true, BlackWins; }
      } else {
        if matches[i].blackTimeMs - elapsedMs <= 0 { timeout, winner := true, RedWins; }
      }
    }

    method QueueTimeout(i: nat, winner: Result)
      requires Valid() && i < matchCount && Distinct(sources + [i]) && |found| < MAX_MATCHES
      requires !matches[i].active && matches[i].endReason == Timeout
      requires matches[i].result == winner == WinnerAgainst(matches[i].turn)
      modifies this`pendingTimeoutCount, this`found, this`sources, pendingTimeouts
      ensures Valid()
      ensures Pending() == old(Pending()) + [InfoOf(matches[i])] && found == old(found) + [InfoOf(matches[i])]
    {
      ghost var slots, info := matches[..], InfoOf(matches[i]);
      QueueingIsKept(slots, matchCount, Pending(), found, sources, i);
      if pendingTimeoutCount < MAX_MATCHES {
        Push(TimeoutInfo(matches[i].id, winner, matches[i].red, matches[i].black));
      }
      assert matches[..] == slots;
      found, sources := found + [info], sources + [i];
    }

    method Push(info: TimeoutInfo)
      requires pendingTimeoutCount < pendingTimeouts.Length
      modifies this`pendingTimeoutCount, pendingTimeouts
      ensures pendingTimeoutCount == old(pendingTimeoutCount) + 1 <= pendingTimeouts.Length
      ensures Pending() == old(Pending()) + [info]
    {
      pendingTimeouts[pendingTimeoutCount] := info;
      pendingTimeoutCount := pendingTimeoutCount + 1;
    }

    /** match_check_all_timeouts: every slot is swept, and every timeout found is queued, in order. */
    method MatchCheckAllTimeouts(now: int)
      requires Valid()
      modifies this`pendingTimeoutCount, this`found, this`sources, matches, pendingTimeouts
      ensures Valid()
      ensures matches[..] == SweptSlots(old(matches[..]), now)
      ensures Pending() == old(Pending()) + FoundTimeouts(old(matches[..]), now)
      ensures found == old(found) + FoundTimeouts(old(matches[..]), now)
    {
      ghost var slots, queue, before := matches[..], Pending(), found;
      assert SweptUpTo(slots, now, 0) == slots;
      for i := 0 to MAX_MATCHES
        invariant Valid()
        invariant matches[..] == SweptUpTo(slots, now, i)
        invariant Pending() == queue + FoundTimeouts(slots[..i], now)
        invariant found == before + FoundTimeouts(slots[..i], now)
      {
        SweepNext(i, now, slots, queue, before);
      }
      assert slots[..MAX_MATCHES] == slots;
      assert SweptUpTo(slots, now, MAX_MATCHES) == SweptSlots(slots, now);
    }

    /** One round of the sweep, told from the start of the sweep. */
    method SweepNext(i: nat, now: int, ghost slots: seq<Match>, ghost queue: seq<TimeoutInfo>,
                     ghost before: seq<TimeoutInfo>)
      requires Valid() && i < MAX_MATCHES == |slots|
      requires matches[..] == SweptUpTo(slots, now, i)
      requires Pending() == queue + FoundTimeouts(slots[..i], now) && found == before + FoundTimeouts(slots[..i], now)
      modifies this`pendingTimeoutCount, this`found, this`sources, matches, pendingTimeouts
      ensures Valid() && matches[..] == SweptUpTo(slots, now, i + 1)
      ensures Pending() == queue + FoundTimeouts(slots[..i + 1], now)
      ensures found == before + FoundTimeouts(slots[..i + 1], now)
    {
      FoundTimeoutsGrow(slots, i, now);
      SweptUpToNext(slots, now, i);
      assert matches[i] == matches[..][i];
      SweepSlot(i, now);
    }

    /** Hands out the oldest queued timeouts, at most maxCount, and forgets the rest. */
    method MatchGetPendingTimeouts(maxCount: nat) returns (timeouts: seq<TimeoutInfo>)
      requires Valid()
      modifies this`pendingTimeoutCount
      ensures Valid() && Pending() == [] && found == old(found)
      ensures timeouts == old(Pending())[..if |old(Pending())| < maxCount then |old(Pending())| else maxCount]
    {
      var count := if pendingTimeoutCount < maxCount then pendingTimeoutCount else maxCount;
      timeouts := [];
      for i := 0 to count
        invariant timeouts == Pending()[..i]
      {
        timeouts := timeouts + [pendingTimeouts[i]];
      }
      pendingTimeoutCount := 0;
    }
  }
}
