/** The pending-request table of src/network/websocketBridge.js: sequence numbers, handlers kept
    by number, one timer per waiting request, and the settling of the promises. Messages, timers
    and socket events arrive in any order, as the steps below. */
module Bridges {
  import opened Options


  /** A call of resolve or reject on the promise of the request with this number. */
  datatype Settlement = Settlement(number: nat, resolved: bool)

  /** issued and settled are history: the numbers given out and the settling calls, in order.
      waiting are the numbers issued by sendAndWait. */
  datatype Bridge = Bridge(
    connected: bool, open: bool, seqCounter: nat,
    pending: seq<nat>, timers: set<nat>,
    issued: seq<nat>, waiting: set<nat>, settled: seq<Settlement>)

  const INITIAL := Bridge(false, false, 1, [], {}, [], {}, [])

  /** Map.delete: the other entries stay in insertion order. */
  function Deleted(pending: seq<nat>, n: nat): (rest: seq<nat>)
    ensures |rest| <= |pending| && (n in pending ==> |rest| < |pending|)
  {
    if pending == [] then []
    else Deleted(pending[..|pending| - 1], n) + if pending[|pending| - 1] == n then [] else [pending[|pending| - 1]]
  }

  /** How the attempt to put a request on the wire goes: the payload may have no JSON form, and
      the send on the socket may throw. */
  datatype Attempt = Sent | SendThrows | NoJson

  datatype Step =
    | Opened
    | Closing
    | Send
    | SendAndWait(attempt: Attempt)
    | Message(reply: int, noOpponent: bool, failure: bool)
    | TimerFires(number: nat)
    | SocketError
    | SocketClosed
    | Disconnect

  function Settled(b: Bridge, n: nat, resolved: bool): Bridge {
    b.(pending := Deleted(b.pending, n), timers := b.timers - {n}, settled := b.settled + [Settlement(n, resolved)])
  }

  function Issued(b: Bridge): Bridge {
    b.(issued := b.issued + [b.seqCounter], seqCounter := b.seqCounter + 1)
  }

  /** The handler and the timer are in place before anything is sent. */
  function Registered(b: Bridge): Bridge {
    var n := b.seqCounter;
    Issued(b).(pending := b.pending + [n], timers := b.timers + {n}, waiting := b.waiting + {n})
  }

  /** _rejectAllPending: the handlers are rejected in insertion order, then the table is cleared. */
  function AllRejected(b: Bridge): Bridge
    decreases |b.pending|
  {
    if b.pending == [] then b
    else
      AllRejected(Settled(b, b.pending[0], false))
  }

  function Next(b: Bridge, e: Step): Bridge {
    match e
    case Opened => b.(connected := true, open := true)
    case Closing => b.(open := false)
    case Send => if b.connected then Issued(b) else b
    case SendAndWait(attempt) =>
      if !b.connected || !b.open then b
      else
        var n := b.seqCounter;
        var b1 := Registered(b);
        (match attempt
         case Sent => b1
         case SendThrows => Settled(b1, n, false)
         case NoJson => b1.(settled := b1.settled + [Settlement(n, false)]))
    case Message(n, noOpponent, failure) =>
      if noOpponent || n == 0 || n !in b.pending then b else Settled(b, n, !failure)
    case TimerFires(n) =>
      if n in b.timers then Settled(b, n, false) else b
    case SocketError => AllRejected(b)
    case SocketClosed => AllRejected(b.(connected := false, open := false))
    case Disconnect => b.(connected := false, open := false, pending := [])
  }

  // ----- the invariant -----

  ghost predicate Increasing(s: seq<nat>, below: nat) {
    && (forall i, j | 0 <= i < j < |s| :: s[i] < s[j])
    && (forall i | 0 <= i < |s| :: s[i] < below)
  }

  ghost predicate HasSettled(b: Bridge, n: nat) {
    exists k :: 0 <= k < |b.settled| && b.settled[k].number == n
  }

  ghost predicate Unsettled(b: Bridge, n: nat) {
    n in b.waiting && !HasSettled(b, n)
  }

  ghost predicate Valid(b: Bridge) {
    && 0 < b.seqCounter
    && Increasing(b.issued, b.seqCounter)
    && (forall n <- b.waiting :: n in b.issued && n != 0)
    && (forall n <- b.pending :: n in b.timers)
    && (forall n :: n in b.timers <==> Unsettled(b, n))
    && (forall k | 0 <= k < |b.settled| :: b.settled[k].number in b.waiting)
    && (forall j, k | 0 <= j < k < |b.settled| :: b.settled[j].number != b.settled[k].number)
  }

  lemma {:induction false} DeletedHolds(pending: seq<nat>, n: nat)
    ensures forall m :: m in Deleted(pending, n) <==> m in pending && m != n
    ensures n in pending ==> |Deleted(pending, n)| < |pending|
    ensures |Deleted(pending, n)| <= |pending|
  {
    if pending != [] {
      var k := |pending| - 1;
      DeletedHolds(pending[..k], n);
      assert pending == pending[..k] + [pending[k]];
    }
  }

  lemma SettlingKeepsValid(b: Bridge, n: nat, resolved: bool)
    requires Valid(b) && n in b.timers
    ensures Valid(Settled(b, n, resolved))
  {
    DeletedHolds(b.pending, n);
    var b' := Settled(b, n, resolved);
    assert Unsettled(b, n);
    forall m ensures m in b'.timers <==> Unsettled(b', m) {
      assert m in b.timers <==> Unsettled(b, m);
      assert b'.settled[|b.settled|].number == n;
      if Unsettled(b', m) {
        forall k | 0 <= k < |b.settled| ensures b.settled[k].number != m {
          assert b'.settled[k].number != m;
        }
      }
    }
  }

  lemma {:induction false} RejectingAllKeepsValid(b: Bridge)
    requires Valid(b)
    ensures Valid(AllRejected(b)) && AllRejected(b).pending == []
    ensures AllRejected(b).issued == b.issued && AllRejected(b).waiting == b.waiting
    ensures b.settled <= AllRejected(b).settled
    decreases |b.pending|
  {
    if b.pending != [] {
      SettlingKeepsValid(b, b.pending[0], false);
      RejectingAllKeepsValid(Settled(b, b.pending[0], false));
    }
  }

  lemma IssuingKeepsValid(b: Bridge)
    requires Valid(b)
    ensures Valid(Issued(b)) && Valid(Registered(b))
  {
    NumberIsNew(b);
    assert Increasing(b.issued + [b.seqCounter], b.seqCounter + 1);
    forall m ensures m in Issued(b).timers <==> Unsettled(Issued(b), m) {
      assert m in b.timers <==> Unsettled(b, m);
    }
    forall m ensures m in Registered(b).timers <==> Unsettled(Registered(b), m) {
      assert m in b.timers <==> Unsettled(b, m);
    }
  }

  lemma NumberIsNew(b: Bridge)
    requires Valid(b)
    ensures b.seqCounter !in b.issued && b.seqCounter !in b.waiting && !HasSettled(b, b.seqCounter)
  {}

  /** A request whose payload has no JSON form is rejected by the promise executor, past the code
      that would have taken it out of the table. */
  predicate LeavesEntry(b: Bridge, e: Step) {
    e == SendAndWait(NoJson) && b.connected && b.open
  }

  lemma RequestKeepsValid(b: Bridge, attempt: Attempt)
    requires Valid(b)
    ensures var e := SendAndWait(attempt);
      && (Valid(Next(b, e)) <==> !LeavesEntry(b, e))
      && b.issued <= Next(b, e).issued && b.waiting <= Next(b, e).waiting && b.settled <= Next(b, e).settled
  {
    if b.connected && b.open {
      IssuingKeepsValid(b);
      match attempt
      case Sent =>
      case SendThrows => SettlingKeepsValid(Registered(b), b.seqCounter, false);
      case NoJson => EntryIsInvalid(Next(b, SendAndWait(NoJson)), b.seqCounter, |b.settled|);
    }
  }

  lemma EntryIsInvalid(b: Bridge, n: nat, k: nat)
    requires n in b.timers && k < |b.settled| && b.settled[k].number == n
    ensures !Valid(b)
  {
    assert !Unsettled(b, n);
  }

  /** The table stays consistent through every step, except exactly that one. */
  lemma KeepsValidIffSerialisable(b: Bridge, e: Step)
    requires Valid(b)
    ensures Valid(Next(b, e)) <==> !LeavesEntry(b, e)
    ensures b.issued <= Next(b, e).issued && b.waiting <= Next(b, e).waiting && b.settled <= Next(b, e).settled
  {
    match e {
      case Send => IssuingKeepsValid(b);
      case SendAndWait(attempt) => RequestKeepsValid(b, attempt);
      case Message(n, noOpponent, failure) =>
        if n in b.pending { SettlingKeepsValid(b, n, !failure); }
      case TimerFires(n) =>
        if n in b.timers { SettlingKeepsValid(b, n, false); }
      case SocketError => RejectingAllKeepsValid(b);
      case SocketClosed => RejectingAllKeepsValid(b.(connected := false, open := false));
      case Opened =>
      case Closing =>
      case Disconnect =>
    }
  }

  // ----- whole runs -----

  function From(b: Bridge, steps: seq<Step>): Bridge {
    if steps == [] then b else Next(From(b, steps[..|steps| - 1]), steps[|steps| - 1])
  }

  /** No request made while connected has a payload without a JSON form. */
  predicate Clean(b: Bridge, steps: seq<Step>) {
    steps == [] || (Clean(b, steps[..|steps| - 1]) && !LeavesEntry(From(b, steps[..|steps| - 1]), steps[|steps| - 1]))
  }

  lemma {:induction false} FromKeepsValid(b: Bridge, steps: seq<Step>)
    requires Valid(b) && Clean(b, steps)
    ensures var b' := From(b, steps);
      Valid(b') && b.issued <= b'.issued && b.waiting <= b'.waiting && b.settled <= b'.settled
  {
    if steps != [] {
      FromKeepsValid(b, steps[..|steps| - 1]);
      KeepsValidIffSerialisable(From(b, steps[..|steps| - 1]), steps[|steps| - 1]);
    }
  }

  /** In every run the numbers issued are strictly increasing, so none is reused; a settled
      request is settled once, has left the table and has no timer; a request not yet settled has
      a live timer. Whatever happens later, what was settled stays as it is. */
  lemma ExactlyOnce(steps: seq<Step>, later: seq<Step>)
    requires Clean(INITIAL, steps) && Clean(From(INITIAL, steps), later)
    ensures var b := From(INITIAL, steps);
      && (forall i, j | 0 <= i < j < |b.issued| :: b.issued[i] < b.issued[j])
      && (forall j, k | 0 <= j < k < |b.settled| :: b.settled[j].number != b.settled[k].number)
      && (forall k | 0 <= k < |b.settled| ::
            b.settled[k].number in b.waiting && b.settled[k].number !in b.pending && b.settled[k].number !in b.timers)
      && (forall n <- b.waiting :: n in b.timers || HasSettled(b, n))
    ensures var b, b' := From(INITIAL, steps), From(From(INITIAL, steps), later);
      && b.waiting <= b'.waiting && b.settled <= b'.settled
      && forall k | |b.settled| <= k < |b'.settled| :: !HasSettled(b, b'.settled[k].number)
  {
    FromKeepsValid(INITIAL, steps);
    var b := From(INITIAL, steps);
    FromKeepsValid(b, later);
    forall k | 0 <= k < |b.settled| ensures b.settled[k].number !in b.timers {
      assert !Unsettled(b, b.settled[k].number);
    }
    forall n <- b.waiting ensures n in b.timers || HasSettled(b, n) {
      assert n in b.timers <==> Unsettled(b, n);
    }
  }

  /** A settled request still has its timer, or was settled twice. */
  ghost predicate Broken(b: Bridge) {
    || (exists n <- b.timers :: HasSettled(b, n))
    || exists j, k :: 0 <= j < k < |b.settled| && b.settled[j].number == b.settled[k].number
  }

  lemma SettlingStaysBroken(b: Bridge, n: nat, resolved: bool)
    requires Broken(b)
    ensures Broken(Settled(b, n, resolved))
  {
    var b' := Settled(b, n, resolved);
    assert forall k | 0 <= k < |b.settled| :: b'.settled[k] == b.settled[k];
    if m :| m in b.timers && HasSettled(b, m) {
      var k :| 0 <= k < |b.settled| && b.settled[k].number == m;
      assert b'.settled[k].number == m;
      if m == n {
        assert b'.settled[k].number == b'.settled[|b.settled|].number;
      } else {
        assert m in b'.timers && HasSettled(b', m);
      }
    } else {
      var j, k :| 0 <= j < k < |b.settled| && b.settled[j].number == b.settled[k].number;
      assert b'.settled[j].number == b'.settled[k].number;
    }
  }

  lemma {:induction false} RejectingStaysBroken(b: Bridge)
    requires Broken(b)
    ensures Broken(AllRejected(b))
    decreases |b.pending|
  {
    if b.pending != [] {
      SettlingStaysBroken(b, b.pending[0], false);
      RejectingStaysBroken(Settled(b, b.pending[0], false));
    }
  }

  lemma SameHistoryStaysBroken(b: Bridge, b': Bridge)
    requires Broken(b) && b.settled <= b'.settled && b.timers <= b'.timers
    ensures Broken(b')
  {
    if m :| m in b.timers && HasSettled(b, m) {
      var k :| 0 <= k < |b.settled| && b.settled[k].number == m;
      assert b'.settled[k].number == m;
    } else {
      var j, k :| 0 <= j < k < |b.settled| && b.settled[j].number == b.settled[k].number;
      assert b'.settled[j].number == b'.settled[k].number;
    }
  }

  /** What is broken is never mended: the timer left behind settles its request again. */
  lemma NextStaysBroken(b: Bridge, e: Step)
    requires Broken(b)
    ensures Broken(Next(b, e))
  {
    match e
    case Message(n, _, failure) => if n in b.pending { SettlingStaysBroken(b, n, !failure); }
    case TimerFires(n) => SettlingStaysBroken(b, n, false);
    case SocketError => RejectingStaysBroken(b);
    case SocketClosed =>
      SameHistoryStaysBroken(b, b.(connected := false, open := false));
      RejectingStaysBroken(b.(connected := false, open := false));
    case SendAndWait(_) =>
      SameHistoryStaysBroken(b, Registered(b));
      if b.connected && b.open && e.attempt == SendThrows {
        SettlingStaysBroken(Registered(b), b.seqCounter, false);
      } else {
        SameHistoryStaysBroken(b, Next(b, e));
      }
    case _ => SameHistoryStaysBroken(b, Next(b, e));
  }

  /** The table is consistent after a run if and only if every payload sent had a JSON form. */
  lemma {:induction false} ConsistentIffClean(steps: seq<Step>)
    ensures Valid(From(INITIAL, steps)) <==> Clean(INITIAL, steps)
    ensures !Clean(INITIAL, steps) ==> Broken(From(INITIAL, steps))
  {
    if steps != [] {
      var before, e := steps[..|steps| - 1], steps[|steps| - 1];
      ConsistentIffClean(before);
      var b := From(INITIAL, before);
      if !Clean(INITIAL, before) {
        NextStaysBroken(b, e);
        BrokenIsInvalid(Next(b, e));
      } else {
        KeepsValidIffSerialisable(b, e);
        if LeavesEntry(b, e) { LeftEntryIsBroken(b, e); }
      }
    }
  }

  lemma BrokenIsInvalid(b: Bridge)
    requires Broken(b)
    ensures !Valid(b)
  {
    if Valid(b) {
      forall n <- b.timers ensures !HasSettled(b, n) { assert Unsettled(b, n); }
    }
  }

  lemma LeftEntryIsBroken(b: Bridge, e: Step)
    requires LeavesEntry(b, e)
    ensures Broken(Next(b, e))
  {
    var b', n := Next(b, e), b.seqCounter;
    assert n in b'.timers && b'.settled[|b.settled|].number == n;
  }

  // ----- which way a request is settled -----

  /** A reply settles the request that waits under its number: resolved on success, rejected on
      failure. A "no opponent" reply, one without a number, and one nobody waits for settle nothing. */
  lemma ReplySettles(b: Bridge, n: int, noOpponent: bool, failure: bool)
    ensures !noOpponent && n != 0 && n in b.pending ==>
      Next(b, Message(n, noOpponent, failure)).settled == b.settled + [Settlement(n, !failure)]
    ensures noOpponent || n == 0 || n !in b.pending ==> Next(b, Message(n, noOpponent, failure)) == b
  {}

  /** The timer that fires rejects its own request and no other; it is gone afterwards. */
  lemma TimerSettles(b: Bridge, n: nat)
    requires n in b.timers
    ensures var b' := Next(b, TimerFires(n));
      b'.settled == b.settled + [Settlement(n, false)] && b'.timers == b.timers - {n} && n !in b'.pending
  {
    DeletedHolds(b.pending, n);
  }

  /** A request is put in the table under the next number with a timer, unless it is refused
      unsettled; if the send throws it is rejected and taken out again. */
  lemma RequestMeans(b: Bridge, attempt: Attempt)
    requires Valid(b) && b.connected && b.open
    ensures var b', n := Next(b, SendAndWait(attempt)), b.seqCounter;
      && b'.issued == b.issued + [n] && b'.seqCounter == n + 1 && n in b'.waiting
      && (attempt == Sent ==> n in b'.pending && n in b'.timers && b'.settled == b.settled)
      && (attempt == SendThrows ==>
            n !in b'.pending && n !in b'.timers && b'.settled == b.settled + [Settlement(n, false)])
  {
    DeletedHolds(Registered(b).pending, b.seqCounter);
  }

  /** After a disconnect every reply comes too late; only the timers settle what was waiting. */
  lemma DisconnectLeavesTimers(b: Bridge, n: int, noOpponent: bool, failure: bool)
    ensures var b' := Next(b, Step.Disconnect);
      b'.timers == b.timers && b'.settled == b.settled && Next(b', Message(n, noOpponent, failure)) == b'
  {}

  lemma {:induction false} RejectingOnlyRejects(b: Bridge)
    ensures b.settled <= AllRejected(b).settled
    ensures forall k | |b.settled| <= k < |AllRejected(b).settled| :: !AllRejected(b).settled[k].resolved
    decreases |b.pending|
  {
    if b.pending != [] { RejectingOnlyRejects(Settled(b, b.pending[0], false)); }
  }

  ghost predicate Resolves(b: Bridge, e: Step, n: nat) {
    n != 0 && n in b.pending && e == Message(n, false, false)
  }

  /** A step resolves a request if and only if it is a successful reply to it; all else rejects. */
  lemma ResolvedIn(b: Bridge, e: Step, n: nat)
    ensures Settlement(n, true) in Next(b, e).settled <==> Settlement(n, true) in b.settled || Resolves(b, e, n)
  {
    match e
    case SocketError => OnlyRejections(b, n);
    case SocketClosed => OnlyRejections(b.(connected := false, open := false), n);
    case _ =>
  }

  lemma OnlyRejections(b: Bridge, n: nat)
    ensures Settlement(n, true) in AllRejected(b).settled <==> Settlement(n, true) in b.settled
  {
    RejectingOnlyRejects(b);
    var after := AllRejected(b).settled;
    if Settlement(n, true) in after {
      var k :| 0 <= k < |after| && after[k] == Settlement(n, true);
      assert k < |b.settled|;
      assert b.settled[k] == after[k];
    }
  }

  ghost predicate ResolvedAt(steps: seq<Step>, k: nat, n: nat)
    requires k < |steps|
  {
    Resolves(From(INITIAL, steps[..k]), steps[k], n)
  }

  /** Over any run a request is resolved if and only if at some point a successful reply to it
      arrived while it stood in the table; every other settlement is a rejection. */
  lemma {:induction false} ResolvedIffAnswered(steps: seq<Step>, n: nat)
    ensures Settlement(n, true) in From(INITIAL, steps).settled <==>
            exists k :: 0 <= k < |steps| && ResolvedAt(steps, k, n)
  {
    if steps != [] {
      var before, e := steps[..|steps| - 1], steps[|steps| - 1];
      ResolvedIffAnswered(before, n);
      ResolvedIn(From(INITIAL, before), e, n);
      AnsweredBeforeOrLast(steps, before, e, n);
    }
  }

  lemma AnsweredBeforeOrLast(steps: seq<Step>, before: seq<Step>, e: Step, n: nat)
    requires steps == before + [e]
    ensures (exists k :: 0 <= k < |steps| && ResolvedAt(steps, k, n)) <==>
            (exists k :: 0 <= k < |before| && ResolvedAt(before, k, n)) || Resolves(From(INITIAL, before), e, n)
  {
    forall k | 0 <= k < |before| ensures ResolvedAt(steps, k, n) <==> ResolvedAt(before, k, n) {
      assert before[..k] == steps[..k];
    }
    assert steps[..|before|] == before;
    assert ResolvedAt(steps, |before|, n) <==> Resolves(From(INITIAL, before), e, n);
  }

  lemma TableIsTimed(b: Bridge)
    requires Valid(b)
    ensures b.pending == [] || b.timers != {}
  {
    if b.pending != [] { assert b.pending[0] in b.pending; }
  }

  /** Nothing waits for ever: with the timers firing one after the other, every request ends
      settled, whatever was lost on the way. */
  lemma {:induction false} EveryRequestSettles(b: Bridge, order: seq<nat>)
    requires Valid(b) && forall n <- b.timers :: n in order
    ensures var b' := From(b, Firings(order));
      b'.timers == {} && b'.pending == [] && forall n <- b.waiting :: HasSettled(b', n)
  {
    FiringsClear(b, order);
    FromKeepsValid(b, Firings(order));
    var b' := From(b, Firings(order));
    forall n <- b.waiting ensures HasSettled(b', n) {
      assert !Unsettled(b', n);
    }
    TableIsTimed(b');
  }

  function Firings(order: seq<nat>): seq<Step> { seq(|order|, i requires 0 <= i < |order| => TimerFires(order[i])) }

  lemma {:induction false} FiringsClear(b: Bridge, order: seq<nat>)
    ensures Clean(b, Firings(order))
    ensures forall n :: n in From(b, Firings(order)).timers <==> n in b.timers && n !in order
  {
    if order != [] {
      var init, last := order[..|order| - 1], order[|order| - 1];
      FiringsClear(b, init);
      assert Firings(order)[..|order| - 1] == Firings(init);
      assert order == init + [last];
    }
  }

  // ----- the object -----

  class NetworkBridge {
    var connected: bool
    var open: bool
    var seqCounter: nat
    var pendingRequests: seq<nat>
    var timers: set<nat>
    var issued: seq<nat>
    var waiting: set<nat>
    var settled: seq<Settlement>

    function State(): Bridge
      reads this
    {
      Bridge(connected, open, seqCounter, pendingRequests, timers, issued, waiting, settled)
    }

    constructor ()
      ensures State() == INITIAL
    {
      connected, open, seqCounter := false, false, 1;
      pendingRequests, timers := [], {};
      issued, waiting, settled := [], {}, [];
    }

    /** None is the error thrown when not connected. */
    method Send() returns (number: Option<nat>)
      modifies this
      ensures State() == Next(old(State()), Step.Send)
      ensures number == if old(connected) then Some(old(seqCounter)) else None
    {
      if !connected { return None; }
      var n := TakeNumber();
      return Some(n);
    }

    method TakeNumber() returns (number: nat)
      modifies this
      ensures State() == Issued(old(State())) && number == old(seqCounter)
    {
      number := seqCounter;
      issued := issued + [number];
      seqCounter := seqCounter + 1;
    }

    method SendAndWait(attempt: Attempt)
      modifies this
      ensures State() == Next(old(State()), Step.SendAndWait(attempt))
    {
      if !connected || !open { return; }
      var number := TakeNumber();
      waiting := waiting + {number};
      timers := timers + {number};
      pendingRequests := pendingRequests + [number];
      match attempt {
        case Sent =>
        case SendThrows => Settle(number, false);
        case NoJson => settled := settled + [Settlement(number, false)];
      }
    }

    /** What resolve and reject of a handler, and the firing of its timer, all do. */
    method Settle(number: nat, resolved: bool)
      modifies this
      ensures State() == Settled(old(State()), number, resolved)
    {
      timers := timers - {number};
      pendingRequests := Deleted(pendingRequests, number);
      settled := settled + [Settlement(number, resolved)];
    }

    method HandleMessage(reply: int, noOpponent: bool, failure: bool)
      modifies this
      ensures State() == Next(old(State()), Message(reply, noOpponent, failure))
      ensures settled == old(settled) +
        if !noOpponent && reply != 0 && reply in old(pendingRequests) then [Settlement(reply, !failure)] else []
    {
      if noOpponent { return; }
      if reply != 0 && reply in pendingRequests {
        Settle(reply, !failure);
      }
    }

    method TimerFired(number: nat)
      requires number in timers
      modifies this
      ensures State() == Next(old(State()), TimerFires(number))
    {
      Settle(number, false);
    }

    method RejectAllPending()
      modifies this
      ensures State() == AllRejected(old(State()))
    {
      while pendingRequests != []
        invariant AllRejected(State()) == AllRejected(old(State()))
        decreases |pendingRequests|
      {
        Settle(pendingRequests[0], false);
      }
    }

    method OnClose()
      modifies this
      ensures State() == Next(old(State()), SocketClosed)
    {
      connected, open := false, false;
      RejectAllPending();
    }

    /** The table is cleared, but the timers run on: they settle what was waiting. */
    method Disconnect()
      modifies this
      ensures State() == Next(old(State()), Step.Disconnect)
    {
      connected, open := false, false;
      pendingRequests := [];
    }
  }
}
