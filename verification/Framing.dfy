/** Newline framing: the fixed receive buffers of server.c and client.c, extract_messages of
    protocol.c, and the accumulating string of ws-bridge.js. Bytes are modelled as characters. */
module Framing {

  const MAX_MESSAGE_SIZE := 16384
  const NUL := '\0'
  const NEWLINE := '\n'

  // ----- the lines of a stream -----

  function NonEmpty(s: string): seq<string> { if s == [] then [] else [s] }

  /** What follows the last newline. */
  function Tail(s: string): string {
    if s == [] then []
    else if s[|s| - 1] == NEWLINE then []
    else Tail(s[..|s| - 1]) + [s[|s| - 1]]
  }

  /** The non-empty newline-terminated lines, in order. */
  function Lines(s: string): seq<string> {
    if s == [] then []
    else if s[|s| - 1] == NEWLINE then Lines(s[..|s| - 1]) + NonEmpty(Tail(s[..|s| - 1]))
    else Lines(s[..|s| - 1])
  }

  /** Text without a newline only lengthens the unfinished line. */
  lemma {:induction false} PlainText(s: string, t: string)
    requires NEWLINE !in t
    ensures Lines(s + t) == Lines(s) && Tail(s + t) == Tail(s) + t
  {
    if t == [] {
      assert s + t == s && Tail(s) + t == Tail(s);
    } else {
      var t0, c := t[..|t| - 1], t[|t| - 1];
      assert (s + t)[..|s + t| - 1] == s + t0;
      PlainText(s, t0);
      assert Tail(s) + t == (Tail(s) + t0) + [c];
    }
  }

  lemma LineEnds(s: string, t: string)
    requires NEWLINE !in t
    ensures Lines(s + t + [NEWLINE]) == Lines(s) + NonEmpty(Tail(s) + t) && Tail(s + t + [NEWLINE]) == []
  {
    PlainText(s, t);
    var all := s + t + [NEWLINE];
    assert all[..|all| - 1] == s + t;
  }

  /** Splitting is incremental: only the unfinished line of what came before matters. */
  lemma {:induction false} LinesAppend(a: string, b: string)
    ensures Lines(a + b) == Lines(a) + Lines(Tail(a) + b)
    ensures Tail(a + b) == Tail(Tail(a) + b)
  {
    if b == [] {
      assert a + b == a && Tail(a) + b == Tail(a);
      TailIsPlain(a);
      PlainText([], Tail(a));
      assert [] + Tail(a) == Tail(a);
    } else {
      var b0 := b[..|b| - 1];
      assert (a + b)[..|a + b| - 1] == a + b0;
      assert (Tail(a) + b)[..|Tail(a) + b| - 1] == Tail(a) + b0;
      LinesAppend(a, b0);
    }
  }

  lemma {:induction false} TailIsPlain(s: string)
    ensures NEWLINE !in Tail(s) && |Tail(s)| <= |s| && (NUL !in s ==> NUL !in Tail(s))
  {
    if s != [] { TailIsPlain(s[..|s| - 1]); }
  }

  // ----- what the lines of a text are -----

  /** Each of these texts followed by a newline. */
  function Joined(texts: seq<string>): string {
    if texts == [] then [] else Joined(texts[..|texts| - 1]) + texts[|texts| - 1] + [NEWLINE]
  }

  function WithoutEmpty(texts: seq<string>): seq<string> {
    if texts == [] then []
    else
      var rest, last := WithoutEmpty(texts[..|texts| - 1]), texts[|texts| - 1];
      if last == [] then rest else rest + [last]
  }

  /** Sending texts one to a line delivers them in order, except that empty ones are dropped. */
  lemma {:induction false} LinesOfJoined(texts: seq<string>)
    requires forall k | 0 <= k < |texts| :: NEWLINE !in texts[k]
    ensures Lines(Joined(texts)) == WithoutEmpty(texts) && Tail(Joined(texts)) == []
  {
    if texts != [] {
      LinesOfJoined(texts[..|texts| - 1]);
      LineEnds(Joined(texts[..|texts| - 1]), texts[|texts| - 1]);
      assert [] + texts[|texts| - 1] == texts[|texts| - 1];
    }
  }

  /** No line delivered is empty or holds a newline. */
  lemma {:induction false} LinesAreProper(s: string)
    ensures forall l <- Lines(s) :: l != [] && NEWLINE !in l
  {
    if s != [] {
      LinesAreProper(s[..|s| - 1]);
      TailIsPlain(s[..|s| - 1]);
    }
  }

  // ----- any stream, cut in any way -----

  /** The two ends that read lines: handle_client_read and client_recv_and_process. */
  datatype Side = Server | Client

  datatype Reading = Reading(held: string, messages: seq<string>, connected: bool)

  const START := Reading([], [], true)

  /** No room is left for another character and the terminating NUL. */
  predicate Full(held: string) { |held| >= MAX_MESSAGE_SIZE - 1 }

  /** One read; an empty chunk is the end of the connection. The server hangs up as soon as an
      unfinished line fills its buffer. The client does not look, but its next read, into no room,
      returns 0, which it takes for the end of the connection. */
  function Read(side: Side, r: Reading, chunk: string): Reading {
    if !r.connected then r
    else if chunk == [] || (side.Client? && Full(r.held)) then r.(connected := false)
    else
      var held := Tail(r.held + chunk);
      Reading(held, r.messages + Lines(r.held + chunk), side.Client? || !Full(held))
  }

  function ReadAll(side: Side, chunks: seq<string>): Reading {
    if chunks == [] then START else Read(side, ReadAll(side, chunks[..|chunks| - 1]), chunks[|chunks| - 1])
  }

  function Concat(chunks: seq<string>): string {
    if chunks == [] then [] else Concat(chunks[..|chunks| - 1]) + chunks[|chunks| - 1]
  }

  /** No chunk is empty and no unfinished line fills the buffer, for the server at the end of any
      chunk, for the client at the end of any chunk but the last. */
  predicate NeverFull(side: Side, chunks: seq<string>) {
    chunks == [] ||
    var before := chunks[..|chunks| - 1];
    && NeverFull(side, before) && chunks[|chunks| - 1] != []
    && !Full(Tail(Concat(if side.Server? then chunks else before)))
  }

  /** Exact streaming, on either side: as long as the connection stands, what has been handed on
      are the non-empty lines of the whole stream, whatever the cuts; it stands exactly as long as
      nobody closes it and no unfinished line fills the buffer. */
  lemma {:induction false} StreamIsSplitExactly(side: Side, chunks: seq<string>)
    ensures ReadAll(side, chunks).connected <==> NeverFull(side, chunks)
    ensures ReadAll(side, chunks).connected ==>
      ReadAll(side, chunks).messages == Lines(Concat(chunks)) && ReadAll(side, chunks).held == Tail(Concat(chunks))
  {
    if chunks != [] {
      StreamIsSplitExactly(side, chunks[..|chunks| - 1]);
      LinesAppend(Concat(chunks[..|chunks| - 1]), chunks[|chunks| - 1]);
    }
  }

  /** Every line of the stream, finished or not, is at most 16382 characters long. */
  ghost predicate ShortLines(s: string) {
    forall k | 0 <= k <= |s| :: |Tail(s[..k])| <= 16382
  }

  /** Lines of up to 16382 characters are never cut and never end the connection. */
  lemma {:induction false} ShortLinesAreSafe(side: Side, chunks: seq<string>)
    requires ShortLines(Concat(chunks)) && forall k | 0 <= k < |chunks| :: chunks[k] != []
    ensures NeverFull(side, chunks) && ReadAll(side, chunks).messages == Lines(Concat(chunks))
  {
    var s := Concat(chunks);
    assert s[..|s|] == s;
    StreamIsSplitExactly(side, chunks);
    if chunks != [] {
      var before := Concat(chunks[..|chunks| - 1]);
      forall k | 0 <= k <= |before| ensures before[..k] == s[..k] {}
      assert before[..|before|] == before;
      ShortLinesAreSafe(side, chunks[..|chunks| - 1]);
    }
  }

  // ----- the receive buffer -----

  /** The end of a connection that receives lines; messages are those handed on so far. */
  class LineReceiver {
    const buffer: array<char>
    var len: nat
    var connected: bool
    var messages: seq<string>

    /** A NUL-terminated string in the buffer, without inner NUL or newline. */
    ghost predicate Valid()
      reads this, buffer
    {
      && buffer.Length == MAX_MESSAGE_SIZE && len < MAX_MESSAGE_SIZE
      && buffer[len] == NUL && NUL !in Held() && NEWLINE !in Held()
    }

    ghost function Held(): string
      requires len <= buffer.Length
      reads this, buffer
    {
      buffer[..len]
    }

    constructor ()
      ensures Valid() && Held() == [] && messages == [] && connected && fresh(buffer)
    {
      buffer := new char[MAX_MESSAGE_SIZE](_ => NUL);
      len, connected, messages := 0, true, [];
    }

    /** strchr(from, '\n'): the next newline before the terminating NUL, or -1. */
    method StrChr(from: nat) returns (newline: int)
      requires from <= len < buffer.Length && buffer[len] == NUL && NUL !in buffer[from..len]
      ensures newline == -1 ==> NEWLINE !in buffer[from..len]
      ensures newline != -1 ==>
        from <= newline < len && buffer[newline] == NEWLINE && NEWLINE !in buffer[from..newline]
    {
      var i := from;
      assert forall k | from <= k < len :: buffer[k] == buffer[from..len][k - from];
      while buffer[i] != NUL
        invariant from <= i <= len && NEWLINE !in buffer[from..i]
        decreases len - i
      {
        if buffer[i] == NEWLINE { return i; }
        assert buffer[from..i + 1] == buffer[from..i] + [buffer[i]];
        i := i + 1;
      }
      return -1;
    }

    /** One read: append, hand on every complete non-empty line, move the rest to the front. */
    method Feed(chunk: string)
      requires Valid() && NUL !in chunk && 0 < |chunk| <= MAX_MESSAGE_SIZE - len - 1
      modifies this`len, this`messages, buffer
      ensures Valid()
      ensures messages == old(messages) + Lines(old(Held()) + chunk)
      ensures Held() == Tail(old(Held()) + chunk)
    {
      ghost var all := Held() + chunk;
      ghost var lines := LinesUpTo(all);
      Append(chunk);
      var lineStart := Drain(all, lines);
      LastLine(all, lineStart);
      ShiftToFront(lineStart);
    }

    /** The newline loop. */
    method Drain(ghost all: string, ghost lines: nat -> seq<string>) returns (lineStart: nat)
      requires len < buffer.Length && buffer[len] == NUL && buffer[..len] == all && NUL !in all
      requires Advances(all, lines)
      modifies this`messages, buffer
      ensures lineStart <= len && Boundary(all, lineStart) && NEWLINE !in all[lineStart..]
      ensures messages == old(messages) + lines(lineStart)
      ensures buffer[lineStart..len] == all[lineStart..] && buffer[len] == NUL
    {
      lineStart := 0;
      var newline := FindNewline(lineStart, all);
      while newline != -1
        invariant 0 <= lineStart <= len < buffer.Length && buffer[len] == NUL
        invariant buffer[lineStart..len] == all[lineStart..]
        invariant Boundary(all, lineStart) && IsNext(all, lineStart, newline)
        invariant messages == old(messages) + lines(lineStart)
        decreases len - lineStart
      {
        HandOn(lineStart, newline, all);
        lineStart := newline + 1;
        newline := FindNewline(lineStart, all);
      }
    }

    method FindNewline(from: nat, ghost all: string) returns (newline: int)
      requires from <= len < buffer.Length && buffer[len] == NUL && len == |all|
      requires buffer[from..len] == all[from..] && NUL !in all
      ensures IsNext(all, from, newline)
    {
      assert forall k | from <= k < len :: buffer[k] == buffer[from..len][k - from] == all[k];
      newline := StrChr(from);
      if newline != -1 {
        assert buffer[from..newline] == all[from..newline];
      }
    }

    /** Cuts the line off and hands it on unless it is empty. */
    method HandOn(lineStart: nat, newline: nat, ghost all: string)
      requires lineStart <= newline < len < buffer.Length && len == |all|
      requires buffer[lineStart..len] == all[lineStart..] && NUL !in all
      modifies this`messages, buffer
      ensures messages == old(messages) + NonEmpty(all[lineStart..newline])
      ensures buffer[newline + 1..len] == all[newline + 1..] && NUL !in buffer[newline + 1..len]
      ensures buffer[len] == old(buffer[len])
    {
      assert forall k | lineStart <= k < len :: buffer[k] == buffer[lineStart..len][k - lineStart] == all[k];
      buffer[newline] := NUL;
      assert buffer[lineStart..newline] == all[lineStart..newline];
      if newline > lineStart {
        messages := messages + [buffer[lineStart..newline]];
      }
    }

    method Append(chunk: string)
      requires Valid() && NUL !in chunk && 0 < |chunk| <= MAX_MESSAGE_SIZE - len - 1
      modifies this`len, buffer
      ensures len == old(len) + |chunk| < buffer.Length && buffer[len] == NUL
      ensures buffer[..len] == old(Held()) + chunk && NUL !in buffer[..len]
    {
      for i := 0 to |chunk|
        invariant len == old(len)
        invariant buffer[..len + i] == old(Held()) + chunk[..i]
      {
        buffer[len + i] := chunk[i];
        assert buffer[..len + i + 1] == buffer[..len + i] + [chunk[i]];
      }
      len := len + |chunk|;
      buffer[len] := NUL;
      assert buffer[..len] == old(Held()) + chunk;
    }

    /** memmove of the unfinished line. */
    method ShiftToFront(from: nat)
      requires from <= len < buffer.Length == MAX_MESSAGE_SIZE
      requires NUL !in buffer[from..len] && NEWLINE !in buffer[from..len]
      modifies this`len, buffer
      ensures Valid() && Held() == old(buffer[from..len])
    {
      ghost var rest := buffer[from..len];
      var remaining := len - from;
      for i := 0 to remaining
        invariant len == old(len)
        invariant buffer[..i] == rest[..i]
        invariant forall k | from + i <= k < len :: buffer[k] == rest[k - from]
      {
        buffer[i] := buffer[from + i];
        assert buffer[..i + 1] == buffer[..i] + [rest[i]];
      }
      len := remaining;
      buffer[len] := NUL;
      assert buffer[..len] == rest;
    }

    ghost function State(): Reading
      requires len <= buffer.Length
      reads this, buffer
    {
      Reading(Held(), messages, connected)
    }

    /** One turn of the server's read loop; chunk is what the socket gave into the free room, and
        is empty at the end of the connection. */
    method ServerRead(chunk: string)
      requires Valid() && NUL !in chunk && |chunk| <= MAX_MESSAGE_SIZE - len - 1
      modifies this, buffer
      ensures Valid() && State() == Read(Server, old(State()), chunk)
    {
      if !connected { return; }
      if |chunk| == 0 {
        connected := false;
        return;
      }
      Feed(chunk);
      if len >= MAX_MESSAGE_SIZE - 1 { connected := false; }
    }

    method ClientRead(chunk: string)
      requires Valid() && NUL !in chunk && |chunk| <= MAX_MESSAGE_SIZE - len - 1
      modifies this, buffer
      ensures Valid() && State() == Read(Client, old(State()), chunk)
    {
      if !connected { return; }
      if |chunk| == 0 {
        connected := false;
        return;
      }
      Feed(chunk);
    }

    /** Reads a stream through the buffer. Each read gets as much as the socket has ready, the
        buffer has room for and the stream has left; sizes says how much is ready each time. */
    method Receive(side: Side, stream: string, sizes: seq<nat>) returns (taken: nat, ghost chunks: seq<string>)
      requires Valid() && State() == START && NUL !in stream
      modifies this, buffer
      ensures Valid() && taken <= |stream| && Concat(chunks) == stream[..taken]
      ensures State() == ReadAll(side, chunks)
      ensures messages == Lines(stream[..taken]) && Held() == Tail(stream[..taken])
      ensures connected <==> NeverFull(side, chunks)
      ensures ShortLines(stream) && (forall k | 0 <= k < |sizes| :: 0 < sizes[k]) ==> connected || taken == |stream|
    {
      taken, chunks := 0, [];
      var k := 0;
      while k < |sizes| && connected
        invariant Valid() && 0 <= k <= |sizes| && Reached(side, stream, taken, chunks, State())
        invariant ShortLines(stream) && (forall k | 0 <= k < |sizes| :: 0 < sizes[k]) ==> connected || taken == |stream|
      {
        var n := Min(sizes[k], Min(MAX_MESSAGE_SIZE - len - 1, |stream| - taken));
        ReadExtends(side, stream, taken, n, chunks, State());
        chunks := chunks + [stream[taken..taken + n]];
        if side.Server? { ServerRead(stream[taken..taken + n]); } else { ClientRead(stream[taken..taken + n]); }
        taken, k := taken + n, k + 1;
      }
      StreamIsSplitExactly(side, chunks);
    }
  }

  /** r is the state after reading the first part of a stream in these chunks. */
  ghost predicate Reached(side: Side, stream: string, taken: nat, chunks: seq<string>, r: Reading) {
    && taken <= |stream| && Concat(chunks) == stream[..taken] && r == ReadAll(side, chunks)
    && r.messages == Lines(stream[..taken]) && r.held == Tail(stream[..taken])
  }

  lemma ReadExtends(side: Side, stream: string, taken: nat, n: nat, chunks: seq<string>, r: Reading)
    requires Reached(side, stream, taken, chunks, r) && r.connected && taken + n <= |stream|
    requires Full(r.held) ==> n == 0
    ensures var chunk := stream[taken..taken + n];
      var r' := Read(side, r, chunk);
      && Reached(side, stream, taken + n, chunks + [chunk], r')
      && (ShortLines(stream) && 0 < n ==> r'.connected)
    ensures ShortLines(stream) ==> !Full(r.held)
  {
    var chunk := stream[taken..taken + n];
    LinesAppend(stream[..taken], chunk);
    assert stream[..taken] + chunk == stream[..taken + n];
    assert (chunks + [chunk])[..|chunks|] == chunks;
  }

  function Min(a: nat, b: nat): nat { if a < b then a else b }

  ghost predicate IsNext(all: string, from: nat, newline: int)
    requires from <= |all|
  {
    if newline == -1 then NEWLINE !in all[from..]
    else from <= newline < |all| && all[newline] == NEWLINE && NEWLINE !in all[from..newline]
  }

  /** A line may start here. */
  predicate Boundary(all: string, i: nat) {
    i <= |all| && (i == 0 || all[i - 1] == NEWLINE)
  }

  /** lines(i) is what has been handed on when the line starting at i is next. */
  ghost predicate Advances(all: string, lines: nat -> seq<string>) {
    && lines(0) == []
    && forall i: nat, j: nat {:trigger IsNext(all, i, j)} | Boundary(all, i) && IsNext(all, i, j) ::
         lines(j + 1) == lines(i) + NonEmpty(all[i..j])
  }

  ghost function LinesUpTo(all: string): (lines: nat -> seq<string>)
    ensures Advances(all, lines)
    ensures forall i: nat | i <= |all| :: lines(i) == Lines(all[..i])
  {
    var lines := (i: nat) => if i <= |all| then Lines(all[..i]) else [];
    assert Advances(all, lines) by {
      forall i: nat, j: nat | Boundary(all, i) && IsNext(all, i, j)
        ensures lines(j + 1) == lines(i) + NonEmpty(all[i..j])
      {
        LineOf(all, i, j);
      }
    }
    lines
  }

  lemma BoundaryTail(all: string, i: nat)
    requires Boundary(all, i)
    ensures Tail(all[..i]) == []
  {}

  lemma LastLine(all: string, lineStart: nat)
    requires Boundary(all, lineStart) && NEWLINE !in all[lineStart..]
    ensures Lines(all) == Lines(all[..lineStart]) && Tail(all) == all[lineStart..]
  {
    BoundaryTail(all, lineStart);
    PlainText(all[..lineStart], all[lineStart..]);
    assert all[..lineStart] + all[lineStart..] == all;
    assert [] + all[lineStart..] == all[lineStart..];
  }

  /** The line between two newlines of a text is what reading on to the second one adds. */
  lemma LineOf(all: string, lineStart: nat, newline: nat)
    requires Boundary(all, lineStart) && IsNext(all, lineStart, newline)
    ensures Lines(all[..newline + 1]) == Lines(all[..lineStart]) + NonEmpty(all[lineStart..newline])
  {
    var before, line := all[..lineStart], all[lineStart..newline];
    SlicesJoin(all, lineStart, newline);
    BoundaryTail(all, lineStart);
    LineEnds(before, line);
    assert Tail(before) + line == line;
  }

  lemma SlicesJoin(all: string, i: nat, j: nat)
    requires i <= j < |all|
    ensures all[..i] + all[i..j] + [all[j]] == all[..j + 1]
  {}

  // ----- extract_messages -----

  /** Counts the newlines, then walks the buffer once more, copying every non-empty line. */
  method ExtractMessages(buffer: string) returns (messages: seq<string>)
    ensures messages == Lines(buffer)
  {
    var numMessages := 0;
    for i := 0 to |buffer|
      invariant numMessages == Newlines(buffer[..i])
    {
      NewlinesAt(buffer, i);
      if buffer[i] == NEWLINE { numMessages := numMessages + 1; }
    }
    assert buffer[..|buffer|] == buffer;
    ghost var start;
    messages, start := CopyLines(buffer, numMessages, LinesUpTo(buffer));
    LastLine(buffer, start);
  }

  method CopyLines(buffer: string, numMessages: nat, ghost lines: nat -> seq<string>)
    returns (messages: seq<string>, ghost lastStart: nat)
    requires numMessages == Newlines(buffer) && Advances(buffer, lines)
    ensures Boundary(buffer, lastStart) && NEWLINE !in buffer[lastStart..] && messages == lines(lastStart)
  {
    messages := [];
    var start, i := 0, 0;
    while i < |buffer| && |messages| < numMessages
      invariant 0 <= start <= i <= |buffer|
      invariant Boundary(buffer, start) && NEWLINE !in buffer[start..i]
      invariant messages == lines(start)
      invariant |messages| <= Newlines(buffer[..i])
    {
      NewlinesAt(buffer, i);
      if buffer[i] == NEWLINE {
        assert IsNext(buffer, start, i);
        messages := messages + if i > start then [buffer[start..i]] else [];
        start := i + 1;
      } else {
        assert buffer[start..i + 1] == buffer[start..i] + [buffer[i]];
      }
      i := i + 1;
    }
    assert i == |buffer| ==> buffer[..i] == buffer;
    NoMoreNewlines(buffer, i);
    assert buffer[start..] == buffer[start..i] + buffer[i..];
    lastStart := start;
  }

  function Newlines(s: string): nat {
    if s == [] then 0 else Newlines(s[..|s| - 1]) + if s[|s| - 1] == NEWLINE then 1 else 0
  }

  lemma NewlinesAt(s: string, i: nat)
    requires i < |s|
    ensures Newlines(s[..i + 1]) == Newlines(s[..i]) + if s[i] == NEWLINE then 1 else 0
  {
    assert s[..i + 1][..i] == s[..i];
  }

  /** Once all newlines are counted, none is left. */
  lemma {:induction false} NoMoreNewlines(s: string, i: nat)
    requires i <= |s| && Newlines(s) <= Newlines(s[..i])
    ensures NEWLINE !in s[i..] && Newlines(s[..i]) == Newlines(s)
    decreases |s| - i
  {
    if i < |s| {
      NewlinesAt(s, i);
      NewlinesGrow(s, i + 1);
      NoMoreNewlines(s, i + 1);
      assert s[i..] == [s[i]] + s[i + 1..];
    } else {
      assert s[..i] == s;
    }
  }

  lemma {:induction false} NewlinesGrow(s: string, i: nat)
    requires i <= |s|
    ensures Newlines(s[..i]) <= Newlines(s)
    decreases |s| - i
  {
    if i < |s| {
      NewlinesAt(s, i);
      NewlinesGrow(s, i + 1);
    } else {
      assert s[..i] == s;
    }
  }

  // ----- the WebSocket bridge -----

  /** split('\n'): all segments, the unfinished one last. */
  function Split(s: string): (segments: seq<string>)
    ensures segments != []
  {
    if s == [] then [[]]
    else
      var segments, c := Split(s[..|s| - 1]), s[|s| - 1];
      if c == NEWLINE then segments + [[]]
      else segments[..|segments| - 1] + [segments[|segments| - 1] + [c]]
  }

  function AllNonEmpty(segments: seq<string>): seq<string> {
    if segments == [] then []
    else AllNonEmpty(segments[..|segments| - 1]) + NonEmpty(segments[|segments| - 1])
  }

  lemma {:induction false} SplitIsLines(s: string)
    ensures var segments := Split(s);
      segments[|segments| - 1] == Tail(s) && AllNonEmpty(segments[..|segments| - 1]) == Lines(s)
  {
    if s != [] {
      var before, segments := Split(s[..|s| - 1]), Split(s);
      SplitIsLines(s[..|s| - 1]);
      if s[|s| - 1] == NEWLINE {
        assert segments[..|segments| - 1] == before;
      } else {
        assert segments[..|segments| - 1] == before[..|before| - 1];
      }
    }
  }

  /** Lines as forwarded: trimmed, and dropped when nothing is left. */
  function Trimmed(lines: seq<string>, trim: string -> string): seq<string> {
    if lines == [] then []
    else Trimmed(lines[..|lines| - 1], trim) + NonEmpty(trim(lines[|lines| - 1]))
  }

  lemma {:induction false} TrimmedNonEmpty(segments: seq<string>, trim: string -> string)
    requires trim([]) == []
    ensures Trimmed(segments, trim) == Trimmed(AllNonEmpty(segments), trim)
  {
    if segments != [] {
      TrimmedNonEmpty(segments[..|segments| - 1], trim);
      var last := segments[|segments| - 1];
      var kept := AllNonEmpty(segments[..|segments| - 1]);
      if last == [] {
        assert kept + [] == kept;
      } else {
        assert (kept + [last])[..|kept + [last]| - 1] == kept;
      }
    }
  }

  /** Nothing empty is forwarded, and every line that is more than blanks is, in order. */
  lemma {:induction false} TrimmedIsProper(lines: seq<string>, trim: string -> string)
    ensures forall l <- Trimmed(lines, trim) :: l != [] && exists k :: 0 <= k < |lines| && l == trim(lines[k])
    ensures forall k | 0 <= k < |lines| && trim(lines[k]) != [] :: trim(lines[k]) in Trimmed(lines, trim)
  {
    if lines != [] {
      TrimmedIsProper(lines[..|lines| - 1], trim);
      assert lines == lines[..|lines| - 1] + [lines[|lines| - 1]];
    }
  }

  class TcpBridge {
    var tcpBuffer: string
    var forwarded: seq<string>

    constructor ()
      ensures tcpBuffer == [] && forwarded == []
    {
      tcpBuffer, forwarded := [], [];
    }

    /** The handler of the TCP data event, with the WebSocket open. */
    method OnData(data: string, trim: string -> string)
      requires trim([]) == []
      modifies this
      ensures tcpBuffer == Tail(old(tcpBuffer) + data)
      ensures forwarded == old(forwarded) + Trimmed(Lines(old(tcpBuffer) + data), trim)
    {
      tcpBuffer := tcpBuffer + data;
      var lines := Split(tcpBuffer);
      SplitIsLines(tcpBuffer);
      TrimmedNonEmpty(lines[..|lines| - 1], trim);
      tcpBuffer := lines[|lines| - 1];
      Forward(lines[..|lines| - 1], trim);
    }

    method Forward(lines: seq<string>, trim: string -> string)
      modifies this`forwarded
      ensures forwarded == old(forwarded) + Trimmed(lines, trim)
    {
      for i := 0 to |lines|
        invariant forwarded == old(forwarded) + Trimmed(lines[..i], trim)
      {
        var message := trim(lines[i]);
        assert lines[..i + 1][..i] == lines[..i];
        forwarded := forwarded + if |message| > 0 then [message] else [];
      }
      assert lines[..|lines|] == lines;
    }
  }
}
