/** The debouncer of container logs and its frame cutter (pkg/util/pipe/pipes.go). */
module LogPipe {

  import opened Common

  type Bytes = seq<byte>

  const MAX_MESSAGE_SIZE := 524288

  function Concat(parts: seq<Bytes>): Bytes {
    if parts == [] then [] else Concat(parts[..|parts| - 1]) + parts[|parts| - 1]
  }

  lemma {:induction false} ConcatAppend(a: seq<Bytes>, b: seq<Bytes>)
    ensures Concat(a + b) == Concat(a) + Concat(b)
  {
    if b == [] {
      assert a + b == a;
    } else {
      assert (a + b)[..|a + b| - 1] == a + b[..|b| - 1];
      ConcatAppend(a, b[..|b| - 1]);
    }
  }

  /** A websocket connection that takes `good` more messages and then fails. */
  class Conn {
    var frames: seq<Bytes>
    var good: nat

    method WriteMessage(frame: Bytes) returns (ok: bool)
      modifies this
      ensures ok == (old(good) > 0)
      ensures ok ==> frames == old(frames) + [frame] && good == old(good) - 1
      ensures !ok ==> frames == old(frames) && good == old(good)
    {
      ok := good > 0;
      if ok { frames, good := frames + [frame], good - 1; }
    }
  }

  /** Full frames while the rest is not shorter than a frame, then the rest. */
  function Frames(message: Bytes): seq<Bytes> {
    if |message| < MAX_MESSAGE_SIZE then [message]
    else [message[..MAX_MESSAGE_SIZE]] + Frames(message[MAX_MESSAGE_SIZE..])
  }

  ghost predicate Bounded(frames: seq<Bytes>) {
    forall i :: 0 <= i < |frames| ==> |frames[i]| <= MAX_MESSAGE_SIZE
  }

  /** Cutting loses nothing. */
  lemma {:induction false} FramesConserve(message: Bytes)
    ensures Concat(Frames(message)) == message
  {
    if |message| < MAX_MESSAGE_SIZE {
      assert Concat([message]) == Concat([message][..0]) + message;
    } else {
      var head, tail := message[..MAX_MESSAGE_SIZE], message[MAX_MESSAGE_SIZE..];
      FramesConserve(tail);
      ConcatAppend([head], Frames(tail));
      assert Concat([head]) == Concat([head][..0]) + head;
    }
  }

  /** Cutting respects the limit. Only the last frame may be short, and it is
      empty exactly when the length is a multiple of the limit. */
  lemma {:induction false} FrameSizes(message: Bytes)
    ensures Bounded(Frames(message)) && Frames(message) != []
    ensures forall i :: 0 <= i < |Frames(message)| - 1 ==> |Frames(message)[i]| == MAX_MESSAGE_SIZE
    ensures |Frames(message)[|Frames(message)| - 1]| == |message| % MAX_MESSAGE_SIZE
  {
    if |message| >= MAX_MESSAGE_SIZE {
      var tail := message[MAX_MESSAGE_SIZE..];
      FrameSizes(tail);
      assert Frames(message) == [message[..MAX_MESSAGE_SIZE]] + Frames(tail);
      assert |message| % MAX_MESSAGE_SIZE == |tail| % MAX_MESSAGE_SIZE;
    }
  }

  /** The frames by index arithmetic. */
  lemma {:induction false} FrameAt(message: Bytes, i: nat)
    requires i <= |message| / MAX_MESSAGE_SIZE
    ensures |Frames(message)| == |message| / MAX_MESSAGE_SIZE + 1
    ensures i * MAX_MESSAGE_SIZE <= |message|
    ensures Frames(message)[i] ==
      if (i + 1) * MAX_MESSAGE_SIZE < |message| then message[i * MAX_MESSAGE_SIZE..(i + 1) * MAX_MESSAGE_SIZE]
      else message[i * MAX_MESSAGE_SIZE..]
  {
    if |message| >= MAX_MESSAGE_SIZE {
      var tail := message[MAX_MESSAGE_SIZE..];
      assert |tail| / MAX_MESSAGE_SIZE == |message| / MAX_MESSAGE_SIZE - 1;
      FrameAt(tail, if i == 0 then 0 else i - 1);
    }
  }

  /** Writes the frames up to the first failure. */
  method CutAndWriteMessage(conn: Conn, message: Bytes) returns (ok: bool)
    modifies conn
    ensures ok == (old(conn.good) >= |Frames(message)|)
    ensures conn.frames == old(conn.frames) + if ok then Frames(message) else Frames(message)[..old(conn.good)]
    ensures conn.good == if ok then old(conn.good) - |Frames(message)| else 0
  {
    if |message| < MAX_MESSAGE_SIZE {
      ok := conn.WriteMessage(message);
      return;
    }
    var loopTime := |message| / MAX_MESSAGE_SIZE + 1;
    FrameAt(message, 0);
    for i := 0 to loopTime
      invariant i <= |Frames(message)| == loopTime
      invariant conn.frames == old(conn.frames) + Frames(message)[..i]
      invariant conn.good == old(conn.good) - i
    {
      FrameAt(message, i);
      var start := i * MAX_MESSAGE_SIZE;
      var end := if (i + 1) * MAX_MESSAGE_SIZE < |message| then (i + 1) * MAX_MESSAGE_SIZE else |message|;
      assert message[start..end] == Frames(message)[i];
      ok := conn.WriteMessage(message[start..end]);
      if !ok { return; }
      assert Frames(message)[..i + 1] == Frames(message)[..i] + [Frames(message)[i]];
    }
    ok := true;
  }

  datatype Event = Line(bytes: Bytes) | Tick | Done

  datatype Stop = Waiting | Finished | WriteFailed(unsent: seq<Bytes>)

  function Payload(event: Event): Bytes {
    if event.Line? then event.bytes else []
  }

  /** All bytes received with the first n events, in order. */
  function Received(first: Bytes, events: seq<Event>, n: nat): Bytes
    requires n <= |events|
  {
    if n == 0 then first else Received(first, events, n - 1) + Payload(events[n - 1])
  }

  function Lines(events: seq<Event>, n: nat): seq<Bytes>
    requires n <= |events|
  {
    if n == 0 then [] else Lines(events, n - 1) + if events[n - 1].Line? then [events[n - 1].bytes] else []
  }

  /** Each line is received whole and in order, and nothing else is. */
  lemma {:induction false} ReceivedIsLines(first: Bytes, events: seq<Event>, n: nat)
    requires n <= |events|
    ensures Received(first, events, n) == first + Concat(Lines(events, n))
  {
    if n > 0 {
      ReceivedIsLines(first, events, n - 1);
      ConcatMore(Lines(events, n - 1), events[n - 1]);
      Associates(first, Concat(Lines(events, n - 1)), Payload(events[n - 1]));
    }
  }

  lemma ConcatMore(lines: seq<Bytes>, event: Event)
    ensures Concat(lines + if event.Line? then [event.bytes] else []) == Concat(lines) + Payload(event)
  {
    if event.Line? {
      assert (lines + [event.bytes])[..|lines|] == lines;
    } else {
      assert lines + [] == lines;
    }
  }

  lemma Associates(a: Bytes, b: Bytes, c: Bytes)
    ensures a + b + c == a + (b + c)
  {
  }

  /** The payloads of the lines among the first n events, at ascending places. */
  ghost predicate LinesOf(lines: seq<Bytes>, at: seq<nat>, events: seq<Event>, n: nat) {
    && |at| == |lines| && n <= |events|
    && (forall j, k :: 0 <= j < k < |at| ==> at[j] < at[k])
    && (forall k :: 0 <= k < |at| ==> at[k] < n && events[at[k]] == Line(lines[k]))
    && (forall i :: 0 <= i < n && events[i].Line? ==> i in at)
  }

  lemma {:induction false} LinesInOrder(events: seq<Event>, n: nat) returns (at: seq<nat>)
    requires n <= |events|
    ensures LinesOf(Lines(events, n), at, events, n)
  {
    if n == 0 {
      at := [];
    } else {
      var before := LinesInOrder(events, n - 1);
      at := LinesMore(Lines(events, n - 1), before, events, n - 1, Lines(events, n));
    }
  }

  lemma LinesMore(lines: seq<Bytes>, at: seq<nat>, events: seq<Event>, n: nat, lines': seq<Bytes>) returns (at': seq<nat>)
    requires n < |events| && LinesOf(lines, at, events, n)
    requires lines' == lines + if events[n].Line? then [events[n].bytes] else []
    ensures LinesOf(lines', at', events, n + 1)
  {
    at' := at;
    if events[n].Line? {
      at' := at + [n];
      assert forall i :: i in at' <==> i in at || i == n;
    } else {
      assert lines' == lines;
    }
  }

  /** The bytes received since the last tick. */
  function Pending(first: Bytes, events: seq<Event>, n: nat): Bytes
    requires n <= |events|
  {
    if n == 0 then first
    else if events[n - 1] == Tick then []
    else Pending(first, events, n - 1) + Payload(events[n - 1])
  }

  /** Nothing received up to a tick is pending after it, and without a tick all is. */
  lemma {:induction false} PendingIsSinceTick(first: Bytes, events: seq<Event>, n: nat)
    requires n <= |events|
    ensures |Pending(first, events, n)| <= |Received(first, events, n)|
    ensures forall i :: 0 <= i < n && events[i] == Tick ==>
              |Received(first, events, i + 1)| + |Pending(first, events, n)| <= |Received(first, events, n)|
    ensures (forall i :: 0 <= i < n ==> events[i] != Tick) ==> Pending(first, events, n) == Received(first, events, n)
  {
    if n > 0 { PendingIsSinceTick(first, events, n - 1); }
  }

  /** What the connection has taken and what is held back are what was received,
      and no frame exceeds the limit. */
  ghost predicate Kept(conn: Conn?, held: Bytes, received: Bytes)
    reads conn
  {
    conn != null ==> Concat(conn.frames) + held == received && Bounded(conn.frames)
  }

  lemma Sent(before: seq<Bytes>, fs: seq<Bytes>, n: nat, received: Bytes)
    requires n <= |fs| && Concat(before) + Concat(fs) == received
    ensures Concat(before + fs[..n]) + Concat(fs[n..]) == received
  {
    ConcatAppend(before, fs[..n]);
    ConcatAppend(fs[..n], fs[n..]);
    var a, b, c := Concat(before), Concat(fs[..n]), Concat(fs[n..]);
    assert fs[..n] + fs[n..] == fs;
    assert a + b + c == a + (b + c);
  }

  lemma BoundedAppend(before: seq<Bytes>, fs: seq<Bytes>, n: nat)
    requires Bounded(before) && Bounded(fs) && n <= |fs|
    ensures Bounded(before + fs[..n])
  {
  }

  /** The timer case: send what is pending, or drop it without a connection. On a
      failure the frames not taken are held back, and there is at least one. */
  method SendPending(conn: Conn?, message: Bytes, ghost received: Bytes) returns (held: Bytes, stop: Stop)
    requires Kept(conn, message, received)
    modifies conn
    ensures Kept(conn, held, received)
    ensures stop == Waiting ==> held == []
    ensures stop != Waiting ==>
      && stop.WriteFailed? && conn != null && conn.good == 0
      && 0 < |stop.unsent| <= |Frames(message)|
      && stop.unsent == Frames(message)[|Frames(message)| - |stop.unsent|..] && held == Concat(stop.unsent)
  {
    held, stop := [], Waiting;
    if message == [] || conn == null { return; }
    ghost var before := conn.frames;
    var good := conn.good;
    var fs := Frames(message);
    var ok := CutAndWriteMessage(conn, message);
    var n := if ok then |fs| else good;
    assert conn.frames == before + fs[..n];
    held := Concat(fs[n..]);
    if !ok { stop := WriteFailed(fs[n..]); }
    assert Concat(conn.frames) + held == received by {
      FramesConserve(message);
      Sent(before, fs, n, received);
    }
    assert Bounded(conn.frames) by {
      FrameSizes(message);
      BoundedAppend(before, fs, n);
    }
  }

  /** One turn of the select loop. */
  method Turn(conn: Conn?, message: Bytes, event: Event, ghost received: Bytes, ghost more: Bytes)
    returns (held: Bytes, stop: Stop)
    requires Kept(conn, message, received) && more == received + Payload(event)
    modifies conn
    ensures Kept(conn, held, more)
    ensures stop == Finished <==> event == Done
    ensures stop.WriteFailed? ==> event == Tick && conn != null && conn.good == 0
    ensures !stop.WriteFailed? ==> held == if event == Tick then [] else message + Payload(event)
  {
    assert received + [] == received;
    match event
    case Done =>
      held, stop := message, Finished;
    case Line(bytes) =>
      held, stop := message + bytes, Waiting;
      if conn != null { assert Concat(conn.frames) + (message + bytes) == received + bytes; }
    case Tick =>
      held, stop := SendPending(conn, message, received);
  }

  /** trafficAntiShake for any interleaving of lines, ticks and the done signal.
      It consumes the events up to the first done or write failure. */
  method TrafficAntiShake(conn: Conn?, first: Bytes, events: seq<Event>)
    returns (held: Bytes, stop: Stop, consumed: nat)
    requires conn != null ==> conn.frames == []
    modifies conn
    ensures consumed <= |events| && (stop == Waiting ==> consumed == |events|)
    ensures stop == Finished <==> consumed > 0 && events[consumed - 1] == Done
    ensures forall i :: 0 <= i < consumed - 1 ==> events[i] != Done
    ensures Kept(conn, held, Received(first, events, consumed))
    ensures stop.WriteFailed? ==> conn != null && conn.good == 0 && consumed > 0 && events[consumed - 1] == Tick
    ensures !stop.WriteFailed? ==> held == Pending(first, events, consumed)
    ensures conn != null && !stop.WriteFailed? ==>
      forall i :: 0 <= i < consumed && events[i] == Tick ==> |Received(first, events, i + 1)| <= |Concat(conn.frames)|
  {
    held, stop, consumed := first, Waiting, 0;
    while consumed < |events| && stop == Waiting
      invariant consumed <= |events|
      invariant stop == Finished <==> consumed > 0 && events[consumed - 1] == Done
      invariant forall i :: 0 <= i < consumed - 1 ==> events[i] != Done
      invariant Kept(conn, held, Received(first, events, consumed))
      invariant stop.WriteFailed? ==> conn != null && conn.good == 0 && consumed > 0 && events[consumed - 1] == Tick
      invariant !stop.WriteFailed? ==> held == Pending(first, events, consumed)
      decreases |events| - consumed
    {
      held, stop := Turn(conn, held, events[consumed], Received(first, events, consumed), Received(first, events, consumed + 1));
      consumed := consumed + 1;
    }
    PendingIsSinceTick(first, events, consumed);
  }
}
