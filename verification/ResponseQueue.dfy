/** Delivery of response packets to the platform across reconnects.
    Models connect, sendResponse and the reconnect loop of
    pkg/websocket/client.go. Dialling, reading and writing are oracles. */
module ResponseQueue {

  datatype Packet = Packet(key: string, kind: string, payload: string)

  /** What can happen next in a connection's select loop: a producer puts a
      packet on the response channel, the oldest packet of the channel is
      received and its write succeeds or fails, or the reader reports an error. */
  datatype Occurrence = Produced(p: Packet) | Received(ok: bool) | ReadFailed

  /** One call of connect with the wait before it: the packets that arrive in the
      channel up to the end of the dial and of the writes of packets left over from
      before, whether the dial succeeds, how those writes go, and what happens
      then. Producers do not stop at an error: packets of later occurrences still
      arrive. */
  datatype Session = Session(arriving: seq<Packet>, dialled: bool, flush: seq<bool>, occurrences: seq<Occurrence>)

  /** The packets produced in a series of occurrences, in order. */
  function ProducedIn(occurrences: seq<Occurrence>): seq<Packet> {
    if occurrences == [] then []
    else (if occurrences[0].Produced? then [occurrences[0].p] else []) + ProducedIn(occurrences[1..])
  }

  /** All packets produced over a sequence of connections, whatever becomes of them. */
  function Production(sessions: seq<Session>): seq<Packet> {
    if sessions == [] then []
    else sessions[0].arriving + ProducedIn(sessions[0].occurrences) + Production(sessions[1..])
  }

  /** The largest size of a packet, and how packets are measured. */
  datatype Limits = Limits(size: Packet -> nat, max: nat) {
    predicate Oversized(p: Packet) {
      size(p) >= max
    }

    /** sendResponse reports success: an oversized packet is dropped silently. */
    predicate Sent(p: Packet, ok: bool) {
      ok || Oversized(p)
    }
  }

  /** The packets that are small enough to be written. */
  function Sendable(ps: seq<Packet>, limits: Limits): seq<Packet> {
    if ps == [] then []
    else
      var earlier, last := Sendable(ps[..|ps| - 1], limits), ps[|ps| - 1];
      if limits.Oversized(last) then earlier else earlier + [last]
  }

  lemma SendableMore(ps: seq<Packet>, p: Packet, limits: Limits)
    ensures Sendable(ps + [p], limits) == if limits.Oversized(p) then Sendable(ps, limits) else Sendable(ps, limits) + [p]
  {
    assert (ps + [p])[..|ps|] == ps;
  }

  /** Positions in ascending order. */
  ghost predicate Ascending(at: seq<nat>) {
    forall i, j :: 0 <= i < j < |at| ==> at[i] < at[j]
  }

  /** The delivered packets are the consumed ones below the limit, in order and as
      often as they were consumed. */
  ghost predicate DeliversBelow(consumed: seq<Packet>, delivered: seq<Packet>, size: Packet -> nat, max: nat) {
    exists at: seq<nat> :: PicksBelow(consumed, delivered, size, max, at)
  }

  ghost predicate PicksBelow(consumed: seq<Packet>, delivered: seq<Packet>, size: Packet -> nat, max: nat, at: seq<nat>) {
    && |at| == |delivered| && Ascending(at)
    && (forall k :: 0 <= k < |at| ==> at[k] < |consumed| && delivered[k] == consumed[at[k]])
    && (forall i :: 0 <= i < |consumed| ==> (i in at <==> size(consumed[i]) < max))
  }

  lemma {:induction false} SendableIsBelow(ps: seq<Packet>, limits: Limits) returns (at: seq<nat>)
    ensures PicksBelow(ps, Sendable(ps, limits), limits.size, limits.max, at)
  {
    if ps == [] {
      at := [];
    } else {
      var n := |ps| - 1;
      at := SendableIsBelow(ps[..n], limits);
      if limits.size(ps[n]) < limits.max {
        at := PickLast(ps, Sendable(ps[..n], limits), limits.size, limits.max, at);
      } else {
        assert forall i :: 0 <= i < n ==> ps[..n][i] == ps[i];
      }
    }
  }

  lemma PickLast(ps: seq<Packet>, delivered: seq<Packet>, size: Packet -> nat, max: nat, at: seq<nat>) returns (more: seq<nat>)
    requires ps != [] && size(ps[|ps| - 1]) < max && PicksBelow(ps[..|ps| - 1], delivered, size, max, at)
    ensures PicksBelow(ps, delivered + [ps[|ps| - 1]], size, max, more)
  {
    var n := |ps| - 1;
    more := at + [n];
    forall i | 0 <= i < |ps| ensures i in more <==> size(ps[i]) < max {
      if i < n { assert ps[..n][i] == ps[i] && (i in at <==> i in more); }
    }
  }

  lemma AllBelow(consumed: seq<Packet>, delivered: seq<Packet>, size: Packet -> nat, max: nat)
    requires DeliversBelow(consumed, delivered, size, max)
    ensures forall p :: p in delivered ==> size(p) < max
  {
    var at :| PicksBelow(consumed, delivered, size, max, at);
    forall p | p in delivered ensures size(p) < max {
      var k :| 0 <= k < |delivered| && delivered[k] == p;
      assert at[k] in at;
    }
  }

  /** Packets by where they are: sent or dropped, kept for the next connection,
      in the response channel (oldest first). */
  datatype Queues = Queues(consumed: seq<Packet>, kept: seq<Packet>, channel: seq<Packet>) {
    function All(): seq<Packet> {
      consumed + kept + channel
    }

    function Arrive(ps: seq<Packet>): Queues {
      this.(channel := channel + ps)
    }
  }

  /** Queues, and whether connect has returned an error. */
  datatype After = After(q: Queues, err: bool)

  /** Sending what was kept, write i being the next. */
  function Flushed(q: Queues, limits: Limits, flush: seq<bool>, i: nat): After
    decreases |q.kept|
  {
    if q.kept == [] then After(q, false)
    else if limits.Sent(q.kept[0], i < |flush| ==> flush[i]) then
      Flushed(Queues(q.consumed + [q.kept[0]], q.kept[1..], q.channel), limits, flush, i + 1)
    else After(q, true)
  }

  function OneReceived(q: Queues, limits: Limits, ok: bool): After
    requires q.channel != []
  {
    var p, rest := q.channel[0], q.channel[1..];
    if limits.Sent(p, ok) then After(Queues(q.consumed + [p], q.kept, rest), false)
    else After(Queues(q.consumed, q.kept + [p], rest), true)
  }

  function Occurred(q: Queues, limits: Limits, o: Occurrence): After {
    match o
    case Produced(p) => After(q.Arrive([p]), false)
    case ReadFailed => After(q, true)
    case Received(ok) => if q.channel == [] then After(q, false) else OneReceived(q, limits, ok)
  }

  function Served(q: Queues, limits: Limits, occurrences: seq<Occurrence>): After
    decreases |occurrences|
  {
    if occurrences == [] then After(q, false)
    else
      var next := Occurred(q, limits, occurrences[0]);
      if next.err then After(next.q.Arrive(ProducedIn(occurrences[1..])), true)
      else Served(next.q, limits, occurrences[1..])
  }

  function Connected(q: Queues, limits: Limits, session: Session): After {
    var q, more := q.Arrive(session.arriving), ProducedIn(session.occurrences);
    if !session.dialled then After(q.Arrive(more), true)
    else
      var flushed := Flushed(q, limits, session.flush, 0);
      if flushed.err then After(flushed.q.Arrive(more), true) else Served(flushed.q, limits, session.occurrences)
  }

  function Reconnected(q: Queues, limits: Limits, sessions: seq<Session>): Queues
    decreases |sessions|
  {
    if sessions == [] then q else Reconnected(Connected(q, limits, sessions[0]).q, limits, sessions[1..])
  }

  // ----- Conservation -----

  lemma {:induction false} FlushedKeepsAll(q: Queues, limits: Limits, flush: seq<bool>, i: nat)
    ensures var after := Flushed(q, limits, flush, i);
      after.q.All() == q.All() && |after.q.kept| <= |q.kept| && (!after.err <==> after.q.kept == []) && after.q.channel == q.channel
    decreases |q.kept|
  {
    if q.kept != [] && limits.Sent(q.kept[0], i < |flush| ==> flush[i]) {
      var next := Queues(q.consumed + [q.kept[0]], q.kept[1..], q.channel);
      assert next.consumed + next.kept == q.consumed + q.kept;
      FlushedKeepsAll(next, limits, flush, i + 1);
    }
  }

  /** Which kept packets are consumed: those before the first one below the limit
      whose write fails; n of them, write i being the next. */
  lemma {:induction false} FlushedByWrites(q: Queues, limits: Limits, flush: seq<bool>, i: nat) returns (n: nat)
    ensures var after := Flushed(q, limits, flush, i);
      && n <= |q.kept| && after.q == Queues(q.consumed + q.kept[..n], q.kept[n..], q.channel)
      && (forall k :: 0 <= k < n && limits.size(q.kept[k]) < limits.max ==> (i + k < |flush| ==> flush[i + k]))
      && (after.err <==> n < |q.kept|)
      && (after.err ==> limits.size(q.kept[n]) < limits.max && i + n < |flush| && !flush[i + n])
    decreases |q.kept|
  {
    if q.kept == [] || !limits.Sent(q.kept[0], i < |flush| ==> flush[i]) {
      n := 0;
      assert q.kept[n..] == q.kept && q.consumed + q.kept[..n] == q.consumed;
    } else {
      var next := Queues(q.consumed + [q.kept[0]], q.kept[1..], q.channel);
      var m := FlushedByWrites(next, limits, flush, i + 1);
      n := m + 1;
      assert q.consumed + [q.kept[0]] + q.kept[1..][..m] == q.consumed + q.kept[..n] && q.kept[1..][m..] == q.kept[n..];
      forall k | 0 <= k < n && limits.size(q.kept[k]) < limits.max && i + k < |flush| ensures flush[i + k] {
        if k > 0 { assert q.kept[k] == next.kept[k - 1]; }
      }
    }
  }

  /** An occurrence only adds what it produces, at the end. */
  lemma OccurredKeepsAll(q: Queues, limits: Limits, o: Occurrence)
    requires q.kept == []
    ensures var after := Occurred(q, limits, o);
      && after.q.All() == q.All() + (if o.Produced? then [o.p] else [])
      && (if after.err then |after.q.kept| <= 1 else after.q.kept == [])
  {
    if o.Received? && q.channel != [] {
      var p, rest := q.channel[0], q.channel[1..];
      assert q.consumed + [] + ([p] + rest) == q.consumed + [p] + rest;
    }
  }

  lemma {:induction false} ServedKeepsAll(q: Queues, limits: Limits, occurrences: seq<Occurrence>)
    requires q.kept == []
    ensures var after := Served(q, limits, occurrences);
      && after.q.All() == q.All() + ProducedIn(occurrences)
      && |after.q.kept| <= 1 && (!after.err ==> after.q.kept == [])
    decreases |occurrences|
  {
    if occurrences != [] {
      OccurredKeepsAll(q, limits, occurrences[0]);
      var next := Occurred(q, limits, occurrences[0]);
      AllArrive(next.q, ProducedIn(occurrences[1..]));
      if !next.err { ServedKeepsAll(next.q, limits, occurrences[1..]); }
    }
  }

  /** Over any sequence of connections, dial failures and write failures the
      packets consumed, kept and waiting are those of before and those produced
      meanwhile, once each and in order; at most one packet is kept. */
  lemma {:induction false} ReconnectedKeepsAll(q: Queues, limits: Limits, sessions: seq<Session>)
    requires |q.kept| <= 1
    ensures Reconnected(q, limits, sessions).All() == q.All() + Production(sessions)
    ensures |Reconnected(q, limits, sessions).kept| <= 1
    decreases |sessions|
  {
    if sessions != [] {
      ConnectedKeepsAll(q, limits, sessions[0]);
      ReconnectedKeepsAll(Connected(q, limits, sessions[0]).q, limits, sessions[1..]);
    }
  }

  lemma ConnectedKeepsAll(q: Queues, limits: Limits, session: Session)
    requires |q.kept| <= 1
    ensures Connected(q, limits, session).q.All() == q.All() + (session.arriving + ProducedIn(session.occurrences))
    ensures |Connected(q, limits, session).q.kept| <= 1
  {
    var here, more := q.Arrive(session.arriving), ProducedIn(session.occurrences);
    var flushed := Flushed(here, limits, session.flush, 0);
    FlushedKeepsAll(here, limits, session.flush, 0);
    AllArrive(q, session.arriving);
    AllArrive(here, more);
    AllArrive(flushed.q, more);
    if session.dialled && !flushed.err { ServedKeepsAll(flushed.q, limits, session.occurrences); }
    assert q.All() + (session.arriving + more) == q.All() + session.arriving + more;
  }

  lemma AllArrive(q: Queues, ps: seq<Packet>)
    ensures q.Arrive(ps).All() == q.All() + ps
  {
  }

  /** A good connection that receives often enough delivers everything. */
  lemma GoodConnectionDrains(q: Queues, limits: Limits, session: Session)
    requires session.dialled && (forall i :: 0 <= i < |session.flush| ==> session.flush[i])
    requires |session.occurrences| >= |q.channel| + |session.arriving| && forall i :: 0 <= i < |session.occurrences| ==> session.occurrences[i] == Received(true)
    ensures Connected(q, limits, session) == After(Queues(q.All() + session.arriving, [], []), false)
  {
    var here := q.Arrive(session.arriving);
    GoodFlush(here, limits, session.flush, 0);
    GoodReceives(Queues(q.consumed + q.kept, [], here.channel), limits, session.occurrences);
    AllArrive(q, session.arriving);
  }

  lemma {:induction false} GoodFlush(q: Queues, limits: Limits, flush: seq<bool>, i: nat)
    requires forall j :: 0 <= j < |flush| ==> flush[j]
    ensures Flushed(q, limits, flush, i) == After(Queues(q.consumed + q.kept, [], q.channel), false)
    decreases |q.kept|
  {
    if q.kept == [] {
      assert q.consumed + q.kept == q.consumed;
    } else {
      var next := Queues(q.consumed + [q.kept[0]], q.kept[1..], q.channel);
      GoodFlush(next, limits, flush, i + 1);
      assert next.consumed + next.kept == q.consumed + q.kept;
    }
  }

  lemma {:induction false} GoodReceives(q: Queues, limits: Limits, occurrences: seq<Occurrence>)
    requires q.kept == [] && |occurrences| >= |q.channel| && forall i :: 0 <= i < |occurrences| ==> occurrences[i] == Received(true)
    ensures Served(q, limits, occurrences) == After(Queues(q.consumed + q.channel, [], []), false)
    decreases |occurrences|
  {
    if occurrences == [] {
      assert q.consumed + q.channel == q.consumed;
    } else {
      var next := Occurred(q, limits, occurrences[0]).q;
      GoodReceives(next, limits, occurrences[1..]);
      assert next.consumed + next.channel == q.consumed + q.channel;
    }
  }

  /** Consumed packets being a prefix of the produced ones, what was delivered
      is a prefix of what is deliverable; all of it once nothing is pending. */
  lemma {:induction false} DeliveryIsPrefix(consumed: seq<Packet>, pending: seq<Packet>, limits: Limits)
    ensures Sendable(consumed + pending, limits) == Sendable(consumed, limits) + Sendable(pending, limits)
  {
    if pending == [] {
      assert consumed + pending == consumed;
    } else {
      var n := |pending| - 1;
      assert (consumed + pending)[..|consumed| + n] == consumed + pending[..n];
      DeliveryIsPrefix(consumed, pending[..n], limits);
    }
  }

  // ----- The client -----

  class AppClient {
    const limits: Limits
    var respQueue: seq<Packet>
    /** The response channel, oldest packet first. */
    var channel: seq<Packet>
    /** What the platform has received. */
    var delivered: seq<Packet>
    ghost var consumed: seq<Packet>

    ghost function State(): Queues
      reads this
    {
      Queues(consumed, respQueue, channel)
    }

    /** The platform received exactly the consumed packets below the limit (Below). */
    ghost predicate Valid()
      reads this
    {
      delivered == Sendable(consumed, limits)
    }

    ghost predicate Below()
      reads this
    {
      DeliversBelow(consumed, delivered, limits.size, limits.max)
    }

    lemma ValidIsBelow()
      requires Valid()
      ensures Below() && forall p :: p in delivered ==> limits.size(p) < limits.max
    {
      var at := SendableIsBelow(consumed, limits);
      AllBelow(consumed, delivered, limits.size, limits.max);
    }

    constructor (limits: Limits)
      ensures Valid() && State() == Queues([], [], []) && this.limits == limits
    {
      this.limits := limits;
      respQueue, channel, delivered, consumed := [], [], [], [];
    }

    method SendResponse(p: Packet, ok: bool) returns (sent: bool)
      requires Valid()
      modifies this`delivered, this`consumed
      ensures Valid() && sent == limits.Sent(p, ok)
      ensures delivered == if sent && !limits.Oversized(p) then old(delivered) + [p] else old(delivered)
      ensures consumed == if sent then old(consumed) + [p] else old(consumed)
      ensures limits.size(p) < limits.max ==> sent == ok && delivered == if ok then old(delivered) + [p] else old(delivered)
      ensures limits.size(p) >= limits.max ==> sent && delivered == old(delivered)
    {
      SendableMore(consumed, p, limits);
      if limits.size(p) >= limits.max {
        consumed := consumed + [p];
        return true;
      }
      if ok { delivered, consumed := delivered + [p], consumed + [p]; }
      sent := ok;
    }

    /** The loop over packets left over from the previous connection. */
    method Flush(outcomes: seq<bool>) returns (err: bool)
      requires Valid()
      modifies this`respQueue, this`delivered, this`consumed
      ensures Valid() && Below() && After(State(), err) == Flushed(old(State()), limits, outcomes, 0)
      ensures var n := |consumed| - |old(consumed)|;
        && 0 <= n <= |old(respQueue)| && consumed == old(consumed) + old(respQueue)[..n] && respQueue == old(respQueue)[n..]
        && (forall k :: 0 <= k < n && limits.size(old(respQueue)[k]) < limits.max ==> (k < |outcomes| ==> outcomes[k]))
        && (err <==> n < |old(respQueue)|)
        && (err ==> limits.size(old(respQueue)[n]) < limits.max && n < |outcomes| && !outcomes[n])
    {
      FlushEnds(outcomes);
      err := FlushLoop(outcomes);
      ValidIsBelow();
    }

    lemma FlushEnds(outcomes: seq<bool>)
      ensures var after := Flushed(State(), limits, outcomes, 0); var n := |after.q.consumed| - |consumed|;
        && 0 <= n <= |respQueue| && after.q.consumed == consumed + respQueue[..n] && after.q.kept == respQueue[n..]
        && (forall k :: 0 <= k < n && limits.size(respQueue[k]) < limits.max ==> (k < |outcomes| ==> outcomes[k]))
        && (after.err <==> n < |respQueue|)
        && (after.err ==> limits.size(respQueue[n]) < limits.max && n < |outcomes| && !outcomes[n])
    {
      var m := FlushedByWrites(State(), limits, outcomes, 0);
    }

    method FlushLoop(outcomes: seq<bool>) returns (err: bool)
      requires Valid()
      modifies this`respQueue, this`delivered, this`consumed
      ensures Valid() && After(State(), err) == Flushed(old(State()), limits, outcomes, 0)
    {
      var end := 0;
      while end < |respQueue|
        invariant end <= |respQueue| && respQueue == old(respQueue) && Valid()
        invariant Flushed(Queues(consumed, respQueue[end..], channel), limits, outcomes, end) == Flushed(old(State()), limits, outcomes, 0)
      {
        var sent := SendResponse(respQueue[end], end < |outcomes| ==> outcomes[end]);
        if !sent {
          respQueue := respQueue[end..];
          return true;
        }
        assert respQueue[end..][1..] == respQueue[end + 1..];
        end := end + 1;
      }
      respQueue := respQueue[end..];
      err := false;
    }

    /** Take the oldest packet from the channel and write it; keep it for the
        next connection if the write fails. */
    method Receive(ok: bool) returns (err: bool)
      requires Valid() && channel != []
      modifies this
      ensures Valid() && After(State(), err) == OneReceived(old(State()), limits, ok)
      ensures err <==> limits.size(old(channel)[0]) < limits.max && !ok
      ensures delivered == if limits.size(old(channel)[0]) < limits.max && ok then old(delivered) + [old(channel)[0]] else old(delivered)
    {
      var p := channel[0];
      channel := channel[1..];
      var sent := SendResponse(p, ok);
      if !sent { respQueue := respQueue + [p]; }
      err := !sent;
    }

    method Connect(session: Session) returns (err: bool)
      requires Valid()
      modifies this
      ensures Valid() && After(State(), err) == Connected(old(State()), limits, session)
    {
      channel := channel + session.arriving;
      if !session.dialled {
        Arriving(session.occurrences);
        return true;
      }
      err := Flush(session.flush);
      if err {
        Arriving(session.occurrences);
        return;
      }
      ghost var flushed := State();
      for i := 0 to |session.occurrences|
        invariant Valid() && Served(State(), limits, session.occurrences[i..]) == Served(flushed, limits, session.occurrences)
      {
        assert session.occurrences[i..][1..] == session.occurrences[i + 1..];
        match session.occurrences[i]
        case Produced(p) =>
          channel := channel + [p];
        case ReadFailed =>
          Arriving(session.occurrences[i + 1..]);
          return true;
        case Received(ok) =>
          if channel != [] {
            err := Receive(ok);
            if err {
              Arriving(session.occurrences[i + 1..]);
              return;
            }
          }
      }
      err := false;
    }

    /** What the producers still put on the channel after connect has returned. */
    method Arriving(occurrences: seq<Occurrence>)
      modifies this`channel
      ensures State() == old(State()).Arrive(ProducedIn(occurrences))
    {
      channel := channel + ProducedIn(occurrences);
    }

    /** Loop: connect again after every connection. */
    method Loop(sessions: seq<Session>)
      requires Valid() && |respQueue| <= 1
      modifies this
      ensures Valid() && |respQueue| <= 1 && State() == Reconnected(old(State()), limits, sessions)
      ensures State().All() == old(State()).All() + Production(sessions)
      ensures Below() && forall p :: p in delivered ==> limits.size(p) < limits.max
    {
      for i := 0 to |sessions|
        invariant Valid() && Reconnected(State(), limits, sessions[i..]) == Reconnected(old(State()), limits, sessions)
      {
        assert sessions[i..][1..] == sessions[i + 1..];
        var err := Connect(sessions[i]);
      }
      ReconnectedKeepsAll(old(State()), limits, sessions);
      ValidIsBelow();
    }
  }
}
