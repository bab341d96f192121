/** The retransmission loop of libcore/stun/net.go (section 9.3 of RFC 3489, section 7 of
    RFC 5389) over a datagram socket.  Time is a natural number of milliseconds that only the
    waits of ReadFrom let pass. */
module StunSend {
  import opened Bytes
  import opened Common
  import opened StunPacket

  const NUM_RETRANSMIT := 9
  const DEFAULT_TIMEOUT := 100
  const MAX_TIMEOUT := 1600
  const MAX_PACKET_SIZE := 1024

  datatype Datagram = Datagram(arrival: nat, data: seq<byte>)

  datatype Sent = Sent(time: nat, data: seq<byte>)

  datatype Read = Got(data: seq<byte>) | Timeout | ReadFailed

  class Connection {
    var now: nat
    /** The datagrams not read yet, in the order of their arrival. */
    var incoming: seq<Datagram>
    var readDeadline: Option<nat>
    var sent: seq<Sent>

    constructor (now: nat, incoming: seq<Datagram>)
      ensures this.now == now && this.incoming == incoming && readDeadline == None && sent == []
    {
      this.now, this.incoming, readDeadline, sent := now, incoming, None, [];
    }

    ghost predicate Valid()
      reads this
    {
      InOrder(incoming)
    }

    /** A datagram leaves, or the socket fails. */
    method WriteTo(data: seq<byte>) returns (ok: bool)
      modifies this`sent
      ensures sent == if ok then old(sent) + [Sent(now, data)] else old(sent)
    {
      ok := *;
      if ok {
        sent := sent + [Sent(now, data)];
      }
    }

    method SetReadDeadline(deadline: Option<nat>)
      modifies this`readDeadline
      ensures readDeadline == deadline
    {
      readDeadline := deadline;
    }

    /** Waits for the next datagram until the read deadline; a deadline that has passed wins
        over a datagram that is already there. */
    method ReadFrom() returns (r: Read)
      requires Valid() && readDeadline.Some?
      modifies this`now, this`incoming
      ensures Valid()
      ensures r.Got? ==>
                && old(incoming) != [] && incoming == old(incoming)[1..]
                && r.data == Received(old(incoming)[0])
                && old(now) < readDeadline.value && old(incoming)[0].arrival < readDeadline.value
                && now == Max(old(now), old(incoming)[0].arrival)
      ensures r.Timeout? ==>
                && incoming == old(incoming)
                && now == Max(old(now), readDeadline.value)
                && (old(now) < readDeadline.value && incoming != [] ==> incoming[0].arrival >= readDeadline.value)
      ensures r.ReadFailed? ==> incoming == old(incoming) && now == old(now)
    {
      var failed := *;
      if failed {
        return ReadFailed;
      }
      if now >= readDeadline.value {
        return Timeout;
      }
      if incoming != [] && incoming[0].arrival < readDeadline.value {
        var d := incoming[0];
        incoming := incoming[1..];
        now := Max(now, d.arrival);
        return Got(Received(d));
      }
      now := readDeadline.value;
      return Timeout;
    }
  }

  function Max(a: nat, b: nat): nat {
    if a < b then b else a
  }

  function Min(a: nat, b: nat): nat {
    if a < b then a else b
  }

  predicate InOrder(incoming: seq<Datagram>) {
    |incoming| < 2 || (incoming[0].arrival <= incoming[1].arrival && InOrder(incoming[1..]))
  }

  lemma {:induction false} FirstArrives(incoming: seq<Datagram>, j: nat)
    requires InOrder(incoming) && j < |incoming|
    ensures incoming[0].arrival <= incoming[j].arrival
  {
    if j > 0 { FirstArrives(incoming[1..], j - 1); }
  }

  /** What fits the receive buffer. */
  function Received(d: Datagram): seq<byte> {
    if |d.data| <= MAX_PACKET_SIZE then d.data else d.data[..MAX_PACKET_SIZE]
  }

  datatype Outcome =
    | Response(data: seq<byte>)
    | ErrorResponse(data: seq<byte>)
    | NoReply
    | SocketError

  /** How a datagram answers the request: not at all unless it is a well-formed binding
      response or error response with the transaction id of the request. */
  function ReplyIn(data: seq<byte>, transId: seq<byte>): (reply: Option<Outcome>)
    ensures reply.Some? ==> reply.value.Response? || reply.value.ErrorResponse?
  {
    match Parse(data)
    case Malformed(_) => None
    case Message(types, _, id, _) =>
      if id != transId then None
      else Some(if types == BINDING_ERROR_RESPONSE then ErrorResponse(data) else Response(data))
  }

  /** A datagram is a reply exactly if it is well formed and carries the transaction id of the
      request, and an error exactly if its type is 0x0111. */
  lemma ReplyMeaning(data: seq<byte>, transId: seq<byte>)
    ensures ReplyIn(data, transId).Some? <==> Parse(data).Message? && data[4..20] == transId
    ensures ReplyIn(data, transId).Some? ==>
              ReplyIn(data, transId).value ==
              if ToU16(data[0..2]) == 0x0111 then ErrorResponse(data) else Response(data)
  {
  }

  /** What an outcome with data has to do with the request. */
  predicate BelongsTo(outcome: Outcome, transId: seq<byte>) {
    outcome.Response? || outcome.ErrorResponse? ==>
      && Parse(outcome.data).Message? && outcome.data[4..20] == transId
      && (outcome.ErrorResponse? <==> ToU16(outcome.data[0..2]) == 0x0111)
  }

  method CheckReply(data: seq<byte>, transId: seq<byte>) returns (reply: Option<Outcome>)
    ensures reply == ReplyIn(data, transId)
  {
    var p, err := NewPacketFromBytes(data);
    if err.Some? || p.transId != transId {
      return None;
    }
    return Some(if p.types == BINDING_ERROR_RESPONSE then ErrorResponse(data) else Response(data));
  }

  /** What counts as a reply: the transaction id is the request's. The judgement is passed around
      as a value, so that the proofs about streams do not look into the parser. */
  type Replies = seq<byte> -> Option<Outcome>

  function RepliesTo(transId: seq<byte>): Replies {
    data => ReplyIn(data, transId)
  }

  /** The index of the first reply among the datagrams, or their number. */
  function FirstReply(incoming: seq<Datagram>, replies: Replies): (k: nat)
    ensures k <= |incoming|
  {
    if incoming == [] || replies(Received(incoming[0])).Some? then 0
    else 1 + FirstReply(incoming[1..], replies)
  }

  /** FirstReply skips what is no reply, however much of it there is, and nothing else. */
  lemma {:induction false} FirstReplyIsFirst(incoming: seq<Datagram>, replies: Replies)
    ensures var k := FirstReply(incoming, replies);
            && (forall j :: 0 <= j < k ==> replies(Received(incoming[j])) == None)
            && (k < |incoming| ==> replies(Received(incoming[k])).Some?)
  {
    if incoming != [] && replies(Received(incoming[0])).None? {
      FirstReplyIsFirst(incoming[1..], replies);
      var k := FirstReply(incoming, replies);
      forall j | 0 < j < k ensures replies(Received(incoming[j])) == None {
        assert incoming[j] == incoming[1..][j - 1];
      }
    }
  }

  /** `replies` is the judgement of CheckReply. */
  ghost predicate Judges(replies: Replies, transId: seq<byte>) {
    forall data {:trigger ReplyIn(data, transId)} :: replies(data) == ReplyIn(data, transId)
  }

  // ---------------------------------------------------------------- the schedule

  /** The i-th retransmission interval. */
  function Interval(i: nat, first: nat, limit: nat): nat {
    if i == 0 then first
    else
      var previous := Interval(i - 1, first, limit);
      if previous < limit then 2 * previous else previous
  }

  /** The time from the first transmission to the i-th. */
  function Elapsed(i: nat, first: nat, limit: nat): nat {
    if i == 0 then 0 else Elapsed(i - 1, first, limit) + Interval(i - 1, first, limit)
  }

  lemma {:induction false} IntervalBound(i: nat, first: nat, limit: nat)
    requires first > 0
    ensures 0 < Interval(i, first, limit) <= Max(first, 2 * limit)
  {
    if i > 0 { IntervalBound(i - 1, first, limit); }
  }

  /** No schedule takes longer than its count times the larger of the first interval and
      twice the limit. */
  lemma {:induction false} ElapsedBound(n: nat, first: nat, limit: nat)
    requires first > 0
    ensures n <= Elapsed(n, first, limit) <= n * Max(first, 2 * limit)
  {
    if n > 0 {
      ElapsedBound(n - 1, first, limit);
      IntervalBound(n - 1, first, limit);
      assert n * Max(first, 2 * limit) == (n - 1) * Max(first, 2 * limit) + Max(first, 2 * limit);
    }
  }

  lemma {:induction false} ElapsedGrows(i: nat, n: nat, first: nat, limit: nat)
    requires i <= n
    ensures Elapsed(i, first, limit) <= Elapsed(n, first, limit)
  {
    if i < n { ElapsedGrows(i, n - 1, first, limit); }
  }

  /** Once an interval has reached the limit, all later ones are the same. */
  lemma {:induction false} IntervalSettles(i: nat, k: nat, first: nat, limit: nat)
    requires i <= k && Interval(i, first, limit) >= limit
    ensures Interval(k, first, limit) == Interval(i, first, limit)
    ensures Elapsed(k, first, limit) == Elapsed(i, first, limit) + (k - i) * Interval(i, first, limit)
  {
    if i < k {
      IntervalSettles(i, k - 1, first, limit);
      assert (k - i) * Interval(i, first, limit) == (k - 1 - i) * Interval(i, first, limit) + Interval(i, first, limit);
    }
  }

  /** The two schedules in use: 3.1 s for StunTest, 9.5 s for the defaults. */
  lemma ScheduleLengths()
    ensures Elapsed(5, 100, 1600) == 3100
    ensures Elapsed(NUM_RETRANSMIT, DEFAULT_TIMEOUT, MAX_TIMEOUT) == 9500
  {
    assert Elapsed(2, 100, 1600) == 300 && Interval(2, 100, 1600) == 400;
    assert Elapsed(4, 100, 1600) == 1500 && Interval(4, 100, 1600) == 1600;
    assert Elapsed(5, 100, 1600) == 3100;
    IntervalSettles(4, 9, 100, 1600);
  }

  /** When the wait for a request sent at `start` is over. */
  function WaitEnd(start: nat, count: nat, first: nat, limit: nat, deadline: Option<nat>): nat {
    var scheduled := start + Elapsed(count, first, limit);
    if deadline.None? then scheduled else Max(start, Min(scheduled, deadline.value))
  }

  function OrDefault(setting: int, default: nat): nat {
    if setting <= 0 then default else setting
  }

  /** `rest` is what is left of `stream` after datagrams that are no replies. */
  predicate Skips(stream: seq<Datagram>, rest: seq<Datagram>, replies: Replies) {
    stream == rest ||
    (stream != [] && replies(Received(stream[0])).None? && Skips(stream[1..], rest, replies))
  }

  lemma {:induction false} SkipsOn(stream: seq<Datagram>, middle: seq<Datagram>, rest: seq<Datagram>, replies: Replies)
    requires Skips(stream, middle, replies) && Skips(middle, rest, replies)
    ensures Skips(stream, rest, replies)
  {
    if stream != middle { SkipsOn(stream[1..], middle, rest, replies); }
  }

  lemma {:induction false} SkipsToFirst(stream: seq<Datagram>, rest: seq<Datagram>, replies: Replies)
    requires Skips(stream, rest, replies)
    ensures |rest| <= |stream| && rest == stream[|stream| - |rest|..]
    ensures FirstReply(stream, replies) == |stream| - |rest| + FirstReply(rest, replies)
  {
    if stream != rest { SkipsToFirst(stream[1..], rest, replies); }
  }

  /** The first reply of the stream is the outcome, received as soon as it was there. */
  ghost predicate Answered(stream: seq<Datagram>, replies: Replies, start: nat, end: nat,
                           outcome: Outcome, now: nat, unread: seq<Datagram>)
  {
    var k := FirstReply(stream, replies);
    && k < |stream| && stream[k].arrival < end
    && Some(outcome) == replies(Received(stream[k]))
    && now == Max(start, stream[k].arrival)
    && unread == stream[k + 1..]
  }

  /** No reply of the stream arrives before the end of the wait. */
  ghost predicate Unanswered(stream: seq<Datagram>, replies: Replies, end: nat) {
    var k := FirstReply(stream, replies);
    k < |stream| ==> stream[k].arrival >= end
  }

  /** All of `rest` was still to come at the time `now`. */
  predicate ToCome(rest: seq<Datagram>, now: nat) {
    rest != [] ==> rest[0].arrival >= now
  }

  lemma DropTwice<T>(s: seq<T>, m: nat, k: nat)
    requires m + k < |s|
    ensures s[m..][k] == s[m + k] && s[m..][k + 1..] == s[m + k + 1..]
  {
  }

  /** The first reply of a rest is the first reply of the stream. */
  lemma FirstOfRest(stream: seq<Datagram>, rest: seq<Datagram>, replies: Replies)
    requires Skips(stream, rest, replies)
    ensures var k, m := FirstReply(rest, replies), FirstReply(stream, replies);
            && m <= |stream| && (k < |rest| <==> m < |stream|)
            && (k < |rest| ==> stream[m] == rest[k] && stream[m + 1..] == rest[k + 1..])
  {
    SkipsToFirst(stream, rest, replies);
    var k := FirstReply(rest, replies);
    if k < |rest| { DropTwice(stream, |stream| - |rest|, k); }
  }

  /** All of what is to come arrives no earlier. */
  lemma AllToCome(rest: seq<Datagram>, now: nat, k: nat)
    requires InOrder(rest) && ToCome(rest, now) && k < |rest|
    ensures rest[k].arrival >= now
  {
    FirstArrives(rest, k);
  }

  lemma AnsweredLater(stream: seq<Datagram>, rest: seq<Datagram>, replies: Replies, start: nat, now: nat,
                      end: nat, end': nat, outcome: Outcome, now': nat, unread: seq<Datagram>)
    requires InOrder(rest) && Skips(stream, rest, replies)
    requires start == now || (start <= now && ToCome(rest, now))
    requires Answered(rest, replies, now, end, outcome, now', unread) && end <= end'
    ensures Answered(stream, replies, start, end', outcome, now', unread)
  {
    FirstOfRest(stream, rest, replies);
    if start != now { AllToCome(rest, now, FirstReply(rest, replies)); }
  }

  lemma StillUnanswered(stream: seq<Datagram>, rest: seq<Datagram>, replies: Replies, end: nat)
    requires InOrder(rest) && Skips(stream, rest, replies) && ToCome(rest, end)
    ensures Unanswered(stream, replies, end)
  {
    FirstOfRest(stream, rest, replies);
    var k := FirstReply(rest, replies);
    if k < |rest| { AllToCome(rest, end, k); }
  }

  /** CheckReply, as the read loop sees it. */
  method Judge(data: seq<byte>, transId: seq<byte>, ghost replies: Replies) returns (reply: Option<Outcome>)
    requires Judges(replies, transId)
    ensures reply == replies(data)
    ensures reply.Some? ==> reply.value.Response? || reply.value.ErrorResponse?
  {
    reply := CheckReply(data, transId);
  }

  /** The read loop of send: one retransmission interval.  None says that the interval passed. */
  method AwaitReply(conn: Connection, transId: seq<byte>, ghost replies: Replies) returns (answer: Option<Outcome>)
    requires conn.Valid() && conn.readDeadline.Some? && conn.now < conn.readDeadline.value && Judges(replies, transId)
    modifies conn`now, conn`incoming
    ensures conn.Valid() && old(conn.now) <= conn.now <= conn.readDeadline.value
    ensures answer != Some(NoReply)
    ensures answer.None? ==>
              && conn.now == conn.readDeadline.value
              && Skips(old(conn.incoming), conn.incoming, replies) && ToCome(conn.incoming, conn.now)
    ensures answer.Some? && answer.value != SocketError ==>
              Answered(old(conn.incoming), replies, old(conn.now), conn.readDeadline.value,
                       answer.value, conn.now, conn.incoming)
  {
    ghost var deadline := conn.readDeadline.value;
    while true
      invariant conn.Valid() && Skips(old(conn.incoming), conn.incoming, replies)
      invariant old(conn.now) <= conn.now < deadline
      invariant conn.now == old(conn.now) || ToCome(conn.incoming, conn.now)
      decreases |conn.incoming|
    {
      ghost var unread, now := conn.incoming, conn.now;
      var r := conn.ReadFrom();
      if r.Timeout? {
        return None;
      }
      if r.ReadFailed? {
        return Some(SocketError);
      }
      var reply := Judge(r.data, transId, replies);
      if reply.Some? {
        AnsweredLater(old(conn.incoming), unread, replies, old(conn.now), now, deadline, deadline,
                      reply.value, conn.now, conn.incoming);
        return reply;
      }
      SkipsOn(old(conn.incoming), unread, conn.incoming, replies);
    }
  }

  /** The transmissions of a schedule: the same bytes, at the times of the intervals. */
  function Transmissions(n: nat, start: nat, first: nat, limit: nat, pktBytes: seq<byte>): (sent: seq<Sent>)
    ensures |sent| == n
  {
    if n == 0 then []
    else Transmissions(n - 1, start, first, limit, pktBytes) + [Sent(start + Elapsed(n - 1, first, limit), pktBytes)]
  }

  ghost predicate SentOnSchedule(sent: seq<Sent>, before: seq<Sent>, n: nat,
                                 start: nat, first: nat, limit: nat, pktBytes: seq<byte>)
  {
    sent == before + Transmissions(n, start, first, limit, pktBytes)
  }

  lemma SentNext(sent: seq<Sent>, sent': seq<Sent>, before: seq<Sent>, n: nat, now: nat,
                 start: nat, first: nat, limit: nat, pktBytes: seq<byte>)
    requires SentOnSchedule(sent, before, n, start, first, limit, pktBytes)
    requires now == start + Elapsed(n, first, limit) && sent' == sent + [Sent(now, pktBytes)]
    ensures SentOnSchedule(sent', before, n + 1, start, first, limit, pktBytes)
  {
    var t := Transmissions(n, start, first, limit, pktBytes);
    assert Transmissions(n + 1, start, first, limit, pktBytes) == t + [Sent(now, pktBytes)];
    Associate(before, t, [Sent(now, pktBytes)]);
  }

  /** The next read deadline is the end of the next interval, or the client's deadline. */
  lemma NextReadDeadline(start: nat, i: nat, count: nat, first: nat, limit: nat, deadline: Option<nat>)
    requires i < count && first > 0
    requires deadline.Some? ==> WaitEnd(start, i, first, limit, deadline) < deadline.value
    ensures var now := WaitEnd(start, i, first, limit, deadline);
            var next := now + Interval(i, first, limit);
            && now == start + Elapsed(i, first, limit)
            && WaitEnd(start, i + 1, first, limit, deadline) ==
               (if deadline.Some? && deadline.value < next then deadline.value else next)
            && now < WaitEnd(start, i + 1, first, limit, deadline) <= WaitEnd(start, count, first, limit, deadline)
  {
    IntervalBound(i, first, limit);
    ElapsedGrows(i + 1, count, first, limit);
  }

  /** One transmission and the wait for its interval. */
  method Transmit(conn: Connection, pktBytes: seq<byte>, transId: seq<byte>, readDeadline: nat,
                  ghost replies: Replies)
    returns (answer: Option<Outcome>)
    requires conn.Valid() && conn.now < readDeadline && Judges(replies, transId)
    modifies conn
    ensures conn.Valid() && old(conn.now) <= conn.now <= readDeadline
    ensures answer == Some(SocketError) ==>
              conn.sent == old(conn.sent) || conn.sent == old(conn.sent) + [Sent(old(conn.now), pktBytes)]
    ensures answer != Some(SocketError) ==> conn.sent == old(conn.sent) + [Sent(old(conn.now), pktBytes)]
    ensures answer != Some(NoReply)
    ensures answer.None? ==>
              && conn.now == readDeadline
              && Skips(old(conn.incoming), conn.incoming, replies) && ToCome(conn.incoming, conn.now)
    ensures answer.Some? && answer.value != SocketError ==>
              Answered(old(conn.incoming), replies, old(conn.now), readDeadline, answer.value, conn.now, conn.incoming)
  {
    var ok := conn.WriteTo(pktBytes);
    if !ok {
      return Some(SocketError);
    }
    conn.SetReadDeadline(Some(readDeadline));
    answer := AwaitReply(conn, transId, replies);
  }

  /** The read deadline of the i-th round. */
  function ReadDeadline(now: nat, timeout: nat, deadline: Option<nat>): nat {
    if deadline.Some? && deadline.value < now + timeout then deadline.value else now + timeout
  }

  /** One round of send, with what it means for the whole wait. */
  method Round(conn: Connection, pktBytes: seq<byte>, transId: seq<byte>, timeout: nat, deadline: Option<nat>,
               ghost replies: Replies, ghost stream: seq<Datagram>, ghost start: nat, ghost end: nat)
    returns (answer: Option<Outcome>)
    requires conn.Valid() && Judges(replies, transId)
    requires start <= conn.now < ReadDeadline(conn.now, timeout, deadline) <= end
    requires Skips(stream, conn.incoming, replies) && (start == conn.now || ToCome(conn.incoming, conn.now))
    modifies conn
    ensures conn.Valid() && old(conn.now) <= conn.now <= end && answer != Some(NoReply)
    ensures answer != Some(SocketError) ==> conn.sent == old(conn.sent) + [Sent(old(conn.now), pktBytes)]
    ensures conn.sent == old(conn.sent) || conn.sent == old(conn.sent) + [Sent(old(conn.now), pktBytes)]
    ensures answer.None? ==>
              && conn.now == ReadDeadline(old(conn.now), timeout, deadline)
              && Skips(stream, conn.incoming, replies) && ToCome(conn.incoming, conn.now)
    ensures answer.Some? && answer.value != SocketError ==>
              Answered(stream, replies, start, end, answer.value, conn.now, conn.incoming)
  {
    var readDeadline := conn.now + timeout;
    if deadline.Some? && deadline.value < readDeadline {
      readDeadline := deadline.value;
    }
    ghost var now, unread := conn.now, conn.incoming;
    answer := Transmit(conn, pktBytes, transId, readDeadline, replies);
    if answer.None? {
      SkipsOn(stream, unread, conn.incoming, replies);
    } else if answer.value != SocketError {
      AnsweredLater(stream, unread, replies, start, now, readDeadline, end, answer.value, conn.now, conn.incoming);
    }
  }

  /** The settings of a wait, in range. */
  datatype Schedule = Schedule(count: nat, first: nat, limit: nat, deadline: Option<nat>)
  {
    function End(start: nat): nat {
      WaitEnd(start, count, first, limit, deadline)
    }
  }

  /** The result and the time it takes: the first reply that arrives before the end of the wait,
      as soon as it is there, or nothing at the very end. */
  ghost predicate Awaited(s: Schedule, replies: Replies, start: nat, stream: seq<Datagram>,
                          outcome: Outcome, now: nat, unread: seq<Datagram>)
  {
    && start <= now <= s.End(start)
    && (outcome == NoReply ==> now == s.End(start) && (start < now ==> Unanswered(stream, replies, now)))
    && (outcome.Response? || outcome.ErrorResponse? ==>
          Answered(stream, replies, start, s.End(start), outcome, now, unread))
  }

  /** The transmissions: at most `count` of the same bytes, at the scheduled times, and all that
      the schedule and the client's deadline allow when no reply came. */
  ghost predicate Transmitted(s: Schedule, start: nat, before: seq<Sent>, pktBytes: seq<byte>,
                              outcome: Outcome, sent: seq<Sent>, writes: nat)
  {
    && writes <= s.count
    && SentOnSchedule(sent, before, writes, start, s.first, s.limit, pktBytes)
    && (outcome == NoReply ==>
          writes == s.count || (s.deadline.Some? && s.deadline.value <= start + Elapsed(writes, s.first, s.limit)))
  }

  /** The wait that ends after i rounds, or at the client's deadline. */
  lemma NothingCame(s: Schedule, replies: Replies, start: nat, stream: seq<Datagram>, i: nat, now: nat,
                    unread: seq<Datagram>)
    requires i <= s.count && now == WaitEnd(start, i, s.first, s.limit, s.deadline)
    requires i == s.count || (s.deadline.Some? && s.deadline.value <= now)
    requires InOrder(unread) && Skips(stream, unread, replies) && (i == 0 || ToCome(unread, now))
    ensures Awaited(s, replies, start, stream, NoReply, now, unread)
    ensures i == s.count || s.deadline.value <= start + Elapsed(i, s.first, s.limit)
  {
    ElapsedGrows(i, s.count, s.first, s.limit);
    if i > 0 { StillUnanswered(stream, unread, replies, now); }
  }

  /** The retransmissions of send, for settings in range. */
  method Retransmit(conn: Connection, pktBytes: seq<byte>, transId: seq<byte>,
                    count: nat, first: nat, maxT: nat, deadline: Option<nat>, ghost replies: Replies)
    returns (outcome: Outcome, ghost writes: nat)
    requires conn.Valid() && first > 0 && Judges(replies, transId)
    modifies conn
    ensures conn.Valid()
    ensures Awaited(Schedule(count, first, maxT, deadline), replies, old(conn.now), old(conn.incoming),
                    outcome, conn.now, conn.incoming)
    ensures Transmitted(Schedule(count, first, maxT, deadline), old(conn.now), old(conn.sent), pktBytes,
                        outcome, conn.sent, writes)
  {
    var timeout := first;
    ghost var start, stream, before := conn.now, conn.incoming, conn.sent;
    ghost var schedule, end := Schedule(count, first, maxT, deadline), WaitEnd(start, count, first, maxT, deadline);
    writes := 0;
    var i: nat := 0;
    while i < count
      invariant i <= count && writes == i && conn.Valid()
      invariant timeout == Interval(i, first, maxT)
      invariant conn.now == WaitEnd(start, i, first, maxT, deadline)
      invariant Skips(stream, conn.incoming, replies)
      invariant i == 0 || ToCome(conn.incoming, conn.now)
      invariant SentOnSchedule(conn.sent, before, i, start, first, maxT, pktBytes)
    {
      if deadline.Some? && !(conn.now < deadline.value) {
        break;
      }
      NextReadDeadline(start, i, count, first, maxT, deadline);
      ghost var now, sent := conn.now, conn.sent;
      var answer := Round(conn, pktBytes, transId, timeout, deadline, replies, stream, start, end);
      if conn.sent != sent {
        SentNext(sent, conn.sent, before, i, now, start, first, maxT, pktBytes);
        writes := i + 1;
      }
      if answer.Some? {
        return answer.value, writes;
      }
      if timeout < maxT {
        timeout := timeout * 2;
      }
      i := i + 1;
    }
    NothingCame(schedule, replies, start, stream, i, conn.now, conn.incoming);
    return NoReply, i;
  }

  /** Whatever is received is a reply to the request. */
  lemma ReceivedReplies(s: Schedule, transId: seq<byte>, start: nat, stream: seq<Datagram>,
                        outcome: Outcome, now: nat, unread: seq<Datagram>)
    requires Awaited(s, RepliesTo(transId), start, stream, outcome, now, unread)
    ensures BelongsTo(outcome, transId)
  {
    if outcome.Response? || outcome.ErrorResponse? {
      var data := Received(stream[FirstReply(stream, RepliesTo(transId))]);
      ReplyMeaning(data, transId);
      assert ReplyIn(data, transId) == Some(outcome);
    }
  }

  lemma RepliesToJudges(transId: seq<byte>)
    ensures Judges(RepliesTo(transId), transId)
  {
  }

  /** send: transmits the request at most `count` times and returns the first reply that
      arrives before the end of the schedule.  Whatever else arrives is skipped and never
      prolongs the wait. */
  method Send(conn: Connection, pktBytes: seq<byte>, transId: seq<byte>,
              retransmitCount: int, retransmitTimeout: int, retransmitMax: int, deadline: Option<nat>)
    returns (outcome: Outcome, ghost writes: nat)
    requires conn.Valid()
    modifies conn
    ensures conn.Valid() && conn.readDeadline == None
    ensures var s := Schedule(OrDefault(retransmitCount, NUM_RETRANSMIT), OrDefault(retransmitTimeout, DEFAULT_TIMEOUT),
                              OrDefault(retransmitMax, MAX_TIMEOUT), deadline);
            && Awaited(s, RepliesTo(transId), old(conn.now), old(conn.incoming), outcome, conn.now, conn.incoming)
            && Transmitted(s, old(conn.now), old(conn.sent), pktBytes, outcome, conn.sent, writes)
    ensures BelongsTo(outcome, transId)
  {
    var count := retransmitCount;
    if count <= 0 {
      count := NUM_RETRANSMIT;
    }
    var timeout := retransmitTimeout;
    if timeout <= 0 {
      timeout := DEFAULT_TIMEOUT;
    }
    var maxT := retransmitMax;
    if maxT <= 0 {
      maxT := MAX_TIMEOUT;
    }
    RepliesToJudges(transId);
    outcome, writes := Retransmit(conn, pktBytes, transId, count, timeout, maxT, deadline, RepliesTo(transId));
    conn.SetReadDeadline(None);
    ReceivedReplies(Schedule(count, timeout, maxT, deadline), transId, old(conn.now), old(conn.incoming),
                    outcome, conn.now, conn.incoming);
  }
}
