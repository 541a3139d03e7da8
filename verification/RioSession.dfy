/** The two halves of a network session around its ring buffers: received bytes become packets, queued
    packets become sends. */
module RioSession {
  import opened Wire
  import opened Framing
  import opened RingBuffer

  const BUFFER_SIZE := 65536
  const SEND_LIMIT := 600
  const MAX_POST_CNT := 256

  // ---- Receiving -----------------------------------------------------------------------------

  datatype Outcome = Continue | Disconnected | Looping

  class Receiver {
    const recvBuffer: RioBuffer
    var packets: seq<seq<Byte>>      // handed to OnRecvPacket, in order
    ghost var received: seq<Byte>    // every byte that arrived

    ghost predicate Valid()
      reads this, recvBuffer, recvBuffer.buffer
    {
      && recvBuffer.Valid() && recvBuffer.capacity == BUFFER_SIZE
      && InStep(received, packets, recvBuffer.Contents())
    }

    /** The contents lie in one piece with room behind them. */
    ghost predicate Ready()
      reads this, recvBuffer
    {
      recvBuffer.tailPos + recvBuffer.size < BUFFER_SIZE
    }

    constructor ()
      ensures Valid() && Ready() && packets == [] && received == [] && fresh(recvBuffer) && fresh(recvBuffer.buffer)
    {
      recvBuffer := new RioBuffer(BUFFER_SIZE);
      packets, received := [], [];
    }

    /** `chunk` is what the network stored at the head, within the length it was offered. However the stream is
        cut into chunks, the packets handed out are those of the whole stream, and a nonempty chunk never
        overflows the buffer. */
    method ProcessRecv(chunk: seq<Byte>) returns (outcome: Outcome)
      requires Valid() && Ready() && |chunk| <= recvBuffer.GetChunkWriteSize()
      modifies this, recvBuffer, recvBuffer.buffer
      ensures outcome.Disconnected? <==> chunk == []
      ensures outcome.Looping? ==> Extract(old(received) + chunk) == Stuck(packets)
      ensures outcome.Continue? ==> Valid() && Ready() && recvBuffer.GetChunkWriteSize() > 0
      ensures outcome.Continue? ==> received == old(received) + chunk && Extract(received).packets == packets
    {
      if chunk == [] { return Disconnected; }
      ghost var pending := recvBuffer.Contents();
      Store(chunk);
      var more, processLen, stuck := Deliver();
      ArrivalContinues(received, packets, pending, chunk);
      received, packets := received + chunk, packets + more;
      if stuck { return Looping; }
      Consume(processLen);
      outcome := Continue;
    }

    /** `OnRecv(m_recvBuffer->GetReadBuf(), dataSize)`: one piece of memory. */
    method Deliver() returns (more: seq<seq<Byte>>, processLen: nat, stuck: bool)
      requires recvBuffer.Valid() && recvBuffer.tailPos + recvBuffer.size <= recvBuffer.capacity
      ensures processLen <= recvBuffer.size
      ensures Extract(recvBuffer.Contents()) == if stuck then Stuck(more) else Done(more, processLen)
    {
      var dataSize := recvBuffer.GetDataSize();
      RingIsContiguous(recvBuffer.buffer[..], recvBuffer.tailPos, dataSize);
      more, processLen, stuck := OnRecv(recvBuffer.buffer[recvBuffer.tailPos..recvBuffer.tailPos + dataSize]);
    }

    /** Releases the bytes of whole packets and makes room. */
    method Consume(processLen: nat)
      requires recvBuffer.Valid() && recvBuffer.capacity == BUFFER_SIZE && processLen <= recvBuffer.size
      requires recvBuffer.tailPos + recvBuffer.size <= BUFFER_SIZE
      requires Waiting(recvBuffer.Contents()[processLen..])
      modifies recvBuffer, recvBuffer.buffer
      ensures recvBuffer.Valid() && recvBuffer.Contents() == old(recvBuffer.Contents())[processLen..]
      ensures recvBuffer.tailPos + recvBuffer.size < BUFFER_SIZE && recvBuffer.GetChunkWriteSize() > 0
    {
      WaitingIsShort(recvBuffer.Contents()[processLen..]);
      var ok := recvBuffer.OnReadBuffer(processLen);
      assert ok;
      recvBuffer.AdjustPos();
    }

    /** The network's copy into the buffer and the update that follows. */
    method Store(chunk: seq<Byte>)
      requires recvBuffer.Valid() && Ready() && recvBuffer.capacity == BUFFER_SIZE
      requires |chunk| <= recvBuffer.GetChunkWriteSize()
      modifies recvBuffer, recvBuffer.buffer
      ensures recvBuffer.Valid() && recvBuffer.Contents() == old(recvBuffer.Contents()) + chunk
      ensures recvBuffer.tailPos == old(recvBuffer.tailPos) && recvBuffer.tailPos + recvBuffer.size <= BUFFER_SIZE
    {
      OverwriteExtends(recvBuffer.buffer[..], recvBuffer.tailPos, recvBuffer.size, chunk);
      recvBuffer.CopyIn(recvBuffer.headPos, chunk);
      var ok := recvBuffer.OnWriteBuffer(|chunk|);
      assert ok;
    }
  }

  // ---- Sending -------------------------------------------------------------------------------

  /** In a buffer with nothing in flight, the packets taken from `queue` fill it before enough has gathered for a
      post: one of them is exactly as long as the space that is left. */
  predicate Fills(unsent: nat, queue: seq<seq<Byte>>)
    decreases |queue|
  {
    queue != [] &&
    var next := unsent + |queue[0]|;
    next == BUFFER_SIZE || (next < SEND_LIMIT && Fills(next, queue[1..]))
  }

  /** Packet `k` exactly fills the space left by `unsent` bytes and the packets before it, which stay below the
      limit at every step. */
  predicate FillsAt(unsent: nat, queue: seq<seq<Byte>>, k: nat) {
    && k < |queue|
    && (forall j :: 0 < j <= k ==> unsent + |Concat(queue[..j])| < SEND_LIMIT)
    && unsent + |Concat(queue[..k])| + |queue[k]| == BUFFER_SIZE
  }

  lemma {:induction false} FillsExactly(unsent: nat, queue: seq<seq<Byte>>)
    ensures Fills(unsent, queue) <==> exists k :: FillsAt(unsent, queue, k)
    decreases |queue|
  {
    if queue != [] {
      var next, rest := unsent + |queue[0]|, queue[1..];
      FillsExactly(next, rest);
      forall j | 0 < j <= |queue| ensures |Concat(queue[..j])| == |queue[0]| + |Concat(rest[..j - 1])| {
        assert queue[..j] == [queue[0]] + rest[..j - 1];
        ConcatCons(queue[0], rest[..j - 1]);
      }
      if next == BUFFER_SIZE {
        assert FillsAt(unsent, queue, 0);
      } else if k: nat :| FillsAt(next, rest, k) && next < SEND_LIMIT {
        assert FillsAt(unsent, queue, k + 1) by {
          forall j | 0 < j <= k + 1 ensures unsent + |Concat(queue[..j])| < SEND_LIMIT {
            assert j == 1 || next + |Concat(rest[..j - 1])| < SEND_LIMIT;
          }
        }
      } else if k: nat :| FillsAt(unsent, queue, k) {
        assert k > 0 && unsent + |Concat(queue[..1])| < SEND_LIMIT;
        assert FillsAt(next, rest, k - 1) by {
          forall j | 0 < j <= k - 1 ensures next + |Concat(rest[..j])| < SEND_LIMIT {
            assert unsent + |Concat(queue[..j + 1])| < SEND_LIMIT;
          }
        }
      }
    }
  }

  /** Packets that leave room for the limit never fill the buffer. */
  lemma {:induction false} SmallPacketsNeverFill(unsent: nat, queue: seq<seq<Byte>>)
    requires unsent < SEND_LIMIT && AllSmall(queue)
    ensures !Fills(unsent, queue)
    decreases |queue|
  {
    if queue != [] {
      assert queue[0] in queue;
      if unsent + |queue[0]| < SEND_LIMIT { SmallPacketsNeverFill(unsent + |queue[0]|, queue[1..]); }
    }
  }

  /** With nothing in flight, some packets from the front of `queue` exactly fill the buffer. */
  predicate CanFill(unsent: nat, queue: seq<seq<Byte>>)
    decreases |queue|
  {
    unsent == BUFFER_SIZE || (queue != [] && CanFill(unsent + |queue[0]|, queue[1..]))
  }

  lemma {:induction false} CanFillExactly(unsent: nat, queue: seq<seq<Byte>>)
    ensures CanFill(unsent, queue) <==> exists k :: 0 <= k <= |queue| && unsent + |Concat(queue[..k])| == BUFFER_SIZE
    decreases |queue|
  {
    assert queue[..0] == [];
    if queue != [] {
      var next, rest := unsent + |queue[0]|, queue[1..];
      CanFillExactly(next, rest);
      forall k | 0 < k <= |queue| ensures |Concat(queue[..k])| == |queue[0]| + |Concat(rest[..k - 1])| {
        assert queue[..k] == [queue[0]] + rest[..k - 1];
        ConcatCons(queue[0], rest[..k - 1]);
      }
      if k :| 0 <= k <= |rest| && next + |Concat(rest[..k])| == BUFFER_SIZE {
        assert unsent + |Concat(queue[..k + 1])| == BUFFER_SIZE;
      }
      if k :| 0 < k <= |queue| && unsent + |Concat(queue[..k])| == BUFFER_SIZE {
        assert next + |Concat(rest[..k - 1])| == BUFFER_SIZE;
      }
    }
  }

  lemma {:induction false} TooMuch(unsent: nat, queue: seq<seq<Byte>>)
    requires unsent > BUFFER_SIZE
    ensures !CanFill(unsent, queue)
    decreases |queue|
  {
    if queue != [] { TooMuch(unsent + |queue[0]|, queue[1..]); }
  }

  // ---- The bytes of a session -----------------------------------------------------------------

  /** Where a session is in the stream of bytes passed to Send: how many have been sent and released, posted, and moved
      to the buffer; in how many posts; and the packets that come next. */
  datatype Positions = Positions(released: nat, posted: nat, buffered: nat, posts: nat, queue: seq<seq<Byte>>)

  type Traffic = v: Positions | v.released <= v.posted <= v.buffered witness Positions(0, 0, 0, 0, [])

  /** Bytes in flight. */
  function Flying(v: Traffic): nat { v.posted - v.released }

  /** Bytes in the buffer that are not yet posted. */
  function Unsent(v: Traffic): nat { v.buffered - v.posted }

  /** Handing the first `n` waiting bytes to the network, in `count` posts. */
  function Post(v: Traffic, n: nat, count: nat): Traffic
    requires n <= Unsent(v)
  {
    v.(posted := v.posted + n, posts := v.posts + count)
  }

  /** Moving a packet from the queue to the buffer. */
  function Take(v: Traffic): Traffic
    requires v.queue != []
  {
    v.(buffered := v.buffered + |v.queue[0]|, queue := v.queue[1..])
  }

  predicate IsSuffix(a: seq<seq<Byte>>, b: seq<seq<Byte>>) {
    |a| <= |b| && a == b[|b| - |a|..]
  }

  /** What is posted stays posted, nothing in flight is released, and packets leave the queue at its front. */
  predicate Follows(v: Traffic, v': Traffic) {
    v.posted <= v'.posted && v'.released == v.released && IsSuffix(v'.queue, v.queue)
  }

  predicate Full(v: Traffic) {
    Unsent(v) == BUFFER_SIZE
  }

  function Room(v: Traffic): int {
    BUFFER_SIZE - Flying(v) - Unsent(v)
  }

  /** Full of unsent bytes, or about to be. */
  predicate Filling(v: Traffic) {
    Full(v) || (Flying(v) == 0 && Fills(Unsent(v), v.queue))
  }

  /** The network can fill the buffer by refusing every post. */
  predicate Fillable(v: Traffic) {
    Flying(v) == 0 && CanFill(Unsent(v), v.queue)
  }

  /** Far from full: few unsent bytes, and packets that leave room for the limit. */
  predicate Relaxed(v: Traffic) {
    Unsent(v) < SEND_LIMIT && AllSmall(v.queue)
  }

  lemma StaysRelaxed(v: Traffic, v': Traffic)
    requires Relaxed(v) && Follows(v, v') && (Full(v') <==> Filling(v)) && (Full(v') || Unsent(v') == 0)
    ensures Relaxed(v')
  {
    SmallPacketsNeverFill(Unsent(v), v.queue);
  }

  // ---- One turn ---------------------------------------------------------------------------------

  /** `count` posts of `n` bytes in all: they go on until nothing is left, the limit is reached, or the network says no
      (or nothing any more) to the one that is due. */
  predicate Posts(v: Traffic, v': Traffic, n: nat, count: nat, refused: bool, limit: nat, answers: seq<bool>) {
    && n <= Unsent(v) && v' == Post(v, n, count)
    && count <= 2 && count <= limit && count <= |answers| && (forall i :: 0 <= i < count ==> answers[i])
    && (count == 0 <==> n == 0) && (Full(v) ==> n == 0) && (count == 2 ==> Unsent(v') == 0)
    && (refused <==> count < limit && Unsent(v') > 0 && !Full(v'))
    && (refused ==> count == |answers| || !answers[count])
  }

  /** The network takes whatever a turn posts. */
  predicate Agrees(answers: seq<bool>) {
    |answers| >= 2 && answers[0] && answers[1]
  }

  /** In the first `k` turns. */
  predicate Agreeing(answers: seq<seq<bool>>, k: nat) {
    k <= |answers| && forall i :: 0 <= i < k ==> Agrees(answers[i])
  }

  /** After `count` posts of `n` bytes: the first one ends at the end of the memory if it leaves any bytes, and the
      second takes the rest. */
  predicate AfterPosts(v0: Traffic, v: Traffic, n: nat, count: nat, sendPos: nat) {
    && n <= Unsent(v0) && v == Post(v0, n, count) && count <= 2
    && (count == 0 <==> n == 0) && (Full(v0) ==> n == 0)
    && (count == 1 ==> Unsent(v) == 0 || sendPos == 0)
    && (count == 2 ==> Unsent(v) == 0)
  }

  /** A turn of the sending loop that found room for the first packet. */
  predicate Takes(v: Traffic, v': Traffic, n: nat, count: nat, refused: bool, answers: seq<bool>) {
    && v.queue != [] && |v.queue[0]| <= Room(v)
    && if Unsent(Take(v)) < SEND_LIMIT then v' == Take(v) && n == 0 == count && !refused
       else Posts(Take(v), v', n, count, refused, MAX_POST_CNT, answers)
  }

  lemma TakesFollow(v: Traffic, v': Traffic, n: nat, count: nat, refused: bool, answers: seq<bool>)
    requires Takes(v, v', n, count, refused, answers)
    ensures Follows(v, v') && v'.queue == v.queue[1..] && count <= 2 && v'.posts == v.posts + count
    ensures Agrees(answers) ==> !refused
    ensures (count == 0 ==> v' == Take(v)) && (count > 0 ==> Flying(v') > 0)
  {
  }

  lemma FollowsTrans(v0: Traffic, v1: Traffic, v2: Traffic)
    requires Follows(v0, v1) && Follows(v1, v2)
    ensures Follows(v0, v2)
  {
  }

  /** A turn neither makes the buffer fill nor prevents it; refusing helps it to. */
  lemma TakesFills(v: Traffic, v': Traffic, n: nat, count: nat, refused: bool, answers: seq<bool>)
    requires Takes(v, v', n, count, refused, answers) && Room(v) >= 0
    ensures !refused ==> (Filling(v') <==> Filling(v))
    ensures Filling(v) ==> Filling(v') && v'.posted == v.posted && count == 0
    ensures Fillable(v') ==> Fillable(v)
    ensures answers == [] && Fillable(v) ==> Fillable(v') && count == 0
    ensures Full(v) ==> Full(v')
  {
    TakesFollow(v, v', n, count, refused, answers);
  }

  // ---- A whole call -----------------------------------------------------------------------------

  /** Packets taken from the queue, one in each turn. */
  function Turns(v: Traffic, v': Traffic): int {
    |v.queue| - |v'.queue|
  }

  /** After some turns with `sendCount` posts in all. */
  predicate AfterTurns(v: Traffic, v': Traffic, sendCount: nat, refused: bool, answers: seq<seq<bool>>) {
    && Follows(v, v') && (Full(v) ==> Full(v')) && (!refused ==> (Filling(v') <==> Filling(v)))
    && v'.posts == v.posts + sendCount && (Agreeing(answers, Turns(v, v')) ==> !refused)
    && (Filling(v) ==> Filling(v') && v'.posted == v.posted && sendCount == 0)
    && (Fillable(v') ==> Fillable(v)) && (answers == [] && Fillable(v) ==> Fillable(v') && sendCount == 0)
  }

  lemma NoTurns(v: Traffic, answers: seq<seq<bool>>)
    ensures AfterTurns(v, v, 0, false, answers)
  {
  }

  /** The answers for a turn; none when there are no more. */
  function AnswersAt(answers: seq<seq<bool>>, round: nat): seq<bool> {
    if round < |answers| then answers[round] else []
  }

  lemma OneTurnMore(v: Traffic, v1: Traffic, v2: Traffic, sendCount: nat, refused: bool, answers: seq<seq<bool>>,
                    n: nat, count: nat, no: bool)
    requires AfterTurns(v, v1, sendCount, refused, answers) && Room(v1) >= 0
    requires Takes(v1, v2, n, count, no, AnswersAt(answers, Turns(v, v1)))
    ensures AfterTurns(v, v2, sendCount + count, refused || no, answers) && v2.queue == v1.queue[1..] && count <= 2
  {
    var last := AnswersAt(answers, Turns(v, v1));
    TakesFollow(v1, v2, n, count, no, last);
    TakesFills(v1, v2, n, count, no, last);
    FollowsTrans(v, v1, v2);
    if Agreeing(answers, Turns(v, v2)) { assert Agrees(answers[Turns(v, v1)]); }
  }

  /** What SendDeferred does with `sendCount` posts, at most one over the limit. Bytes go out in order, and those in
      flight stay as they are. If the network agrees to everything, nothing is refused. Unless a post is refused or the
      post limit is reached, everything that fits the buffer has been posted, except that a buffer full of unsent bytes
      is never posted; the bytes in the buffer are posted even after refusals if the network agrees in the end. It ends
      full exactly if nothing was in flight and the queue fills it. When posts may be refused, it can end full exactly
      if nothing was in flight and some packets from the front of the queue fill the buffer. */
  predicate Deferred(v: Traffic, v': Traffic, sendCount: nat, refused: bool, answers: seq<seq<bool>>) {
    && Follows(v, v') && v'.posts == v.posts + sendCount && sendCount <= MAX_POST_CNT + 1
    && (Agreeing(answers, Turns(v, v') + 1) ==> !refused)
    && (!refused && sendCount < MAX_POST_CNT ==>
          && (Full(v') || Unsent(v') == 0) && (v'.queue == [] || |v'.queue[0]| > Room(v'))
          && (Full(v') <==> Filling(v)))
    && (sendCount < MAX_POST_CNT ==>
          && (v'.queue == [] || |v'.queue[0]| > Room(v'))
          && (Agrees(AnswersAt(answers, Turns(v, v'))) ==> Full(v') || Unsent(v') == 0))
    && (Filling(v) ==> Full(v') && v'.posted == v.posted)
    && (Full(v') ==> Fillable(v)) && (answers == [] && Fillable(v) ==> Full(v'))
  }

  lemma TurnsOnly(v: Traffic, v': Traffic, sendCount: nat, refused: bool, answers: seq<seq<bool>>)
    requires AfterTurns(v, v', sendCount, refused, answers) && Room(v') >= 0
    requires MAX_POST_CNT <= sendCount <= MAX_POST_CNT + 1
    ensures Deferred(v, v', sendCount, refused, answers)
  {
  }

  lemma RestPosted(v: Traffic, v1: Traffic, v2: Traffic, sendCount: nat, refused: bool, answers: seq<seq<bool>>,
                   n: nat, count: nat, no: bool)
    requires AfterTurns(v, v1, sendCount, refused, answers) && sendCount < MAX_POST_CNT && Room(v1) >= 0
    requires v1.queue == [] || |v1.queue[0]| > Room(v1)
    requires Posts(v1, v2, n, count, no, MAX_POST_CNT - sendCount, AnswersAt(answers, Turns(v, v1)))
    ensures Deferred(v, v2, sendCount + count, refused || no, answers)
  {
    NoMoreFills(v1);
    FollowsTrans(v, v1, v2);
    if Agreeing(answers, Turns(v, v2) + 1) { assert Agrees(answers[Turns(v, v1)]); }
  }

  /** When the first packet does not fit, or there is none, only a full buffer stays full. */
  lemma NoMoreFills(v: Traffic)
    requires Room(v) >= 0 && (v.queue == [] || |v.queue[0]| > Room(v))
    ensures (Filling(v) <==> Full(v)) && (Fillable(v) ==> Full(v))
  {
    if v.queue != [] && Flying(v) == 0 { TooMuch(Unsent(v) + |v.queue[0]|, v.queue[1..]); }
  }

  predicate AllSmall(queue: seq<seq<Byte>>) {
    forall p <- queue :: |p| <= BUFFER_SIZE - SEND_LIMIT
  }

  predicate SmallEvent(event: Event) {
    event.Enqueue? ==> |event.netBuffer| <= BUFFER_SIZE - SEND_LIMIT
  }

  /** What happens to a sending session. */
  datatype Event = Enqueue(netBuffer: seq<Byte>) | Flush(answers: seq<seq<bool>>) | Completed(bytes: nat)

  /** Everything these events pass to Send. */
  function Enqueued(events: seq<Event>): seq<Byte> {
    if events == [] then []
    else Enqueued(events[..|events| - 1]) +
         if events[|events| - 1].Enqueue? then events[|events| - 1].netBuffer else []
  }

  lemma OneEnqueued(event: Event)
    ensures Enqueued([event]) == if event.Enqueue? then event.netBuffer else []
  {
    assert [event][..0] == [];
  }

  lemma EnqueuedNext(said: seq<Byte>, events: seq<Event>, k: nat)
    requires k < |events|
    ensures said + Enqueued(events[..k + 1]) == said + Enqueued(events[..k]) + Enqueued([events[k]])
  {
    assert events[..k + 1][..k] == events[..k];
    OneEnqueued(events[k]);
  }

  /** What one event does. */
  predicate Handled(v: Traffic, v': Traffic, event: Event, disconnected: bool, trouble: bool, sendCount: nat,
                    refused: bool) {
    match event
    case Enqueue(netBuffer) => v' == v.(queue := v.queue + [netBuffer]) && !disconnected && !trouble
    case Flush(answers) =>
      && Deferred(v, v', sendCount, refused, answers) && !disconnected
      && trouble == (refused || sendCount >= MAX_POST_CNT)
    case Completed(bytes) =>
      && v' == (if bytes <= Flying(v) then v.(released := v.released + bytes) else v) && !trouble
      && disconnected == (bytes == 0)
  }

  /** A full buffer stays full and is not posted; what has been posted stays posted. */
  predicate Served(v: Traffic, v': Traffic) {
    v.posted <= v'.posted && (Full(v) ==> Full(v') && v'.posted == v.posted)
  }

  lemma HandledServes(v0: Traffic, v: Traffic, v': Traffic, event: Event, disconnected: bool, trouble: bool,
                      sendCount: nat, refused: bool)
    requires Served(v0, v) && Handled(v, v', event, disconnected, trouble, sendCount, refused)
    ensures Served(v0, v')
    ensures Relaxed(v) && SmallEvent(event) && !trouble ==> Relaxed(v')
  {
    if event.Flush? && Relaxed(v) && !trouble { StaysRelaxed(v, v'); }
  }

  /** The network has been given the front of the stream, the buffer holds the part in flight and the part behind it,
      and the queue holds the rest. */
  predicate Carried(sent: seq<Byte>, wire: seq<Byte>, contents: seq<Byte>, v: Traffic) {
    match v case Positions(released, posted, buffered, _, queue) =>
    && buffered <= |sent| && wire == sent[..posted] && contents == sent[released..buffered]
    && Concat(queue) == sent[buffered..]
  }

  lemma SendCarries(sent: seq<Byte>, wire: seq<Byte>, contents: seq<Byte>, v: Traffic, netBuffer: seq<Byte>)
    requires Carried(sent, wire, contents, v)
    ensures Carried(sent + netBuffer, wire, contents, v.(queue := v.queue + [netBuffer]))
  {
    ConcatAppend(v.queue, [netBuffer]);
    ConcatCons(netBuffer, []);
    assert (sent + netBuffer)[v.buffered..] == sent[v.buffered..] + netBuffer;
    assert (sent + netBuffer)[v.released..v.buffered] == sent[v.released..v.buffered];
    assert (sent + netBuffer)[..v.posted] == sent[..v.posted];
  }

  lemma TakeCarries(sent: seq<Byte>, wire: seq<Byte>, contents: seq<Byte>, v: Traffic)
    requires Carried(sent, wire, contents, v) && v.queue != []
    ensures Carried(sent, wire, contents + v.queue[0], Take(v))
  {
    var packet, b := v.queue[0], v.buffered;
    assert sent[b..] == packet + Concat(v.queue[1..]);
    assert sent[b..b + |packet|] == sent[b..][..|packet|] == packet;
    assert sent[b + |packet|..] == sent[b..][|packet|..];
  }

  lemma PostCarries(sent: seq<Byte>, wire: seq<Byte>, contents: seq<Byte>, v: Traffic, n: nat)
    requires Carried(sent, wire, contents, v) && n <= Unsent(v)
    ensures |contents| == Flying(v) + Unsent(v)
    ensures Carried(sent, wire + contents[Flying(v)..][..n], contents, Post(v, n, 1))
  {
    assert contents[Flying(v)..][..n] == sent[v.posted..v.posted + n];
  }

  lemma ReleaseCarries(sent: seq<Byte>, wire: seq<Byte>, contents: seq<Byte>, v: Traffic, k: nat)
    requires Carried(sent, wire, contents, v) && k <= Flying(v)
    ensures Carried(sent, wire, contents[k..], v.(released := v.released + k))
  {
    assert contents[k..] == sent[v.released + k..v.buffered];
  }

  class Sender {
    const sendBuffer: RioBuffer
    var queue: seq<seq<Byte>>        // m_sendBufQueue
    var inFlight: nat                // bytes the network has been given and not reported back
    ghost var traffic: Traffic
    ghost var sent: seq<Byte>        // everything passed to Send
    ghost var wire: seq<Byte>        // handed to the network, in order

    /** Nothing is lost, duplicated or reordered between Send and the network. */
    ghost predicate Valid()
      reads this, sendBuffer, sendBuffer.buffer
    {
      && sendBuffer.Sends() && sendBuffer.capacity == BUFFER_SIZE && inFlight == sendBuffer.size - sendBuffer.unsent
      && Flying(traffic) == inFlight && Unsent(traffic) == sendBuffer.unsent && traffic.queue == queue
      && Carried(sent, wire, sendBuffer.Contents(), traffic)
    }

    constructor ()
      ensures sendBuffer.unsent == 0
      ensures Valid() && queue == [] && sent == [] && wire == [] && fresh(sendBuffer) && fresh(sendBuffer.buffer)
    {
      sendBuffer := new RioBuffer(BUFFER_SIZE);
      queue, inFlight, traffic, sent, wire := [], 0, Positions(0, 0, 0, 0, []), [], [];
    }

    method Send(netBuffer: seq<Byte>)
      requires Valid()
      modifies this
      ensures Valid() && sent == old(sent) + netBuffer && wire == old(wire)
      ensures traffic == old(traffic).(queue := old(queue) + [netBuffer])
      ensures old(AllSmall(queue)) && |netBuffer| <= BUFFER_SIZE - SEND_LIMIT ==> AllSmall(queue)
    {
      SendCarries(sent, wire, sendBuffer.Contents(), traffic, netBuffer);
      queue := queue + [netBuffer];
      traffic := traffic.(queue := queue);
      sent := sent + netBuffer;
    }

    /** Hands the next piece to the network, which may refuse it. */
    method RegisterSend(accepted: bool)
      requires Valid() && 0 < sendBuffer.unsent < BUFFER_SIZE
      modifies this`inFlight, this`traffic, this`wire, sendBuffer
      ensures Valid()
      ensures !accepted ==> traffic == old(traffic) && sendBuffer.sendPos == old(sendBuffer.sendPos)
      ensures accepted ==>
                var n := old(sendBuffer.GetChunkSendSize());
                && 0 <= n <= old(sendBuffer.unsent) && traffic == Post(old(traffic), n, 1)
                && sendBuffer.sendPos == Wrap(old(sendBuffer.sendPos) + n, BUFFER_SIZE)
    {
      if accepted { HandOver(sendBuffer.GetChunkSendSize()); }
    }

    /** The memory the network is given holds the next bytes of the stream. */
    lemma PieceIsNext()
      requires Valid() && sendBuffer.unsent < BUFFER_SIZE
      ensures var n := sendBuffer.GetChunkSendSize();
              && 0 <= n <= sendBuffer.unsent && sendBuffer.sendPos + n <= BUFFER_SIZE
              && Carried(sent, wire + sendBuffer.buffer[sendBuffer.sendPos..sendBuffer.sendPos + n],
                         sendBuffer.Contents(), Post(traffic, n, 1))
    {
      sendBuffer.ChunkIsUnsent();
      PostCarries(sent, wire, sendBuffer.Contents(), traffic, sendBuffer.GetChunkSendSize());
    }

    method HandOver(length: nat)
      requires Valid() && sendBuffer.unsent < BUFFER_SIZE
      requires length == sendBuffer.GetChunkSendSize() <= sendBuffer.unsent
      modifies this`inFlight, this`traffic, this`wire, sendBuffer
      ensures Valid() && traffic == Post(old(traffic), length, 1)
      ensures sendBuffer.sendPos == Wrap(old(sendBuffer.sendPos) + length, BUFFER_SIZE)
    {
      PieceIsNext();
      var offset := sendBuffer.sendPos;
      wire := wire + sendBuffer.buffer[offset..offset + length];
      traffic := Post(traffic, length, 1);
      inFlight := inFlight + length;
      var ok := sendBuffer.OnSendBuffer(length);
      assert ok;
    }

    /** One more post. */
    method PostOnce(accepted: bool, ghost v0: Traffic, ghost n: nat, ghost count: nat) returns (ghost n': nat)
      requires Valid() && 0 < sendBuffer.unsent < BUFFER_SIZE
      requires AfterPosts(v0, traffic, n, count, sendBuffer.sendPos)
      modifies this`inFlight, this`traffic, this`wire, sendBuffer
      ensures Valid() && AfterPosts(v0, traffic, n', if accepted then count + 1 else count, sendBuffer.sendPos)
      ensures if accepted then sendBuffer.unsent < old(sendBuffer.unsent) else traffic == old(traffic) && n' == n
    {
      n' := if accepted then n + sendBuffer.GetChunkSendSize() else n;
      RegisterSend(accepted);
    }

    /** The loop that empties the buffer, at most `limit` posts. `answers` says which posts the network takes.
        Unless it refuses one, two posts hand over every unsent byte, except when the buffer is full of them. */
    method PostUnsent(limit: nat, answers: seq<bool>) returns (count: nat, refused: bool, ghost n: nat)
      requires Valid()
      modifies this`inFlight, this`traffic, this`wire, sendBuffer
      ensures Valid() && Posts(old(traffic), traffic, n, count, refused, limit, answers)
    {
      count, refused, n := 0, false, 0;
      ghost var before := traffic;
      while sendBuffer.GetSendDataSize() > 0 && count < limit
        invariant Valid() && AfterPosts(before, traffic, n, count, sendBuffer.sendPos)
        invariant count <= limit && count <= |answers| && forall i :: 0 <= i < count ==> answers[i]
        decreases sendBuffer.unsent
      {
        var accepted := count < |answers| && answers[count];
        n := PostOnce(accepted, before, n, count);
        if !accepted { refused := true; break; }
        count := count + 1;
      }
    }

    /** Moves one packet from the queue to the buffer if it fits. */
    method TakePacket() returns (ok: bool)
      requires Valid() && queue != []
      modifies this`queue, this`traffic, sendBuffer, sendBuffer.buffer
      ensures Valid() && ok == (|old(traffic).queue[0]| <= Room(old(traffic)))
      ensures traffic == if ok then Take(old(traffic)) else old(traffic)
    {
      TakeCarries(sent, wire, sendBuffer.Contents(), traffic);
      ok := sendBuffer.WriteBuffer(queue[0]);
      if ok { queue, traffic := queue[1..], Take(traffic); }
    }

    /** One turn of the sending loop: a packet from the queue, and a post once enough bytes have gathered. */
    method SendBatch(answers: seq<bool>) returns (taken: bool, count: nat, refused: bool, ghost n: nat)
      requires Valid() && queue != []
      modifies this`queue, this`traffic, this`wire, this`inFlight, sendBuffer, sendBuffer.buffer
      ensures Valid() && taken == (|old(traffic).queue[0]| <= Room(old(traffic)))
      ensures if taken then Takes(old(traffic), traffic, n, count, refused, answers) else traffic == old(traffic)
    {
      taken := TakePacket();
      count, refused, n := 0, false, 0;
      if !taken || sendBuffer.GetSendDataSize() < SEND_LIMIT { return; }
      count, refused, n := PostUnsent(MAX_POST_CNT, answers);
    }

    /** The loop over the queue. */
    method SendBatches(answers: seq<seq<bool>>) returns (sendCount: nat, refused: bool, round: nat)
      requires Valid()
      modifies this`queue, this`traffic, this`wire, this`inFlight, sendBuffer, sendBuffer.buffer
      ensures Valid() && AfterTurns(old(traffic), traffic, sendCount, refused, answers)
      ensures sendCount < MAX_POST_CNT ==> traffic.queue == [] || |traffic.queue[0]| > Room(traffic)
      ensures sendCount <= MAX_POST_CNT + 1 && round == Turns(old(traffic), traffic)
    {
      sendCount, refused, round := 0, false, 0;
      ghost var before := traffic;
      NoTurns(before, answers);
      while queue != []
        invariant Valid() && AfterTurns(before, traffic, sendCount, refused, answers) && sendCount < MAX_POST_CNT
        invariant round == Turns(before, traffic)
        decreases |queue|
      {
        ghost var last := traffic;
        var batch := if round < |answers| then answers[round] else [];
        ghost var n;
        var taken, count, no;
        taken, count, no, n := SendBatch(batch);
        if !taken { break; }
        OneTurnMore(before, last, traffic, sendCount, refused, answers, n, count, no);
        sendCount, refused, round := sendCount + count, refused || no, round + 1;
        if sendCount >= MAX_POST_CNT { break; }
      }
    }

    /** Fills the buffer from the queue and posts it in batches of at least SEND_LIMIT bytes, then the rest. */
    method SendDeferred(answers: seq<seq<bool>>) returns (sendCount: nat, refused: bool)
      requires Valid()
      modifies this`queue, this`traffic, this`wire, this`inFlight, sendBuffer, sendBuffer.buffer
      ensures Valid() && Deferred(old(traffic), traffic, sendCount, refused, answers)
    {
      var round;
      ghost var before := traffic;
      sendCount, refused, round := SendBatches(answers);
      if sendCount >= MAX_POST_CNT {
        TurnsOnly(before, traffic, sendCount, refused, answers);
      } else {
        ghost var between, n := traffic, 0;
        var last := if round < |answers| then answers[round] else [];
        var count, no;
        count, no, n := PostUnsent(MAX_POST_CNT - sendCount, last);
        RestPosted(before, between, traffic, sendCount, refused, answers, n, count, no);
        sendCount, refused := sendCount + count, refused || no;
      }
    }

    /** Releases the bytes of a completed send. */
    method ProcessSend(bytesTransferred: nat) returns (disconnected: bool)
      requires Valid() && bytesTransferred <= inFlight
      modifies this`inFlight, this`traffic, sendBuffer
      ensures Valid() && disconnected == (bytesTransferred == 0)
      ensures traffic == old(traffic).(released := old(traffic.released) + bytesTransferred)
    {
      if bytesTransferred == 0 { return true; }
      inFlight := inFlight - bytesTransferred;
      ReleaseCarries(sent, wire, sendBuffer.Contents(), traffic, bytesTransferred);
      traffic := traffic.(released := traffic.released + bytesTransferred);
      var ok := sendBuffer.OnReadBuffer(bytesTransferred);
      assert ok;
      disconnected := false;
    }

    /** `trouble` when a post was refused or the post limit reached. */
    method Flush(answers: seq<seq<bool>>) returns (trouble: bool, ghost sendCount: nat, ghost refused: bool)
      requires Valid()
      modifies this`queue, this`traffic, this`wire, this`inFlight, sendBuffer, sendBuffer.buffer
      ensures Valid() && Deferred(old(traffic), traffic, sendCount, refused, answers)
      ensures trouble == (refused || sendCount >= MAX_POST_CNT)
    {
      var count, no := SendDeferred(answers);
      sendCount, refused, trouble := count, no, no || count >= MAX_POST_CNT;
    }

    /** One event. */
    method Handle(event: Event) returns (disconnected: bool, trouble: bool, ghost sendCount: nat, ghost refused: bool)
      requires Valid()
      modifies this, sendBuffer, sendBuffer.buffer
      ensures Valid() && sent == old(sent) + Enqueued([event])
      ensures Handled(old(traffic), traffic, event, disconnected, trouble, sendCount, refused)
    {
      disconnected, trouble, sendCount, refused := false, false, 0, false;
      OneEnqueued(event);
      match event {
        case Enqueue(netBuffer) => Send(netBuffer);
        case Flush(answers) => trouble, sendCount, refused := Flush(answers);
        case Completed(bytes) => if bytes <= inFlight { disconnected := ProcessSend(bytes); }
      }
    }

    /** Any sequence of events, up to a disconnect. Everything passed to Send is posted, waiting or queued, in order. A
        session whose buffer is full of unsent bytes never posts again; one whose packets leave room for the limit never
        gets there. */
    method Serve(events: seq<Event>) returns (trouble: bool, handled: nat)
      requires Valid()
      modifies this, sendBuffer, sendBuffer.buffer
      ensures Valid() && handled <= |events| && sent == old(sent) + Enqueued(events[..handled])
      ensures handled < |events| ==> handled > 0 && events[handled - 1] == Completed(0)
      ensures Served(old(traffic), traffic)
      ensures Relaxed(old(traffic)) && (forall e <- events :: SmallEvent(e)) && !trouble ==> Relaxed(traffic)
    {
      trouble, handled := false, 0;
      ghost var before, said := traffic, sent;
      assert events[..0] == [] && said + [] == said;
      while handled < |events|
        invariant Valid() && handled <= |events| && sent == said + Enqueued(events[..handled])
        invariant Served(before, traffic)
        invariant Relaxed(before) && (forall e <- events :: SmallEvent(e)) && !trouble ==> Relaxed(traffic)
      {
        ghost var last := traffic;
        ghost var sendCount, refused;
        var disconnected, t;
        disconnected, t, sendCount, refused := Handle(events[handled]);
        EnqueuedNext(said, events, handled);
        HandledServes(before, last, traffic, events[handled], disconnected, t, sendCount, refused);
        trouble, handled := trouble || t, handled + 1;
        if disconnected { return; }
      }
      assert events[..handled] == events;
    }
  }

  /** `packets` came out of `stream` and `pending` is what is left of it. */
  ghost predicate InStep(stream: seq<Byte>, packets: seq<seq<Byte>>, pending: seq<Byte>) {
    stream == Concat(packets) + pending && Extract(stream) == Done(packets, |Concat(packets)|)
  }

  /** Extracting from the pending bytes and a new chunk is extracting from the whole stream. */
  lemma ArrivalContinues(stream: seq<Byte>, packets: seq<seq<Byte>>, pending: seq<Byte>, chunk: seq<Byte>)
    requires InStep(stream, packets, pending)
    ensures var e := Extract(pending + chunk);
            && (e.Done? ==> InStep(stream + chunk, packets + e.packets, (pending + chunk)[e.used..]))
            && (e.Done? ==> Waiting((pending + chunk)[e.used..]))
            && (e.Stuck? ==> Extract(stream + chunk) == Stuck(packets + e.packets))
  {
    var arrived := pending + chunk;
    var e := Extract(arrived);
    ArrivedBefore(stream, packets, pending, chunk);
    ExtractSplits(arrived);
    if e.Done? {
      ConcatAppend(packets, e.packets);
      Regroup(Concat(packets), pending, chunk, Concat(e.packets), arrived[e.used..]);
    }
  }

  lemma ArrivedBefore(stream: seq<Byte>, packets: seq<seq<Byte>>, pending: seq<Byte>, chunk: seq<Byte>)
    requires InStep(stream, packets, pending)
    ensures Extract(stream + chunk) == Before(packets, |Concat(packets)|, Extract(pending + chunk))
  {
    assert stream[|Concat(packets)|..] == pending;
    ExtractContinues(stream, chunk);
  }

  lemma Regroup(used: seq<Byte>, pending: seq<Byte>, chunk: seq<Byte>, more: seq<Byte>, rest: seq<Byte>)
    requires more <= pending + chunk && rest == (pending + chunk)[|more|..]
    ensures used + pending + chunk == used + more + rest
  {
    assert pending + chunk == more + rest;
    assert used + (pending + chunk) == used + (more + rest);
  }

  /** What waits for more bytes is shorter than the buffer. */
  lemma WaitingIsShort(bs: seq<Byte>)
    requires Waiting(bs)
    ensures |bs| < BUFFER_SIZE - 1
  {
  }
}
