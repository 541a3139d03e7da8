/** The stress client: how its threads share the clients, and its running average of delays. */
module StressTest {

  const PACKET_SEND_DURATION := 1000

  // ---- Work partition ------------------------------------------------------------------------

  function Ceil(r: real): int {
    -(-r).Floor
  }

  /** Turns per thread: `ceil((double)clientNum / threadCnt)`. */
  function JobCnt(clientNum: nat, threadCnt: nat): (n: int)
    requires threadCnt > 0
  {
    Ceil(clientNum as real / threadCnt as real)
  }

  /** The turns are just enough for all clients. */
  lemma JobCntIsExact(clientNum: nat, threadCnt: nat)
    requires threadCnt > 0
    ensures var n := JobCnt(clientNum, threadCnt);
            n >= 0 && (n - 1) * threadCnt < clientNum <= n * threadCnt
  {
    var n, c, t := JobCnt(clientNum, threadCnt), clientNum as real, threadCnt as real;
    CeilBounds(c, t, n);
    ProductAsReal(n, threadCnt);
    ProductAsReal(n - 1, threadCnt);
  }

  lemma CeilBounds(c: real, t: real, n: int)
    requires c >= 0.0 && t > 0.0 && n == Ceil(c / t)
    ensures n >= 0 && (n - 1) as real * t < c <= n as real * t
  {
    var q := c / t;
    assert t * q == c;
    if q < 0.0 { RealOrder(t, q, 0.0); }
    assert 0.0 <= q && (n - 1) as real < q <= n as real;
    RealOrder(t, (n - 1) as real, q);
    RealOrder(t, q, n as real);
  }

  /** Thread `idx` comes to client `c` in turn `i`. */
  predicate Visits(clientNum: nat, threadCnt: nat, idx: nat, i: int, c: int)
    requires threadCnt > 0
  {
    0 <= i < JobCnt(clientNum, threadCnt) && c == i * threadCnt + idx && c < clientNum
  }

  /** Every client is visited by exactly one thread, in exactly one turn. */
  lemma EveryClientOnce(clientNum: nat, threadCnt: nat, c: int)
    requires threadCnt > 0
    ensures 0 <= c < clientNum ==> Visits(clientNum, threadCnt, c % threadCnt, c / threadCnt, c)
    ensures forall idx: nat, i: int :: idx < threadCnt && Visits(clientNum, threadCnt, idx, i, c) ==>
              0 <= c < clientNum && idx == c % threadCnt && i == c / threadCnt
  {
    if 0 <= c < clientNum { IsVisited(clientNum, threadCnt, c); }
    forall idx: nat, i: int | idx < threadCnt && Visits(clientNum, threadCnt, idx, i, c)
      ensures 0 <= c < clientNum && idx == c % threadCnt && i == c / threadCnt
    {
      VisitedBy(clientNum, threadCnt, idx, i, c);
    }
  }

  lemma IsVisited(clientNum: nat, threadCnt: nat, c: int)
    requires threadCnt > 0 && 0 <= c < clientNum
    ensures Visits(clientNum, threadCnt, c % threadCnt, c / threadCnt, c)
  {
    JobCntIsExact(clientNum, threadCnt);
    TurnIsEarly(c / threadCnt, JobCnt(clientNum, threadCnt), threadCnt, c % threadCnt);
  }

  lemma VisitedBy(clientNum: nat, threadCnt: nat, idx: nat, i: int, c: int)
    requires idx < threadCnt && Visits(clientNum, threadCnt, idx, i, c)
    ensures 0 <= c < clientNum && idx == c % threadCnt && i == c / threadCnt
  {
    DivisionIsUnique(i, threadCnt, idx);
  }

  lemma ProductOrder(a: int, b: int, t: nat)
    requires a <= b
    ensures a * t <= b * t
  {
    assert (b - a) * t >= 0;
  }

  lemma TurnIsEarly(i: int, n: int, t: nat, idx: nat)
    requires i * t + idx < n * t
    ensures i < n
  {
    if i >= n { ProductOrder(n, i, t); assert false; }
  }

  lemma DivisionIsUnique(i: int, t: nat, idx: nat)
    requires i >= 0 && idx < t
    ensures (i * t + idx) / t == i && (i * t + idx) % t == idx && i * t + idx >= 0
  {
    var c := i * t + idx;
    var q := c / t;
    ProductOrder(0, i, t);
    assert c == q * t + c % t;
    assert (i + 1) * t == i * t + t && (q + 1) * t == q * t + t;
    if q > i { ProductOrder(i + 1, q, t); assert false; }
    if q < i { ProductOrder(q + 1, i, t); assert false; }
  }

  /** The first client of turn `i`. */
  function Start(i: nat, t: nat): int { i * t }

  /** Among the clients of turn `i`, thread `idx` has exactly one. */
  lemma OneOfTurn(i: nat, t: nat, idx: nat)
    requires idx < t
    ensures forall c :: Start(i, t) <= c < Start(i + 1, t) ==> (c % t == idx <==> c == Start(i, t) + idx)
    ensures (Start(i, t) + idx) / t == i && (Start(i, t) + idx) % t == idx
    ensures 0 <= Start(i, t) && Start(i + 1, t) == Start(i, t) + t
  {
    ProductOrder(0, i, t);
    DivisionIsUnique(i, t, idx);
    forall c | i * t <= c < (i + 1) * t ensures c % t == idx <==> c == i * t + idx {
      DivisionIsUnique(i, t, c - i * t);
    }
  }

  /** A client of thread `idx` whose last packet is old enough; `clock` is read twice a turn. */
  predicate Due(t: nat, idx: nat, c: int, clock: nat -> int, times: seq<int>)
    requires t > 0
  {
    0 <= c < |times| && c % t == idx && clock(2 * (c / t)) - times[c] >= PACKET_SEND_DURATION
  }

  /** Thread `idx` has served the due clients below `limit`, in order. */
  ghost predicate Served(t: nat, idx: nat, limit: int, clock: nat -> int, before: seq<int>, times: seq<int>,
                         sent: seq<int>)
    requires t > 0
  {
    && |times| == |before|
    && (forall j, k :: 0 <= j < k < |sent| ==> sent[j] < sent[k])
    && (forall s <- sent :: s <= limit)
    && (forall c :: c + 1 in sent <==> c < limit && Due(t, idx, c, clock, before))
    && (forall c :: 0 <= c < |before| ==>
          times[c] == if c < limit && Due(t, idx, c, clock, before) then clock(2 * (c / t) + 1) else before[c])
  }

  /** One turn, which is about the clients from `limit` to `limit'`. */
  lemma TurnServed(t: nat, idx: nat, limit: int, limit': int, c: nat, clock: nat -> int, before: seq<int>,
                   times: seq<int>, sent: seq<int>)
    requires t > 0 && Served(t, idx, limit, clock, before, times, sent)
    requires limit <= c < limit' && c < |before| && forall d :: limit <= d < limit' ==> (d % t == idx <==> d == c)
    ensures if clock(2 * (c / t)) - times[c] < PACKET_SEND_DURATION then
              Served(t, idx, limit', clock, before, times, sent)
            else
              Served(t, idx, limit', clock, before, times[c := clock(2 * (c / t) + 1)], sent + [c + 1])
  {
    assert times[c] == before[c];
    var due := Due(t, idx, c, clock, before);
    assert forall d :: d < limit' && Due(t, idx, d, clock, before) <==>
                       (d < limit && Due(t, idx, d, clock, before)) || (d == c && due);
    if due {
      var sent' := sent + [c + 1];
      forall j | 0 <= j < |sent| ensures sent[j] < c + 1 {
        assert sent[j] in sent;
      }
      forall d ensures d + 1 in sent' <==> d < limit' && Due(t, idx, d, clock, before) {
        assert d + 1 in sent' <==> d + 1 in sent || d == c;
      }
    }
  }

  /** From one call to the next: a client that was stamped is sent to again exactly if, on the clock read for it, a
      whole duration has passed since the stamp. */
  lemma NextSend(t: nat, idx: nat, c: int, clock: nat -> int, later: nat -> int, before: seq<int>, times: seq<int>)
    requires t > 0 && |times| == |before| && Due(t, idx, c, clock, before) && times[c] == clock(2 * (c / t) + 1)
    ensures Due(t, idx, c, later, times) <==>
            later(2 * (c / t)) >= clock(2 * (c / t) + 1) + PACKET_SEND_DURATION
  {
  }

  lemma AllServed(t: nat, idx: nat, limit: int, clock: nat -> int, before: seq<int>, times: seq<int>, sent: seq<int>)
    requires t > 0 && Served(t, idx, limit, clock, before, times, sent)
    requires forall d :: limit <= d < |before| ==> d % t != idx
    ensures forall c :: c + 1 in sent <==> Due(t, idx, c, clock, before)
    ensures forall c :: 0 <= c < |before| ==>
              times[c] == if Due(t, idx, c, clock, before) then clock(2 * (c / t) + 1) else before[c]
  {
    assert forall c :: Due(t, idx, c, clock, before) ==> c < limit;
  }

  lemma NoneLeft(i: nat, t: nat, idx: nat, n: nat)
    requires idx < t && Start(i, t) + idx >= n
    ensures forall d :: Start(i, t) <= d < n ==> d % t != idx
  {
    OneOfTurn(i, t, idx);
  }

  /** `startTime + deltaTime * i`, truncated, with `deltaTime = PACKET_SEND_DURATION / (double)clientNum`. */
  function Staggered(startTime: nat, clientNum: nat, i: nat): int
    requires clientNum > 0
  {
    (startTime as real + PACKET_SEND_DURATION as real / clientNum as real * i as real).Floor
  }

  /** The send times grow with the client and stay within one duration. */
  lemma StaggeredWithinDuration(startTime: nat, clientNum: nat, i: nat, j: nat)
    requires i <= j < clientNum
    ensures startTime <= Staggered(startTime, clientNum, i) <= Staggered(startTime, clientNum, j)
    ensures Staggered(startTime, clientNum, j) < startTime + PACKET_SEND_DURATION
  {
    var delta := PACKET_SEND_DURATION as real / clientNum as real;
    assert delta > 0.0 && delta * clientNum as real == PACKET_SEND_DURATION as real;
    RealOrder(delta, 0.0, i as real);
    RealOrder(delta, i as real, j as real);
    RealOrder(delta, j as real, clientNum as real);
  }

  /** In integers: client `i` gets the part of one duration that `i` is of the clients, rounded down. */
  lemma StaggeredIsShare(startTime: nat, clientNum: nat, i: nat)
    requires clientNum > 0
    ensures var share := Staggered(startTime, clientNum, i) - startTime;
            clientNum * share <= i * PACKET_SEND_DURATION < clientNum * (share + 1)
  {
    var c, share := clientNum as real, Staggered(startTime, clientNum, i) - startTime;
    var delta := PACKET_SEND_DURATION as real / c;
    var x := delta * i as real;
    assert share as real <= x < (share + 1) as real;
    RealOrder(c, share as real, x);
    RealOrder(c, x, (share + 1) as real);
    assert c * delta == PACKET_SEND_DURATION as real;
    assert c * x == (c * delta) * i as real;
    ProductAsReal(clientNum, share);
    ProductAsReal(clientNum, share + 1);
    ProductAsReal(i, PACKET_SEND_DURATION);
  }

  lemma RealOrder(d: real, a: real, b: real)
    requires d > 0.0 && a <= b
    ensures d * a <= d * b && (a < b ==> d * a < d * b)
  {
    assert d * (b - a) >= 0.0;
  }

  class StressTestClient {
    var clientNum: nat
    const threadCnt: nat
    var jobCnt: int
    var sendTime: seq<int>

    ghost predicate Valid()
      reads this
    {
      threadCnt > 0 && jobCnt == JobCnt(clientNum, threadCnt) && |sendTime| == clientNum
    }

    constructor (clientNum: nat, threadCnt: nat)
      requires threadCnt > 0
      ensures this.clientNum == clientNum && this.threadCnt == threadCnt
      ensures jobCnt == JobCnt(clientNum, threadCnt) && sendTime == []
    {
      this.clientNum, this.threadCnt := clientNum, threadCnt;
      jobCnt := Ceil(clientNum as real / threadCnt as real);
      sendTime := [];
    }

    /** Spreads the clients' send times evenly over one duration. */
    method ResetSendTime(startTime: nat)
      requires threadCnt > 0 && jobCnt == JobCnt(clientNum, threadCnt)
      modifies this`sendTime
      ensures Valid() && forall i :: 0 <= i < clientNum ==> sendTime[i] == Staggered(startTime, clientNum, i)
    {
      sendTime := [];
      for i := 0 to clientNum
        invariant |sendTime| == i && forall k :: 0 <= k < i ==> sendTime[k] == Staggered(startTime, clientNum, k)
      {
        sendTime := sendTime + [Staggered(startTime, clientNum, i)];
      }
    }

    /** One step of the increasing mode. */
    method Grow(rate: nat, startTime: nat)
      requires threadCnt > 0
      modifies this
      ensures Valid() && clientNum == old(clientNum) + rate
      ensures forall i :: 0 <= i < clientNum ==> sendTime[i] == Staggered(startTime, clientNum, i)
    {
      clientNum := clientNum + rate;
      jobCnt := Ceil(clientNum as real / threadCnt as real);
      ResetSendTime(startTime);
    }

    /** One turn of the sending loop. */
    method Turn(idx: nat, i: nat, clock: nat -> int, sent: seq<int>, ghost before: seq<int>) returns (sent': seq<int>)
      requires Valid() && idx < threadCnt && Start(i, threadCnt) + idx < clientNum == |before|
      requires Served(threadCnt, idx, Start(i, threadCnt), clock, before, sendTime, sent)
      modifies this`sendTime
      ensures Valid() && Served(threadCnt, idx, Start(i + 1, threadCnt), clock, before, sendTime, sent')
    {
      var sIdx := Start(i, threadCnt) + idx;
      OneOfTurn(i, threadCnt, idx);
      TurnServed(threadCnt, idx, Start(i, threadCnt), Start(i + 1, threadCnt), sIdx, clock, before, sendTime, sent);
      sent' := sent;
      if clock(2 * i) - sendTime[sIdx] >= PACKET_SEND_DURATION {
        sendTime := sendTime[sIdx := clock(2 * i + 1)];
        sent' := sent + [sIdx + 1];
      }
    }

    /** Sends for every client of thread `idx` that is due, in order, and for no other. */
    method SendToServer(idx: nat, clock: nat -> int) returns (sent: seq<int>)
      requires Valid() && idx < threadCnt
      modifies this`sendTime
      ensures Valid()
      ensures forall j, k :: 0 <= j < k < |sent| ==> sent[j] < sent[k]
      ensures forall c :: c + 1 in sent <==> Due(threadCnt, idx, c, clock, old(sendTime))
      ensures forall c :: 0 <= c < clientNum ==>
                sendTime[c] == if Due(threadCnt, idx, c, clock, old(sendTime)) then clock(2 * (c / threadCnt) + 1)
                               else old(sendTime[c])
    {
      sent := [];
      JobCntIsExact(clientNum, threadCnt);
      var i: nat := 0;
      while i < jobCnt
        invariant Valid() && i <= jobCnt
        invariant Served(threadCnt, idx, Start(i, threadCnt), clock, old(sendTime), sendTime, sent)
      {
        if Start(i, threadCnt) + idx >= clientNum { break; }
        sent := Turn(idx, i, clock, sent, old(sendTime));
        i := i + 1;
      }
      NoneLeft(i, threadCnt, idx, clientNum);
      AllServed(threadCnt, idx, Start(i, threadCnt), clock, old(sendTime), sendTime, sent);
    }
  }

  // ---- Incremental mean ----------------------------------------------------------------------

  function Sum(samples: seq<int>): int {
    if samples == [] then 0 else Sum(samples[..|samples| - 1]) + samples[|samples| - 1]
  }

  /** The mean of the samples; 0 without samples. */
  function Mean(samples: seq<int>): real {
    if samples == [] then 0.0 else Sum(samples) as real / |samples| as real
  }

  class DelayChecker {
    var avgDelay: real
    var dataCnt: nat
    ghost var samples: seq<int>      // since the last reset

    ghost predicate Valid()
      reads this
    {
      dataCnt == |samples| && avgDelay == Mean(samples)
    }

    constructor ()
      ensures Valid() && samples == []
    {
      avgDelay, dataCnt, samples := 0.0, 0, [];
    }

    method UpdateAvgDelay(delay: int)
      requires Valid()
      modifies this
      ensures Valid() && samples == old(samples) + [delay]
    {
      dataCnt := dataCnt + 1;
      avgDelay := (dataCnt as real - 1.0) / dataCnt as real * avgDelay + 1.0 / dataCnt as real * delay as real;
      MeanOfOneMore(samples, delay);
      samples := samples + [delay];
    }

    method Reset()
      modifies this
      ensures Valid() && samples == []
    {
      dataCnt, avgDelay, samples := 0, 0.0, [];
    }
  }

  lemma MeanOfOneMore(samples: seq<int>, delay: int)
    ensures var n := (|samples| + 1) as real;
            Mean(samples + [delay]) == (n - 1.0) / n * Mean(samples) + 1.0 / n * delay as real
  {
    var n, all := (|samples| + 1) as real, samples + [delay];
    assert all[..|samples|] == samples;
    assert Sum(all) == Sum(samples) + delay;
    if samples == [] {
      assert Mean(all) == delay as real;
    } else {
      var s := Sum(samples) as real;
      assert (n - 1.0) / n * (s / (n - 1.0)) == s / n;
      assert 1.0 / n * delay as real == delay as real / n;
      assert (s + delay as real) / n == s / n + delay as real / n;
    }
  }

  /** The order of the samples does not matter. */
  lemma {:induction false} MeanIsOrderFree(a: seq<int>, b: seq<int>)
    requires multiset(a) == multiset(b)
    ensures Mean(a) == Mean(b)
  {
    assert |a| == |multiset(a)| == |multiset(b)| == |b|;
    SumIsOrderFree(a, b);
  }

  lemma {:induction false} SumIsOrderFree(a: seq<int>, b: seq<int>)
    requires multiset(a) == multiset(b)
    ensures Sum(a) == Sum(b)
    decreases |a|
  {
    if a == [] {
      assert |multiset(b)| == 0;
    } else {
      var n := |a| - 1;
      assert a[n] in multiset(b);
      var k :| 0 <= k < |b| && b[k] == a[n];
      assert a == a[..n] + [a[n]];
      WithoutOne(b, k);
      SumIsOrderFree(a[..n], b[..k] + b[k + 1..]);
      SumWithout(b, k);
    }
  }

  lemma WithoutOne(s: seq<int>, k: nat)
    requires k < |s|
    ensures multiset(s[..k] + s[k + 1..]) == multiset(s) - multiset{s[k]}
  {
    assert s == s[..k] + ([s[k]] + s[k + 1..]);
  }

  lemma {:induction false} SumWithout(s: seq<int>, k: nat)
    requires k < |s|
    ensures Sum(s) == Sum(s[..k] + s[k + 1..]) + s[k]
    decreases |s|
  {
    var n := |s| - 1;
    if k == n {
      assert s[..k] + s[k + 1..] == s[..n];
    } else {
      var rest := s[..k] + s[k + 1..];
      assert rest[..n - 1] == s[..n][..k] + s[..n][k + 1..];
      SumWithout(s[..n], k);
    }
  }

  /** The mean lies between any bounds of the samples. */
  lemma MeanIsBetween(samples: seq<int>, low: int, high: int)
    requires samples != [] && forall i :: 0 <= i < |samples| ==> low <= samples[i] <= high
    ensures low as real <= Mean(samples) <= high as real
  {
    SumIsBetween(samples, low, high);
    ProductAsReal(low, |samples|);
    ProductAsReal(high, |samples|);
    QuotientIsBetween(Sum(samples) as real, |samples| as real, low as real, high as real);
  }

  lemma ProductAsReal(a: int, b: int)
    ensures (a * b) as real == a as real * b as real
  {
  }

  lemma QuotientIsBetween(s: real, n: real, low: real, high: real)
    requires n > 0.0 && low * n <= s <= high * n
    ensures low <= s / n <= high
  {
    assert s / n - low == (s - low * n) / n;
    assert high - s / n == (high * n - s) / n;
  }

  lemma {:induction false} SumIsBetween(samples: seq<int>, low: int, high: int)
    requires forall i :: 0 <= i < |samples| ==> low <= samples[i] <= high
    ensures low * |samples| <= Sum(samples) <= high * |samples|
    decreases |samples|
  {
    if samples != [] {
      var n := |samples| - 1;
      SumIsBetween(samples[..n], low, high);
      assert low * (n + 1) == low * n + low && high * (n + 1) == high * n + high;
    }
  }
}
