/**
  The periodic drain of the retry buffer (`processFailedMessages` in
  api-server/services/kafka.service.js). One call is modelled as one atomic
  step; the 30-second `setInterval` that schedules it is not modelled.
  The sink's verdict on each retried event is an oracle: `outcomes[i]` is true
  when the i-th retried write succeeded.

  After a successful retry the loop logs the event's `deployment_id` inside the
  same `try`; that line could only throw for a value whose string conversion
  throws. Such an event never reaches the buffer (`DrainKeepsPrintable` and
  `BatchConsumer.ProcessBatchKeepsPrintable`), so the model takes a successful
  write as the end of that retry.
*/
module DrainScheduler {
  import opened Common
  import opened RetryBuffer

  /** `splice(0, 10)`: at most this many events are retried per cycle. */
  const DrainBatchSize: nat := 10

  /** How many events one drain takes off the head of a buffer of `n` events. */
  function TakeCount(n: nat): (k: nat)
    ensures k <= n && k <= DrainBatchSize
    ensures k == n || k == DrainBatchSize
  {
    Min(n, DrainBatchSize)
  }

  /** What one drain cycle leaves behind and which events it handed to the sink. */
  datatype DrainResult = DrainResult(queue: Queue, attempted: Queue)

  /** The events whose retry failed, in the order they were retried. */
  function Failed(items: Queue, outcomes: seq<bool>): (r: Queue)
    requires |outcomes| == |items|
    ensures |r| <= |items|
    decreases |items|
  {
    if |items| == 0 then []
    else (if outcomes[0] then [] else [items[0]]) + Failed(items[1..], outcomes[1..])
  }

  /** The `for ... of` loop over the spliced events: a failed retry is offered back to the buffer. */
  function RetryAll(q: Queue, items: Queue, outcomes: seq<bool>): Queue
    requires |outcomes| == |items|
    decreases |items|
  {
    if |items| == 0 then q
    else RetryAll(if outcomes[0] then q else Offer(q, items[0]), items[1..], outcomes[1..])
  }

  function Drain(q: Queue, outcomes: seq<bool>): (r: DrainResult)
    requires |outcomes| == TakeCount(|q|)
    // draining an empty buffer changes nothing and calls the sink for nothing
    ensures |q| == 0 ==> r.queue == q && r.attempted == []
    // the retried events are the oldest ones, in FIFO order, exactly as they were stored
    ensures r.attempted == q[..TakeCount(|q|)]
    // the untouched remainder stays at the head, in order, for the next cycle
    ensures |r.queue| >= |q| - TakeCount(|q|)
    ensures r.queue[..|q| - TakeCount(|q|)] == q[TakeCount(|q|)..]
    ensures Bounded(q) ==> Bounded(r.queue)
  {
    if |q| == 0 then DrainResult(q, [])
    else
      var n := TakeCount(|q|);
      RetryAllFills(q[n..], q[..n], outcomes);
      DrainResult(RetryAll(q[n..], q[..n], outcomes), q[..n])
  }

  /** The retry loop is one run of guarded pushes over the failed events. */
  lemma {:induction false} RetryAllFills(q: Queue, items: Queue, outcomes: seq<bool>)
    requires |outcomes| == |items|
    ensures RetryAll(q, items, outcomes) == Fill(q, Failed(items, outcomes))
    decreases |items|
  {
    if |items| != 0 {
      if outcomes[0] {
        RetryAllFills(q, items[1..], outcomes[1..]);
      } else {
        RetryAllFills(Offer(q, items[0]), items[1..], outcomes[1..]);
        FillOffer(q, items[0], Failed(items[1..], outcomes[1..]));
      }
    }
  }

  /**
    The whole effect of one drain: the remainder, followed by the failed events
    as far as capacity allows. Within the capacity bound the splice has freed
    exactly the room the failures need, so when the drain runs on its own no
    failed event is ever dropped.
  */
  lemma DrainEffect(q: Queue, outcomes: seq<bool>)
    requires |outcomes| == TakeCount(|q|)
    ensures var n := TakeCount(|q|);
      Drain(q, outcomes).queue == Fill(q[n..], Failed(q[..n], outcomes))
    ensures var n := TakeCount(|q|);
      Bounded(q) ==> Drain(q, outcomes).queue == q[n..] + Failed(q[..n], outcomes)
  {
    var n := TakeCount(|q|);
    RetryAllFills(q[n..], q[..n], outcomes);
  }

  /** Successful retries are not put back: if every retry succeeds, exactly the head is removed. */
  lemma DrainAllSucceed(q: Queue, outcomes: seq<bool>)
    requires |outcomes| == TakeCount(|q|)
    requires forall i :: 0 <= i < |outcomes| ==> outcomes[i]
    ensures Drain(q, outcomes).queue == q[TakeCount(|q|)..]
  {
    var n := TakeCount(|q|);
    DrainEffect(q, outcomes);
    AllSucceedNoneFailed(q[..n], outcomes);
  }

  lemma {:induction false} AllSucceedNoneFailed(items: Queue, outcomes: seq<bool>)
    requires |outcomes| == |items|
    requires forall i :: 0 <= i < |outcomes| ==> outcomes[i]
    ensures Failed(items, outcomes) == []
    decreases |items|
  {
    if |items| != 0 {
      AllSucceedNoneFailed(items[1..], outcomes[1..]);
    }
  }

  /** If every retry fails (and the bound holds), the head moves to the tail: a rotation. */
  lemma DrainAllFail(q: Queue, outcomes: seq<bool>)
    requires Bounded(q)
    requires |outcomes| == TakeCount(|q|)
    requires forall i :: 0 <= i < |outcomes| ==> !outcomes[i]
    ensures Drain(q, outcomes).queue == q[TakeCount(|q|)..] + q[..TakeCount(|q|)]
  {
    var n := TakeCount(|q|);
    DrainEffect(q, outcomes);
    AllFailAllFailed(q[..n], outcomes);
  }

  lemma {:induction false} AllFailAllFailed(items: Queue, outcomes: seq<bool>)
    requires |outcomes| == |items|
    requires forall i :: 0 <= i < |outcomes| ==> !outcomes[i]
    ensures Failed(items, outcomes) == items
    decreases |items|
  {
    if |items| != 0 {
      AllFailAllFailed(items[1..], outcomes[1..]);
      assert [items[0]] + items[1..] == items;
    }
  }

  /** The failed events are a sub-collection of the retried ones. */
  lemma {:induction false} FailedSubMultiset(items: Queue, outcomes: seq<bool>)
    requires |outcomes| == |items|
    ensures multiset(Failed(items, outcomes)) <= multiset(items)
    decreases |items|
  {
    if |items| != 0 {
      FailedSubMultiset(items[1..], outcomes[1..]);
      assert items == [items[0]] + items[1..];
    }
  }

  /** Failures keep the ids of distinct retried events distinct, and every failure was retried. */
  lemma {:induction false} FailedKeepsIds(items: Queue, outcomes: seq<bool>)
    requires |outcomes| == |items|
    requires DistinctIds(items)
    ensures DistinctIds(Failed(items, outcomes))
    ensures forall x :: x in Failed(items, outcomes) ==> x in items
    decreases |items|
  {
    if |items| != 0 {
      var rest := Failed(items[1..], outcomes[1..]);
      FailedKeepsIds(items[1..], outcomes[1..]);
      if !outcomes[0] {
        forall j | 0 <= j < |rest|
          ensures items[0].eventId != rest[j].eventId
        {
          assert rest[j] in items[1..];
        }
        DistinctIdsAppend([items[0]], rest);
      }
    }
  }

  /** A drain never duplicates an event: everything it leaves behind was there before, at most as often. */
  lemma DrainNoDuplicates(q: Queue, outcomes: seq<bool>)
    requires |outcomes| == TakeCount(|q|)
    ensures multiset(Drain(q, outcomes).queue) <= multiset(q)
  {
    var n := TakeCount(|q|);
    var f := Failed(q[..n], outcomes);
    var k := DrainKept(q, outcomes);
    assert q == q[..n] + q[n..];
    assert f == f[..k] + f[k..];
    FailedSubMultiset(q[..n], outcomes);
  }

  /** How many failed events one drain manages to put back, and the resulting shape. */
  lemma DrainKept(q: Queue, outcomes: seq<bool>) returns (k: nat)
    requires |outcomes| == TakeCount(|q|)
    ensures var n := TakeCount(|q|);
      k <= |Failed(q[..n], outcomes)| &&
      Drain(q, outcomes).queue == q[n..] + Failed(q[..n], outcomes)[..k]
  {
    var n := TakeCount(|q|);
    var f := Failed(q[..n], outcomes);
    DrainEffect(q, outcomes);
    k := if |q[n..]| >= MaxFailedMessages then 0 else Min(|f|, MaxFailedMessages - |q[n..]|);
    if k == 0 {
      assert f[..k] == [];
    }
  }

  /** Distinct event ids stay distinct across a drain. */
  lemma DrainKeepsIdsDistinct(q: Queue, outcomes: seq<bool>)
    requires |outcomes| == TakeCount(|q|)
    requires DistinctIds(q)
    ensures DistinctIds(Drain(q, outcomes).queue)
  {
    var n := TakeCount(|q|);
    var head, rest := q[..n], q[n..];
    var f := Failed(head, outcomes);
    var k := DrainKept(q, outcomes);
    DistinctIdsSlice(q, 0, n);
    DistinctIdsSlice(q, n, |q|);
    FailedKeepsIds(head, outcomes);
    DistinctIdsSlice(f, 0, k);
    var fk := f[..k];
    forall i, j | 0 <= i < |rest| && 0 <= j < |fk|
      ensures rest[i].eventId != fk[j].eventId
    {
      assert fk[j] in head;
      var h :| 0 <= h < |head| && head[h] == fk[j];
      assert head[h] == q[h] && rest[i] == q[n + i];
    }
    DistinctIdsAppend(rest, fk);
  }

  /** A drain only keeps or re-adds events that were buffered, so a printable buffer stays printable. */
  lemma DrainKeepsPrintable(q: Queue, outcomes: seq<bool>)
    requires |outcomes| == TakeCount(|q|)
    requires AllPrintable(q)
    ensures AllPrintable(Drain(q, outcomes).queue)
  {
    var n := TakeCount(|q|);
    var r := Drain(q, outcomes).queue;
    var f := Failed(q[..n], outcomes);
    var k := DrainKept(q, outcomes);
    FailedSubMultiset(q[..n], outcomes);
    forall i | 0 <= i < |r|
      ensures Printable(r[i].deploymentId)
    {
      if i < |q| - n {
        assert r[i] == q[n + i];
      } else {
        var x := f[..k][i - (|q| - n)];
        assert r[i] == x;
        assert x in multiset(f);
        assert x in q[..n];
        var h :| 0 <= h < n && q[..n][h] == x;
        assert q[h] == x;
      }
    }
  }

  /**
    One drain is a head splice followed by one push per failed retry, so it is one
    of the histories `InterleavingKeepsBound` covers.
  */
  lemma DrainAsQueueOps(q: Queue, outcomes: seq<bool>)
    requires |outcomes| == TakeCount(|q|)
    ensures var n := TakeCount(|q|);
      Drain(q, outcomes).queue == ApplyAll(q, [Splice(DrainBatchSize)] + Pushes(Failed(q[..n], outcomes)))
  {
    var n := TakeCount(|q|);
    var ops := [Splice(DrainBatchSize)] + Pushes(Failed(q[..n], outcomes));
    assert ops[1..] == Pushes(Failed(q[..n], outcomes));
    assert Apply(q, ops[0]) == q[n..];
    PushesAreOfferAll(q[n..], Failed(q[..n], outcomes));
    OfferAllIsFill(q[n..], Failed(q[..n], outcomes));
    DrainEffect(q, outcomes);
  }
}
