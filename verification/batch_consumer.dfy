/**
  The per-batch message loop of the broker consumer (the `eachBatch` handler in
  api-server/services/kafka.service.js).

  Everything the loop awaits is an oracle. Per message, `Env` records the fresh
  id `uuidv4()` would return and whether each awaited outside call succeeds:
  the sink write, the offset commit and heartbeat on the parse-success path,
  and the commit inside the parse-error handler. Decoding the payload (UTF-8,
  `JSON.parse`, destructuring) is one abstract partial function.

  In the source, the commit and heartbeat of the success path sit inside the
  same `try` as the parse, so if either throws, control lands in the
  parse-error handler, which resolves and commits the offset a second time.
  The model keeps that shape; `HeartbeatFailureCommitsTwice` shows it. If the
  handler's own commit throws, the error leaves `eachBatch` and the rest of
  the batch is not processed (`aborted`). The handler also logs
  `message.value.toString()` before resolving, so a message with a null value
  throws a second time there: no offset call is issued and the batch ends
  (`NullValueEndsBatch`). Both log lines after the sink write interpolate
  `DEPLOYMENT_ID`, so when that value cannot be turned into a string the error
  reaches the handler before the guarded push and before the heartbeat
  (`UnprintableDeploymentIdIsNeverBuffered`).
*/
module BatchConsumer {
  import opened Common
  import opened RetryBuffer

  type Bytes = seq<bv8>

  /** `{ DEPLOYMENT_ID, log, status }` as destructured from the parsed payload. */
  datatype Payload = Payload(deploymentId: Field, log: Field, status: Field)

  /** `value.toString()` then `JSON.parse` then destructuring: `None` wherever one of them throws. */
  type Decoder = Bytes -> Option<Payload>

  /** A broker message; `value` is `None` when the broker delivers a null value. */
  datatype Message = Message(offset: nat, value: Option<Bytes>)

  /** The outside world's answers while one message is handled. */
  datatype Env = Env(
    freshId: string,        // what `uuidv4()` returns for this message
    sinkOk: bool,           // `insertLogEvent(logData)` resolves
    commitOk: bool,         // `commitOffsetsIfNecessary` on the success path resolves
    heartbeatOk: bool,      // `heartbeat()` resolves
    handlerCommitOk: bool   // `commitOffsetsIfNecessary` inside the parse-error handler resolves
  )

  datatype Delivery = Delivery(message: Message, env: Env)

  /** The broker control calls issued, in order (a call that throws is still issued). */
  datatype Call = Resolve(offset: nat) | Commit(offset: nat) | Heartbeat

  /** Buffer after the step, broker calls issued, sink writes attempted, and whether an error escaped. */
  datatype Effects = Effects(queue: Queue, calls: seq<Call>, writes: Queue, aborted: bool)

  function Parse(m: Message, decode: Decoder): Option<Payload> {
    match m.value
    case None => None
    case Some(b) => decode(b)
  }

  /** The `logData` record: a fresh `event_id` and the three payload properties copied unchanged. */
  function BuildEvent(id: string, p: Payload): LogEvent {
    LogEvent(id, p.deploymentId, p.log, p.status)
  }

  /**
    The `catch (parseError)` block. It logs `message.value.toString()` first, which
    throws again for a null value; otherwise it resolves, then commits, and a
    throwing commit escapes the batch.
  */
  function ParseErrorHandler(q: Queue, m: Message, commitOk: bool): (r: Effects)
    // the handler never writes to the sink or touches the buffer
    ensures r.queue == q && r.writes == []
    // a null value: the log line throws before any broker call, and the error escapes
    ensures m.value.None? ==> r.calls == [] && r.aborted
    // otherwise exactly one resolve and one commit of this offset; the batch ends iff that commit throws
    ensures m.value.Some? ==> r.calls == [Resolve(m.offset), Commit(m.offset)] && (r.aborted <==> !commitOk)
  {
    match m.value
    case None => Effects(q, [], [], true)
    case Some(_) => Effects(q, [Resolve(m.offset), Commit(m.offset)], [], !commitOk)
  }

  /** The payload parsed and its `DEPLOYMENT_ID` can be interpolated into the log lines. */
  predicate ParsedAndPrintable(m: Message, decode: Decoder) {
    Parse(m, decode).Some? && Printable(Parse(m, decode).value.deploymentId)
  }

  predicate BrokerCallsSucceed(e: Env) {
    e.commitOk && e.heartbeatOk && e.handlerCommitOk
  }

  /**
    Reference definition of the promised per-message protocol: resolve and commit
    the offset, then heartbeat only when the payload parsed and its
    `DEPLOYMENT_ID` could be logged.
  */
  function Protocol(m: Message, decode: Decoder): seq<Call> {
    [Resolve(m.offset), Commit(m.offset)] + (if ParsedAndPrintable(m, decode) then [Heartbeat] else [])
  }

  function ProcessMessage(q: Queue, d: Delivery, decode: Decoder): (r: Effects)
    // a null value issues no call, writes nothing and ends the batch
    ensures d.message.value.None? ==> r == Effects(q, [], [], true)
    // on every other path the message's own offset is resolved and then committed first
    ensures d.message.value.Some? ==>
      |r.calls| >= 2 && r.calls[..2] == [Resolve(d.message.offset), Commit(d.message.offset)]
    ensures forall i :: 0 <= i < |r.calls| ==> r.calls[i] == Heartbeat || r.calls[i].offset == d.message.offset
    // a heartbeat is only ever sent for a payload that parsed with a printable DEPLOYMENT_ID
    ensures Heartbeat in r.calls ==> ParsedAndPrintable(d.message, decode)
    // an unparsable payload reaches neither the sink nor the buffer
    ensures Parse(d.message, decode).None? ==> r.queue == q && r.writes == []
    // a parsed payload is written once, as a record with the fresh id and the payload's fields
    ensures Parse(d.message, decode).Some? ==>
      var p := Parse(d.message, decode).value;
      r.writes == [LogEvent(d.env.freshId, p.deploymentId, p.log, p.status)]
    // a successful write leaves the buffer alone; a failed one is offered to it
    ensures d.env.sinkOk ==> r.queue == q
    ensures ParsedAndPrintable(d.message, decode) && !d.env.sinkOk ==> r.queue == Offer(q, r.writes[0])
    // an unprintable DEPLOYMENT_ID throws in the log line after the write, whatever the write did:
    // nothing is buffered and only the parse-error handler's resolve and commit are issued
    ensures Parse(d.message, decode).Some? && !ParsedAndPrintable(d.message, decode) ==>
      && r.queue == q
      && r.calls == [Resolve(d.message.offset), Commit(d.message.offset)]
      && (r.aborted <==> !d.env.handlerCommitOk)
    // when the broker answers every call, a message with a value follows the promised protocol exactly
    ensures BrokerCallsSucceed(d.env) && d.message.value.Some? ==>
      !r.aborted && r.calls == Protocol(d.message, decode)
  {
    var o := d.message.offset;
    match Parse(d.message, decode)
    case None => ParseErrorHandler(q, d.message, d.env.handlerCommitOk)
    case Some(p) =>
      var ev := BuildEvent(d.env.freshId, p);
      if !Printable(p.deploymentId) then
        var h := ParseErrorHandler(q, d.message, d.env.handlerCommitOk);
        Effects(q, h.calls, [ev], h.aborted)
      else
        var q' := if d.env.sinkOk then q else Offer(q, ev);
        if !d.env.commitOk then
          var h := ParseErrorHandler(q', d.message, d.env.handlerCommitOk);
          Effects(q', [Resolve(o), Commit(o)] + h.calls, [ev], h.aborted)
        else if !d.env.heartbeatOk then
          var h := ParseErrorHandler(q', d.message, d.env.handlerCommitOk);
          Effects(q', [Resolve(o), Commit(o), Heartbeat] + h.calls, [ev], h.aborted)
        else
          Effects(q', [Resolve(o), Commit(o), Heartbeat], [ev], false)
  }

  /** The `for (const message of messages)` loop; an escaping error ends the batch. */
  function ProcessBatch(q: Queue, ds: seq<Delivery>, decode: Decoder): (r: Effects)
    // the batch only ever appends to the buffer, at most one event per message, within capacity
    ensures |q| <= |r.queue| <= |q| + |ds| && r.queue[..|q|] == q
    ensures Bounded(q) ==> Bounded(r.queue)
    // one sink write at most per message
    ensures |r.writes| <= |ds|
    decreases |ds|
  {
    if |ds| == 0 then Effects(q, [], [], false)
    else
      var s := ProcessMessage(q, ds[0], decode);
      if s.aborted then s
      else
        var rest := ProcessBatch(s.queue, ds[1..], decode);
        Effects(rest.queue, s.calls + rest.calls, s.writes + rest.writes, rest.aborted)
  }

  // ---------------------------------------------------------------------------
  // Reference definitions for a batch

  function Offsets(ds: seq<Delivery>): (r: seq<nat>)
    ensures |r| == |ds|
    ensures forall i :: 0 <= i < |ds| ==> r[i] == ds[i].message.offset
  {
    if |ds| == 0 then [] else [ds[0].message.offset] + Offsets(ds[1..])
  }

  function BatchProtocol(ds: seq<Delivery>, decode: Decoder): seq<Call>
    decreases |ds|
  {
    if |ds| == 0 then [] else Protocol(ds[0].message, decode) + BatchProtocol(ds[1..], decode)
  }

  /** The record built for one delivery, if its payload parses. */
  function ParsedRecord(d: Delivery, decode: Decoder): Queue {
    match Parse(d.message, decode)
    case None => []
    case Some(p) => [BuildEvent(d.env.freshId, p)]
  }

  /** The record built for one delivery, if its payload parses, its sink write fails and it can be logged. */
  function FailedRecord(d: Delivery, decode: Decoder): Queue {
    if d.env.sinkOk || !ParsedAndPrintable(d.message, decode) then [] else ParsedRecord(d, decode)
  }

  /** The records built for the messages that parse, in message order. */
  function ParsedEvents(ds: seq<Delivery>, decode: Decoder): Queue
    decreases |ds|
  {
    if |ds| == 0 then [] else ParsedRecord(ds[0], decode) + ParsedEvents(ds[1..], decode)
  }

  /** The records built for the messages that parse but whose sink write fails. */
  function FailedEvents(ds: seq<Delivery>, decode: Decoder): Queue
    decreases |ds|
  {
    if |ds| == 0 then [] else FailedRecord(ds[0], decode) + FailedEvents(ds[1..], decode)
  }

  predicate AllBrokerCallsSucceed(ds: seq<Delivery>) {
    forall i :: 0 <= i < |ds| ==> BrokerCallsSucceed(ds[i].env)
  }

  /** The offsets committed, in the order the commits are issued. */
  function Commits(calls: seq<Call>): seq<nat>
    decreases |calls|
  {
    if |calls| == 0 then []
    else (if calls[0].Commit? then [calls[0].offset] else []) + Commits(calls[1..])
  }

  /** The offsets resolved, in the order they are resolved. */
  function Resolves(calls: seq<Call>): seq<nat>
    decreases |calls|
  {
    if |calls| == 0 then []
    else (if calls[0].Resolve? then [calls[0].offset] else []) + Resolves(calls[1..])
  }

  lemma CommitsAppend(a: seq<Call>, b: seq<Call>)
    ensures Commits(a + b) == Commits(a) + Commits(b)
    ensures Resolves(a + b) == Resolves(a) + Resolves(b)
  {
    CommitsOnlyAppend(a, b);
    ResolvesOnlyAppend(a, b);
  }

  lemma {:induction false} CommitsOnlyAppend(a: seq<Call>, b: seq<Call>)
    ensures Commits(a + b) == Commits(a) + Commits(b)
    decreases |a|
  {
    if |a| == 0 {
      assert a + b == b;
    } else {
      var head: seq<nat> := if a[0].Commit? then [a[0].offset] else [];
      assert (a + b)[0] == a[0];
      assert (a + b)[1..] == a[1..] + b;
      assert Commits(a + b) == head + Commits(a[1..] + b);
      CommitsOnlyAppend(a[1..], b);
      assert Commits(a) == head + Commits(a[1..]);
    }
  }

  lemma {:induction false} ResolvesOnlyAppend(a: seq<Call>, b: seq<Call>)
    ensures Resolves(a + b) == Resolves(a) + Resolves(b)
    decreases |a|
  {
    if |a| == 0 {
      assert a + b == b;
    } else {
      var head: seq<nat> := if a[0].Resolve? then [a[0].offset] else [];
      assert (a + b)[0] == a[0];
      assert (a + b)[1..] == a[1..] + b;
      assert Resolves(a + b) == head + Resolves(a[1..] + b);
      ResolvesOnlyAppend(a[1..], b);
      assert Resolves(a) == head + Resolves(a[1..]);
    }
  }

  lemma CommitsSingle(c: Call)
    ensures Commits([c]) == (if c.Commit? then [c.offset] else [])
    ensures Resolves([c]) == (if c.Resolve? then [c.offset] else [])
  {
  }

  /** Resolve then commit of one offset contributes that offset once to each list. */
  lemma CommitsResolveCommit(o: nat)
    ensures Commits([Resolve(o), Commit(o)]) == [o]
    ensures Resolves([Resolve(o), Commit(o)]) == [o]
  {
    CommitsSingle(Resolve(o));
    CommitsSingle(Commit(o));
    CommitsAppend([Resolve(o)], [Commit(o)]);
  }

  // ---------------------------------------------------------------------------
  // Properties of a batch

  /**
    With the broker answering, a message with a value follows the protocol and
    touches the buffer only through its failed record.
  */
  lemma MessageFaultFree(q: Queue, d: Delivery, decode: Decoder)
    requires BrokerCallsSucceed(d.env)
    ensures d.message.value.Some? ==> var r := ProcessMessage(q, d, decode);
      && !r.aborted
      && r.calls == Protocol(d.message, decode)
      && r.writes == ParsedRecord(d, decode)
      && r.queue == OfferAll(q, FailedRecord(d, decode))
  {
  }

  /** How many deliveries precede the first message with a null value (all of them if there is none). */
  function FirstNull(ds: seq<Delivery>): (k: nat)
    ensures k <= |ds|
    ensures forall i :: 0 <= i < k ==> ds[i].message.value.Some?
    ensures k < |ds| ==> ds[k].message.value.None?
    decreases |ds|
  {
    if |ds| == 0 || ds[0].message.value.None? then 0 else 1 + FirstNull(ds[1..])
  }

  /**
    When the broker answers every control call, a batch runs up to its first
    null-valued message, and ends there exactly when there is one. Up to that
    point it issues exactly the promised calls, writes every parsed record once
    in message order, and the buffer gains exactly the records whose write
    failed, as far as capacity allows.
  */
  lemma BatchFaultFree(q: Queue, ds: seq<Delivery>, decode: Decoder)
    requires AllBrokerCallsSucceed(ds)
    ensures var r := ProcessBatch(q, ds, decode);
      var done := ds[..FirstNull(ds)];
      && (r.aborted <==> FirstNull(ds) < |ds|)
      && r.calls == BatchProtocol(done, decode)
      && r.writes == ParsedEvents(done, decode)
      && r.queue == Fill(q, FailedEvents(done, decode))
  {
    BatchFaultFreeRun(q, ds, decode);
    OfferAllIsFill(q, FailedEvents(ds[..FirstNull(ds)], decode));
  }

  lemma {:induction false} BatchFaultFreeRun(q: Queue, ds: seq<Delivery>, decode: Decoder)
    requires AllBrokerCallsSucceed(ds)
    ensures var r := ProcessBatch(q, ds, decode);
      var done := ds[..FirstNull(ds)];
      && (r.aborted <==> FirstNull(ds) < |ds|)
      && r.calls == BatchProtocol(done, decode)
      && r.writes == ParsedEvents(done, decode)
      && r.queue == OfferAll(q, FailedEvents(done, decode))
    decreases |ds|
  {
    if |ds| != 0 && ds[0].message.value.Some? {
      var s := ProcessMessage(q, ds[0], decode);
      var k := FirstNull(ds);
      var done := ds[..k];
      MessageFaultFree(q, ds[0], decode);
      BatchFaultFreeRun(s.queue, ds[1..], decode);
      assert done[0] == ds[0];
      assert done[1..] == ds[1..][..FirstNull(ds[1..])];
      OfferAllAppend(q, FailedRecord(ds[0], decode), FailedEvents(done[1..], decode));
    }
  }

  lemma {:induction false} OfferAllAppend(q: Queue, xs: Queue, ys: Queue)
    ensures OfferAll(q, xs + ys) == OfferAll(OfferAll(q, xs), ys)
    decreases |xs|
  {
    if |xs| == 0 {
      assert xs + ys == ys;
    } else {
      OfferAllAppend(Offer(q, xs[0]), xs[1..], ys);
      assert (xs + ys)[0] == xs[0];
      assert (xs + ys)[1..] == xs[1..] + ys;
    }
  }

  lemma {:induction false} ProtocolCommitsEachOnce(ds: seq<Delivery>, decode: Decoder)
    ensures Commits(BatchProtocol(ds, decode)) == Offsets(ds)
    ensures Resolves(BatchProtocol(ds, decode)) == Offsets(ds)
    decreases |ds|
  {
    if |ds| != 0 {
      var m := ds[0].message;
      var tail: seq<Call> := if ParsedAndPrintable(m, decode) then [Heartbeat] else [];
      ProtocolCommitsEachOnce(ds[1..], decode);
      CommitsAppend(Protocol(m, decode), BatchProtocol(ds[1..], decode));
      CommitsAppend([Resolve(m.offset), Commit(m.offset)], tail);
      CommitsResolveCommit(m.offset);
      if |tail| != 0 {
        CommitsSingle(Heartbeat);
      }
      assert Offsets(ds) == [m.offset] + Offsets(ds[1..]);
    }
  }

  /**
    Exactly-once, in-order commit: when the broker answers every control call,
    the offsets resolved and the offsets committed are each precisely the
    offsets before the first null-valued message, in message order, one entry
    per message, on all three paths (parse failure, sink failure, sink success);
    with no null value, that is the whole batch.
  */
  lemma CommitsInMessageOrder(q: Queue, ds: seq<Delivery>, decode: Decoder)
    requires AllBrokerCallsSucceed(ds)
    ensures Commits(ProcessBatch(q, ds, decode).calls) == Offsets(ds[..FirstNull(ds)])
    ensures Resolves(ProcessBatch(q, ds, decode).calls) == Offsets(ds[..FirstNull(ds)])
    ensures (forall i :: 0 <= i < |ds| ==> ds[i].message.value.Some?) ==>
      Commits(ProcessBatch(q, ds, decode).calls) == Offsets(ds)
  {
    BatchFaultFree(q, ds, decode);
    ProtocolCommitsEachOnce(ds[..FirstNull(ds)], decode);
    assert ds[..|ds|] == ds;
  }

  /**
    As written, a null-valued message is never resolved or committed: the
    parse-error handler's log line throws again, the batch ends there, and the
    buffer is untouched, whatever follows.
  */
  lemma NullValueEndsBatch(q: Queue, d: Delivery, rest: seq<Delivery>, decode: Decoder)
    requires d.message.value.None?
    ensures ProcessBatch(q, [d] + rest, decode) == Effects(q, [], [], true)
  {
    assert ([d] + rest)[0] == d;
  }

  /**
    As written, a heartbeat that throws after a successful parse lands in the
    parse-error handler, so the same offset is resolved and committed twice.
  */
  lemma HeartbeatFailureCommitsTwice(q: Queue, d: Delivery, decode: Decoder)
    requires ParsedAndPrintable(d.message, decode)
    requires d.env.commitOk && !d.env.heartbeatOk
    ensures Commits(ProcessMessage(q, d, decode).calls) == [d.message.offset, d.message.offset]
    ensures Resolves(ProcessMessage(q, d, decode).calls) == [d.message.offset, d.message.offset]
  {
    var o := d.message.offset;
    var first: seq<Call> := [Resolve(o), Commit(o), Heartbeat];
    assert ProcessMessage(q, d, decode).calls == first + [Resolve(o), Commit(o)];
    CommitsResolveCommit(o);
    CommitsSingle(Heartbeat);
    CommitsAppend([Resolve(o), Commit(o)], [Heartbeat]);
    CommitsAppend(first, [Resolve(o), Commit(o)]);
  }

  /**
    As written, a parsed payload whose `DEPLOYMENT_ID` cannot be turned into a
    string is written to the sink but never buffered, even when the write fails,
    and gets no heartbeat; its offset is still resolved and committed once, by
    the parse-error handler.
  */
  lemma UnprintableDeploymentIdIsNeverBuffered(q: Queue, d: Delivery, decode: Decoder)
    requires Parse(d.message, decode).Some? && Parse(d.message, decode).value.deploymentId.Unprintable?
    requires d.env.handlerCommitOk
    ensures var r := ProcessMessage(q, d, decode);
      && r.queue == q
      && r.writes == ParsedRecord(d, decode)
      && Heartbeat !in r.calls
      && Commits(r.calls) == [d.message.offset]
      && Resolves(r.calls) == [d.message.offset]
      && !r.aborted
  {
    CommitsResolveCommit(d.message.offset);
  }

  /**
    Only a record whose `DEPLOYMENT_ID` was printed in the sink-failure log is
    pushed, so a batch keeps every buffered event printable.
  */
  lemma {:induction false} ProcessBatchKeepsPrintable(q: Queue, ds: seq<Delivery>, decode: Decoder)
    requires AllPrintable(q)
    ensures AllPrintable(ProcessBatch(q, ds, decode).queue)
    decreases |ds|
  {
    if |ds| != 0 {
      var s := ProcessMessage(q, ds[0], decode);
      if s.queue != q {
        assert s.queue == Offer(q, s.writes[0]);
        assert Printable(s.writes[0].deploymentId);
        assert AllPrintable(s.queue) by {
          forall i | 0 <= i < |s.queue|
            ensures Printable(s.queue[i].deploymentId)
          {
            if i < |q| {
              assert s.queue[i] == s.queue[..|q|][i] == q[i];
            }
          }
        }
      }
      if !s.aborted {
        ProcessBatchKeepsPrintable(s.queue, ds[1..], decode);
      }
    }
  }

  /** The ids `uuidv4()` hands out are distinct from each other and from every buffered id. */
  predicate FreshIds(q: Queue, ds: seq<Delivery>) {
    && (forall i, j :: 0 <= i < j < |ds| ==> ds[i].env.freshId != ds[j].env.freshId)
    && (forall i, k :: 0 <= i < |ds| && 0 <= k < |q| ==> ds[i].env.freshId != q[k].eventId)
  }

  /** Given fresh ids, no event id is ever buffered twice, whatever the sink and broker do. */
  lemma {:induction false} BatchKeepsIdsDistinct(q: Queue, ds: seq<Delivery>, decode: Decoder)
    requires DistinctIds(q)
    requires FreshIds(q, ds)
    ensures DistinctIds(ProcessBatch(q, ds, decode).queue)
    decreases |ds|
  {
    if |ds| != 0 {
      var s := ProcessMessage(q, ds[0], decode);
      if !s.aborted {
        var id := ds[0].env.freshId;
        assert s.queue == q || (|s.queue| == |q| + 1 && s.queue[..|q|] == q && s.queue[|q|].eventId == id);
        if s.queue != q {
          assert s.queue == q + [s.queue[|q|]];
          DistinctIdsAppend(q, [s.queue[|q|]]);
        }
        forall i, k | 0 <= i < |ds[1..]| && 0 <= k < |s.queue|
          ensures ds[1..][i].env.freshId != s.queue[k].eventId
        {
          assert ds[1..][i] == ds[i + 1];
          if k >= |q| {
          } else {
            assert s.queue[k] == q[k];
          }
        }
        assert FreshIds(s.queue, ds[1..]) by {
          forall i, j | 0 <= i < j < |ds[1..]|
            ensures ds[1..][i].env.freshId != ds[1..][j].env.freshId
          {
            assert ds[1..][i] == ds[i + 1] && ds[1..][j] == ds[j + 1];
          }
        }
        BatchKeepsIdsDistinct(s.queue, ds[1..], decode);
      }
    }
  }
}
