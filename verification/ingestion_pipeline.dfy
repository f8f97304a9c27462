/**
  The two producers of change to the retry buffer in api-server/services/kafka.service.js,
  put on one timeline: a batch delivered to `eachBatch`, or a tick of the drain
  timer. Each is taken as one atomic step.
*/
module IngestionPipeline {
  import opened Common
  import opened RetryBuffer
  import opened DrainScheduler
  import opened BatchConsumer

  /** A batch of deliveries, or a drain tick with the sink's verdict on the i-th retried event. */
  datatype Event = BatchArrives(deliveries: seq<Delivery>) | DrainTick(sinkOk: nat -> bool)

  function DrainOutcomes(q: Queue, sinkOk: nat -> bool): (outcomes: seq<bool>)
    ensures |outcomes| == TakeCount(|q|)
  {
    seq(TakeCount(|q|), (i: int) requires 0 <= i => sinkOk(i))
  }

  function Step(q: Queue, e: Event, decode: Decoder): Queue {
    match e
    case BatchArrives(ds) => ProcessBatch(q, ds, decode).queue
    case DrainTick(ok) => Drain(q, DrainOutcomes(q, ok)).queue
  }

  function Run(q: Queue, events: seq<Event>, decode: Decoder): Queue
    decreases |events|
  {
    if |events| == 0 then q else Run(Step(q, events[0], decode), events[1..], decode)
  }

  /** Starting within capacity, the buffer stays within capacity over any history of batches and drains. */
  lemma {:induction false} RunKeepsBound(q: Queue, events: seq<Event>, decode: Decoder)
    requires Bounded(q)
    ensures Bounded(Run(q, events, decode))
    decreases |events|
  {
    if |events| != 0 {
      RunKeepsBound(Step(q, events[0], decode), events[1..], decode);
    }
  }

  /**
    Starting from a printable buffer, such as the empty one at startup, every
    buffered event stays printable over any history, so the log line after a
    successful drain retry never throws.
  */
  lemma {:induction false} RunKeepsPrintable(q: Queue, events: seq<Event>, decode: Decoder)
    requires AllPrintable(q)
    ensures AllPrintable(Run(q, events, decode))
    decreases |events|
  {
    if |events| != 0 {
      match events[0] {
        case BatchArrives(ds) => ProcessBatchKeepsPrintable(q, ds, decode);
        case DrainTick(ok) => DrainKeepsPrintable(q, DrainOutcomes(q, ok));
      }
      RunKeepsPrintable(Step(q, events[0], decode), events[1..], decode);
    }
  }

  /** A full buffer stays full and unchanged through any batch: every failed write is dropped. */
  lemma FullBufferDropsNewFailures(q: Queue, ds: seq<Delivery>, decode: Decoder)
    requires |q| == MaxFailedMessages
    ensures ProcessBatch(q, ds, decode).queue == q
  {
  }

  /**
    The outage scenario: a well-formed message whose write fails is buffered while
    its offset is still committed; the next drain, with the sink back, writes it
    and empties the buffer again.
  */
  lemma SinkOutageThenRecovery(id: string, offset: nat, payload: Bytes)
    ensures var p := Payload(Defined("\"d1\""), Defined("\"build ok\""), Defined("\"SUCCESS\""));
      var decode: Decoder := (b: Bytes) => Some(p);
      var d := Delivery(Message(offset, Some(payload)), Env(id, false, true, true, true));
      var r := ProcessBatch([], [d], decode);
      && r.queue == [LogEvent(id, p.deploymentId, p.log, p.status)]
      && Commits(r.calls) == [offset]
      && Drain(r.queue, [true]).queue == []
      && Drain(r.queue, [true]).attempted == r.queue
  {
    var p := Payload(Defined("\"d1\""), Defined("\"build ok\""), Defined("\"SUCCESS\""));
    var decode: Decoder := (b: Bytes) => Some(p);
    var d := Delivery(Message(offset, Some(payload)), Env(id, false, true, true, true));
    assert AllBrokerCallsSucceed([d]);
    CommitsInMessageOrder([], [d], decode);
    var r := ProcessBatch([], [d], decode);
    assert r.queue == ProcessMessage([], d, decode).queue;
    DrainAllSucceed(r.queue, [true]);
  }

  /**
    Nothing checks the destructured properties: a payload without `DEPLOYMENT_ID`
    still produces a record, and on a failed write that record is buffered.
  */
  lemma MissingDeploymentIdIsBuffered(q: Queue, d: Delivery, decode: Decoder)
    requires |q| < MaxFailedMessages
    requires Parse(d.message, decode).Some? && Parse(d.message, decode).value.deploymentId == Undefined
    requires !d.env.sinkOk
    ensures var r := ProcessMessage(q, d, decode);
      |r.queue| == |q| + 1 && r.queue[|q|].deploymentId == Undefined
  {
  }
}
