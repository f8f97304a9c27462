/**
  The bounded in-memory retry buffer of the log-ingestion service
  (`failedMessages` with `MAX_FAILED_MESSAGES` in api-server/services/kafka.service.js).

  The buffer is modelled as an immutable sequence; the only two mutations the
  source ever performs on it are a capacity-guarded `push` at the tail (`Offer`)
  and a `splice(0, n)` at the head (`Splice`).
*/
module RetryBuffer {
  import opened Common

  /** `MAX_FAILED_MESSAGES`: the buffer never grows beyond this many events. */
  const MaxFailedMessages: nat := 1000

  /**
    A property destructured from the parsed payload. The source copies whatever
    the key holds without checking it, so it may be missing (`undefined`);
    a present value is kept as its JSON text. `Unprintable` is a present value
    whose conversion to a string throws a TypeError, such as an object whose
    own `toString` is not a function.
  */
  datatype Field = Undefined | Defined(json: string) | Unprintable(json: string)

  /** Interpolating the field into a template literal does not throw. */
  predicate Printable(f: Field) {
    !f.Unprintable?
  }

  /** The `logData` record handed to the sink and kept in the buffer on failure. */
  datatype LogEvent = LogEvent(eventId: string, deploymentId: Field, log: Field, status: Field)

  type Queue = seq<LogEvent>

  predicate Bounded(q: Queue) {
    |q| <= MaxFailedMessages
  }

  /** Every buffered event's `deployment_id` can be interpolated into a log line without throwing. */
  predicate AllPrintable(q: Queue) {
    forall i :: 0 <= i < |q| ==> Printable(q[i].deploymentId)
  }

  /** No two buffered events share an `event_id`. */
  predicate DistinctIds(q: Queue) {
    forall i, j :: 0 <= i < j < |q| ==> q[i].eventId != q[j].eventId
  }

  /**
    The guarded push `if (failedMessages.length < MAX_FAILED_MESSAGES) failedMessages.push(e)`:
    a push at capacity is a silent no-op.
  */
  function Offer(q: Queue, e: LogEvent): (r: Queue)
    // the events already buffered stay where they are
    ensures |q| <= |r| <= |q| + 1 && r[..|q|] == q
    // the event is accepted exactly when there is room, and then goes to the tail
    ensures |r| == |q| + 1 <==> |q| < MaxFailedMessages
    ensures |r| == |q| + 1 ==> r[|q|] == e
    ensures Bounded(q) ==> Bounded(r)
  {
    if |q| < MaxFailedMessages then q + [e] else q
  }

  /**
    Reference definition of a run of guarded pushes: `q` followed by as many
    leading events of `xs` as fit below capacity; the rest are dropped.
  */
  function Fill(q: Queue, xs: Queue): (r: Queue)
    ensures |r| >= |q| && r[..|q|] == q
    ensures Bounded(q) ==> Bounded(r)
    ensures |q| + |xs| <= MaxFailedMessages ==> r == q + xs
  {
    if |q| >= MaxFailedMessages then q
    else q + xs[..Min(|xs|, MaxFailedMessages - |q|)]
  }

  /** One guarded push followed by a run of them is the run over the longer list. */
  lemma FillOffer(q: Queue, x: LogEvent, xs: Queue)
    ensures Fill(Offer(q, x), xs) == Fill(q, [x] + xs)
  {
  }

  /** A run of guarded pushes, one event after the other. */
  function OfferAll(q: Queue, xs: Queue): Queue
    decreases |xs|
  {
    if |xs| == 0 then q else OfferAll(Offer(q, xs[0]), xs[1..])
  }

  lemma {:induction false} OfferAllIsFill(q: Queue, xs: Queue)
    ensures OfferAll(q, xs) == Fill(q, xs)
    decreases |xs|
  {
    if |xs| != 0 {
      OfferAllIsFill(Offer(q, xs[0]), xs[1..]);
      FillOffer(q, xs[0], xs[1..]);
      assert [xs[0]] + xs[1..] == xs;
    }
  }

  /**
    The two mutations the producer (batch loop) and the consumer (drain) perform
    on the shared buffer. Node interleaves the two only at `await` points, so any
    concurrent history is some sequence of these atomic operations.
  */
  datatype QueueOp = Push(event: LogEvent) | Splice(count: nat)

  function Apply(q: Queue, op: QueueOp): Queue {
    match op
    case Push(e) => Offer(q, e)
    case Splice(n) => q[Min(n, |q|)..]
  }

  function ApplyAll(q: Queue, ops: seq<QueueOp>): Queue
    decreases |ops|
  {
    if |ops| == 0 then q else ApplyAll(Apply(q, ops[0]), ops[1..])
  }

  /** The capacity bound survives every interleaving of pushes and head splices. */
  lemma {:induction false} InterleavingKeepsBound(q: Queue, ops: seq<QueueOp>)
    requires Bounded(q)
    ensures Bounded(ApplyAll(q, ops))
    decreases |ops|
  {
    if |ops| != 0 {
      InterleavingKeepsBound(Apply(q, ops[0]), ops[1..]);
    }
  }

  /** `xs` turned into pushes, in order. */
  function Pushes(xs: Queue): (ops: seq<QueueOp>)
    ensures |ops| == |xs|
    ensures forall i :: 0 <= i < |xs| ==> ops[i] == Push(xs[i])
  {
    if |xs| == 0 then [] else [Push(xs[0])] + Pushes(xs[1..])
  }

  lemma {:induction false} PushesAreOfferAll(q: Queue, xs: Queue)
    ensures ApplyAll(q, Pushes(xs)) == OfferAll(q, xs)
    decreases |xs|
  {
    if |xs| != 0 {
      PushesAreOfferAll(Offer(q, xs[0]), xs[1..]);
      assert Pushes(xs)[1..] == Pushes(xs[1..]);
    }
  }

  /** Two id-distinct sequences with no id in common concatenate to an id-distinct one. */
  lemma DistinctIdsAppend(a: Queue, b: Queue)
    requires DistinctIds(a) && DistinctIds(b)
    requires forall i, j :: 0 <= i < |a| && 0 <= j < |b| ==> a[i].eventId != b[j].eventId
    ensures DistinctIds(a + b)
  {
  }

  /** A slice of an id-distinct sequence is id-distinct. */
  lemma DistinctIdsSlice(q: Queue, a: nat, b: nat)
    requires a <= b <= |q|
    requires DistinctIds(q)
    ensures DistinctIds(q[a..b])
  {
  }
}
