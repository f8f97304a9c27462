/**
  The reconnect-on-failure branch of `initKafkaConsumer`
  (api-server/services/kafka.service.js): if connect, subscribe or run throws,
  the error is logged and, from that moment, one new call of the whole startup
  is scheduled after a fixed delay. Time is an explicit millisecond clock; how
  an attempt ends, and how long a failing one takes before it throws, is an
  oracle.
*/
module ReconnectSupervisor {

  /** The `setTimeout` delay before the next full startup attempt. */
  const ReconnectDelayMs: nat := 30000

  /**
    `Running`: connect, subscribe and run all resolved and the batch loop is active.
    `Reconnecting(at)`: one retry of the whole startup is pending, due at time `at`.
  */
  datatype State = Running | Reconnecting(retryAtMs: nat)

  /** How one startup attempt ends: all three calls resolve, or one throws `durationMs` after the attempt began. */
  datatype AttemptResult = Started | Failed(durationMs: nat)

  /** One call of `initKafkaConsumer` at `nowMs`. */
  function Attempt(nowMs: nat, result: AttemptResult): (s: State)
    ensures s == Running <==> result.Started?
    // a failure is never terminal: it leaves exactly one retry pending, a fixed delay after the failure
    ensures result.Failed? ==> s == Reconnecting(nowMs + result.durationMs + ReconnectDelayMs)
    ensures s.Reconnecting? ==> s.retryAtMs >= nowMs + ReconnectDelayMs
  {
    match result
    case Started => Running
    case Failed(d) => Reconnecting(nowMs + d + ReconnectDelayMs)
  }

  /** The pending timer firing; once running there is no timer and nothing changes. */
  function OnTimer(s: State, result: AttemptResult): (t: State)
    // once running it stays running; a pending retry gets there exactly when it succeeds
    ensures t == Running <==> s == Running || result.Started?
    // a failed retry schedules the next one a fixed delay after it fails, so never sooner than that delay
    ensures t.Reconnecting? ==>
      && s.Reconnecting? && result.Failed?
      && t.retryAtMs == s.retryAtMs + result.durationMs + ReconnectDelayMs
      && t.retryAtMs >= s.retryAtMs + ReconnectDelayMs
  {
    match s
    case Running => Running
    case Reconnecting(at) => Attempt(at, result)
  }

  /** The times at which startup was attempted, and where the supervisor ended. */
  datatype History = History(attemptsMs: seq<nat>, final: State)

  /** Each attempt after the first starts exactly one fixed delay after the previous attempt failed. */
  predicate RetriesAfterFailures(attemptsMs: seq<nat>, results: seq<AttemptResult>) {
    && |attemptsMs| <= |results|
    && forall i :: 0 <= i < |attemptsMs| - 1 ==>
         && results[i].Failed?
         && attemptsMs[i + 1] == attemptsMs[i] + results[i].durationMs + ReconnectDelayMs
  }

  predicate SomeAttemptStarts(results: seq<AttemptResult>) {
    exists i :: 0 <= i < |results| && results[i].Started?
  }

  /**
    The supervisor from a first call at `startMs`, where `results[i]` is how the
    i-th attempt ends; attempts stop at the first success. With the results used
    up and no success, the next attempt is pending.
  */
  function Supervise(startMs: nat, results: seq<AttemptResult>): (h: History)
    ensures |h.attemptsMs| > 0 ==> h.attemptsMs[0] == startMs
    // each retry comes a fixed delay after the previous attempt failed: no backoff, never sooner
    ensures RetriesAfterFailures(h.attemptsMs, results)
    ensures forall i :: 0 <= i < |h.attemptsMs| - 1 ==> h.attemptsMs[i + 1] >= h.attemptsMs[i] + ReconnectDelayMs
    // it reaches Running exactly when some attempt succeeds, and then right after the first success
    ensures h.final == Running <==> SomeAttemptStarts(results)
    ensures h.final == Running ==> |h.attemptsMs| >= 1 && results[|h.attemptsMs| - 1].Started?
    // without a success it never gives up: every result was an attempt, and one more is pending
    ensures h.final.Reconnecting? ==> |h.attemptsMs| == |results|
    ensures h.final.Reconnecting? && |results| == 0 ==> h.final.retryAtMs == startMs
    ensures h.final.Reconnecting? && |results| > 0 ==>
      var last := |results| - 1;
      h.final.retryAtMs == h.attemptsMs[last] + results[last].durationMs + ReconnectDelayMs
    decreases |results|
  {
    if |results| == 0 then History([], Reconnecting(startMs))
    else
      match Attempt(startMs, results[0])
      case Running =>
        SomeAttemptStartsCons(results);
        History([startMs], Running)
      case Reconnecting(at) =>
        var h := Supervise(at, results[1..]);
        SomeAttemptStartsCons(results);
        RetriesAfterFailuresCons(startMs, h.attemptsMs, results);
        History([startMs] + h.attemptsMs, h.final)
  }

  lemma SomeAttemptStartsCons(results: seq<AttemptResult>)
    requires |results| > 0
    ensures SomeAttemptStarts(results) <==> results[0].Started? || SomeAttemptStarts(results[1..])
  {
    if SomeAttemptStarts(results) && !results[0].Started? {
      var i :| 0 <= i < |results| && results[i].Started?;
      assert results[1..][i - 1] == results[i];
    }
    if SomeAttemptStarts(results[1..]) {
      var i :| 0 <= i < |results[1..]| && results[1..][i].Started?;
      assert results[i + 1] == results[1..][i];
    }
  }

  /** Putting a failed first attempt in front of a well-spaced history keeps it well spaced. */
  lemma RetriesAfterFailuresCons(startMs: nat, attemptsMs: seq<nat>, results: seq<AttemptResult>)
    requires |results| > 0 && results[0].Failed?
    requires RetriesAfterFailures(attemptsMs, results[1..])
    requires |attemptsMs| > 0 ==> attemptsMs[0] == startMs + results[0].durationMs + ReconnectDelayMs
    ensures RetriesAfterFailures([startMs] + attemptsMs, results)
  {
    var a := [startMs] + attemptsMs;
    forall i | 0 <= i < |a| - 1
      ensures results[i].Failed? && a[i + 1] == a[i] + results[i].durationMs + ReconnectDelayMs
    {
      if i > 0 {
        assert a[i] == attemptsMs[i - 1] && a[i + 1] == attemptsMs[i];
        assert results[i] == results[1..][i - 1];
      }
    }
  }

  /** A first connect that fails after `d` ms, then a good one: running, with the retry 30 seconds after the failure. */
  lemma ConnectFailsThenRecovers(startMs: nat, d: nat)
    ensures Supervise(startMs, [Failed(d), Started]) == History([startMs, startMs + d + 30000], Running)
  {
    assert [Failed(d), Started][1..] == [Started];
  }
}
