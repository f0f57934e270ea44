/**
 The store-and-forward half of the rescue network on a field node
 (rescue-network: retry.py, rescue_repository.py, delivery_service.py,
 forwarder.py).  Times are in seconds; a request's content is what the payload
 carries besides its identifier.
 */
module RescueForwarder {
  import opened Wrappers

  // --- Retry policy -----------------------------------------------------------------

  const INITIAL_BACKOFF := 5.0
  const MAX_BACKOFF := 300.0
  const JITTER_RATIO := 0.2

  function Exponential(retryCount: int): real {
    MinReal(MAX_BACKOFF, INITIAL_BACKOFF * Pow2(if retryCount < 1 then 0 else retryCount - 1) as real)
  }

  /** `compute_backoff_seconds`, in exact arithmetic. */
  function ComputeBackoff(retryCount: int, rng: real): real {
    Exponential(retryCount) + Exponential(retryCount) * JITTER_RATIO * rng
  }

  datatype Decision = Accept | TryAgain | Refuse

  /** `classify_response`. */
  function ClassifyResponse(status: int): Decision {
    if 200 <= status < 300 then Accept
    else if status >= 500 || status in {401, 403, 408, 425, 429} then TryAgain
    else Refuse
  }

  // --- Rows ---------------------------------------------------------------------------

  datatype Status = Pending | Sending | Delivered | Failed

  datatype Row = Row(
    content: string, createdAt: real, status: Status, retryCount: nat,
    nextRetryAt: Option<real>, lastAttemptAt: Option<real>, deliveredAt: Option<real>)

  type Rows = map<string, Row>

  datatype Settings = Settings(batchSize: nat, staleSendingSeconds: real)

  predicate Due(r: Row, now: real) {
    r.status.Pending? && (r.nextRetryAt.None? || r.nextRetryAt.value <= now)
  }

  predicate Stale(r: Row, cutoff: real) {
    r.status.Sending? && r.lastAttemptAt.Some? && r.lastAttemptAt.value < cutoff
  }

  /** `recover_stale_sending`. */
  function Recovered(rows: Rows, cutoff: real): Rows {
    map id | id in rows :: if Stale(rows[id], cutoff) then rows[id].(status := Pending) else rows[id]
  }

  /** The due rows a claim may select: the oldest, up to the limit; equal ages in any order. */
  ghost predicate IsClaim(rows: Rows, now: real, limit: nat, ids: seq<string>) {
    && |ids| <= limit
    && (forall i | 0 <= i < |ids| :: ids[i] in rows && Due(rows[ids[i]], now))
    && (forall i, j | 0 <= i < j < |ids| :: ids[i] != ids[j] && rows[ids[i]].createdAt <= rows[ids[j]].createdAt)
    && (forall id | id in rows && Due(rows[id], now) && id !in ids ::
          |ids| == limit && forall i | 0 <= i < |ids| :: rows[ids[i]].createdAt <= rows[id].createdAt)
  }

  function Claimed(rows: Rows, ids: seq<string>, now: real): Rows {
    map id | id in rows ::
      if id in ids then rows[id].(status := Sending, lastAttemptAt := Some(now)) else rows[id]
  }

  // --- Delivery -------------------------------------------------------------------------

  /** What a POST came to; `ack` says whether the body was a well-formed acceptance. */
  datatype Response = NetworkError | Http(status: int, ack: bool)

  datatype Outcome = DeliveredIt | RetriedIt | FailedIt

  function Scheduled(r: Row, now: real, rng: real): Row {
    r.(status := Pending, retryCount := r.retryCount + 1, lastAttemptAt := Some(now),
       nextRetryAt := Some(now + ComputeBackoff(r.retryCount + 1, rng)))
  }

  /** `attempt_delivery`. */
  function Attempted(r: Row, response: Response, now: real, rng: real): (Row, Outcome) {
    match response
    case NetworkError => (Scheduled(r, now, rng), RetriedIt)
    case Http(status, ack) =>
      match ClassifyResponse(status)
      case Accept =>
        if ack then (r.(status := Delivered, deliveredAt := Some(now), lastAttemptAt := Some(now)), DeliveredIt)
        else (Scheduled(r, now, rng), RetriedIt)
      case TryAgain => (Scheduled(r, now, rng), RetriedIt)
      case Refuse => (r.(status := Failed, lastAttemptAt := Some(now)), FailedIt)
  }

  datatype Attempt = Attempt(response: Response, now: real, rng: real)

  /** The rows after the first `n` claimed requests have been attempted and committed. */
  function AfterAttempts(rows: Rows, ids: seq<string>, attempts: seq<Attempt>, n: nat): Rows
    requires n <= |ids| && |attempts| == |ids|
  {
    if n == 0 then rows
    else
      var before := AfterAttempts(rows, ids, attempts, n - 1);
      var id, a := ids[n - 1], attempts[n - 1];
      if id in before then before[id := Attempted(before[id], a.response, a.now, a.rng).0] else before
  }

  function StaleIds(rows: Rows, cutoff: real): set<string> {
    set id | id in rows && Stale(rows[id], cutoff)
  }

  function DueIds(rows: Rows, now: real): set<string> {
    set id | id in rows && Due(rows[id], now)
  }

  /** What the world answers during one pass: the clock, and each attempt. */
  datatype Surroundings = Surroundings(recoverNow: real, claimNow: real, attempt: nat -> Attempt)

  function AttemptsOf(w: Surroundings, n: nat): (r: seq<Attempt>)
    ensures |r| == n
  {
    seq(n, i requires 0 <= i < n => w.attempt(i))
  }

  /** How many of the first `n` requests stand at `status`. */
  function StandingAt(rows: Rows, ids: seq<string>, n: nat, status: Status): nat
    requires n <= |ids|
  {
    if n == 0 then 0
    else StandingAt(rows, ids, n - 1, status) + if ids[n - 1] in rows && rows[ids[n - 1]].status == status then 1 else 0
  }

  datatype Tally = Tally(recovered: nat, delivered: nat, retried: nat, failed: nat)

  /** How many of the first `n` requests stand delivered, pending again and failed; together they are all. */
  predicate Counted(rows: Rows, ids: seq<string>, n: nat, delivered: nat, retried: nat, failed: nat)
    requires n <= |ids|
  {
    && delivered == StandingAt(rows, ids, n, Delivered)
    && retried == StandingAt(rows, ids, n, Pending)
    && failed == StandingAt(rows, ids, n, Failed)
    && delivered + retried + failed == n
  }

  lemma NoneCounted(rows: Rows, ids: seq<string>)
    ensures Counted(rows, ids, 0, 0, 0, 0)
  {
  }

  lemma {:induction false} OthersStand(before: Rows, after: Rows, ids: seq<string>, n: nat, id: string, row: Row, s: Status)
    requires n <= |ids| && id !in ids[..n] && id in before && after == before[id := row]
    ensures StandingAt(after, ids, n, s) == StandingAt(before, ids, n, s)
  {
    if n > 0 {
      assert ids[..n] == ids[..n - 1] + [ids[n - 1]];
      OthersStand(before, after, ids, n - 1, id, row, s);
    }
  }

  lemma OneMoreCounted(before: Rows, after: Rows, ids: seq<string>, n: nat, a: Attempt, delivered: nat, retried: nat, failed: nat)
    requires n < |ids| && ids[n] in before && (forall i, j | 0 <= i < j < |ids| :: ids[i] != ids[j])
    requires after == before[ids[n] := Attempted(before[ids[n]], a.response, a.now, a.rng).0]
    requires Counted(before, ids, n, delivered, retried, failed)
    ensures match Attempted(before[ids[n]], a.response, a.now, a.rng).1
      case DeliveredIt => Counted(after, ids, n + 1, delivered + 1, retried, failed)
      case RetriedIt => Counted(after, ids, n + 1, delivered, retried + 1, failed)
      case FailedIt => Counted(after, ids, n + 1, delivered, retried, failed + 1)
  {
    hide ComputeBackoff;
    assert ids[n] !in ids[..n];
    OthersStand(before, after, ids, n, ids[n], after[ids[n]], Delivered);
    OthersStand(before, after, ids, n, ids[n], after[ids[n]], Pending);
    OthersStand(before, after, ids, n, ids[n], after[ids[n]], Failed);
  }

  // --- The field node's database ----------------------------------------------------------

  class FieldStore {
    var rows: Rows

    constructor ()
      ensures rows == map[]
    {
      rows := map[];
    }

    method RecoverStaleSending(cutoff: real) returns (count: nat)
      modifies this
      ensures rows == Recovered(old(rows), cutoff) && count == |StaleIds(old(rows), cutoff)|
    {
      var stale := StaleIds(rows, cutoff);
      ghost var all := stale;
      count := 0;
      while stale != {}
        invariant stale <= all && count == |all| - |stale| && rows.Keys == old(rows).Keys
        invariant forall id | id in rows ::
          rows[id] == if id in all && id !in stale then old(rows)[id].(status := Pending) else old(rows)[id]
        decreases |stale|
      {
        var id :| id in stale;
        rows := rows[id := rows[id].(status := Pending)];
        stale := stale - {id};
        count := count + 1;
      }
    }

    /** An oldest of the given rows. */
    method Oldest(ids: set<string>) returns (oldest: string)
      requires ids != {} && ids <= rows.Keys
      ensures oldest in ids && forall id | id in ids :: rows[oldest].createdAt <= rows[id].createdAt
    {
      oldest :| oldest in ids;
      var rest := ids - {oldest};
      while rest != {}
        invariant rest <= ids && oldest in ids
        invariant forall id | id in ids && id !in rest :: rows[oldest].createdAt <= rows[id].createdAt
        decreases |rest|
      {
        var id :| id in rest;
        if rows[id].createdAt < rows[oldest].createdAt {
          oldest := id;
        }
        rest := rest - {id};
      }
    }

    method SelectDue(now: real, limit: nat) returns (ids: seq<string>)
      ensures IsClaim(rows, now, limit, ids)
    {
      var due := DueIds(rows, now);
      ids := [];
      while |ids| < limit && due != {}
        invariant due <= DueIds(rows, now) && |ids| <= limit
        invariant forall id | id in DueIds(rows, now) :: id in due <==> id !in ids
        invariant forall i | 0 <= i < |ids| :: ids[i] in DueIds(rows, now)
        invariant forall i, j | 0 <= i < j < |ids| :: ids[i] != ids[j] && rows[ids[i]].createdAt <= rows[ids[j]].createdAt
        invariant forall i, id | 0 <= i < |ids| && id in due :: rows[ids[i]].createdAt <= rows[id].createdAt
      {
        var id := Oldest(due);
        assert id !in ids;
        ids := ids + [id];
        due := due - {id};
      }
    }

    /** `claim_due`: the selected rows are marked before any network call. */
    method ClaimDue(now: real, limit: nat) returns (ids: seq<string>)
      modifies this
      ensures IsClaim(old(rows), now, limit, ids) && rows == Claimed(old(rows), ids, now)
    {
      ids := SelectDue(now, limit);
      for i := 0 to |ids|
        invariant rows == Claimed(old(rows), ids[..i], now)
      {
        assert ids[..i + 1] == ids[..i] + [ids[i]];
        assert ids[i] !in ids[..i];
        rows := rows[ids[i] := rows[ids[i]].(status := Sending, lastAttemptAt := Some(now))];
      }
      assert ids[..|ids|] == ids;
    }

    /** One attempt, committed. */
    method AttemptDelivery(id: string, a: Attempt) returns (outcome: Outcome)
      requires id in rows
      modifies this
      ensures rows == old(rows)[id := Attempted(old(rows)[id], a.response, a.now, a.rng).0]
      ensures outcome == Attempted(old(rows)[id], a.response, a.now, a.rng).1
    {
      var row := rows[id];
      match a.response {
        case NetworkError =>
          outcome := ScheduleRetry(id, a);
        case Http(status, ack) =>
          var decision := ClassifyResponse(status);
          if decision.Accept? && ack {
            rows := rows[id := row.(status := Delivered, deliveredAt := Some(a.now), lastAttemptAt := Some(a.now))];
            outcome := DeliveredIt;
          } else if decision.Accept? || decision.TryAgain? {
            outcome := ScheduleRetry(id, a);
          } else {
            rows := rows[id := row.(status := Failed, lastAttemptAt := Some(a.now))];
            outcome := FailedIt;
          }
      }
    }

    method ScheduleRetry(id: string, a: Attempt) returns (outcome: Outcome)
      requires id in rows
      modifies this
      ensures rows == old(rows)[id := Scheduled(old(rows)[id], a.now, a.rng)] && outcome.RetriedIt?
    {
      var retryCount := rows[id].retryCount + 1;
      var delay := ComputeBackoff(retryCount, a.rng);
      rows := rows[id := rows[id].(status := Pending, retryCount := retryCount, lastAttemptAt := Some(a.now),
                                   nextRetryAt := Some(a.now + delay))];
      outcome := RetriedIt;
    }

    /** Attempt each claimed request in its own transaction. */
    method DeliverAll(ids: seq<string>, w: Surroundings) returns (delivered: nat, retried: nat, failed: nat)
      requires forall i | 0 <= i < |ids| :: ids[i] in rows
      requires forall i, j | 0 <= i < j < |ids| :: ids[i] != ids[j]
      modifies this
      ensures rows == AfterAttempts(old(rows), ids, AttemptsOf(w, |ids|), |ids|)
      ensures Counted(rows, ids, |ids|, delivered, retried, failed)
    {
      hide Attempted, Counted;
      ghost var before, attempts := rows, AttemptsOf(w, |ids|);
      delivered, retried, failed := 0, 0, 0;
      NoneCounted(rows, ids);
      for i := 0 to |ids|
        invariant rows == AfterAttempts(before, ids, attempts, i) && rows.Keys == before.Keys
        invariant Counted(rows, ids, i, delivered, retried, failed)
      {
        ghost var was := rows;
        var outcome := AttemptDelivery(ids[i], w.attempt(i));
        OneMoreCounted(was, rows, ids, i, w.attempt(i), delivered, retried, failed);
        match outcome {
          case DeliveredIt => delivered := delivered + 1;
          case FailedIt => failed := failed + 1;
          case RetriedIt => retried := retried + 1;
        }
      }
    }

    /** `run_once`: recover, claim, then deliver.  The tally counts the rows by where they ended up. */
    method RunOnce(s: Settings, w: Surroundings) returns (t: Tally, ghost ids: seq<string>)
      modifies this
      ensures var recovered := Recovered(old(rows), w.recoverNow - s.staleSendingSeconds);
        && IsClaim(recovered, w.claimNow, s.batchSize, ids)
        && rows == AfterAttempts(Claimed(recovered, ids, w.claimNow), ids, AttemptsOf(w, |ids|), |ids|)
      ensures t.recovered == |StaleIds(old(rows), w.recoverNow - s.staleSendingSeconds)|
      ensures Counted(rows, ids, |ids|, t.delivered, t.retried, t.failed)
    {
      hide Recovered, Counted, AfterAttempts, StaleIds;
      var recovered := RecoverStaleSending(w.recoverNow - s.staleSendingSeconds);
      var claimed := ClaimDue(w.claimNow, s.batchSize);
      ids := claimed;
      var delivered, retried, failed := DeliverAll(claimed, w);
      t := Tally(recovered, delivered, retried, failed);
    }
  }

  // --- What a pass picks up ---------------------------------------------------------------------

  /** The row waits for delivery and its time has come. */
  predicate Waits(r: Row, now: real) {
    r.status == Pending && (r.nextRetryAt == None || (r.nextRetryAt.Some? && r.nextRetryAt.value <= now))
  }

  /**
   A claim takes only requests whose time has come, no more than the batch; one
   that is left out found the batch full of requests created no later.  Those
   taken are marked as being sent now, and nothing else changes.
   */
  lemma ClaimMeans(rows: Rows, now: real, limit: nat, ids: seq<string>, id: string)
    requires IsClaim(rows, now, limit, ids) && id in rows
    ensures |ids| <= limit && (id in ids ==> Waits(rows[id], now))
    ensures Waits(rows[id], now) && id !in ids ==>
      |ids| == limit && forall i | 0 <= i < |ids| :: ids[i] in rows && rows[ids[i]].createdAt <= rows[id].createdAt
    ensures id in Claimed(rows, ids, now)
    ensures var r := Claimed(rows, ids, now)[id];
      if id in ids then r.status == Sending && r.lastAttemptAt == Some(now) && r.(status := Pending, lastAttemptAt := rows[id].lastAttemptAt) == rows[id]
      else r == rows[id]
  {
    if id in ids {
      var i :| 0 <= i < |ids| && ids[i] == id;
      assert Due(rows[ids[i]], now);
    }
  }

  /** Exactly the requests that have been in sending for longer than allowed are pending again; their retry time stays. */
  lemma RecoveredMeans(rows: Rows, now: real, s: Settings, id: string)
    requires id in rows
    ensures id in Recovered(rows, now - s.staleSendingSeconds)
    ensures var r := Recovered(rows, now - s.staleSendingSeconds)[id];
      if rows[id].status == Sending && rows[id].lastAttemptAt.Some? && now - rows[id].lastAttemptAt.value > s.staleSendingSeconds
      then r.status == Pending && r.(status := Sending) == rows[id]
      else r == rows[id]
  {
  }

  // --- What an answer leads to ----------------------------------------------------------------

  /** An HTTP status that refuses the request for good. */
  predicate Refuses(status: int) {
    status < 500 && !(200 <= status <= 299) && status !in {401, 403, 408, 425, 429}
  }

  /**
   The answer alone decides: failed for good exactly on a refusing status,
   delivered exactly on 2xx with a valid acknowledgement, and in every other
   case, a network error among them, pending again with one more retry.
   */
  lemma OutcomeIff(r: Row, response: Response, now: real, rng: real)
    ensures var (r', outcome) := Attempted(r, response, now, rng);
      var refused := response.Http? && Refuses(response.status);
      var confirmed := response.Http? && 200 <= response.status <= 299 && response.ack;
      && (outcome.FailedIt? <==> refused) && (r'.status.Failed? <==> refused)
      && (outcome.DeliveredIt? <==> confirmed) && (r'.status.Delivered? <==> confirmed)
      && (outcome.RetriedIt? <==> !refused && !confirmed) && (r'.status.Pending? <==> !refused && !confirmed)
      && r'.retryCount == r.retryCount + (if r'.status.Pending? then 1 else 0)
      && r'.deliveredAt == (if confirmed then Some(now) else r.deliveredAt)
      && r'.lastAttemptAt == Some(now) && r'.content == r.content && r'.createdAt == r.createdAt
      && (!r'.status.Pending? ==> r'.nextRetryAt == r.nextRetryAt)
  {
  }

  // --- Waiting times ------------------------------------------------------------------------

  /** A retry waits at least the capped exponential term and at most a fifth more. */
  lemma BackoffBounds(n: int, rng: real)
    requires 0.0 <= rng <= 1.0
    ensures Exponential(n) <= ComputeBackoff(n, rng) <= 1.2 * Exponential(n)
    ensures 5.0 <= Exponential(n) <= 300.0
  {
  }

  /** The term doubles with each retry until it reaches the cap at the seventh. */
  lemma BackoffDoubles(n: int)
    requires n >= 1
    ensures n <= 6 ==> Exponential(n) == 5.0 * Pow2(n - 1) as real
    ensures n >= 7 ==> Exponential(n) == 300.0
    ensures Exponential(n + 1) == MinReal(MAX_BACKOFF, 2.0 * Exponential(n))
  {
    Pow2Grows(n - 1);
  }

  lemma {:induction false} Pow2Grows(n: nat)
    ensures n <= 5 ==> Pow2(n) <= 32
    ensures n >= 6 ==> Pow2(n) >= 64
  {
    if n > 0 {
      Pow2Grows(n - 1);
    }
  }

  /** A retried row is due after the term of its new retry count, and up to a fifth more. */
  lemma RetryWaitBounded(r: Row, response: Response, now: real, rng: real)
    requires 0.0 <= rng <= 1.0 && Attempted(r, response, now, rng).1.RetriedIt?
    ensures var r' := Attempted(r, response, now, rng).0;
      && r'.status.Pending? && r'.retryCount == r.retryCount + 1 && r'.nextRetryAt.Some?
      && r'.nextRetryAt.value == now + Exponential(r'.retryCount) * (1.0 + 0.2 * rng)
      && now + Exponential(r'.retryCount) <= r'.nextRetryAt.value <= now + 1.2 * Exponential(r'.retryCount)
  {
    BackoffBounds(r.retryCount + 1, rng);
  }
}
