/**
 Field node, network and receiver of the rescue network as one step system.
 Requests and acknowledgements may be lost or late, the forwarder and the
 receiver's handlers may crash anywhere, and handlers run concurrently.

 There is one forwarder, request identifiers are fresh, and the receiver commits
 a row before it acknowledges it.
 */
module RescueDelivery {
  import opened Wrappers
  import opened RescueForwarder

  // --- Receiver -----------------------------------------------------------------------

  datatype Received = Received(id: string, content: string)

  predicate Stored(rows: seq<Received>, id: string) {
    exists i | 0 <= i < |rows| :: rows[i].id == id
  }

  predicate UniqueIds(rows: seq<Received>) {
    forall i, j | 0 <= i < j < |rows| :: rows[i].id != rows[j].id
  }

  /** The receiver's table with its UNIQUE constraint on the request identifier. */
  class ReceiverStore {
    var committed: seq<Received>

    method Lookup(id: string) returns (r: Option<Received>)
      ensures r.Some? <==> Stored(committed, id)
      ensures r.Some? ==> r.value in committed && r.value.id == id
    {
      for i := 0 to |committed|
        invariant forall j | 0 <= j < i :: committed[j].id != id
      {
        if committed[i].id == id {
          return Some(committed[i]);
        }
      }
      return None;
    }

    method Add(r: Received) returns (ok: bool)
      modifies this
      ensures ok == !Stored(old(committed), r.id)
      ensures committed == if ok then old(committed) + [r] else old(committed)
    {
      var existing := Lookup(r.id);
      if existing.Some? {
        return false;
      }
      committed := committed + [r];
      return true;
    }

    /** `store_received`; `race` is what a concurrent request for the same identifier commits after the lookup. */
    method StoreReceived(p: Received, race: Option<string>) returns (record: Received, duplicate: bool)
      requires UniqueIds(committed)
      modifies this
      ensures UniqueIds(committed) && record in committed && record.id == p.id
      ensures duplicate <==> Stored(old(committed), p.id) || race.Some?
      ensures Stored(old(committed), p.id) ==> committed == old(committed)
      ensures !Stored(old(committed), p.id) ==>
        committed == old(committed) + [if race.Some? then Received(p.id, race.value) else p]
    {
      var existing := Lookup(p.id);
      if existing.Some? {
        return existing.value, true;
      }
      if race.Some? {
        committed := committed + [Received(p.id, race.value)];
        assert committed[|committed| - 1].id == p.id;
      }
      var added := Add(p);
      if !added {
        existing := Lookup(p.id);
        return existing.value, true;
      }
      assert committed[|committed| - 1] == p;
      return p, false;
    }
  }

  // --- The whole system -----------------------------------------------------------------

  /** Where one receiver request is; a row that is inserted but not committed holds its identifier. */
  datatype Handler = LookedUp(p: Received) | Inserted(p: Received) | Settled(p: Received)

  datatype Phase =
    | Idle
    | Recovering
    | Delivering(ids: seq<string>)
    | Awaiting(ids: seq<string>)

  datatype World = World(
    field: Rows, phase: Phase,
    network: set<Received>, acks: set<string>,
    committed: seq<Received>, handlers: map<nat, Handler>)

  datatype Label =
    | Submit(id: string, content: string, createdAt: real)
    | Recover(cutoff: real) | Claim(now: real, ids: seq<string>)
    | Post | Answer(response: Response, now: real, rng: real) | EndPass
    | ForwarderCrash
    | OtherPost(p: Received)
    | Arrive(h: nat, p: Received) | Insert(h: nat) | Commit(h: nat) | Acknowledge(h: nat) | HandlerDies(h: nat)

  const EMPTY := World(map[], Idle, {}, {}, [], map[])

  predicate Known(network: set<Received>, id: string) {
    exists m | m in network :: m.id == id
  }

  /** Another handler has the identifier inserted but not committed: the insert has to wait. */
  predicate Blocked(w: World, id: string) {
    exists h | h in w.handlers :: w.handlers[h].Inserted? && w.handlers[h].p.id == id
  }

  /** An accepted acknowledgement can only be one the receiver sent for this request. */
  predicate CanAnswer(w: World, id: string, r: Response) {
    r.Http? && ClassifyResponse(r.status).Accept? && r.ack ==> id in w.acks
  }

  ghost function FieldStep(w: World, limit: nat, l: Label): World {
    match l
    case Submit(id, content, createdAt) =>
      if id in w.field || Known(w.network, id) then w
      else w.(field := w.field[id := Row(content, createdAt, Pending, 0, None, None, None)])
    case Recover(cutoff) =>
      if w.phase.Idle? then w.(field := Recovered(w.field, cutoff), phase := Recovering) else w
    case Claim(now, ids) =>
      if w.phase.Recovering? && IsClaim(w.field, now, limit, ids) then
        w.(field := Claimed(w.field, ids, now), phase := Delivering(ids))
      else w
    case Post =>
      if w.phase.Delivering? && w.phase.ids != [] && w.phase.ids[0] in w.field then
        w.(network := w.network + {Received(w.phase.ids[0], w.field[w.phase.ids[0]].content)}, phase := Awaiting(w.phase.ids))
      else w
    case Answer(r, now, rng) =>
      if w.phase.Awaiting? && w.phase.ids != [] && w.phase.ids[0] in w.field && CanAnswer(w, w.phase.ids[0], r) then
        var id := w.phase.ids[0];
        w.(field := w.field[id := Attempted(w.field[id], r, now, rng).0], phase := Delivering(w.phase.ids[1..]))
      else w
    case EndPass => if w.phase == Delivering([]) then w.(phase := Idle) else w
    case _ => if l.ForwarderCrash? then w.(phase := Idle) else w
  }

  ghost function ReceiverStep(w: World, l: Label): World {
    match l
    case OtherPost(p) => if p.id in w.field then w else w.(network := w.network + {p})
    case Arrive(h, p) =>
      if p !in w.network || h in w.handlers then w
      else w.(handlers := w.handlers[h := if Stored(w.committed, p.id) then Settled(p) else LookedUp(p)])
    case Insert(h) =>
      if h !in w.handlers || !w.handlers[h].LookedUp? then w
      else
        var p := w.handlers[h].p;
        if Stored(w.committed, p.id) then w.(handlers := w.handlers[h := Settled(p)])
        else if Blocked(w, p.id) then w
        else w.(handlers := w.handlers[h := Inserted(p)])
    case Commit(h) =>
      if h !in w.handlers || !w.handlers[h].Inserted? then w
      else w.(committed := w.committed + [w.handlers[h].p], handlers := w.handlers[h := Settled(w.handlers[h].p)])
    case Acknowledge(h) =>
      if h !in w.handlers || !w.handlers[h].Settled? then w
      else w.(acks := w.acks + {w.handlers[h].p.id}, handlers := w.handlers - {h})
    case HandlerDies(h) => w.(handlers := w.handlers - {h})
    case _ => w
  }

  predicate FieldLabel(l: Label) {
    l.Submit? || l.Recover? || l.Claim? || l.Post? || l.Answer? || l.EndPass? || l.ForwarderCrash?
  }

  ghost function Step(w: World, limit: nat, l: Label): World {
    if FieldLabel(l) then FieldStep(w, limit, l) else ReceiverStep(w, l)
  }

  ghost function Reached(limit: nat, run: seq<Label>): World {
    if run == [] then EMPTY else Step(Reached(limit, run[..|run| - 1]), limit, run[|run| - 1])
  }

  // --- Invariants ---------------------------------------------------------------------------

  /** The receiver's table and its uncommitted rows never hold an identifier twice. */
  ghost predicate TableOk(w: World) {
    && UniqueIds(w.committed)
    && (forall h | h in w.handlers && w.handlers[h].Inserted? :: !Stored(w.committed, w.handlers[h].p.id))
    && (forall h, k | h in w.handlers && k in w.handlers && h != k && w.handlers[h].Inserted? && w.handlers[k].Inserted? ::
          w.handlers[h].p.id != w.handlers[k].p.id)
  }

  /** Everything at the receiver was sent, and what was sent for a request is its content. */
  ghost predicate ContentOk(w: World) {
    && (forall h | h in w.handlers :: w.handlers[h].p in w.network)
    && (forall i | 0 <= i < |w.committed| :: w.committed[i] in w.network)
    && (forall m | m in w.network && m.id in w.field :: m.content == w.field[m.id].content)
  }

  ghost predicate AcksOk(w: World) {
    && (forall h | h in w.handlers && w.handlers[h].Settled? :: Stored(w.committed, w.handlers[h].p.id))
    && (forall id | id in w.acks :: Stored(w.committed, id))
  }

  ghost predicate DeliveredOk(w: World) {
    forall id | id in w.field && w.field[id].status.Delivered? :: Stored(w.committed, id)
  }

  ghost predicate PhaseOk(w: World) {
    w.phase.Delivering? || w.phase.Awaiting? ==>
      && (forall i | 0 <= i < |w.phase.ids| :: w.phase.ids[i] in w.field && w.field[w.phase.ids[i]].status.Sending?)
      && (forall i, j | 0 <= i < j < |w.phase.ids| :: w.phase.ids[i] != w.phase.ids[j])
  }

  ghost predicate Inv(w: World) {
    TableOk(w) && ContentOk(w) && AcksOk(w) && DeliveredOk(w) && PhaseOk(w)
  }

  lemma FieldStepKeepsInv(w: World, limit: nat, l: Label)
    requires Inv(w)
    ensures Inv(FieldStep(w, limit, l))
  {
    hide UniqueIds, Stored, ComputeBackoff;
  }

  lemma ReceiverStepKeepsInv(w: World, l: Label)
    requires Inv(w)
    ensures Inv(ReceiverStep(w, l))
  {
    match l
    case Commit(h) => CommitKeepsInv(w, h);
    case Insert(h) => InsertKeepsInv(w, h);
    case Acknowledge(h) => AcknowledgeKeepsInv(w, h);
    case Arrive(_, _) | OtherPost(_) => ArrivalKeepsInv(w, l);
    case HandlerDies(_) => hide UniqueIds, Stored;
    case _ =>
  }

  lemma ArrivalKeepsInv(w: World, l: Label)
    requires Inv(w) && (l.Arrive? || l.OtherPost?)
    ensures Inv(ReceiverStep(w, l))
  {
    hide UniqueIds, Stored;
  }

  lemma AcknowledgeKeepsInv(w: World, h: nat)
    requires Inv(w)
    ensures Inv(ReceiverStep(w, Acknowledge(h)))
  {
    hide UniqueIds, Stored;
  }

  lemma InsertKeepsInv(w: World, h: nat)
    requires Inv(w)
    ensures Inv(ReceiverStep(w, Insert(h)))
  {
    hide UniqueIds, Stored;
  }

  lemma CommitKeepsInv(w: World, h: nat)
    requires Inv(w)
    ensures Inv(ReceiverStep(w, Commit(h)))
  {
    hide UniqueIds, Stored;
    if h in w.handlers && w.handlers[h].Inserted? {
      var w' := ReceiverStep(w, Commit(h));
      StoredAppend(w.committed, w.handlers[h].p);
      assert forall i | 0 <= i < |w'.committed| :: w'.committed[i] in w.network;
    }
  }

  lemma StoredAppend(rows: seq<Received>, p: Received)
    ensures forall id :: Stored(rows + [p], id) <==> Stored(rows, id) || id == p.id
    ensures UniqueIds(rows) && !Stored(rows, p.id) ==> UniqueIds(rows + [p])
  {
    forall id ensures Stored(rows + [p], id) <==> Stored(rows, id) || id == p.id {
      assert (rows + [p])[|rows|] == p;
      if Stored(rows, id) {
        var i :| 0 <= i < |rows| && rows[i].id == id;
        assert (rows + [p])[i].id == id;
      }
    }
  }

  lemma {:induction false} ReachedInv(limit: nat, run: seq<Label>)
    ensures Inv(Reached(limit, run))
  {
    if run != [] {
      ReachedInv(limit, run[..|run| - 1]);
      FieldStepKeepsInv(Reached(limit, run[..|run| - 1]), limit, run[|run| - 1]);
      ReceiverStepKeepsInv(Reached(limit, run[..|run| - 1]), run[|run| - 1]);
    }
  }

  // --- Exactly-once storage ---------------------------------------------------------------------

  /**
   In every run the receiver stores a request at most once, and a request the
   field node marked delivered is stored there with its own content.
   */
  lemma ExactlyOnceStorage(limit: nat, run: seq<Label>)
    ensures var w := Reached(limit, run);
      && UniqueIds(w.committed)
      && forall id | id in w.field && w.field[id].status.Delivered? ::
           exists i | 0 <= i < |w.committed| :: w.committed[i] == Received(id, w.field[id].content)
  {
    ReachedInv(limit, run);
    hide Reached;
    var w := Reached(limit, run);
    forall id | id in w.field && w.field[id].status.Delivered?
      ensures exists i | 0 <= i < |w.committed| :: w.committed[i] == Received(id, w.field[id].content)
    {
      assert Stored(w.committed, id);
      var i :| 0 <= i < |w.committed| && w.committed[i].id == id;
      assert w.committed[i] in w.network;
    }
  }

  /** No request disappears or changes content, and delivered and failed are final; nothing leaves the receiver's table. */
  ghost predicate Advances(before: World, after: World) {
    && (forall id | id in before.field ::
          && id in after.field && after.field[id].content == before.field[id].content
          && after.field[id].createdAt == before.field[id].createdAt
          && (before.field[id].status.Delivered? || before.field[id].status.Failed? ==> after.field[id] == before.field[id]))
    && before.committed <= after.committed
  }

  lemma StepAdvances(w: World, limit: nat, l: Label)
    requires Inv(w)
    ensures Advances(w, Step(w, limit, l))
  {
    hide Stored, Known, Blocked, IsClaim, ComputeBackoff, TableOk, ContentOk, AcksOk, DeliveredOk;
    if l.Claim? && w.phase.Recovering? && IsClaim(w.field, l.now, limit, l.ids) {
      ClaimOnlyPending(w.field, l.now, limit, l.ids);
    }
  }

  lemma ClaimOnlyPending(rows: Rows, now: real, limit: nat, ids: seq<string>)
    requires IsClaim(rows, now, limit, ids)
    ensures forall id | id in ids :: id in rows && rows[id].status.Pending?
  {
  }

  lemma {:induction false} OutcomesAreFinal(limit: nat, run: seq<Label>, n: nat)
    requires n <= |run|
    ensures Advances(Reached(limit, run[..n]), Reached(limit, run))
  {
    if n == |run| {
      assert run[..n] == run;
    } else {
      var before := run[..|run| - 1];
      assert before[..n] == run[..n];
      OutcomesAreFinal(limit, before, n);
      ReachedInv(limit, before);
      StepAdvances(Reached(limit, before), limit, run[|run| - 1]);
    }
  }

  // --- What ends a request ---------------------------------------------------------------------------

  /** Step `k` of the run answers an attempt on this request. */
  ghost predicate AnswersFor(limit: nat, run: seq<Label>, k: nat, id: string)
    requires k < |run|
  {
    var w := Reached(limit, run[..k]);
    run[k].Answer? && w.phase.Awaiting? && w.phase.ids != [] && w.phase.ids[0] == id && id in w.field
      && CanAnswer(w, id, run[k].response)
  }

  /** The run holds an answer for this request with a status that refuses it. */
  ghost predicate WasRefused(limit: nat, run: seq<Label>, id: string) {
    exists k | 0 <= k < |run| :: AnswersFor(limit, run, k, id) && run[k].response.Http? && Refuses(run[k].response.status)
  }

  ghost predicate WasConfirmed(limit: nat, run: seq<Label>, id: string) {
    exists k | 0 <= k < |run| :: AnswersFor(limit, run, k, id) && run[k].response.Http? && 200 <= run[k].response.status <= 299
      && run[k].response.ack
  }

  /**
   A request is lost for good only if it was refused for good, and counts as
   delivered only on an acknowledged 2xx: neither a lost answer nor a crash, a
   network error or a busy receiver ever ends it.
   */
  lemma {:induction false} EndedOnlyByAnswer(limit: nat, run: seq<Label>, id: string)
    requires id in Reached(limit, run).field
    ensures Reached(limit, run).field[id].status.Failed? ==> WasRefused(limit, run, id)
    ensures Reached(limit, run).field[id].status.Delivered? ==> WasConfirmed(limit, run, id)
  {
    if run != [] {
      var front, last := run[..|run| - 1], run[|run| - 1];
      var w := Reached(limit, front);
      assert Reached(limit, run) == Step(w, limit, last);
      if id in w.field {
        EndedOnlyByAnswer(limit, front, id);
        EndsGrow(limit, run, id);
        ReachedInv(limit, front);
        StepAdvances(w, limit, last);
      }
      hide Reached, WasRefused, WasConfirmed, Step, Inv;
      if Final(Step(w, limit, last).field[id]) && (id in w.field ==> !Final(w.field[id])) {
        StepEnds(w, limit, last, id);
        LastAnswer(limit, run, id);
      }
    }
  }

  /** A step that ends a request is an answer to an attempt on it. */
  lemma StepEnds(w: World, limit: nat, l: Label, id: string)
    requires id in Step(w, limit, l).field && Final(Step(w, limit, l).field[id])
    requires id in w.field ==> !Final(w.field[id])
    ensures l.Answer? && w.phase.Awaiting? && w.phase.ids != [] && w.phase.ids[0] == id && id in w.field && CanAnswer(w, id, l.response)
    ensures l.response.Http?
    ensures Step(w, limit, l).field[id].status.Failed? ==> Refuses(l.response.status)
    ensures Step(w, limit, l).field[id].status.Delivered? ==> 200 <= l.response.status <= 299 && l.response.ack
  {
    hide IsClaim, ComputeBackoff, Stored, Known, Blocked, Attempted;
    if l.Answer? && w.phase.Awaiting? && w.phase.ids != [] && w.phase.ids[0] in w.field {
      OutcomeIff(w.field[w.phase.ids[0]], l.response, l.now, l.rng);
    }
  }

  lemma LastAnswer(limit: nat, run: seq<Label>, id: string)
    requires run != []
    requires var w, l := Reached(limit, run[..|run| - 1]), run[|run| - 1];
      l.Answer? && w.phase.Awaiting? && w.phase.ids != [] && w.phase.ids[0] == id && id in w.field && CanAnswer(w, id, l.response)
    ensures var l := run[|run| - 1];
      && (l.response.Http? && Refuses(l.response.status) ==> WasRefused(limit, run, id))
      && (l.response.Http? && 200 <= l.response.status <= 299 && l.response.ack ==> WasConfirmed(limit, run, id))
  {
    hide Reached;
    assert AnswersFor(limit, run, |run| - 1, id);
  }

  lemma EndsGrow(limit: nat, run: seq<Label>, id: string)
    requires run != []
    ensures WasRefused(limit, run[..|run| - 1], id) ==> WasRefused(limit, run, id)
    ensures WasConfirmed(limit, run[..|run| - 1], id) ==> WasConfirmed(limit, run, id)
  {
    hide Reached;
    var front := run[..|run| - 1];
    forall k | 0 <= k < |front| ensures AnswersFor(limit, front, k, id) == AnswersFor(limit, run, k, id) {
      assert front[..k] == run[..k];
    }
    hide AnswersFor;
    assert forall k | 0 <= k < |front| :: front[k] == run[k];
  }

  // --- Waiting times over a run --------------------------------------------------------------------

  /** The random part of every delay is between 0 and 1. */
  predicate Jittered(run: seq<Label>) {
    forall i | 0 <= i < |run| && run[i].Answer? :: 0.0 <= run[i].rng <= 1.0
  }

  /** The row's next attempt is due soon enough after its last one. */
  predicate WaitsBriefly(r: Row) {
    r.nextRetryAt.Some? ==>
      r.lastAttemptAt.Some? && r.nextRetryAt.value <= r.lastAttemptAt.value + 1.2 * Exponential(r.retryCount)
  }

  ghost predicate WaitsOk(rows: Rows) {
    forall id | id in rows && !Final(rows[id]) :: WaitsBriefly(rows[id])
  }

  lemma AttemptWaits(r: Row, response: Response, now: real, rng: real)
    requires 0.0 <= rng <= 1.0
    ensures var r' := Attempted(r, response, now, rng).0; Final(r') || WaitsBriefly(r')
  {
    BackoffBounds(r.retryCount + 1, rng);
    hide Exponential, ComputeBackoff;
  }

  lemma ClaimWaits(rows: Rows, now: real, limit: nat, ids: seq<string>)
    requires WaitsOk(rows) && IsClaim(rows, now, limit, ids)
    ensures WaitsOk(Claimed(rows, ids, now))
  {
    hide Exponential;
    forall id | id in rows && id in ids ensures WaitsBriefly(Claimed(rows, ids, now)[id]) {
      var i :| 0 <= i < |ids| && ids[i] == id;
      assert Due(rows[ids[i]], now);
      ExponentialPositive(rows[id].retryCount);
    }
  }

  lemma ExponentialPositive(n: int)
    ensures Exponential(n) > 0.0
  {
    BackoffBounds(n, 0.0);
  }

  lemma StepWaits(w: World, limit: nat, l: Label)
    requires WaitsOk(w.field) && (l.Answer? ==> 0.0 <= l.rng <= 1.0)
    ensures WaitsOk(Step(w, limit, l).field)
  {
    hide Exponential, IsClaim, Attempted;
    if l.Claim? && w.phase.Recovering? && IsClaim(w.field, l.now, limit, l.ids) {
      ClaimWaits(w.field, l.now, limit, l.ids);
    } else if l.Answer? && w.phase.Awaiting? && w.phase.ids != [] && w.phase.ids[0] in w.field {
      AttemptWaits(w.field[w.phase.ids[0]], l.response, l.now, l.rng);
    }
  }

  /**
   In every run, whatever crashed and was recovered, a pending request is due at
   once or at most 1.2 * min(300, 5 * 2^(n-1)) seconds after its last attempt,
   the n-th that was retried.
   */
  lemma {:induction false} WaitsBounded(limit: nat, run: seq<Label>)
    requires Jittered(run)
    ensures forall id | id in Reached(limit, run).field && Reached(limit, run).field[id].status.Pending? ::
      var r := Reached(limit, run).field[id];
      r.nextRetryAt.Some? ==>
        && r.lastAttemptAt.Some?
        && r.nextRetryAt.value <= r.lastAttemptAt.value + 1.2 * MinReal(300.0, 5.0 * Pow2(if r.retryCount < 1 then 0 else r.retryCount - 1) as real)
  {
    RunWaits(limit, run);
    hide Reached;
  }

  lemma {:induction false} RunWaits(limit: nat, run: seq<Label>)
    requires Jittered(run)
    ensures WaitsOk(Reached(limit, run).field)
  {
    if run != [] {
      RunWaits(limit, run[..|run| - 1]);
      StepWaits(Reached(limit, run[..|run| - 1]), limit, run[|run| - 1]);
      hide Step;
    }
  }

  // --- Bounded delivery ---------------------------------------------------------------------------

  /** The undelivered requests created no later than `id`, itself included. */
  function Ahead(rows: Rows, id: string): set<string>
    requires id in rows
  {
    set o | o in rows && !rows[o].status.Delivered? && !rows[o].status.Failed? && rows[o].createdAt <= rows[id].createdAt
  }

  /** One pass: recovery, the claim of `ids`, and an attempt on each. */
  ghost predicate PassBy(s: Settings, before: Rows, after: Rows, w: Surroundings, ids: seq<string>) {
    var recovered := Recovered(before, w.recoverNow - s.staleSendingSeconds);
    && IsClaim(recovered, w.claimNow, s.batchSize, ids)
    && after == AfterAttempts(Claimed(recovered, ids, w.claimNow), ids, AttemptsOf(w, |ids|), |ids|)
  }

  /** New requests may arrive between passes, created later than `id`; nothing else changes. */
  ghost predicate OnlyYounger(before: Rows, after: Rows, id: string)
    requires id in before
  {
    && (forall o | o in before :: o in after && after[o] == before[o])
    && (forall o | o in after && o !in before :: after[o].createdAt > before[id].createdAt)
  }

  predicate Final(r: Row) {
    r.status.Delivered? || r.status.Failed?
  }

  predicate AllAccepted(attempts: seq<Attempt>) {
    forall i | 0 <= i < |attempts| ::
      attempts[i].response.Http? && ClassifyResponse(attempts[i].response.status).Accept? && attempts[i].response.ack
  }

  lemma {:induction false} AcceptedAttempts(rows: Rows, ids: seq<string>, attempts: seq<Attempt>, n: nat)
    requires n <= |ids| && |attempts| == |ids| && AllAccepted(attempts)
    requires forall i | 0 <= i < |ids| :: ids[i] in rows
    ensures var after := AfterAttempts(rows, ids, attempts, n);
      && after.Keys == rows.Keys
      && (forall o | o in rows :: after[o].createdAt == rows[o].createdAt)
      && (forall i | 0 <= i < n :: after[ids[i]].status.Delivered?)
      && (forall o | o in rows && o !in ids[..n] :: after[o] == rows[o])
  {
    if n > 0 {
      AcceptedAttempts(rows, ids, attempts, n - 1);
      assert ids[..n] == ids[..n - 1] + [ids[n - 1]];
    }
  }

  function Members(ids: seq<string>): set<string> {
    set id | id in ids
  }

  lemma {:induction false} DistinctCount(ids: seq<string>)
    requires forall i, j | 0 <= i < j < |ids| :: ids[i] != ids[j]
    ensures |Members(ids)| == |ids|
  {
    if ids != [] {
      var front, last := ids[..|ids| - 1], ids[|ids| - 1];
      DistinctCount(front);
      assert ids == front + [last] && last !in front;
      assert Members(ids) == Members(front) + {last};
    }
  }

  /** What a pass with every POST accepted does, in terms of the rows it started from. */
  ghost predicate PassEffect(limit: nat, before: Rows, after: Rows, now: real, ids: seq<string>) {
    && after.Keys == before.Keys
    && (forall o | o in before :: after[o].createdAt == before[o].createdAt)
    && (forall i, j | 0 <= i < j < |ids| :: ids[i] != ids[j])
    && (forall i | 0 <= i < |ids| :: ids[i] in before && !Final(before[ids[i]]) && after[ids[i]].status.Delivered?)
    && (forall o | o in before && Final(before[o]) :: after[o] == before[o])
    && (forall o | o in before && Due(before[o], now) && o !in ids :: after[o] == before[o] && Overtakes(limit, before, ids, o))
  }

  /** A full batch of requests no younger than `o`. */
  predicate Overtakes(limit: nat, rows: Rows, ids: seq<string>, o: string)
    requires o in rows && forall i | 0 <= i < |ids| :: ids[i] in rows
  {
    |ids| == limit && forall i | 0 <= i < |ids| :: rows[ids[i]].createdAt <= rows[o].createdAt
  }

  lemma PassHasEffect(s: Settings, before: Rows, after: Rows, w: Surroundings, ids: seq<string>)
    requires PassBy(s, before, after, w, ids) && AllAccepted(AttemptsOf(w, |ids|))
    ensures PassEffect(s.batchSize, before, after, w.claimNow, ids)
  {
    var cutoff := w.recoverNow - s.staleSendingSeconds;
    assert IsClaim(Recovered(before, cutoff), w.claimNow, s.batchSize, ids);
    assert after == AfterAttempts(Claimed(Recovered(before, cutoff), ids, w.claimNow), ids, AttemptsOf(w, |ids|), |ids|);
    hide *;
    ClaimHasEffect(Recovered(before, cutoff), w.claimNow, s.batchSize, ids, AttemptsOf(w, |ids|));
    RecoveryFirst(s.batchSize, before, cutoff, after, w.claimNow, ids);
  }

  /** Recovering stale rows before the claim does not change what the pass is seen to do. */
  lemma RecoveryFirst(limit: nat, before: Rows, cutoff: real, after: Rows, now: real, ids: seq<string>)
    requires PassEffect(limit, Recovered(before, cutoff), after, now, ids)
    ensures PassEffect(limit, before, after, now, ids)
  {
    var recovered := Recovered(before, cutoff);
    forall o | o in before && Due(before[o], now) && o !in ids
      ensures after[o] == before[o] && Overtakes(limit, before, ids, o)
    {
      assert recovered[o] == before[o] && Due(recovered[o], now);
      assert Overtakes(limit, recovered, ids, o);
    }
  }

  lemma ClaimHasEffect(rows: Rows, now: real, limit: nat, ids: seq<string>, attempts: seq<Attempt>)
    requires IsClaim(rows, now, limit, ids) && |attempts| == |ids| && AllAccepted(attempts)
    ensures PassEffect(limit, rows, AfterAttempts(Claimed(rows, ids, now), ids, attempts, |ids|), now, ids)
  {
    hide AfterAttempts, AllAccepted, AttemptsOf;
    AcceptedAttempts(Claimed(rows, ids, now), ids, attempts, |ids|);
    assert ids[..|ids|] == ids;
    FinalNotClaimed(rows, now, limit, ids);
    hide IsClaim;
  }

  lemma FinalNotClaimed(rows: Rows, now: real, limit: nat, ids: seq<string>)
    requires IsClaim(rows, now, limit, ids)
    ensures forall o | o in rows && Final(rows[o]) :: o !in ids
    ensures forall i | 0 <= i < |ids| :: ids[i] in rows && !Final(rows[ids[i]])
    ensures forall i, j | 0 <= i < j < |ids| :: ids[i] != ids[j]
    ensures forall o | o in rows && Due(rows[o], now) && o !in ids :: Overtakes(limit, rows, ids, o)
  {
  }

  /** What such a pass does to one due request, and to those before it. */
  lemma PassProgress(limit: nat, before: Rows, after: Rows, now: real, ids: seq<string>, id: string)
    requires PassEffect(limit, before, after, now, ids) && id in before && Due(before[id], now)
    ensures id in after
    ensures after[id].status.Delivered? || (after[id] == before[id] && |Ahead(after, id)| + limit <= |Ahead(before, id)|)
  {
    if id in ids {
      var i :| 0 <= i < |ids| && ids[i] == id;
      assert after[ids[i]].status.Delivered?;
    } else {
      FewerAhead(limit, before, after, now, ids, id);
    }
  }

  lemma FewerAhead(limit: nat, before: Rows, after: Rows, now: real, ids: seq<string>, id: string)
    requires PassEffect(limit, before, after, now, ids) && id in before && Due(before[id], now) && id !in ids
    ensures |Ahead(after, id)| + limit <= |Ahead(before, id)|
  {
    assert Overtakes(limit, before, ids, id);
    var a, b, m := Ahead(after, id), Ahead(before, id), Members(ids);
    DistinctCount(ids);
    forall o | o in m ensures o in b && o !in a {
      var i :| 0 <= i < |ids| && ids[i] == o;
      assert after[ids[i]].status.Delivered?;
    }
    assert a <= b - m && m <= b;
    Subset(a, b - m);
    assert |b - m| == |b| - |m|;
  }

  lemma {:induction false} Subset(a: set<string>, b: set<string>)
    requires a <= b
    ensures |a| <= |b|
  {
    if a != {} {
      var x :| x in a;
      Subset(a - {x}, b - {x});
    }
  }

  /** Consecutive passes in which every POST is accepted, with only younger requests arriving between them. */
  datatype Pass = Pass(before: Rows, after: Rows, w: Surroundings, ids: seq<string>)

  ghost predicate PassGood(s: Settings, p: Pass, id: string) {
    PassBy(s, p.before, p.after, p.w, p.ids) && AllAccepted(AttemptsOf(p.w, |p.ids|)) && id in p.before
  }

  ghost predicate Follows(p: Pass, q: Pass, id: string) {
    id in p.after && OnlyYounger(p.after, q.before, id) && p.w.claimNow <= q.w.claimNow
  }

  ghost predicate GoodPasses(s: Settings, passes: seq<Pass>, id: string) {
    && (forall k | 0 <= k < |passes| :: PassGood(s, passes[k], id))
    && (forall k | 0 <= k < |passes| - 1 :: Follows(passes[k], passes[k + 1], id))
  }

  lemma {:induction false} StaysDelivered(s: Settings, passes: seq<Pass>, id: string)
    requires GoodPasses(s, passes, id) && passes != [] && passes[0].before[id].status.Delivered?
    ensures var last := passes[|passes| - 1].after; id in last && last[id].status.Delivered?
    decreases |passes|
  {
    var p := passes[0];
    assert PassGood(s, p, id);
    PassHasEffect(s, p.before, p.after, p.w, p.ids);
    assert p.after[id] == p.before[id];
    hide PassBy, AllAccepted, PassEffect;
    if |passes| > 1 {
      TailOfPasses(s, passes, id);
      assert Follows(passes[0], passes[0 + 1], id);
      assert passes[1].before[id] == p.after[id];
      StaysDelivered(s, passes[1..], id);
    }
  }

  lemma TailOfPasses(s: Settings, passes: seq<Pass>, id: string)
    requires GoodPasses(s, passes, id) && |passes| > 1
    ensures GoodPasses(s, passes[1..], id)
  {
    hide PassGood, Follows;
    var rest := passes[1..];
    assert forall k | 0 <= k < |rest| :: rest[k] == passes[k + 1];
    forall k | 0 <= k < |rest| - 1 ensures Follows(rest[k], rest[k + 1], id) {
      assert rest[k] == passes[k + 1] && rest[k + 1] == passes[k + 2];
      assert Follows(passes[k + 1], passes[k + 1 + 1], id);
    }
  }

  lemma SelfAhead(rows: Rows, id: string)
    requires id in rows && !rows[id].status.Failed?
    ensures !rows[id].status.Delivered? ==> |Ahead(rows, id)| >= 1
  {
    if !rows[id].status.Delivered? {
      Subset({id}, Ahead(rows, id));
    }
  }

  lemma YoungerKeepAhead(before: Rows, after: Rows, id: string)
    requires id in before && OnlyYounger(before, after, id)
    ensures Ahead(after, id) == Ahead(before, id)
  {
  }

  /**
   Bounded delivery.  Once every POST is accepted, a due request with `m`
   undelivered requests created no later than it is delivered within
   ceil(m / batch) passes, whatever order equal ages are claimed in.
   */
  lemma {:induction false} DeliveredWithin(s: Settings, passes: seq<Pass>, id: string)
    requires s.batchSize > 0 && passes != [] && GoodPasses(s, passes, id)
    requires Due(passes[0].before[id], passes[0].w.claimNow)
    requires |Ahead(passes[0].before, id)| <= |passes| * s.batchSize
    ensures var last := passes[|passes| - 1].after; id in last && last[id].status.Delivered?
    decreases |passes|
  {
    hide *;
    var p := passes[0];
    FirstPass(s, passes, id);
    if |passes| == 1 {
      SelfAhead(p.after, id);
    } else {
      TailOfPasses(s, passes, id);
      var rest := passes[1..];
      assert rest[0] == passes[1] && rest[|rest| - 1] == passes[|passes| - 1];
      if p.after[id].status.Delivered? {
        StaysDelivered(s, rest, id);
      } else {
        assert |passes| * s.batchSize == |rest| * s.batchSize + s.batchSize;
        DeliveredWithin(s, rest, id);
      }
    }
  }

  /** Where the first of several passes leaves the request. */
  lemma FirstPass(s: Settings, passes: seq<Pass>, id: string)
    requires passes != [] && GoodPasses(s, passes, id) && Due(passes[0].before[id], passes[0].w.claimNow)
    ensures var p := passes[0];
      && id in p.before && id in p.after && !p.after[id].status.Failed?
      && (p.after[id].status.Delivered?
          || (p.after[id] == p.before[id] && |Ahead(p.after, id)| + s.batchSize <= |Ahead(p.before, id)|))
      && (|passes| > 1 ==>
            && id in passes[1].before && passes[1].before[id] == p.after[id]
            && Ahead(passes[1].before, id) == Ahead(p.after, id)
            && Due(passes[1].before[id], passes[1].w.claimNow) == Due(p.after[id], passes[1].w.claimNow)
            && (p.after[id] == p.before[id] ==> Due(p.after[id], passes[1].w.claimNow))
            && (p.after[id].status.Delivered? ==> passes[1].before[id].status.Delivered?))
  {
    var p := passes[0];
    assert PassGood(s, p, id);
    PassHasEffect(s, p.before, p.after, p.w, p.ids);
    hide PassBy, AllAccepted;
    PassProgress(s.batchSize, p.before, p.after, p.w.claimNow, p.ids, id);
    hide PassEffect;
    if |passes| > 1 {
      assert Follows(passes[0], passes[0 + 1], id);
      hide GoodPasses;
      YoungerKeepAhead(p.after, passes[1].before, id);
    }
  }

  /** A claimed request whose forwarder died is due again as soon as it is recovered. */
  lemma RecoveredIsDue(rows: Rows, now: real, limit: nat, ids: seq<string>, id: string, cutoff: real)
    requires IsClaim(rows, now, limit, ids) && id in ids
    ensures var claimed := Claimed(rows, ids, now);
      && id in claimed && claimed[id].status.Sending?
      && (now < cutoff ==> forall later | later >= now :: Due(Recovered(claimed, cutoff)[id], later))
      && (now >= cutoff ==> Recovered(claimed, cutoff)[id] == claimed[id])
  {
    var i :| 0 <= i < |ids| && ids[i] == id;
    assert Due(rows[ids[i]], now);
  }
}
