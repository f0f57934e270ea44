/** What the validator promises over whole runs of arrivals. */
module ValidatorRuns {
  import opened Wrappers
  import opened ControlProtocol

  // --- One arrival ------------------------------------------------------------

  /** Exactly when an arrival is accepted. */
  lemma AcceptedIff(l: Limits, t: Table, a: Arrival)
    requires t.Ok()
    ensures Step(l, t, a).1.accepted <==>
      && WellFormed(a.msg, a.role, l.maxTtlMs)
      && (a.msg.command.Stop?
          || (&& a.SessionKey() in t.states
              && a.msg.seqNo.value > t.states[a.SessionKey()].lastSeq
              && Offset(a.msg, a.nowNs) - t.states[a.SessionKey()].bestOffsetNs <= a.msg.ttlMs.value * 1_000_000))
  {
  }

  /** Which messages are well-formed on their own. */
  lemma WellFormedIff(m: Message, role: Role, maxTtlMs: int)
    ensures WellFormed(m, role, maxTtlMs) <==>
      && m.version == Some(1) && m.isCommand && m.target == Some(role) && m.command != NoCommand
      && m.session.Some? && 1 <= |m.session.value| <= 96
      && (forall c | c in m.session.value :: 'a' <= c <= 'z' || 'A' <= c <= 'Z' || '0' <= c <= '9' || c in "-:._")
      && m.seqNo.Some? && m.seqNo.value > 0
      && m.sentNs.Some? && m.sentNs.value >= 0
      && m.ttlMs.Some? && 0 < m.ttlMs.value <= maxTtlMs
      && m.speed != BadSpeed && (m.speed.Speed? ==> 0.0 <= m.speed.value <= 1.0)
  {
  }

  /** The reason given: of a refusal, what was amiss with the message or its session; of a stop, that it came late or twice. */
  lemma ReasonMeans(l: Limits, t: Table, a: Arrival)
    requires t.Ok() && WellFormed(a.msg, a.role, l.maxTtlMs)
    ensures var v := Step(l, t, a).1;
      var known := a.SessionKey() in t.states;
      var again := known && a.msg.seqNo.value <= t.states[a.SessionKey()].lastSeq;
      var late := known && Offset(a.msg, a.nowNs) - t.states[a.SessionKey()].bestOffsetNs > a.msg.ttlMs.value * 1_000_000;
      v.reason ==
        if a.msg.command.Stop? then
          if again && late then SafetyStopDuplicateAndExpired
          else if again then SafetyStopDuplicate
          else if late then SafetyStopExpired else Ok
        else if !known then RequiresInitialStop
        else if again then SeqNotIncreasing
        else if late then Expired else Ok
  {
    hide Remember, SessionOk;
  }

  /** The step stores the arrival's session. */
  predicate Stores(l: Limits, t: Table, a: Arrival)
    requires t.Ok()
  {
    && Step(l, t, a).1.accepted
    && (a.SessionKey() in t.states ==> a.msg.seqNo.value > t.states[a.SessionKey()].lastSeq)
  }

  function NewState(t: Table, a: Arrival): SessionState
    requires a.msg.session.Some? && a.msg.seqNo.Some? && a.msg.sentNs.Some?
  {
    SessionState(a.msg.seqNo.value, BestOffset(a.msg, Lookup(t, a.SessionKey()), a.nowNs), a.nowNs)
  }

  /** Every stored time is in the past. */
  ghost predicate SeenBy(t: Table, nowNs: int) {
    forall k | k in t.states :: t.states[k].lastSeenNs <= nowNs
  }

  /** With a clock that does not go back, the oldest entry is never the newcomer. */
  lemma NewcomerIsNotOldest(t: Table, k: Key, s: SessionState)
    requires t.Ok() && k !in t.states && t.states != map[] && SeenBy(t, s.lastSeenNs)
    ensures Put(t, k, s).order == t.order + [k]
    ensures OldestIndex(Put(t, k, s)) < |t.order|
  {
    var put := Put(t, k, s);
    var some :| some in t.states;
    assert some in t.order && put.order[0] == t.order[0] && t.order[0] in t.states;
    OldestIsFirstMinimum(put, |put.order|);
  }

  lemma EvictionSize(t: Table, i: nat)
    requires t.Ok() && i < |t.order|
    ensures |RemoveAt(t, i).states| == |t.states| - 1
  {
    assert t.order[i] in t.states;
    assert (t.states - {t.order[i]}).Keys == t.states.Keys - {t.order[i]};
  }

  /**
   Remembering keeps the table within its bound, evicts at most one other
   session, and never the one just stored.
   */
  lemma RememberKeeps(t: Table, maxSessions: nat, k: Key, s: SessionState)
    requires t.Ok() && |t.states| <= maxSessions && 1 <= maxSessions && SeenBy(t, s.lastSeenNs)
    ensures var r := Remember(t, maxSessions, k, s);
      && |r.states| <= maxSessions
      && k in r.states && r.states[k] == s
      && (forall k' | k' in r.states && k' != k :: k' in t.states && r.states[k'] == t.states[k'])
      && SeenBy(r, s.lastSeenNs)
  {
    var put := Put(t, k, s);
    PutSize(t, k, s);
    if |put.states| > maxSessions {
      EvictKeeps(t, maxSessions, k, s);
    }
  }

  /** What is kept of a session: its largest number, its smallest offset, and when it was last heard to advance. */
  lemma StoredEntry(l: Limits, t: Table, a: Arrival, k: Key, n: int, sentNs: int)
    requires t.Ok() && |t.states| <= l.maxSessions && 1 <= l.maxSessions && SeenBy(t, a.nowNs)
    requires a.source == k.source && a.msg.session == Some(k.session) && a.msg.seqNo == Some(n) && a.msg.sentNs == Some(sentNs)
    requires (k in t.states ==> n > t.states[k].lastSeq) && Step(l, t, a).1.accepted
    ensures var offset := a.nowNs - sentNs;
      Lookup(Step(l, t, a).0, k) ==
      Some(SessionState(n, if k in t.states && t.states[k].bestOffsetNs < offset then t.states[k].bestOffsetNs else offset, a.nowNs))
  {
    hide Remember, SessionOk;
    RememberKeeps(t, l.maxSessions, k, SessionState(n, BestOffset(a.msg, Lookup(t, k), a.nowNs), a.nowNs));
  }

  lemma PutSize(t: Table, k: Key, s: SessionState)
    requires t.Ok()
    ensures |Put(t, k, s).states| == if k in t.states then |t.states| else |t.states| + 1
  {
    assert t.states[k := s].Keys == t.states.Keys + {k};
  }

  lemma EvictKeeps(t: Table, maxSessions: nat, k: Key, s: SessionState)
    requires t.Ok() && |t.states| == maxSessions && 1 <= maxSessions && SeenBy(t, s.lastSeenNs) && k !in t.states
    ensures var put := Put(t, k, s);
      && put.order != []
      && var r := RemoveAt(put, OldestIndex(put));
      && |r.states| <= maxSessions
      && k in r.states && r.states[k] == s
      && (forall k' | k' in r.states && k' != k :: k' in t.states && r.states[k'] == t.states[k'])
  {
    hide OldestOf;
    var put := Put(t, k, s);
    assert k in put.order;
    PutSize(t, k, s);
    NewcomerIsNotOldest(t, k, s);
    var i := OldestIndex(put);
    EvictionSize(put, i);
    assert put.order[i] == t.order[i] && t.order[i] in t.order && t.order[i] in t.states;
  }

  /** A step stores the arrival's session or leaves the table as it was. */
  lemma StepStores(l: Limits, t: Table, a: Arrival)
    requires t.Ok()
    ensures Stores(l, t, a) ==> a.msg.session.Some? && a.msg.seqNo.Some? && a.msg.sentNs.Some? && a.msg.ttlMs.Some?
    ensures Step(l, t, a).0 ==
            if Stores(l, t, a) then Remember(t, l.maxSessions, a.SessionKey(), NewState(t, a)) else t
    ensures Step(l, t, a).1.accepted && !Stores(l, t, a) ==>
            && a.msg.session.Some? && a.msg.seqNo.Some? && a.SessionKey() in t.states
            && a.msg.seqNo.value <= t.states[a.SessionKey()].lastSeq
    ensures Stores(l, t, a) && a.SessionKey() in t.states ==>
            a.msg.seqNo.value > t.states[a.SessionKey()].lastSeq
    ensures Stores(l, t, a) && a.SessionKey() !in t.states ==> a.msg.command.Stop?
  {
    hide Remember, SessionOk;
  }

  // --- Runs -------------------------------------------------------------------

  function After(l: Limits, run: seq<Arrival>): (t: Table)
    ensures t.Ok()
  {
    if run == [] then EMPTY else Step(l, After(l, run[..|run| - 1]), run[|run| - 1]).0
  }

  function VerdictAt(l: Limits, run: seq<Arrival>, i: nat): (v: Verdict)
    requires i < |run|
    ensures v.accepted ==> run[i].msg.session.Some? && run[i].msg.seqNo.Some?
  {
    AcceptedIsNamed(l, After(l, run[..i]), run[i]);
    hide Step, After;
    Step(l, After(l, run[..i]), run[i]).1
  }

  lemma AcceptedIsNamed(l: Limits, t: Table, a: Arrival)
    requires t.Ok()
    ensures Step(l, t, a).1.accepted ==> a.msg.session.Some? && a.msg.seqNo.Some?
  {
    hide Remember, SessionOk;
  }

  predicate ClockSorted(run: seq<Arrival>) {
    forall i, j | 0 <= i < j < |run| :: run[i].nowNs <= run[j].nowNs
  }

  predicate For(a: Arrival, k: Key) {
    a.msg.session.Some? && a.SessionKey() == k
  }

  /** `k` is in the table after each of the steps i+1 .. j. */
  ghost predicate Stays(l: Limits, run: seq<Arrival>, k: Key, i: nat, j: nat)
    requires j <= |run|
  {
    forall m | i < m <= j :: k in After(l, run[..m]).states
  }

  lemma AfterStep(l: Limits, run: seq<Arrival>, i: nat)
    requires i < |run|
    ensures After(l, run[..i + 1]) == Step(l, After(l, run[..i]), run[i]).0
  {
    assert run[..i + 1][..i] == run[..i];
  }

  /** The table bound and the freshness of its times, at every point of a run. */
  lemma {:induction false} TableBounded(l: Limits, run: seq<Arrival>, n: nat)
    requires l.maxSessions >= 1 && ClockSorted(run) && n <= |run|
    ensures |After(l, run[..n]).states| <= l.maxSessions
    ensures n < |run| ==> SeenBy(After(l, run[..n]), run[n].nowNs)
  {
    hide After, Step;
    if n > 0 {
      TableBounded(l, run, n - 1);
      AfterStep(l, run, n - 1);
      BoundedStep(l, After(l, run[..n - 1]), run[n - 1], if n < |run| then run[n].nowNs else run[n - 1].nowNs);
    } else {
      NothingSeen(l, run);
    }
  }

  lemma NothingSeen(l: Limits, run: seq<Arrival>)
    ensures After(l, run[..0]) == EMPTY
  {
  }

  lemma BoundedStep(l: Limits, t: Table, a: Arrival, later: int)
    requires l.maxSessions >= 1 && t.Ok() && |t.states| <= l.maxSessions && SeenBy(t, a.nowNs) && a.nowNs <= later
    ensures |Step(l, t, a).0.states| <= l.maxSessions && SeenBy(Step(l, t, a).0, later)
  {
    hide Step, Stores, Remember;
    StepStores(l, t, a);
    if Stores(l, t, a) {
      RememberKeeps(t, l.maxSessions, a.SessionKey(), NewState(t, a));
    }
  }

  /** What one step of a run does to the entry of one session. */
  lemma EntryStep(l: Limits, run: seq<Arrival>, i: nat, k: Key)
    requires l.maxSessions >= 1 && ClockSorted(run) && i < |run|
    ensures var t, t' := After(l, run[..i]), After(l, run[..i + 1]);
      if Stores(l, t, run[i]) && For(run[i], k) then
        && run[i].msg.seqNo.Some? && run[i].msg.sentNs.Some?
        && k in t'.states && t'.states[k] == NewState(t, run[i])
        && (k in t.states ==> t.states[k].lastSeq < t'.states[k].lastSeq)
      else k in t'.states ==> k in t.states && t'.states[k] == t.states[k]
  {
    hide Step, Stores, Remember, After;
    AfterStep(l, run, i);
    TableBounded(l, run, i);
    var t, a := After(l, run[..i]), run[i];
    StepStores(l, t, a);
    if Stores(l, t, a) {
      RememberKeeps(t, l.maxSessions, a.SessionKey(), NewState(t, a));
    }
  }

  /** The key just stored is never the one evicted; every other step leaves the table alone. */
  lemma JustStoredStays(l: Limits, run: seq<Arrival>, i: nat)
    requires l.maxSessions >= 1 && ClockSorted(run) && i < |run|
    ensures VerdictAt(l, run, i).accepted ==> run[i].SessionKey() in After(l, run[..i + 1]).states
    ensures !VerdictAt(l, run, i).accepted ==> After(l, run[..i + 1]) == After(l, run[..i])
  {
    hide Step, Stores, Remember, After;
    AfterStep(l, run, i);
    StepStores(l, After(l, run[..i]), run[i]);
    if VerdictAt(l, run, i).accepted {
      EntryStep(l, run, i, run[i].SessionKey());
    } else {
      NotAcceptedNotStored(l, After(l, run[..i]), run[i]);
    }
  }

  lemma NotAcceptedNotStored(l: Limits, t: Table, a: Arrival)
    requires t.Ok()
    ensures Stores(l, t, a) ==> Step(l, t, a).1.accepted
  {
  }

  lemma {:induction false} LastSeqGrows(l: Limits, run: seq<Arrival>, k: Key, i: nat, j: nat)
    requires l.maxSessions >= 1 && ClockSorted(run) && i <= j <= |run|
    requires k in After(l, run[..i]).states && Stays(l, run, k, i, j)
    ensures k in After(l, run[..j]).states
    ensures After(l, run[..i]).states[k].lastSeq <= After(l, run[..j]).states[k].lastSeq
    ensures After(l, run[..j]).states[k].bestOffsetNs <= After(l, run[..i]).states[k].bestOffsetNs
  {
    hide Step, Stores, After;
    if i < j {
      LastSeqGrows(l, run, k, i, j - 1);
      EntryStep(l, run, j - 1, k);
    }
  }

  /**
   While a session stays in the table, a non-stop command is accepted only with
   a sequence number above every one accepted before it in that session.
   */
  lemma AcceptedSeqsIncrease(l: Limits, run: seq<Arrival>, i: nat, j: nat)
    requires l.maxSessions >= 1 && ClockSorted(run) && i < j < |run|
    requires VerdictAt(l, run, i).accepted && VerdictAt(l, run, j).accepted
    requires run[i].SessionKey() == run[j].SessionKey() && !run[j].msg.command.Stop?
    requires Stays(l, run, run[j].SessionKey(), i, j)
    ensures run[i].msg.seqNo.value < run[j].msg.seqNo.value
  {
    hide After, Step, Stores, VerdictAt;
    var k := run[j].SessionKey();
    AcceptedIsRecorded(l, run, i);
    LastSeqGrows(l, run, k, i + 1, j);
    AcceptedExceeds(l, run, j);
  }

  lemma AcceptedIsRecorded(l: Limits, run: seq<Arrival>, i: nat)
    requires l.maxSessions >= 1 && ClockSorted(run) && i < |run| && VerdictAt(l, run, i).accepted
    ensures var k := run[i].SessionKey();
      k in After(l, run[..i + 1]).states && run[i].msg.seqNo.value <= After(l, run[..i + 1]).states[k].lastSeq
  {
    EntryStep(l, run, i, run[i].SessionKey());
    JustStoredStays(l, run, i);
    hide After, Step;
  }

  lemma AcceptedExceeds(l: Limits, run: seq<Arrival>, j: nat)
    requires j < |run| && VerdictAt(l, run, j).accepted && !run[j].msg.command.Stop?
    ensures var k := run[j].SessionKey();
      k in After(l, run[..j]).states && After(l, run[..j]).states[k].lastSeq < run[j].msg.seqNo.value
  {
    AcceptedIff(l, After(l, run[..j]), run[j]);
    hide After, Step;
  }

  lemma EmptyStart(l: Limits, run: seq<Arrival>, k: Key)
    ensures k !in After(l, run[..0]).states
  {
  }

  /** A session in the table was opened by an accepted stop and has stayed since. */
  lemma {:induction false} OpenedByStop(l: Limits, run: seq<Arrival>, k: Key, j: nat) returns (i: nat)
    requires l.maxSessions >= 1 && ClockSorted(run) && j <= |run|
    requires k in After(l, run[..j]).states
    ensures i < j && For(run[i], k) && run[i].msg.command.Stop? && VerdictAt(l, run, i).accepted
    ensures k !in After(l, run[..i]).states && Stays(l, run, k, i, j)
  {
    hide Step, Stores, After;
    assert j > 0 by { EmptyStart(l, run, k); }
    EntryStep(l, run, j - 1, k);
    if k in After(l, run[..j - 1]).states {
      i := OpenedByStop(l, run, k, j - 1);
    } else {
      i := j - 1;
      hide ClockSorted;
      StepStores(l, After(l, run[..i]), run[i]);
      NotAcceptedNotStored(l, After(l, run[..i]), run[i]);
    }
  }

  /** Every accepted non-stop command follows an accepted stop of its own session. */
  lemma NonStopFollowsStop(l: Limits, run: seq<Arrival>, j: nat) returns (i: nat)
    requires l.maxSessions >= 1 && ClockSorted(run) && j < |run|
    requires VerdictAt(l, run, j).accepted && !run[j].msg.command.Stop?
    ensures i < j && For(run[i], run[j].SessionKey()) && run[i].msg.command.Stop? && VerdictAt(l, run, i).accepted
    ensures Stays(l, run, run[j].SessionKey(), i, j)
  {
    AcceptedIff(l, After(l, run[..j]), run[j]);
    i := OpenedByStop(l, run, run[j].SessionKey(), j);
  }

  /** Every well-formed stop is accepted, however late or duplicated, and whatever came before. */
  lemma StopAlwaysAccepted(l: Limits, run: seq<Arrival>, i: nat)
    requires i < |run| && run[i].msg.command.Stop?
    ensures VerdictAt(l, run, i).accepted <==> WellFormed(run[i].msg, run[i].role, l.maxTtlMs)
  {
    AcceptedIff(l, After(l, run[..i]), run[i]);
  }

  // --- The clock baseline -----------------------------------------------------

  /** The packet's clock offset, arrival time minus send time. */
  function ClockOffset(a: Arrival): int {
    if a.msg.sentNs.Some? then Offset(a.msg, a.nowNs) else 0
  }

  /** Step m of the run stored session `k`. */
  ghost predicate StoredAt(l: Limits, run: seq<Arrival>, k: Key, m: int) {
    0 <= m < |run| && For(run[m], k) && Stores(l, After(l, run[..m]), run[m])
  }

  /** `best` is the least offset over the steps in [lo, hi) that stored `k`, attained at `at`. */
  ghost predicate LeastOffset(l: Limits, run: seq<Arrival>, k: Key, lo: nat, at: nat, hi: nat, best: int) {
    && lo <= at < hi && StoredAt(l, run, k, at) && ClockOffset(run[at]) == best
    && (forall m | lo <= m < hi && StoredAt(l, run, k, m) :: best <= ClockOffset(run[m]))
  }

  /**
   A session's stored baseline is the smallest clock offset over exactly the
   packets remembered since it was opened: it bounds them all and one attains it.
   */
  lemma {:induction false} BaselineIsMinimum(l: Limits, run: seq<Arrival>, k: Key, n: nat)
    returns (start: nat, attained: nat)
    requires l.maxSessions >= 1 && ClockSorted(run) && n <= |run|
    requires k in After(l, run[..n]).states
    ensures start <= attained < n && StoredAt(l, run, k, start)
    ensures k !in After(l, run[..start]).states && Stays(l, run, k, start, n)
    ensures LeastOffset(l, run, k, start, attained, n, After(l, run[..n]).states[k].bestOffsetNs)
  {
    hide Step, Stores, After, ClockSorted;
    assert n > 0 by { EmptyStart(l, run, k); }
    EntryStep(l, run, n - 1, k);
    if k !in After(l, run[..n - 1]).states {
      start, attained := n - 1, n - 1;
    } else {
      start, attained := BaselineIsMinimum(l, run, k, n - 1);
      attained := LeastExtends(l, run, k, start, attained, n);
    }
  }

  /** One more packet, remembered or not. */
  lemma LeastExtends(l: Limits, run: seq<Arrival>, k: Key, start: nat, at: nat, n: nat) returns (attained: nat)
    requires l.maxSessions >= 1 && ClockSorted(run) && 0 < n <= |run|
    requires k in After(l, run[..n - 1]).states && k in After(l, run[..n]).states
    requires LeastOffset(l, run, k, start, at, n - 1, After(l, run[..n - 1]).states[k].bestOffsetNs)
    ensures LeastOffset(l, run, k, start, attained, n, After(l, run[..n]).states[k].bestOffsetNs)
  {
    hide Step, Stores, After, ClockSorted;
    EntryStep(l, run, n - 1, k);
    var best := After(l, run[..n - 1]).states[k].bestOffsetNs;
    attained := if StoredAt(l, run, k, n - 1) && ClockOffset(run[n - 1]) < best then n - 1 else at;
  }

  lemma Parts(m: Message, role: Role, maxTtlMs: int)
    requires WellFormed(m, role, maxTtlMs)
    ensures m.session.Some? && m.seqNo.Some? && m.sentNs.Some? && m.ttlMs.Some?
  {
  }

  /** An accepted non-stop packet is at most its TTL slower than the fastest remembered one. */
  lemma AcceptedWithinTtl(l: Limits, run: seq<Arrival>, j: nat) returns (start: nat, fastest: nat)
    requires l.maxSessions >= 1 && ClockSorted(run) && j < |run|
    requires VerdictAt(l, run, j).accepted && !run[j].msg.command.Stop?
    ensures fastest < j && run[j].msg.session.Some? && run[j].msg.ttlMs.Some?
    ensures LeastOffset(l, run, run[j].SessionKey(), start, fastest, j, ClockOffset(run[fastest]))
    ensures ClockOffset(run[j]) - ClockOffset(run[fastest]) <= run[j].msg.ttlMs.value * 1_000_000
  {
    hide Stores, After, Remember, SessionOk, Step, Defect;
    AcceptedIff(l, After(l, run[..j]), run[j]);
    Parts(run[j].msg, run[j].role, l.maxTtlMs);
    start, fastest := BaselineIsMinimum(l, run, run[j].SessionKey(), j);
  }

  /** The same run seen from a sender whose clock started `c` nanoseconds earlier. */
  function Shifted(a: Arrival, k: Key, c: int): Arrival {
    if For(a, k) && a.msg.sentNs.Some? then a.(msg := a.msg.(sentNs := Some(a.msg.sentNs.value + c))) else a
  }

  function ShiftedRun(run: seq<Arrival>, k: Key, c: int): (r: seq<Arrival>)
    ensures |r| == |run| && forall i | 0 <= i < |run| :: r[i] == Shifted(run[i], k, c)
  {
    seq(|run|, i requires 0 <= i < |run| => Shifted(run[i], k, c))
  }

  /** Shifting keeps a valid send time valid and an invalid one invalid. */
  predicate ShiftOk(a: Arrival, k: Key, c: int) {
    For(a, k) && a.msg.sentNs.Some? ==> (a.msg.sentNs.value >= 0 <==> a.msg.sentNs.value + c >= 0)
  }

  function ShiftedStates(m: map<Key, SessionState>, k: Key, c: int): map<Key, SessionState> {
    map x | x in m :: if x == k then m[x].(bestOffsetNs := m[x].bestOffsetNs - c) else m[x]
  }

  function ShiftedTable(t: Table, k: Key, c: int): Table {
    t.(states := ShiftedStates(t.states, k, c))
  }

  lemma {:induction false} OldestIgnoresShift(t: Table, k: Key, c: int, n: nat)
    requires t.Ok() && 0 < n <= |t.order|
    ensures ShiftedTable(t, k, c).Ok() && OldestOf(ShiftedTable(t, k, c), n) == OldestOf(t, n)
  {
    if n > 1 {
      OldestIgnoresShift(t, k, c, n - 1);
    }
  }

  lemma PutOrder(t: Table, key: Key, s: SessionState)
    requires t.Ok()
    ensures Put(t, key, s).order == if key in t.states then t.order else t.order + [key]
  {
  }

  lemma ShiftedOk(t: Table, k: Key, c: int)
    requires t.Ok()
    ensures ShiftedTable(t, k, c).Ok() && ShiftedTable(t, k, c).order == t.order
    ensures ShiftedTable(t, k, c).states.Keys == t.states.Keys
  {
  }

  lemma ShiftedUpdate(m: map<Key, SessionState>, key: Key, s: SessionState, k: Key, c: int)
    ensures var s' := if key == k then s.(bestOffsetNs := s.bestOffsetNs - c) else s;
      ShiftedStates(m, k, c)[key := s'] == ShiftedStates(m[key := s], k, c)
  {
    var s' := if key == k then s.(bestOffsetNs := s.bestOffsetNs - c) else s;
    var a, b := ShiftedStates(m, k, c)[key := s'], ShiftedStates(m[key := s], k, c);
    assert a.Keys == b.Keys;
    forall x | x in a ensures a[x] == b[x] {}
  }

  lemma ShiftedRemoval(m: map<Key, SessionState>, key: Key, k: Key, c: int)
    ensures ShiftedStates(m, k, c) - {key} == ShiftedStates(m - {key}, k, c)
  {
    var a, b := ShiftedStates(m, k, c) - {key}, ShiftedStates(m - {key}, k, c);
    assert a.Keys == b.Keys;
    forall x | x in a ensures a[x] == b[x] {}
  }

  lemma PutShifts(t: Table, key: Key, s: SessionState, k: Key, c: int)
    requires t.Ok()
    ensures var s' := if key == k then s.(bestOffsetNs := s.bestOffsetNs - c) else s;
      && ShiftedTable(t, k, c).Ok()
      && Put(ShiftedTable(t, k, c), key, s') == ShiftedTable(Put(t, key, s), k, c)
  {
    ShiftedOk(t, k, c);
    ShiftedUpdate(t.states, key, s, k, c);
    PutOrder(t, key, s);
    PutOrder(ShiftedTable(t, k, c), key, if key == k then s.(bestOffsetNs := s.bestOffsetNs - c) else s);
    hide Put, ShiftedStates;
  }

  lemma RemoveOrder(t: Table, i: nat)
    requires t.Ok() && i < |t.order|
    ensures RemoveAt(t, i).order == t.order[..i] + t.order[i + 1..]
  {
  }

  lemma RemoveShifts(t: Table, i: nat, k: Key, c: int)
    requires t.Ok() && i < |t.order|
    ensures ShiftedTable(t, k, c).Ok()
    ensures RemoveAt(ShiftedTable(t, k, c), i) == ShiftedTable(RemoveAt(t, i), k, c)
  {
    ShiftedOk(t, k, c);
    ShiftedRemoval(t.states, t.order[i], k, c);
    RemoveOrder(t, i);
    RemoveOrder(ShiftedTable(t, k, c), i);
    hide RemoveAt, ShiftedStates;
  }

  lemma ShiftKeepsSize(t: Table, k: Key, c: int)
    ensures |ShiftedTable(t, k, c).states| == |t.states|
  {
    assert ShiftedTable(t, k, c).states.Keys == t.states.Keys;
  }

  lemma RememberShifts(t: Table, maxSessions: nat, key: Key, s: SessionState, k: Key, c: int)
    requires t.Ok()
    ensures var s' := if key == k then s.(bestOffsetNs := s.bestOffsetNs - c) else s;
      && ShiftedTable(t, k, c).Ok()
      && Remember(ShiftedTable(t, k, c), maxSessions, key, s') == ShiftedTable(Remember(t, maxSessions, key, s), k, c)
  {
    hide Put, RemoveAt, ShiftedTable, OldestOf;
    var put := Put(t, key, s);
    PutShifts(t, key, s, k, c);
    ShiftKeepsSize(put, k, c);
    if |put.states| > maxSessions {
      assert key in put.order;
      assert put.order == ShiftedTable(put, k, c).order by { ShiftKeepsOrder(put, k, c); }
      OldestIgnoresShift(put, k, c, |put.order|);
      RemoveShifts(put, OldestIndex(put), k, c);
    }
  }

  lemma ShiftKeepsOrder(t: Table, k: Key, c: int)
    ensures ShiftedTable(t, k, c).order == t.order
  {
  }

  lemma StepShifts(l: Limits, t: Table, a: Arrival, k: Key, c: int)
    requires t.Ok() && ShiftOk(a, k, c)
    ensures ShiftedTable(t, k, c).Ok()
    ensures Step(l, ShiftedTable(t, k, c), Shifted(a, k, c)) ==
            (ShiftedTable(Step(l, t, a).0, k, c), Step(l, t, a).1)
  {
    hide Remember, SessionOk, Judge;
    var a' := Shifted(a, k, c);
    assert Defect(a'.msg, a'.role, l.maxTtlMs) == Defect(a.msg, a.role, l.maxTtlMs);
    if WellFormed(a.msg, a.role, l.maxTtlMs) {
      RememberShifts(t, l.maxSessions, a.SessionKey(), NewState(t, a), k, c);
      JudgeShifts(t, a, k, c);
    }
  }

  lemma JudgeShifts(t: Table, a: Arrival, k: Key, c: int)
    requires t.Ok() && ShiftOk(a, k, c) && a.msg.session.Some? && a.msg.seqNo.Some? && a.msg.sentNs.Some? && a.msg.ttlMs.Some?
    ensures var a' := Shifted(a, k, c);
      && a'.msg.seqNo.Some? && a'.msg.sentNs.Some? && a'.msg.ttlMs.Some?
      && Judge(a'.msg, Lookup(ShiftedTable(t, k, c), a.SessionKey()), a'.nowNs) == Judge(a.msg, Lookup(t, a.SessionKey()), a.nowNs)
  {
  }

  lemma {:induction false} AfterShifts(l: Limits, run: seq<Arrival>, k: Key, c: int)
    requires forall a | a in run :: ShiftOk(a, k, c)
    ensures After(l, ShiftedRun(run, k, c)) == ShiftedTable(After(l, run), k, c)
  {
    if run != [] {
      var front, last := run[..|run| - 1], run[|run| - 1];
      AfterShifts(l, front, k, c);
      assert ShiftedRun(run, k, c)[..|run| - 1] == ShiftedRun(front, k, c);
      StepShifts(l, After(l, front), last, k, c);
    }
  }

  /**
   Sender and receiver clocks may have any relation: adding a constant to every
   send time of a session changes no verdict of the run.
   */
  lemma ClockOriginIrrelevant(l: Limits, run: seq<Arrival>, k: Key, c: int, i: nat)
    requires forall a | a in run :: ShiftOk(a, k, c)
    requires i < |run|
    ensures VerdictAt(l, ShiftedRun(run, k, c), i) == VerdictAt(l, run, i)
  {
    AfterShifts(l, run[..i], k, c);
    assert ShiftedRun(run, k, c)[..i] == ShiftedRun(run[..i], k, c);
    StepShifts(l, After(l, run[..i]), run[i], k, c);
  }
}
