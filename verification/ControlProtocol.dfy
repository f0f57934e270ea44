/**
 The versioned UDP control protocol (common/control_protocol.py): messages and
 the per-session freshness and ordering validator.

 A JSON field of the wrong type is treated by the original exactly like a field
 that is missing, so a message carries `None` for both.  A command is carried
 after normalisation; `NoCommand` stands for an empty or over-long one.
 */
module ControlProtocol {
  import opened Wrappers

  datatype Role = Head | Node1 | Node2 | Node3

  datatype DriveKind =
    | Forward | Backward | Left | Right
    | ForwardLeft | ForwardRight | BackwardLeft | BackwardRight
    | MildForwardLeft | MildForwardRight | MildBackwardLeft | MildBackwardRight
    | SlowForward | SlowBackward
    | FrontMotorForward | FrontMotorBackward | FrontForward | FrontBackward

  datatype Command =
    | NoCommand
    | Stop
    | RelayHold
    | DriveDisable
    | DriveEnable
    | DetachPress
    | DetachRest
    | FrontStop
    | HeadServo(short: bool)    // head_servo_*, or servo_* for short
    | Drive(kind: DriveKind)
    | Unknown(name: string)

  datatype Speed = NoSpeed | BadSpeed | Speed(value: real)

  datatype DetachContext = DetachContext(releasedNode: Option<Role>, acknowledged: bool, stopSeq: Option<int>)

  datatype Message = Message(
    version: Option<int>,
    isCommand: bool,
    target: Option<Role>,
    command: Command,
    session: Option<string>,
    seqNo: Option<int>,
    sentNs: Option<int>,
    ttlMs: Option<int>,
    speed: Speed,
    context: Option<DetachContext>)

  const PROTOCOL_VERSION := 1
  const MAX_TTL_MS := 5000

  datatype Reason =
    | Ok | SafetyStopDuplicateAndExpired | SafetyStopDuplicate | SafetyStopExpired
    | UnsupportedVersion | InvalidType | TargetMismatch | InvalidCommand | InvalidSession
    | InvalidSeq | InvalidSent | InvalidTtl | InvalidSpeed
    | RequiresInitialStop | SeqNotIncreasing | Expired

  datatype Verdict = Verdict(accepted: bool, reason: Reason)

  predicate SessionChar(c: char) {
    'A' <= c <= 'Z' || 'a' <= c <= 'z' || '0' <= c <= '9' || c in "_.:-"
  }

  predicate SessionOk(s: string) {
    1 <= |s| <= 96 && forall c | c in s :: SessionChar(c)
  }

  /** The checks on one message alone, in the order the validator makes them. */
  function Defect(m: Message, role: Role, maxTtlMs: int): Option<Reason> {
    if m.version != Some(PROTOCOL_VERSION) then Some(UnsupportedVersion)
    else if !m.isCommand then Some(InvalidType)
    else if m.target != Some(role) then Some(TargetMismatch)
    else if m.command.NoCommand? then Some(InvalidCommand)
    else if m.session.None? || !SessionOk(m.session.value) then Some(InvalidSession)
    else if m.seqNo.None? || m.seqNo.value < 1 then Some(InvalidSeq)
    else if m.sentNs.None? || m.sentNs.value < 0 then Some(InvalidSent)
    else if m.ttlMs.None? || m.ttlMs.value < 1 || m.ttlMs.value > maxTtlMs then Some(InvalidTtl)
    else if m.speed.BadSpeed? || (m.speed.Speed? && !(0.0 <= m.speed.value <= 1.0)) then Some(InvalidSpeed)
    else None
  }

  predicate WellFormed(m: Message, role: Role, maxTtlMs: int) {
    Defect(m, role, maxTtlMs).None?
  }

  datatype Key = Key(source: string, session: string)
  datatype SessionState = SessionState(lastSeq: int, bestOffsetNs: int, lastSeenNs: int)

  /** A Python dictionary: entries plus the order they were inserted in. */
  datatype Table = Table(states: map<Key, SessionState>, order: seq<Key>)
  {
    ghost predicate Ok() {
      && (forall k | k in states :: k in order)
      && (forall i | 0 <= i < |order| :: order[i] in states)
      && (forall i, j | 0 <= i < j < |order| :: order[i] != order[j])
    }
  }

  const EMPTY := Table(map[], [])

  /** Position of the least recently seen key; the earliest inserted wins a tie. */
  function OldestIndex(t: Table): (r: nat)
    requires t.Ok() && t.order != []
    ensures r < |t.order|
  {
    OldestOf(t, |t.order|)
  }

  function OldestOf(t: Table, n: nat): (r: nat)
    requires t.Ok() && 0 < n <= |t.order|
    ensures r < n
  {
    if n == 1 then 0
    else
      var best := OldestOf(t, n - 1);
      if t.states[t.order[n - 1]].lastSeenNs < t.states[t.order[best]].lastSeenNs then n - 1 else best
  }

  lemma {:induction false} OldestIsFirstMinimum(t: Table, n: nat)
    requires t.Ok() && 0 < n <= |t.order|
    ensures var r := OldestOf(t, n);
      && (forall j | 0 <= j < n :: t.states[t.order[r]].lastSeenNs <= t.states[t.order[j]].lastSeenNs)
      && (forall j | 0 <= j < r :: t.states[t.order[r]].lastSeenNs < t.states[t.order[j]].lastSeenNs)
  {
    if n > 1 {
      OldestIsFirstMinimum(t, n - 1);
    }
  }

  function Put(t: Table, k: Key, s: SessionState): (r: Table)
    requires t.Ok()
    ensures r.Ok()
    ensures r.states == t.states[k := s]
  {
    Table(t.states[k := s], if k in t.states then t.order else t.order + [k])
  }

  /** Removing one entry of a list without repetitions removes that key and nothing else. */
  lemma WithoutEntry(order: seq<Key>, i: nat)
    requires i < |order| && forall a, b | 0 <= a < b < |order| :: order[a] != order[b]
    ensures var r := order[..i] + order[i + 1..];
      && (forall a, b | 0 <= a < b < |r| :: r[a] != r[b])
      && (forall k | k in order && k != order[i] :: k in r)
      && (forall a | 0 <= a < |r| :: r[a] in order && r[a] != order[i])
  {
    var r := order[..i] + order[i + 1..];
    assert forall a | 0 <= a < |r| :: r[a] == order[if a < i then a else a + 1];
    forall k | k in order && k != order[i] ensures k in r {
      var j :| 0 <= j < |order| && order[j] == k;
      assert r[if j < i then j else j - 1] == k;
    }
  }

  function RemoveAt(t: Table, i: nat): (r: Table)
    requires t.Ok() && i < |t.order|
    ensures r.Ok()
    ensures r.states == t.states - {t.order[i]}
  {
    WithoutEntry(t.order, i);
    Table(t.states - {t.order[i]}, t.order[..i] + t.order[i + 1..])
  }

  /** `_remember`. */
  function Remember(t: Table, maxSessions: nat, k: Key, s: SessionState): (r: Table)
    requires t.Ok()
    ensures r.Ok()
  {
    var put := Put(t, k, s);
    if |put.states| <= maxSessions then put
    else
      assert put.order != [] by { assert k in put.order; }
      RemoveAt(put, OldestIndex(put))
  }

  function Offset(m: Message, nowNs: int): int
    requires m.sentNs.Some?
  {
    nowNs - m.sentNs.value
  }

  /** What the session's stored state says about a well-formed message. */
  function Judge(m: Message, previous: Option<SessionState>, nowNs: int): Verdict
    requires m.seqNo.Some? && m.sentNs.Some? && m.ttlMs.Some?
  {
    var duplicate := m.seqNo.value <= (if previous.Some? then previous.value.lastSeq else 0);
    var expired := Excess(m, previous, nowNs) > m.ttlMs.value * 1_000_000;
    if previous.None? && !m.command.Stop? then Verdict(false, RequiresInitialStop)
    else if m.command.Stop? then
      Verdict(true, if duplicate && expired then SafetyStopDuplicateAndExpired
                    else if duplicate then SafetyStopDuplicate
                    else if expired then SafetyStopExpired
                    else Ok)
    else if duplicate then Verdict(false, SeqNotIncreasing)
    else if expired then Verdict(false, Expired)
    else Verdict(true, Ok)
  }

  function BestOffset(m: Message, previous: Option<SessionState>, nowNs: int): int
    requires m.sentNs.Some?
  {
    if previous.None? then Offset(m, nowNs) else Min(previous.value.bestOffsetNs, Offset(m, nowNs))
  }

  /** Delay beyond the best the session has seen. */
  function Excess(m: Message, previous: Option<SessionState>, nowNs: int): int
    requires m.sentNs.Some?
  {
    Max(0, Offset(m, nowNs) - BestOffset(m, previous, nowNs))
  }

  datatype Arrival = Arrival(msg: Message, role: Role, source: string, nowNs: int)
  {
    function SessionKey(): Key
      requires msg.session.Some?
    {
      Key(source, msg.session.value)
    }
  }

  datatype Limits = Limits(maxTtlMs: int, maxSessions: nat)

  function Lookup(t: Table, k: Key): Option<SessionState> {
    if k in t.states then Some(t.states[k]) else None
  }

  /** One call of `validate`. */
  function Step(l: Limits, t: Table, a: Arrival): (r: (Table, Verdict))
    requires t.Ok()
    ensures r.0.Ok()
  {
    match Defect(a.msg, a.role, l.maxTtlMs)
    case Some(reason) => (t, Verdict(false, reason))
    case None =>
      var previous := Lookup(t, a.SessionKey());
      var v := Judge(a.msg, previous, a.nowNs);
      if v.accepted && a.msg.seqNo.value > (if previous.Some? then previous.value.lastSeq else 0) then
        (Remember(t, l.maxSessions, a.SessionKey(),
                  SessionState(a.msg.seqNo.value, BestOffset(a.msg, previous, a.nowNs), a.nowNs)), v)
      else (t, v)
  }

  // --- The validator object ---------------------------------------------------

  class ProtocolValidator {
    const maxTtlMs: int
    const maxSessions: nat
    var states: map<Key, SessionState>
    var order: seq<Key>

    ghost function View(): Table
      reads this
    {
      Table(states, order)
    }

    ghost function Bounds(): Limits {
      Limits(maxTtlMs, maxSessions)
    }

    ghost predicate Valid()
      reads this
    {
      View().Ok()
    }

    constructor (maxTtlMs: int, maxSessions: nat)
      ensures Valid() && View() == EMPTY
      ensures Bounds() == Limits(maxTtlMs, maxSessions)
    {
      this.maxTtlMs, this.maxSessions := maxTtlMs, maxSessions;
      states, order := map[], [];
    }

    method Forget() returns (oldest: Key)
      requires Valid() && order != []
      modifies this
      ensures Valid() && View() == RemoveAt(old(View()), OldestIndex(old(View())))
    {
      ghost var t := View();
      var best := 0;
      for i := 1 to |order|
        invariant View() == t
        invariant best == OldestOf(t, i)
      {
        if states[order[i]].lastSeenNs < states[order[best]].lastSeenNs {
          best := i;
        }
      }
      assert best == OldestIndex(t);
      oldest := order[best];
      states, order := states - {oldest}, order[..best] + order[best + 1..];
      assert View() == RemoveAt(t, best);
    }

    method RememberSession(k: Key, s: SessionState)
      requires Valid()
      modifies this
      ensures Valid() && View() == Remember(old(View()), maxSessions, k, s)
    {
      if k !in states {
        order := order + [k];
      }
      states := states[k := s];
      assert View() == Put(old(View()), k, s);
      if |states| <= maxSessions {
        return;
      }
      assert k in order;
      var _ := Forget();
    }

    method Validate(a: Arrival) returns (v: Verdict)
      requires Valid()
      modifies this
      ensures Valid() && (View(), v) == Step(Bounds(), old(View()), a)
    {
      hide Remember, SessionOk, Put;
      var m := a.msg;
      var defect := Defect(m, a.role, maxTtlMs);
      if defect.Some? {
        return Verdict(false, defect.value);
      }
      var k := a.SessionKey();
      var isStop := m.command.Stop?;
      var known := k in states;
      var previousSeq := if known then states[k].lastSeq else 0;
      var duplicate := m.seqNo.value <= previousSeq;
      if !known && !isStop {
        return Verdict(false, RequiresInitialStop);
      }
      var offset := a.nowNs - m.sentNs.value;
      var best := if known then Min(states[k].bestOffsetNs, offset) else offset;
      var expired := Max(0, offset - best) > m.ttlMs.value * 1_000_000;
      if isStop && (duplicate || expired) {
        if m.seqNo.value > previousSeq {
          RememberSession(k, SessionState(m.seqNo.value, best, a.nowNs));
        }
        if duplicate && expired {
          return Verdict(true, SafetyStopDuplicateAndExpired);
        }
        if duplicate {
          return Verdict(true, SafetyStopDuplicate);
        }
        return Verdict(true, SafetyStopExpired);
      }
      if duplicate {
        return Verdict(false, SeqNotIncreasing);
      }
      if expired {
        return Verdict(false, Expired);
      }
      RememberSession(k, SessionState(m.seqNo.value, best, a.nowNs));
      return Verdict(true, Ok);
    }
  }
}
