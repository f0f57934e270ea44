/**
 The radar supervisor (sensors/radar_supervisor.py).  The outside world answers
 each question it is asked from a finite script; once the script is used up it
 asks the supervisor to stop.  Every finite part of a run, however long, is thus
 a run here, and the original's endless retry loops end.
 */
module RadarSupervisor {
  import opened Wrappers
  import opened SupervisorCustody

  /** A child the process manager reports stopped during cleanup. */
  datatype StopReport = StopReport(pid: int, role: Role, exitCode: int)

  /** One answer of the outside world; each question reads the fields it needs. */
  datatype Answer = Answer(
    stop: bool, fails: bool, presence: Presence, yes: bool, pid: int, role: Role,
    exitCode: Option<int>, fault: bool, verified: bool, now: real, reports: seq<StopReport>)

  const USED_UP := Answer(true, false, Missing, false, 0, Capture, None, false, false, 0.0, [])

  datatype Config = Config(retryInitial: real, retryMax: real, stableRunningReset: real)

  datatype EpochRecord = EpochRecord(number: nat, ended: bool, exitCode: Option<int>)

  /** How a step of the supervisor comes out; `Failed` is an exception on its way to the cleanup. */
  datatype Outcome = Ready | Retry | StopAsked | Failed

  datatype Fault = Fault(exitCode: Option<int>, portAbsent: bool)

  datatype Viewing = NewViewer(pid: int, role: Role) | ViewingFault(fault: Fault) | ViewingStopped | ViewingFailed

  datatype Watching = RadarFault(fault: Fault) | Healthy | CheckFailed

  /** The delay after `n` back-offs since the last reset. */
  function DelayAfter(cfg: Config, n: nat): real {
    MinReal(cfg.retryMax, cfg.retryInitial * Pow2(n) as real)
  }

  lemma DelayDoubles(cfg: Config, n: nat)
    requires 0.0 < cfg.retryInitial <= cfg.retryMax
    ensures MinReal(cfg.retryMax, DelayAfter(cfg, n) * 2.0) == DelayAfter(cfg, n + 1)
    ensures DelayAfter(cfg, 0) == cfg.retryInitial
  {
    var x := cfg.retryInitial * Pow2(n) as real;
    assert cfg.retryInitial * Pow2(n + 1) as real == 2.0 * x;
  }

  /** The supervisor's fields, with two that only record what happened. */
  datatype State = State(
    phase: Phase, epoch: nat, ownerLock: bool, uartLock: bool,
    paths: Option<nat>, verifiedPaths: Option<nat>, epochs: seq<EpochRecord>,
    events: seq<ProcessEvent>, owned: map<int, Role>, activeCapture: Option<int>, activeViewer: Option<int>,
    watching: bool, engaged: bool, retryDelay: real,
    log: seq<Effect>,        // every effect so far
    marks: Marks)            // and what they say about the present attempt
  {
    predicate EpochOpen() {
      epochs != [] && !epochs[|epochs| - 1].ended
    }

    /** A capture runs in the open epoch. */
    predicate Capturing() {
      activeCapture.Some? && EpochOpen() && epoch == |epochs| && paths == Some(|epochs|)
    }

    /** A capture is being watched in the open epoch, which is verified. */
    predicate Verified() {
      epoch == |epochs| && activeCapture.Some? && watching && EpochOpen() && verifiedPaths == Some(|epochs|) && paths == verifiedPaths
    }

    /** Between attempts. */
    predicate Quiet() {
      activeCapture == None && !EpochOpen() && epoch == |epochs|
    }
  }

  /** The ports were looked at. */
  function Sighting(m: Marks, presence: Presence): Marks {
    m.(port := Some(presence), absent := m.absent || presence.Missing?)
  }

  /** The fault that bad news of a running capture stands for. */
  function FaultOf(n: News): Fault
    requires n.WhileRunning?
  {
    Fault(n.exitCode, n.exitCode.None? && n.portMissing)
  }

  /** The bad news a fault comes from. */
  predicate FaultHeard(m: Marks, fault: Fault) {
    Unsound(m.heard) && m.heard.value.WhileRunning? && fault == FaultOf(m.heard.value)
  }

  /** Nothing that would end the attempt or begin another. */
  predicate SameRun(a: Marks, b: Marks) {
    b.ran == a.ran && b.recovering == a.recovering && b.cleaning == a.cleaning
  }

  /** Only the ports were looked at, and phases entered. */
  predicate OnlyPorts(a: Marks, b: Marks) {
    b == a.(port := b.port, absent := b.absent, switching := b.switching) && (a.absent ==> b.absent)
  }

  /** What an answer says of a running capture. */
  function NewsOf(a: Answer): News {
    WhileRunning(a.exitCode, a.presence.Missing?, a.fault)
  }

  function One(o: Option<int>): set<int> {
    if o.Some? then {o.value} else {}
  }

  // --- Invariant ----------------------------------------------------------------------

  /** The effects so far leave exactly the custody the fields say. */
  predicate CustodyOk(s: State) {
    && SafeLog(s.log)
    && Replay(s.log) == Custody(One(s.activeCapture), One(s.activeViewer), None, s.ownerLock, s.uartLock, s.watching, s.verifiedPaths,
                                |s.epochs|, s.EpochOpen(), s.marks)
  }

  /** Epochs are numbered in order and all but the last are closed. */
  predicate EpochsOk(s: State) {
    && |s.epochs| <= s.epoch
    && (forall i | 0 <= i < |s.epochs| :: s.epochs[i].number == i + 1)
    && (forall i | 0 <= i < |s.epochs| - 1 :: s.epochs[i].ended)
  }

  /** The registered children are the active ones, each in its role. */
  predicate ChildrenOk(s: State) {
    && s.owned.Keys == One(s.activeCapture) + One(s.activeViewer)
    && (s.activeCapture.Some? ==> s.owned[s.activeCapture.value] == Capture)
    && (s.activeViewer.Some? ==> s.owned[s.activeViewer.value] == Viewer)
  }

  /** The process events are those of the effects. */
  predicate EventsOk(s: State) {
    s.events == EventsOf(s.log)
  }

  predicate DelayOk(cfg: Config, s: State) {
    0.0 < cfg.retryInitial <= cfg.retryMax && s.retryDelay == DelayAfter(cfg, s.marks.backoffs) && DelaysInLog(cfg, s.log)
  }

  /** A delay waited is the one its number of back-offs asks for; it is reset only after RUNNING was stable for long enough. */
  predicate DelayRule(cfg: Config, backoffs: nat, e: Effect) {
    && (e.BackedOff? ==> e.delay == DelayAfter(cfg, backoffs))
    && (e.DelayWasReset? ==> e.healthy >= cfg.stableRunningReset)
  }

  predicate DelaysInLog(cfg: Config, log: seq<Effect>) {
    forall i | 0 <= i < |log| :: DelayRule(cfg, Replay(log[..i]).marks.backoffs, log[i])
  }

  predicate Ok(cfg: Config, s: State) {
    CustodyOk(s) && EpochsOk(s) && ChildrenOk(s) && EventsOk(s) && DelayOk(cfg, s)
  }

  // --- Steps of the bookkeeping ----------------------------------------------------------

  function Did(s: State, e: Effect): State {
    s.(log := s.log + [e])
  }

  lemma Effects(cfg: Config, s: State, e: Effect)
    ensures Replay(Did(s, e).log) == After(Replay(s.log), e)
    ensures SafeLog(s.log) && Allowed(Replay(s.log), e) ==> SafeLog(Did(s, e).log)
    ensures DelaysInLog(cfg, s.log) && DelayRule(cfg, Replay(s.log).marks.backoffs, e) ==>
      DelaysInLog(cfg, Did(s, e).log)
    ensures EventsOf(Did(s, e).log) == EventsOf(s.log) + (
      match e
      case OwnedCapture(pid) => [Started(pid, Capture)]
      case OwnedViewer(pid) => [Started(pid, Viewer)]
      case NotedEnd(pid, role) => [Ended(pid, role)]
      case _ => [])
  {
    LogMore(s.log, e);
    EventsMore(s.log, e);
    if DelaysInLog(cfg, s.log) && DelayRule(cfg, Replay(s.log).marks.backoffs, e) {
      DelaysMore(cfg, s.log, e);
    }
    hide SafeLog, DelaysInLog, Replay, EventsOf, Allowed, After, DelayAfter, DelayRule;
  }

  lemma DelaysMore(cfg: Config, log: seq<Effect>, e: Effect)
    requires DelaysInLog(cfg, log) && DelayRule(cfg, Replay(log).marks.backoffs, e)
    ensures DelaysInLog(cfg, log + [e])
  {
    hide Replay, DelayRule;
    var more := log + [e];
    assert more[..|log|] == log;
    forall i | 0 <= i < |more| ensures DelayRule(cfg, Replay(more[..i]).marks.backoffs, more[i]) {
      if i < |log| {
        assert more[..i] == log[..i];
      }
    }
  }

  predicate CanEnter(s: State, p: Phase) {
    match p
    case Running => s.Verified() && s.activeViewer.Some? && Sound(s.marks.heard)
    case Stopped => !s.EpochOpen()
    case _ => true
  }

  function Entering(m: Marks, p: Phase): Marks {
    m.(ran := m.ran || p.Running?, switching := p.SwitchViewer?)
  }

  function Enter(s: State, p: Phase): State {
    s.(log := s.log + [Entered(p)], phase := p, marks := Entering(s.marks, p))
  }

  lemma EnterOk(cfg: Config, s: State, p: Phase)
    requires Ok(cfg, s) && CanEnter(s, p)
    ensures Ok(cfg, Enter(s, p))
  {
    hide SafeLog, Replay, EventsOf, DelayAfter, DelaysInLog;
    Effects(cfg, s, Entered(p));
  }

  /** Which effects that change no more than the marks are allowed. */
  predicate CanDo(s: State, e: Effect) {
    match e
    case BeganAttempt(recovering) => recovering <==> s.marks.ran
    case RanReset => s.activeCapture == None && s.ownerLock && s.uartLock && s.marks.port == Some(Selected) && s.marks.rested
    case ResetDone | Heard(_) | BeganCleanup => true
    case RanConfigure =>
      && s.activeCapture == None && s.ownerLock && s.uartLock && s.marks.port == Some(Selected)
      && (s.marks.resetDone || !s.marks.recovering || s.marks.absent)
    case LaunchedCapture => s.activeCapture == None && s.ownerLock && !s.uartLock && s.EpochOpen()
    case LaunchedViewer(p) =>
      s.Verified() && s.activeViewer == None && Some(p) == s.paths && Sound(s.marks.heard) && !s.marks.launching
    case _ => false
  }

  lemma DidOk(cfg: Config, s: State, e: Effect)
    requires Ok(cfg, s) && CanDo(s, e)
    ensures Ok(cfg, Did(s, e).(marks := Marked(s.marks, e)))
  {
    hide SafeLog, Replay, EventsOf, DelayAfter, DelaysInLog, Allowed, After;
    Effects(cfg, s, e);
    CanDoAllowed(s, e);
    AfterMarks(Replay(s.log), e);
  }

  lemma CanDoAllowed(s: State, e: Effect)
    requires CanDo(s, e) && CustodyOk(s)
    ensures Allowed(Replay(s.log), e) && OnlyMarks(e)
  {
    hide SafeLog, Replay;
  }

  function WithOwner(s: State, held: bool): State {
    s.(log := s.log + [if held then TookOwnerLock else GaveOwnerLock], ownerLock := held)
  }

  function WithUart(s: State, held: bool): State {
    s.(log := s.log + [if held then TookUartLock else GaveUartLock], uartLock := held)
  }

  lemma OwnerOk(cfg: Config, s: State, held: bool)
    requires Ok(cfg, s)
    ensures Ok(cfg, WithOwner(s, held))
  {
    hide SafeLog, Replay, EventsOf, DelayAfter, DelaysInLog;
    Effects(cfg, s, if held then TookOwnerLock else GaveOwnerLock);
  }

  lemma UartOk(cfg: Config, s: State, held: bool)
    requires Ok(cfg, s)
    ensures Ok(cfg, WithUart(s, held))
  {
    hide SafeLog, Replay, EventsOf, DelayAfter, DelaysInLog;
    Effects(cfg, s, if held then TookUartLock else GaveUartLock);
  }

  /** The record of the epoch just counted. */
  function Recorded(s: State): State {
    s.(log := s.log + [OpenedEpoch], paths := Some(s.epoch), epochs := s.epochs + [EpochRecord(s.epoch, false, None)],
       marks := s.marks.(heard := None))
  }

  lemma RecordedOk(cfg: Config, s: State)
    requires Ok(cfg, s) && !s.EpochOpen() && s.epoch == |s.epochs| + 1
    ensures Ok(cfg, Recorded(s)) && Recorded(s).EpochOpen()
  {
    hide SafeLog, Replay, EventsOf, DelayAfter, DelaysInLog, Marked;
    StartsMark(s.marks, OpenedEpoch);
    Effects(cfg, s, OpenedEpoch);
  }

  function CloseEpoch(s: State): State {
    if !s.EpochOpen() then s
    else s.(log := s.log + [ClosedEpoch], epochs := s.epochs[|s.epochs| - 1 := s.epochs[|s.epochs| - 1].(ended := true)])
  }

  lemma CloseEpochOk(cfg: Config, s: State)
    requires Ok(cfg, s)
    ensures Ok(cfg, CloseEpoch(s)) && !CloseEpoch(s).EpochOpen()
  {
    hide SafeLog, Replay, EventsOf, DelayAfter, DelaysInLog;
    Effects(cfg, s, ClosedEpoch);
  }

  function NoteExit(s: State, exitCode: Option<int>): State {
    if exitCode.Some? && s.EpochOpen() && s.epochs[|s.epochs| - 1].exitCode.None? then
      s.(epochs := s.epochs[|s.epochs| - 1 := s.epochs[|s.epochs| - 1].(exitCode := exitCode)])
    else s
  }

  lemma NoteExitOk(cfg: Config, s: State, exitCode: Option<int>)
    requires Ok(cfg, s)
    ensures Ok(cfg, NoteExit(s, exitCode)) && NoteExit(s, exitCode).EpochOpen() == s.EpochOpen()
    ensures |NoteExit(s, exitCode).epochs| == |s.epochs|
  {
    hide SafeLog, Replay, EventsOf, DelayAfter, DelaysInLog;
  }

  function Adopted(s: State, pid: int, role: Role): State {
    if role.Capture? then
      s.(owned := s.owned[pid := role], events := s.events + [Started(pid, role)], log := s.log + [OwnedCapture(pid)],
         activeCapture := Some(pid), marks := s.marks.(heard := None))
    else
      s.(owned := s.owned[pid := role], events := s.events + [Started(pid, role)], log := s.log + [OwnedViewer(pid)],
         activeViewer := Some(pid), marks := s.marks.(launching := false, viewerExited := false))
  }

  lemma AdoptedOk(cfg: Config, s: State, pid: int, role: Role)
    requires Ok(cfg, s) && pid !in s.owned && (if role.Capture? then s.activeCapture == None else s.activeViewer == None)
    ensures Ok(cfg, Adopted(s, pid, role))
  {
    hide SafeLog, Replay, EventsOf, DelayAfter, DelaysInLog, Marked;
    StartsMark(s.marks, if role.Capture? then OwnedCapture(pid) else OwnedViewer(pid));
    Effects(cfg, s, if role.Capture? then OwnedCapture(pid) else OwnedViewer(pid));
    var t := Adopted(s, pid, role);
    assert t.owned.Keys == s.owned.Keys + {pid};
    assert ChildrenOk(t);
  }

  /** The end of a child among the events; its manifest write comes next. */
  function EndNoted(s: State, pid: int, role: Role): State {
    s.(log := s.log + [NotedEnd(pid, role)], events := s.events + [Ended(pid, role)])
  }

  /** The manifest write raised: the child stays registered. */
  function EndKept(s: State, pid: int, role: Role): State {
    Did(EndNoted(s, pid, role), EndWriteRaised(pid))
  }

  /** There is a cause to stop the child. */
  predicate MayStop(s: State, pid: int) {
    || s.marks.cleaning || Unsound(s.marks.heard)
    || (s.activeViewer == Some(pid) && (s.marks.switching || s.marks.viewerExited))
  }

  lemma EndKeptOk(cfg: Config, s: State, pid: int, role: Role)
    requires Ok(cfg, s) && pid in s.owned && MayStop(s, pid)
    ensures Ok(cfg, EndKept(s, pid, role))
  {
    hide SafeLog, Replay, EventsOf, DelayAfter, DelaysInLog, Marked;
    EndsLeaveMarks(s.marks, NotedEnd(pid, role));
    EndsLeaveMarks(s.marks, EndWriteRaised(pid));
    Effects(cfg, s, NotedEnd(pid, role));
    Effects(cfg, EndNoted(s, pid, role), EndWriteRaised(pid));
  }

  /** The child is no longer registered. */
  function Dropped(s: State, pid: int): State {
    s.(log := s.log + [ChildGone(pid)], owned := s.owned - {pid},
      activeCapture := if s.activeCapture == Some(pid) then None else s.activeCapture,
      activeViewer := if s.activeViewer == Some(pid) then None else s.activeViewer)
  }

  lemma DroppedOk(cfg: Config, s: State, pid: int, role: Role)
    requires Ok(cfg, s) && pid in s.owned && MayStop(s, pid)
    ensures Ok(cfg, Dropped(EndNoted(s, pid, role), pid))
  {
    hide SafeLog, Replay, EventsOf, DelayAfter, DelaysInLog, Marked;
    EndsLeaveMarks(s.marks, NotedEnd(pid, role));
    EndsLeaveMarks(s.marks, ChildGone(pid));
    Effects(cfg, s, NotedEnd(pid, role));
    Effects(cfg, EndNoted(s, pid, role), ChildGone(pid));
    DroppedChildren(s, pid, role);
    assert CustodyOk(Dropped(EndNoted(s, pid, role), pid));
  }

  lemma DroppedChildren(s: State, pid: int, role: Role)
    requires ChildrenOk(s) && pid in s.owned
    ensures ChildrenOk(Dropped(EndNoted(s, pid, role), pid))
  {
    assert Dropped(EndNoted(s, pid, role), pid).owned.Keys == s.owned.Keys - {pid};
  }

  function EpochVerified(s: State): State {
    s.(log := s.log + [VerifiedEpoch], watching := true, verifiedPaths := s.paths, marks := s.marks.(launching := false))
  }

  lemma EpochVerifiedOk(cfg: Config, s: State)
    requires Ok(cfg, s) && s.Capturing() && s.marks.heard == Some(WhileVerifying(None, false, true))
    ensures Ok(cfg, EpochVerified(s)) && EpochVerified(s).Verified()
  {
    hide SafeLog, Replay, EventsOf, DelayAfter, DelaysInLog;
    Effects(cfg, s, VerifiedEpoch);
  }

  function Unwatched(s: State): State {
    s.(log := s.log + [WatchdogDropped], watching := false)
  }

  lemma UnwatchedOk(cfg: Config, s: State)
    requires Ok(cfg, s)
    ensures Ok(cfg, Unwatched(s))
  {
    hide SafeLog, Replay, EventsOf, DelayAfter, DelaysInLog;
    Effects(cfg, s, WatchdogDropped);
  }

  function Resting(m: Marks): Marks {
    m.(rested := true, launching := false, backoffs := m.backoffs + 1)
  }

  lemma DelayMarks(m: Marks, e: Effect)
    ensures e.BackedOff? ==> Marked(m, e) == Resting(m)
    ensures e.DelayWasReset? ==> Marked(m, e) == m.(backoffs := 0)
  {
  }

  /** A back-off: the present delay is waited and doubled, up to the maximum. */
  function Delayed(cfg: Config, s: State): State {
    s.(log := s.log + [BackedOff(s.retryDelay)], retryDelay := MinReal(cfg.retryMax, s.retryDelay * 2.0), marks := Resting(s.marks))
  }

  function DelayReset(cfg: Config, s: State, healthy: real): State {
    s.(log := s.log + [DelayWasReset(healthy)], retryDelay := cfg.retryInitial, marks := s.marks.(backoffs := 0))
  }

  lemma DelayedOk(cfg: Config, s: State)
    requires Ok(cfg, s)
    ensures Ok(cfg, Delayed(cfg, s))
  {
    hide SafeLog, Replay, EventsOf, DelayAfter, DelaysInLog, Marked;
    DelayMarks(s.marks, BackedOff(s.retryDelay));
    Effects(cfg, s, BackedOff(s.retryDelay));
    DelayDoubles(cfg, s.marks.backoffs);
  }

  lemma DelayResetOk(cfg: Config, s: State, healthy: real)
    requires Ok(cfg, s) && s.Verified() && Sound(s.marks.heard) && healthy >= cfg.stableRunningReset
    ensures Ok(cfg, DelayReset(cfg, s, healthy))
  {
    hide SafeLog, Replay, EventsOf, DelayAfter, DelaysInLog, Marked;
    DelayMarks(s.marks, DelayWasReset(healthy));
    Effects(cfg, s, DelayWasReset(healthy));
    DelayDoubles(cfg, 0);
  }

  lemma ResetMarks(m: Marks)
    ensures Marked(m, RanReset) == m.(rested := false, resetDone := false) && Marked(m, ResetDone) == m.(resetDone := true)
  {
  }

  /** The paths of the last verified epoch again; nothing else reads them before the next epoch. */
  function Restored(s: State): State {
    s.(paths := s.verifiedPaths)
  }

  lemma RestoredOk(cfg: Config, s: State)
    requires Ok(cfg, s)
    ensures Ok(cfg, Restored(s)) && Restored(s).EpochOpen() == s.EpochOpen()
  {
    hide SafeLog, Replay, EventsOf, DelayAfter, DelaysInLog;
  }

  /** The epoch counter is raised before the paths are allocated, which may raise an exception. */
  function Counted(s: State): State {
    s.(epoch := s.epoch + 1)
  }

  lemma CountedOk(cfg: Config, s: State)
    requires Ok(cfg, s)
    ensures Ok(cfg, Counted(s))
  {
    hide SafeLog, Replay, EventsOf, DelayAfter, DelaysInLog;
  }

  function Began(cfg: Config): State {
    State(WaitPort, 0, false, false, None, None, [], [], map[], None, None, false, false, cfg.retryInitial, [], UNMARKED)
  }

  lemma BeganOk(cfg: Config)
    requires 0.0 < cfg.retryInitial <= cfg.retryMax
    ensures Ok(cfg, Began(cfg)) && Began(cfg).Quiet()
  {
    DelayDoubles(cfg, 0);
  }

  // --- A script that ends in an imbalance ---------------------------------------------------

  /** An answer with which every step up to the verification of a first capture, process 7, goes on. */
  const GO := Answer(false, false, Selected, false, 7, Capture, None, false, false, 0.0, [])

  predicate Going(script: seq<Answer>, n: nat) {
    n <= |script| && forall i | 0 <= i < n :: script[i] == GO
  }

  /** One answer was used, if there was one, and said whether the step raised. */
  predicate Told(before: seq<Answer>, after: seq<Answer>, ok: bool) {
    before != [] ==> ok == !before[0].fails && after == before[1..]
  }

  /** `n` answers were used. */
  predicate Past(before: seq<Answer>, after: seq<Answer>, n: nat) {
    n <= |before| && after == before[n..]
  }

  lemma GoesLess(script: seq<Answer>, n: nat, m: nat)
    requires m <= n
    ensures Going(script, n) ==> Going(script, m)
  {
  }

  /** After `n` of `n + m` answers to go on, `m` are left, and after those `n + m` were used. */
  lemma GoesOn(before: seq<Answer>, now: seq<Answer>, n: nat, m: nat)
    ensures Going(before, n + m) && Past(before, now, n) ==> Going(now, m)
  {
  }

  lemma PastBoth(before: seq<Answer>, now: seq<Answer>, after: seq<Answer>, n: nat, m: nat)
    ensures Past(before, now, n) && Past(now, after, m) ==> Past(before, after, n + m)
  {
  }

  /** `n` answers to go on, then the request to stop. */
  predicate StopsAt(script: seq<Answer>, n: nat) {
    n < |script| && Going(script, n) && script[n].stop
  }

  lemma StopComesCloser(script: seq<Answer>, n: nat, m: nat)
    requires StopsAt(script, n) && m <= n
    ensures m <= |script| && StopsAt(script[m..], n - m) && Going(script, m)
    ensures n > 0 ==> script != [] && script[0] == GO
  {
  }

  lemma StopIsHere(script: seq<Answer>)
    requires StopsAt(script, 0)
    ensures script != [] && script[0].stop
  {
  }

  /** The cleanup reports the end of process 7, and the manifest write that records it raises. */
  predicate RaisesOnCapture(script: seq<Answer>) {
    |script| >= 2 && script[0].reports == [StopReport(7, Capture, 0)] && script[1].fails
  }

  /**
   The first capture starts; while it is being verified the supervisor is asked
   to stop; the cleanup reports the capture's end, and the manifest write that
   records it raises.
   */
  predicate Doomed(script: seq<Answer>) {
    |script| >= 21 && StopsAt(script, 18) && RaisesOnCapture(script[19..])
  }

  // --- The supervisor -----------------------------------------------------------------------

  class RadarSupervisor {
    const cfg: Config
    var script: seq<Answer>
    var phase: Phase
    var epoch: nat
    var ownerLock: bool
    var uartLock: bool
    var paths: Option<nat>
    var verifiedPaths: Option<nat>
    var epochs: seq<EpochRecord>
    var events: seq<ProcessEvent>
    var owned: map<int, Role>
    var activeCapture: Option<int>
    var activeViewer: Option<int>
    var watching: bool
    var engaged: bool
    var retryDelay: real
    ghost var log: seq<Effect>
    ghost var marks: Marks

    ghost function View(): State
      reads this`phase, this`epoch, this`ownerLock, this`uartLock, this`paths, this`verifiedPaths, this`epochs, this`events,
            this`owned, this`activeCapture, this`activeViewer, this`watching, this`engaged, this`retryDelay, this`log, this`marks
    {
      State(phase, epoch, ownerLock, uartLock, paths, verifiedPaths, epochs, events, owned, activeCapture, activeViewer,
            watching, engaged, retryDelay, log, marks)
    }

    /** As `State.EpochOpen`, and so below, but on the fields they depend on. */
    ghost predicate EpochOpen()
      reads this`epochs
    {
      epochs != [] && !epochs[|epochs| - 1].ended
    }

    ghost predicate Capturing()
      reads this`activeCapture, this`epochs, this`epoch, this`paths
    {
      activeCapture.Some? && EpochOpen() && epoch == |epochs| && paths == Some(|epochs|)
    }

    ghost predicate Verified()
      reads this`activeCapture, this`epochs, this`epoch, this`paths, this`watching, this`verifiedPaths
    {
      epoch == |epochs| && activeCapture.Some? && watching && EpochOpen() && verifiedPaths == Some(|epochs|) && paths == verifiedPaths
    }

    ghost predicate Quiet()
      reads this`activeCapture, this`epochs, this`epoch
    {
      activeCapture == None && !EpochOpen() && epoch == |epochs|
    }

    constructor (cfg: Config, script: seq<Answer>)
      requires 0.0 < cfg.retryInitial <= cfg.retryMax
      ensures this.cfg == cfg && View() == Began(cfg) && this.script == script
    {
      this.cfg, this.script := cfg, script;
      phase, epoch, ownerLock, uartLock, paths, verifiedPaths := WaitPort, 0, false, false, None, None;
      epochs, events, owned, activeCapture, activeViewer := [], [], map[], None, None;
      watching, engaged, retryDelay := false, false, cfg.retryInitial;
      log, marks := [], UNMARKED;
    }

    // --- Questions to the outside world -----------------------------------------------

    method Ask() returns (a: Answer)
      modifies this`script
      ensures |script| < |old(script)| || (a == USED_UP && script == old(script) == [])
      ensures old(script) != [] ==> a == old(script)[0] && script == old(script)[1..]
    {
      if script == [] {
        return USED_UP;
      }
      a := script[0];
      script := script[1..];
    }

    method StopRequested() returns (stop: bool)
      modifies this`script
      ensures |script| < |old(script)| || (stop && script == old(script))
      ensures old(script) != [] ==> stop == old(script)[0].stop && script == old(script)[1..]
    {
      var a := Ask();
      stop := a.stop;
    }

    /** Write the manifest; false when that raises. */
    method Persist() returns (ok: bool)
      modifies this`script
      ensures |script| <= |old(script)| && (Going(old(script), 1) ==> ok && Past(old(script), script, 1))
      ensures Told(old(script), script, ok)
    {
      var a := Ask();
      ok := !a.fails;
    }

    ghost predicate MayEnter(p: Phase)
      reads this`activeCapture, this`epochs, this`epoch, this`paths, this`watching, this`verifiedPaths, this`activeViewer, this`marks
    {
      (p.Running? ==> Verified() && activeViewer.Some? && Sound(marks.heard)) && (p.Stopped? ==> !EpochOpen())
    }

    method Transition(p: Phase) returns (ok: bool)
      requires Ok(cfg, View()) && MayEnter(p)
      modifies this`script, this`phase, this`log, this`marks
      ensures Ok(cfg, View()) && |script| <= |old(script)|
      ensures phase == p && log == old(log) + [Entered(p)] && marks == Entering(old(marks), p)
      ensures Going(old(script), 1) ==> ok && Past(old(script), script, 1)
      ensures Told(old(script), script, ok)
    {
      hide Ok, View, Entering, MayEnter;
      EnterPhase(p);
      ok := Persist();
    }

    method EnterPhase(p: Phase)
      requires Ok(cfg, View()) && MayEnter(p)
      modifies this`phase, this`log, this`marks
      ensures Ok(cfg, View()) && phase == p && log == old(log) + [Entered(p)] && marks == Entering(old(marks), p)
    {
      hide Ok, Entering;
      EnterOk(cfg, View(), p);
      phase, log, marks := p, log + [Entered(p)], Entering(marks, p);
    }

    ghost method Hear(news: News)
      requires Ok(cfg, View())
      modifies this`log, this`marks
      ensures Ok(cfg, View()) && log == old(log) + [Heard(news)] && marks == Marked(old(marks), Heard(news))
    {
      hide Ok;
      DidOk(cfg, View(), Heard(news));
      log, marks := log + [Heard(news)], Marked(marks, Heard(news));
    }

    /** The ports there are; false when looking raises. */
    method LookForPort() returns (ok: bool, presence: Presence)
      requires Ok(cfg, View())
      modifies this`script, this`log, this`marks
      ensures Ok(cfg, View()) && |script| <= |old(script)|
      ensures log == if ok then old(log) + [Heard(Ports(presence))] else old(log)
      ensures marks == if ok then Sighting(old(marks), presence) else old(marks)
      ensures old(script) != [] ==>
        ok == !old(script)[0].fails && presence == old(script)[0].presence && script == old(script)[1..]
    {
      hide Ok, View;
      var a := Ask();
      ok, presence := !a.fails, a.presence;
      if ok {
        Hear(Ports(presence));
      }
    }

    // --- Waiting ------------------------------------------------------------------------

    method WaitForPort() returns (o: Outcome)
      requires Ok(cfg, View())
      modifies this`script, this`log, this`marks
      ensures Ok(cfg, View()) && OnlyPorts(old(marks), marks)
      ensures o.Ready? || o.StopAsked? || o.Failed?
      ensures o.Ready? ==> marks.port == Some(Selected)
      ensures |script| < |old(script)| || (o.StopAsked? && script == old(script))
      ensures Going(old(script), 2) ==> o.Ready? && Past(old(script), script, 2)
    {
      hide Ok;
      while true
        invariant Ok(cfg, View()) && OnlyPorts(old(marks), marks)
        invariant |script| < |old(script)| || script == old(script)
        invariant Going(old(script), 2) ==> script == old(script)
        decreases |script|
      {
        var stop := StopRequested();
        if stop {
          return StopAsked;
        }
        var ok, presence := LookForPort();
        if !ok {
          return Failed;
        }
        if presence.Selected? {
          return Ready;
        }
        stop := StopRequested();
        if stop {
          return StopAsked;
        }
      }
    }

    method WaitForUsbCycle() returns (o: Outcome)
      requires Ok(cfg, View())
      modifies this`script, this`phase, this`log, this`marks
      ensures Ok(cfg, View()) && |script| <= |old(script)| && OnlyPorts(old(marks), marks)
      ensures o.Ready? || o.StopAsked? || o.Failed?
      ensures o.Ready? ==> marks.port == Some(Selected) && marks.absent
    {
      hide Ok, View;
      var ok := Transition(Recovering);
      if !ok {
        return Failed;
      }
      o := AwaitCycle();
    }

    /** The port has to be seen absent before it counts as present again. */
    method AwaitCycle() returns (o: Outcome)
      requires Ok(cfg, View())
      modifies this`script, this`log, this`marks
      ensures Ok(cfg, View()) && |script| <= |old(script)| && OnlyPorts(old(marks), marks)
      ensures o.Ready? || o.StopAsked? || o.Failed?
      ensures o.Ready? ==> marks.port == Some(Selected) && marks.absent
    {
      hide Ok;
      var absenceSeen := false;
      while true
        invariant Ok(cfg, View()) && |script| <= |old(script)| && OnlyPorts(old(marks), marks)
        invariant absenceSeen ==> marks.absent
        decreases |script|
      {
        var stop := StopRequested();
        if stop {
          return StopAsked;
        }
        var ok, presence := LookForPort();
        if !ok {
          return Failed;
        }
        if presence.Missing? {
          absenceSeen := true;
        } else if absenceSeen && presence.Selected? {
          return Ready;
        }
        stop := StopRequested();
        if stop {
          return StopAsked;
        }
      }
    }

    /** Sleep the current delay, then double it up to the maximum. */
    method Backoff() returns (go: bool)
      requires Ok(cfg, View())
      modifies this`script, this`retryDelay, this`log, this`marks
      ensures Ok(cfg, View()) && |script| <= |old(script)|
      ensures Waited(old(log), log, old(retryDelay)) || (!go && log == old(log) && marks == old(marks) && retryDelay == old(retryDelay))
      ensures Waited(old(log), log, old(retryDelay)) ==> marks == Resting(old(marks))
    {
      hide Ok, View;
      var stop := StopRequested();
      if stop {
        return false;
      }
      DoubleDelay();
      stop := StopRequested();
      return !stop;
    }

    /** The delay was waited once, and then doubled up to the maximum. */
    ghost predicate Waited(before: seq<Effect>, after: seq<Effect>, delay: real)
      reads this`retryDelay
    {
      after == before + [BackedOff(delay)] && retryDelay == MinReal(cfg.retryMax, delay * 2.0)
    }

    method DoubleDelay()
      requires Ok(cfg, View())
      modifies this`retryDelay, this`log, this`marks
      ensures Ok(cfg, View()) && marks == Resting(old(marks))
      ensures log == old(log) + [BackedOff(old(retryDelay))] && retryDelay == MinReal(cfg.retryMax, old(retryDelay) * 2.0)
    {
      hide Ok, MinReal, Resting;
      DelayedOk(cfg, View());
      retryDelay, log, marks := MinReal(cfg.retryMax, retryDelay * 2.0), log + [BackedOff(retryDelay)], Resting(marks);
    }

    // --- Children ----------------------------------------------------------------------

    /** Register a started child and make it the active one of its role. */
    method Adopt(pid: int, role: Role, expected: Role) returns (ok: bool)
      requires Ok(cfg, View()) && (if expected.Capture? then activeCapture == None else activeViewer == None)
      modifies this`owned, this`events, this`activeCapture, this`activeViewer, this`log, this`marks
      ensures Ok(cfg, View()) && ok == (role == expected && pid > 0 && pid !in old(owned))
      ensures owned == if ok then old(owned)[pid := expected] else old(owned)
      ensures events == if ok then old(events) + [Started(pid, expected)] else old(events)
      ensures log == if !ok then old(log) else old(log) + [if expected.Capture? then OwnedCapture(pid) else OwnedViewer(pid)]
      ensures activeCapture == if ok && expected.Capture? then Some(pid) else old(activeCapture)
      ensures activeViewer == if ok && expected.Viewer? then Some(pid) else old(activeViewer)
      ensures marks == if !ok then old(marks) else if expected.Capture? then old(marks).(heard := None)
                       else old(marks).(launching := false, viewerExited := false)
    {
      if role != expected || pid <= 0 || pid in owned {
        return false;
      }
      AdoptedOk(cfg, View(), pid, role);
      hide Ok;
      if role.Capture? {
        RegisterCaptureChild(pid);
      } else {
        RegisterViewerChild(pid);
      }
      return true;
    }

    method RegisterCaptureChild(pid: int)
      modifies this`owned, this`events, this`activeCapture, this`log, this`marks
      ensures View() == Adopted(old(View()), pid, Capture)
    {
      owned, events := owned[pid := Capture], events + [Started(pid, Capture)];
      activeCapture, log, marks := Some(pid), log + [OwnedCapture(pid)], marks.(heard := None);
    }

    method RegisterViewerChild(pid: int)
      modifies this`owned, this`events, this`activeViewer, this`log, this`marks
      ensures View() == Adopted(old(View()), pid, Viewer)
    {
      owned, events := owned[pid := Viewer], events + [Started(pid, Viewer)];
      activeViewer, log, marks := Some(pid), log + [OwnedViewer(pid)], marks.(launching := false, viewerExited := false);
    }

    method SetCaptureExitCode(exitCode: Option<int>)
      modifies this`epochs
      ensures View() == NoteExit(old(View()), exitCode)
    {
      if exitCode.Some? && epochs != [] && !epochs[|epochs| - 1].ended && epochs[|epochs| - 1].exitCode.None? {
        epochs := epochs[|epochs| - 1 := epochs[|epochs| - 1].(exitCode := exitCode)];
      }
    }

    /** Record the end of a registered child; when the manifest write raises the child stays registered. */
    method RecordStop(pid: int, role: Role) returns (ok: bool)
      requires Ok(cfg, View()) && pid in owned && MayStop(View(), pid)
      modifies this`script, this`events, this`owned, this`activeCapture, this`activeViewer, this`log
      ensures Ok(cfg, View()) && |script| <= |old(script)|
      ensures View() == if ok then Dropped(EndNoted(old(View()), pid, role), pid) else EndKept(old(View()), pid, role)
      ensures old(script) != [] ==> ok == !old(script)[0].fails
    {
      hide Ok, Dropped, EndNoted;
      EndKeptOk(cfg, View(), pid, role);
      DroppedOk(cfg, View(), pid, role);
      NoteEnd(pid, role);
      ok := Persist();
      if ok {
        Drop(pid);
      } else {
        log := log + [EndWriteRaised(pid)];
      }
    }

    method NoteEnd(pid: int, role: Role)
      modifies this`events, this`log
      ensures View() == EndNoted(old(View()), pid, role)
    {
      events := events + [Ended(pid, role)];
      log := log + [NotedEnd(pid, role)];
    }

    method Drop(pid: int)
      modifies this`owned, this`activeCapture, this`activeViewer, this`log
      ensures View() == Dropped(old(View()), pid)
    {
      owned := owned - {pid};
      if activeCapture == Some(pid) {
        activeCapture := None;
      }
      if activeViewer == Some(pid) {
        activeViewer := None;
      }
      log := log + [ChildGone(pid)];
    }

    /** `_stop_active_child` on the capture. */
    method StopCapture() returns (ok: bool)
      requires Ok(cfg, View()) && activeCapture.Some? && (Unsound(marks.heard) || marks.cleaning)
      modifies this`script, this`events, this`owned, this`activeCapture, this`activeViewer, this`log, this`epochs
      ensures Ok(cfg, View()) && |script| <= |old(script)| && EpochOpen() == old(EpochOpen())
      ensures |epochs| == |old(epochs)| && (ok ==> activeCapture == None)
    {
      var a := Ask();
      if a.fails {
        return false;
      }
      NoteExitOk(cfg, View(), a.exitCode);
      hide Ok, NoteExit;
      SetCaptureExitCode(a.exitCode);
      ok := EndCapture();
    }

    method EndCapture() returns (ok: bool)
      requires Ok(cfg, View()) && activeCapture.Some? && (Unsound(marks.heard) || marks.cleaning)
      modifies this`script, this`events, this`owned, this`activeCapture, this`activeViewer, this`log
      ensures Ok(cfg, View()) && |script| <= |old(script)| && (ok ==> activeCapture == None)
    {
      hide Ok, Dropped, EndNoted;
      CaptureRegistered(cfg, View());
      StopLeaves(View(), activeCapture.value, Capture);
      ok := RecordStop(activeCapture.value, Capture);
    }

    method StopViewer() returns (ok: bool)
      requires Ok(cfg, View()) && activeViewer.Some? && (Unsound(marks.heard) || marks.switching || marks.viewerExited)
      modifies this`script, this`events, this`owned, this`activeCapture, this`activeViewer, this`log
      ensures Ok(cfg, View()) && |script| <= |old(script)|
      ensures ok ==> activeViewer == None && activeCapture == old(activeCapture)
    {
      hide Ok, Dropped, EndNoted;
      var a := Ask();
      if a.fails {
        return false;
      }
      CaptureRegistered(cfg, View());
      StopLeaves(View(), activeViewer.value, Viewer);
      ok := RecordStop(activeViewer.value, Viewer);
    }

    method FinalizeEpoch() returns (ok: bool)
      requires Ok(cfg, View())
      modifies this`script, this`epochs, this`log
      ensures View() == CloseEpoch(old(View())) && Ok(cfg, View()) && !EpochOpen() && |script| <= |old(script)|
      ensures |epochs| == |old(epochs)|
    {
      hide Ok;
      CloseEpochOk(cfg, View());
      var closing := epochs != [] && !epochs[|epochs| - 1].ended;
      CloseLast();
      hide CloseEpoch;
      ok := true;
      if closing {
        ok := Persist();
      }
    }

    method CloseLast()
      modifies this`epochs, this`log
      ensures View() == CloseEpoch(old(View())) && |epochs| == |old(epochs)|
    {
      if epochs != [] && !epochs[|epochs| - 1].ended {
        epochs := epochs[|epochs| - 1 := epochs[|epochs| - 1].(ended := true)];
        log := log + [ClosedEpoch];
      }
    }

    // --- One attempt ---------------------------------------------------------------------

    method TakeLocks() returns (ok: bool)
      requires Ok(cfg, View())
      modifies this`script, this`ownerLock, this`uartLock, this`log
      ensures Ok(cfg, View()) && |script| <= |old(script)|
      ensures ok ==> ownerLock && uartLock
      ensures Going(old(script), 2) && !old(ownerLock) && !old(uartLock) ==> ok && Past(old(script), script, 2)
    {
      hide Ok;
      if !ownerLock {
        var a := Ask();
        if a.fails {
          return false;
        }
        OwnerOk(cfg, View(), true);
        ownerLock, log := true, log + [TookOwnerLock];
      }
      if !uartLock {
        var a := Ask();
        if a.fails {
          return false;
        }
        UartOk(cfg, View(), true);
        uartLock, log := true, log + [TookUartLock];
      }
      return true;
    }

    /** After a failed step: note it, back off, and try again unless asked to stop. */
    method RetryAfter(p: Phase) returns (o: Outcome)
      requires Ok(cfg, View()) && !p.Running? && !p.Stopped?
      modifies this`script, this`phase, this`log, this`marks, this`retryDelay
      ensures Ok(cfg, View()) && |script| <= |old(script)|
      ensures o.Retry? || o.StopAsked? || o.Failed?
      ensures SameRun(old(marks), marks) && (o.Retry? ==> marks.rested) && (old(marks).absent ==> marks.absent)
    {
      hide Ok, View;
      var ok := Transition(p);
      if !ok {
        return Failed;
      }
      var go := Backoff();
      return if go then Retry else StopAsked;
    }

    method Perform(e: Effect) returns (a: Answer)
      requires Ok(cfg, View()) && CanDo(View(), e)
      modifies this`script, this`log, this`marks
      ensures Ok(cfg, View()) && |script| <= |old(script)| && log == old(log) + [e] && marks == Marked(old(marks), e)
      ensures old(script) != [] ==> a == old(script)[0] && script == old(script)[1..]
    {
      hide Ok;
      DidOk(cfg, View(), e);
      log, marks := log + [e], Marked(marks, e);
      a := Ask();
    }

    /** The port may be configured now. */
    ghost predicate Configurable()
      reads this`marks
    {
      marks.port == Some(Selected) && (marks.resetDone || !marks.recovering || marks.absent)
    }

    /** Port, locks and reset. */
    method ResetPort(recovering: bool, absenceSeen: bool) returns (o: Outcome)
      requires Ok(cfg, View()) && activeCapture == None
      requires marks.rested && marks.recovering == recovering && (absenceSeen ==> marks.absent)
      modifies this`script, this`phase, this`log, this`marks, this`ownerLock, this`uartLock, this`retryDelay
      ensures Ok(cfg, View()) && SameRun(old(marks), marks)
      ensures |script| < |old(script)| || o.StopAsked? || o.Failed?
      ensures o.Ready? ==> ownerLock && uartLock && Configurable()
      ensures o.Retry? ==> marks.rested
      ensures Going(old(script), 10) && !recovering && !old(ownerLock) && !old(uartLock) ==> o.Ready? && Past(old(script), script, 10)
    {
      hide Ok, View, Going, Past;
      ghost var s0 := script;
      GoesLess(s0, 10, 5);
      o := TakePort();
      ghost var s1 := script;
      GoesOn(s0, s1, 5, 5);
      if o.Ready? {
        o := RunReset(recovering, absenceSeen);
        PastBoth(s0, s1, script, 5, 5);
      }
    }

    /** The port present and both locks held. */
    method TakePort() returns (o: Outcome)
      requires Ok(cfg, View())
      modifies this`script, this`phase, this`log, this`marks, this`ownerLock, this`uartLock
      ensures Ok(cfg, View()) && OnlyPorts(old(marks), marks)
      ensures |script| < |old(script)| || o.StopAsked? || o.Failed?
      ensures o.Ready? ==> ownerLock && uartLock && marks.port == Some(Selected)
      ensures o.Ready? || o.StopAsked? || o.Failed?
      ensures Going(old(script), 5) && !old(ownerLock) && !old(uartLock) ==> o.Ready? && Past(old(script), script, 5)
    {
      hide Ok, View, Going, Past;
      ghost var s0 := script;
      GoesLess(s0, 5, 3);
      o := WaitAgain();
      ghost var s1 := script;
      GoesOn(s0, s1, 3, 2);
      if !o.Ready? {
        return;
      }
      var ok := TakeLocks();
      PastBoth(s0, s1, script, 3, 2);
      return if ok then Ready else Failed;
    }

    /** The target may be reset now. */
    ghost predicate Resettable()
      reads this`activeCapture, this`ownerLock, this`uartLock, this`marks
    {
      activeCapture == None && ownerLock && uartLock && marks.rested && marks.port == Some(Selected)
    }

    method RunReset(recovering: bool, absenceSeen: bool) returns (o: Outcome)
      requires Ok(cfg, View()) && Resettable() && marks.recovering == recovering && (absenceSeen ==> marks.absent)
      modifies this`script, this`phase, this`log, this`marks, this`retryDelay
      ensures Ok(cfg, View()) && |script| <= |old(script)| && SameRun(old(marks), marks)
      ensures o.Ready? ==> Configurable()
      ensures o.Retry? ==> marks.rested
      ensures Going(old(script), 5) && !recovering ==> o.Ready? && Past(old(script), script, 5)
    {
      hide Ok, Going, Past, View;
      ghost var s0 := script;
      GoesLess(s0, 5, 2);
      var ok, tried, executed := TryReset();
      if !ok {
        return Failed;
      }
      ghost var s1 := script;
      GoesOn(s0, s1, 2, 3);
      if tried {
        o := AfterReset(recovering, absenceSeen, executed);
        PastBoth(s0, s1, script, 2, 3);
      } else {
        o := RetryAfter(ResetTarget);
      }
    }

    /** `ok` is false when the transition raised, `tried` when the reset did. */
    method TryReset() returns (ok: bool, tried: bool, executed: bool)
      requires Ok(cfg, View()) && Resettable()
      modifies this`script, this`phase, this`log, this`marks
      ensures Ok(cfg, View()) && |script| <= |old(script)|
      ensures ok ==> marks == old(marks).(rested := false, resetDone := tried && executed, switching := false)
      ensures !ok ==> marks == old(marks).(switching := false)
      ensures Going(old(script), 2) ==> ok && tried && !executed && Past(old(script), script, 2)
    {
      hide Ok, View, Going, Past;
      ghost var s0 := script;
      GoesLess(s0, 2, 1);
      ok := Transition(ResetTarget);
      tried, executed := false, false;
      ghost var s1 := script;
      GoesOn(s0, s1, 1, 1);
      if ok {
        tried, executed := PerformReset();
        PastBoth(s0, s1, script, 1, 1);
      }
    }

    method PerformReset() returns (tried: bool, executed: bool)
      requires Ok(cfg, View()) && Resettable()
      modifies this`script, this`log, this`marks
      ensures Ok(cfg, View()) && |script| <= |old(script)|
      ensures marks == old(marks).(rested := false, resetDone := tried && executed)
      ensures Going(old(script), 1) ==> tried && !executed && Past(old(script), script, 1)
    {
      hide Ok, Marked;
      ResetMarks(marks);
      var a := Perform(RanReset);
      tried, executed := !a.fails, a.yes;
      if tried && executed {
        ResetMarks(marks);
        Note(ResetDone);
      }
    }

    /** The port again: at once after a reset that was carried out, after its absence when there was none in a recovery. */
    method AfterReset(recovering: bool, absenceSeen: bool, executed: bool) returns (o: Outcome)
      requires Ok(cfg, View()) && marks.port == Some(Selected) && marks.recovering == recovering
      requires (absenceSeen ==> marks.absent) && (executed ==> marks.resetDone)
      modifies this`script, this`phase, this`log, this`marks
      ensures Ok(cfg, View()) && |script| <= |old(script)| && OnlyPorts(old(marks), marks)
      ensures o.Ready? ==> Configurable()
      ensures o.Ready? || o.StopAsked? || o.Failed?
      ensures Going(old(script), 3) && !recovering ==> o.Ready? && Past(old(script), script, 3)
    {
      hide Ok, View, Going;
      if executed || !recovering {
        o := WaitAgain();
      } else if !absenceSeen {
        o := WaitForUsbCycle();
      } else {
        o := Ready;
      }
    }

    ghost method Note(e: Effect)
      requires Ok(cfg, View()) && CanDo(View(), e)
      modifies this`log, this`marks
      ensures Ok(cfg, View()) && log == old(log) + [e] && marks == Marked(old(marks), e)
    {
      hide Ok;
      DidOk(cfg, View(), e);
      log, marks := log + [e], Marked(marks, e);
    }

    method WaitAgain() returns (o: Outcome)
      requires Ok(cfg, View())
      modifies this`script, this`phase, this`log, this`marks
      ensures Ok(cfg, View()) && |script| <= |old(script)| && OnlyPorts(old(marks), marks)
      ensures o.Ready? || o.StopAsked? || o.Failed?
      ensures o.Ready? ==> marks.port == Some(Selected) && |script| < |old(script)|
      ensures Going(old(script), 3) ==> o.Ready? && Past(old(script), script, 3)
    {
      hide Ok, View, Going, Past;
      ghost var s0 := script;
      GoesLess(s0, 3, 1);
      var ok := Transition(WaitPort);
      if !ok {
        return Failed;
      }
      ghost var s1 := script;
      GoesOn(s0, s1, 1, 2);
      o := WaitForPort();
      PastBoth(s0, s1, script, 1, 2);
    }

    method ConfigurePort() returns (o: Outcome)
      requires Ok(cfg, View()) && activeCapture == None && ownerLock && uartLock && Configurable()
      modifies this`script, this`phase, this`log, this`marks, this`retryDelay
      ensures Ok(cfg, View()) && |script| <= |old(script)| && SameRun(old(marks), marks)
      ensures o.Retry? ==> marks.rested
      ensures Going(old(script), 2) ==> o.Ready? && Past(old(script), script, 2)
    {
      hide Ok;
      var ok := Transition(Configure);
      if !ok {
        return Failed;
      }
      var a := Perform(RanConfigure);
      if a.fails {
        o := RetryAfter(Configure);
        return;
      }
      return Ready;
    }

    /** Close the epoch, go back to the verified paths and try again. */
    method AbandonEpoch() returns (o: Outcome)
      requires Ok(cfg, View())
      modifies this`script, this`phase, this`log, this`marks, this`retryDelay, this`epochs, this`paths
      ensures Ok(cfg, View()) && |script| <= |old(script)| && !EpochOpen() && |epochs| == |old(epochs)|
      ensures o.Retry? || o.StopAsked? || o.Failed?
      ensures SameRun(old(marks), marks) && (o.Retry? ==> marks.rested) && (old(marks).absent ==> marks.absent)
    {
      hide Ok;
      var ok := FinalizeEpoch();
      if !ok {
        return Failed;
      }
      RestoredOk(cfg, View());
      paths := verifiedPaths;
      o := RetryAfter(Recovering);
    }

    /** A new epoch, and a capture started in it once the UART lock is free. */
    method StartCaptureEpoch() returns (o: Outcome)
      requires Ok(cfg, View()) && Quiet() && ownerLock && uartLock
      modifies this
      ensures Ok(cfg, View()) && |script| <= |old(script)|
      ensures o.Ready? ==> Capturing() && activeViewer == old(activeViewer)
      ensures o.Retry? ==> Quiet() && marks.rested
      ensures SameRun(old(marks), marks)
      ensures Going(old(script), 4) && old(owned) == map[] ==>
        o.Ready? && Past(old(script), script, 4) && FirstCapture(old(events))
    {
      hide Ok, View, Going, Past;
      ghost var s0 := script;
      GoesLess(s0, 4, 2);
      var ok := OpenEpoch();
      if !ok {
        return Failed;
      }
      ghost var s1 := script;
      GoesOn(s0, s1, 2, 2);
      o := LaunchCapture();
      PastBoth(s0, s1, script, 2, 2);
    }

    /** Process 7 is the only registered child and its start the last event. */
    ghost predicate FirstCapture(before: seq<ProcessEvent>)
      reads this`owned, this`events, this`engaged
    {
      owned == map[7 := Capture] && events == before + [Started(7, Capture)] && engaged
    }

    method OpenEpoch() returns (ok: bool)
      requires Ok(cfg, View()) && Quiet() && ownerLock
      modifies this`script, this`epoch, this`paths, this`epochs, this`log, this`marks, this`phase, this`engaged, this`uartLock
      ensures Ok(cfg, View()) && |script| <= |old(script)|
      ensures ok ==> !uartLock && EpochOpen() && epoch == |epochs| && paths == Some(epoch) && engaged
      ensures SameRun(old(marks), marks)
      ensures Going(old(script), 2) ==> ok && Past(old(script), script, 2)
    {
      hide Ok;
      CountedOk(cfg, View());
      epoch := epoch + 1;
      ok := AllocatePaths();
      if ok {
        ok := ReleaseForCapture();
      }
    }

    method AllocatePaths() returns (ok: bool)
      requires Ok(cfg, View()) && epoch == |epochs| + 1 && !EpochOpen()
      modifies this`script, this`paths, this`epochs, this`log, this`marks
      ensures Ok(cfg, View()) && |script| <= |old(script)|
      ensures SameRun(old(marks), marks)
      ensures ok ==> epochs == old(epochs) + [EpochRecord(epoch, false, None)] && paths == Some(epoch) && log == old(log) + [OpenedEpoch]
      ensures Told(old(script), script, ok)
    {
      hide Ok, View;
      var a := Ask();
      ok := !a.fails;
      if ok {
        RecordEpoch();
      }
    }

    method RecordEpoch()
      requires Ok(cfg, View()) && epoch == |epochs| + 1 && !EpochOpen()
      modifies this`paths, this`epochs, this`log, this`marks
      ensures Ok(cfg, View()) && marks == old(marks).(heard := None)
      ensures epochs == old(epochs) + [EpochRecord(epoch, false, None)] && paths == Some(epoch) && log == old(log) + [OpenedEpoch]
    {
      hide Ok;
      RecordedOk(cfg, View());
      paths, epochs := Some(epoch), epochs + [EpochRecord(epoch, false, None)];
      log, marks := log + [OpenedEpoch], marks.(heard := None);
    }

    method ReleaseForCapture() returns (ok: bool)
      requires Ok(cfg, View())
      modifies this`script, this`phase, this`engaged, this`uartLock, this`log, this`marks
      ensures Ok(cfg, View()) && |script| <= |old(script)|
      ensures ok ==> !uartLock && engaged
      ensures SameRun(old(marks), marks)
      ensures Told(old(script), script, ok)
    {
      hide Ok;
      ok := Transition(StartCapture);
      if !ok {
        return;
      }
      EngagedOk(cfg, View(), true);
      engaged := true;
      UartOk(cfg, View(), false);
      uartLock, log := false, log + [GaveUartLock];
    }

    method LaunchCapture() returns (o: Outcome)
      requires Ok(cfg, View()) && activeCapture == None && ownerLock && !uartLock
      requires EpochOpen() && epoch == |epochs| && paths == Some(epoch)
      modifies this`script, this`log, this`marks, this`owned, this`events, this`activeCapture, this`activeViewer,
               this`phase, this`retryDelay, this`epochs, this`paths
      ensures Ok(cfg, View()) && |script| <= |old(script)|
      ensures o.Ready? ==> Capturing() && activeViewer == old(activeViewer)
      ensures o.Retry? ==> Quiet() && marks.rested
      ensures SameRun(old(marks), marks)
      ensures Going(old(script), 2) && old(owned) == map[] && engaged ==>
        o.Ready? && Past(old(script), script, 2) && FirstCapture(old(events))
    {
      hide Ok;
      var a := Perform(LaunchedCapture);
      if a.fails {
        o := AbandonEpoch();
        return;
      }
      var ok := RegisterCapture(a.pid, a.role);
      return if ok then Ready else Failed;
    }

    method RegisterCapture(pid: int, role: Role) returns (ok: bool)
      requires Ok(cfg, View()) && activeCapture == None
      modifies this`script, this`log, this`marks, this`owned, this`events, this`activeCapture, this`activeViewer
      ensures Ok(cfg, View()) && |script| <= |old(script)| && activeViewer == old(activeViewer) && SameRun(old(marks), marks)
      ensures ok ==> activeCapture.Some?
      ensures old(script) != [] && !old(script)[0].fails && old(owned) == map[] && pid == 7 && role == Capture ==>
        ok && script == old(script)[1..] && owned == map[7 := Capture] && events == old(events) + [Started(7, Capture)]
    {
      hide Ok, View;
      ok := Adopt(pid, role, Capture);
      if ok {
        ok := Persist();
      }
    }

    /** The capture and its watchdog, asked once. */
    method PollVerification() returns (a: Answer)
      requires Ok(cfg, View())
      modifies this`script, this`log, this`marks
      ensures Ok(cfg, View()) && |script| <= |old(script)|
      ensures log == if a.fails then old(log) else old(log) + [Heard(WhileVerifying(a.exitCode, a.fault, a.verified))]
      ensures marks == old(marks).(heard := if a.fails then old(marks).heard else Some(WhileVerifying(a.exitCode, a.fault, a.verified)))
      ensures old(script) != [] ==> a == old(script)[0] && script == old(script)[1..]
    {
      hide Ok, View;
      a := Ask();
      if !a.fails {
        Hear(WhileVerifying(a.exitCode, a.fault, a.verified));
      }
    }

    /** The first poll says neither that the capture ended nor that it failed nor that it is verified. */
    static predicate Undecided(script: seq<Answer>) {
      |script| < 2 || (!script[0].stop && !script[1].fails && script[1].exitCode.None? && !script[1].fault && !script[1].verified)
    }

    /** What the first poll decides, unless a stop is asked before. */
    static predicate FirstVerdict(script: seq<Answer>, o: Outcome, exitCode: Option<int>) {
      |script| >= 2 && !script[0].stop && !script[1].fails ==>
        && (script[1].exitCode.Some? || script[1].fault ==> o.Retry? && exitCode == script[1].exitCode)
        && (script[1].exitCode.None? && !script[1].fault && script[1].verified ==> o.Ready?)
    }

    /** Poll until the watchdog has verified the capture; `Retry` when it fails to. */
    method WaitUntilVerified() returns (o: Outcome, exitCode: Option<int>)
      requires Ok(cfg, View())
      modifies this`script, this`log, this`marks
      ensures Ok(cfg, View()) && |script| <= |old(script)| && SameRun(old(marks), marks)
      ensures o.Ready? ==> marks.heard == Some(WhileVerifying(None, false, true))
      ensures o.Retry? ==> Unsound(marks.heard) && marks.heard.value.WhileVerifying? && exitCode == marks.heard.value.exitCode
      ensures o.Ready? || o.Retry? || o.StopAsked? || o.Failed?
      ensures old(script) != [] && old(script)[0].stop ==> o.StopAsked? && script == old(script)[1..]
      ensures FirstVerdict(old(script), o, exitCode)
    {
      hide Ok;
      exitCode := None;
      while true
        invariant Ok(cfg, View()) && |script| <= |old(script)| && SameRun(old(marks), marks)
        invariant script == old(script) || Undecided(old(script))
        invariant old(script) != [] && old(script)[0].stop ==> script == old(script)
        decreases |script|
      {
        var stop := StopRequested();
        if stop {
          return StopAsked, None;
        }
        var a := PollVerification();
        if a.fails {
          return Failed, None;
        }
        if a.exitCode.Some? {
          return Retry, a.exitCode;
        }
        if a.fault {
          return Retry, None;
        }
        if a.verified {
          return Ready, None;
        }
      }
    }

    /** Stop the capture whose epoch failed and abandon the epoch. */
    method DropCapture(exitCode: Option<int>) returns (o: Outcome)
      requires Ok(cfg, View()) && activeCapture.Some? && epoch == |epochs| && Unsound(marks.heard)
      modifies this
      ensures Ok(cfg, View()) && |script| <= |old(script)| && SameRun(old(marks), marks)
      ensures o.Retry? || o.StopAsked? || o.Failed?
      ensures o.Retry? ==> Quiet() && marks.rested && (old(marks).absent ==> marks.absent)
    {
      hide Ok, NoteExit;
      NoteExitOk(cfg, View(), exitCode);
      SetCaptureExitCode(exitCode);
      var ok := StopCapture();
      if !ok {
        return Failed;
      }
      o := AbandonEpoch();
    }

    method VerifyCapture() returns (o: Outcome)
      requires Ok(cfg, View()) && Capturing()
      modifies this
      ensures Ok(cfg, View()) && |script| <= |old(script)|
      ensures o.Ready? ==> Verified() && activeViewer == old(activeViewer) && Sound(marks.heard) && !marks.launching
      ensures o.Retry? ==> Quiet() && marks.rested
      ensures SameRun(old(marks), marks)
      ensures StopsAt(old(script), 2) ==>
        o.StopAsked? && Past(old(script), script, 3) && owned == old(owned) && events == old(events) && engaged == old(engaged)
    {
      hide Ok, View, StopsAt;
      var exitCode;
      o, exitCode := BeginVerification();
      if o.Retry? {
        o := DropCapture(exitCode);
      } else if o.Ready? {
        AcceptEpoch();
      }
    }

    method AcceptEpoch()
      requires Ok(cfg, View()) && Capturing() && marks.heard == Some(WhileVerifying(None, false, true))
      modifies this`watching, this`verifiedPaths, this`log, this`marks
      ensures Ok(cfg, View()) && Verified() && marks == old(marks).(launching := false)
    {
      hide Ok;
      EpochVerifiedOk(cfg, View());
      watching, verifiedPaths, log, marks := true, paths, log + [VerifiedEpoch], marks.(launching := false);
    }

    method BeginVerification() returns (o: Outcome, exitCode: Option<int>)
      requires Ok(cfg, View())
      modifies this`script, this`phase, this`log, this`marks
      ensures Ok(cfg, View()) && |script| <= |old(script)| && SameRun(old(marks), marks)
      ensures o.Ready? ==> marks.heard == Some(WhileVerifying(None, false, true))
      ensures o.Retry? ==> Unsound(marks.heard) && marks.heard.value.WhileVerifying? && exitCode == marks.heard.value.exitCode
      ensures StopsAt(old(script), 2) ==> o.StopAsked? && Past(old(script), script, 3)
    {
      hide Ok, View, StopsAt;
      ghost var s0 := script;
      if StopsAt(s0, 2) {
        StopComesCloser(s0, 2, 1);
        StopComesCloser(s0[1..], 1, 1);
        StopIsHere(s0[2..]);
        assert s0[1..][1..] == s0[2..] && s0[2..][1..] == s0[3..];
      }
      exitCode := None;
      var ok := Transition(VerifyFrames);
      if !ok {
        return Failed, None;
      }
      var a := Ask();
      if a.fails {
        return Failed, None;
      }
      o, exitCode := WaitUntilVerified();
    }

    // --- The viewer -----------------------------------------------------------------------

    /** Capture, port and watchdog of the running epoch. */
    method PollRetainedRadarFault() returns (w: Watching)
      requires Ok(cfg, View())
      modifies this`script, this`log, this`marks
      ensures Ok(cfg, View()) && |script| <= |old(script)|
      ensures w.CheckFailed? ==> log == old(log) && marks == old(marks)
      ensures !w.CheckFailed? ==>
        marks.heard.Some? && marks.heard.value.WhileRunning? && log == old(log) + [Heard(marks.heard.value)]
      ensures SameRun(old(marks), marks) && marks.launching == old(marks).launching && marks.viewerExited == old(marks).viewerExited
      ensures w.Healthy? ==> Sound(marks.heard)
      ensures w.RadarFault? ==> Viewed(ViewingFault(w.fault))
      ensures old(script) != [] ==> (w.CheckFailed? <==> old(script)[0].fails) && script == old(script)[1..]
      ensures old(script) != [] && !old(script)[0].fails ==> marks.heard == Some(NewsOf(old(script)[0]))
    {
      hide Ok, View;
      var a := Ask();
      if a.fails {
        return CheckFailed;
      }
      Hear(NewsOf(a));
      if a.exitCode.Some? {
        return RadarFault(Fault(a.exitCode, false));
      }
      if a.presence.Missing? {
        return RadarFault(Fault(None, true));
      }
      return if a.fault then RadarFault(Fault(None, false)) else Healthy;
    }

    /** A viewer may be launched: capture and watchdog of the verified epoch are in charge, and nothing is said against them. */
    ghost predicate Viewable()
      reads this`activeCapture, this`epochs, this`epoch, this`paths, this`watching, this`verifiedPaths, this`activeViewer, this`marks
    {
      Verified() && activeViewer == None && Sound(marks.heard) && !marks.launching
    }

    /** What a way of the viewer's start rests on. */
    ghost predicate Viewed(v: Viewing)
      reads this`marks
    {
      && (v.NewViewer? ==> Sound(marks.heard))
      && (v.ViewingFault? ==> FaultHeard(marks, v.fault) && (v.fault.portAbsent ==> marks.absent))
    }

    /** Wait out the current delay, doubled for next time, while the radar stays healthy. */
    method WaitForViewerRetry() returns (go: bool, ended: Viewing)
      requires Ok(cfg, View())
      modifies this`script, this`retryDelay, this`log, this`marks
      ensures Ok(cfg, View()) && |script| <= |old(script)| && SameRun(old(marks), marks)
      ensures if go then Sound(marks.heard) && !marks.launching else !ended.NewViewer? && Viewed(ended)
    {
      hide Ok, View;
      go, ended := false, ViewingStopped;
      var stop := StopRequested();
      if stop {
        return;
      }
      DoubleDelay();
      go, ended := SleepWatching();
    }

    method SleepWatching() returns (go: bool, ended: Viewing)
      requires Ok(cfg, View())
      modifies this`script, this`log, this`marks
      ensures Ok(cfg, View()) && |script| <= |old(script)| && SameRun(old(marks), marks) && marks.launching == old(marks).launching
      ensures if go then Sound(marks.heard) else !ended.NewViewer? && Viewed(ended)
    {
      hide Ok;
      go, ended := false, ViewingStopped;
      while true
        invariant Ok(cfg, View()) && |script| <= |old(script)| && SameRun(old(marks), marks) && !go && ended == ViewingStopped
        invariant marks.launching == old(marks).launching
        decreases |script|
      {
        var stop := StopRequested();
        if stop {
          return;
        }
        var w := PollRetainedRadarFault();
        if w.CheckFailed? {
          return false, ViewingFailed;
        }
        if w.RadarFault? {
          return false, ViewingFault(w.fault);
        }
        var a := Ask();
        if a.yes {
          return true, ViewingStopped;
        }
      }
    }

    /** `_start_viewer_with_retry`, on the paths of the verified epoch. */
    method StartViewerWithRetry() returns (v: Viewing)
      requires Ok(cfg, View()) && Viewable()
      modifies this`script, this`phase, this`log, this`marks, this`retryDelay,
               this`owned, this`events, this`activeCapture, this`activeViewer
      ensures Ok(cfg, View()) && |script| <= |old(script)| && SameRun(old(marks), marks)
      ensures v.NewViewer? || v.ViewingFault? ==> Verified() && activeViewer == None
      ensures Viewed(v)
    {
      hide Ok, View, Verified, FaultHeard;
      var retrying := false;
      while true
        invariant Ok(cfg, View()) && Viewable()
        invariant |script| <= |old(script)| && SameRun(old(marks), marks)
        decreases |script|
      {
        var stop := StopRequested();
        if stop {
          return ViewingStopped;
        }
        var again;
        again, v := TryViewer(retrying);
        if !again {
          return;
        }
        retrying := true;
      }
    }

    /** One round: after a failure the radar is polled first; `again` when the viewer did not start. */
    method TryViewer(retrying: bool) returns (again: bool, v: Viewing)
      requires Ok(cfg, View()) && Viewable()
      modifies this`script, this`phase, this`log, this`marks, this`retryDelay,
               this`owned, this`events, this`activeCapture, this`activeViewer
      ensures Ok(cfg, View()) && |script| <= |old(script)| && SameRun(old(marks), marks)
      ensures if again then Viewable() else Viewed(v)
      ensures v.NewViewer? || v.ViewingFault? ==> Verified() && activeViewer == None
    {
      hide Ok, View, Verified, FaultHeard;
      again, v := false, ViewingFailed;
      if retrying {
        var w := PollRetainedRadarFault();
        if !w.Healthy? {
          v := if w.RadarFault? then ViewingFault(w.fault) else ViewingFailed;
          return;
        }
      }
      again, v := LaunchViewer();
    }

    method LaunchViewer() returns (again: bool, v: Viewing)
      requires Ok(cfg, View()) && Viewable()
      modifies this`script, this`phase, this`log, this`marks, this`retryDelay,
               this`owned, this`events, this`activeCapture, this`activeViewer
      ensures Ok(cfg, View()) && |script| <= |old(script)| && SameRun(old(marks), marks)
      ensures if again then Viewable() else Viewed(v)
      ensures v.NewViewer? || v.ViewingFault? ==> Verified() && activeViewer == None
    {
      hide Ok;
      again := false;
      var a := Perform(LaunchedViewer(paths.value));
      if a.fails {
        again, v := ViewerStartFailed();
      } else {
        v := KeepViewer(a.pid, a.role);
      }
    }

    method ViewerStartFailed() returns (go: bool, ended: Viewing)
      requires Ok(cfg, View())
      modifies this`script, this`phase, this`log, this`marks, this`retryDelay
      ensures Ok(cfg, View()) && |script| <= |old(script)| && SameRun(old(marks), marks)
      ensures if go then Sound(marks.heard) && !marks.launching else !ended.NewViewer? && Viewed(ended)
    {
      hide Ok, View;
      var ok := Transition(SwitchViewer);
      if !ok {
        return false, ViewingFailed;
      }
      go, ended := WaitForViewerRetry();
    }

    /** A started viewer is handed over, unless the radar failed meanwhile: then it is registered and stopped. */
    method KeepViewer(pid: int, role: Role) returns (v: Viewing)
      requires Ok(cfg, View()) && activeViewer == None && activeCapture.Some?
      modifies this`script, this`log, this`marks, this`owned, this`events, this`activeCapture, this`activeViewer
      ensures Ok(cfg, View()) && |script| <= |old(script)|
      ensures v.NewViewer? || v.ViewingFault? ==> activeViewer == None && activeCapture == old(activeCapture)
      ensures SameRun(old(marks), marks) && Viewed(v)
    {
      hide Ok, View;
      var w := PollRetainedRadarFault();
      if w.CheckFailed? {
        return ViewingFailed;
      }
      if w.Healthy? {
        return NewViewer(pid, role);
      }
      var ok := Adopt(pid, role, Viewer);
      if !ok {
        return ViewingFailed;
      }
      ok := Persist();
      if !ok {
        return ViewingFailed;
      }
      ok := StopViewer();
      return if ok then ViewingFault(w.fault) else ViewingFailed;
    }

    /** RUNNING was entered, and nothing has been heard against capture or viewer. */
    ghost predicate Watched()
      reads this`activeCapture, this`epochs, this`epoch, this`paths, this`watching, this`verifiedPaths, this`activeViewer, this`marks
    {
      Verified() && activeViewer.Some? && Sound(marks.heard) && !marks.viewerExited && !marks.launching && marks.ran
    }

    /** Register the viewer and enter RUNNING. */
    method RunWith(pid: int, role: Role) returns (ok: bool)
      requires Ok(cfg, View()) && Verified() && activeViewer == None && Sound(marks.heard)
      modifies this`script, this`phase, this`log, this`marks, this`owned, this`events, this`activeCapture, this`activeViewer
      ensures Ok(cfg, View()) && |script| <= |old(script)|
      ensures ok ==> Watched() && phase == Running
    {
      hide Ok, View;
      ok := Adopt(pid, role, Viewer);
      if !ok {
        return;
      }
      ok := Persist();
      if !ok {
        return;
      }
      ok := Transition(Running);
    }

    /** Stop the viewer of the previous epoch, then start one on the verified epoch. */
    method ReplaceViewer() returns (v: Viewing)
      requires Ok(cfg, View()) && Verified() && Sound(marks.heard) && !marks.launching && marks.switching
      modifies this`script, this`phase, this`log, this`marks, this`retryDelay,
               this`owned, this`events, this`activeCapture, this`activeViewer
      ensures Ok(cfg, View()) && |script| <= |old(script)| && SameRun(old(marks), marks)
      ensures v.NewViewer? || v.ViewingFault? ==> Verified() && activeViewer == None
      ensures Viewed(v)
    {
      hide Ok, View, Verified;
      if activeViewer.Some? {
        var ok := StopViewer();
        if !ok {
          return ViewingFailed;
        }
      }
      v := StartViewerWithRetry();
    }

    method SwitchToViewer() returns (o: Outcome, absence: bool)
      requires Ok(cfg, View()) && Verified() && Sound(marks.heard) && !marks.launching
      modifies this
      ensures Ok(cfg, View()) && |script| <= |old(script)|
      ensures o.Ready? ==> Watched()
      ensures o.Retry? ==> Quiet() && marks.rested && SameRun(old(marks), marks) && (absence ==> marks.absent)
    {
      hide Ok, View, Verified;
      var ok := Transition(SwitchViewer);
      if !ok {
        return Failed, false;
      }
      var v := ReplaceViewer();
      o, absence := AfterSwitch(v);
    }

    method AfterSwitch(v: Viewing) returns (o: Outcome, absence: bool)
      requires Ok(cfg, View()) && (v.NewViewer? || v.ViewingFault? ==> Verified() && activeViewer == None) && Viewed(v)
      modifies this
      ensures Ok(cfg, View()) && |script| <= |old(script)|
      ensures o.Ready? ==> Watched()
      ensures o.Retry? ==> Quiet() && marks.rested && SameRun(old(marks), marks) && (absence ==> marks.absent)
    {
      hide Ok;
      absence := false;
      match v {
        case ViewingStopped => o := StopAsked;
        case ViewingFailed => o := Failed;
        case NewViewer(pid, role) =>
          var ok := RunWith(pid, role);
          o := if ok then Ready else Failed;
        case ViewingFault(f) =>
          absence := f.portAbsent;
          UnwatchedOk(cfg, View());
          watching, log := false, log + [WatchdogDropped];
          o := DropCapture(f.exitCode);
      }
    }

    // --- The run --------------------------------------------------------------------------

    /** `_attempt_until_running`. */
    method AttemptUntilRunning(recovering: bool, usbAbsenceSeen: bool) returns (o: Outcome)
      requires Ok(cfg, View()) && Quiet() && Due(recovering, usbAbsenceSeen)
      modifies this
      ensures Ok(cfg, View()) && (|script| < |old(script)| || o.StopAsked? || o.Failed?)
      ensures o.Ready? ==> Watched()
      ensures o.Ready? || o.StopAsked? || o.Failed?
      ensures StopsAt(old(script), 18) && !recovering && old(Idle()) ==>
        o.StopAsked? && Past(old(script), script, 19) && FirstCapture(old(events))
    {
      hide Ok, Verified, Quiet, Capturing, EpochOpen, StopsAt;
      ghost var doomed := StopsAt(script, 18) && !recovering && Idle();
      var absence := usbAbsenceSeen;
      while true
        invariant Ok(cfg, View()) && Quiet() && Due(recovering, absence) && |script| <= |old(script)|
        invariant doomed ==> script == old(script) && Idle() && events == old(events)
        decreases |script|
      {
        o, absence := AttemptOnce(recovering, absence);
        if !o.Retry? {
          return;
        }
      }
    }

    /** An attempt may begin: a back-off lies behind it, and an absence that was noted was seen. */
    ghost predicate Due(recovering: bool, absence: bool)
      reads this`marks
    {
      marks.rested && (recovering <==> marks.ran) && (absence ==> marks.absent)
    }

    /** No child is registered and no lock held. */
    ghost predicate Idle()
      reads this`owned, this`ownerLock, this`uartLock
    {
      owned == map[] && !ownerLock && !uartLock
    }

    method AttemptOnce(recovering: bool, usbAbsenceSeen: bool) returns (o: Outcome, absence: bool)
      requires Ok(cfg, View()) && Quiet() && Due(recovering, usbAbsenceSeen)
      modifies this
      ensures Ok(cfg, View()) && (|script| < |old(script)| || o.StopAsked? || o.Failed?)
      ensures o.Ready? ==> Watched()
      ensures o.Retry? ==> Quiet() && Due(recovering, absence)
      ensures StopsAt(old(script), 18) && !recovering && old(Idle()) ==>
        o.StopAsked? && Past(old(script), script, 19) && FirstCapture(old(events))
    {
      hide Ok, View, Verified, Capturing, EpochOpen, StopsAt, Going;
      ghost var s0 := script;
      if StopsAt(s0, 18) {
        StopComesCloser(s0, 18, 12);
        assert s0[12..][7..] == s0[19..];
      }
      absence := false;
      o := Prepare(recovering, usbAbsenceSeen);
      if o.Ready? {
        o, absence := BringUp();
      }
    }

    /** Reset and configured. */
    method Prepare(recovering: bool, usbAbsenceSeen: bool) returns (o: Outcome)
      requires Ok(cfg, View()) && activeCapture == None && Due(recovering, usbAbsenceSeen)
      modifies this`script, this`phase, this`log, this`marks, this`ownerLock, this`uartLock, this`retryDelay
      ensures Ok(cfg, View()) && marks.ran == old(marks).ran
      ensures |script| < |old(script)| || o.StopAsked? || o.Failed?
      ensures o.Ready? ==> ownerLock && uartLock
      ensures o.Retry? ==> marks.rested
      ensures Going(old(script), 12) && !recovering && !old(ownerLock) && !old(uartLock) ==> o.Ready? && Past(old(script), script, 12)
    {
      hide Ok, Going, Past;
      ghost var s0 := script;
      GoesLess(s0, 12, 10);
      Note(BeganAttempt(recovering));
      o := ResetPort(recovering, usbAbsenceSeen);
      ghost var s1 := script;
      GoesOn(s0, s1, 10, 2);
      if o.Ready? {
        o := ConfigurePort();
        PastBoth(s0, s1, script, 10, 2);
      }
    }

    /** From a configured radar to RUNNING. */
    method BringUp() returns (o: Outcome, absence: bool)
      requires Ok(cfg, View()) && Quiet() && ownerLock && uartLock
      modifies this
      ensures Ok(cfg, View()) && |script| <= |old(script)|
      ensures o.Ready? ==> Watched()
      ensures o.Retry? ==> Quiet() && Due(old(marks).ran, absence)
      ensures StopsAt(old(script), 6) && old(owned) == map[] ==>
        o.StopAsked? && Past(old(script), script, 7) && FirstCapture(old(events))
    {
      hide Ok, View, Verified, Quiet, Capturing, EpochOpen, StopsAt, Going;
      ghost var s0 := script;
      if StopsAt(s0, 6) {
        StopComesCloser(s0, 6, 4);
        assert s0[4..][3..] == s0[7..];
      }
      absence := false;
      o := StartCaptureEpoch();
      if !o.Ready? {
        return;
      }
      o := VerifyCapture();
      if !o.Ready? {
        return;
      }
      o, absence := SwitchToViewer();
    }

    /** `_monitor_until_fault`: `Retry` with the fault, or `StopAsked`. */
    method MonitorUntilFault() returns (o: Outcome, fault: Fault)
      requires Ok(cfg, View()) && Watched()
      modifies this
      ensures Ok(cfg, View()) && (|script| < |old(script)| || o.StopAsked? || o.Failed?)
      ensures o.Retry? ==> Faulted(fault)
      ensures o.Retry? || o.StopAsked? || o.Failed?
    {
      hide Ok, Verified;
      fault := Fault(None, false);
      while true
        invariant Ok(cfg, View()) && Watched() && |script| <= |old(script)|
        decreases |script|
      {
        var stop := StopRequested();
        if stop {
          return StopAsked, fault;
        }
        o, fault := MonitorOnce();
        if !o.Ready? {
          return;
        }
      }
    }

    /** The capture of the epoch is still registered, and what was heard of it last is the fault. */
    ghost predicate Faulted(fault: Fault)
      reads this`activeCapture, this`epoch, this`epochs, this`marks
    {
      && activeCapture.Some? && epoch == |epochs| && marks.ran
      && FaultHeard(marks, fault) && (fault.portAbsent ==> marks.absent)
    }

    /**
     One round of the monitor; `Ready` when everything is well.  A round that
     hears of an exit, a lost port or a fault ends with it; one that hears of
     none, and finds the viewer there, ends well, and resets the delay once
     RUNNING has been stable for long enough.
     */
    method MonitorOnce() returns (o: Outcome, fault: Fault)
      requires Ok(cfg, View()) && Watched()
      modifies this
      ensures Ok(cfg, View()) && |script| <= |old(script)|
      ensures o.Ready? ==> Watched()
      ensures o.Retry? ==> Faulted(fault)
      ensures BadRound(old(script)) ==> o.Retry? && fault == FaultIn(old(script)[0])
      ensures QuietRound(old(script)) ==>
        o.Ready? && Past(old(script), script, 3) && retryDelay == StableDelay(old(retryDelay), old(script)[1].now)
    {
      hide Ok, View;
      var w := PollRetainedRadarFault();
      if w.CheckFailed? {
        return Failed, Fault(None, false);
      }
      if w.RadarFault? {
        return Retry, w.fault;
      }
      hide NewsOf;
      o, fault := MonitorViewer();
    }

    /** The capture is asked, and it ended, its port is gone, or its watchdog reports a fault. */
    static predicate BadRound(script: seq<Answer>) {
      && script != [] && !script[0].fails
      && (script[0].exitCode.Some? || script[0].presence.Missing? || script[0].fault)
    }

    /** Nothing is said against the capture, and the viewer is there. */
    static predicate QuietRound(script: seq<Answer>) {
      && |script| >= 3 && !script[0].fails && script[0].exitCode.None? && !script[0].presence.Missing? && !script[0].fault
      && !script[2].fails && script[2].exitCode.None?
    }

    /** The exit is reported before the lost port. */
    static function FaultIn(a: Answer): Fault {
      Fault(a.exitCode, a.exitCode.None? && a.presence.Missing?)
    }

    /** The delay after a quiet round. */
    function StableDelay(delay: real, healthy: real): real {
      if healthy >= cfg.stableRunningReset then cfg.retryInitial else delay
    }

    /** The monitor's look at the viewer; the delay is reset first, once RUNNING has been stable for long enough. */
    method MonitorViewer() returns (o: Outcome, fault: Fault)
      requires Ok(cfg, View()) && Watched()
      modifies this
      ensures Ok(cfg, View()) && |script| <= |old(script)|
      ensures o.Ready? ==> Watched()
      ensures o.Retry? ==> Faulted(fault)
      ensures |old(script)| >= 2 && !old(script)[1].fails && old(script)[1].exitCode.None? ==>
        o.Ready? && Past(old(script), script, 2) && retryDelay == StableDelay(old(retryDelay), old(script)[0].now)
    {
      hide Ok, View, Verified;
      fault := Fault(None, false);
      CountStability();
      var known, exited := PollViewer();
      if !known {
        return Failed, fault;
      }
      if !exited {
        return Ready, fault;
      }
      o, fault := RestartViewer();
    }

    /** One answer was used, if there was one, and the delay was reset if it was late enough. */
    predicate StabilityCounted(before: seq<Answer>, after: seq<Answer>, delay: real, newDelay: real) {
      before != [] ==> after == before[1..] && newDelay == StableDelay(delay, before[0].now)
    }

    method CountStability()
      requires Ok(cfg, View()) && Verified() && Sound(marks.heard)
      modifies this`script, this`retryDelay, this`log, this`marks
      ensures Ok(cfg, View()) && |script| <= |old(script)| && marks.heard == old(marks).heard && marks.ran == old(marks).ran
      ensures marks.launching == old(marks).launching && marks.viewerExited == old(marks).viewerExited
      ensures StabilityCounted(old(script), script, old(retryDelay), retryDelay)
    {
      hide Ok, View, Verified, Sound;
      var a := Ask();
      if a.now >= cfg.stableRunningReset {
        ResetDelay(a.now);
      }
    }

    method ResetDelay(healthy: real)
      requires Ok(cfg, View()) && Verified() && Sound(marks.heard) && healthy >= cfg.stableRunningReset
      modifies this`retryDelay, this`log, this`marks
      ensures Ok(cfg, View()) && marks == old(marks).(backoffs := 0) && retryDelay == cfg.retryInitial
    {
      hide Ok;
      DelayResetOk(cfg, View(), healthy);
      retryDelay, log, marks := cfg.retryInitial, log + [DelayWasReset(healthy)], marks.(backoffs := 0);
    }

    /** Whether the viewer ended; `known` is false when asking raises. */
    method PollViewer() returns (known: bool, exited: bool)
      requires Ok(cfg, View())
      modifies this`script, this`log, this`marks
      ensures Ok(cfg, View()) && |script| <= |old(script)|
      ensures log == if known then old(log) + [Heard(ViewerState(exited))] else old(log)
      ensures marks == old(marks).(viewerExited := if known then exited else old(marks).viewerExited)
      ensures old(script) != [] ==>
        known == !old(script)[0].fails && exited == old(script)[0].exitCode.Some? && script == old(script)[1..]
    {
      hide Ok, View;
      var a := Ask();
      known, exited := !a.fails, a.exitCode.Some?;
      if known {
        Hear(ViewerState(exited));
      }
    }

    /** The viewer exited: stop it, start another on the same epoch, and enter RUNNING again. */
    method RestartViewer() returns (o: Outcome, fault: Fault)
      requires Ok(cfg, View()) && Verified() && activeViewer.Some? && Sound(marks.heard)
      requires marks.viewerExited && !marks.launching && marks.ran
      modifies this
      ensures Ok(cfg, View()) && |script| <= |old(script)|
      ensures o.Ready? ==> Watched()
      ensures o.Retry? ==> Faulted(fault)
    {
      hide Ok, View;
      fault := Fault(None, false);
      var ok := StopViewer();
      if !ok {
        return Failed, fault;
      }
      ok := Transition(SwitchViewer);
      if !ok {
        return Failed, fault;
      }
      var v := StartViewerWithRetry();
      match v {
        case ViewingStopped => o := StopAsked;
        case ViewingFailed => o := Failed;
        case ViewingFault(f) => o, fault := Retry, f;
        case NewViewer(pid, role) =>
          ok := RunWith(pid, role);
          o := if ok then Ready else Failed;
      }
    }

    /** A fault while running: the capture is stopped and its epoch closed before another attempt. */
    method Recover(fault: Fault) returns (o: Outcome)
      requires Ok(cfg, View()) && Faulted(fault)
      modifies this
      ensures Ok(cfg, View()) && |script| <= |old(script)|
      ensures o.Retry? ==> Quiet() && Due(true, fault.portAbsent)
      ensures o.Retry? || o.StopAsked? || o.Failed?
    {
      hide Ok;
      var ok := Transition(Recovering);
      if !ok {
        return Failed;
      }
      NoteExitOk(cfg, View(), fault.exitCode);
      SetCaptureExitCode(fault.exitCode);
      ok := StopCapture();
      if !ok {
        return Failed;
      }
      o := CloseAfterFault();
    }

    method CloseAfterFault() returns (o: Outcome)
      requires Ok(cfg, View()) && activeCapture == None && epoch == |epochs|
      modifies this
      ensures Ok(cfg, View()) && |script| <= |old(script)|
      ensures SameRun(old(marks), marks) && (old(marks).absent ==> marks.absent)
      ensures o.Retry? ==> Quiet() && marks.rested
      ensures o.Retry? || o.StopAsked? || o.Failed?
    {
      hide Ok;
      UnwatchedOk(cfg, View());
      watching, log := false, log + [WatchdogDropped];
      var ok := FinalizeEpoch();
      if !ok {
        return Failed;
      }
      var go := Backoff();
      return if go then Retry else StopAsked;
    }

    /** Everything between start and the final cleanup: asked to stop, or failed. */
    method Supervise() returns (o: Outcome)
      requires Ok(cfg, View()) && Quiet() && Due(false, false)
      modifies this
      ensures Ok(cfg, View()) && (o.StopAsked? || o.Failed?)
      ensures StopsAt(old(script), 18) && old(Idle()) ==> o.StopAsked? && Past(old(script), script, 19) && FirstCapture(old(events))
    {
      hide Ok, Verified, Quiet, Capturing, EpochOpen, Going;
      ghost var doomed := StopsAt(script, 18) && Idle();
      o := AttemptUntilRunning(false, false);
      while o.Ready?
        invariant Ok(cfg, View()) && (o.Ready? ==> Watched())
        invariant o.Ready? || o.StopAsked? || o.Failed?
        invariant doomed ==> o.StopAsked? && Past(old(script), script, 19) && FirstCapture(old(events))
        decreases o.Ready?, |script|
      {
        var fault;
        o, fault := MonitorUntilFault();
        if o.Retry? {
          o := Recover(fault);
          if o.Retry? {
            o := AttemptUntilRunning(true, fault.portAbsent);
          }
        }
      }
    }

    // --- Cleanup --------------------------------------------------------------------------

    /** The capture's end is recorded, its manifest write raises, and no other child is registered. */
    ghost predicate EndUnsaved(before: seq<ProcessEvent>)
      reads this`owned, this`events
    {
      owned == map[7 := Capture] && events == before + [Ended(7, Capture)]
    }

    /** Record the ends one cleanup call reports; reports that name no registered child are errors. */
    method RecordReports(reports: seq<StopReport>) returns (ok: bool, known: bool)
      requires Ok(cfg, View()) && marks.cleaning
      modifies this`script, this`events, this`owned, this`activeCapture, this`activeViewer, this`log, this`epochs
      ensures Ok(cfg, View()) && |script| <= |old(script)|
      ensures reports == [StopReport(7, Capture, 0)] && old(owned) == map[7 := Capture] && old(script) != [] && old(script)[0].fails ==>
        !ok && EndUnsaved(old(events))
    {
      hide Ok;
      ghost var doomed := reports == [StopReport(7, Capture, 0)] && owned == map[7 := Capture] && script != [] && script[0].fails;
      ok, known := true, true;
      for i := 0 to |reports|
        invariant Ok(cfg, View()) && |script| <= |old(script)| && ok
        invariant doomed ==> i == 0 && script == old(script) && owned == old(owned) && events == old(events)
      {
        var r := reports[i];
        if r.pid !in owned || owned[r.pid] != r.role {
          known := false;
        } else {
          ok := RecordReport(r);
          if !ok {
            return;
          }
        }
      }
    }

    method RecordReport(r: StopReport) returns (ok: bool)
      requires Ok(cfg, View()) && marks.cleaning && r.pid in owned
      modifies this`script, this`events, this`owned, this`activeCapture, this`activeViewer, this`log, this`epochs
      ensures Ok(cfg, View()) && |script| <= |old(script)|
      ensures old(script) != [] ==> ok == !old(script)[0].fails
      ensures !ok ==> owned == old(owned) && events == old(events) + [Ended(r.pid, r.role)]
    {
      hide Ok, Dropped, NoteExit;
      if activeCapture == Some(r.pid) {
        NoteExitOk(cfg, View(), Some(r.exitCode));
        SetCaptureExitCode(Some(r.exitCode));
      }
      ok := RecordStop(r.pid, r.role);
    }

    /** `_stop_registered_children`: at most two cleanup calls; false when it ends in an exception. */
    method StopRegisteredChildren() returns (ok: bool)
      requires Ok(cfg, View())
      modifies this
      ensures Ok(cfg, View()) && |script| <= |old(script)| && !engaged
      ensures ok && old(engaged) ==> owned == map[]
      ensures !old(engaged) ==> owned == old(owned) && events == old(events)
      ensures RaisesOnCapture(old(script)) && old(owned) == map[7 := Capture] && old(engaged) ==> !ok && EndUnsaved(old(events))
    {
      hide Ok, View;
      if !engaged {
        return true;
      }
      Note(BeganCleanup);
      ok := StopOwned();
      EndSupervision();
      ok := ok && owned == map[];
    }

    /** At most two cleanup calls, the second when the first raises. */
    method StopOwned() returns (ok: bool)
      requires Ok(cfg, View()) && marks.cleaning
      modifies this`script, this`events, this`owned, this`activeCapture, this`activeViewer, this`log, this`epochs
      ensures Ok(cfg, View()) && |script| <= |old(script)|
      ensures RaisesOnCapture(old(script)) && old(owned) == map[7 := Capture] ==> !ok && EndUnsaved(old(events))
    {
      hide Ok;
      ghost var doomed := RaisesOnCapture(script) && owned == map[7 := Capture];
      var recorded, known, failed := true, true, false;
      for attempt := 0 to 2
        invariant Ok(cfg, View()) && |script| <= |old(script)|
        invariant doomed ==> attempt == 0 && script == old(script) && owned == old(owned) && events == old(events)
      {
        var a := Ask();
        failed := a.fails;
        recorded, known := RecordReports(a.reports);
        if !recorded || !known || !failed {
          break;
        }
      }
      assert doomed ==> !recorded && EndUnsaved(old(events));
      ok := recorded && known && !failed;
    }

    method EndSupervision()
      requires Ok(cfg, View())
      modifies this`engaged, this`watching, this`log
      ensures Ok(cfg, View()) && !engaged && !watching
    {
      hide Ok;
      EngagedOk(cfg, View(), false);
      UnwatchedOk(cfg, View().(engaged := false));
      engaged := false;
      watching, log := false, log + [WatchdogDropped];
    }

    /** Cleanup, the last epoch closed, and STOPPED, unless a manifest write fails on the way. */
    method Finish() returns (ok: bool)
      requires Ok(cfg, View())
      modifies this
      ensures Ok(cfg, View()) && (phase == Stopped ==> !EpochOpen() || old(phase) == Stopped)
      ensures ok ==> phase == Stopped && !EpochOpen() && (old(engaged) ==> owned == map[])
      ensures !engaged && (!old(engaged) ==> owned == old(owned) && events == old(events))
      ensures RaisesOnCapture(old(script)) && old(owned) == map[7 := Capture] && old(engaged) ==> !ok && EndUnsaved(old(events))
    {
      hide Ok;
      var clean := StopRegisteredChildren();
      ok := FinalizeEpoch();
      if !ok {
        return;
      }
      RestoredOk(cfg, View());
      paths := verifiedPaths;
      ok := Transition(Stopped);
      ok := ok && clean;
    }

    method ReleaseLocks()
      requires Ok(cfg, View())
      modifies this`uartLock, this`ownerLock, this`log
      ensures Ok(cfg, View()) && !uartLock && !ownerLock
    {
      hide Ok;
      if uartLock {
        UartOk(cfg, View(), false);
        uartLock, log := false, log + [GaveUartLock];
      }
      if ownerLock {
        OwnerOk(cfg, View(), false);
        ownerLock, log := false, log + [GaveOwnerLock];
      }
    }

    /**
     `run`, from a fresh supervisor to the release of its locks: whatever the
     outside world answers, the effects of the whole run follow the rules.
     */
    method Run() returns (clean: bool)
      requires 0.0 < cfg.retryInitial <= cfg.retryMax && View() == Began(cfg)
      modifies this
      ensures Ok(cfg, View()) && SafeLog(log) && events == EventsOf(log) && owned.Keys == Registered(log)
      ensures (forall i | 0 <= i < |epochs| :: epochs[i].number == i + 1)
           && (forall i | 0 <= i < |epochs| - 1 :: epochs[i].ended)
      ensures !uartLock && !ownerLock
      ensures clean ==> phase == Stopped && !EpochOpen()
      ensures retryDelay == DelayAfter(cfg, Replay(log).marks.backoffs) && DelaysInLog(cfg, log)
      ensures Doomed(old(script)) ==> events == [Started(7, Capture), Ended(7, Capture)] && owned.Keys == {7}
    {
      hide Ok, StopsAt, RaisesOnCapture, Going, Replay, SafeLog, EventsOf, DelayAfter;
      BeganOk(cfg);
      var o := Supervise();
      clean := Finish();
      if o.StopAsked? && !clean {
        var _ := Finish();
      }
      ReleaseLocks();
      clean := clean && o.StopAsked?;
      OkMeans(cfg, View());
    }
  }

  /** The imbalance is reached: a run that ends with the capture ended by the events and still registered. */
  method RunToImbalance(cfg: Config) returns (s: RadarSupervisor)
    requires 0.0 < cfg.retryInitial <= cfg.retryMax
    ensures fresh(s) && SafeLog(s.log) && s.events == EventsOf(s.log) && s.owned.Keys == Registered(s.log)
    ensures 7 in Registered(s.log) && 7 !in Live(s.events)
  {
    var script := seq(18, _ => GO) + [GO.(stop := true), GO.(reports := [StopReport(7, Capture, 0)]), GO.(fails := true)];
    DoomedScript(script);
    s := new RadarSupervisor(cfg, script);
    var _ := s.Run();
    StartedAndEnded();
  }

  lemma DoomedScript(script: seq<Answer>)
    requires script == seq(18, _ => GO) + [GO.(stop := true), GO.(reports := [StopReport(7, Capture, 0)]), GO.(fails := true)]
    ensures Doomed(script)
  {
  }

  lemma StartedAndEnded()
    ensures 7 !in Live([Started(7, Capture), Ended(7, Capture)])
  {
  }

  lemma OkMeans(cfg: Config, s: State)
    requires Ok(cfg, s)
    ensures SafeLog(s.log) && s.events == EventsOf(s.log) && s.owned.Keys == Registered(s.log)
    ensures (forall i | 0 <= i < |s.epochs| :: s.epochs[i].number == i + 1)
         && (forall i | 0 <= i < |s.epochs| - 1 :: s.epochs[i].ended)
    ensures s.retryDelay == DelayAfter(cfg, Replay(s.log).marks.backoffs) && DelaysInLog(cfg, s.log)
  {
  }

  lemma EngagedOk(cfg: Config, s: State, engaged: bool)
    requires Ok(cfg, s)
    ensures Ok(cfg, s.(engaged := engaged))
  {
    hide SafeLog, Replay, EventsOf, DelayAfter, DelaysInLog;
  }

  lemma StopLeaves(s: State, pid: int, role: Role)
    ensures var t := Dropped(EndNoted(s, pid, role), pid);
      && t.activeCapture == (if s.activeCapture == Some(pid) then None else s.activeCapture)
      && t.activeViewer == (if s.activeViewer == Some(pid) then None else s.activeViewer)
      && t.EpochOpen() == s.EpochOpen()
    ensures EndNoted(s, pid, role).EpochOpen() == s.EpochOpen()
  {
  }

  lemma CaptureRegistered(cfg: Config, s: State)
    requires Ok(cfg, s)
    ensures s.activeCapture.Some? ==> s.activeCapture.value in s.owned && s.owned[s.activeCapture.value] == Capture
    ensures s.activeViewer.Some? ==> s.activeViewer.value in s.owned && s.owned[s.activeViewer.value] == Viewer
    ensures s.activeCapture.Some? && s.activeViewer.Some? ==> s.activeCapture != s.activeViewer
  {
  }
}
