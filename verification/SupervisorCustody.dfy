/**
 What a run of the radar supervisor may do, as a property of the effects it has
 on the outside world, whatever its own bookkeeping says.
 */
module SupervisorCustody {
  import opened Wrappers

  datatype Phase =
    | WaitPort | ResetTarget | Configure | StartCapture | VerifyFrames | SwitchViewer | Running | Recovering | Stopped

  datatype Role = Capture | Viewer

  datatype Presence = Missing | Ambiguous | Selected

  /** What the outside world said when asked: the ports there are, how the capture does, whether the viewer ended. */
  datatype News =
    | Ports(presence: Presence)
    | WhileVerifying(exitCode: Option<int>, fault: bool, verified: bool)
    | WhileRunning(exitCode: Option<int>, portMissing: bool, fault: bool)
    | ViewerState(exited: bool)

  datatype Effect =
    | TookOwnerLock | TookUartLock | GaveOwnerLock | GaveUartLock
    | BeganAttempt(recovering: bool) | RanReset | ResetDone | RanConfigure
    | OpenedEpoch | ClosedEpoch
    | LaunchedCapture | OwnedCapture(pid: int)
    | Heard(news: News)
    | VerifiedEpoch | WatchdogDropped
    | LaunchedViewer(paths: nat) | OwnedViewer(pid: int)
    | NotedEnd(pid: int, role: Role) | EndWriteRaised(pid: int) | ChildGone(pid: int)
    | BackedOff(delay: real) | DelayWasReset(healthy: real)
    | BeganCleanup
    | Entered(phase: Phase)

  /** The capture runs, its watchdog has verified it or has nothing against it, and its port is there. */
  predicate Sound(heard: Option<News>) {
    heard.Some? &&
    match heard.value
    case WhileVerifying(exitCode, fault, verified) => exitCode.None? && !fault && verified
    case WhileRunning(exitCode, portMissing, fault) => exitCode.None? && !portMissing && !fault
    case _ => false
  }

  /** The capture ended, lost its port, or its watchdog reported a fault. */
  predicate Unsound(heard: Option<News>) {
    heard.Some? &&
    match heard.value
    case WhileVerifying(exitCode, fault, _) => exitCode.Some? || fault
    case WhileRunning(exitCode, portMissing, fault) => exitCode.Some? || portMissing || fault
    case _ => false
  }

  /** What the effects so far say about the present attempt. */
  datatype Marks = Marks(
    ran: bool,                  // RUNNING was entered before
    recovering: bool,           // this attempt follows a fault while running
    rested: bool,               // a back-off since the last reset
    resetDone: bool,            // the last reset was carried out
    port: Option<Presence>,     // the ports as last seen
    absent: bool,               // the port was seen absent since the last configuration
    heard: Option<News>,        // the last news of the capture owned now
    launching: bool,            // a viewer was launched and neither owned nor backed off from
    viewerExited: bool,         // the viewer owned now is known to have ended
    switching: bool,            // the last phase entered is the switch of viewers
    cleaning: bool,             // the final cleanup began
    backoffs: nat)              // back-offs since the delay was last reset

  const UNMARKED := Marks(false, false, true, false, None, false, None, false, false, false, false, 0)

  /** News of the capture, or a new capture to have news of. */
  predicate OnCapture(e: Effect) {
    e.OpenedEpoch? || e.OwnedCapture? || (e.Heard? && (e.news.WhileVerifying? || e.news.WhileRunning?))
  }

  /** The port is gone. */
  predicate SaysAbsent(e: Effect) {
    e.Heard? && (e.news == Ports(Missing) || (e.news.WhileRunning? && e.news.portMissing))
  }

  function Marked(m: Marks, e: Effect): Marks {
    Marks(
      m.ran || e == Entered(Running),
      if e.BeganAttempt? then e.recovering else m.recovering,
      e.BackedOff? || (m.rested && !e.RanReset?),
      e.ResetDone? || (m.resetDone && !e.RanReset?),
      if e.Heard? && e.news.Ports? then Some(e.news.presence) else m.port,
      SaysAbsent(e) || (m.absent && !e.RanConfigure?),
      if !OnCapture(e) then m.heard else if e.Heard? then Some(e.news) else None,
      e.LaunchedViewer? || (m.launching && !e.OwnedViewer? && !e.BackedOff? && !e.VerifiedEpoch?),
      if e.Heard? && e.news.ViewerState? then e.news.exited else m.viewerExited && !e.OwnedViewer?,
      if e.Entered? then e.phase.SwitchViewer? else m.switching,
      m.cleaning || e.BeganCleanup?,
      if e.BackedOff? then m.backoffs + 1 else if e.DelayWasReset? then 0 else m.backoffs)
  }

  /**
   What follows from a sequence of effects: children registered, the one whose
   end has just gone into the process events, locks held, epochs opened and
   verified, and the marks of the attempt.
   */
  datatype Custody = Custody(
    captures: set<int>, viewers: set<int>, ending: Option<int>, owner: bool, uart: bool,
    watching: bool, verified: Option<nat>, epochs: nat, epochOpen: bool, marks: Marks)

  const NOTHING := Custody({}, {}, None, false, false, false, None, 0, false, UNMARKED)

  function After(c: Custody, e: Effect): Custody {
    CustodyAfter(c, e).(marks := Marked(c.marks, e))
  }

  function CustodyAfter(c: Custody, e: Effect): Custody {
    match e
    case TookOwnerLock => c.(owner := true)
    case TookUartLock => c.(uart := true)
    case GaveOwnerLock => c.(owner := false)
    case GaveUartLock => c.(uart := false)
    case OpenedEpoch => c.(epochs := c.epochs + 1, epochOpen := true)
    case ClosedEpoch => c.(epochOpen := false)
    case OwnedCapture(pid) => c.(captures := c.captures + {pid})
    case OwnedViewer(pid) => c.(viewers := c.viewers + {pid})
    case NotedEnd(pid, _) => c.(ending := Some(pid))
    case EndWriteRaised(_) => c.(ending := None)
    case ChildGone(pid) => c.(captures := c.captures - {pid}, viewers := c.viewers - {pid}, ending := None)
    case VerifiedEpoch => c.(verified := Some(c.epochs), watching := true)
    case WatchdogDropped => c.(watching := false)
    case _ => c
  }

  /** Effects that change no more than the marks. */
  predicate OnlyMarks(e: Effect) {
    match e
    case BeganAttempt(_) | RanReset | ResetDone | RanConfigure | Heard(_) | BeganCleanup | LaunchedCapture | LaunchedViewer(_) => true
    case _ => false
  }

  lemma AfterMarks(c: Custody, e: Effect)
    requires OnlyMarks(e)
    ensures After(c, e) == c.(marks := Marked(c.marks, e))
  {
    hide Marked;
  }

  /** A new epoch and a new capture have no news yet; a new viewer is there. */
  lemma StartsMark(m: Marks, e: Effect)
    ensures e.OpenedEpoch? || e.OwnedCapture? ==> Marked(m, e) == m.(heard := None)
    ensures e.OwnedViewer? ==> Marked(m, e) == m.(launching := false, viewerExited := false)
  {
  }

  lemma EndsLeaveMarks(m: Marks, e: Effect)
    requires e.NotedEnd? || e.EndWriteRaised? || e.ChildGone?
    ensures Marked(m, e) == m
  {
  }

  /** The rules: each effect happens only in custody that allows it. */
  predicate Allowed(c: Custody, e: Effect) {
    match e
    case BeganAttempt(recovering) => recovering <==> c.marks.ran
    case RanReset => c.captures == {} && c.owner && c.uart && c.marks.port == Some(Selected) && c.marks.rested
    case RanConfigure =>
      && c.captures == {} && c.owner && c.uart && c.marks.port == Some(Selected)
      && (c.marks.resetDone || !c.marks.recovering || c.marks.absent)
    case OpenedEpoch => !c.epochOpen
    case LaunchedCapture => c.captures == {} && c.owner && !c.uart && c.epochOpen
    case OwnedCapture(pid) => c.captures == {} && pid !in c.viewers && c.ending == None
    case OwnedViewer(pid) => c.viewers == {} && pid !in c.captures && c.ending == None
    case NotedEnd(pid, _) => pid in c.captures + c.viewers && c.ending == None && MayEnd(c, pid)
    case EndWriteRaised(pid) => c.ending == Some(pid)
    case ChildGone(pid) => c.ending == Some(pid)
    case VerifiedEpoch => c.captures != {} && c.epochOpen && c.marks.heard == Some(WhileVerifying(None, false, true))
    case LaunchedViewer(paths) =>
      && c.viewers == {} && c.captures != {} && c.watching && c.verified == Some(paths) && c.epochOpen
      && Sound(c.marks.heard) && !c.marks.launching
    case DelayWasReset(_) => c.captures != {} && c.watching && Sound(c.marks.heard)
    case Entered(Running) =>
      && c.captures != {} && c.viewers != {} && c.watching && c.verified == Some(c.epochs) && c.epochOpen
      && Sound(c.marks.heard)
    case Entered(Stopped) => !c.epochOpen
    case _ => true
  }

  /**
   A capture is stopped only on bad news of it, a viewer only when it is to be
   replaced, has ended, or the capture is bad; the final cleanup stops both.
   */
  predicate MayEnd(c: Custody, pid: int) {
    || c.marks.cleaning || Unsound(c.marks.heard)
    || (pid in c.viewers && (c.marks.switching || c.marks.viewerExited))
  }

  function Replay(log: seq<Effect>): Custody {
    if log == [] then NOTHING else After(Replay(log[..|log| - 1]), log[|log| - 1])
  }

  predicate SafeLog(log: seq<Effect>) {
    forall i | 0 <= i < |log| :: Allowed(Replay(log[..i]), log[i])
  }

  lemma LogMore(log: seq<Effect>, e: Effect)
    ensures Replay(log + [e]) == After(Replay(log), e)
    ensures SafeLog(log) && Allowed(Replay(log), e) ==> SafeLog(log + [e])
  {
    hide Allowed, After;
    var more := log + [e];
    assert more[..|log|] == log;
    if SafeLog(log) && Allowed(Replay(log), e) {
      forall i | 0 <= i < |more| ensures Allowed(Replay(more[..i]), more[i]) {
        if i < |log| {
          assert more[..i] == log[..i];
        }
      }
    }
  }

  lemma {:induction false} SafePrefix(log: seq<Effect>, n: nat)
    requires SafeLog(log) && n <= |log|
    ensures SafeLog(log[..n])
  {
    forall i | 0 <= i < n ensures Allowed(Replay(log[..n][..i]), log[..n][i]) {
      assert log[..n][..i] == log[..i];
      assert Allowed(Replay(log[..i]), log[i]);
    }
  }

  // --- What the rules mean over a whole run -----------------------------------------

  /** At every moment at most one capture and one viewer are owned. */
  lemma {:induction false} AtMostOneOfEach(log: seq<Effect>)
    requires SafeLog(log)
    ensures |Replay(log).captures| <= 1 && |Replay(log).viewers| <= 1
  {
    if log != [] {
      var front, last := log[..|log| - 1], log[|log| - 1];
      SafePrefix(log, |log| - 1);
      AtMostOneOfEach(front);
      assert Allowed(Replay(log[..|log| - 1]), log[|log| - 1]);
      hide SafeLog, Allowed, After;
      StillAtMostOne(Replay(front), last);
    }
  }

  lemma StillAtMostOne(c: Custody, e: Effect)
    requires Allowed(c, e) && |c.captures| <= 1 && |c.viewers| <= 1
    ensures |After(c, e).captures| <= 1 && |After(c, e).viewers| <= 1
  {
    hide Allowed, After;
    var pid := ChildrenStep(c, e);
    Removing(c.captures, pid);
    Removing(c.viewers, pid);
  }

  /** A child is registered where there was none, or one is removed. */
  lemma ChildrenStep(c: Custody, e: Effect) returns (pid: int)
    requires Allowed(c, e)
    ensures var r := After(c, e).captures; r == c.captures || r == {pid} || r == c.captures - {pid}
    ensures var r := After(c, e).viewers; r == c.viewers || r == {pid} || r == c.viewers - {pid}
  {
    hide Marked, Sound, Unsound;
    pid := match e
      case OwnedCapture(p) => p
      case OwnedViewer(p) => p
      case ChildGone(p) => p
      case _ => 0;
    if e.OwnedCapture? {
      assert c.captures + {pid} == {pid};
    } else if e.OwnedViewer? {
      assert c.viewers + {pid} == {pid};
    }
  }

  lemma Removing(s: set<int>, x: int)
    ensures |s - {x}| <= |s|
  {
    if x in s {
      assert s == (s - {x}) + {x};
    } else {
      assert s - {x} == s;
    }
  }

  /** Every capture owned when a target is reset or configured again has been given up first. */
  lemma {:induction false} CaptureGoneBeforeNextAttempt(log: seq<Effect>, i: nat, j: nat)
    requires SafeLog(log) && i < j < |log|
    requires log[i].OwnedCapture? && (log[j].RanReset? || log[j].RanConfigure? || log[j].LaunchedCapture?)
    ensures exists k | i < k < j :: log[k] == ChildGone(log[i].pid)
  {
    assert Allowed(Replay(log[..j]), log[j]);
    if forall k | i < k < j :: log[k] != ChildGone(log[i].pid) {
      StillOwned(log, i, j);
      assert false;
    }
  }

  lemma ReplayStep(log: seq<Effect>, j: nat)
    requires 0 < j <= |log|
    ensures Replay(log[..j]) == After(Replay(log[..j - 1]), log[j - 1])
  {
    hide After;
    assert log[..j][..j - 1] == log[..j - 1];
  }

  lemma {:induction false} StillOwned(log: seq<Effect>, i: nat, j: nat)
    requires i < j <= |log| && log[i].OwnedCapture?
    requires forall k | i < k < j :: log[k] != ChildGone(log[i].pid)
    ensures log[i].pid in Replay(log[..j]).captures
  {
    hide Replay, After;
    ReplayStep(log, j);
    if j > i + 1 {
      StillOwned(log, i, j - 1);
    }
    OwnedBy(Replay(log[..j - 1]), log[j - 1], log[i].pid);
  }

  lemma OwnedBy(c: Custody, e: Effect, pid: int)
    ensures e == OwnedCapture(pid) || (pid in c.captures && e != ChildGone(pid)) ==> pid in After(c, e).captures
  {
    hide Marked;
  }

  /** Between releasing the UART lock for a capture and the next reset or configuration it is taken again. */
  lemma {:induction false} UartTakenBack(log: seq<Effect>, i: nat, j: nat)
    requires SafeLog(log) && i < j < |log|
    requires log[i].GaveUartLock? && (log[j].RanReset? || log[j].RanConfigure?)
    ensures exists k | i < k < j :: log[k].TookUartLock?
  {
    assert Allowed(Replay(log[..j]), log[j]);
    if forall k | i < k < j :: !log[k].TookUartLock? {
      StillGiven(log, i, j);
      assert false;
    }
  }

  lemma {:induction false} StillGiven(log: seq<Effect>, i: nat, j: nat)
    requires i < j <= |log| && log[i].GaveUartLock?
    requires forall k | i < k < j :: !log[k].TookUartLock?
    ensures !Replay(log[..j]).uart
  {
    hide Replay, After;
    ReplayStep(log, j);
    if j > i + 1 {
      StillGiven(log, i, j - 1);
    }
    GivenBy(Replay(log[..j - 1]), log[j - 1]);
  }

  lemma GivenBy(c: Custody, e: Effect)
    ensures e.GaveUartLock? || (!c.uart && !e.TookUartLock?) ==> !After(c, e).uart
  {
    hide Marked;
  }

  lemma ReplayNothing(log: seq<Effect>)
    ensures Replay(log[..0]) == NOTHING
  {
  }

  lemma {:induction false} VerifiedSomewhere(log: seq<Effect>, j: nat) returns (i: nat)
    requires j <= |log| && Replay(log[..j]).verified.Some?
    ensures i < j && log[i].VerifiedEpoch? && Some(Replay(log[..i]).epochs) == Replay(log[..j]).verified
  {
    hide Replay;
    ReplayNothing(log);
    ReplayStep(log, j);
    i := j - 1;
    if !log[j - 1].VerifiedEpoch? {
      i := VerifiedSomewhere(log, j - 1);
    }
  }

  // --- Process events -----------------------------------------------------------------

  datatype ProcessEvent = Started(pid: int, role: Role) | Ended(pid: int, role: Role)

  /** The process events the manifest shows after these effects. */
  function EventsOf(log: seq<Effect>): seq<ProcessEvent> {
    if log == [] then []
    else
      var before := EventsOf(log[..|log| - 1]);
      match log[|log| - 1]
      case OwnedCapture(pid) => before + [Started(pid, Capture)]
      case OwnedViewer(pid) => before + [Started(pid, Viewer)]
      case NotedEnd(pid, role) => before + [Ended(pid, role)]
      case _ => before
  }

  lemma EventsMore(log: seq<Effect>, e: Effect)
    ensures EventsOf(log + [e]) == EventsOf(log) + (
      match e
      case OwnedCapture(pid) => [Started(pid, Capture)]
      case OwnedViewer(pid) => [Started(pid, Viewer)]
      case NotedEnd(pid, role) => [Ended(pid, role)]
      case _ => [])
  {
    assert (log + [e])[..|log|] == log;
  }

  /** Processes whose start is among the events and whose end is not. */
  function Live(events: seq<ProcessEvent>): set<int> {
    if events == [] then {}
    else
      var before, last := Live(events[..|events| - 1]), events[|events| - 1];
      if last.Started? then before + {last.pid} else before - {last.pid}
  }

  lemma LiveMore(events: seq<ProcessEvent>, e: ProcessEvent)
    ensures Live(events + [e]) == if e.Started? then Live(events) + {e.pid} else Live(events) - {e.pid}
  {
    assert (events + [e])[..|events|] == events;
  }

  function Registered(log: seq<Effect>): set<int> {
    Replay(log).captures + Replay(log).viewers
  }

  /** Children whose end was noted by a manifest write that raised, and that were not removed after. */
  function Stuck(log: seq<Effect>): set<int> {
    if log == [] then {}
    else
      var before := Stuck(log[..|log| - 1]);
      match log[|log| - 1]
      case EndWriteRaised(pid) => before + {pid}
      case ChildGone(pid) => before - {pid}
      case _ => before
  }

  /** Every registered child is live, or stuck, or the one whose end is being written. */
  predicate Accounted(c: Custody, live: set<int>, stuck: set<int>) {
    var registered := c.captures + c.viewers;
    && live !! stuck && live <= registered && stuck <= registered
    && (forall pid | pid in registered :: pid in live || pid in stuck || c.ending == Some(pid))
    && (c.ending.Some? ==> c.ending.value in registered && c.ending.value !in live)
  }

  lemma AccountStep(c: Custody, live: set<int>, stuck: set<int>, e: Effect)
    requires Accounted(c, live, stuck) && Allowed(c, e)
    ensures match e
      case OwnedCapture(pid) => Accounted(After(c, e), live + {pid}, stuck)
      case OwnedViewer(pid) => Accounted(After(c, e), live + {pid}, stuck)
      case NotedEnd(pid, _) => Accounted(After(c, e), live - {pid}, stuck)
      case EndWriteRaised(pid) => Accounted(After(c, e), live, stuck + {pid})
      case ChildGone(pid) => Accounted(After(c, e), live, stuck - {pid})
      case _ => Accounted(After(c, e), live, stuck)
  {
  }

  lemma {:induction false} EventsAccount(log: seq<Effect>)
    requires SafeLog(log)
    ensures Accounted(Replay(log), Live(EventsOf(log)), Stuck(log))
  {
    hide Allowed, After, Accounted;
    if log == [] {
      NothingAccounted();
    } else {
      var front, last := log[..|log| - 1], log[|log| - 1];
      SafePrefix(log, |log| - 1);
      EventsAccount(front);
      assert Allowed(Replay(front), last);
      AccountStep(Replay(front), Live(EventsOf(front)), Stuck(front), last);
      LiveStep(log);
    }
  }

  lemma NothingAccounted()
    ensures Accounted(NOTHING, {}, {})
  {
  }

  lemma LiveStep(log: seq<Effect>)
    requires log != []
    ensures var before := Live(EventsOf(log[..|log| - 1]));
      Live(EventsOf(log)) ==
      match log[|log| - 1]
      case OwnedCapture(pid) => before + {pid}
      case OwnedViewer(pid) => before + {pid}
      case NotedEnd(pid, _) => before - {pid}
      case _ => before
  {
    var events := EventsOf(log[..|log| - 1]);
    if EventsOf(log) != events {
      LiveMore(events, EventsOf(log)[|events|]);
    }
    hide Live;
  }

  /** The raising manifest write at `i` was followed by the removal of its child. */
  predicate Settled(log: seq<Effect>, i: nat)
    requires i < |log| && log[i].EndWriteRaised?
  {
    exists j | i < j < |log| :: log[j] == ChildGone(log[i].pid)
  }

  lemma {:induction false} StuckIff(log: seq<Effect>, pid: int)
    ensures pid in Stuck(log) <==> exists i | 0 <= i < |log| :: log[i] == EndWriteRaised(pid) && !Settled(log, i)
  {
    if log != [] {
      var front, last := log[..|log| - 1], log[|log| - 1];
      StuckIff(front, pid);
      forall i | 0 <= i < |front| && front[i] == EndWriteRaised(pid)
        ensures Settled(log, i) <==> Settled(front, i) || last == ChildGone(pid)
      {
        if last == ChildGone(pid) {
          assert log[|log| - 1] == ChildGone(log[i].pid);
        }
        if Settled(front, i) {
          var j :| i < j < |front| && front[j] == ChildGone(front[i].pid);
          assert log[j] == ChildGone(log[i].pid);
        }
        if Settled(log, i) && last != ChildGone(pid) {
          var j :| i < j < |log| && log[j] == ChildGone(log[i].pid);
          assert front[j] == ChildGone(front[i].pid);
        }
      }
      if last == EndWriteRaised(pid) {
        assert !Settled(log, |log| - 1);
      }
      assert forall i | 0 <= i < |front| :: front[i] == log[i];
    }
  }

  lemma StuckIsTheDifference(c: Custody, live: set<int>, stuck: set<int>)
    requires Accounted(c, live, stuck) && c.ending == None
    ensures live == c.captures + c.viewers <==> forall pid :: pid !in stuck
  {
    if forall pid :: pid !in stuck {
      forall pid | pid in c.captures + c.viewers ensures pid in live {
      }
      assert live == c.captures + c.viewers;
    }
  }

  /**
   Whenever no end is just being written, the children started and not ended
   according to the events are exactly the registered ones, if and only if every
   manifest write that raised while an end was recorded was followed by the
   removal of that child.
   */
  lemma EventsBalanceIff(log: seq<Effect>, n: nat)
    requires SafeLog(log) && n <= |log| && Replay(log[..n]).ending == None
    ensures Live(EventsOf(log[..n])) == Registered(log[..n]) <==>
      forall i | 0 <= i < n && log[i].EndWriteRaised? :: Settled(log[..n], i)
  {
    var front := log[..n];
    SafePrefix(log, n);
    EventsAccount(front);
    hide Accounted, SafeLog, Live, EventsOf, Stuck, Replay, Settled;
    StuckIsTheDifference(Replay(front), Live(EventsOf(front)), Stuck(front));
    if forall pid :: pid !in Stuck(front) {
      forall i | 0 <= i < n && log[i].EndWriteRaised? ensures Settled(log[..n], i) {
        StuckIff(front, log[i].pid);
        assert front[i] == EndWriteRaised(log[i].pid);
      }
    } else {
      var pid :| pid in Stuck(front);
      StuckIff(front, pid);
      var i :| 0 <= i < |front| && front[i] == EndWriteRaised(pid) && !Settled(front, i);
      assert log[i].EndWriteRaised? && !Settled(log[..n], i);
    }
  }
}
