/**
 What the rules of the radar supervisor mean for a whole run: laws that speak
 only of the effects and of what the outside world said, and of where in the run
 they stand.
 */
module SupervisorLaws {
  import opened Wrappers
  import opened SupervisorCustody
  import RadarSupervisor

  /** At `k` the news came, and none of the capture since, up to `j`. */
  predicate LastNews(log: seq<Effect>, k: int, j: int, news: News) {
    0 <= k < j <= |log| && log[k] == Heard(news) && forall m | k < m < j :: !OnCapture(log[m])
  }

  predicate LastPorts(log: seq<Effect>, k: int, j: int, presence: Presence) {
    && 0 <= k < j <= |log| && log[k] == Heard(Ports(presence))
    && forall m | k < m < j :: !(log[m].Heard? && log[m].news.Ports?)
  }

  // --- What a mark stands for -------------------------------------------------------------

  lemma StepMarks(log: seq<Effect>, j: nat)
    requires 0 < j <= |log|
    ensures Replay(log[..j]).marks == Marked(Replay(log[..j - 1]).marks, log[j - 1])
  {
    hide Replay;
    ReplayStep(log, j);
  }

  lemma NoMarks(log: seq<Effect>)
    ensures Replay(log[..0]).marks == UNMARKED
  {
  }


  /** What is marked as heard of the capture is its last news. */
  lemma {:induction false} HeardLast(log: seq<Effect>, j: nat, news: News) returns (k: int)
    requires j <= |log| && Replay(log[..j]).marks.heard == Some(news)
    ensures LastNews(log, k, j, news)
  {
    hide Replay;
    if j == 0 {
      NoMarks(log);
      assert false;
    } else {
      StepMarks(log, j);
      k := j - 1;
      if !OnCapture(log[j - 1]) {
        k := HeardLast(log, j - 1, news);
      }
    }
  }


  lemma {:induction false} PortLast(log: seq<Effect>, j: nat, presence: Presence) returns (k: int)
    requires j <= |log| && Replay(log[..j]).marks.port == Some(presence)
    ensures LastPorts(log, k, j, presence)
  {
    hide Replay;
    if j == 0 {
      NoMarks(log);
      assert false;
    } else {
      StepMarks(log, j);
      k := j - 1;
      if !(log[j - 1].Heard? && log[j - 1].news.Ports?) {
        k := PortLast(log, j - 1, presence);
      }
    }
  }

  // --- Verification -----------------------------------------------------------------------

  /** An epoch counts as verified only when the last news of its capture was that it runs and is verified. */
  lemma VerifiedOnNews(log: seq<Effect>, i: nat) returns (k: int)
    requires SafeLog(log) && i < |log| && log[i].VerifiedEpoch?
    ensures LastNews(log, k, i, WhileVerifying(None, false, true))
  {
    assert Allowed(Replay(log[..i]), log[i]);
    hide Replay, SafeLog;
    k := HeardLast(log, i, WhileVerifying(None, false, true));
  }

  /** Good news of a capture, in the words of the outside world. */
  predicate GoodNews(news: News) {
    news == WhileVerifying(None, false, true) || news == WhileRunning(None, false, false)
  }

  /** Bad news of a capture: it ended, its port is gone, or the watchdog reports a fault. */
  predicate BadNews(news: News) {
    || (news.WhileVerifying? && (news.exitCode.Some? || news.fault))
    || (news.WhileRunning? && (news.exitCode.Some? || news.portMissing || news.fault))
  }

  /** The last news of the capture before `j` is good, and came at `k`. */
  predicate LastGood(log: seq<Effect>, k: int, j: int) {
    0 <= k < j <= |log| && log[k].Heard? && GoodNews(log[k].news) && forall m | k < m < j :: !OnCapture(log[m])
  }

  predicate LastBad(log: seq<Effect>, k: int, j: int) {
    0 <= k < j <= |log| && log[k].Heard? && BadNews(log[k].news) && forall m | k < m < j :: !OnCapture(log[m])
  }

  lemma SoundIff(news: News)
    ensures Sound(Some(news)) <==> GoodNews(news)
    ensures Unsound(Some(news)) <==> BadNews(news)
  {
  }

  /**
   A viewer is only launched on an epoch whose watchdog said that the running
   capture is verified, and with no bad news of the capture after that.
   */
  lemma ViewerOnVerifiedEpoch(log: seq<Effect>, j: nat) returns (k: int, i: int, last: int)
    requires SafeLog(log) && j < |log| && log[j].LaunchedViewer?
    ensures k < i < j && LastNews(log, k, i, WhileVerifying(None, false, true)) && log[i].VerifiedEpoch?
    ensures Replay(log[..i]).epochs == log[j].paths && LastGood(log, last, j)
  {
    assert Allowed(Replay(log[..j]), log[j]);
    i := VerifiedSomewhere(log, j);
    hide Replay, SafeLog;
    k := VerifiedOnNews(log, i);
    var news := Replay(log[..j]).marks.heard.value;
    SoundIff(news);
    last := HeardLast(log, j, news);
  }

  /** RUNNING is entered only while the last news of the capture is good. */
  lemma RunningOnGoodNews(log: seq<Effect>, j: nat) returns (k: int)
    requires SafeLog(log) && j < |log| && log[j] == Entered(Running)
    ensures LastGood(log, k, j)
  {
    assert Allowed(Replay(log[..j]), log[j]);
    hide Replay, SafeLog;
    var news := Replay(log[..j]).marks.heard.value;
    SoundIff(news);
    k := HeardLast(log, j, news);
  }

  /** The delay is reset only while the last news of the capture is good. */
  lemma ResetOnGoodNews(log: seq<Effect>, j: nat) returns (k: int)
    requires SafeLog(log) && j < |log| && log[j].DelayWasReset?
    ensures LastGood(log, k, j)
  {
    assert Allowed(Replay(log[..j]), log[j]);
    hide Replay, SafeLog;
    var news := Replay(log[..j]).marks.heard.value;
    SoundIff(news);
    k := HeardLast(log, j, news);
  }

  // --- Why a capture is stopped -------------------------------------------------------------

  lemma {:induction false} CleaningBegan(log: seq<Effect>, j: nat) returns (k: int)
    requires j <= |log| && Replay(log[..j]).marks.cleaning
    ensures 0 <= k < j && log[k].BeganCleanup?
  {
    hide Replay;
    if j == 0 {
      NoMarks(log);
      assert false;
    } else {
      StepMarks(log, j);
      k := j - 1;
      if !log[j - 1].BeganCleanup? {
        k := CleaningBegan(log, j - 1);
      }
    }
  }


  lemma {:induction false} RolesApart(log: seq<Effect>, j: nat)
    requires SafeLog(log) && j <= |log|
    ensures Replay(log[..j]).captures !! Replay(log[..j]).viewers
  {
    if j > 0 {
      RolesApart(log, j - 1);
      assert Allowed(Replay(log[..j - 1]), log[j - 1]);
      hide Replay, SafeLog, After, Allowed;
      ReplayStep(log, j);
      ApartBy(Replay(log[..j - 1]), log[j - 1]);
    }
  }

  lemma ApartBy(c: Custody, e: Effect)
    requires Allowed(c, e) && c.captures !! c.viewers
    ensures After(c, e).captures !! After(c, e).viewers
  {
    hide Marked;
  }

  /** A capture is stopped only after bad news of it, unless the final cleanup began. */
  lemma CaptureStoppedOnBadNews(log: seq<Effect>, j: nat) returns (k: int)
    requires SafeLog(log) && j < |log| && log[j].NotedEnd? && log[j].pid in Replay(log[..j]).captures
    ensures 0 <= k < j
    ensures log[k].BeganCleanup? || LastBad(log, k, j)
  {
    assert Allowed(Replay(log[..j]), log[j]);
    RolesApart(log, j);
    hide Replay, SafeLog;
    if Replay(log[..j]).marks.cleaning {
      k := CleaningBegan(log, j);
    } else {
      var news := Replay(log[..j]).marks.heard.value;
      SoundIff(news);
      k := HeardLast(log, j, news);
    }
  }

  // --- Attempts -----------------------------------------------------------------------------

  /** The target is reset and configured only while the ports seen last hold the selected one. */
  lemma PortSeenFirst(log: seq<Effect>, j: nat) returns (k: int)
    requires SafeLog(log) && j < |log| && (log[j].RanReset? || log[j].RanConfigure?)
    ensures LastPorts(log, k, j, Selected)
  {
    assert Allowed(Replay(log[..j]), log[j]);
    hide Replay, SafeLog;
    k := PortLast(log, j, Selected);
  }


  lemma {:induction false} NotRested(log: seq<Effect>, i: nat, j: nat)
    requires i < j <= |log| && log[i].RanReset? && forall m | i < m < j :: !log[m].BackedOff?
    ensures !Replay(log[..j]).marks.rested
  {
    hide Replay;
    StepMarks(log, j);
    if i + 1 < j {
      NotRested(log, i, j - 1);
    }
  }

  /** Between two resets of the target a delay was waited. */
  lemma DelayBetweenResets(log: seq<Effect>, i: nat, j: nat)
    requires SafeLog(log) && i < j < |log| && log[i].RanReset? && log[j].RanReset?
    ensures exists m | i < m < j :: log[m].BackedOff?
  {
    assert Allowed(Replay(log[..j]), log[j]);
    if forall m | i < m < j :: !log[m].BackedOff? {
      NotRested(log, i, j);
      assert false;
    }
  }


  lemma {:induction false} RanIff(log: seq<Effect>, j: nat)
    requires j <= |log|
    ensures Replay(log[..j]).marks.ran <==> exists m | 0 <= m < j :: log[m] == Entered(Running)
  {
    hide Replay;
    if j == 0 {
      NoMarks(log);
    } else {
      StepMarks(log, j);
      RanIff(log, j - 1);
    }
  }

  /** An attempt is a recovery exactly when RUNNING was entered before. */
  lemma RecoversIff(log: seq<Effect>, j: nat)
    requires SafeLog(log) && j < |log| && log[j].BeganAttempt?
    ensures log[j].recovering <==> exists m | 0 <= m < j :: log[m] == Entered(Running)
  {
    assert Allowed(Replay(log[..j]), log[j]);
    hide Replay, SafeLog;
    RanIff(log, j);
  }

  /** The attempt the effect at `j` belongs to began at `i`. */
  predicate BeganAt(log: seq<Effect>, i: int, j: int) {
    0 <= i < j <= |log| && log[i].BeganAttempt? && forall m | i < m < j :: !log[m].BeganAttempt?
  }

  lemma {:induction false} RecoveringSince(log: seq<Effect>, i: nat, j: nat)
    requires BeganAt(log, i, j)
    ensures Replay(log[..j]).marks.recovering == log[i].recovering
  {
    hide Replay;
    StepMarks(log, j);
    if i + 1 < j {
      RecoveringSince(log, i, j - 1);
    }
  }



  /** A reset was carried out, and none was begun since. */
  predicate ResetSince(log: seq<Effect>, k: int, j: int) {
    0 <= k < j <= |log| && log[k].ResetDone? && forall m | k < m < j :: !log[m].RanReset?
  }

  /** The port was seen absent, and the target not configured since. */
  predicate AbsentSince(log: seq<Effect>, k: int, j: int) {
    0 <= k < j <= |log| && SaysAbsent(log[k]) && forall m | k < m < j :: !log[m].RanConfigure?
  }

  lemma {:induction false} ResetWasDone(log: seq<Effect>, j: nat) returns (k: int)
    requires j <= |log| && Replay(log[..j]).marks.resetDone
    ensures ResetSince(log, k, j)
  {
    hide Replay;
    if j == 0 {
      NoMarks(log);
      assert false;
    } else {
      StepMarks(log, j);
      k := j - 1;
      if !log[j - 1].ResetDone? {
        k := ResetWasDone(log, j - 1);
      }
    }
  }

  lemma {:induction false} WasAbsent(log: seq<Effect>, j: nat) returns (k: int)
    requires j <= |log| && Replay(log[..j]).marks.absent
    ensures AbsentSince(log, k, j)
  {
    hide Replay;
    if j == 0 {
      NoMarks(log);
      assert false;
    } else {
      StepMarks(log, j);
      k := j - 1;
      if !(SaysAbsent(log[j - 1])) {
        k := WasAbsent(log, j - 1);
      }
    }
  }

  /**
   In a recovery the target is configured only after a reset was carried out
   or, where there is none to carry out, after its port was seen absent since it
   was configured last.
   */
  lemma RecoveredFromReset(log: seq<Effect>, i: nat, j: nat) returns (k: int)
    requires SafeLog(log) && j < |log| && log[j].RanConfigure? && BeganAt(log, i, j) && log[i].recovering
    ensures ResetSince(log, k, j) || AbsentSince(log, k, j)
  {
    assert Allowed(Replay(log[..j]), log[j]);
    hide Replay, SafeLog;
    RecoveringSince(log, i, j);
    if Replay(log[..j]).marks.resetDone {
      k := ResetWasDone(log, j);
    } else {
      k := WasAbsent(log, j);
    }
  }

  // --- Locks and epochs ------------------------------------------------------------------------

  /** The lock was taken and not given back since. */
  predicate HeldSince(log: seq<Effect>, k: int, j: int, took: Effect, gave: Effect) {
    0 <= k < j <= |log| && log[k] == took && forall m | k < m < j :: log[m] != gave
  }

  lemma {:induction false} LockTaken(log: seq<Effect>, j: nat, owner: bool) returns (k: int)
    requires j <= |log| && (if owner then Replay(log[..j]).owner else Replay(log[..j]).uart)
    ensures owner ==> HeldSince(log, k, j, TookOwnerLock, GaveOwnerLock)
    ensures !owner ==> HeldSince(log, k, j, TookUartLock, GaveUartLock)
  {
    hide Replay, After;
    if j == 0 {
      ReplayNothing(log);
      assert false;
    } else {
      ReplayStep(log, j);
      LocksBy(Replay(log[..j - 1]), log[j - 1]);
      k := j - 1;
      if log[j - 1] != (if owner then TookOwnerLock else TookUartLock) {
        k := LockTaken(log, j - 1, owner);
      }
    }
  }

  lemma LocksBy(c: Custody, e: Effect)
    ensures After(c, e).owner == (e.TookOwnerLock? || (c.owner && !e.GaveOwnerLock?))
    ensures After(c, e).uart == (e.TookUartLock? || (c.uart && !e.GaveUartLock?))
    ensures After(c, e).epochOpen == (e.OpenedEpoch? || (c.epochOpen && !e.ClosedEpoch?))
  {
    hide Marked;
  }

  /** The target is reset and configured only while the supervisor holds both locks. */
  lemma LocksHeld(log: seq<Effect>, j: nat) returns (owner: int, uart: int)
    requires SafeLog(log) && j < |log| && (log[j].RanReset? || log[j].RanConfigure?)
    ensures HeldSince(log, owner, j, TookOwnerLock, GaveOwnerLock) && HeldSince(log, uart, j, TookUartLock, GaveUartLock)
  {
    assert Allowed(Replay(log[..j]), log[j]);
    hide Replay, SafeLog;
    owner := LockTaken(log, j, true);
    uart := LockTaken(log, j, false);
  }

  lemma {:induction false} EpochOpened(log: seq<Effect>, j: nat) returns (k: int)
    requires j <= |log| && Replay(log[..j]).epochOpen
    ensures HeldSince(log, k, j, OpenedEpoch, ClosedEpoch)
  {
    hide Replay, After;
    if j == 0 {
      ReplayNothing(log);
      assert false;
    } else {
      ReplayStep(log, j);
      LocksBy(Replay(log[..j - 1]), log[j - 1]);
      k := j - 1;
      if !log[j - 1].OpenedEpoch? {
        k := EpochOpened(log, j - 1);
      }
    }
  }

  /** A capture is launched, an epoch verified and a viewer launched only in an open epoch. */
  lemma InOpenEpoch(log: seq<Effect>, j: nat) returns (k: int)
    requires SafeLog(log) && j < |log| && (log[j].LaunchedCapture? || log[j].VerifiedEpoch? || log[j].LaunchedViewer?)
    ensures HeldSince(log, k, j, OpenedEpoch, ClosedEpoch)
  {
    assert Allowed(Replay(log[..j]), log[j]);
    hide Replay, SafeLog;
    k := EpochOpened(log, j);
  }

  // --- Viewers --------------------------------------------------------------------------------


  lemma {:induction false} StillLaunching(log: seq<Effect>, i: nat, j: nat)
    requires i < j <= |log| && log[i].LaunchedViewer?
    requires forall m | i < m < j :: !log[m].OwnedViewer? && !log[m].BackedOff? && !log[m].VerifiedEpoch?
    ensures Replay(log[..j]).marks.launching
  {
    hide Replay;
    StepMarks(log, j);
    if i + 1 < j {
      StillLaunching(log, i, j - 1);
    }
  }

  /** A viewer is launched again only after the last was registered, a delay was waited, or another epoch verified. */
  lemma NoSecondLaunch(log: seq<Effect>, i: nat, j: nat)
    requires SafeLog(log) && i < j < |log| && log[i].LaunchedViewer? && log[j].LaunchedViewer?
    ensures exists m | i < m < j :: log[m].OwnedViewer? || log[m].BackedOff? || log[m].VerifiedEpoch?
  {
    assert Allowed(Replay(log[..j]), log[j]);
    if forall m | i < m < j :: !log[m].OwnedViewer? && !log[m].BackedOff? && !log[m].VerifiedEpoch? {
      StillLaunching(log, i, j);
      assert false;
    }
  }

  // --- Delays ---------------------------------------------------------------------------------

  predicate OnDelay(e: Effect) {
    e.BackedOff? || e.DelayWasReset?
  }


  /** With nothing done to the delay in between, the count of back-offs stays. */
  lemma {:induction false} BackoffsSame(log: seq<Effect>, i: nat, j: nat)
    requires i <= j <= |log| && forall m | i <= m < j :: !OnDelay(log[m])
    ensures Replay(log[..j]).marks.backoffs == Replay(log[..i]).marks.backoffs
  {
    hide Replay;
    if i < j {
      StepMarks(log, j);
      BackoffsSame(log, i, j - 1);
    }
  }

  lemma BackoffStep(log: seq<Effect>, i: nat)
    requires i < |log|
    ensures Replay(log[..i + 1]).marks.backoffs ==
      if log[i].BackedOff? then Replay(log[..i]).marks.backoffs + 1
      else if log[i].DelayWasReset? then 0 else Replay(log[..i]).marks.backoffs
  {
    hide Replay;
    StepMarks(log, i + 1);
  }

  /**
   Every delay waited is twice the one before it, up to the maximum; the first,
   and the first after a reset, is the initial one.
   */
  lemma DelayLaw(cfg: RadarSupervisor.Config, log: seq<Effect>, i: int, j: nat)
    requires 0.0 < cfg.retryInitial <= cfg.retryMax && RadarSupervisor.DelaysInLog(cfg, log)
    requires -1 <= i < j < |log| && log[j].BackedOff? && forall m | i < m < j :: !OnDelay(log[m])
    requires i == -1 || OnDelay(log[i])
    ensures i >= 0 && log[i].BackedOff? ==>
      log[j].delay == if log[i].delay * 2.0 <= cfg.retryMax then log[i].delay * 2.0 else cfg.retryMax
    ensures i == -1 || log[i].DelayWasReset? ==> log[j].delay == cfg.retryInitial
    ensures i >= 0 && log[i].DelayWasReset? ==> log[i].healthy >= cfg.stableRunningReset
  {
    hide RadarSupervisor.DelaysInLog, RadarSupervisor.DelayAfter, Replay;
    var n := DelayedBy(cfg, log, j);
    BackoffsSame(log, i + 1, j);
    RadarSupervisor.DelayDoubles(cfg, 0);
    if i == -1 {
      NoMarks(log);
    } else {
      var before := DelayedBy(cfg, log, i);
      BackoffStep(log, i);
      RadarSupervisor.DelayDoubles(cfg, before);
    }
  }

  lemma DelayedBy(cfg: RadarSupervisor.Config, log: seq<Effect>, j: nat) returns (n: nat)
    requires RadarSupervisor.DelaysInLog(cfg, log) && j < |log|
    ensures n == Replay(log[..j]).marks.backoffs
    ensures log[j].BackedOff? ==> log[j].delay == RadarSupervisor.DelayAfter(cfg, n)
    ensures log[j].DelayWasReset? ==> log[j].healthy >= cfg.stableRunningReset
  {
    hide Replay, RadarSupervisor.DelayAfter;
    n := Replay(log[..j]).marks.backoffs;
    assert RadarSupervisor.DelayRule(cfg, n, log[j]);
  }
}
