/** Whether a paused session is under a timeout: the watchdogs, and the calls that will arm one. */
module WatchdogCover {
  import opened Basics
  import opened SlotScheduler

  /** Calls that arm the timer when they end normally. */
  function Keepers(s: State, sid: Sid): set<CallId> {
    set id | id in s.calls && s.calls[id].sid == sid && !Entering(s.calls[id])
  }

  predicate Guarded(s: State, sid: Sid) {
    sid in s.timers || Keepers(s, sid) != {}
  }

  /** A pause that fails after its bookkeeping, or a resume that gives up before it holds a permit:
      neither re-arms the timer. */
  predicate Forsakes(cfg: Config, s: State, e: Step, sid: Sid) {
    && Enabled(cfg, s, e)
    && (e.ResumeAbort? || (e.PauseAbort? && s.calls[e.id].PauseWrite?))
    && s.calls[e.id].sid == sid
  }

  lemma TimerStays(cfg: Config, s: State, e: Step, sid: Sid)
    requires sid in s.timers && sid in Apply(cfg, s, e).paused && e != ResumeCall(sid)
    ensures sid in Apply(cfg, s, e).timers
  {
  }

  lemma KeeperStays(cfg: Config, s: State, e: Step, sid: Sid, id: CallId)
    requires Inv(s) && id in Keepers(s, sid) && sid in Apply(cfg, s, e).paused && !Forsakes(cfg, s, e, sid)
    ensures sid in Apply(cfg, s, e).timers || id in Keepers(Apply(cfg, s, e), sid)
  {
  }

  lemma StepGuard(cfg: Config, s: State, e: Step, sid: Sid)
    requires Inv(s) && !Forsakes(cfg, s, e, sid)
    requires sid in s.paused ==> Guarded(s, sid)
    ensures sid in Apply(cfg, s, e).paused ==> Guarded(Apply(cfg, s, e), sid)
  {
    var t := Apply(cfg, s, e);
    if sid in t.paused && Enabled(cfg, s, e) {
      if e.PauseOk? && s.calls[e.id].sid == sid {
        assert e.id in Keepers(t, sid);
      } else if e == ResumeCall(sid) {
        assert s.nextCall in Keepers(t, sid);
      } else if sid in s.timers {
        TimerStays(cfg, s, e, sid);
      } else {
        var id :| id in Keepers(s, sid);
        KeeperStays(cfg, s, e, sid, id);
      }
    }
  }

  /** The forsaking exit was the last thing that guarded the paused session. */
  predicate Abandons(cfg: Config, s: State, e: Step, sid: Sid) {
    Forsakes(cfg, s, e, sid) && sid in s.paused && sid !in s.timers && Keepers(s, sid) == {e.id}
  }

  lemma ForsakenKeepers(cfg: Config, s: State, e: Step, sid: Sid)
    requires Forsakes(cfg, s, e, sid)
    ensures var t := Apply(cfg, s, e);
            t.paused == s.paused && t.timers == s.timers && Keepers(t, sid) == Keepers(s, sid) - {e.id}
    ensures e.id in Keepers(s, sid)
  {
  }

  /** A step leaves a guarded paused session without a guard exactly when it abandons it. */
  lemma StepGuardLostIff(cfg: Config, s: State, e: Step, sid: Sid)
    requires Inv(s)
    requires sid in s.paused ==> Guarded(s, sid)
    ensures (sid in Apply(cfg, s, e).paused && !Guarded(Apply(cfg, s, e), sid)) <==> Abandons(cfg, s, e, sid)
  {
    if Forsakes(cfg, s, e, sid) {
      ForsakenKeepers(cfg, s, e, sid);
    } else {
      StepGuard(cfg, s, e, sid);
    }
  }

  /** At the end of the run and of all its prefixes the session, if paused, is guarded. */
  predicate GuardedThroughout(cfg: Config, ev: seq<Step>, sid: Sid) {
    && (sid in After(cfg, ev).paused ==> Guarded(After(cfg, ev), sid))
    && (ev == [] || GuardedThroughout(cfg, ev[..|ev| - 1], sid))
  }

  predicate NeverAbandoned(cfg: Config, ev: seq<Step>, sid: Sid) {
    ev == []
    || (!Abandons(cfg, After(cfg, ev[..|ev| - 1]), ev[|ev| - 1], sid) && NeverAbandoned(cfg, ev[..|ev| - 1], sid))
  }

  /** Throughout a run a paused session has a live watchdog, or a call under way that will arm one,
      exactly when no step of the run abandons it. */
  lemma {:induction false} PausedSessionsGuardedIff(cfg: Config, ev: seq<Step>, sid: Sid)
    ensures GuardedThroughout(cfg, ev, sid) <==> NeverAbandoned(cfg, ev, sid)
  {
    if ev != [] {
      var before := ev[..|ev| - 1];
      PausedSessionsGuardedIff(cfg, before, sid);
      MarkerIsPausedSet(cfg, before);
      if GuardedThroughout(cfg, before, sid) {
        assert sid in After(cfg, before).paused ==> Guarded(After(cfg, before), sid);
        StepGuardLostIff(cfg, After(cfg, before), ev[|ev| - 1], sid);
      }
    }
  }

  /** A pause whose row write fails leaves a paused session that nothing will time out. */
  lemma FailedWriteUnguarded(cfg: Config, sid: Sid)
    requires cfg.maxConcurrent >= 1 && cfg.maxPaused >= 1
    ensures var s := After(cfg, Lifecycle(sid) + [PauseAbort(0)]);
            sid in s.paused && !Guarded(s, sid)
  {
    FirstPause(cfg, sid);
    AfterThen(cfg, Lifecycle(sid), PauseAbort(0));
  }

  function ResumeGivenUp(sid: Sid): seq<Step> {
    Lifecycle(sid) + [PauseDone(0)] + [ResumeCall(sid)] + [ResumeAbort(1)]
  }

  /** So does a resume that gives up before it holds a permit: it disarmed the watchdog and does not
      arm it again. */
  lemma GivenUpResumeUnguarded(cfg: Config, sid: Sid)
    requires cfg.maxConcurrent >= 1 && cfg.maxPaused >= 1
    ensures var s := After(cfg, ResumeGivenUp(sid));
            sid in s.paused && !Guarded(s, sid)
  {
    FirstPause(cfg, sid);
    var e1 := Lifecycle(sid) + [PauseDone(0)];
    var e2 := e1 + [ResumeCall(sid)];
    AfterThen(cfg, Lifecycle(sid), PauseDone(0));
    assert After(cfg, e1).calls == map[];
    AfterThen(cfg, e1, ResumeCall(sid));
    assert After(cfg, e2).calls == map[1 := ResumeAnchor(sid)] && After(cfg, e2).timers == {};
    AfterThen(cfg, e2, ResumeAbort(1));
    assert After(cfg, ResumeGivenUp(sid)).calls == map[];
  }
}
