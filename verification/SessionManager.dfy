/** SessionManager's mutable scheduling state and the stretches of code that update it. Each method
    is one stretch between two `await`s and is proved to take the step of the same name in
    SlotScheduler, so what is proved there over runs holds of this object. */
module SessionManagerState {
  import opened Basics
  import opened SlotScheduler

  /** Every stretch keeps the invariant and moves the slot ledger by its shift. */
  lemma Kept(cfg: Config, s: State, e: Step)
    requires Inv(s)
    ensures Inv(Apply(cfg, s, e)) && Total(Apply(cfg, s, e)) == Total(s) + Shift(cfg, s, e)
  {
    StepKeepsMarker(cfg, s, e);
    StepKeepsCalls(cfg, s, e);
    StepLedger(cfg, s, e);
  }

  lemma PauseShift(cfg: Config, s: State, id: CallId)
    requires Inv(s) && Enabled(cfg, s, PauseOk(id))
    ensures Inv(Apply(cfg, s, PauseOk(id)))
    ensures s.calls[id].sid in s.runs
    ensures Total(Apply(cfg, s, PauseOk(id)))
         == Total(s) + if s.calls[id].sid !in s.paused && s.runs[s.calls[id].sid] == Ended then 1 else 0
  {
    Kept(cfg, s, PauseOk(id));
  }

  lemma FinishShift(cfg: Config, s: State, sid: Sid)
    requires Inv(s)
    ensures Inv(Apply(cfg, s, RunFinish(sid))) && Total(Apply(cfg, s, RunFinish(sid))) == Total(s)
  {
    Kept(cfg, s, RunFinish(sid));
  }

  class SessionManager {
    const cfg: Config
    var sem: nat
    var phases: map<Sid, Phase>
    var bridges: set<Sid>
    var apiKeyBySession: map<Sid, Key>
    var pausedSet: set<Sid>
    var pausedHoldsSlot: set<Sid>
    var pausedByKey: map<Key, int>
    var pausedTimers: set<Sid>
    var calls: map<CallId, Call>
    var nextCall: CallId

    function View(): State
      reads this
    {
      State(sem, phases, bridges, apiKeyBySession, pausedSet, pausedHoldsSlot, pausedByKey, pausedTimers, calls,
          nextCall)
    }

    /** The marker is the paused set, calls and bridges belong to started runs, tallies are positive. */
    ghost predicate Valid()
      reads this
    {
      Inv(View())
    }

    /** Free permits + runs that own one + resumes that hold one. */
    ghost function Slots(): int
      reads this
    {
      Total(View())
    }

    constructor (cfg: Config)
      ensures this.cfg == cfg && View() == Init(cfg) && Valid() && Slots() == cfg.maxConcurrent
    {
      this.cfg := cfg;
      sem, phases, bridges, apiKeyBySession := cfg.maxConcurrent, map[], {}, map[];
      pausedSet, pausedHoldsSlot, pausedByKey := {}, {}, map[];
      pausedTimers, calls, nextCall := {}, map[], 0;
    }

    method SubmitSession(sid: Sid, key: Option<Key>)
      requires Valid()
      requires sid !in phases
      modifies this`phases, this`apiKeyBySession
      ensures View() == Apply(cfg, old(View()), Submit(sid, key))
      ensures Valid() && Slots() == old(Slots())
      ensures phases == old(phases)[sid := Queued]
      ensures apiKeyBySession
           == if key.Some? then old(apiKeyBySession)[sid := key.value] else old(apiKeyBySession) - {sid}
    {
      Kept(cfg, View(), Submit(sid, key));
      if key.Some? {
        apiKeyBySession := apiKeyBySession[sid := key.value];
      } else {
        apiKeyBySession := apiKeyBySession - {sid};
      }
      phases := phases[sid := Queued];
    }

    method RunAcquireSlot(sid: Sid)
      requires Valid()
      requires sid in phases && phases[sid] == Queued && sem > 0
      modifies this`sem, this`phases
      ensures View() == Apply(cfg, old(View()), RunAcquire(sid))
      ensures Valid() && Slots() == old(Slots())
      ensures sem == old(sem) - 1 && phases == old(phases)[sid := Running]
    {
      Kept(cfg, View(), RunAcquire(sid));
      sem := sem - 1;
      phases := phases[sid := Running];
    }

    method RunDrop(sid: Sid)
      requires Valid()
      requires sid in phases && phases[sid] == Queued
      modifies this`phases
      ensures View() == Apply(cfg, old(View()), RunDropped(sid))
      ensures Valid() && Slots() == old(Slots())
      ensures phases == old(phases)[sid := Ended]
    {
      Kept(cfg, View(), RunDropped(sid));
      phases := phases[sid := Ended];
    }

    method RegisterBridge(sid: Sid)
      requires Valid()
      requires sid in phases && phases[sid] == Running
      modifies this`bridges
      ensures View() == Apply(cfg, old(View()), BridgeUp(sid))
      ensures Valid() && Slots() == old(Slots())
      ensures bridges == old(bridges) + {sid}
    {
      Kept(cfg, View(), BridgeUp(sid));
      bridges := bridges + {sid};
    }

    /** The first stretch of `_run`'s finally block: a permit that is given back was owned. */
    method RunFinally(sid: Sid)
      requires Valid()
      requires sid in phases && phases[sid] != Ended
      modifies this`sem, this`phases, this`bridges, this`apiKeyBySession, this`pausedSet, this`pausedHoldsSlot,
               this`pausedByKey, this`pausedTimers
      ensures View() == Apply(cfg, old(View()), RunFinish(sid))
      ensures Valid() && Slots() == old(Slots())
      ensures sem == old(sem) + old(if phases[sid] == Running && sid !in pausedHoldsSlot then 1 else 0)
      ensures phases == old(phases)[sid := Ended] && bridges == old(bridges) - {sid}
      ensures apiKeyBySession == old(apiKeyBySession) - {sid} && pausedTimers == old(pausedTimers) - {sid}
      ensures pausedSet == old(pausedSet) - {sid}
    {
      ghost var before, after := View(), Apply(cfg, View(), RunFinish(sid));
      var acquiredSlot := phases[sid] == Running;
      sem := sem + if acquiredSlot && sid !in pausedHoldsSlot then 1 else 0;
      ReleasePauseBookkeeping(sid, false);
      ForgetSession(sid);
      assert View() == after;
      FinishShift(cfg, before, sid);
    }

    /** The session leaves the tables that are not about pausing. */
    method ForgetSession(sid: Sid)
      modifies this`pausedTimers, this`bridges, this`apiKeyBySession, this`phases
      ensures pausedTimers == old(pausedTimers) - {sid} && bridges == old(bridges) - {sid}
      ensures apiKeyBySession == old(apiKeyBySession) - {sid} && phases == old(phases)[sid := Ended]
    {
      pausedTimers := pausedTimers - {sid};
      bridges := bridges - {sid};
      apiKeyBySession := apiKeyBySession - {sid};
      phases := phases[sid := Ended];
    }

    method ReleasePauseBookkeeping(sid: Sid, keepHolds: bool)
      modifies this`pausedSet, this`pausedHoldsSlot, this`pausedByKey
      ensures View() == Release(old(View()), sid, keepHolds)
      ensures pausedSet == old(pausedSet) - {sid}
      ensures pausedHoldsSlot == if keepHolds then old(pausedHoldsSlot) else old(pausedHoldsSlot) - {sid}
      ensures forall k ::
                var gone := sid in old(pausedSet) && sid in apiKeyBySession && apiKeyBySession[sid] == k;
                var was := old(Tally(pausedByKey, k));
                Tally(pausedByKey, k) == if !gone then was else if was > 0 then was - 1 else 0
    {
      var wasPaused := sid in pausedSet;
      pausedSet := pausedSet - {sid};
      if !keepHolds {
        pausedHoldsSlot := pausedHoldsSlot - {sid};
      }
      if !wasPaused {
        return;
      }
      if sid in apiKeyBySession {
        var key := apiKeyBySession[sid];
        var remaining := Tally(pausedByKey, key) - 1;
        if remaining <= 0 {
          pausedByKey := pausedByKey - {key};
        } else {
          pausedByKey := pausedByKey[key := remaining];
        }
      }
    }

    /** The first stretch of `pause`: refuse, re-arm, or go on with a fresh call. */
    method PauseBegin(sid: Sid) returns (v: PauseVerdict)
      requires Valid()
      modifies this`pausedTimers, this`calls, this`nextCall
      ensures v == Verdict(cfg, old(View()), sid)
      ensures View() == Apply(cfg, old(View()), PauseCall(sid))
      ensures Valid() && Slots() == old(Slots())
      ensures v == NotRunning <==> sid !in bridges
      ensures v == AlreadyPaused <==> sid in bridges && sid in pausedSet
      ensures v == Proceed <==>
        && sid in bridges && sid !in pausedSet && |pausedSet| < cfg.maxPaused
        && (sid in apiKeyBySession ==> Tally(pausedByKey, apiKeyBySession[sid]) < cfg.maxPausedPerKey)
      ensures pausedTimers == if v == AlreadyPaused then old(pausedTimers) + {sid} else old(pausedTimers)
      ensures calls == if v == Proceed then old(calls)[old(nextCall) := PauseAnchor(sid)] else old(calls)
    {
      Kept(cfg, View(), PauseCall(sid));
      if sid !in bridges {
        return NotRunning;
      }
      if sid in pausedSet {
        pausedTimers := pausedTimers + {sid};
        return AlreadyPaused;
      }
      if |pausedSet| >= cfg.maxPaused {
        return CapReached;
      }
      if sid in apiKeyBySession && Tally(pausedByKey, apiKeyBySession[sid]) >= cfg.maxPausedPerKey {
        return CapReached;
      }
      calls := calls[nextCall := PauseAnchor(sid)];
      nextCall := nextCall + 1;
      return Proceed;
    }

    method PauseSendRequest(id: CallId)
      requires Valid()
      requires id in calls && calls[id].PauseAnchor?
      modifies this`calls
      ensures View() == Apply(cfg, old(View()), PauseSend(id))
      ensures Valid() && Slots() == old(Slots())
      ensures calls == old(calls)[id := PauseAck(old(calls)[id].sid)]
    {
      Kept(cfg, View(), PauseSend(id));
      calls := calls[id := PauseAck(calls[id].sid)];
    }

    /** Enter the session into the paused set, the tally of its key and the marker, and release its
        permit unless the marker says that this was done before. */
    method EnterPaused(sid: Sid)
      modifies this`pausedSet, this`pausedByKey, this`pausedHoldsSlot, this`sem
      ensures pausedSet == old(pausedSet) + {sid} && pausedHoldsSlot == old(pausedHoldsSlot) + {sid}
      ensures sem == old(sem) + if sid in old(pausedHoldsSlot) then 0 else 1
      ensures pausedByKey == if sid in apiKeyBySession
                             then
                               var key := apiKeyBySession[sid];
                               old(pausedByKey)[key := Tally(old(pausedByKey), key) + 1]
                             else old(pausedByKey)
    {
      pausedSet := pausedSet + {sid};
      if sid in apiKeyBySession {
        var key := apiKeyBySession[sid];
        pausedByKey := pausedByKey[key := Tally(pausedByKey, key) + 1];
      }
      if sid !in pausedHoldsSlot {
        pausedHoldsSlot := pausedHoldsSlot + {sid};
        sem := sem + 1;
      }
    }

    /** The stretch of `pause` after a positive ack. A permit appears out of nothing exactly when the run
        is over and the marker gone. */
    method PauseAcked(id: CallId)
      requires Valid()
      requires id in calls && calls[id].PauseAck?
      modifies this`pausedSet, this`pausedByKey, this`pausedHoldsSlot, this`sem, this`calls
      ensures View() == Apply(cfg, old(View()), PauseOk(id))
      ensures Valid()
      ensures Slots() == old(Slots())
          + old(if calls[id].sid !in pausedSet && phases[calls[id].sid] == Ended then 1 else 0)
      ensures pausedSet == old(pausedSet) + {old(calls)[id].sid}
      ensures calls == old(calls)[id := PauseWrite(old(calls)[id].sid)]
    {
      ghost var before, after := View(), Apply(cfg, View(), PauseOk(id));
      var sid := calls[id].sid;
      EnterPaused(sid);
      calls := calls[id := PauseWrite(sid)];
      assert View() == after;
      PauseShift(cfg, before, id);
    }

    method PauseArmTimer(id: CallId)
      requires Valid()
      requires id in calls && calls[id].PauseWrite?
      modifies this`pausedTimers, this`calls
      ensures View() == Apply(cfg, old(View()), PauseDone(id))
      ensures Valid() && Slots() == old(Slots())
      ensures pausedTimers == old(pausedTimers) + {old(calls)[id].sid} && calls == old(calls) - {id}
    {
      Kept(cfg, View(), PauseDone(id));
      pausedTimers := pausedTimers + {calls[id].sid};
      calls := calls - {id};
    }

    method PauseRaise(id: CallId)
      requires Valid()
      requires id in calls && (calls[id].PauseAnchor? || calls[id].PauseAck? || calls[id].PauseWrite?)
      modifies this`calls
      ensures View() == Apply(cfg, old(View()), PauseAbort(id))
      ensures Valid() && Slots() == old(Slots())
      ensures calls == old(calls) - {id}
    {
      Kept(cfg, View(), PauseAbort(id));
      calls := calls - {id};
    }

    /** The first stretch of `resume`: true when it goes on, false for SessionNotPaused. */
    method ResumeBegin(sid: Sid) returns (ok: bool)
      requires Valid()
      modifies this`pausedTimers, this`calls, this`nextCall
      ensures ok <==> old(sid in pausedSet && sid in bridges)
      ensures View() == Apply(cfg, old(View()), ResumeCall(sid))
      ensures Valid() && Slots() == old(Slots())
      ensures pausedTimers == if ok then old(pausedTimers) - {sid} else old(pausedTimers)
      ensures calls == if ok then old(calls)[old(nextCall) := ResumeAnchor(sid)] else old(calls)
    {
      Kept(cfg, View(), ResumeCall(sid));
      ok := sid in pausedSet && sid in bridges;
      if ok {
        pausedTimers := pausedTimers - {sid};
        calls := calls[nextCall := ResumeAnchor(sid)];
        nextCall := nextCall + 1;
      }
    }

    method ResumeAwaitSlot(id: CallId)
      requires Valid()
      requires id in calls && calls[id].ResumeAnchor?
      modifies this`calls
      ensures View() == Apply(cfg, old(View()), ResumeQueue(id))
      ensures Valid() && Slots() == old(Slots())
      ensures calls == old(calls)[id := ResumeSlot(old(calls)[id].sid)]
    {
      Kept(cfg, View(), ResumeQueue(id));
      calls := calls[id := ResumeSlot(calls[id].sid)];
    }

    method ResumeQueueTimeout(id: CallId)
      requires Valid()
      requires id in calls && calls[id].ResumeSlot?
      modifies this`pausedTimers, this`calls
      ensures View() == Apply(cfg, old(View()), ResumeTimeout(id))
      ensures Valid() && Slots() == old(Slots())
      ensures pausedTimers == old(pausedTimers) + {old(calls)[id].sid} && calls == old(calls) - {id}
    {
      Kept(cfg, View(), ResumeTimeout(id));
      pausedTimers := pausedTimers + {calls[id].sid};
      calls := calls - {id};
    }

    method ResumeTakeSlot(id: CallId)
      requires Valid()
      requires id in calls && calls[id].ResumeSlot? && sem > 0
      modifies this`sem, this`calls
      ensures View() == Apply(cfg, old(View()), ResumeAcquire(id))
      ensures Valid() && Slots() == old(Slots())
      ensures sem == old(sem) - 1 && calls == old(calls)[id := ResumeAck(old(calls)[id].sid)]
    {
      Kept(cfg, View(), ResumeAcquire(id));
      sem := sem - 1;
      calls := calls[id := ResumeAck(calls[id].sid)];
    }

    /** The stretch of `resume` after a positive ack: hand the slot back to `_run`. */
    method ResumeAcked(id: CallId)
      requires Valid()
      requires id in calls && calls[id].ResumeAck?
      modifies this`pausedSet, this`pausedByKey, this`pausedHoldsSlot, this`calls
      ensures View() == Apply(cfg, old(View()), ResumeOk(id))
      ensures Valid()
      ensures Slots() == old(Slots())
          - old(if calls[id].sid in pausedSet && phases[calls[id].sid] == Running then 0 else 1)
      ensures pausedSet == old(pausedSet) - {old(calls)[id].sid} && calls == old(calls) - {id}
    {
      Kept(cfg, View(), ResumeOk(id));
      var sid := calls[id].sid;
      pausedHoldsSlot := pausedHoldsSlot - {sid};
      ReleasePauseBookkeeping(sid, true);
      calls := calls - {id};
    }

    /** Roll back the permit when the ack is negative or never comes. */
    method ResumeRollBack(id: CallId)
      requires Valid()
      requires id in calls && calls[id].ResumeAck?
      modifies this`sem, this`pausedTimers, this`calls
      ensures View() == Apply(cfg, old(View()), ResumeFail(id))
      ensures Valid() && Slots() == old(Slots())
      ensures sem == old(sem) + 1 && pausedTimers == old(pausedTimers) + {old(calls)[id].sid}
      ensures calls == old(calls) - {id}
    {
      Kept(cfg, View(), ResumeFail(id));
      sem := sem + 1;
      pausedTimers := pausedTimers + {calls[id].sid};
      calls := calls - {id};
    }

    method ResumeGiveUp(id: CallId)
      requires Valid()
      requires id in calls && (calls[id].ResumeAnchor? || calls[id].ResumeSlot?)
      modifies this`calls
      ensures View() == Apply(cfg, old(View()), ResumeAbort(id))
      ensures Valid() && Slots() == old(Slots())
      ensures calls == old(calls) - {id}
    {
      Kept(cfg, View(), ResumeAbort(id));
      calls := calls - {id};
    }

    method CancelSession(sid: Sid)
      requires Valid()
      modifies this`pausedTimers, this`pausedSet, this`pausedHoldsSlot, this`pausedByKey
      ensures View() == Apply(cfg, old(View()), Cancel(sid))
      ensures Valid()
      ensures Slots() == old(Slots()) + old(if sid in pausedSet && phases[sid] == Running then 1 else 0)
      ensures pausedTimers == old(pausedTimers) - {sid} && pausedSet == old(pausedSet) - {sid}
    {
      Kept(cfg, View(), Cancel(sid));
      pausedTimers := pausedTimers - {sid};
      if sid in pausedSet {
        ReleasePauseBookkeeping(sid, false);
      }
    }

    /** The watchdog wakes up. It fires iff the session is still paused, and then goes on to cancel it,
        after an audit write, through `CancelSession`; otherwise it is done. */
    method WatchdogWake(sid: Sid) returns (fires: bool)
      requires Valid() && sid in pausedTimers
      modifies this`pausedTimers
      ensures fires <==> sid in pausedSet
      ensures View() == if fires then old(View()) else Apply(cfg, old(View()), WatchdogIdle(sid))
      ensures Valid() && Slots() == old(Slots())
      ensures pausedTimers == if fires then old(pausedTimers) else old(pausedTimers) - {sid}
    {
      Kept(cfg, View(), WatchdogIdle(sid));
      fires := sid in pausedSet;
      if !fires {
        pausedTimers := pausedTimers - {sid};
      }
    }

    /** Take the next step of a pause or resume call under way. */
    method TakeCall(e: Step)
      requires Valid() && Enabled(cfg, View(), e)
      requires e.PauseSend? || e.PauseOk? || e.PauseDone? || e.PauseAbort? || e.ResumeQueue? || e.ResumeTimeout?
               || e.ResumeAcquire? || e.ResumeOk? || e.ResumeFail? || e.ResumeAbort?
      modifies this
      ensures View() == Apply(cfg, old(View()), e)
    {
      match e
      case PauseSend(id) => PauseSendRequest(id);
      case PauseOk(id) => PauseAcked(id);
      case PauseDone(id) => PauseArmTimer(id);
      case PauseAbort(id) => PauseRaise(id);
      case ResumeQueue(id) => ResumeAwaitSlot(id);
      case ResumeTimeout(id) => ResumeQueueTimeout(id);
      case ResumeAcquire(id) => ResumeTakeSlot(id);
      case ResumeOk(id) => ResumeAcked(id);
      case ResumeFail(id) => ResumeRollBack(id);
      case ResumeAbort(id) => ResumeGiveUp(id);
    }

    /** Take one step of any kind: the invariant is kept and the slot ledger moves by the step's shift. */
    method Take(e: Step)
      requires Valid()
      modifies this
      ensures View() == Apply(cfg, old(View()), e) && Valid()
      ensures Slots() == old(Slots()) + old(Shift(cfg, View(), e))
    {
      Kept(cfg, View(), e);
      if Enabled(cfg, View(), e) {
        match e
        case Submit(sid, key) => SubmitSession(sid, key);
        case RunAcquire(sid) => RunAcquireSlot(sid);
        case RunDropped(sid) => RunDrop(sid);
        case BridgeUp(sid) => RegisterBridge(sid);
        case RunFinish(sid) => RunFinally(sid);
        case PauseCall(sid) => var _ := PauseBegin(sid);
        case ResumeCall(sid) => var _ := ResumeBegin(sid);
        case Cancel(sid) => CancelSession(sid);
        case WatchdogIdle(sid) => var _ := WatchdogWake(sid);
        case _ => TakeCall(e);
      }
    }
  }

  /** Drive a fresh manager through any run: it ends in the state the transition system says, so its
      semaphore obeys the slot ledger. */
  method Drive(cfg: Config, ev: seq<Step>) returns (m: SessionManager)
    ensures m.cfg == cfg && m.View() == After(cfg, ev)
    ensures Total(m.View())
         == cfg.maxConcurrent
            + Count(cfg, ev, CancelWhilePaused) + Count(cfg, ev, PauseAfterEnd)
            - Count(cfg, ev, ResumeWithoutMarker)
    ensures m.pausedSet == m.pausedHoldsSlot
  {
    m := new SessionManager(cfg);
    for i := 0 to |ev|
      invariant fresh(m) && m.cfg == cfg && m.Valid()
      invariant m.View() == After(cfg, ev[..i])
    {
      AfterThen(cfg, ev[..i], ev[i]);
      assert ev[..i] + [ev[i]] == ev[..i + 1];
      m.Take(ev[i]);
    }
    assert ev[..|ev|] == ev;
    SlotLedger(cfg, ev);
    MarkerIsPausedSet(cfg, ev);
  }
}
