/** The pause/resume slot scheduler of SessionManager as a transition system.

    Every step below is one stretch of code between two `await`s; a run is any sequence of steps,
    so every interleaving of `_run`, `pause`, `resume`, `cancel` and the watchdog is a run. A step
    whose guard is false leaves the state alone.

    A permit that the semaphore has already handed to a waiter whose coroutine has not run yet
    counts as free until that coroutine runs. */
module SlotScheduler {
  import opened Basics

  type Sid = string
  type Key = string
  type CallId = nat

  datatype Config = Config(maxConcurrent: nat, maxPaused: nat, maxPausedPerKey: nat)

  datatype Phase = Queued | Running | Ended

  /** Where a `pause` or `resume` call is suspended. */
  datatype Call =
    | PauseAnchor(sid: Sid)   // caps checked, reading the row version
    | PauseAck(sid: Sid)      // pause sent, waiting for the runner
    | PauseWrite(sid: Sid)    // bookkeeping done, writing the row
    | ResumeAnchor(sid: Sid)  // timer cancelled, reading the row version
    | ResumeSlot(sid: Sid)    // waiting for a permit
    | ResumeAck(sid: Sid)     // permit taken, resume sent, waiting for the runner

  datatype State = State(
    free: nat,                 // value of the semaphore
    runs: map<Sid, Phase>,
    bridges: set<Sid>,
    apiKey: map<Sid, Key>,     // sessions submitted without a key are absent
    paused: set<Sid>,          // _paused_set
    holds: set<Sid>,           // _paused_holds_slot
    byKey: map<Key, int>,      // _paused_by_key
    timers: set<Sid>,          // sessions with a live watchdog
    calls: map<CallId, Call>,
    nextCall: CallId)

  datatype Step =
    | Submit(sid: Sid, key: Option<Key>)
    | RunAcquire(sid: Sid)
    | RunDropped(sid: Sid)     // the coroutine is cancelled before its first instruction
    | BridgeUp(sid: Sid)
    | RunFinish(sid: Sid)      // the first stretch of the finally block
    | PauseCall(sid: Sid)
    | PauseSend(id: CallId)
    | PauseOk(id: CallId)
    | PauseDone(id: CallId)
    | PauseAbort(id: CallId)   // refused, timed out, failed write, or the caller went away
    | ResumeCall(sid: Sid)
    | ResumeQueue(id: CallId)
    | ResumeTimeout(id: CallId)
    | ResumeAcquire(id: CallId)
    | ResumeOk(id: CallId)
    | ResumeFail(id: CallId)   // refused, or the wait for the ack raised
    | ResumeAbort(id: CallId)  // row missing, or the caller went away before a permit came
    | Cancel(sid: Sid)         // also what a firing watchdog does
    | WatchdogIdle(sid: Sid)   // the timer fires on a session that is no longer paused

  function Init(cfg: Config): State {
    State(cfg.maxConcurrent, map[], {}, map[], {}, {}, map[], {}, map[], 0)
  }

  function Tally(m: map<Key, int>, k: Key): int {
    if k in m then m[k] else 0
  }

  /** Which refusal a `pause` call meets in its first stretch, if any. */
  datatype PauseVerdict = NotRunning | AlreadyPaused | CapReached | Proceed

  function Verdict(cfg: Config, s: State, sid: Sid): PauseVerdict {
    if sid !in s.bridges then NotRunning
    else if sid in s.paused then AlreadyPaused
    else if |s.paused| >= cfg.maxPaused then CapReached
    else if sid in s.apiKey && Tally(s.byKey, s.apiKey[sid]) >= cfg.maxPausedPerKey then CapReached
    else Proceed
  }

  predicate Enabled(cfg: Config, s: State, e: Step) {
    match e
    case Submit(sid, _) => sid !in s.runs
    case RunAcquire(sid) => sid in s.runs && s.runs[sid] == Queued && s.free > 0
    case RunDropped(sid) => sid in s.runs && s.runs[sid] == Queued
    case BridgeUp(sid) => sid in s.runs && s.runs[sid] == Running
    case RunFinish(sid) => sid in s.runs && s.runs[sid] != Ended
    case PauseCall(sid) => Verdict(cfg, s, sid) in {AlreadyPaused, Proceed}
    case PauseSend(id) => id in s.calls && s.calls[id].PauseAnchor?
    case PauseOk(id) => id in s.calls && s.calls[id].PauseAck?
    case PauseDone(id) => id in s.calls && s.calls[id].PauseWrite?
    case PauseAbort(id) =>
      id in s.calls && (s.calls[id].PauseAnchor? || s.calls[id].PauseAck? || s.calls[id].PauseWrite?)
    case ResumeCall(sid) => sid in s.paused && sid in s.bridges
    case ResumeQueue(id) => id in s.calls && s.calls[id].ResumeAnchor?
    case ResumeTimeout(id) => id in s.calls && s.calls[id].ResumeSlot?
    case ResumeAcquire(id) => id in s.calls && s.calls[id].ResumeSlot? && s.free > 0
    case ResumeOk(id) => id in s.calls && s.calls[id].ResumeAck?
    case ResumeFail(id) => id in s.calls && s.calls[id].ResumeAck?
    case ResumeAbort(id) => id in s.calls && (s.calls[id].ResumeAnchor? || s.calls[id].ResumeSlot?)
    case Cancel(_) => true
    case WatchdogIdle(sid) => sid in s.timers && sid !in s.paused
  }

  function Decrement(m: map<Key, int>, k: Key): map<Key, int> {
    if Tally(m, k) - 1 <= 0 then m - {k} else m[k := m[k] - 1]
  }

  /** `_release_pause_bookkeeping`. */
  function Release(s: State, sid: Sid, keepHolds: bool): State {
    s.(paused := s.paused - {sid},
       holds := if keepHolds then s.holds else s.holds - {sid},
       byKey := if sid in s.paused && sid in s.apiKey then Decrement(s.byKey, s.apiKey[sid]) else s.byKey)
  }

  function Apply(cfg: Config, s: State, e: Step): State {
    if !Enabled(cfg, s, e) then s else
    match e
    case Submit(sid, key) =>
      s.(runs := s.runs[sid := Queued],
         apiKey := if key.Some? then s.apiKey[sid := key.value] else s.apiKey - {sid})
    case RunAcquire(sid) => s.(free := s.free - 1, runs := s.runs[sid := Running])
    case RunDropped(sid) => s.(runs := s.runs[sid := Ended])
    case BridgeUp(sid) => s.(bridges := s.bridges + {sid})
    case RunFinish(sid) =>
      var back := if s.runs[sid] == Running && sid !in s.holds then 1 else 0;
      Release(s, sid, false).(
        free := s.free + back,
        timers := s.timers - {sid},
        bridges := s.bridges - {sid},
        apiKey := s.apiKey - {sid},
        runs := s.runs[sid := Ended])
    case PauseCall(sid) =>
      if sid in s.paused then s.(timers := s.timers + {sid})
      else s.(calls := s.calls[s.nextCall := PauseAnchor(sid)], nextCall := s.nextCall + 1)
    case PauseSend(id) => s.(calls := s.calls[id := PauseAck(s.calls[id].sid)])
    case PauseOk(id) =>
      var sid := s.calls[id].sid;
      s.(paused := s.paused + {sid},
         byKey := if sid in s.apiKey then s.byKey[s.apiKey[sid] := Tally(s.byKey, s.apiKey[sid]) + 1] else s.byKey,
         holds := s.holds + {sid},
         free := if sid in s.holds then s.free else s.free + 1,
         calls := s.calls[id := PauseWrite(sid)])
    case PauseDone(id) => s.(timers := s.timers + {s.calls[id].sid}, calls := s.calls - {id})
    case PauseAbort(id) => s.(calls := s.calls - {id})
    case ResumeCall(sid) =>
      s.(timers := s.timers - {sid}, calls := s.calls[s.nextCall := ResumeAnchor(sid)], nextCall := s.nextCall + 1)
    case ResumeQueue(id) => s.(calls := s.calls[id := ResumeSlot(s.calls[id].sid)])
    case ResumeTimeout(id) => s.(timers := s.timers + {s.calls[id].sid}, calls := s.calls - {id})
    case ResumeAcquire(id) => s.(free := s.free - 1, calls := s.calls[id := ResumeAck(s.calls[id].sid)])
    case ResumeOk(id) =>
      var sid := s.calls[id].sid;
      Release(s, sid, true).(holds := s.holds - {sid}, calls := s.calls - {id})
    case ResumeFail(id) =>
      s.(free := s.free + 1, timers := s.timers + {s.calls[id].sid}, calls := s.calls - {id})
    case ResumeAbort(id) => s.(calls := s.calls - {id})
    case Cancel(sid) =>
      (if sid in s.paused then Release(s, sid, false) else s).(timers := s.timers - {sid})
    case WatchdogIdle(sid) => s.(timers := s.timers - {sid})
  }

  /** The state after a run. */
  function After(cfg: Config, ev: seq<Step>): State {
    if ev == [] then Init(cfg)
    else Apply(cfg, After(cfg, ev[..|ev| - 1]), ev[|ev| - 1])
  }

  // ---------------------------------------------------------------- structural invariant

  /** The slot marker is exactly the paused set, and no queued session is paused. */
  predicate MarkerInv(s: State) {
    && s.holds == s.paused
    && (forall sid <- s.paused :: sid in s.runs && s.runs[sid] != Queued)
    && (forall sid <- s.apiKey :: sid in s.runs)
  }

  /** A call belongs to a session whose run has started. */
  predicate CallKnown(s: State, id: CallId) {
    id in s.calls ==> s.calls[id].sid in s.runs && s.runs[s.calls[id].sid] != Queued && id < s.nextCall
  }

  /** Calls and bridges belong to sessions whose run has started. */
  predicate CallInv(s: State) {
    && (forall sid <- s.bridges :: sid in s.runs && s.runs[sid] == Running)
    && (forall id <- s.calls :: CallKnown(s, id))
  }

  predicate TallyInv(s: State) {
    forall k <- s.byKey :: s.byKey[k] >= 1
  }

  predicate Inv(s: State) {
    MarkerInv(s) && CallInv(s) && TallyInv(s)
  }

  lemma StepKeepsTallies(cfg: Config, s: State, e: Step)
    requires TallyInv(s)
    ensures TallyInv(Apply(cfg, s, e))
  {
  }

  lemma StepKeepsMarker(cfg: Config, s: State, e: Step)
    requires Inv(s)
    ensures MarkerInv(Apply(cfg, s, e)) && TallyInv(Apply(cfg, s, e))
  {
    StepKeepsTallies(cfg, s, e);
  }

  lemma StepKeepsCall(cfg: Config, s: State, e: Step, id: CallId)
    requires MarkerInv(s) && CallKnown(s, id) && forall sid <- s.bridges :: sid in s.runs && s.runs[sid] == Running
    ensures CallKnown(Apply(cfg, s, e), id)
  {
  }

  lemma StepKeepsBridges(cfg: Config, s: State, e: Step)
    requires forall sid <- s.bridges :: sid in s.runs && s.runs[sid] == Running
    ensures var t := Apply(cfg, s, e);
            forall sid <- t.bridges :: sid in t.runs && t.runs[sid] == Running
  {
  }

  lemma StepKeepsCalls(cfg: Config, s: State, e: Step)
    requires Inv(s)
    ensures CallInv(Apply(cfg, s, e))
  {
    StepKeepsBridges(cfg, s, e);
    forall id | id in Apply(cfg, s, e).calls ensures CallKnown(Apply(cfg, s, e), id) {
      StepKeepsCall(cfg, s, e, id);
    }
  }

  lemma {:induction false} MarkerIsPausedSet(cfg: Config, ev: seq<Step>)
    ensures Inv(After(cfg, ev))
  {
    if ev != [] {
      MarkerIsPausedSet(cfg, ev[..|ev| - 1]);
      StepKeepsMarker(cfg, After(cfg, ev[..|ev| - 1]), ev[|ev| - 1]);
      StepKeepsCalls(cfg, After(cfg, ev[..|ev| - 1]), ev[|ev| - 1]);
    }
  }

  // ---------------------------------------------------------------- slot ledger

  /** Live runs that will give a permit back when they end. */
  function Owners(s: State): set<Sid> {
    set sid | sid in s.runs && s.runs[sid] == Running && sid !in s.holds
  }

  /** Resume calls that hold a permit and have not handed it over. */
  function Handovers(s: State): set<CallId> {
    set id | id in s.calls && s.calls[id].ResumeAck?
  }

  function Total(s: State): int {
    s.free + |Owners(s)| + |Handovers(s)|
  }

  datatype Cause = CancelWhilePaused | PauseAfterEnd | ResumeWithoutMarker

  /** The steps that move the ledger, told apart before they are taken. */
  predicate Causes(cfg: Config, s: State, e: Step, c: Cause) {
    Enabled(cfg, s, e) &&
    match c
    case CancelWhilePaused =>
      e.Cancel? && e.sid in s.paused && e.sid in s.runs && s.runs[e.sid] == Running
    case PauseAfterEnd =>
      e.PauseOk? && s.calls[e.id].sid !in s.holds && s.calls[e.id].sid in s.runs && s.runs[s.calls[e.id].sid] == Ended
    case ResumeWithoutMarker =>
      e.ResumeOk? && !(s.calls[e.id].sid in s.holds && s.calls[e.id].sid in s.runs
          && s.runs[s.calls[e.id].sid] == Running)
  }

  function Count(cfg: Config, ev: seq<Step>, c: Cause): nat {
    if ev == [] then 0
    else
      Count(cfg, ev[..|ev| - 1], c)
      + (if Causes(cfg, After(cfg, ev[..|ev| - 1]), ev[|ev| - 1], c) then 1 else 0)
  }

  function Shift(cfg: Config, s: State, e: Step): int {
    (if Causes(cfg, s, e, CancelWhilePaused) then 1 else 0)
    + (if Causes(cfg, s, e, PauseAfterEnd) then 1 else 0)
    - (if Causes(cfg, s, e, ResumeWithoutMarker) then 1 else 0)
  }

  /** The call a step may move into or out of the handover stage. */
  function HandoverCall(e: Step): Option<CallId> {
    if e.ResumeAcquire? || e.ResumeOk? || e.ResumeFail? then Some(e.id) else None
  }

  lemma HandoversElsewhere(cfg: Config, s: State, e: Step, x: CallId)
    requires Enabled(cfg, s, e) && Inv(s) && HandoverCall(e) != Some(x)
    ensures x in Handovers(Apply(cfg, s, e)) <==> x in Handovers(s)
  {
  }

  lemma HandoverStep(cfg: Config, s: State, e: Step)
    requires Enabled(cfg, s, e) && Inv(s)
    ensures |Handovers(Apply(cfg, s, e))|
         == |Handovers(s)| + (if e.ResumeAcquire? then 1 else if e.ResumeOk? || e.ResumeFail? then -1 else 0)
  {
    var h, h' := Handovers(s), Handovers(Apply(cfg, s, e));
    forall x: CallId | Some(x) != HandoverCall(e) ensures x in h' <==> x in h {
      HandoversElsewhere(cfg, s, e, x);
    }
    if HandoverCall(e).Some? {
      CardOneApart(h, h', e.id);
    } else {
      assert h == h';
    }
  }

  /** The session a step may add to or remove from the owners. */
  function Subject(s: State, e: Step): Option<Sid> {
    match e
    case RunAcquire(sid) => Some(sid)
    case RunFinish(sid) => Some(sid)
    case Cancel(sid) => Some(sid)
    case PauseOk(id) => if id in s.calls then Some(s.calls[id].sid) else None
    case ResumeOk(id) => if id in s.calls then Some(s.calls[id].sid) else None
    case _ => None
  }

  lemma OwnersElsewhere(cfg: Config, s: State, e: Step, x: Sid)
    requires Enabled(cfg, s, e) && Inv(s) && Subject(s, e) != Some(x)
    ensures x in Owners(Apply(cfg, s, e)) <==> x in Owners(s)
  {
  }

  lemma OwnerStep(cfg: Config, s: State, e: Step)
    requires Enabled(cfg, s, e) && Inv(s)
    ensures var t := Apply(cfg, s, e);
            var who := Subject(s, e);
            |Owners(t)| == |Owners(s)|
              + (if who.Some? && who.value in Owners(t) then 1 else 0)
              - (if who.Some? && who.value in Owners(s) then 1 else 0)
  {
    var o, o' := Owners(s), Owners(Apply(cfg, s, e));
    var who := Subject(s, e);
    forall x | Some(x) != who ensures x in o' <==> x in o {
      OwnersElsewhere(cfg, s, e, x);
    }
    if who.Some? {
      CardOneApart(o, o', who.value);
    } else {
      assert o == o';
    }
  }

  /** One step changes the total by its shift and by nothing else. */
  lemma StepLedger(cfg: Config, s: State, e: Step)
    requires Inv(s)
    ensures Total(Apply(cfg, s, e)) == Total(s) + Shift(cfg, s, e)
  {
    if Enabled(cfg, s, e) {
      HandoverStep(cfg, s, e);
      OwnerStep(cfg, s, e);
    }
  }

  /** The ledger law, for every interleaving. */
  lemma {:induction false} SlotLedger(cfg: Config, ev: seq<Step>)
    ensures Total(After(cfg, ev))
         == cfg.maxConcurrent
            + Count(cfg, ev, CancelWhilePaused) + Count(cfg, ev, PauseAfterEnd)
            - Count(cfg, ev, ResumeWithoutMarker)
  {
    if ev != [] {
      var before := ev[..|ev| - 1];
      SlotLedger(cfg, before);
      MarkerIsPausedSet(cfg, before);
      StepLedger(cfg, After(cfg, before), ev[|ev| - 1]);
    }
  }

  /** Taking a step onto a run. */
  lemma AfterThen(cfg: Config, ev: seq<Step>, e: Step)
    ensures After(cfg, ev + [e]) == Apply(cfg, After(cfg, ev), e)
  {
    assert (ev + [e])[..|ev|] == ev;
  }

  function Started(sid: Sid): seq<Step> {
    [Submit(sid, None), RunAcquire(sid), BridgeUp(sid)]
  }

  function Lifecycle(sid: Sid): seq<Step> {
    Started(sid) + [PauseCall(sid)] + [PauseSend(0)] + [PauseOk(0)]
  }

  lemma FirstStart(cfg: Config, sid: Sid)
    requires cfg.maxConcurrent >= 1
    ensures After(cfg, Started(sid))
         == State(cfg.maxConcurrent - 1, map[sid := Running], {sid}, map[], {}, {}, map[], {}, map[], 0)
  {
    var e1 := [Submit(sid, None)];
    var e2 := e1 + [RunAcquire(sid)];
    AfterThen(cfg, [], Submit(sid, None));
    assert [] + e1 == e1;
    AfterThen(cfg, e1, RunAcquire(sid));
    AfterThen(cfg, e2, BridgeUp(sid));
    assert e2 + [BridgeUp(sid)] == Started(sid);
  }

  /** One session submitted, started and paused on an idle manager. */
  lemma FirstPause(cfg: Config, sid: Sid)
    requires cfg.maxConcurrent >= 1 && cfg.maxPaused >= 1
    ensures After(cfg, Lifecycle(sid))
         == State(cfg.maxConcurrent, map[sid := Running], {sid}, map[], {sid}, {sid}, map[], {},
             map[0 := PauseWrite(sid)], 1)
  {
    FirstStart(cfg, sid);
    AfterThen(cfg, Started(sid), PauseCall(sid));
    AfterThen(cfg, Started(sid) + [PauseCall(sid)], PauseSend(0));
    AfterThen(cfg, Started(sid) + [PauseCall(sid)] + [PauseSend(0)], PauseOk(0));
  }

  /** Cancelling a paused session releases its slot a second time: the semaphore ends above its
      configured size. */
  lemma CancelOverReleases(cfg: Config, sid: Sid)
    requires cfg.maxConcurrent >= 1 && cfg.maxPaused >= 1
    ensures After(cfg, Lifecycle(sid) + [Cancel(sid)] + [RunFinish(sid)]).free == cfg.maxConcurrent + 1
  {
    FirstPause(cfg, sid);
    AfterThen(cfg, Lifecycle(sid), Cancel(sid));
    AfterThen(cfg, Lifecycle(sid) + [Cancel(sid)], RunFinish(sid));
  }

  function ResumeHeld(sid: Sid): seq<Step> {
    Lifecycle(sid) + [ResumeCall(sid)] + [ResumeQueue(1)] + [ResumeAcquire(1)]
  }

  lemma ResumeInFlight(cfg: Config, sid: Sid)
    requires cfg.maxConcurrent >= 1 && cfg.maxPaused >= 1
    ensures After(cfg, ResumeHeld(sid))
         == State(cfg.maxConcurrent - 1, map[sid := Running], {sid}, map[], {sid}, {sid}, map[], {},
                  map[0 := PauseWrite(sid), 1 := ResumeAck(sid)], 2)
  {
    FirstPause(cfg, sid);
    AfterThen(cfg, Lifecycle(sid), ResumeCall(sid));
    AfterThen(cfg, Lifecycle(sid) + [ResumeCall(sid)], ResumeQueue(1));
    AfterThen(cfg, Lifecycle(sid) + [ResumeCall(sid)] + [ResumeQueue(1)], ResumeAcquire(1));
  }

  /** A resume that succeeds after its run ended keeps its permit for good. */
  lemma LateResumeLeaks(cfg: Config, sid: Sid)
    requires cfg.maxConcurrent >= 1 && cfg.maxPaused >= 1
    ensures var s := After(cfg, ResumeHeld(sid) + [RunFinish(sid)] + [ResumeOk(1)]);
            s.free == cfg.maxConcurrent - 1 && Owners(s) == {} && Handovers(s) == {}
  {
    ResumeInFlight(cfg, sid);
    AfterThen(cfg, ResumeHeld(sid), RunFinish(sid));
    AfterThen(cfg, ResumeHeld(sid) + [RunFinish(sid)], ResumeOk(1));
  }

  /** A step conserves the total exactly when it is none of the three races. */
  lemma StepConservesIff(cfg: Config, s: State, e: Step)
    requires Inv(s)
    ensures Total(Apply(cfg, s, e)) == Total(s) <==> forall c :: !Causes(cfg, s, e, c)
  {
    StepLedger(cfg, s, e);
    assert forall c, d :: Causes(cfg, s, e, c) && Causes(cfg, s, e, d) ==> c == d;
    if forall c :: !Causes(cfg, s, e, c) {
      assert !Causes(cfg, s, e, CancelWhilePaused) && !Causes(cfg, s, e, PauseAfterEnd)
          && !Causes(cfg, s, e, ResumeWithoutMarker);
    } else {
      var c :| Causes(cfg, s, e, c);
      assert c == CancelWhilePaused || c == PauseAfterEnd || c == ResumeWithoutMarker;
    }
  }

  // ---------------------------------------------------------------- pause accounting

  function PausedWith(s: State, k: Key): set<Sid> {
    set sid | sid in s.paused && sid in s.apiKey && s.apiKey[sid] == k
  }

  /** A pause that succeeds on a session of key `k` that is already in the paused set. */
  predicate Redundant(cfg: Config, s: State, e: Step, k: Key) {
    && Enabled(cfg, s, e) && e.PauseOk?
    && s.calls[e.id].sid in PausedWith(s, k)
  }

  function Redundancies(cfg: Config, ev: seq<Step>, k: Key): nat {
    if ev == [] then 0
    else
      Redundancies(cfg, ev[..|ev| - 1], k)
      + (if Redundant(cfg, After(cfg, ev[..|ev| - 1]), ev[|ev| - 1], k) then 1 else 0)
  }

  lemma PausedElsewhere(cfg: Config, s: State, e: Step, k: Key, x: Sid)
    requires Enabled(cfg, s, e) && Inv(s) && Subject(s, e) != Some(x)
    ensures x in PausedWith(Apply(cfg, s, e), k) <==> x in PausedWith(s, k)
  {
  }

  lemma PausedStep(cfg: Config, s: State, e: Step, k: Key)
    requires Enabled(cfg, s, e) && Inv(s)
    ensures var t := Apply(cfg, s, e);
            var who := Subject(s, e);
            |PausedWith(t, k)| == |PausedWith(s, k)|
              + (if who.Some? && who.value in PausedWith(t, k) then 1 else 0)
              - (if who.Some? && who.value in PausedWith(s, k) then 1 else 0)
  {
    var o, o' := PausedWith(s, k), PausedWith(Apply(cfg, s, e), k);
    var who := Subject(s, e);
    forall x | Some(x) != who ensures x in o' <==> x in o {
      PausedElsewhere(cfg, s, e, k, x);
    }
    if who.Some? {
      CardOneApart(o, o', who.value);
    } else {
      assert o == o';
    }
  }

  lemma StepAccount(cfg: Config, s: State, e: Step, k: Key)
    requires Inv(s)
    requires Tally(s.byKey, k) >= |PausedWith(s, k)|
    ensures var t := Apply(cfg, s, e);
            Tally(t.byKey, k) - |PausedWith(t, k)| - (if Redundant(cfg, s, e, k) then 1 else 0)
            == Tally(s.byKey, k) - |PausedWith(s, k)|
  {
    if Enabled(cfg, s, e) {
      PausedStep(cfg, s, e, k);
      var who := Subject(s, e);
      if who.Some? && who.value in PausedWith(s, k) {
        CardSubset({who.value}, PausedWith(s, k));
      }
    }
  }

  /** Every tally counts the paused sessions of its key plus the redundant pauses of that key. */
  lemma {:induction false} PauseAccounting(cfg: Config, ev: seq<Step>, k: Key)
    ensures var s := After(cfg, ev);
            && Tally(s.byKey, k) == |PausedWith(s, k)| + Redundancies(cfg, ev, k)
            && (k in s.byKey ==> s.byKey[k] >= 1)
  {
    MarkerIsPausedSet(cfg, ev);
    if ev == [] {
      assert PausedWith(After(cfg, ev), k) == {};
    } else {
      var before := ev[..|ev| - 1];
      PauseAccounting(cfg, before, k);
      MarkerIsPausedSet(cfg, before);
      StepAccount(cfg, After(cfg, before), ev[|ev| - 1], k);
    }
  }

  /** A session keeps the key it was submitted with until it has none. */
  lemma KeysOnlyShrink(cfg: Config, s: State, e: Step, sid: Sid)
    requires sid in s.runs && sid in Apply(cfg, s, e).apiKey
    ensures sid in s.apiKey && s.apiKey[sid] == Apply(cfg, s, e).apiKey[sid]
  {
  }

  /** The call is between the cap check and the insertion into the paused set. */
  predicate Entering(c: Call) {
    c.PauseAnchor? || c.PauseAck?
  }
}
