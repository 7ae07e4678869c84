/** The caps on paused sessions: what overlapping pauses can do to them, and exactly when. */
module PausedCaps {
  import opened Basics
  import opened SlotScheduler

  /** Pause calls between the cap check and the insertion into the paused set. */
  function Pending(s: State): set<CallId> {
    set id | id in s.calls && Entering(s.calls[id])
  }

  function PendingWith(s: State, k: Key): set<CallId> {
    set id | id in s.calls && Entering(s.calls[id]) && s.calls[id].sid in s.apiKey && s.apiKey[s.calls[id].sid] == k
  }

  lemma PauseEnters(cfg: Config, s: State, id: CallId)
    requires Enabled(cfg, s, PauseOk(id))
    ensures var t := Apply(cfg, s, PauseOk(id));
            |t.paused| <= |s.paused| + 1 && |Pending(t)| == |Pending(s)| - 1
  {
    var t := Apply(cfg, s, PauseOk(id));
    CardOneApart(s.paused, t.paused, s.calls[id].sid);
    CardRemove(Pending(s), Pending(t), id);
  }

  lemma StepCap(cfg: Config, s: State, e: Step)
    requires Inv(s)
    ensures var t := Apply(cfg, s, e);
            (|t.paused| + |Pending(t)| <= |s.paused| + |Pending(s)|) || (|t.paused| < cfg.maxPaused && e.PauseCall?)
  {
    var t := Apply(cfg, s, e);
    if Enabled(cfg, s, e) && !e.PauseCall? {
      PendingShrinks(cfg, s, e);
      if e.PauseOk? {
        PauseEnters(cfg, s, e.id);
      } else {
        CardSubset(Pending(t), Pending(s));
        CardSubset(t.paused, s.paused);
      }
    }
  }

  lemma PendingShrinks(cfg: Config, s: State, e: Step)
    requires Inv(s) && !e.PauseCall?
    ensures Pending(Apply(cfg, s, e)) <= Pending(s)
    ensures !e.PauseOk? ==> Apply(cfg, s, e).paused <= s.paused
  {
    forall id | id in Pending(Apply(cfg, s, e)) ensures id in Pending(s) {
      PendingWas(cfg, s, e, id);
    }
  }

  lemma PendingWas(cfg: Config, s: State, e: Step, id: CallId)
    requires Inv(s) && !e.PauseCall? && id in Pending(Apply(cfg, s, e))
    ensures id in Pending(s) && s.calls[id].sid == Apply(cfg, s, e).calls[id].sid
  {
  }

  /** With at most `c` pauses under way at any moment, the paused set and the pauses under way
      together stay within `maxPaused - 1 + c`; sequential pauses (`c == 1`) respect the cap. */
  lemma {:induction false} PausedCap(cfg: Config, ev: seq<Step>, c: nat)
    requires c >= 1
    requires forall n :: 0 <= n <= |ev| ==> |Pending(After(cfg, ev[..n]))| <= c
    ensures var s := After(cfg, ev);
            |s.paused| + |Pending(s)| <= cfg.maxPaused - 1 + c
  {
    assert ev[..|ev|] == ev;
    if ev == [] {
      assert Pending(After(cfg, ev)) == {};
    } else {
      var before := ev[..|ev| - 1];
      forall n | 0 <= n <= |before| ensures |Pending(After(cfg, before[..n]))| <= c {
        assert before[..n] == ev[..n];
      }
      PausedCap(cfg, before, c);
      MarkerIsPausedSet(cfg, before);
      StepCap(cfg, After(cfg, before), ev[|ev| - 1]);
    }
  }

  /** Two calls past the cap check, both waiting for the runner, go through one after the other. */
  lemma BothEnter(cfg: Config, s: State, i: CallId, k: CallId)
    requires i != k && i in s.calls && k in s.calls && s.calls[i].PauseAnchor? && s.calls[k].PauseAnchor?
    ensures var sent := Apply(cfg, Apply(cfg, s, PauseSend(i)), PauseSend(k));
            Apply(cfg, Apply(cfg, sent, PauseOk(i)), PauseOk(k)).paused
                == s.paused + {s.calls[i].sid} + {s.calls[k].sid}
  {
    var sent := Apply(cfg, Apply(cfg, s, PauseSend(i)), PauseSend(k));
    assert sent.paused == s.paused && sent.calls[i] == PauseAck(s.calls[i].sid)
        && sent.calls[k] == PauseAck(s.calls[k].sid);
    var one := Apply(cfg, sent, PauseOk(i));
    assert one.paused == s.paused + {s.calls[i].sid} && one.calls[k] == PauseAck(s.calls[k].sid);
  }

  lemma BothChecked(cfg: Config, s: State, a: Sid, b: Sid)
    requires Verdict(cfg, s, a) == Proceed && Verdict(cfg, s, b) == Proceed
    ensures Apply(cfg, Apply(cfg, s, PauseCall(a)), PauseCall(b))
         == s.(calls := s.calls[s.nextCall := PauseAnchor(a)][s.nextCall + 1 := PauseAnchor(b)],
             nextCall := s.nextCall + 2)
  {
    assert Verdict(cfg, Apply(cfg, s, PauseCall(a)), b) == Proceed;
  }

  /** The steps that submit and start a session, and those that pause it under call `id`. */
  function StartSteps(sid: Sid, key: Option<Key>): seq<Step> {
    [Submit(sid, key), RunAcquire(sid), BridgeUp(sid)]
  }

  function PauseSteps(sid: Sid, id: CallId): seq<Step> {
    [PauseCall(sid), PauseSend(id), PauseOk(id), PauseDone(id)]
  }

  /** The steps taken one after the other, from the front. */
  function Through(cfg: Config, s: State, ev: seq<Step>): State
    decreases ev
  {
    if ev == [] then s else Through(cfg, Apply(cfg, s, ev[0]), ev[1..])
  }

  lemma {:induction false} AfterThrough(cfg: Config, ev: seq<Step>, more: seq<Step>)
    ensures After(cfg, ev + more) == Through(cfg, After(cfg, ev), more)
    decreases more
  {
    if more == [] {
      assert ev + more == ev;
    } else {
      AfterThen(cfg, ev, more[0]);
      AfterThrough(cfg, ev + [more[0]], more[1..]);
      assert ev + [more[0]] + more[1..] == ev + more;
    }
  }

  function KeyOf(keys: map<Sid, Key>, sid: Sid, key: Option<Key>): map<Sid, Key> {
    if key.Some? then keys[sid := key.value] else keys
  }

  /** A state with one more session running. */
  function WithRun(s: State, sid: Sid, key: Option<Key>): State {
    s.(free := if s.free > 0 then s.free - 1 else 0, runs := s.runs[sid := Running], bridges := s.bridges + {sid},
       apiKey := KeyOf(s.apiKey, sid, key))
  }

  lemma StartsOne(cfg: Config, s: State, sid: Sid, key: Option<Key>)
    requires s.free >= 1 && sid !in s.runs && sid !in s.apiKey
    ensures Through(cfg, s, StartSteps(sid, key)) == WithRun(s, sid, key)
  {
    assert s.apiKey - {sid} == s.apiKey;
    var a := s.(runs := s.runs[sid := Queued], apiKey := KeyOf(s.apiKey, sid, key));
    assert Apply(cfg, s, Submit(sid, key)) == a;
    var b := a.(free := a.free - 1, runs := a.runs[sid := Running]);
    assert Apply(cfg, a, RunAcquire(sid)) == b;
    assert Apply(cfg, b, BridgeUp(sid)) == b.(bridges := b.bridges + {sid});
    assert a.runs[sid := Running] == s.runs[sid := Running];
    ThroughThree(cfg, s, Submit(sid, key), RunAcquire(sid), BridgeUp(sid), []);
    assert StartSteps(sid, key) + [] == StartSteps(sid, key);
  }

  lemma ThroughOne(cfg: Config, s: State, e: Step, rest: seq<Step>)
    ensures Through(cfg, s, [e] + rest) == Through(cfg, Apply(cfg, s, e), rest)
  {
    assert ([e] + rest)[1..] == rest;
  }

  lemma ThroughLast(cfg: Config, s: State, e: Step)
    ensures Through(cfg, s, [e]) == Apply(cfg, s, e)
  {
    assert [e][1..] == [];
  }

  lemma ThroughThree(cfg: Config, s: State, a: Step, b: Step, c: Step, rest: seq<Step>)
    ensures Through(cfg, s, [a, b, c] + rest) == Through(cfg, Apply(cfg, Apply(cfg, Apply(cfg, s, a), b), c), rest)
  {
    ThroughOne(cfg, s, a, [b] + ([c] + rest));
    ThroughOne(cfg, Apply(cfg, s, a), b, [c] + rest);
    ThroughOne(cfg, Apply(cfg, Apply(cfg, s, a), b), c, rest);
    assert [a, b, c] + rest == [a] + ([b] + ([c] + rest));
  }

  /** The tallies with one more for the session's key. */
  function TallyUp(s: State, sid: Sid): map<Key, int> {
    if sid in s.apiKey then s.byKey[s.apiKey[sid] := Tally(s.byKey, s.apiKey[sid]) + 1] else s.byKey
  }

  /** A state with one more session paused. */
  function WithPause(s: State, sid: Sid): State {
    s.(free := s.free + 1, paused := s.paused + {sid}, holds := s.holds + {sid}, timers := s.timers + {sid},
       byKey := TallyUp(s, sid), calls := map[], nextCall := s.nextCall + 1)
  }

  lemma PauseReaches(cfg: Config, s: State, sid: Sid)
    requires Verdict(cfg, s, sid) == Proceed && s.calls == map[]
    ensures Apply(cfg, Apply(cfg, s, PauseCall(sid)), PauseSend(s.nextCall))
         == s.(calls := map[s.nextCall := PauseAck(sid)], nextCall := s.nextCall + 1)
  {
    var id := s.nextCall;
    var a := s.(calls := map[id := PauseAnchor(sid)], nextCall := id + 1);
    assert Apply(cfg, s, PauseCall(sid)) == a;
    assert a.calls[id := PauseAck(sid)] == map[id := PauseAck(sid)];
  }

  lemma PauseLands(cfg: Config, s: State, sid: Sid, id: CallId)
    requires s.calls == map[id := PauseAck(sid)] && sid !in s.holds && s.nextCall == id + 1
    ensures Apply(cfg, Apply(cfg, s, PauseOk(id)), PauseDone(id))
         == WithPause(s.(calls := map[], nextCall := id), sid)
  {
    var c := s.(free := s.free + 1, paused := s.paused + {sid}, holds := s.holds + {sid}, byKey := TallyUp(s, sid),
                calls := map[id := PauseWrite(sid)]);
    assert s.calls[id := PauseWrite(sid)] == c.calls;
    assert Apply(cfg, s, PauseOk(id)) == c;
    assert c.calls - {id} == map[];
  }

  lemma PausesOne(cfg: Config, s: State, sid: Sid)
    requires Verdict(cfg, s, sid) == Proceed && s.calls == map[] && sid !in s.holds
    ensures Through(cfg, s, PauseSteps(sid, s.nextCall)) == WithPause(s, sid)
  {
    var id := s.nextCall;
    PauseReaches(cfg, s, sid);
    PauseLands(cfg, s.(calls := map[id := PauseAck(sid)], nextCall := id + 1), sid, id);
    ThroughThree(cfg, s, PauseCall(sid), PauseSend(id), PauseOk(id), [PauseDone(id)]);
    assert PauseSteps(sid, id) == [PauseCall(sid), PauseSend(id), PauseOk(id)] + [PauseDone(id)];
    ThroughLast(cfg, Apply(cfg, Apply(cfg, Apply(cfg, s, PauseCall(sid)), PauseSend(id)), PauseOk(id)), PauseDone(id));
  }

  predicate Distinct(names: seq<Sid>) {
    forall i, k :: 0 <= i < k < |names| ==> names[i] != names[k]
  }

  function Names(names: seq<Sid>): set<Sid> {
    set x | x in names
  }

  /** Exactly these `n` sessions exist, all of them paused, all with the given key or none. */
  predicate Packed(s: State, names: set<Sid>, n: nat, key: Option<Key>) {
    && s.paused == s.holds == s.runs.Keys == names && s.calls == map[] && s.nextCall == n == |s.paused|
    && s.apiKey == (if key.Some? then map sid | sid in names :: key.value else map[])
    && s.byKey == (if key.Some? && n > 0 then map[key.value := n] else map[])
  }

  /** One more session fits under both caps. */
  lemma PackedProceeds(cfg: Config, s: State, names: set<Sid>, n: nat, key: Option<Key>, sid: Sid)
    requires Packed(s, names, n, key) && sid !in names
    requires n < cfg.maxPaused && (key.Some? ==> n < cfg.maxPausedPerKey)
    ensures Verdict(cfg, WithRun(s, sid, key), sid) == Proceed
  {
  }

  lemma PackedNext(s: State, names: set<Sid>, n: nat, key: Option<Key>, sid: Sid)
    requires Packed(s, names, n, key) && sid !in names
    ensures Packed(WithPause(WithRun(s, sid, key), sid), names + {sid}, n + 1, key)
  {
    var t := WithPause(WithRun(s, sid, key), sid);
    assert t.apiKey == if key.Some? then map x | x in names + {sid} :: key.value else map[];
    assert t.byKey == if key.Some? then map[key.value := n + 1] else map[];
  }

  /** Any number of sessions, of one key or none, up to the caps, can be paused at the same time. */
  lemma {:induction false} PausesAll(cfg: Config, names: seq<Sid>, key: Option<Key>) returns (ev: seq<Step>)
    requires cfg.maxConcurrent >= 1 && |names| <= cfg.maxPaused && Distinct(names)
    requires key.Some? ==> |names| <= cfg.maxPausedPerKey
    ensures After(cfg, ev).free == cfg.maxConcurrent && Packed(After(cfg, ev), Names(names), |names|, key)
  {
    if names == [] {
      assert Names(names) == {};
      ev := [];
    } else {
      var n := |names| - 1;
      var before, sid := names[..n], names[n];
      var e0 := PausesAll(cfg, before, key);
      assert sid !in before;
      assert Names(names) == Names(before) + {sid};
      ev := PausesNext(cfg, e0, Names(before), n, key, sid);
    }
  }

  lemma PausesNext(cfg: Config, e0: seq<Step>, names: set<Sid>, n: nat, key: Option<Key>, sid: Sid)
    returns (ev: seq<Step>)
    requires Packed(After(cfg, e0), names, n, key) && sid !in names && After(cfg, e0).free >= 1
    requires n < cfg.maxPaused && (key.Some? ==> n < cfg.maxPausedPerKey)
    ensures Packed(After(cfg, ev), names + {sid}, n + 1, key) && After(cfg, ev).free == After(cfg, e0).free
  {
    var s := After(cfg, e0);
    var e1 := StartSteps(sid, key);
    var e2 := PauseSteps(sid, n);
    AfterThrough(cfg, e0, e1);
    StartsOne(cfg, s, sid, key);
    AfterThrough(cfg, e0 + e1, e2);
    PackedProceeds(cfg, s, names, n, key, sid);
    PausesOne(cfg, WithRun(s, sid, key), sid);
    PackedNext(s, names, n, key, sid);
    ev := e0 + e1 + e2;
  }

  /** The per-key cap is reached and not merely bounded: for every value below the global cap a run pauses
      exactly that many sessions of one key; the next session of the key is then refused, and one of
      another key is not. */
  lemma KeyCapIsReached(cfg: Config, names: seq<Sid>, k: Key, next: Sid, other: Key) returns (ev: seq<Step>)
    requires cfg.maxConcurrent >= 1 && |names| == cfg.maxPausedPerKey < cfg.maxPaused && Distinct(names)
    requires next !in names && other != k
    ensures |PausedWith(After(cfg, ev), k)| == cfg.maxPausedPerKey
    ensures var s := Through(cfg, After(cfg, ev), StartSteps(next, Some(k)));
            next in s.bridges && Apply(cfg, s, PauseCall(next)) == s
    ensures var s := Through(cfg, After(cfg, ev), StartSteps(next, Some(other)));
            cfg.maxPausedPerKey > 0 ==> Apply(cfg, s, PauseCall(next)).calls == map[s.nextCall := PauseAnchor(next)]
  {
    ev := PausesAll(cfg, names, Some(k));
    var s := After(cfg, ev);
    assert PausedWith(s, k) == Names(names);
    StartsOne(cfg, s, next, Some(k));
    StartsOne(cfg, s, next, Some(other));
  }

  /** Likewise the global cap. */
  lemma CapIsReached(cfg: Config, names: seq<Sid>, next: Sid) returns (ev: seq<Step>)
    requires cfg.maxConcurrent >= 1 && |names| == cfg.maxPaused && Distinct(names) && next !in names
    ensures |After(cfg, ev).paused| == cfg.maxPaused
    ensures var s := Through(cfg, After(cfg, ev), StartSteps(next, None));
            next in s.bridges && Apply(cfg, s, PauseCall(next)) == s
  {
    ev := PausesAll(cfg, names, None);
    StartsOne(cfg, After(cfg, ev), next, None);
  }

  /** For every cap there is a run that ends above it: fill up to one short of the cap, start two more
      sessions, and let their pauses overlap. */
  lemma CapOvershootHappens(cfg: Config, names: seq<Sid>, a: Sid, b: Sid) returns (ev: seq<Step>)
    requires cfg.maxConcurrent >= 2 && |names| == cfg.maxPaused - 1
    requires Distinct(names) && a != b && a !in names && b !in names
    ensures |After(cfg, ev).paused| == cfg.maxPaused + 1
  {
    var e0 := PausesAll(cfg, names, None);
    var s := After(cfg, e0);
    StartsOne(cfg, s, a, None);
    StartsOne(cfg, WithRun(s, a, None), b, None);
    AfterThrough(cfg, e0, StartSteps(a, None));
    AfterThrough(cfg, e0 + StartSteps(a, None), StartSteps(b, None));
    var e1 := e0 + StartSteps(a, None) + StartSteps(b, None);
    AfterThrough(cfg, e1, Overlap(a, b, s.nextCall));
    CapOvershoot(cfg, WithRun(WithRun(s, a, None), b, None), a, b);
    ev := e1 + Overlap(a, b, s.nextCall);
  }

  /** Two pauses, both checked before either is acknowledged. */
  function Overlap(a: Sid, b: Sid, i: CallId): seq<Step> {
    [PauseCall(a)] + ([PauseCall(b)] + Enter(i, i + 1))
  }

  function Enter(i: CallId, k: CallId): seq<Step> {
    [PauseSend(i), PauseSend(k), PauseOk(i)] + [PauseOk(k)]
  }

  lemma Enters(cfg: Config, s: State, i: CallId, k: CallId)
    requires i != k && i in s.calls && k in s.calls && s.calls[i].PauseAnchor? && s.calls[k].PauseAnchor?
    ensures Through(cfg, s, Enter(i, k)).paused == s.paused + {s.calls[i].sid} + {s.calls[k].sid}
  {
    BothEnter(cfg, s, i, k);
    ThroughThree(cfg, s, PauseSend(i), PauseSend(k), PauseOk(i), [PauseOk(k)]);
    ThroughLast(cfg, Apply(cfg, Apply(cfg, Apply(cfg, s, PauseSend(i)), PauseSend(k)), PauseOk(i)), PauseOk(k));
  }

  /** The bound is met: from any state one short of the cap, two pauses that are both checked before
      either is acknowledged take the paused set past it. */
  lemma CapOvershoot(cfg: Config, s: State, a: Sid, b: Sid)
    requires a != b && |s.paused| == cfg.maxPaused - 1
    requires Verdict(cfg, s, a) == Proceed && Verdict(cfg, s, b) == Proceed
    ensures |Through(cfg, s, Overlap(a, b, s.nextCall)).paused| == cfg.maxPaused + 1
  {
    var i := s.nextCall;
    BothChecked(cfg, s, a, b);
    ThroughOne(cfg, s, PauseCall(a), [PauseCall(b)] + Enter(i, i + 1));
    ThroughOne(cfg, Apply(cfg, s, PauseCall(a)), PauseCall(b), Enter(i, i + 1));
    Enters(cfg, Apply(cfg, Apply(cfg, s, PauseCall(a)), PauseCall(b)), i, i + 1);
  }

  lemma CallKeyCap(cfg: Config, s: State, sid: Sid, k: Key)
    requires Inv(s) && Tally(s.byKey, k) >= |PausedWith(s, k)| && Enabled(cfg, s, PauseCall(sid))
    ensures var t := Apply(cfg, s, PauseCall(sid));
            && PausedWith(t, k) == PausedWith(s, k)
            && (|PausedWith(t, k)| < cfg.maxPausedPerKey || PendingWith(t, k) == PendingWith(s, k))
  {
    var t := Apply(cfg, s, PauseCall(sid));
    assert PausedWith(t, k) == PausedWith(s, k);
    if s.nextCall !in PendingWith(t, k) {
      assert PendingWith(t, k) == PendingWith(s, k);
    }
  }

  lemma StepKeyCap(cfg: Config, s: State, e: Step, k: Key)
    requires Inv(s) && Tally(s.byKey, k) >= |PausedWith(s, k)|
    ensures var t := Apply(cfg, s, e);
            (|PausedWith(t, k)| + |PendingWith(t, k)| <= |PausedWith(s, k)| + |PendingWith(s, k)|)
            || (|PausedWith(t, k)| < cfg.maxPausedPerKey && e.PauseCall?)
  {
    var t := Apply(cfg, s, e);
    if Enabled(cfg, s, e) && e.PauseCall? {
      CallKeyCap(cfg, s, e.sid, k);
    } else if Enabled(cfg, s, e) {
      PausedStep(cfg, s, e, k);
      forall id | id in PendingWith(t, k) ensures id in PendingWith(s, k) {
        PendingWas(cfg, s, e, id);
        KeysOnlyShrink(cfg, s, e, t.calls[id].sid);
      }
      if e.PauseOk? && e.id in PendingWith(s, k) {
        CardSubset(PendingWith(t, k), PendingWith(s, k) - {e.id});
      } else {
        CardSubset(PendingWith(t, k), PendingWith(s, k));
      }
    }
  }

  /** The same bound for the sessions of one API key. */
  lemma {:induction false} PausedKeyCap(cfg: Config, ev: seq<Step>, k: Key, c: nat)
    requires c >= 1
    requires forall n :: 0 <= n <= |ev| ==> |PendingWith(After(cfg, ev[..n]), k)| <= c
    ensures var s := After(cfg, ev);
            |PausedWith(s, k)| + |PendingWith(s, k)| <= cfg.maxPausedPerKey - 1 + c
  {
    assert ev[..|ev|] == ev;
    if ev == [] {
      assert PendingWith(After(cfg, ev), k) == {} && PausedWith(After(cfg, ev), k) == {};
    } else {
      var before := ev[..|ev| - 1];
      forall n | 0 <= n <= |before| ensures |PendingWith(After(cfg, before[..n]), k)| <= c {
        assert before[..n] == ev[..n];
      }
      PausedKeyCap(cfg, before, k, c);
      MarkerIsPausedSet(cfg, before);
      PauseAccounting(cfg, before, k);
      StepKeyCap(cfg, After(cfg, before), ev[|ev| - 1], k);
    }
  }

  // ---------------------------------------------------------------- exactly when a cap is passed

  /** The state after a continuation. */
  function Onward(cfg: Config, s: State, ev: seq<Step>): State {
    if ev == [] then s else Apply(cfg, Onward(cfg, s, ev[..|ev| - 1]), ev[|ev| - 1])
  }

  predicate NoNewPause(ev: seq<Step>) {
    forall e <- ev :: !e.PauseCall?
  }

  /** Sessions with a pause call between the cap check and the insertion. */
  function Entrants(s: State): set<Sid> {
    set id | id in Pending(s) :: s.calls[id].sid
  }

  /** Sessions that are paused or about to be. */
  function Claimed(s: State): set<Sid> {
    s.paused + Entrants(s)
  }

  /** The claimed sessions of one key. */
  function ClaimedWith(s: State, k: Key): set<Sid> {
    set sid | sid in Claimed(s) && sid in s.apiKey && s.apiKey[sid] == k
  }

  lemma ClaimStays(cfg: Config, s: State, e: Step, sid: Sid)
    requires Inv(s) && !e.PauseCall? && sid in Claimed(Apply(cfg, s, e))
    ensures sid in Claimed(s)
  {
    var t := Apply(cfg, s, e);
    if sid in Entrants(t) {
      var id :| id in Pending(t) && t.calls[id].sid == sid;
      PendingWas(cfg, s, e, id);
    } else if sid !in s.paused {
      PauseBrings(cfg, s, e, sid);
      assert s.calls[e.id].sid in Entrants(s);
    }
  }

  /** Only an acknowledged pause brings a session into the paused set. */
  lemma PauseBrings(cfg: Config, s: State, e: Step, sid: Sid)
    requires sid in Apply(cfg, s, e).paused && sid !in s.paused
    ensures e.PauseOk? && e.id in Pending(s) && s.calls[e.id].sid == sid
  {
  }

  /** Without a new pause call the claimed sessions only get fewer, for each key too. */
  lemma ClaimsShrink(cfg: Config, s: State, e: Step, k: Key)
    requires Inv(s) && !e.PauseCall?
    ensures Claimed(Apply(cfg, s, e)) <= Claimed(s) && ClaimedWith(Apply(cfg, s, e), k) <= ClaimedWith(s, k)
  {
    var t := Apply(cfg, s, e);
    forall sid | sid in Claimed(t) ensures sid in Claimed(s) {
      ClaimStays(cfg, s, e, sid);
    }
    forall sid | sid in ClaimedWith(t, k) ensures sid in ClaimedWith(s, k) {
      ClaimKnown(s, sid);
      KeysOnlyShrink(cfg, s, e, sid);
    }
  }

  lemma ClaimKnown(s: State, sid: Sid)
    requires Inv(s) && sid in Claimed(s)
    ensures sid in s.runs
  {
    if sid in Entrants(s) {
      var id :| id in Pending(s) && s.calls[id].sid == sid;
      assert CallKnown(s, id);
    }
  }

  lemma {:induction false} ClaimsShrinkOnward(cfg: Config, s: State, ev: seq<Step>, k: Key)
    requires Inv(s) && NoNewPause(ev)
    ensures var t := Onward(cfg, s, ev);
            Inv(t) && Claimed(t) <= Claimed(s) && ClaimedWith(t, k) <= ClaimedWith(s, k)
  {
    if ev != [] {
      var before, e := ev[..|ev| - 1], ev[|ev| - 1];
      ClaimsShrinkOnward(cfg, s, before, k);
      assert e in ev;
      var m := Onward(cfg, s, before);
      ClaimsShrink(cfg, m, e, k);
      StepKeepsMarker(cfg, m, e);
      StepKeepsCalls(cfg, m, e);
    }
  }

  /** One pending call is let in: its session becomes paused, and nobody's key changes. */
  lemma LetInOne(cfg: Config, s: State, id: CallId) returns (ev: seq<Step>)
    requires id in Pending(s)
    ensures NoNewPause(ev)
    ensures var t := Onward(cfg, s, ev);
            && t.paused == s.paused + {s.calls[id].sid} && t.apiKey == s.apiKey
            && Pending(t) == Pending(s) - {id} && forall x <- Pending(t) :: t.calls[x].sid == s.calls[x].sid
  {
    var ok := [PauseOk(id)];
    assert ok[..0] == [];
    if s.calls[id].PauseAck? {
      ev := ok;
      EnterOne(cfg, s, id);
    } else {
      var sent := Apply(cfg, s, PauseSend(id));
      ev := [PauseSend(id)] + ok;
      assert ev[..1] == [PauseSend(id)] && ev[..1][..0] == [];
      SentOne(cfg, s, id);
      EnterOne(cfg, sent, id);
      assert Onward(cfg, s, ev[..1]) == sent;
    }
  }

  lemma SentOne(cfg: Config, s: State, id: CallId)
    requires id in s.calls && s.calls[id].PauseAnchor?
    ensures var t := Apply(cfg, s, PauseSend(id));
            && t.paused == s.paused && t.apiKey == s.apiKey && Pending(t) == Pending(s)
            && t.calls[id] == PauseAck(s.calls[id].sid) && forall x <- Pending(t) :: t.calls[x].sid == s.calls[x].sid
  {
  }

  lemma EnterOne(cfg: Config, s: State, id: CallId)
    requires id in s.calls && s.calls[id].PauseAck?
    ensures var t := Apply(cfg, s, PauseOk(id));
            && t.paused == s.paused + {s.calls[id].sid} && t.apiKey == s.apiKey
            && Pending(t) == Pending(s) - {id} && forall x <- Pending(t) :: t.calls[x].sid == s.calls[x].sid
  {
  }

  lemma {:induction false} OnwardConcat(cfg: Config, s: State, p: seq<Step>, q: seq<Step>)
    ensures Onward(cfg, s, p + q) == Onward(cfg, Onward(cfg, s, p), q)
  {
    if q == [] {
      assert p + q == p;
    } else {
      assert (p + q)[..|p + q| - 1] == p + q[..|q| - 1];
      OnwardConcat(cfg, s, p, q[..|q| - 1]);
    }
  }

  /** The pending calls can all be let in. */
  lemma {:induction false} LetInAll(cfg: Config, s: State) returns (ev: seq<Step>)
    ensures NoNewPause(ev)
    ensures Onward(cfg, s, ev).paused == Claimed(s) && Onward(cfg, s, ev).apiKey == s.apiKey
    decreases |Pending(s)|
  {
    ev := [];
    if Pending(s) != {} {
      var id :| id in Pending(s);
      var first := LetInOne(cfg, s, id);
      var m := Onward(cfg, s, first);
      CardRemove(Pending(s), Pending(m), id);
      var rest := LetInAll(cfg, m);
      OnwardConcat(cfg, s, first, rest);
      ev := first + rest;
      assert Claimed(m) == Claimed(s) by {
        LetInClaims(s, m, id);
      }
    }
  }

  lemma LetInClaims(s: State, m: State, id: CallId)
    requires id in Pending(s) && m.paused == s.paused + {s.calls[id].sid}
    requires Pending(m) == Pending(s) - {id} && forall x <- Pending(m) :: m.calls[x].sid == s.calls[x].sid
    ensures Claimed(m) == Claimed(s)
  {
    forall sid | sid in Claimed(m) ensures sid in Claimed(s) {
      if sid in Entrants(m) {
        var x :| x in Pending(m) && m.calls[x].sid == sid;
        assert s.calls[x].sid in Entrants(s);
      } else {
        assert s.calls[id].sid in Entrants(s);
      }
    }
    forall sid | sid in Claimed(s) ensures sid in Claimed(m) {
      if sid in Entrants(s) {
        var x :| x in Pending(s) && s.calls[x].sid == sid;
        if x != id {
          assert x in Pending(m);
          assert m.calls[x].sid in Entrants(m);
        }
      }
    }
  }

  /** Some continuation without a new pause call passes the cap. */
  ghost predicate MayPassCap(cfg: Config, s: State) {
    exists ev :: NoNewPause(ev) && |Onward(cfg, s, ev).paused| > cfg.maxPaused
  }

  ghost predicate MayPassKeyCap(cfg: Config, s: State, k: Key) {
    exists ev :: NoNewPause(ev) && |PausedWith(Onward(cfg, s, ev), k)| > cfg.maxPausedPerKey
  }

  /** Exactly when the cap can be passed by what is already under way: if and only if the sessions
      paused and about to be are more than it allows. */
  lemma CapPassedIff(cfg: Config, s: State)
    requires Inv(s)
    ensures MayPassCap(cfg, s) <==> |Claimed(s)| > cfg.maxPaused
  {
    var all := LetInAll(cfg, s);
    if MayPassCap(cfg, s) {
      var ev :| NoNewPause(ev) && |Onward(cfg, s, ev).paused| > cfg.maxPaused;
      ClaimsShrinkOnward(cfg, s, ev, "");
      CardSubset(Onward(cfg, s, ev).paused, Claimed(s));
    }
  }

  /** The same for the sessions of one API key. */
  lemma KeyCapPassedIff(cfg: Config, s: State, k: Key)
    requires Inv(s)
    ensures MayPassKeyCap(cfg, s, k) <==> |ClaimedWith(s, k)| > cfg.maxPausedPerKey
  {
    var all := LetInAll(cfg, s);
    assert PausedWith(Onward(cfg, s, all), k) == ClaimedWith(s, k);
    if MayPassKeyCap(cfg, s, k) {
      var ev :| NoNewPause(ev) && |PausedWith(Onward(cfg, s, ev), k)| > cfg.maxPausedPerKey;
      ClaimsShrinkOnward(cfg, s, ev, k);
      CardSubset(PausedWith(Onward(cfg, s, ev), k), ClaimedWith(s, k));
    }
  }
}
