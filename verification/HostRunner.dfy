/** The session manager and the runners' control loops together. Requests reach a loop in order,
    the loop answers them in order, and the host's continuations run in the order of the answers;
    everything else interleaves freely. */
module HostRunner {
  import opened Basics
  import opened SlotScheduler
  import C = ControlProtocol

  datatype Op = Pause | Resume
  datatype Req = Req(id: CallId, op: Op)
  datatype Ack = Ack(id: CallId, op: Op, ok: bool)

  /** One runner: requests not yet answered, its `_paused` flag, and answers whose host
      continuation has not run. */
  datatype Loop = Loop(inbox: seq<Req>, paused: bool, acked: seq<Ack>)

  datatype Joint = Joint(host: State, loops: map<Sid, Loop>)

  datatype JStep =
    | Host(e: Step)                  // any manager step that is not the receipt of a positive ack
    | Serve(sid: Sid, works: bool)   // the loop answers its oldest request
    | Deliver(sid: Sid)              // the oldest answer reaches its caller

  function LoopOf(j: Joint, sid: Sid): Loop {
    if sid in j.loops then j.loops[sid] else Loop([], false, [])
  }

  /** The call still waits for the answer to this request. */
  predicate Waiting(h: State, id: CallId, op: Op) {
    id in h.calls && (if op == Pause then h.calls[id].PauseAck? else h.calls[id].ResumeAck?)
  }

  function Drop(acks: seq<Ack>, id: CallId): (r: seq<Ack>)
    ensures forall a <- r :: a in acks
  {
    if acks == [] then []
    else if acks[0].id == id then acks[1..]
    else [acks[0]] + Drop(acks[1..], id)
  }

  /** What a host step does to the loop of the session it concerns. */
  function HostEffect(h: State, e: Step, sid: Sid, l: Loop): Loop {
    match e
    case PauseSend(id) =>
      if id in h.calls && h.calls[id] == PauseAnchor(sid) then l.(inbox := l.inbox + [Req(id, Pause)]) else l
    case ResumeAcquire(id) =>
      if id in h.calls && h.calls[id] == ResumeSlot(sid) && h.free > 0
      then l.(inbox := l.inbox + [Req(id, Resume)]) else l
    case PauseAbort(id) =>
      if id in h.calls && h.calls[id] == PauseAck(sid) then l.(acked := Drop(l.acked, id)) else l
    case ResumeFail(id) =>
      if id in h.calls && h.calls[id] == ResumeAck(sid) then l.(acked := Drop(l.acked, id)) else l
    case _ => l
  }

  function Concerned(h: State, e: Step): Option<Sid> {
    if (e.PauseSend? || e.ResumeAcquire? || e.PauseAbort? || e.ResumeFail?) && e.id in h.calls
    then Some(h.calls[e.id].sid) else None
  }

  /** The answer of the control loop to its oldest request, and its flag afterwards. */
  function Answer(l: Loop, works: bool): (bool, bool)
    requires l.inbox != []
  {
    var ok := works && (l.inbox[0].op == Pause) == !l.paused;
    (ok, if ok then l.inbox[0].op == Pause else l.paused)
  }

  function WireOp(op: Op): C.Op {
    if op == Pause then C.Pause else C.Resume
  }

  /** The answer is the one the control loop of the request/ack protocol gives. */
  lemma AnswerIsTheLoops(l: Loop, works: bool)
    requires l.inbox != []
    ensures var m := C.Msg(WireOp(l.inbox[0].op), C.Issued(WireOp(l.inbox[0].op), l.inbox[0].id));
            var refusal := C.Refusal(l.paused, m);
            && (refusal.Some? ==> Answer(l, works) == (refusal.value.ok, l.paused))
            && (refusal.None? ==>
                  Answer(l, works) == (C.Conclusion(m, works).ok, if works then m.op == C.Pause else l.paused))
  {
  }

  function Receipt(a: Ack): Step {
    match a.op
    case Pause => if a.ok then PauseOk(a.id) else PauseAbort(a.id)
    case Resume => if a.ok then ResumeOk(a.id) else ResumeFail(a.id)
  }

  function JApply(cfg: Config, j: Joint, s: JStep): Joint {
    match s
    case Host(e) =>
      if e.PauseOk? || e.ResumeOk? then j
      else
        var c := Concerned(j.host, e);
        Joint(Apply(cfg, j.host, e),
              if c.Some? then j.loops[c.value := HostEffect(j.host, e, c.value, LoopOf(j, c.value))] else j.loops)
    case Serve(sid, works) =>
      var l := LoopOf(j, sid);
      if l.inbox == [] then j
      else
        var (ok, flag) := Answer(l, works);
        var r := l.inbox[0];
        var heard := if Waiting(j.host, r.id, r.op) then l.acked + [Ack(r.id, r.op, ok)] else l.acked;
        j.(loops := j.loops[sid := Loop(l.inbox[1..], flag, heard)])
    case Deliver(sid) =>
      var l := LoopOf(j, sid);
      if l.acked == [] then j
      else Joint(Apply(cfg, j.host, Receipt(l.acked[0])), j.loops[sid := l.(acked := l.acked[1..])])
  }

  function JAfter(cfg: Config, ev: seq<JStep>): Joint {
    if ev == [] then Joint(Init(cfg), map[])
    else JApply(cfg, JAfter(cfg, ev[..|ev| - 1]), ev[|ev| - 1])
  }

  // ---------------------------------------------------------------- routing invariant

  /** No request is queued twice. */
  predicate Once(l: Loop) {
    && AckIdsDistinct(l.acked)
    && (forall i, k :: 0 <= i < k < |l.inbox| ==> l.inbox[i].id != l.inbox[k].id)
    && (forall a <- l.acked, r <- l.inbox :: a.id != r.id)
  }

  predicate AckRouted(h: State, sid: Sid, a: Ack) {
    Waiting(h, a.id, a.op) && h.calls[a.id].sid == sid
  }

  predicate ReqRouted(h: State, sid: Sid, r: Req) {
    r.id < h.nextCall && (r.id in h.calls ==> Sent(h.calls[r.id]) && h.calls[r.id].sid == sid)
  }

  /** Answers in the queue belong to calls that still wait for them, each request is queued once,
      and a request is only queued for a call that has sent it. */
  predicate Routed(h: State, sid: Sid, l: Loop) {
    && (forall a <- l.acked :: AckRouted(h, sid, a))
    && (forall r <- l.inbox :: ReqRouted(h, sid, r))
    && Once(l)
  }

  predicate Sent(c: Call) {
    c.PauseAck? || c.PauseWrite? || c.ResumeAck?
  }

  predicate JInv(j: Joint) {
    && Inv(j.host)
    && forall sid <- j.loops :: Routed(j.host, sid, j.loops[sid])
  }

  predicate AckIdsDistinct(acks: seq<Ack>) {
    forall i, k :: 0 <= i < k < |acks| ==> acks[i].id != acks[k].id
  }

  lemma TailDistinct(acks: seq<Ack>, a: Ack)
    requires AckIdsDistinct(acks) && acks != [] && a in acks[1..]
    ensures a in acks && a.id != acks[0].id
  {
    var k :| 0 <= k < |acks[1..]| && acks[1..][k] == a;
    assert acks[k + 1] == a;
  }

  lemma {:induction false} DropGone(acks: seq<Ack>, id: CallId, a: Ack)
    requires AckIdsDistinct(acks) && a in Drop(acks, id)
    ensures a.id != id
  {
    if acks[0].id == id {
      TailDistinct(acks, a);
    } else if a != acks[0] {
      DropGone(acks[1..], id, a);
    }
  }

  lemma {:induction false} DropDistinct(acks: seq<Ack>, id: CallId)
    requires AckIdsDistinct(acks)
    ensures AckIdsDistinct(Drop(acks, id))
  {
    if acks != [] && acks[0].id != id {
      DropDistinct(acks[1..], id);
      var rest := Drop(acks[1..], id);
      forall k | 0 <= k < |rest| ensures rest[k].id != acks[0].id {
        TailDistinct(acks, rest[k]);
      }
    }
  }

  /** Calls other than those a step names keep their stage, and new calls get new ids. */
  lemma CallsElsewhere(cfg: Config, h: State, e: Step, id: CallId)
    requires Inv(h) && id < h.nextCall
    requires !(e.PauseSend? || e.PauseOk? || e.PauseDone? || e.PauseAbort? || e.ResumeQueue? || e.ResumeTimeout?
               || e.ResumeAcquire? || e.ResumeOk? || e.ResumeFail? || e.ResumeAbort?) || e.id != id
    ensures var t := Apply(cfg, h, e);
            && h.nextCall <= t.nextCall
            && (id in t.calls <==> id in h.calls) && (id in h.calls ==> t.calls[id] == h.calls[id])
  {
  }

  lemma HostKeepsOnce(h: State, e: Step, sid: Sid, l: Loop)
    requires Inv(h) && Routed(h, sid, l)
    ensures Once(HostEffect(h, e, sid, l))
  {
    if e.PauseAbort? || e.ResumeFail? {
      DropDistinct(l.acked, e.id);
    } else if (e.PauseSend? || e.ResumeAcquire?) && e.id in h.calls && !Sent(h.calls[e.id]) {
      forall a | a in l.acked ensures a.id != e.id {
        assert AckRouted(h, sid, a);
      }
      forall i | 0 <= i < |l.inbox| ensures l.inbox[i].id != e.id {
        assert ReqRouted(h, sid, l.inbox[i]);
      }
    }
  }

  lemma HostKeepsRouted(cfg: Config, h: State, e: Step, sid: Sid, l: Loop)
    requires Inv(h) && Routed(h, sid, l) && !e.PauseOk? && !e.ResumeOk?
    ensures Routed(Apply(cfg, h, e), sid, HostEffect(h, e, sid, l))
  {
    var t := Apply(cfg, h, e);
    var l' := HostEffect(h, e, sid, l);
    HostKeepsOnce(h, e, sid, l);
    if !Enabled(cfg, h, e) {
      assert l' == l;
    } else {
      forall a | a in l'.acked ensures AckRouted(t, sid, a) {
        AckStays(cfg, h, e, sid, l, a);
      }
      forall r | r in l'.inbox ensures ReqRouted(t, sid, r) {
        if r in l.inbox {
          CallStays(cfg, h, e, r.id);
        } else {
          assert l'.inbox == l.inbox + [l'.inbox[|l.inbox|]];
        }
      }
    }
  }

  lemma AckStays(cfg: Config, h: State, e: Step, sid: Sid, l: Loop, a: Ack)
    requires Inv(h) && Routed(h, sid, l) && Enabled(cfg, h, e) && !e.PauseOk? && !e.ResumeOk?
    requires a in HostEffect(h, e, sid, l).acked
    ensures AckRouted(Apply(cfg, h, e), sid, a)
  {
    assert a in l.acked && AckRouted(h, sid, a);
    if (e.PauseAbort? || e.ResumeFail?) && e.id == a.id {
      DropGone(l.acked, e.id, a);
      assert false;
    }
    CallStays(cfg, h, e, a.id);
  }

  lemma EffectElsewhere(h: State, e: Step, sid: Sid, l: Loop)
    requires Concerned(h, e) != Some(sid)
    ensures HostEffect(h, e, sid, l) == l
  {
  }

  /** A sent call stays as it is until a step names it. */
  lemma CallStays(cfg: Config, h: State, e: Step, id: CallId)
    requires Inv(h) && id < h.nextCall && !e.PauseOk? && !e.ResumeOk?
    requires id in h.calls ==> Sent(h.calls[id])
    ensures var t := Apply(cfg, h, e);
            && id < t.nextCall
            && (id in t.calls ==> id in h.calls && t.calls[id] == h.calls[id])
            && (id in h.calls && !((e.PauseAbort? || e.ResumeFail?) && e.id == id) && !h.calls[id].PauseWrite?
                ==> id in t.calls)
  {
  }

  lemma ServeKeepsRouted(h: State, sid: Sid, l: Loop, works: bool)
    requires Inv(h) && Routed(h, sid, l) && l.inbox != []
    ensures var (ok, flag) := Answer(l, works);
            var r := l.inbox[0];
            var heard := if Waiting(h, r.id, r.op) then l.acked + [Ack(r.id, r.op, ok)] else l.acked;
            Routed(h, sid, Loop(l.inbox[1..], flag, heard))
  {
    var r := l.inbox[0];
    assert r in l.inbox;
    forall x | x in l.inbox[1..] ensures x.id != r.id && x in l.inbox {
      var k :| 0 <= k < |l.inbox[1..]| && l.inbox[1..][k] == x;
      assert l.inbox[k + 1] == x;
    }
  }

  lemma TailKeepsOnce(l: Loop)
    requires Once(l) && l.acked != []
    ensures Once(l.(acked := l.acked[1..]))
    ensures forall a <- l.acked[1..] :: a in l.acked && a.id != l.acked[0].id
    ensures forall r <- l.inbox :: r.id != l.acked[0].id
  {
    forall a | a in l.acked[1..] ensures a in l.acked && a.id != l.acked[0].id {
      TailDistinct(l.acked, a);
    }
    assert l.acked[0] in l.acked;
  }

  lemma DeliverKeepsRouted(cfg: Config, h: State, sid: Sid, l: Loop, a: Ack)
    requires Inv(h) && Routed(h, sid, l) && Waiting(h, a.id, a.op)
    requires h.calls[a.id].sid == sid ==> l.acked != [] && l.acked[0] == a
    ensures Routed(Apply(cfg, h, Receipt(a)), sid, if h.calls[a.id].sid == sid then l.(acked := l.acked[1..]) else l)
  {
    var t := Apply(cfg, h, Receipt(a));
    var mine := h.calls[a.id].sid == sid;
    if mine {
      TailKeepsOnce(l);
    }
    forall b | b in (if mine then l.acked[1..] else l.acked) ensures AckRouted(t, sid, b) {
      assert AckRouted(h, sid, b);
      CallsElsewhere(cfg, h, Receipt(a), b.id);
    }
    forall r | r in l.inbox ensures ReqRouted(t, sid, r) {
      assert ReqRouted(h, sid, r);
      if r.id != a.id {
        CallsElsewhere(cfg, h, Receipt(a), r.id);
      }
    }
  }

  lemma StepKeepsJInv(cfg: Config, j: Joint, s: JStep)
    requires JInv(j)
    ensures JInv(JApply(cfg, j, s))
  {
    var k := JApply(cfg, j, s);
    match s {
      case Host(e) =>
        if !(e.PauseOk? || e.ResumeOk?) {
          StepKeepsMarker(cfg, j.host, e);
          StepKeepsCalls(cfg, j.host, e);
          forall sid | sid in k.loops ensures Routed(k.host, sid, k.loops[sid]) {
            HostKeepsRouted(cfg, j.host, e, sid, LoopOf(j, sid));
            if Concerned(j.host, e) != Some(sid) {
              EffectElsewhere(j.host, e, sid, LoopOf(j, sid));
            }
          }
        }
      case Serve(sid, works) =>
        if LoopOf(j, sid).inbox != [] {
          ServeKeepsRouted(j.host, sid, LoopOf(j, sid), works);
        }
      case Deliver(sid) =>
        var l := LoopOf(j, sid);
        if l.acked != [] {
          var a := l.acked[0];
          assert a in l.acked;
          StepKeepsMarker(cfg, j.host, Receipt(a));
          StepKeepsCalls(cfg, j.host, Receipt(a));
          forall x | x in k.loops ensures Routed(k.host, x, k.loops[x]) {
            DeliverKeepsRouted(cfg, j.host, x, LoopOf(j, x), a);
          }
        }
    }
  }

  lemma {:induction false} AnswersReachTheirCallers(cfg: Config, ev: seq<JStep>)
    ensures JInv(JAfter(cfg, ev))
  {
    if ev != [] {
      AnswersReachTheirCallers(cfg, ev[..|ev| - 1]);
      StepKeepsJInv(cfg, JAfter(cfg, ev[..|ev| - 1]), ev[|ev| - 1]);
    }
  }

  // ---------------------------------------------------------------- agreement

  /** Where a paused flag ends up after a queue of answers, or None if an answer does not fit. */
  function Follow(flag: bool, acks: seq<Ack>): Option<bool>
    decreases acks
  {
    if acks == [] then Some(flag)
    else if !acks[0].ok then Follow(flag, acks[1..])
    else if (acks[0].op == Pause) == flag then None
    else Follow(!flag, acks[1..])
  }

  lemma FollowThen(flag: bool, acks: seq<Ack>, a: Ack)
    requires Follow(flag, acks).Some?
    ensures Follow(flag, acks + [a])
         == (if !a.ok then Follow(flag, acks)
             else if (a.op == Pause) == Follow(flag, acks).value then None
             else Some(!Follow(flag, acks).value))
    decreases acks
  {
    if acks != [] {
      assert (acks + [a])[1..] == acks[1..] + [a];
    }
  }

  /** Host and runner differ exactly by the answers still on their way. */
  predicate InStep(j: Joint, sid: Sid) {
    Follow(sid in j.host.paused, LoopOf(j, sid).acked) == Some(LoopOf(j, sid).paused)
  }

  /** The call of this session waits for an answer, and a positive one is already on its way. */
  predicate Answered(j: Joint, sid: Sid, id: CallId) {
    exists a <- LoopOf(j, sid).acked :: a.id == id && a.ok
  }

  /** The steps by which host and runner fall out of step, told apart before they are taken: the runner
      carries out a request whose caller no longer waits; a caller stops waiting although a positive
      answer is on its way; a paused session is cancelled or its run ends. */
  predicate Loses(cfg: Config, j: Joint, s: JStep, sid: Sid) {
    match s
    case Serve(x, works) =>
      var l := LoopOf(j, sid);
      x == sid && l.inbox != [] && Answer(l, works).0 && !Waiting(j.host, l.inbox[0].id, l.inbox[0].op)
    case Host(PauseAbort(id)) => id in j.host.calls && j.host.calls[id] == PauseAck(sid) && Answered(j, sid, id)
    case Host(ResumeFail(id)) => id in j.host.calls && j.host.calls[id] == ResumeAck(sid) && Answered(j, sid, id)
    case Host(Cancel(x)) => x == sid && sid in j.host.paused
    case Host(RunFinish(x)) => x == sid && sid in j.host.paused && Enabled(cfg, j.host, RunFinish(sid))
    case _ => false
  }

  function Oks(acks: seq<Ack>): nat {
    if acks == [] then 0 else (if acks[0].ok then 1 else 0) + Oks(acks[1..])
  }

  /** Where the flag ends up is the parity of the positive answers. */
  lemma {:induction false} FollowParity(flag: bool, acks: seq<Ack>)
    requires Follow(flag, acks).Some?
    ensures Follow(flag, acks).value == (flag != (Oks(acks) % 2 == 1))
    decreases acks
  {
    if acks != [] {
      FollowParity(if acks[0].ok then !flag else flag, acks[1..]);
    }
  }

  /** What giving up on a call removes from the answers on their way. */
  lemma {:induction false} DropOks(acks: seq<Ack>, id: CallId)
    requires AckIdsDistinct(acks)
    ensures Oks(Drop(acks, id)) == Oks(acks) - (if exists a <- acks :: a.id == id && a.ok then 1 else 0)
  {
    if acks != [] {
      if acks[0].id == id {
        forall a | a in acks[1..] ensures a.id != id {
          TailDistinct(acks, a);
        }
        assert acks[0].ok <==> exists a <- acks :: a.id == id && a.ok;
      } else {
        DropOks(acks[1..], id);
        assert Drop(acks, id)[1..] == Drop(acks[1..], id);
        assert (exists a <- acks :: a.id == id && a.ok) <==> exists a <- acks[1..] :: a.id == id && a.ok;
      }
    }
  }

  /** Removing an answer that is not positive does not change where the flag ends up. */
  lemma {:induction false} FollowDrop(flag: bool, acks: seq<Ack>, id: CallId)
    requires forall a <- acks :: a.id == id ==> !a.ok
    ensures Follow(flag, Drop(acks, id)) == Follow(flag, acks)
    decreases acks
  {
    if acks != [] {
      assert acks[0] in acks;
      if acks[0].id != id {
        FollowDrop(if acks[0].ok then !flag else flag, acks[1..], id);
        assert Drop(acks, id)[1..] == Drop(acks[1..], id);
      }
    }
  }

  /** Giving up on a call keeps a session in step exactly when no positive answer is thrown away. */
  lemma GiveUpIff(flag: bool, l: Loop, id: CallId)
    requires Once(l) && Follow(flag, l.acked) == Some(l.paused)
    ensures Follow(flag, Drop(l.acked, id)) == Some(l.paused) <==> !(exists a <- l.acked :: a.id == id && a.ok)
  {
    if exists a <- l.acked :: a.id == id && a.ok {
      DropOks(l.acked, id);
      FollowParity(flag, l.acked);
      if Follow(flag, Drop(l.acked, id)).Some? {
        FollowParity(flag, Drop(l.acked, id));
      }
    } else {
      FollowDrop(flag, l.acked, id);
    }
  }

  /** Clearing the host's flag while the session is paused always puts it out of step. */
  lemma ClearedIsOut(acks: seq<Ack>, v: bool)
    requires Follow(true, acks) == Some(v)
    ensures Follow(false, acks) != Some(v)
  {
    FollowParity(true, acks);
    if Follow(false, acks).Some? {
      FollowParity(false, acks);
    }
  }

  lemma PausedElsewhereJ(cfg: Config, h: State, e: Step, sid: Sid)
    requires !e.PauseOk? && !e.ResumeOk? && e != Cancel(sid) && e != RunFinish(sid)
    ensures sid in Apply(cfg, h, e).paused <==> sid in h.paused
  {
  }

  /** A cancel or the end of the run clears the host's flag and leaves the loop alone. */
  lemma ClearStep(cfg: Config, j: Joint, e: Step, sid: Sid)
    requires e == Cancel(sid) || e == RunFinish(sid)
    ensures var k := JApply(cfg, j, Host(e));
            && LoopOf(k, sid) == LoopOf(j, sid)
            && (Enabled(cfg, j.host, e) ==> sid !in k.host.paused)
            && (!Enabled(cfg, j.host, e) ==> k.host == j.host)
  {
  }

  /** What any other host step does to the flag and the loop of a session. */
  lemma HostStepLoop(cfg: Config, j: Joint, e: Step, sid: Sid)
    requires !e.PauseOk? && !e.ResumeOk? && e != Cancel(sid) && e != RunFinish(sid)
    ensures var k := JApply(cfg, j, Host(e));
            && (sid in k.host.paused <==> sid in j.host.paused)
            && LoopOf(k, sid).paused == LoopOf(j, sid).paused
            && LoopOf(k, sid).acked
               == if GivesUp(j, e, sid) then Drop(LoopOf(j, sid).acked, e.id) else LoopOf(j, sid).acked
  {
    PausedElsewhereJ(cfg, j.host, e, sid);
    if Concerned(j.host, e) != Some(sid) {
      EffectElsewhere(j.host, e, sid, LoopOf(j, sid));
    }
  }

  /** A call of this session stops waiting for its answer. */
  predicate GivesUp(j: Joint, e: Step, sid: Sid) {
    && (e.PauseAbort? || e.ResumeFail?) && e.id in j.host.calls
    && j.host.calls[e.id] == (if e.PauseAbort? then PauseAck(sid) else ResumeAck(sid))
  }

  lemma HostInStepIff(cfg: Config, j: Joint, e: Step, sid: Sid)
    requires JInv(j) && InStep(j, sid)
    ensures !InStep(JApply(cfg, j, Host(e)), sid) <==> Loses(cfg, j, Host(e), sid)
  {
    var l := LoopOf(j, sid);
    if e == Cancel(sid) || e == RunFinish(sid) {
      ClearStep(cfg, j, e, sid);
      if sid in j.host.paused {
        ClearedIsOut(l.acked, l.paused);
      }
    } else if !(e.PauseOk? || e.ResumeOk?) {
      HostStepLoop(cfg, j, e, sid);
      if GivesUp(j, e, sid) {
        GiveUpIff(sid in j.host.paused, l, e.id);
      }
    }
  }

  lemma ServeInStepIff(cfg: Config, j: Joint, x: Sid, works: bool, sid: Sid)
    requires JInv(j) && InStep(j, sid)
    ensures !InStep(JApply(cfg, j, Serve(x, works)), sid) <==> Loses(cfg, j, Serve(x, works), sid)
  {
    var l := LoopOf(j, sid);
    if x == sid && l.inbox != [] {
      var r := l.inbox[0];
      FollowThen(sid in j.host.paused, l.acked, Ack(r.id, r.op, Answer(l, works).0));
    }
  }

  /** Delivering an answer moves the host's flag as the answer says, in its own session only. */
  lemma DeliverFlag(cfg: Config, j: Joint, x: Sid, sid: Sid)
    requires JInv(j) && LoopOf(j, x).acked != []
    ensures var a := LoopOf(j, x).acked[0];
            sid in JApply(cfg, j, Deliver(x)).host.paused
            <==> if x == sid && a.ok then a.op == Pause else sid in j.host.paused
  {
    assert LoopOf(j, x).acked[0] in LoopOf(j, x).acked;
    assert AckRouted(j.host, x, LoopOf(j, x).acked[0]);
  }

  lemma DeliverInStep(cfg: Config, j: Joint, x: Sid, sid: Sid)
    requires JInv(j) && InStep(j, sid)
    ensures InStep(JApply(cfg, j, Deliver(x)), sid)
  {
    if LoopOf(j, x).acked != [] {
      DeliverFlag(cfg, j, x, sid);
    }
  }

  /** One step puts a session out of step if and only if it is one of the losing ones. */
  lemma StepInStepIff(cfg: Config, j: Joint, s: JStep, sid: Sid)
    requires JInv(j) && InStep(j, sid)
    ensures !InStep(JApply(cfg, j, s), sid) <==> Loses(cfg, j, s, sid)
  {
    match s
    case Host(e) => HostInStepIff(cfg, j, e, sid);
    case Serve(x, works) => ServeInStepIff(cfg, j, x, works, sid);
    case Deliver(x) => DeliverInStep(cfg, j, x, sid);
  }

  /** The session is in step at the end of the run and of all its prefixes. */
  predicate InStepThroughout(cfg: Config, ev: seq<JStep>, sid: Sid) {
    InStep(JAfter(cfg, ev), sid) && (ev == [] || InStepThroughout(cfg, ev[..|ev| - 1], sid))
  }

  predicate NeverLoses(cfg: Config, ev: seq<JStep>, sid: Sid) {
    ev == []
    || (!Loses(cfg, JAfter(cfg, ev[..|ev| - 1]), ev[|ev| - 1], sid) && NeverLoses(cfg, ev[..|ev| - 1], sid))
  }

  /** Throughout a run host and runner differ only by the answers on their way if and only if no step of
      the run is a losing one. */
  lemma {:induction false} InStepIff(cfg: Config, ev: seq<JStep>, sid: Sid)
    ensures InStepThroughout(cfg, ev, sid) <==> NeverLoses(cfg, ev, sid)
  {
    if ev != [] {
      var before := ev[..|ev| - 1];
      InStepIff(cfg, before, sid);
      AnswersReachTheirCallers(cfg, before);
      if InStepThroughout(cfg, before, sid) {
        StepInStepIff(cfg, JAfter(cfg, before), ev[|ev| - 1], sid);
      }
    }
  }

  /** No call of the session waits for an answer. */
  predicate Quiet(j: Joint, sid: Sid) {
    forall id <- j.host.calls :: j.host.calls[id] != PauseAck(sid) && j.host.calls[id] != ResumeAck(sid)
  }

  /** In a run without a losing step, whenever no call of the session waits for an answer, the manager
      has it in the paused set exactly when the runner is paused. */
  lemma HostRunnerAgreement(cfg: Config, ev: seq<JStep>, sid: Sid)
    requires NeverLoses(cfg, ev, sid)
    ensures InStep(JAfter(cfg, ev), sid)
    ensures Quiet(JAfter(cfg, ev), sid) ==>
        (sid in JAfter(cfg, ev).host.paused <==> LoopOf(JAfter(cfg, ev), sid).paused)
  {
    AnswersReachTheirCallers(cfg, ev);
    InStepIff(cfg, ev, sid);
    var j := JAfter(cfg, ev);
    assert InStep(j, sid);
    var l := LoopOf(j, sid);
    if l.acked != [] {
      assert AckRouted(j.host, sid, l.acked[0]);
    }
  }

  /** Steps that a caller can see: a call that stops waiting for its answer, a cancel, or the end of the
      run. */
  predicate Disturbs(j: Joint, s: JStep, sid: Sid) {
    s.Host? && (GivesUp(j, s.e, sid) || s.e == Cancel(sid) || s.e == RunFinish(sid))
  }

  /** Every request in the session's inbox has a caller that waits. */
  predicate Heard(j: Joint, sid: Sid) {
    forall r <- LoopOf(j, sid).inbox :: Waiting(j.host, r.id, r.op)
  }

  lemma HostKeepsHeard(cfg: Config, j: Joint, e: Step, sid: Sid)
    requires JInv(j) && Heard(j, sid) && !Disturbs(j, Host(e), sid)
    ensures Heard(JApply(cfg, j, Host(e)), sid)
  {
    if !(e.PauseOk? || e.ResumeOk?) {
      var k := JApply(cfg, j, Host(e));
      forall r | r in LoopOf(k, sid).inbox ensures Waiting(k.host, r.id, r.op) {
        if r in LoopOf(j, sid).inbox {
          CallStays(cfg, j.host, e, r.id);
        }
      }
    }
  }

  lemma DeliverKeepsHeard(cfg: Config, j: Joint, x: Sid, sid: Sid)
    requires JInv(j) && Heard(j, sid)
    ensures Heard(JApply(cfg, j, Deliver(x)), sid)
  {
    var l := LoopOf(j, x);
    if l.acked != [] {
      var a := l.acked[0];
      assert a in l.acked;
      var k := JApply(cfg, j, Deliver(x));
      forall r | r in LoopOf(k, sid).inbox ensures Waiting(k.host, r.id, r.op) {
        assert r in LoopOf(j, sid).inbox;
        CallsElsewhere(cfg, j.host, Receipt(a), r.id);
      }
    }
  }

  /** In particular a run without a timeout, cancel or end of run in this session never loses. */
  lemma {:induction false} UndisturbedNeverLoses(cfg: Config, ev: seq<JStep>, sid: Sid)
    requires forall n :: 0 <= n < |ev| ==> !Disturbs(JAfter(cfg, ev[..n]), ev[n], sid)
    ensures NeverLoses(cfg, ev, sid) && Heard(JAfter(cfg, ev), sid)
  {
    if ev != [] {
      var before, s := ev[..|ev| - 1], ev[|ev| - 1];
      forall n | 0 <= n < |before| ensures !Disturbs(JAfter(cfg, before[..n]), before[n], sid) {
        assert before[..n] == ev[..n];
      }
      UndisturbedNeverLoses(cfg, before, sid);
      AnswersReachTheirCallers(cfg, before);
      match s
      case Host(e) => HostKeepsHeard(cfg, JAfter(cfg, before), e, sid);
      case Serve(x, works) =>
        assert LoopOf(JAfter(cfg, before), sid).inbox != [] ==>
                 LoopOf(JAfter(cfg, before), sid).inbox[0] in LoopOf(JAfter(cfg, before), sid).inbox;
      case Deliver(x) => DeliverKeepsHeard(cfg, JAfter(cfg, before), x, sid);
    }
  }

  /** Delivering an answer ends the wait of its caller: a positive pause goes on to write its row, a
      positive resume is done and hands its permit over, a negative pause is over, and a negative
      resume gives its permit back and arms the timer. */
  lemma DeliverEndsWait(cfg: Config, j: Joint, sid: Sid)
    requires JInv(j) && LoopOf(j, sid).acked != []
    ensures var a := LoopOf(j, sid).acked[0];
            var h, t := j.host, JApply(cfg, j, Deliver(sid)).host;
            && a.id in h.calls && h.calls[a.id] == (if a.op == Pause then PauseAck(sid) else ResumeAck(sid))
            && (a.op == Pause && a.ok ==> t.calls == h.calls[a.id := PauseWrite(sid)] && sid in t.paused)
            && (a.op == Pause && !a.ok ==> t == h.(calls := h.calls - {a.id}))
            && (a.op == Resume && a.ok ==> t.calls == h.calls - {a.id} && t.free == h.free && sid !in t.paused)
            && (a.op == Resume && !a.ok ==>
                  t == h.(calls := h.calls - {a.id}, free := h.free + 1, timers := h.timers + {sid}))
            && LoopOf(JApply(cfg, j, Deliver(sid)), sid).acked == LoopOf(j, sid).acked[1..]
  {
    assert LoopOf(j, sid).acked[0] in LoopOf(j, sid).acked;
    assert AckRouted(j.host, sid, LoopOf(j, sid).acked[0]);
  }

  /** Serving takes the oldest request and no other, and queues its answer behind those on their way if the
      caller still waits; the host is not touched, nor is any other loop. */
  lemma ServeTakesOldest(cfg: Config, j: Joint, sid: Sid, works: bool)
    requires LoopOf(j, sid).inbox != []
    ensures var k := JApply(cfg, j, Serve(sid, works));
            var l, m := LoopOf(j, sid), LoopOf(k, sid);
            && l.inbox == [l.inbox[0]] + m.inbox && k.host == j.host
            && m.acked == l.acked + (if Waiting(j.host, l.inbox[0].id, l.inbox[0].op)
                                     then [Ack(l.inbox[0].id, l.inbox[0].op, m.paused != l.paused)] else [])
            && forall x :: x != sid ==> LoopOf(k, x) == LoopOf(j, x)
  {
  }

  /** A request reaches the loop exactly when it is sent, at the end of the inbox. */
  lemma SendReachesLoop(cfg: Config, j: Joint, id: CallId, sid: Sid)
    requires id in j.host.calls
    ensures j.host.calls[id] == PauseAnchor(sid) ==>
              LoopOf(JApply(cfg, j, Host(PauseSend(id))), sid).inbox == LoopOf(j, sid).inbox + [Req(id, Pause)]
    ensures j.host.calls[id] == ResumeSlot(sid) && j.host.free > 0 ==>
              LoopOf(JApply(cfg, j, Host(ResumeAcquire(id))), sid).inbox == LoopOf(j, sid).inbox + [Req(id, Resume)]
  {
  }

  // ---------------------------------------------------------------- exact tallies

  /** A positive pause answer never meets a session that the host already counts as paused, and if
      the host counts it as paused at the end the runner is paused. */
  predicate Fits(counted: bool, acks: seq<Ack>, runner: bool)
    decreases acks
  {
    if acks == [] then counted ==> runner
    else if !acks[0].ok then Fits(counted, acks[1..], runner)
    else if acks[0].op == Pause then !counted && Fits(true, acks[1..], runner)
    else Fits(false, acks[1..], runner)
  }

  lemma FitsLoosen(counted: bool, acks: seq<Ack>, runner: bool)
    requires Fits(true, acks, runner)
    ensures Fits(counted, acks, runner)
    decreases acks
  {
  }

  lemma FitsDrop(counted: bool, acks: seq<Ack>, runner: bool, id: CallId)
    requires Fits(counted, acks, runner)
    requires forall a <- acks :: a.id == id ==> a.op == Pause
    ensures Fits(counted, Drop(acks, id), runner)
    decreases acks
  {
    if acks != [] {
      assert acks[0] in acks;
      if acks[0].id == id {
        if acks[0].ok {
          FitsLoosen(counted, acks[1..], runner);
        }
      } else {
        var counted' := if acks[0].ok then acks[0].op == Pause else counted;
        FitsDrop(counted', acks[1..], runner, id);
        assert Drop(acks, id)[1..] == Drop(acks[1..], id);
      }
    }
  }

  lemma FitsThen(counted: bool, acks: seq<Ack>, runner: bool, a: Ack, runner': bool)
    requires Fits(counted, acks, runner)
    requires if a.ok then runner == (a.op == Resume) && runner' == !runner else runner' == runner
    ensures Fits(counted, acks + [a], runner')
    decreases acks
  {
    if acks != [] {
      assert (acks + [a])[1..] == acks[1..] + [a];
    }
  }

  lemma FitsPausedRunner(counted: bool, acks: seq<Ack>, runner: bool)
    requires Fits(counted, acks, runner)
    ensures Fits(counted, acks, true)
    decreases acks
  {
  }

  predicate Counted(j: Joint, sid: Sid) {
    && (forall r <- LoopOf(j, sid).inbox :: r.op == Resume ==> Waiting(j.host, r.id, r.op))
    && Fits(sid in j.host.paused, LoopOf(j, sid).acked, LoopOf(j, sid).paused)
  }

  lemma HostKeepsCounted(cfg: Config, j: Joint, e: Step, sid: Sid)
    requires JInv(j) && Counted(j, sid) && !(e.ResumeFail? && GivesUp(j, e, sid))
    ensures Counted(JApply(cfg, j, Host(e)), sid)
  {
    if !(e.PauseOk? || e.ResumeOk?) {
      var k := JApply(cfg, j, Host(e));
      var l, l' := LoopOf(j, sid), LoopOf(k, sid);
      forall r | r in l'.inbox && r.op == Resume ensures Waiting(k.host, r.id, r.op) {
        if r in l.inbox {
          CallStays(cfg, j.host, e, r.id);
        }
      }
      if e == Cancel(sid) || e == RunFinish(sid) {
        if sid in j.host.paused {
          FitsLoosen(false, l.acked, l.paused);
        }
        assert l' == l;
      } else {
        PausedElsewhereJ(cfg, j.host, e, sid);
        if e.PauseAbort? && e.id in j.host.calls && j.host.calls[e.id] == PauseAck(sid) {
          assert forall a <- l.acked :: AckRouted(j.host, sid, a);
          FitsDrop(sid in j.host.paused, l.acked, l.paused, e.id);
        }
      }
    }
  }

  lemma ServeKeepsCounted(cfg: Config, j: Joint, x: Sid, works: bool, sid: Sid)
    requires JInv(j) && Counted(j, sid)
    ensures Counted(JApply(cfg, j, Serve(x, works)), sid)
  {
    var l := LoopOf(j, sid);
    if x == sid && l.inbox != [] {
      var r := l.inbox[0];
      assert r in l.inbox;
      var (ok, flag) := Answer(l, works);
      if Waiting(j.host, r.id, r.op) {
        FitsThen(sid in j.host.paused, l.acked, l.paused, Ack(r.id, r.op, ok), flag);
      } else {
        FitsPausedRunner(sid in j.host.paused, l.acked, l.paused);
      }
    }
  }

  lemma DeliverKeepsCounted(cfg: Config, j: Joint, x: Sid, sid: Sid)
    requires JInv(j) && Counted(j, sid)
    ensures Counted(JApply(cfg, j, Deliver(x)), sid)
  {
    var l := LoopOf(j, x);
    if l.acked != [] {
      var a := l.acked[0];
      assert a in l.acked;
      var k := JApply(cfg, j, Deliver(x));
      forall r | r in LoopOf(k, sid).inbox && r.op == Resume ensures Waiting(k.host, r.id, r.op) {
        assert r in LoopOf(j, sid).inbox;
        CallsElsewhere(cfg, j.host, Receipt(a), r.id);
      }
    }
  }

  /** The step is a resume call of this session that stops waiting for its answer. */
  predicate ResumeLost(j: Joint, s: JStep, sid: Sid) {
    s.Host? && s.e.ResumeFail? && GivesUp(j, s.e, sid)
  }

  predicate ResumesWait(cfg: Config, ev: seq<JStep>, sid: Sid) {
    ev == []
    || (!ResumeLost(JAfter(cfg, ev[..|ev| - 1]), ev[|ev| - 1], sid) && ResumesWait(cfg, ev[..|ev| - 1], sid))
  }

  /** If no resume call of the session stops waiting, no positive pause answer on its way meets a session
      that is already counted. */
  lemma {:induction false} NoRedundantPause(cfg: Config, ev: seq<JStep>, sid: Sid)
    requires ResumesWait(cfg, ev, sid)
    ensures Counted(JAfter(cfg, ev), sid)
  {
    if ev != [] {
      var before := ev[..|ev| - 1];
      NoRedundantPause(cfg, before, sid);
      AnswersReachTheirCallers(cfg, before);
      match ev[|ev| - 1]
      case Host(e) => HostKeepsCounted(cfg, JAfter(cfg, before), e, sid);
      case Serve(x, works) => ServeKeepsCounted(cfg, JAfter(cfg, before), x, works, sid);
      case Deliver(x) => DeliverKeepsCounted(cfg, JAfter(cfg, before), x, sid);
    }
  }

  predicate HasKey(h: State, sid: Sid, k: Key) {
    sid in h.apiKey && h.apiKey[sid] == k
  }

  /** No resume call of a session of this key stops waiting for its answer. */
  predicate KeyResumesWait(cfg: Config, ev: seq<JStep>, k: Key) {
    ev == []
    || (var j, s := JAfter(cfg, ev[..|ev| - 1]), ev[|ev| - 1];
        && (s.Host? && s.e.ResumeFail? && s.e.id in j.host.calls ==> !HasKey(j.host, j.host.calls[s.e.id].sid, k))
        && KeyResumesWait(cfg, ev[..|ev| - 1], k))
  }

  /** A session keeps its key from its submission on, and a run does not forget a session. */
  lemma StepKey(cfg: Config, j: Joint, s: JStep, sid: Sid, k: Key)
    requires JInv(j)
    ensures var h := JApply(cfg, j, s).host;
            && (sid in j.host.runs ==> sid in h.runs)
            && (sid in j.host.runs && HasKey(h, sid, k) ==> HasKey(j.host, sid, k))
  {
    if s.Host? && !(s.e.PauseOk? || s.e.ResumeOk?) && sid in j.host.runs {
      StepKeyHost(cfg, j.host, s.e, sid);
    } else if s.Deliver? && LoopOf(j, s.sid).acked != [] && sid in j.host.runs {
      StepKeyHost(cfg, j.host, Receipt(LoopOf(j, s.sid).acked[0]), sid);
    }
  }

  lemma StepKeyHost(cfg: Config, h: State, e: Step, sid: Sid)
    requires sid in h.runs
    ensures sid in Apply(cfg, h, e).runs
    ensures sid in Apply(cfg, h, e).apiKey ==> HasKey(h, sid, Apply(cfg, h, e).apiKey[sid])
  {
    if sid in Apply(cfg, h, e).apiKey {
      KeysOnlyShrink(cfg, h, e, sid);
    }
  }

  /** A session that was not submitted yet has lost no resume. */
  lemma {:induction false} NotYetLost(cfg: Config, ev: seq<JStep>, sid: Sid)
    ensures sid !in JAfter(cfg, ev).host.runs ==> ResumesWait(cfg, ev, sid)
  {
    if ev != [] {
      var before := ev[..|ev| - 1];
      AnswersReachTheirCallers(cfg, before);
      StepKey(cfg, JAfter(cfg, before), ev[|ev| - 1], sid, "");
      NotYetLost(cfg, before, sid);
    }
  }

  /** What a key promises holds for each of its sessions. */
  lemma {:induction false} KeySessionWaits(cfg: Config, ev: seq<JStep>, k: Key, sid: Sid)
    ensures KeyResumesWait(cfg, ev, k) && HasKey(JAfter(cfg, ev).host, sid, k) ==> ResumesWait(cfg, ev, sid)
  {
    if ev != [] {
      var before := ev[..|ev| - 1];
      AnswersReachTheirCallers(cfg, before);
      StepKey(cfg, JAfter(cfg, before), ev[|ev| - 1], sid, k);
      KeySessionWaits(cfg, before, k, sid);
      NotYetLost(cfg, before, sid);
    }
  }

  /** If no resume call of a session of the key stops waiting for its answer, the tally of the key is
      exactly the number of its paused sessions: through cancels, watchdogs, run ends, lost pauses and
      refusals, and whatever happens to other keys. */
  lemma {:induction false} ExactTallies(cfg: Config, ev: seq<JStep>, k: Key)
    requires KeyResumesWait(cfg, ev, k)
    ensures Tally(JAfter(cfg, ev).host.byKey, k) == |PausedWith(JAfter(cfg, ev).host, k)|
  {
    if ev == [] {
      assert PausedWith(JAfter(cfg, ev).host, k) == {};
    } else {
      var before, s := ev[..|ev| - 1], ev[|ev| - 1];
      ExactTallies(cfg, before, k);
      AnswersReachTheirCallers(cfg, before);
      if s.Deliver? && HasKey(JAfter(cfg, before).host, s.sid, k) {
        KeySessionWaits(cfg, before, k, s.sid);
        NoRedundantPause(cfg, before, s.sid);
      }
      TallyStep(cfg, JAfter(cfg, before), s, k);
    }
  }

  lemma TallyStep(cfg: Config, j: Joint, s: JStep, k: Key)
    requires JInv(j) && (s.Deliver? && HasKey(j.host, s.sid, k) ==> Counted(j, s.sid))
    requires Tally(j.host.byKey, k) == |PausedWith(j.host, k)|
    ensures Tally(JApply(cfg, j, s).host.byKey, k) == |PausedWith(JApply(cfg, j, s).host, k)|
  {
    if s.Host? {
      StepAccount(cfg, j.host, s.e, k);
    } else if s.Deliver? && LoopOf(j, s.sid).acked != [] {
      var a := LoopOf(j, s.sid).acked[0];
      assert AckRouted(j.host, s.sid, a);
      StepAccount(cfg, j.host, Receipt(a), k);
    }
  }

  // ---------------------------------------------------------------- the lost pause

  /** The runner is paused, the host does not know it, and no resume is on its way. */
  predicate Wedged(j: Joint, sid: Sid) {
    && LoopOf(j, sid).paused && sid !in j.host.paused
    && (forall r <- LoopOf(j, sid).inbox :: r.op == Pause)
    && (forall a <- LoopOf(j, sid).acked :: a.op == Pause && !a.ok)
    && (forall id <- j.host.calls :: j.host.calls[id].sid == sid ==>
          j.host.calls[id].PauseAnchor? || j.host.calls[id].PauseAck? || j.host.calls[id].PauseWrite?)
  }

  lemma WedgedHostStep(cfg: Config, j: Joint, e: Step, sid: Sid)
    requires JInv(j) && Wedged(j, sid)
    ensures Wedged(JApply(cfg, j, Host(e)), sid)
  {
    if !(e.PauseOk? || e.ResumeOk?) {
      var k := JApply(cfg, j, Host(e));
      assert sid !in k.host.paused;
      assert LoopOf(k, sid).paused == LoopOf(j, sid).paused;
      forall r | r in LoopOf(k, sid).inbox ensures r.op == Pause {
      }
      forall a | a in LoopOf(k, sid).acked ensures a.op == Pause && !a.ok {
        assert a in LoopOf(j, sid).acked;
      }
    }
  }

  lemma WedgedReceipt(cfg: Config, h: State, a: Ack, sid: Sid)
    requires Inv(h) && Waiting(h, a.id, a.op) && sid !in h.paused
    requires h.calls[a.id].sid == sid ==> a.op == Pause && !a.ok
    ensures var t := Apply(cfg, h, Receipt(a));
            && sid !in t.paused
            && forall id <- t.calls :: t.calls[id].sid == sid ==> id in h.calls && t.calls[id] == h.calls[id]
  {
  }

  /** Nothing frees a wedged session: every later pause is refused and every resume is turned away. A
      loop that is torn down with its run simply serves no more, so the end of the run is one of the
      steps covered. */
  lemma WedgedStays(cfg: Config, j: Joint, s: JStep, sid: Sid)
    requires JInv(j) && Wedged(j, sid)
    ensures Wedged(JApply(cfg, j, s), sid)
  {
    match s {
      case Host(e) => WedgedHostStep(cfg, j, e, sid);
      case Serve(x, works) =>
        if x == sid && LoopOf(j, sid).inbox != [] {
          assert LoopOf(j, sid).inbox[0] in LoopOf(j, sid).inbox;
        }
      case Deliver(x) =>
        var l := LoopOf(j, x);
        if l.acked != [] {
          assert l.acked[0] in l.acked;
          WedgedReceipt(cfg, j.host, l.acked[0], sid);
        }
    }
  }

  /** Once wedged, a session is wedged at the end of every longer run. */
  lemma {:induction false} WedgedForever(cfg: Config, ev: seq<JStep>, n: nat, sid: Sid)
    requires n <= |ev| && Wedged(JAfter(cfg, ev[..n]), sid)
    ensures Wedged(JAfter(cfg, ev), sid)
  {
    if n == |ev| {
      assert ev[..n] == ev;
    } else {
      var before := ev[..|ev| - 1];
      assert before[..n] == ev[..n];
      WedgedForever(cfg, before, n, sid);
      AnswersReachTheirCallers(cfg, before);
      WedgedStays(cfg, JAfter(cfg, before), ev[|ev| - 1], sid);
    }
  }

  /** A pause whose answer comes after the host stopped waiting wedges the session. */
  lemma LostPauseWedges(cfg: Config, j: Joint, id: CallId, sid: Sid)
    requires JInv(j) && id in j.host.calls && j.host.calls[id] == PauseAck(sid)
    requires LoopOf(j, sid) == Loop([Req(id, Pause)], false, []) && sid !in j.host.paused
    requires forall x <- j.host.calls :: x != id ==> j.host.calls[x].sid != sid
    ensures Wedged(JApply(cfg, JApply(cfg, j, Host(PauseAbort(id))), Serve(sid, true)), sid)
  {
    var k := JApply(cfg, j, Host(PauseAbort(id)));
    assert LoopOf(k, sid) == Loop([Req(id, Pause)], false, []);
    assert id !in k.host.calls;
  }

  // ---------------------------------------------------------------- the lost resume

  /** The runner carries out a resume whose caller has stopped waiting: the host still counts the
      session as paused and the runner is not. */
  lemma LostResume(cfg: Config, j: Joint, r: CallId, sid: Sid)
    requires JInv(j) && sid in j.host.paused
    requires r in j.host.calls && j.host.calls[r] == ResumeAck(sid)
    requires LoopOf(j, sid) == Loop([Req(r, Resume)], true, [])
    ensures var k := JApply(cfg, JApply(cfg, j, Host(ResumeFail(r))), Serve(sid, true));
            && k.host == Apply(cfg, j.host, ResumeFail(r))
            && LoopOf(k, sid) == Loop([], false, [])
  {
    var k := JApply(cfg, j, Host(ResumeFail(r)));
    assert LoopOf(k, sid) == Loop([Req(r, Resume)], true, []);
    assert r !in k.host.calls;
  }

  /** After that, a pause that was already under way is counted a second time: the paused set stays
      the same and the tally of the key grows. */
  lemma LostResumeCountsTwice(cfg: Config, j: Joint, p: CallId, sid: Sid)
    requires JInv(j) && sid in j.host.paused && sid in j.host.apiKey
    requires p in j.host.calls && j.host.calls[p] == PauseAnchor(sid)
    requires LoopOf(j, sid) == Loop([], false, [])
    ensures var k := JApply(cfg, JApply(cfg, JApply(cfg, j, Host(PauseSend(p))), Serve(sid, true)), Deliver(sid));
            && k.host.paused == j.host.paused
            && Tally(k.host.byKey, j.host.apiKey[sid]) == Tally(j.host.byKey, j.host.apiKey[sid]) + 1
  {
    var j1 := JApply(cfg, j, Host(PauseSend(p)));
    assert LoopOf(j1, sid) == Loop([Req(p, Pause)], false, []);
    var j2 := JApply(cfg, j1, Serve(sid, true));
    assert LoopOf(j2, sid) == Loop([], true, [Ack(p, Pause, true)]);
  }

  // ---------------------------------------------------------------- both happen

  lemma JAfterThen(cfg: Config, ev: seq<JStep>, s: JStep)
    ensures JAfter(cfg, ev + [s]) == JApply(cfg, JAfter(cfg, ev), s)
  {
    assert (ev + [s])[..|ev|] == ev;
  }

  /** One session started on an idle manager. */
  function Opening(sid: Sid, k: Key): seq<JStep> {
    [] + [Host(Submit(sid, Some(k)))] + [Host(RunAcquire(sid))] + [Host(BridgeUp(sid))]
  }

  predicate Roomy(cfg: Config) {
    cfg.maxConcurrent >= 1 && cfg.maxPaused >= 1 && cfg.maxPausedPerKey >= 1
  }

  lemma Opened(cfg: Config, sid: Sid, k: Key)
    requires Roomy(cfg)
    ensures JAfter(cfg, Opening(sid, k))
         == Joint(State(cfg.maxConcurrent - 1, map[sid := Running], {sid}, map[sid := k], {}, {}, map[], {}, map[], 0),
                  map[])
  {
    var e1 := [] + [Host(Submit(sid, Some(k)))];
    var e2 := e1 + [Host(RunAcquire(sid))];
    JAfterThen(cfg, [], Host(Submit(sid, Some(k))));
    JAfterThen(cfg, e1, Host(RunAcquire(sid)));
    JAfterThen(cfg, e2, Host(BridgeUp(sid)));
  }

  function LostPauseRun(sid: Sid, k: Key): seq<JStep> {
    Opening(sid, k) + [Host(PauseCall(sid))] + [Host(PauseSend(0))] + [Host(PauseAbort(0))] + [Serve(sid, true)]
  }

  /** A run of seven steps wedges its session, for good. */
  lemma LostPauseHappens(cfg: Config, sid: Sid, k: Key, more: seq<JStep>)
    requires Roomy(cfg)
    ensures Wedged(JAfter(cfg, LostPauseRun(sid, k) + more), sid)
  {
    var e3 := Opening(sid, k);
    var e4 := e3 + [Host(PauseCall(sid))];
    var e5 := e4 + [Host(PauseSend(0))];
    var e6 := e5 + [Host(PauseAbort(0))];
    Opened(cfg, sid, k);
    JAfterThen(cfg, e3, Host(PauseCall(sid)));
    JAfterThen(cfg, e4, Host(PauseSend(0)));
    AnswersReachTheirCallers(cfg, e5);
    assert JAfter(cfg, e5).host.calls == map[0 := PauseAck(sid)];
    LostPauseWedges(cfg, JAfter(cfg, e5), 0, sid);
    JAfterThen(cfg, e5, Host(PauseAbort(0)));
    JAfterThen(cfg, e6, Serve(sid, true));
    var all := LostPauseRun(sid, k) + more;
    assert all[..|LostPauseRun(sid, k)|] == LostPauseRun(sid, k);
    WedgedForever(cfg, all, |LostPauseRun(sid, k)|, sid);
  }

  ghost predicate Reachable(cfg: Config, j: Joint) {
    exists ev :: JAfter(cfg, ev) == j
  }

  lemma ReachableStep(cfg: Config, j: Joint, s: JStep)
    requires Reachable(cfg, j)
    ensures Reachable(cfg, JApply(cfg, j, s)) && JInv(j)
  {
    var ev :| JAfter(cfg, ev) == j;
    JAfterThen(cfg, ev, s);
    AnswersReachTheirCallers(cfg, ev);
    assert JAfter(cfg, ev + [s]) == JApply(cfg, j, s);
  }

  /** A reachable state in which the session is the only one, with the given calls and loop, paused
      and tallied once or not at all. */
  ghost predicate At(cfg: Config, j: Joint, sid: Sid, k: Key, paused: bool, calls: map<CallId, Call>, l: Loop) {
    && Reachable(cfg, j)
    && j.host.bridges == {sid} && j.host.apiKey == map[sid := k]
    && j.host.paused == j.host.holds == (if paused then {sid} else {})
    && j.host.byKey == (if paused then map[k := 1] else map[])
    && j.host.calls == calls && LoopOf(j, sid) == l
  }

  lemma AtPauseCall(cfg: Config, j: Joint, sid: Sid, k: Key, calls: map<CallId, Call>, l: Loop)
    requires Roomy(cfg) && At(cfg, j, sid, k, false, calls, l)
    ensures var t := JApply(cfg, j, Host(PauseCall(sid)));
            At(cfg, t, sid, k, false, calls[j.host.nextCall := PauseAnchor(sid)], l)
                && t.host.nextCall == j.host.nextCall + 1
  {
    ReachableStep(cfg, j, Host(PauseCall(sid)));
    assert Verdict(cfg, j.host, sid) == Proceed;
  }

  lemma AtPauseSend(cfg: Config, j: Joint, sid: Sid, k: Key, paused: bool, calls: map<CallId, Call>, l: Loop,
      id: CallId)
    requires At(cfg, j, sid, k, paused, calls, l) && id in calls && calls[id] == PauseAnchor(sid)
    ensures var t := JApply(cfg, j, Host(PauseSend(id)));
            && At(cfg, t, sid, k, paused, calls[id := PauseAck(sid)], l.(inbox := l.inbox + [Req(id, Pause)]))
            && t.host.nextCall == j.host.nextCall
  {
    ReachableStep(cfg, j, Host(PauseSend(id)));
  }

  lemma AtServe(cfg: Config, j: Joint, sid: Sid, k: Key, paused: bool, calls: map<CallId, Call>, r: Req, flag: bool)
    requires At(cfg, j, sid, k, paused, calls, Loop([r], flag, [])) && flag == (r.op == Resume)
    ensures var t := JApply(cfg, j, Serve(sid, true));
            && At(cfg, t, sid, k, paused, calls,
                Loop([], !flag, if Waiting(j.host, r.id, r.op) then [Ack(r.id, r.op, true)] else []))
            && t.host == j.host
  {
    ReachableStep(cfg, j, Serve(sid, true));
  }

  lemma AtPauseDelivered(cfg: Config, j: Joint, sid: Sid, k: Key, calls: map<CallId, Call>, id: CallId)
    requires At(cfg, j, sid, k, false, calls, Loop([], true, [Ack(id, Pause, true)]))
    requires id in calls && calls[id] == PauseAck(sid)
    ensures var t := JApply(cfg, j, Deliver(sid));
            && At(cfg, t, sid, k, true, calls[id := PauseWrite(sid)], Loop([], true, []))
            && t.host.nextCall == j.host.nextCall && t.host.free == j.host.free + 1
  {
    ReachableStep(cfg, j, Deliver(sid));
  }

  lemma AtResumeCall(cfg: Config, j: Joint, sid: Sid, k: Key, calls: map<CallId, Call>, l: Loop)
    requires At(cfg, j, sid, k, true, calls, l)
    ensures var id := j.host.nextCall;
            var t := JApply(cfg, JApply(cfg, j, Host(ResumeCall(sid))), Host(ResumeQueue(id)));
            At(cfg, t, sid, k, true, calls[id := ResumeSlot(sid)], l) && t.host.free == j.host.free
  {
    var id := j.host.nextCall;
    ReachableStep(cfg, j, Host(ResumeCall(sid)));
    var called := JApply(cfg, j, Host(ResumeCall(sid)));
    assert called.host.calls == calls[id := ResumeAnchor(sid)] && called.loops == j.loops;
    ReachableStep(cfg, called, Host(ResumeQueue(id)));
    var t := JApply(cfg, called, Host(ResumeQueue(id)));
    assert t.host.calls == calls[id := ResumeSlot(sid)];
  }

  lemma AtResumeAcquire(cfg: Config, j: Joint, sid: Sid, k: Key, calls: map<CallId, Call>, id: CallId)
    requires At(cfg, j, sid, k, true, calls, Loop([], true, [])) && j.host.free >= 1
    requires id in calls && calls[id] == ResumeSlot(sid)
    ensures At(cfg, JApply(cfg, j, Host(ResumeAcquire(id))), sid, k, true, calls[id := ResumeAck(sid)],
               Loop([Req(id, Resume)], true, []))
  {
    ReachableStep(cfg, j, Host(ResumeAcquire(id)));
    assert [] + [Req(id, Resume)] == [Req(id, Resume)];
  }

  lemma AtLostResume(cfg: Config, j: Joint, sid: Sid, k: Key, calls: map<CallId, Call>, id: CallId)
    requires At(cfg, j, sid, k, true, calls, Loop([Req(id, Resume)], true, []))
    requires id in calls && calls[id] == ResumeAck(sid)
    ensures At(cfg, JApply(cfg, JApply(cfg, j, Host(ResumeFail(id))), Serve(sid, true)), sid, k, true, calls - {id},
               Loop([], false, []))
  {
    var failed := JApply(cfg, j, Host(ResumeFail(id)));
    ReachableStep(cfg, j, Host(ResumeFail(id)));
    ReachableStep(cfg, failed, Serve(sid, true));
    LostResume(cfg, j, id, sid);
  }

  /** Two pauses pass the check, and the first succeeds. */
  lemma OneOfTwoPauses(cfg: Config, sid: Sid, k: Key) returns (j: Joint)
    requires Roomy(cfg)
    ensures At(cfg, j, sid, k, true, map[0 := PauseWrite(sid), 1 := PauseAnchor(sid)], Loop([], true, []))
    ensures j.host.nextCall == 2 && j.host.free >= 1
  {
    Opened(cfg, sid, k);
    j := JAfter(cfg, Opening(sid, k));
    AtPauseCall(cfg, j, sid, k, map[], Loop([], false, []));
    j := JApply(cfg, j, Host(PauseCall(sid)));
    AtPauseCall(cfg, j, sid, k, map[0 := PauseAnchor(sid)], Loop([], false, []));
    j := JApply(cfg, j, Host(PauseCall(sid)));
    var calls := map[0 := PauseAnchor(sid), 1 := PauseAnchor(sid)];
    assert j.host.calls == calls;
    AtPauseSend(cfg, j, sid, k, false, calls, Loop([], false, []), 0);
    j := JApply(cfg, j, Host(PauseSend(0)));
    assert [] + [Req(0, Pause)] == [Req(0, Pause)];
    AtServe(cfg, j, sid, k, false, calls[0 := PauseAck(sid)], Req(0, Pause), false);
    j := JApply(cfg, j, Serve(sid, true));
    AtPauseDelivered(cfg, j, sid, k, calls[0 := PauseAck(sid)], 0);
    j := JApply(cfg, j, Deliver(sid));
    assert j.host.calls == map[0 := PauseWrite(sid), 1 := PauseAnchor(sid)];
  }

  /** A resume gets its permit and is sent, its caller gives up, and the runner carries it out. */
  lemma ResumeIsLost(cfg: Config, j0: Joint, sid: Sid, k: Key, calls: map<CallId, Call>) returns (j: Joint)
    requires At(cfg, j0, sid, k, true, calls, Loop([], true, [])) && j0.host.free >= 1 && j0.host.nextCall !in calls
    ensures At(cfg, j, sid, k, true, calls, Loop([], false, []))
  {
    var id := j0.host.nextCall;
    AtResumeCall(cfg, j0, sid, k, calls, Loop([], true, []));
    j := JApply(cfg, JApply(cfg, j0, Host(ResumeCall(sid))), Host(ResumeQueue(id)));
    AtResumeAcquire(cfg, j, sid, k, calls[id := ResumeSlot(sid)], id);
    j := JApply(cfg, j, Host(ResumeAcquire(id)));
    var c := calls[id := ResumeSlot(sid)][id := ResumeAck(sid)];
    assert c - {id} == calls;
    AtLostResume(cfg, j, sid, k, c, id);
    j := JApply(cfg, JApply(cfg, j, Host(ResumeFail(id))), Serve(sid, true));
  }

  /** So the condition of `ExactTallies` cannot be dropped: a run with one lost resume reaches a state
      where the tally of a key is two for one paused session. */
  lemma DoubleCountHappens(cfg: Config, sid: Sid, k: Key) returns (j: Joint)
    requires Roomy(cfg)
    ensures Reachable(cfg, j) && j.host.paused == {sid} && Tally(j.host.byKey, k) == 2
  {
    j := OneOfTwoPauses(cfg, sid, k);
    var calls := map[0 := PauseWrite(sid), 1 := PauseAnchor(sid)];
    j := ResumeIsLost(cfg, j, sid, k, calls);
    var sent := JApply(cfg, j, Host(PauseSend(1)));
    var served := JApply(cfg, sent, Serve(sid, true));
    ReachableStep(cfg, j, Host(PauseSend(1)));
    ReachableStep(cfg, sent, Serve(sid, true));
    ReachableStep(cfg, served, Deliver(sid));
    LostResumeCountsTwice(cfg, j, 1, sid);
    j := JApply(cfg, served, Deliver(sid));
  }
}
