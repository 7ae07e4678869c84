/** The request/ack protocol between ControlChannel (host side) and ControlLoop (runner side). */
module ControlProtocol {
  import opened Basics

  datatype Op = Pause | Resume

  /** `f"{op}-{n}"` for ids the channel hands out; the fixed mark of a closed channel; and ids that
      arrive from the other side of a wire. */
  datatype ReqId = Issued(op: Op, n: nat) | ClosedMark | Foreign(name: string)

  datatype Error = AlreadyPaused | NotPaused | SdkFailure | ChannelClosed | AckTimeout

  datatype Msg = Msg(op: Op, id: ReqId)
  datatype Ack = Ack(op: Op, id: ReqId, ok: bool, error: Option<Error>)
  datatype Fut = Waiting | Done(ack: Ack)

  datatype Channel = Channel(inbox: seq<Msg>, futs: map<ReqId, Fut>, counter: nat, closed: bool)

  /** `runner_ack` and `host_inject_ack`: wake the caller that waits for this id, if any. */
  function Resolve(c: Channel, a: Ack): Channel {
    if a.id in c.futs && c.futs[a.id].Waiting? then c.(futs := c.futs[a.id := Done(a)]) else c
  }

  function ClosedAck(id: ReqId): Ack {
    Ack(Pause, id, false, Some(ChannelClosed))
  }

  function CloseChannel(c: Channel): Channel {
    if c.closed then c
    else c.(closed := true,
            futs := map id | id in c.futs :: if c.futs[id].Waiting? then Done(ClosedAck(id)) else c.futs[id])
  }

  // ---------------------------------------------------------------- the objects

  class ControlChannel {
    var inbox: seq<Msg>
    var ackFuts: map<ReqId, Fut>
    var counter: nat
    var closed: bool

    function View(): Channel
      reads this
    {
      Channel(inbox, ackFuts, counter, closed)
    }

    constructor ()
      ensures View() == Channel([], map[], 0, false)
    {
      inbox, ackFuts, counter, closed := [], map[], 0, false;
    }

    /** The stretch of `host_request` up to the wait: a refusal, or the id of the new request. */
    method HostRequest(op: Op) returns (refused: Option<Ack>, id: ReqId)
      modifies this
      ensures old(closed) ==> refused == Some(Ack(op, ClosedMark, false, Some(ChannelClosed))) && View() == old(View())
      ensures !old(closed) ==>
        && refused == None && id == Issued(op, old(counter) + 1)
        && View() == Channel(old(inbox) + [Msg(op, id)], old(ackFuts)[id := Waiting], old(counter) + 1, false)
    {
      id := ClosedMark;
      if closed {
        return Some(Ack(op, ClosedMark, false, Some(ChannelClosed))), id;
      }
      counter := counter + 1;
      id := Issued(op, counter);
      ackFuts := ackFuts[id := Waiting];
      inbox := inbox + [Msg(op, id)];
      refused := None;
    }

    /** The end of `host_request`: the answer, or the timeout ack; the future is dropped. */
    method HostReturn(op: Op, id: ReqId, timedOut: bool) returns (a: Ack)
      requires id in ackFuts && (timedOut || ackFuts[id].Done?)
      modifies this`ackFuts
      ensures a == (if timedOut then Ack(op, id, false, Some(AckTimeout)) else old(ackFuts)[id].ack)
      ensures ackFuts == old(ackFuts) - {id}
    {
      a := if timedOut then Ack(op, id, false, Some(AckTimeout)) else ackFuts[id].ack;
      ackFuts := ackFuts - {id};
    }

    method RunnerRecv() returns (m: Msg)
      requires inbox != []
      modifies this`inbox
      ensures old(inbox) == [m] + inbox
    {
      m := inbox[0];
      inbox := inbox[1..];
    }

    method Push(m: Msg)
      modifies this`inbox
      ensures inbox == old(inbox) + [m]
    {
      inbox := inbox + [m];
    }

    /** Wake the caller that waits under the ack's id; nobody else is touched, and an answer that is
        already there stays. */
    method RunnerAck(a: Ack)
      modifies this`ackFuts
      ensures View() == Resolve(old(View()), a)
      ensures ackFuts.Keys == old(ackFuts).Keys
      ensures forall id <- ackFuts ::
                ackFuts[id] == if id == a.id && old(ackFuts)[id].Waiting? then Done(a) else old(ackFuts)[id]
    {
      if a.id in ackFuts && ackFuts[a.id].Waiting? {
        ackFuts := ackFuts[a.id := Done(a)];
      }
    }

    /** Closing answers every waiting caller with a negative pause ack under its own id, and leaves
        answers that are already there and the inbox alone. */
    method Close()
      modifies this`closed, this`ackFuts
      ensures View() == CloseChannel(old(View()))
      ensures closed && ackFuts.Keys == old(ackFuts).Keys
      ensures !old(closed) ==> forall id <- ackFuts ::
                ackFuts[id] == if old(ackFuts)[id].Waiting? then Done(Ack(Pause, id, false, Some(ChannelClosed)))
                               else old(ackFuts)[id]
    {
      if closed {
        return;
      }
      closed := true;
      var todo := ackFuts.Keys;
      while todo != {}
        invariant closed && inbox == old(inbox) && counter == old(counter)
        invariant todo <= old(ackFuts).Keys == ackFuts.Keys
        invariant forall id <- ackFuts ::
          ackFuts[id] == if id !in todo && old(ackFuts)[id].Waiting? then Done(ClosedAck(id)) else old(ackFuts)[id]
        decreases todo
      {
        var id :| id in todo;
        if ackFuts[id].Waiting? {
          ackFuts := ackFuts[id := Done(ClosedAck(id))];
        }
        todo := todo - {id};
      }
    }
  }

  class ControlLoop {
    var paused: bool

    constructor ()
      ensures !paused
    {
      paused := false;
    }

    /** What `_handle_pause` and `_handle_resume` do before they touch the SDK: a request is refused
        exactly when carrying it out would leave the flag as it is. */
    method Screen(m: Msg) returns (refusal: Option<Ack>)
      ensures refusal.Some? <==> paused == (m.op == Pause)
      ensures refusal.Some? ==>
        && Msg(refusal.value.op, refusal.value.id) == m && !refusal.value.ok
        && refusal.value.error == Some(if paused then AlreadyPaused else NotPaused)
    {
      match m.op
      case Pause =>
        return if paused then Some(Ack(Pause, m.id, false, Some(AlreadyPaused))) else None;
      case Resume =>
        return if !paused then Some(Ack(Resume, m.id, false, Some(NotPaused))) else None;
    }

    /** What they do once the SDK call has returned or raised. */
    method Conclude(m: Msg, works: bool) returns (a: Ack)
      requires Refusal(paused, m).None?
      modifies this
      ensures a == Conclusion(m, works)
      ensures Msg(a.op, a.id) == m && a.ok == works && a.error == (if works then None else Some(SdkFailure))
      ensures paused == (if works then m.op == Pause else old(paused))
    {
      if !works {
        return Ack(m.op, m.id, false, Some(SdkFailure));
      }
      paused := m.op == Pause;
      a := Ack(m.op, m.id, true, None);
    }
  }

  function Refusal(paused: bool, m: Msg): Option<Ack> {
    if m.op == Pause && paused then Some(Ack(Pause, m.id, false, Some(AlreadyPaused)))
    else if m.op == Resume && !paused then Some(Ack(Resume, m.id, false, Some(NotPaused)))
    else None
  }

  function Conclusion(m: Msg, works: bool): Ack {
    Ack(m.op, m.id, works, if works then None else Some(SdkFailure))
  }

  // ---------------------------------------------------------------- the protocol

  /** A `host_request` that has returned: what was asked, under which id, and the result. */
  datatype Reply = Reply(op: Op, id: Option<ReqId>, ack: Ack)

  datatype State = State(
    chan: Channel,
    paused: bool,
    busy: Option<Msg>,     // taken from the inbox, SDK call under way
    stopped: bool,         // the loop was cancelled
    injected: seq<Ack>,    // everything that ever arrived through `host_inject_ack`
    pushed: seq<Msg>,      // everything that ever entered the inbox
    acks: seq<Ack>,        // everything the loop ever acked
    replies: seq<Reply>)

  datatype Step =
    | Request(op: Op)
    | Return(id: ReqId)
    | Timeout(id: ReqId)     // also when the answer came too late to be seen
    | Abandon(id: ReqId)     // the caller's task was cancelled
    | PushMsg(m: Msg)
    | InjectAck(a: Ack)
    | Receive
    | Finish(works: bool)
    | Stop
    | Close

  const Start := State(Channel([], map[], 0, false), false, None, false, [], [], [], [])

  function Emit(s: State, a: Ack): State {
    s.(acks := s.acks + [a], chan := Resolve(s.chan, a))
  }

  function Apply(s: State, e: Step): State {
    var c := s.chan;
    match e
    case Request(op) =>
      if c.closed then s.(replies := s.replies + [Reply(op, None, Ack(op, ClosedMark, false, Some(ChannelClosed)))])
      else
        var id := Issued(op, c.counter + 1);
        s.(chan := Channel(c.inbox + [Msg(op, id)], c.futs[id := Waiting], c.counter + 1, false),
           pushed := s.pushed + [Msg(op, id)])
    case Return(id) =>
      if id in c.futs && id.Issued? && c.futs[id].Done?
      then s.(chan := c.(futs := c.futs - {id}), replies := s.replies + [Reply(id.op, Some(id), c.futs[id].ack)])
      else s
    case Timeout(id) =>
      if id in c.futs && id.Issued?
      then s.(chan := c.(futs := c.futs - {id}),
              replies := s.replies + [Reply(id.op, Some(id), Ack(id.op, id, false, Some(AckTimeout)))])
      else s
    case Abandon(id) => s.(chan := c.(futs := c.futs - {id}))
    case PushMsg(m) => s.(chan := c.(inbox := c.inbox + [m]), pushed := s.pushed + [m])
    case InjectAck(a) => s.(chan := Resolve(c, a), injected := s.injected + [a])
    case Receive =>
      if s.stopped || s.busy.Some? || c.inbox == [] then s
      else
        var m := c.inbox[0];
        var t := s.(chan := c.(inbox := c.inbox[1..]));
        if Refusal(s.paused, m).Some? then Emit(t, Refusal(s.paused, m).value) else t.(busy := Some(m))
    case Finish(works) =>
      if s.stopped || s.busy.None? then s
      else Emit(s.(busy := None, paused := if works then s.busy.value.op == Pause else s.paused),
                Conclusion(s.busy.value, works))
    case Stop => s.(stopped := true)
    case Close => s.(chan := CloseChannel(c))
  }

  function After(ev: seq<Step>): State {
    if ev == [] then Start else Apply(After(ev[..|ev| - 1]), ev[|ev| - 1])
  }

  /** The loop receives or finishes: it and the channel end as the protocol says. */
  method TakeLoop(ch: ControlChannel, loop: ControlLoop, busy: Option<Msg>, ghost s: State, e: Step)
    returns (busy': Option<Msg>, acked: Option<Ack>)
    requires ch.View() == s.chan && loop.paused == s.paused && busy == s.busy && !s.stopped
    requires busy.Some? ==> Refusal(loop.paused, busy.value).None?
    requires e.Receive? || e.Finish?
    modifies ch, loop
    ensures var t := Apply(s, e);
            && ch.View() == t.chan && loop.paused == t.paused && busy' == t.busy
            && t.acks == s.acks + (if acked.Some? then [acked.value] else [])
  {
    busy', acked := busy, None;
    if e.Receive? {
      if busy.None? && ch.inbox != [] {
        var m := ch.RunnerRecv();
        assert ch.inbox == s.chan.inbox[1..];
        acked := loop.Screen(m);
        assert acked == Refusal(s.paused, m);
        if acked.Some? {
          ch.RunnerAck(acked.value);
        } else {
          busy' := Some(m);
        }
      }
    } else if busy.Some? {
      var a := loop.Conclude(busy.value, e.works);
      busy', acked := None, Some(a);
      ch.RunnerAck(a);
    }
  }

  /** The host side asks, returns, times out or gives up. */
  method TakeHost(ch: ControlChannel, ghost s: State, e: Step) returns (reply: Option<Ack>)
    requires ch.View() == s.chan && (e.Request? || e.Return? || e.Timeout? || e.Abandon?)
    modifies ch
    ensures var t := Apply(s, e);
            && ch.View() == t.chan && t.acks == s.acks && t.paused == s.paused && t.busy == s.busy
                && t.stopped == s.stopped
            && (if reply.Some? then |t.replies| == |s.replies| + 1 && t.replies[|s.replies|].ack == reply.value
                else t.replies == s.replies)
  {
    reply := None;
    match e {
      case Request(op) =>
        var refused, _ := ch.HostRequest(op);
        reply := refused;
      case Return(id) =>
        if id in ch.ackFuts && id.Issued? && ch.ackFuts[id].Done? {
          var a := ch.HostReturn(id.op, id, false);
          reply := Some(a);
        }
      case Timeout(id) =>
        if id in ch.ackFuts && id.Issued? {
          var a := ch.HostReturn(id.op, id, true);
          reply := Some(a);
        }
      case Abandon(id) =>
        ch.ackFuts := ch.ackFuts - {id};
    }
  }

  /** The objects take any step of the protocol: channel and loop end as the protocol says, and the
      replies and acks they produce are the ones it logs. */
  method Take(ch: ControlChannel, loop: ControlLoop, busy: Option<Msg>, stopped: bool, ghost s: State, e: Step)
    returns (busy': Option<Msg>, stopped': bool, reply: Option<Ack>, acked: Option<Ack>)
    requires ch.View() == s.chan && loop.paused == s.paused && busy == s.busy && stopped == s.stopped
    requires busy.Some? ==> Refusal(loop.paused, busy.value).None?
    modifies ch, loop
    ensures var t := Apply(s, e);
            && ch.View() == t.chan && loop.paused == t.paused && busy' == t.busy && stopped' == t.stopped
            && t.acks == s.acks + (if acked.Some? then [acked.value] else [])
            && (if reply.Some? then |t.replies| == |s.replies| + 1 && t.replies[|s.replies|].ack == reply.value
                else t.replies == s.replies)
  {
    busy', stopped', reply, acked := busy, stopped, None, None;
    if e.Request? || e.Return? || e.Timeout? || e.Abandon? {
      reply := TakeHost(ch, s, e);
    } else if e.Receive? || e.Finish? {
      if !stopped {
        busy', acked := TakeLoop(ch, loop, busy, s, e);
      }
    } else if e.PushMsg? {
      ch.Push(e.m);
    } else if e.InjectAck? {
      ch.RunnerAck(e.a);
    } else if e.Close? {
      ch.Close();
    } else {
      stopped' := true;
    }
  }

  // ---------------------------------------------------------------- answered once, in order

  function Held(s: State): seq<Msg> {
    if s.busy.Some? then [s.busy.value] else []
  }

  /** The acks answer a prefix of what was pushed; the message in hand comes next, the inbox after. */
  predicate InOrder(s: State) {
    && |s.acks| <= |s.pushed|
    && (forall i :: 0 <= i < |s.acks| ==> s.acks[i].op == s.pushed[i].op && s.acks[i].id == s.pushed[i].id)
    && s.pushed[|s.acks|..] == Held(s) + s.chan.inbox
  }

  /** An ack for the message in hand, or for the head of the inbox, keeps the order. */
  lemma EmitInOrder(s: State, a: Ack)
    requires |s.acks| < |s.pushed| && a.op == s.pushed[|s.acks|].op && a.id == s.pushed[|s.acks|].id
    requires forall i :: 0 <= i < |s.acks| ==> s.acks[i].op == s.pushed[i].op && s.acks[i].id == s.pushed[i].id
    requires s.pushed[|s.acks| + 1..] == Held(s) + s.chan.inbox
    ensures InOrder(Emit(s, a))
  {
  }

  lemma ReceiveInOrder(s: State)
    requires InOrder(s)
    ensures InOrder(Apply(s, Receive))
  {
    if !(s.stopped || s.busy.Some? || s.chan.inbox == []) {
      var m := s.chan.inbox[0];
      assert s.pushed[|s.acks|] == m;
      assert s.pushed[|s.acks| + 1..] == s.pushed[|s.acks|..][1..];
      if Refusal(s.paused, m).Some? {
        EmitInOrder(s.(chan := s.chan.(inbox := s.chan.inbox[1..])), Refusal(s.paused, m).value);
      }
    }
  }

  lemma FinishInOrder(s: State, works: bool)
    requires InOrder(s)
    ensures InOrder(Apply(s, Finish(works)))
  {
    if !(s.stopped || s.busy.None?) {
      var m := s.busy.value;
      assert s.pushed[|s.acks|] == m;
      assert s.pushed[|s.acks| + 1..] == s.pushed[|s.acks|..][1..];
      EmitInOrder(s.(busy := None, paused := if works then m.op == Pause else s.paused), Conclusion(m, works));
    }
  }

  lemma StepInOrder(s: State, e: Step)
    requires InOrder(s)
    ensures InOrder(Apply(s, e))
  {
    if e.Receive? {
      ReceiveInOrder(s);
    } else if e.Finish? {
      FinishInOrder(s, e.works);
    } else if e.Request? || e.PushMsg? {
      var t := Apply(s, e);
      assert t.pushed[|s.acks|..] == s.pushed[|s.acks|..] + t.pushed[|s.pushed|..];
    }
  }

  lemma {:induction false} AnsweredOnceInOrder(ev: seq<Step>)
    ensures InOrder(After(ev))
  {
    if ev != [] {
      AnsweredOnceInOrder(ev[..|ev| - 1]);
      StepInOrder(After(ev[..|ev| - 1]), ev[|ev| - 1]);
    }
  }

  // ---------------------------------------------------------------- alternation

  function Oks(acks: seq<Ack>): seq<Op> {
    if acks == [] then []
    else Oks(acks[..|acks| - 1]) + (if acks[|acks| - 1].ok then [acks[|acks| - 1].op] else [])
  }

  /** Positive acks read pause, resume, pause, ... and the flag is their parity. */
  predicate Alternating(acks: seq<Ack>, paused: bool) {
    && (forall i :: 0 <= i < |Oks(acks)| ==> Oks(acks)[i] == if i % 2 == 0 then Pause else Resume)
    && (paused <==> |Oks(acks)| % 2 == 1)
  }

  predicate Alternates(s: State) {
    Alternating(s.acks, s.paused) && (s.busy.Some? ==> Refusal(s.paused, s.busy.value).None?)
  }

  /** The flag after one more ack, if the ack fits the flag before it. */
  predicate Follows(paused: bool, a: Ack, paused': bool) {
    if a.ok then paused == (a.op == Resume) && paused' == !paused else paused' == paused
  }

  lemma AlternatingThen(acks: seq<Ack>, paused: bool, a: Ack, paused': bool)
    requires Alternating(acks, paused) && Follows(paused, a, paused')
    ensures Alternating(acks + [a], paused')
  {
    OksThen(acks, a);
  }

  lemma OksThen(acks: seq<Ack>, a: Ack)
    ensures Oks(acks + [a]) == Oks(acks) + (if a.ok then [a.op] else [])
  {
    assert (acks + [a])[..|acks|] == acks;
  }

  /** A step that acks with success changes the flag to what the ack says; no other step does. */
  lemma StepFlag(s: State, e: Step) returns (a: Option<Ack>)
    requires s.busy.Some? ==> Refusal(s.paused, s.busy.value).None?
    ensures var t := Apply(s, e);
            && (t.busy.Some? ==> Refusal(t.paused, t.busy.value).None?)
            && (if a.Some? then t.acks == s.acks + [a.value] && Follows(s.paused, a.value, t.paused)
                else t.acks == s.acks && t.paused == s.paused)
  {
    a := None;
    if e.Receive? && !s.stopped && s.busy.None? && s.chan.inbox != [] {
      a := Refusal(s.paused, s.chan.inbox[0]);
    } else if e.Finish? && !s.stopped && s.busy.Some? {
      a := Some(Conclusion(s.busy.value, e.works));
    }
  }

  lemma StepAlternates(s: State, e: Step)
    requires Alternates(s)
    ensures Alternates(Apply(s, e))
  {
    var a := StepFlag(s, e);
    if a.Some? {
      AlternatingThen(s.acks, s.paused, a.value, Apply(s, e).paused);
    }
  }

  /** The successful acks of one loop read pause, resume, pause, and so on, and the loop is paused
      exactly when their number is odd. */
  lemma {:induction false} OkAcksAlternate(ev: seq<Step>)
    ensures Alternates(After(ev))
  {
    if ev != [] {
      OkAcksAlternate(ev[..|ev| - 1]);
      StepAlternates(After(ev[..|ev| - 1]), ev[|ev| - 1]);
    }
  }

  // ---------------------------------------------------------------- correlation

  /** The answer is filed under the id of its request, and is the loop's own, one that came over the
      wire, or the one `close` makes up. */
  predicate Proper(s: State, id: ReqId, a: Ack) {
    || (a.id == id && (a in s.acks || a in s.injected))
    || (a == ClosedAck(id) && s.chan.closed)
  }

  predicate Sound(s: State, r: Reply) {
    match r.id
    case None => r.ack == Ack(r.op, ClosedMark, false, Some(ChannelClosed)) && s.chan.closed
    case Some(id) =>
      && id.Issued? && id.op == r.op
      && (Proper(s, id, r.ack) || r.ack == Ack(r.op, id, false, Some(AckTimeout)))
  }

  predicate FutSound(s: State, id: ReqId) {
    && id.Issued? && id.n <= s.chan.counter
    && (id in s.chan.futs && s.chan.futs[id].Done? ==> Proper(s, id, s.chan.futs[id].ack))
  }

  predicate Correlated(s: State) {
    && (forall id <- s.chan.futs :: FutSound(s, id))
    && (forall r <- s.replies :: Sound(s, r))
  }

  /** Counters, the closed flag and the logs only grow. */
  lemma StepGrows(s: State, e: Step)
    ensures var t := Apply(s, e);
            && s.chan.counter <= t.chan.counter && (s.chan.closed ==> t.chan.closed)
            && s.acks <= t.acks && s.injected <= t.injected
  {
  }

  /** How the answer in one future can come about in a step. */
  predicate FutArises(s: State, t: State, id: ReqId) {
    id in t.chan.futs ==>
      if id in s.chan.futs then
        || t.chan.futs[id] == s.chan.futs[id]
        || (t.chan.futs[id].Done? && Proper(t, id, t.chan.futs[id].ack))
        || t.chan.futs[id] == Waiting
      else t.chan.futs[id] == Waiting && id.Issued? && id.n <= t.chan.counter
  }

  lemma ResolveArises(c: Channel, a: Ack, id: ReqId)
    ensures var d := Resolve(c, a);
            && (id in d.futs <==> id in c.futs)
            && (id in c.futs ==> d.futs[id] == c.futs[id] || (a.id == id && d.futs[id] == Done(a)))
  {
  }

  lemma FutStep(s: State, e: Step, id: ReqId)
    ensures FutArises(s, Apply(s, e), id)
  {
    match e {
      case InjectAck(a) =>
        ResolveArises(s.chan, a, id);
      case Receive =>
        if !s.stopped && s.busy.None? && s.chan.inbox != [] && Refusal(s.paused, s.chan.inbox[0]).Some? {
          ResolveArises(s.chan.(inbox := s.chan.inbox[1..]), Refusal(s.paused, s.chan.inbox[0]).value, id);
        }
      case Finish(works) =>
        if !s.stopped && s.busy.Some? {
          ResolveArises(s.chan, Conclusion(s.busy.value, works), id);
        }
      case _ =>
    }
  }

  lemma FutStaysSound(s: State, t: State, id: ReqId)
    requires FutArises(s, t, id) && id in t.chan.futs && (id in s.chan.futs ==> FutSound(s, id))
    requires s.chan.counter <= t.chan.counter && (s.chan.closed ==> t.chan.closed)
    requires s.acks <= t.acks && s.injected <= t.injected
    ensures FutSound(t, id)
  {
  }

  lemma ReplyStep(s: State, e: Step, r: Reply)
    requires Correlated(s)
    requires r in Apply(s, e).replies
    ensures Sound(Apply(s, e), r)
  {
    StepGrows(s, e);
    if r in s.replies {
      assert Sound(s, r);
    } else {
      assert e.Return? || e.Timeout? ==> FutSound(s, e.id);
    }
  }

  lemma StepCorrelated(s: State, e: Step)
    requires Correlated(s)
    ensures Correlated(Apply(s, e))
  {
    var t := Apply(s, e);
    StepGrows(s, e);
    forall id | id in t.chan.futs ensures FutSound(t, id) {
      FutStep(s, e, id);
      FutStaysSound(s, t, id);
    }
    forall r | r in t.replies ensures Sound(t, r) {
      ReplyStep(s, e, r);
    }
  }

  // ---------------------------------------------------------------- replied to once

  /** The request has been given out and its future is gone. */
  predicate Settled(c: Channel, id: ReqId) {
    id !in c.futs && id.Issued? && id.n <= c.counter
  }

  /** Every request is answered to its caller at most once. */
  predicate NoDoubleReply(s: State) {
    && (forall r <- s.replies :: r.id.Some? ==> Settled(s.chan, r.id.value))
    && (forall i, k :: 0 <= i < k < |s.replies| && s.replies[i].id.Some? ==> s.replies[i].id != s.replies[k].id)
    && (forall id <- s.chan.futs :: id.Issued? && id.n <= s.chan.counter)
  }

  lemma SettledStays(s: State, e: Step, id: ReqId)
    requires Settled(s.chan, id)
    ensures Settled(Apply(s, e).chan, id)
  {
    StepGrows(s, e);
  }

  lemma FutsIssued(s: State, e: Step, id: ReqId)
    requires id in Apply(s, e).chan.futs && (id in s.chan.futs ==> id.Issued? && id.n <= s.chan.counter)
    ensures id.Issued? && id.n <= Apply(s, e).chan.counter
  {
    StepGrows(s, e);
    FutStep(s, e, id);
  }

  /** A step that replies does so to a request that was waiting, and forgets it. */
  lemma NewReply(s: State, e: Step)
    ensures var t := Apply(s, e);
            || t.replies == s.replies
            || (&& |t.replies| == |s.replies| + 1 && t.replies[..|s.replies|] == s.replies
                && var id := t.replies[|s.replies|].id;
                   id.Some? ==> id.value in s.chan.futs && id.value !in t.chan.futs && id.value.Issued?)
  {
  }

  lemma StepNoDoubleReply(s: State, e: Step)
    requires NoDoubleReply(s)
    ensures NoDoubleReply(Apply(s, e))
  {
    var t := Apply(s, e);
    NewReply(s, e);
    StepGrows(s, e);
    forall id | id in t.chan.futs ensures id.Issued? && id.n <= t.chan.counter {
      FutsIssued(s, e, id);
    }
    forall r | r in t.replies && r.id.Some? ensures Settled(t.chan, r.id.value) {
      if r in s.replies {
        SettledStays(s, e, r.id.value);
      }
    }
    forall i, k | 0 <= i < k < |t.replies| && t.replies[i].id.Some? ensures t.replies[i].id != t.replies[k].id {
      assert t.replies[i] == s.replies[i];
      assert s.replies[i] in s.replies;
    }
  }

  /** For every run, whatever arrives over the wire. */
  lemma {:induction false} RepliesAreSound(ev: seq<Step>)
    ensures Correlated(After(ev)) && NoDoubleReply(After(ev))
  {
    if ev != [] {
      var before := ev[..|ev| - 1];
      RepliesAreSound(before);
      StepCorrelated(After(before), ev[|ev| - 1]);
      StepNoDoubleReply(After(before), ev[|ev| - 1]);
    }
  }

  // ---------------------------------------------------------------- closing

  /** Over every run, once the channel is closed no caller waits. */
  lemma {:induction false} ClosedAnswersAll(ev: seq<Step>)
    ensures var c := After(ev).chan;
            c.closed ==> forall id <- c.futs :: c.futs[id].Done?
  {
    if ev != [] {
      ClosedAnswersAll(ev[..|ev| - 1]);
      StepClosed(After(ev[..|ev| - 1]), ev[|ev| - 1]);
    }
  }

  lemma StepClosed(s: State, e: Step)
    requires s.chan.closed ==> forall id <- s.chan.futs :: s.chan.futs[id].Done?
    ensures var c := Apply(s, e).chan;
            c.closed ==> forall id <- c.futs :: c.futs[id].Done?
  {
    var t := Apply(s, e);
    if t.chan.closed && !e.Close? {
      forall id | id in t.chan.futs ensures t.chan.futs[id].Done? {
        DoneStays(s, e, id);
      }
    }
  }

  /** The first answer wins: a future that has one keeps it for as long as it is there. */
  lemma DoneStays(s: State, e: Step, id: ReqId)
    ensures var t := Apply(s, e);
            && (id in t.chan.futs && id in s.chan.futs && s.chan.futs[id].Done? && !(e.Request? && !s.chan.closed) ==>
                  t.chan.futs[id] == s.chan.futs[id])
            && (s.chan.closed && id in t.chan.futs ==> id in s.chan.futs)
            && (t.chan.closed ==> s.chan.closed || e.Close?)
  {
  }

  /** A caller that waits when the channel is closed gets a negative pause ack under its own id. */
  lemma CloseReplies(s: State, id: ReqId)
    requires !s.chan.closed && id.Issued? && id in s.chan.futs && s.chan.futs[id].Waiting?
    ensures var t := Apply(Apply(s, Close), Return(id));
            t.replies == s.replies + [Reply(id.op, Some(id), Ack(Pause, id, false, Some(ChannelClosed)))]
  {
  }

  /** After the close a request is refused at once, under the closed mark, and nothing is sent. */
  lemma ClosedRefuses(s: State, op: Op)
    requires s.chan.closed
    ensures var t := Apply(s, Request(op));
            && t == s.(replies := t.replies)
            && t.replies == s.replies + [Reply(op, None, Ack(op, ClosedMark, false, Some(ChannelClosed)))]
  {
  }

  /** A caller that goes away is forgotten, and no reply is logged for it. */
  lemma AbandonForgets(s: State, id: ReqId)
    ensures var t := Apply(s, Abandon(id));
            id !in t.chan.futs && t.chan.futs == s.chan.futs - {id} && t.replies == s.replies
  {
  }

  /** Cancelling the loop stops it and changes nothing else. */
  lemma StopStops(s: State)
    ensures Apply(s, Stop) == s.(stopped := true)
  {
  }

  /** A loop that was stopped takes and acks nothing more. */
  lemma StoppedIsSilent(s: State, e: Step)
    requires s.stopped
    ensures var t := Apply(s, e);
            t.stopped && t.acks == s.acks && t.busy == s.busy && t.paused == s.paused && s.chan.inbox <= t.chan.inbox
  {
  }

  // ---------------------------------------------------------------- labels

  /** Over the wire, a message or an ack under one of the channel's ids carries that id's operation,
      and no ack claims that the channel is closed. */
  predicate Labelled(e: Step) {
    && (e.PushMsg? && e.m.id.Issued? ==> e.m.op == e.m.id.op)
    && (e.InjectAck? ==> e.a.error != Some(ChannelClosed) && (e.a.id.Issued? ==> e.a.op == e.a.id.op))
  }

  predicate Plain(a: Ack) {
    a.error != Some(ChannelClosed) && (a.id.Issued? ==> a.op == a.id.op)
  }

  predicate AllLabelled(s: State) {
    && (forall m <- s.pushed :: m.id.Issued? ==> m.op == m.id.op)
    && (forall a <- s.acks :: Plain(a))
    && (forall a <- s.injected :: Plain(a))
  }

  /** The loop itself never reports a closed channel. */
  lemma {:induction false} AckErrors(ev: seq<Step>)
    ensures forall a <- After(ev).acks :: a.error != Some(ChannelClosed)
  {
    if ev != [] {
      AckErrors(ev[..|ev| - 1]);
    }
  }

  lemma {:induction false} LabelsKept(ev: seq<Step>)
    requires forall e <- ev :: Labelled(e)
    ensures AllLabelled(After(ev))
  {
    AckErrors(ev);
    AnsweredOnceInOrder(ev);
    if ev != [] {
      var before := ev[..|ev| - 1];
      LabelsKept(before);
      assert Labelled(ev[|ev| - 1]);
      LabelsStep(After(before), ev[|ev| - 1]);
    }
  }

  lemma LabelsStep(s: State, e: Step)
    requires AllLabelled(s) && Labelled(e) && InOrder(Apply(s, e))
    requires forall a <- Apply(s, e).acks :: a.error != Some(ChannelClosed)
    ensures AllLabelled(Apply(s, e))
  {
    var t := Apply(s, e);
    forall m | m in t.pushed && m.id.Issued? ensures m.op == m.id.op {
      assert m in s.pushed || (e.PushMsg? && m == e.m) || e.Request?;
    }
    forall a | a in t.acks ensures Plain(a) {
      var i :| 0 <= i < |t.acks| && t.acks[i] == a;
      assert t.pushed[i] in t.pushed;
    }
  }

  /** A reply carries the operation and id of its own request, except exactly when the channel was
      closed before the request (the id is the closed mark) or closed under a waiting resume (the
      operation says pause). A positive reply is one the loop, or the loop at the far end of the
      wire, really gave. */
  lemma ReplyMatchesRequest(ev: seq<Step>, r: Reply)
    requires forall e <- ev :: Labelled(e)
    requires r in After(ev).replies
    ensures (r.ack.op == r.op && Some(r.ack.id) == r.id)
            <==> !(r.ack.error == Some(ChannelClosed) && (r.id.None? || r.op == Resume))
    ensures r.ack.ok ==> r.ack in After(ev).acks || r.ack in After(ev).injected
  {
    RepliesAreSound(ev);
    LabelsKept(ev);
    assert Sound(After(ev), r);
  }

  /** An ack injected under the id of a waiting request is what its caller gets. */
  lemma InjectedAckIsReturned(s: State, a: Ack)
    requires a.id.Issued? && a.id in s.chan.futs && s.chan.futs[a.id].Waiting?
    ensures var t := Apply(Apply(s, InjectAck(a)), Return(a.id));
            t.replies == s.replies + [Reply(a.id.op, Some(a.id), a)] && a.id !in t.chan.futs
  {
  }
}
