/** Sequence numbers of the frames a runner sends, and the byte-capped pre-run output pump. */
module RunnerFrames {
  import opened Basics

  datatype Source = Runner | Hook
  datatype Frame = Frame(source: Source, num: nat)

  const HOOK_BASE: nat := 900000

  /** What the dispatch loop does with one SDK message. */
  datatype Message =
    | ResultMessage                   // a synthetic completion raises instead of ending the session
    | AssistantMessage
    | UserMessage(toolResults: nat)   // 0: plain text
    | OtherMessage                    // a retry over budget raises after its chunk is sent

  /** `seqNo` and `hookSeq` are the two counters, `live` says that the pre-run phase is over,
      `results` counts the tool results of the current user message still to be sent, and `frames`
      is every frame built so far. */
  datatype State = State(seqNo: nat, hookSeq: nat, live: bool, results: nat, frames: seq<Frame>)

  /** One stretch of code without an `await`. The dispatch loop, the `can_use_tool` callbacks and the
      hook callbacks interleave freely at these steps. */
  datatype Step =
    | Boot                     // an install report, a pre-run chunk or a pre-run error
    | GoLive
    | Request                  // a permission callback asks the host
    | Arrive(m: Message)       // from the arrival of a message to its first send
    | NextResult               // one more tool result of the same message
    | Fail                     // the error frame of the outer handler
    | HookFires

  const Start := State(0, HOOK_BASE, false, 0, [])

  /** The numbers a message uses up: a result and the first tool result skip one, because both the
      message and the frame advance the counter; so does a synthetic result on its way to the error
      frame. */
  function Uses(m: Message): nat {
    if m.ResultMessage? || (m.UserMessage? && m.toolResults > 0) then 2 else 1
  }

  /** A live frame: advance the counter, then use it. */
  function Live(s: State, uses: nat): State {
    s.(seqNo := s.seqNo + uses, frames := s.frames + [Frame(Runner, s.seqNo + uses)])
  }

  function Apply(s: State, e: Step): State {
    match e
    case Boot => if s.live then s else s.(frames := s.frames + [Frame(Runner, s.seqNo)], seqNo := s.seqNo + 1)
    case GoLive => s.(live := true)
    case Request => if s.live then Live(s, 1) else s
    case Arrive(m) =>
      if s.live && s.results == 0 then
        Live(s, Uses(m)).(results := if m.UserMessage? && m.toolResults > 0 then m.toolResults - 1 else 0)
      else s
    case NextResult => if s.live && s.results > 0 then Live(s, 1).(results := s.results - 1) else s
    case Fail => if s.live then Live(s, 1) else s
    case HookFires => if s.live then s.(frames := s.frames + [Frame(Hook, s.hookSeq)], hookSeq := s.hookSeq + 1) else s
  }

  function After(ev: seq<Step>): State {
    if ev == [] then Start else Apply(After(ev[..|ev| - 1]), ev[|ev| - 1])
  }

  /** The counters of one session. */
  class FrameCounters {
    var seqNo: nat
    var hookSeq: nat
    var live: bool
    var results: nat
    ghost var frames: seq<Frame>

    ghost function View(): State
      reads this
    {
      State(seqNo, hookSeq, live, results, frames)
    }

    constructor ()
      ensures View() == Start
    {
      seqNo, hookSeq, live, results, frames := 0, HOOK_BASE, false, 0, [];
    }

    method BootFrame() returns (f: Frame)
      requires !live
      modifies this
      ensures View() == Apply(old(View()), Boot) && frames == old(frames) + [f]
      ensures f == Frame(Runner, old(seqNo)) && seqNo == old(seqNo) + 1
    {
      f := Frame(Runner, seqNo);
      frames := frames + [f];
      seqNo := seqNo + 1;
    }

    method Connect()
      modifies this`live
      ensures View() == Apply(old(View()), GoLive)
    {
      live := true;
    }

    method SendLive() returns (f: Frame)
      modifies this`seqNo, this`frames
      ensures View() == Live(old(View()), 1) && frames == old(frames) + [f]
      ensures f == Frame(Runner, old(seqNo) + 1) && seqNo == old(seqNo) + 1
    {
      seqNo := seqNo + 1;
      f := Frame(Runner, seqNo);
      frames := frames + [f];
    }

    method ToolRequest() returns (f: Frame)
      requires live
      modifies this
      ensures View() == Apply(old(View()), Request) && frames == old(frames) + [f]
      ensures f == Frame(Runner, old(seqNo) + 1) && seqNo == old(seqNo) + 1
    {
      f := SendLive();
    }

    method Dispatch(m: Message) returns (f: Frame)
      requires live && results == 0
      modifies this
      ensures View() == Apply(old(View()), Arrive(m)) && frames == old(frames) + [f]
      ensures f == Frame(Runner, seqNo)
      ensures m.ResultMessage? ==> seqNo == old(seqNo) + 2 && results == 0
      ensures m.AssistantMessage? || m.OtherMessage? ==> seqNo == old(seqNo) + 1 && results == 0
      ensures m.UserMessage? && m.toolResults == 0 ==> seqNo == old(seqNo) + 1 && results == 0
      ensures m.UserMessage? && m.toolResults > 0 ==> seqNo == old(seqNo) + 2 && results == m.toolResults - 1
    {
      seqNo := seqNo + 1;
      match m
      case ResultMessage => f := SendLive();
      case UserMessage(n) =>
        if n > 0 {
          f := SendLive();
          results := n - 1;
        } else {
          f := Frame(Runner, seqNo);
          frames := frames + [f];
        }
      case _ =>
        f := Frame(Runner, seqNo);
        frames := frames + [f];
    }

    method NextToolResult() returns (f: Frame)
      requires live && results > 0
      modifies this
      ensures View() == Apply(old(View()), NextResult) && frames == old(frames) + [f]
      ensures f == Frame(Runner, old(seqNo) + 1) && seqNo == old(seqNo) + 1 && results == old(results) - 1
    {
      f := SendLive();
      results := results - 1;
    }

    method ErrorFrame() returns (f: Frame)
      requires live
      modifies this
      ensures View() == Apply(old(View()), Fail) && frames == old(frames) + [f]
      ensures f == Frame(Runner, old(seqNo) + 1) && seqNo == old(seqNo) + 1
    {
      f := SendLive();
    }

    method HookFrame() returns (f: Frame)
      requires live
      modifies this
      ensures View() == Apply(old(View()), HookFires) && frames == old(frames) + [f]
      ensures f == Frame(Hook, old(hookSeq)) && hookSeq == old(hookSeq) + 1 && seqNo == old(seqNo)
    {
      f := Frame(Hook, hookSeq);
      hookSeq := hookSeq + 1;
      frames := frames + [f];
    }
  }

  /** Frames of one source, in build order, carry strictly increasing numbers. */
  predicate Increasing(fs: seq<Frame>) {
    forall i, k :: 0 <= i < k < |fs| && fs[i].source == fs[k].source ==> fs[i].num < fs[k].num
  }

  /** Hook frames fill a block that starts at the base; runner frames stay at or below the counter. */
  predicate Numbered(s: State) {
    && Increasing(s.frames)
    && HOOK_BASE <= s.hookSeq
    && (forall f <- s.frames :: f.source == Hook ==> HOOK_BASE <= f.num < s.hookSeq)
    && (forall n :: HOOK_BASE <= n < s.hookSeq ==> Frame(Hook, n) in s.frames)
    && (forall f <- s.frames :: f.source == Runner ==> if s.live then f.num <= s.seqNo else f.num < s.seqNo)
  }

  lemma LiveNumbered(s: State, uses: nat)
    requires Numbered(s) && s.live && uses >= 1
    ensures Numbered(Live(s, uses))
  {
    forall n | HOOK_BASE <= n < s.hookSeq ensures Frame(Hook, n) in Live(s, uses).frames {
      assert Frame(Hook, n) in s.frames;
    }
  }

  lemma StepNumbered(s: State, e: Step)
    requires Numbered(s)
    ensures Numbered(Apply(s, e))
  {
    if s.live && (e.Request? || e.Fail? || e.Arrive? || e.NextResult?) {
      LiveNumbered(s, if e.Arrive? then Uses(e.m) else 1);
    }
  }

  /** For every interleaving of the dispatch loop, the permission callbacks and the hooks. */
  lemma {:induction false} FrameNumbers(ev: seq<Step>)
    ensures Numbered(After(ev))
    ensures forall f <- After(ev).frames :: f.source == Hook ==> f.num >= 900000
  {
    if ev != [] {
      FrameNumbers(ev[..|ev| - 1]);
      StepNumbered(After(ev[..|ev| - 1]), ev[|ev| - 1]);
    }
  }

  /** The stretches that handle one message, if nothing interleaves: its arrival, then one per further
      tool result. */
  function Handle(s: State, m: Message, more: nat): State {
    if more == 0 then Apply(s, Arrive(m)) else Apply(Handle(s, m, more - 1), NextResult)
  }

  /** The frames of consecutive numbers from `first` on. */
  function Consecutive(first: nat, n: nat): seq<Frame> {
    seq(n, (i: nat) => Frame(Runner, first + i))
  }

  /** How many frames a message yields, and with which numbers: a user message one for each of its tool
      results and none for itself, every other message exactly one; the number of a result, or of the
      first tool result, is two past the last one, any other number is the next. */
  lemma {:induction false} FramesOfMessage(s: State, m: Message, more: nat)
    requires s.live && s.results == 0
    requires more <= if m.UserMessage? && m.toolResults > 0 then m.toolResults - 1 else 0
    ensures var t := Handle(s, m, more);
            var first := s.seqNo + if m.ResultMessage? || (m.UserMessage? && m.toolResults > 0) then 2 else 1;
            && t.frames == s.frames + Consecutive(first, more + 1)
            && t.seqNo == first + more && t.live
            && t.results == (if m.UserMessage? && m.toolResults > 0 then m.toolResults - 1 else 0) - more
  {
    if more > 0 {
      FramesOfMessage(s, m, more - 1);
      var first := s.seqNo + if m.ResultMessage? || (m.UserMessage? && m.toolResults > 0) then 2 else 1;
      assert Consecutive(first, more) + [Frame(Runner, first + more)] == Consecutive(first, more + 1);
    }
  }

  /** The loop takes the next message exactly when the last one is fully sent. */
  lemma NextMessageIff(s: State, m: Message)
    requires s.live
    ensures Apply(s, Arrive(m)) != s <==> s.results == 0
    ensures Apply(s, NextResult) != s <==> s.results > 0
  {
    if s.results == 0 {
      assert |Apply(s, Arrive(m)).frames| == |s.frames| + 1;
    } else {
      assert |Apply(s, NextResult).frames| == |s.frames| + 1;
    }
  }

  /** Before the client is connected only boot frames are built, and afterwards none. */
  lemma BootPhase(s: State, e: Step)
    ensures !s.live && !e.Boot? && !e.GoLive? ==> Apply(s, e) == s
    ensures s.live ==> Apply(s, Boot) == s && Apply(s, e).live
  {
  }

  predicate AllDistinct(fs: seq<Frame>) {
    forall i, k :: 0 <= i < k < |fs| ==> fs[i].num != fs[k].num
  }

  /** A runner frame whose number lies in the block of the hooks. */
  predicate Trespasses(s: State, f: Frame) {
    f.source == Runner && HOOK_BASE <= f.num < s.hookSeq
  }

  lemma MeetsAHook(s: State, f: Frame)
    requires Numbered(s) && f in s.frames && Trespasses(s, f)
    ensures !AllDistinct(s.frames)
  {
    var h := Frame(Hook, f.num);
    assert h in s.frames;
    var i :| 0 <= i < |s.frames| && s.frames[i] == f;
    var k :| 0 <= k < |s.frames| && s.frames[k] == h;
    assert i < k || k < i;
  }

  /** The (session_id, seq) constraint of the frames table holds exactly when no runner number has
      reached the hooks' block. */
  lemma UniqueIff(ev: seq<Step>)
    ensures AllDistinct(After(ev).frames) <==> forall f <- After(ev).frames :: !Trespasses(After(ev), f)
  {
    var s := After(ev);
    FrameNumbers(ev);
    forall f | f in s.frames && Trespasses(s, f) ensures !AllDistinct(s.frames) {
      MeetsAHook(s, f);
    }
    if forall f <- s.frames :: !Trespasses(s, f) {
      forall i, k | 0 <= i < k < |s.frames| ensures s.frames[i].num != s.frames[k].num {
        assert !Trespasses(s, s.frames[i]) && !Trespasses(s, s.frames[k]);
      }
    }
  }

  /** In particular while fewer than 900000 runner numbers are used. */
  lemma FramesUnique(ev: seq<Step>)
    requires After(ev).seqNo < 900000
    ensures AllDistinct(After(ev).frames)
  {
    FrameNumbers(ev);
    UniqueIff(ev);
  }

  /** The bound is sharp: from any run that has used one number less, one more message and one hook
      collide. */
  lemma CollisionAtBase(ev: seq<Step>)
    requires After(ev).live && After(ev).seqNo == HOOK_BASE - 1
    ensures !AllDistinct(After(ev + [Request] + [HookFires]).frames)
  {
    var mid, all := ev + [Request], ev + [Request] + [HookFires];
    assert mid[..|ev|] == ev && all[..|mid|] == mid;
    assert After(mid) == Live(After(ev), 1) && After(all) == Apply(After(mid), HookFires);
    FrameNumbers(ev);
    FrameNumbers(all);
    assert After(all).frames[|After(ev).frames|] == Frame(Runner, HOOK_BASE);
    MeetsAHook(After(all), Frame(Runner, HOOK_BASE));
  }

  /** A live runner that is asked for `n` permissions. */
  function Requests(n: nat): seq<Step> {
    if n == 0 then [GoLive] else Requests(n - 1) + [Request]
  }

  lemma {:induction false} RequestsCount(n: nat)
    ensures After(Requests(n)).live && After(Requests(n)).seqNo == n
  {
    if n == 0 {
      assert Requests(0)[..0] == [];
    } else {
      RequestsCount(n - 1);
      assert Requests(n)[..|Requests(n)| - 1] == Requests(n - 1);
    }
  }

  /** Such a run exists: 899999 requests, one more, and a hook. */
  lemma CollisionHappens(n: nat)
    requires n == 899999
    ensures !AllDistinct(After(Requests(n) + [Request] + [HookFires]).frames)
  {
    RequestsCount(n);
    CollisionAtBase(Requests(n));
  }

  // ---------------------------------------------------------------- pre-run output

  newtype Byte = x: int | 0 <= x < 256

  const LIMIT: nat := 65536

  /** A `pre_run` chunk: forwarded output, or the truncation notice. */
  datatype Chunk = Output(bytes: seq<Byte>) | Notice

  /** How a command ended: with an exit code, not even started, or cut off by one of the two time
      budgets. */
  datatype End = Exit(code: int) | NotSpawned | TimedOut

  /** What the reads from a command's output returned before it ended. */
  datatype Command = Command(output: seq<seq<Byte>>, end: End)

  /** The error frame of a command that does not succeed; only a non-zero exit shows output. */
  datatype Failure = Failure(at: nat, tail: Option<seq<Byte>>)

  /** A command that did not start has no output. */
  predicate Sensible(cmd: Command) {
    (forall chunk <- cmd.output :: chunk != []) && (cmd.end.NotSpawned? ==> cmd.output == [])
  }

  function Flat(chunks: seq<seq<Byte>>): seq<Byte> {
    if chunks == [] then [] else Flat(chunks[..|chunks| - 1]) + chunks[|chunks| - 1]
  }

  function FlatAll(cmds: seq<Command>): seq<Byte> {
    if cmds == [] then [] else FlatAll(cmds[..|cmds| - 1]) + Flat(cmds[|cmds| - 1].output)
  }

  function Capped(s: seq<Byte>): seq<Byte> {
    if |s| <= LIMIT then s else s[..LIMIT]
  }

  /** The cap is 64 KiB. */
  lemma CappedIs(s: seq<Byte>)
    ensures Capped(s) <= s && |Capped(s)| == if |s| <= 65536 then |s| else 65536
  {
  }

  /** The bytes a list of sent chunks carries. */
  function Sent(out: seq<Chunk>): seq<Byte> {
    if out == [] then []
    else Sent(out[..|out| - 1]) + (match out[|out| - 1] case Output(bs) => bs case Notice => [])
  }

  function Notices(out: seq<Chunk>): nat {
    if out == [] then 0 else Notices(out[..|out| - 1]) + (if out[|out| - 1].Notice? then 1 else 0)
  }

  lemma SentThen(out: seq<Chunk>, c: Chunk)
    ensures Sent(out + [c]) == Sent(out) + (match c case Output(bs) => bs case Notice => [])
    ensures Notices(out + [c]) == Notices(out) + (if c.Notice? then 1 else 0)
  {
    assert (out + [c])[..|out|] == out;
  }

  /** After `all` bytes of output: the sent chunks carry its capped prefix, and one notice if full. */
  predicate Pumped(out: seq<Chunk>, emitted: nat, all: seq<Byte>) {
    && emitted == |Capped(all)| && Sent(out) == Capped(all)
    && Notices(out) == (if |all| >= LIMIT then 1 else 0)
    && (|all| >= LIMIT ==> out != [] && out[|out| - 1] == Notice)
  }

  /** One read of a command's output: forward what still fits, and say so once when the cap is
      reached. */
  method ForwardChunk(out: seq<Chunk>, emitted: nat, chunk: seq<Byte>, ghost all: seq<Byte>)
    returns (out': seq<Chunk>, emitted': nat)
    requires chunk != [] && Pumped(out, emitted, all)
    ensures Pumped(out', emitted', all + chunk) && out <= out'
  {
    out', emitted' := out, emitted;
    if emitted < LIMIT {
      var remaining := LIMIT - emitted;
      var forwarded := if |chunk| <= remaining then chunk else chunk[..remaining];
      emitted' := emitted + |forwarded|;
      SentThen(out, Output(forwarded));
      out' := out + [Output(forwarded)];
      if emitted' >= LIMIT {
        SentThen(out', Notice);
        out' := out' + [Notice];
      }
    }
  }

  method Capture(captured: seq<Byte>, chunk: seq<Byte>, ghost all: seq<Byte>) returns (captured': seq<Byte>)
    requires captured == Capped(all)
    ensures captured' == Capped(all + chunk)
  {
    captured' := captured;
    if |captured| < LIMIT {
      var room := LIMIT - |captured|;
      captured' := captured + if |chunk| <= room then chunk else chunk[..room];
    }
  }

  /** One read: capture it, forward it, and advance the counter by the chunks sent. */
  method PumpRead(chunk: seq<Byte>, out: seq<Chunk>, emitted: nat, seqNo: nat, captured: seq<Byte>,
      ghost own: seq<Byte>, ghost all: seq<Byte>)
    returns (out': seq<Chunk>, emitted': nat, seqNo': nat, captured': seq<Byte>)
    requires chunk != [] && Pumped(out, emitted, all) && captured == Capped(own)
    ensures Pumped(out', emitted', all + chunk) && captured' == Capped(own + chunk)
    ensures out <= out' && seqNo' == seqNo + |out'| - |out|
  {
    captured' := Capture(captured, chunk, own);
    out', emitted' := ForwardChunk(out, emitted, chunk, all);
    seqNo' := seqNo + |out'| - |out|;
  }

  /** `_stream_proc_output`: forward one command's output and keep its first bytes for a traceback. */
  method StreamProcOutput(cmd: seq<seq<Byte>>, out: seq<Chunk>, emitted: nat, seqNo: nat, ghost before: seq<Byte>)
    returns (out': seq<Chunk>, emitted': nat, seqNo': nat, captured: seq<Byte>)
    requires forall chunk <- cmd :: chunk != []
    requires Pumped(out, emitted, before)
    ensures Pumped(out', emitted', before + Flat(cmd))
    ensures out <= out' && seqNo' == seqNo + |out'| - |out|
    ensures captured == Capped(Flat(cmd))
  {
    out', emitted', seqNo', captured := out, emitted, seqNo, [];
    ghost var own, all := [], before;
    for k := 0 to |cmd|
      invariant own == Flat(cmd[..k]) && all == before + own
      invariant Pumped(out', emitted', all) && captured == Capped(own)
      invariant out <= out' && seqNo' == seqNo + |out'| - |out|
    {
      FlatThen(cmd, k);
      assert cmd[k] in cmd;
      assert before + (own + cmd[k]) == all + cmd[k];
      out', emitted', seqNo', captured := PumpRead(cmd[k], out', emitted', seqNo', captured, own, all);
      own, all := own + cmd[k], all + cmd[k];
    }
    assert cmd[..|cmd|] == cmd;
  }

  /** `_run_one`: a command that does not start sends nothing. */
  method RunOne(cmd: Command, out: seq<Chunk>, emitted: nat, seqNo: nat, ghost before: seq<Byte>)
    returns (out': seq<Chunk>, emitted': nat, seqNo': nat, tail: Option<seq<Byte>>)
    requires Sensible(cmd) && Pumped(out, emitted, before)
    ensures Pumped(out', emitted', before + Flat(cmd.output))
    ensures out <= out' && seqNo' == seqNo + |out'| - |out|
    ensures tail == if cmd.end.Exit? then Some(Capped(Flat(cmd.output))) else None
  {
    out', emitted', seqNo', tail := out, emitted, seqNo, None;
    if cmd.end.NotSpawned? {
      assert before + [] == before;
    } else {
      var captured;
      out', emitted', seqNo', captured := StreamProcOutput(cmd.output, out, emitted, seqNo, before);
      if cmd.end.Exit? {
        tail := Some(captured);
      }
    }
  }

  /** Run the commands up to the first that does not succeed. What is forwarded over all of them is the
      first 65536 bytes of their joined output, with one truncation notice, the last chunk, exactly
      when that many bytes were produced; each chunk takes one sequence number, and a failing command
      one more for the error frame, which carries the head of its own output if it ran to its end. */
  method ExecutePreRun(cmds: seq<Command>, startSeq: nat) returns (out: seq<Chunk>, nextSeq: nat,
      failed: Option<Failure>)
    requires forall cmd <- cmds :: Sensible(cmd)
    ensures var n := if failed.Some? then failed.value.at + 1 else |cmds|;
            && n <= |cmds|
            && (forall i :: 0 <= i < n ==> (cmds[i].end == Exit(0) <==> !(failed.Some? && i == failed.value.at)))
            && Sent(out) == Capped(FlatAll(cmds[..n]))
            && Notices(out) == (if |FlatAll(cmds[..n])| >= LIMIT then 1 else 0)
            && (|FlatAll(cmds[..n])| >= LIMIT ==> out != [] && out[|out| - 1] == Notice)
    ensures nextSeq == startSeq + |out| + if failed.Some? then 1 else 0
    ensures failed.Some? ==>
              var cmd := cmds[failed.value.at];
              failed.value.tail == if cmd.end.Exit? then Some(Capped(Flat(cmd.output))) else None
  {
    var emitted := 0;
    out, nextSeq, failed := [], startSeq, None;
    ghost var all := [];
    for i := 0 to |cmds|
      invariant all == FlatAll(cmds[..i]) && Pumped(out, emitted, all)
      invariant nextSeq == startSeq + |out| && failed.None?
      invariant forall k :: 0 <= k < i ==> cmds[k].end == Exit(0)
    {
      assert cmds[i] in cmds;
      FlatAllThen(cmds, i);
      var tail;
      out, emitted, nextSeq, tail := RunOne(cmds[i], out, emitted, nextSeq, all);
      all := all + Flat(cmds[i].output);
      if cmds[i].end != Exit(0) {
        return out, nextSeq + 1, Some(Failure(i, tail));
      }
    }
    assert cmds[..|cmds|] == cmds;
  }

  lemma FlatThen(cmd: seq<seq<Byte>>, k: nat)
    requires k < |cmd|
    ensures Flat(cmd[..k + 1]) == Flat(cmd[..k]) + cmd[k]
  {
    assert cmd[..k + 1][..k] == cmd[..k];
  }

  lemma FlatAllThen(cmds: seq<Command>, i: nat)
    requires i < |cmds|
    ensures FlatAll(cmds[..i + 1]) == FlatAll(cmds[..i]) + Flat(cmds[i].output)
  {
    assert cmds[..i + 1][..i] == cmds[..i];
  }
}
