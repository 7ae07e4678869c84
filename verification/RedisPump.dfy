/** The Redis stream pump: one reader that tails the stream and fans entries into local queues. */
module RedisPump {
  import opened Basics

  datatype Event = Event(id: nat, topic: string)

  /** A stream entry; None when its fields do not decode. */
  type Entry = Option<Event>

  /** A local queue (`maxsize` 0 is unbounded). `seen` lists the matching events offered to it while
      open, each with whether there was room; `taken` what the consumer got. */
  datatype Sub = Sub(topic: string, maxsize: nat, queue: seq<Event>, closed: bool, seen: seq<(Event, bool)>,
      taken: seq<Event>)

  predicate Matches(s: Sub, e: Event) {
    s.topic == "*" || s.topic == e.topic
  }

  predicate HasRoom(s: Sub) {
    s.maxsize == 0 || |s.queue| < s.maxsize
  }

  /** `offer`: append if there is room, otherwise drop the new event. */
  function Offer(s: Sub, e: Event): Sub {
    if s.closed then s
    else if HasRoom(s) then s.(queue := s.queue + [e], seen := s.seen + [(e, true)])
    else s.(seen := s.seen + [(e, false)])
  }

  function Receive(s: Sub, x: Entry): Sub {
    if x.Some? && Matches(s, x.value) then Offer(s, x.value) else s
  }

  function ReceiveAll(s: Sub, batch: seq<Entry>): Sub {
    if batch == [] then s else Receive(ReceiveAll(s, batch[..|batch| - 1]), batch[|batch| - 1])
  }

  /** The pump's inner loops over one XREAD reply: decode each entry, offer it to every matching
      queue. Each queue ends as if it had received the batch alone. */
  method PumpBatch(subs: seq<Sub>, batch: seq<Entry>) returns (subs': seq<Sub>)
    ensures |subs'| == |subs|
    ensures forall i :: 0 <= i < |subs| ==> subs'[i] == ReceiveAll(subs[i], batch)
  {
    subs' := subs;
    for n := 0 to |batch|
      invariant |subs'| == |subs|
      invariant forall i :: 0 <= i < |subs| ==> subs'[i] == ReceiveAll(subs[i], batch[..n])
    {
      assert batch[..n + 1][..n] == batch[..n];
      if batch[n].Some? {
        for k := 0 to |subs|
          invariant |subs'| == |subs|
          invariant forall i :: 0 <= i < k ==> subs'[i] == ReceiveAll(subs[i], batch[..n + 1])
          invariant forall i :: k <= i < |subs| ==> subs'[i] == ReceiveAll(subs[i], batch[..n])
        {
          if Matches(subs'[k], batch[n].value) {
            subs' := subs'[k := Offer(subs'[k], batch[n].value)];
          }
        }
      }
    }
    assert batch[..|batch|] == batch;
  }

  // ---------------------------------------------------------------- the pump over time

  const COUNT: nat := 100

  /** `cursor` is None while the pump still reads from `$`; `reading` is the position an XREAD under
      way reads from; `first` is where the first non-empty reply began. */
  datatype State = State(
    stream: seq<Entry>,
    cursor: Option<nat>,
    reading: Option<nat>,
    first: nat,
    processed: seq<Entry>,
    sub: Sub,
    until: Option<nat>)      // entries processed when the queue was closed

  datatype Step =
    | XAdd(x: Entry)
    | Issue                  // XREAD is sent
    | TimesOut               // it returns nothing
    | Replies                // it returns up to COUNT entries
    | Consume
    | CloseSub

  function Min(a: nat, b: nat): nat {
    if a <= b then a else b
  }

  function Apply(s: State, e: Step): State {
    match e
    case XAdd(x) => s.(stream := s.stream + [x])
    case Issue =>
      if s.reading.Some? then s
      else s.(reading := Some(if s.cursor.Some? then s.cursor.value else |s.stream|))
    case TimesOut =>
      if s.reading.Some? && s.reading.value >= |s.stream| then s.(reading := None) else s
    case Replies =>
      if s.reading.Some? && s.reading.value < |s.stream| then
        var from := s.reading.value;
        var to := Min(from + COUNT, |s.stream|);
        var batch := s.stream[from..to];
        s.(reading := None, cursor := Some(to), first := if s.cursor.None? then from else s.first,
           processed := s.processed + batch, sub := ReceiveAll(s.sub, batch))
      else s
    case Consume =>
      if s.sub.queue == [] then s
      else s.(sub := s.sub.(queue := s.sub.queue[1..], taken := s.sub.taken + [s.sub.queue[0]]))
    case CloseSub =>
      if s.sub.closed then s else s.(sub := s.sub.(closed := true), until := Some(|s.processed|))
  }

  /** A pump that starts with a stream of any length and one fresh queue. */
  function Begin(stream: seq<Entry>, topic: string, maxsize: nat): State {
    State(stream, None, None, 0, [], Sub(topic, maxsize, [], false, [], []), None)
  }

  function After(s0: State, ev: seq<Step>): State {
    if ev == [] then s0 else Apply(After(s0, ev[..|ev| - 1]), ev[|ev| - 1])
  }

  /** What was processed is one stretch of the stream that ends at the cursor. */
  predicate Contiguous(s: State) {
    && (s.reading.Some? ==> s.reading.value <= |s.stream| && (s.cursor.Some? ==> s.reading == s.cursor))
    && (s.cursor.None? ==> s.processed == [])
    && (s.cursor.Some? ==> s.first < s.cursor.value <= |s.stream| && s.processed == s.stream[s.first..s.cursor.value])
  }

  /** The matching decodable events of a stretch, in order. */
  function Matching(s: Sub, xs: seq<Entry>): seq<Event> {
    if xs == [] then []
    else
      var x := xs[|xs| - 1];
      Matching(s, xs[..|xs| - 1]) + (if x.Some? && Matches(s, x.value) then [x.value] else [])
  }

  /** What a queue is offered: the entries that decode and whose topic is the queue's, or all that decode
      for the wildcard. */
  lemma {:induction false} OfferedIff(s: Sub, xs: seq<Entry>, e: Event)
    ensures e in Matching(s, xs) <==> Some(e) in xs && (s.topic == "*" || s.topic == e.topic)
  {
    if xs != [] {
      var n := |xs| - 1;
      OfferedIff(s, xs[..n], e);
      assert Some(e) in xs <==> Some(e) in xs[..n] || xs[n] == Some(e);
    }
  }

  function Firsts(seen: seq<(Event, bool)>): seq<Event> {
    if seen == [] then [] else Firsts(seen[..|seen| - 1]) + [seen[|seen| - 1].0]
  }

  function Accepted(seen: seq<(Event, bool)>): seq<Event> {
    if seen == [] then [] else Accepted(seen[..|seen| - 1]) + (if seen[|seen| - 1].1 then [seen[|seen| - 1].0] else [])
  }

  /** The queue was offered every matching event in order; the consumer's items followed by the
      queue are those that found room. */
  predicate Delivered(s: Sub, xs: seq<Entry>) {
    && Firsts(s.seen) == Matching(s, xs)
    && Accepted(s.seen) == s.taken + s.queue
    && (s.maxsize > 0 ==> |s.queue| <= s.maxsize)
  }

  lemma SeenThen(seen: seq<(Event, bool)>, e: Event, room: bool)
    ensures Firsts(seen + [(e, room)]) == Firsts(seen) + [e]
    ensures Accepted(seen + [(e, room)]) == Accepted(seen) + (if room then [e] else [])
  {
    assert (seen + [(e, room)])[..|seen|] == seen;
  }

  lemma MatchingThen(s: Sub, xs: seq<Entry>, x: Entry)
    ensures Matching(s, xs + [x]) == Matching(s, xs) + (if x.Some? && Matches(s, x.value) then [x.value] else [])
  {
    assert (xs + [x])[..|xs|] == xs;
  }

  /** A matching event is offered: it joins what was seen, and the queue if there is room. */
  lemma MatchDelivered(s: Sub, xs: seq<Entry>, e: Event)
    requires Delivered(s, xs) && !s.closed && Matches(s, e)
    ensures Delivered(Offer(s, e), xs + [Some(e)])
  {
    var t := Offer(s, e);
    SeenThen(s.seen, e, HasRoom(s));
    MatchingThen(s, xs, Some(e));
    MatchingTopic(s, t, xs + [Some(e)]);
    assert s.taken + (s.queue + [e]) == s.taken + s.queue + [e];
  }

  lemma OfferDelivered(s: Sub, xs: seq<Entry>, x: Entry)
    requires Delivered(s, xs) && !s.closed
    ensures Delivered(Receive(s, x), xs + [x]) && !Receive(s, x).closed
    ensures Receive(s, x).topic == s.topic
  {
    if x.Some? && Matches(s, x.value) {
      MatchDelivered(s, xs, x.value);
    } else {
      MatchingThen(s, xs, x);
    }
  }

  lemma {:induction false} MatchingTopic(s: Sub, t: Sub, xs: seq<Entry>)
    requires s.topic == t.topic
    ensures Matching(s, xs) == Matching(t, xs)
  {
    if xs != [] {
      MatchingTopic(s, t, xs[..|xs| - 1]);
    }
  }

  lemma {:induction false} BatchDelivered(s: Sub, xs: seq<Entry>, batch: seq<Entry>)
    requires Delivered(s, xs) && !s.closed
    ensures Delivered(ReceiveAll(s, batch), xs + batch) && !ReceiveAll(s, batch).closed
  {
    if batch == [] {
      assert xs + batch == xs;
    } else {
      var n := |batch| - 1;
      BatchDelivered(s, xs, batch[..n]);
      OfferDelivered(ReceiveAll(s, batch[..n]), xs + batch[..n], batch[n]);
      assert xs + batch[..n] + [batch[n]] == xs + batch;
    }
  }

  /** The first `n` of a list, or all of it. */
  function FirstOf<T>(xs: seq<T>, n: nat): seq<T> {
    if n <= |xs| then xs[..n] else xs
  }

  function Room(s: Sub): nat {
    if s.maxsize > |s.queue| then s.maxsize - |s.queue| else 0
  }

  /** What an open bounded queue holds after a batch, told from the queue before it: the batch is
      processed without a suspension, so the matching entries go in until the room is used up. */
  lemma {:induction false} BatchKept(s: Sub, batch: seq<Entry>)
    requires !s.closed && s.maxsize > 0 && |s.queue| <= s.maxsize
    ensures var t := ReceiveAll(s, batch);
            && t.queue == s.queue + FirstOf(Matching(s, batch), Room(s))
            && !t.closed && t.maxsize == s.maxsize && t.topic == s.topic
  {
    if batch != [] {
      var n := |batch| - 1;
      BatchKept(s, batch[..n]);
      KeptThen(s, ReceiveAll(s, batch[..n]), Matching(s, batch[..n]), batch[n]);
    }
  }

  lemma KeptThen(s: Sub, t: Sub, kept: seq<Event>, x: Entry)
    requires s.maxsize > 0 && |s.queue| <= s.maxsize && t.maxsize == s.maxsize && t.topic == s.topic && !t.closed
    requires t.queue == s.queue + FirstOf(kept, Room(s))
    ensures var u := Receive(t, x);
            && u.queue == s.queue + FirstOf(kept + (if x.Some? && Matches(s, x.value) then [x.value] else []), Room(s))
            && !u.closed && u.maxsize == s.maxsize && u.topic == s.topic
  {
    if x.Some? && Matches(s, x.value) && |kept| < Room(s) {
      assert s.queue + (kept + [x.value]) == s.queue + kept + [x.value];
    }
  }

  /** A bounded queue loses nothing of a batch exactly when there is room for all of its matching
      entries; an unbounded one never does. */
  lemma NothingLostIff(s: Sub, batch: seq<Entry>)
    requires !s.closed && (s.maxsize > 0 ==> |s.queue| <= s.maxsize)
    ensures ReceiveAll(s, batch).queue == s.queue + Matching(s, batch)
       <==> s.maxsize == 0 || |s.queue| + |Matching(s, batch)| <= s.maxsize
  {
    if s.maxsize == 0 {
      UnboundedKeeps(s, batch);
    } else {
      BatchKept(s, batch);
      assert |ReceiveAll(s, batch).queue| == |s.queue| + |FirstOf(Matching(s, batch), Room(s))|;
    }
  }

  lemma {:induction false} UnboundedKeeps(s: Sub, batch: seq<Entry>)
    requires !s.closed && s.maxsize == 0
    ensures var t := ReceiveAll(s, batch);
            t.queue == s.queue + Matching(s, batch) && !t.closed && t.maxsize == 0 && t.topic == s.topic
  {
    if batch != [] {
      UnboundedKeeps(s, batch[..|batch| - 1]);
    }
  }

  lemma {:induction false} ClosedReceives(s: Sub, batch: seq<Entry>)
    requires s.closed
    ensures ReceiveAll(s, batch) == s
  {
    if batch != [] {
      ClosedReceives(s, batch[..|batch| - 1]);
    }
  }

  /** A queue that is closed takes nothing more in any continuation; what it holds can still be consumed. */
  lemma {:induction false} CloseEnds(s: State, ev: seq<Step>)
    ensures var t := After(Apply(s, CloseSub), ev).sub;
            t.closed && t.seen == s.sub.seen && t.taken + t.queue == s.sub.taken + s.sub.queue
  {
    var c := Apply(s, CloseSub);
    if ev != [] {
      CloseEnds(s, ev[..|ev| - 1]);
      var u, e := After(c, ev[..|ev| - 1]), ev[|ev| - 1];
      if e.Replies? && u.reading.Some? && u.reading.value < |u.stream| {
        ClosedReceives(u.sub, u.stream[u.reading.value..Min(u.reading.value + COUNT, |u.stream|)]);
      } else if e.Consume? && u.sub.queue != [] {
        assert u.sub.taken + [u.sub.queue[0]] + u.sub.queue[1..] == u.sub.taken + u.sub.queue;
      }
    }
  }

  predicate SubLaw(s: State) {
    if s.sub.closed
    then s.until.Some? && s.until.value <= |s.processed| && Delivered(s.sub, s.processed[..s.until.value])
    else s.until.None? && Delivered(s.sub, s.processed)
  }

  lemma ConsumeDelivered(s: Sub, xs: seq<Entry>)
    requires Delivered(s, xs) && s.queue != []
    ensures Delivered(s.(queue := s.queue[1..], taken := s.taken + [s.queue[0]]), xs)
  {
    var t := s.(queue := s.queue[1..], taken := s.taken + [s.queue[0]]);
    MatchingTopic(s, t, xs);
    assert t.taken + t.queue == s.taken + s.queue;
  }

  lemma StepSubLaw(s: State, e: Step)
    requires SubLaw(s)
    ensures SubLaw(Apply(s, e))
  {
    var t := Apply(s, e);
    match e {
      case Replies =>
        if s.reading.Some? && s.reading.value < |s.stream| {
          var batch := s.stream[s.reading.value..Min(s.reading.value + COUNT, |s.stream|)];
          if s.sub.closed {
            ClosedReceives(s.sub, batch);
            assert t.processed[..s.until.value] == s.processed[..s.until.value];
          } else {
            BatchDelivered(s.sub, s.processed, batch);
          }
        }
      case Consume =>
        if s.sub.queue != [] {
          ConsumeDelivered(s.sub, if s.sub.closed then s.processed[..s.until.value] else s.processed);
        }
      case CloseSub =>
        if !s.sub.closed {
          assert s.processed[..|s.processed|] == s.processed;
          MatchingTopic(s.sub, t.sub, s.processed);
        }
      case _ =>
    }
  }

  lemma StepContiguous(s: State, e: Step)
    requires Contiguous(s)
    ensures Contiguous(Apply(s, e))
  {
    if e.Replies? && s.reading.Some? && s.reading.value < |s.stream| && s.cursor.Some? {
      var to := Min(s.reading.value + COUNT, |s.stream|);
      assert s.stream[s.first..to] == s.stream[s.first..s.cursor.value] + s.stream[s.cursor.value..to];
    }
  }

  /** For every run without trimming: from its first non-empty reply on, the pump processes one
      contiguous stretch of the stream, each entry once and in order; and a queue is offered exactly
      the matching decodable entries of that stretch, of which it keeps, in order, those that found
      room. */
  lemma {:induction false} PumpLaw(stream: seq<Entry>, topic: string, maxsize: nat, ev: seq<Step>)
    ensures var s := After(Begin(stream, topic, maxsize), ev); Contiguous(s) && SubLaw(s)
  {
    if ev != [] {
      PumpLaw(stream, topic, maxsize, ev[..|ev| - 1]);
      StepContiguous(After(Begin(stream, topic, maxsize), ev[..|ev| - 1]), ev[|ev| - 1]);
      StepSubLaw(After(Begin(stream, topic, maxsize), ev[..|ev| - 1]), ev[|ev| - 1]);
    }
  }

  /** One read returns the next entries from its position, at most a hundred, and at least one; it
      returns nothing exactly when there is none. */
  lemma ReadReturns(s: State)
    requires s.reading.Some?
    ensures var t := Apply(s, Replies);
            var from := s.reading.value;
            if from < |s.stream|
            then
              var n := if |s.stream| - from <= 100 then |s.stream| - from else 100;
              t.processed == s.processed + s.stream[from..from + n] && t.cursor == Some(from + n) && t.reading.None?
            else t == s
    ensures Apply(s, TimesOut) == if s.reading.value >= |s.stream| then s.(reading := None) else s
  {
  }

  /** The pump is already past entry `i` without having processed it: its first stretch begins, or
      will begin, after it. */
  predicate Missed(s: State, i: nat) {
    && i < |s.stream|
    && (s.cursor.None? ==> s.reading.Some? ==> i < s.reading.value)
    && (s.cursor.Some? ==> i < s.first)
  }

  predicate Processed(s: State, i: nat) {
    s.cursor.Some? && s.first <= i < s.cursor.value
  }

  /** Before the first non-empty reply there is a gap: an entry added between a read that timed out
      and the next one is passed over, because `$` then means after it. */
  lemma TailGap(stream: seq<Entry>, topic: string, maxsize: nat, x: Entry)
    ensures var s := After(Begin(stream, topic, maxsize), [] + [Issue] + [TimesOut] + [XAdd(x)] + [Issue]);
            s.stream == stream + [x] && s.processed == [] && Missed(s, |stream|)
  {
    var s0 := Begin(stream, topic, maxsize);
    var e1 := [] + [Issue];
    var e2 := e1 + [TimesOut];
    var e3 := e2 + [XAdd(x)];
    AfterThen(s0, [], Issue);
    AfterThen(s0, e1, TimesOut);
    AfterThen(s0, e2, XAdd(x));
    AfterThen(s0, e3, Issue);
  }

  lemma AfterThen(s0: State, ev: seq<Step>, e: Step)
    ensures After(s0, ev + [e]) == Apply(After(s0, ev), e)
  {
    assert (ev + [e])[..|ev|] == ev;
  }

  lemma {:induction false} AfterConcat(s0: State, p: seq<Step>, q: seq<Step>)
    ensures After(s0, p + q) == After(After(s0, p), q)
  {
    if q == [] {
      assert p + q == p;
    } else {
      assert (p + q)[..|p + q| - 1] == p + q[..|q| - 1];
      AfterConcat(s0, p, q[..|q| - 1]);
    }
  }

  /** ... and stays so: the stretch processed in any continuation begins after it. */
  lemma {:induction false} MissedForGood(s: State, ev: seq<Step>, i: nat)
    requires Contiguous(s) && Missed(s, i)
    ensures Contiguous(After(s, ev)) && Missed(After(s, ev), i)
    ensures var t := After(s, ev);
            t.cursor.Some? ==> i < t.first && t.processed == t.stream[t.first..t.cursor.value]
  {
    if ev != [] {
      MissedForGood(s, ev[..|ev| - 1], i);
      StepContiguous(After(s, ev[..|ev| - 1]), ev[|ev| - 1]);
    }
  }

  /** Entry `i` is processed or will be: the first stretch begins at or before it. */
  predicate Safe(s: State, i: nat) {
    && i < |s.stream|
    && (s.cursor.Some? ==> s.first <= i)
    && (s.cursor.None? ==> s.reading.Some? && s.reading.value <= i)
  }

  lemma {:induction false} SafeForGood(s: State, ev: seq<Step>, i: nat)
    requires Contiguous(s) && Safe(s, i)
    ensures Contiguous(After(s, ev)) && Safe(After(s, ev), i)
  {
    if ev != [] {
      SafeForGood(s, ev[..|ev| - 1], i);
      StepContiguous(After(s, ev[..|ev| - 1]), ev[|ev| - 1]);
    }
  }

  /** Where the next reply will start. */
  function Position(s: State): nat {
    if s.reading.Some? then s.reading.value else if s.cursor.Some? then s.cursor.value else |s.stream|
  }

  /** One more read moves a pump that has not reached entry `i` forward, or processes it. */
  lemma ReadOn(s: State, i: nat)
    requires Contiguous(s) && Safe(s, i) && !Processed(s, i)
    ensures var t := Apply(Apply(s, Issue), Replies);
            Contiguous(t) && Safe(t, i) && t.reading.None? && t.cursor.Some? && t.cursor.value > Position(s)
                && t.stream == s.stream
  {
    StepContiguous(s, Issue);
    StepContiguous(Apply(s, Issue), Replies);
  }

  /** A safe entry is processed after enough reads. */
  lemma {:induction false} SafeIsReached(s: State, i: nat) returns (more: seq<Step>)
    requires Contiguous(s) && Safe(s, i)
    ensures Processed(After(s, more), i)
    decreases if Position(s) <= |s.stream| then |s.stream| - Position(s) else 0
  {
    more := [];
    if !Processed(s, i) {
      ReadOn(s, i);
      var t := Apply(Apply(s, Issue), Replies);
      var rest := SafeIsReached(t, i);
      AfterThen(s, [], Issue);
      AfterThen(s, [] + [Issue], Replies);
      AfterConcat(s, [] + [Issue] + [Replies], rest);
      more := [] + [Issue] + [Replies] + rest;
    }
  }

  /** Some continuation processes entry `i`. */
  ghost predicate MayProcess(s: State, i: nat) {
    exists more :: Processed(After(s, more), i)
  }

  /** Exactly which entries are not lost: an entry added after any run is processed in some
      continuation if and only if the pump has had a non-empty reply or a read is under way when it
      is added; otherwise no continuation processes it. */
  lemma AddedIsProcessedIff(stream: seq<Entry>, topic: string, maxsize: nat, ev: seq<Step>, x: Entry)
    ensures var s := After(Begin(stream, topic, maxsize), ev);
            MayProcess(Apply(s, XAdd(x)), |s.stream|) <==> s.cursor.Some? || s.reading.Some?
  {
    var s := After(Begin(stream, topic, maxsize), ev);
    PumpLaw(stream, topic, maxsize, ev);
    var t := Apply(s, XAdd(x));
    StepContiguous(s, XAdd(x));
    if s.cursor.Some? || s.reading.Some? {
      var more := SafeIsReached(t, |s.stream|);
      assert Processed(After(t, more), |s.stream|);
    } else {
      forall more ensures !Processed(After(t, more), |s.stream|) {
        MissedForGood(t, more, |s.stream|);
      }
    }
  }

  // ---------------------------------------------------------------- no back-pressure

  /** Entries that arrive one by one while the consumer takes nothing. */
  function Flood(xs: seq<Event>): seq<Step> {
    if xs == [] then []
    else Flood(xs[..|xs| - 1]) + [Issue] + [XAdd(Some(xs[|xs| - 1]))] + [Replies]
  }

  lemma FloodOne(s: State, x: Event)
    requires s.reading.None? && (s.cursor.Some? ==> s.cursor.value == |s.stream|)
    ensures var t := Apply(Apply(Apply(s, Issue), XAdd(Some(x))), Replies);
            && t.reading.None? && t.cursor == Some(|t.stream|) && t.sub == Receive(s.sub, Some(x))
  {
    var u := Apply(Apply(s, Issue), XAdd(Some(x)));
    assert u.stream[|s.stream|..|u.stream|] == [Some(x)];
    var one: seq<Entry> := [Some(x)];
    assert one[..0] == [];
    assert ReceiveAll(s.sub, one) == Receive(ReceiveAll(s.sub, one[..0]), one[0]);
  }

  lemma FloodSub(s: Sub, xs: seq<Event>, x: Event)
    requires s.maxsize > 0 && s.topic == "*" && !s.closed && s.queue == FirstOf(xs, s.maxsize)
    ensures var t := Receive(s, Some(x));
            && t.queue == FirstOf(xs + [x], s.maxsize) && t.taken == s.taken && !t.closed
            && t.maxsize == s.maxsize && t.topic == "*"
  {
  }

  lemma AfterThree(s0: State, ev: seq<Step>, a: Step, b: Step, c: Step)
    ensures After(s0, ev + [a] + [b] + [c]) == Apply(Apply(Apply(After(s0, ev), a), b), c)
  {
    AfterThen(s0, ev, a);
    AfterThen(s0, ev + [a], b);
    AfterThen(s0, ev + [a] + [b], c);
  }

  /** Nobody waits for the consumer: a flood fills the queue with its first `maxsize` events and drops
      the rest, for every size of queue. */
  lemma {:induction false} FloodDrops(stream: seq<Entry>, maxsize: nat, xs: seq<Event>)
    requires maxsize > 0
    ensures var s := After(Begin(stream, "*", maxsize), Flood(xs));
            && s.sub.queue == FirstOf(xs, maxsize) && s.sub.taken == [] && !s.sub.closed
            && s.sub.maxsize == maxsize && s.sub.topic == "*"
            && s.reading.None? && (s.cursor.Some? ==> s.cursor.value == |s.stream|)
  {
    if xs != [] {
      var n := |xs| - 1;
      var s0, ev := Begin(stream, "*", maxsize), Flood(xs[..n]);
      FloodDrops(stream, maxsize, xs[..n]);
      FloodOne(After(s0, ev), xs[n]);
      FloodSub(After(s0, ev).sub, xs[..n], xs[n]);
      assert xs[..n] + [xs[n]] == xs;
      AfterThree(s0, ev, Issue, XAdd(Some(xs[n])), Replies);
    }
  }
}
