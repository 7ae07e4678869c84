/** The event pipeline end to end: publishers that persist and then fan out, and one SSE reader that
    subscribes, replays from the store, and then tails its queue. */
module SseReplay {
  import opened Basics
  import Q = EventQueue
  import D = DurableStore
  import R = ReplayCursor

  type SubId = nat
  type PubId = nat

  datatype Event = Event(id: nat, session: string, durable: bool)

  /** `me` is the reader's subscription on the wildcard list; `rowReplay` says that the store hands
      out rows of its table rather than the original events. */
  datatype Config = Config(session: string, cursor: int, limit: nat, maxsize: nat, mayBlock: bool, me: SubId,
      rowReplay: bool)

  /** A `publish` call: waiting for the store; in the wildcard loop with `next` as the position the
      list iterator will read next; or waiting for room in the reader's queue, `woken` once the
      reader made some. `at` is the seq of a stored event. */
  datatype Pub =
    | Storing(ev: Event)
    | Fan(ev: Event, at: nat, next: nat)
    | Blocked(ev: Event, at: nat, next: nat, woken: bool)

  datatype Reader =
    | Away
    | Subscribed
    | Replaying(page: seq<Event>, pos: nat, stored: nat)   // `stored` events existed at the fetch
    | Tailing(page: seq<Event>, stored: nat)

  datatype State = State(
    store: seq<Event>,           // the event with seq n is store[n - 1]
    subs: seq<SubId>,
    pubs: map<PubId, Pub>,
    q: Q.Queue<Event>,
    reader: Reader,
    emitted: seq<Event>,
    since: nat,                  // size of the store when the reader subscribed
    skipped: set<nat>)           // seqs whose fan-out passed over the reader

  datatype Step =
    | Publish(p: PubId, ev: Event)
    | Persist(p: PubId)
    | PersistFails(p: PubId)
    | Advance(p: PubId)
    | Unblock(p: PubId, timedOut: bool)
    | Finish(p: PubId)
    | SubscribeOther(x: SubId)
    | UnsubscribeOther(x: SubId)
    | Subscribe
    | FetchPage
    | EmitReplay
    | StartTail
    | EmitLive

  const Start := State([], [], map[], Q.Empty<Event>(), Away, [], 0, {})

  function Index(subs: seq<SubId>, x: SubId): (i: nat)
    ensures i <= |subs| && (i < |subs| <==> x in subs) && (i < |subs| ==> subs[i] == x)
    ensures forall k :: 0 <= k < i ==> subs[k] != x
  {
    if subs == [] || subs[0] == x then 0 else 1 + Index(subs[1..], x)
  }

  /** The list without the entry at `j`. */
  function Without(subs: seq<SubId>, j: nat): seq<SubId>
    requires j < |subs|
  {
    subs[..j] + subs[j + 1..]
  }

  function Clip(n: int, size: nat): nat {
    if n < 0 then 0 else if n > size then size else n
  }

  /** `fetch_after(cursor, limit)` on a store that was never pruned. */
  function Page(store: seq<Event>, cursor: int, limit: nat): seq<Event> {
    var lo := Clip(cursor, |store|);
    store[lo..Clip(lo + limit, |store|)]
  }

  /** The session filter. A replayed row without a session passes it; a live event does not. */
  predicate Wanted(cfg: Config, x: Event, live: bool) {
    x.session == cfg.session || (!live && cfg.rowReplay && x.session == "")
  }

  function Mine(cfg: Config, es: seq<Event>, live: bool): seq<Event> {
    if es == [] then []
    else
      var n := |es| - 1;
      Mine(cfg, es[..n], live) + (if Wanted(cfg, es[n], live) then [es[n]] else [])
  }

  function TierOf(ev: Event): Q.Tier {
    if ev.durable then Q.Durable else Q.Lossy
  }

  /** Every blocked publisher is woken. */
  function Signal(pubs: map<PubId, Pub>): map<PubId, Pub> {
    map p | p in pubs :: if pubs[p].Blocked? then pubs[p].(woken := true) else pubs[p]
  }

  /** The fan-outs that step over the reader when the list entry at `j` is removed. */
  function PassedOver(cfg: Config, s: State, j: nat): set<nat> {
    set p | p in s.pubs && s.pubs[p].Fan? && j < s.pubs[p].next == Index(s.subs, cfg.me) :: s.pubs[p].at
  }

  predicate Attached(s: State) {
    !s.reader.Away?
  }

  function Apply(cfg: Config, s: State, e: Step): State
    requires cfg.maxsize >= 1
  {
    match e
    case Publish(p, ev) =>
      if p in s.pubs then s
      else s.(pubs := s.pubs[p := if ev.durable then Storing(ev) else Fan(ev, 0, 0)])
    case Persist(p) =>
      if p in s.pubs && s.pubs[p].Storing? then
        s.(store := s.store + [s.pubs[p].ev], pubs := s.pubs[p := Fan(s.pubs[p].ev, |s.store| + 1, 0)])
      else s
    case PersistFails(p) =>
      if p in s.pubs && s.pubs[p].Storing? then s.(pubs := s.pubs - {p}) else s
    case Advance(p) =>
      if p in s.pubs && s.pubs[p].Fan? && s.pubs[p].next < |s.subs| then
        var b := s.pubs[p];
        if s.subs[b.next] != cfg.me then s.(pubs := s.pubs[p := Fan(b.ev, b.at, b.next + 1)])
        else if Q.Blocks(cfg.maxsize, s.q, TierOf(b.ev), cfg.mayBlock) then
          s.(q := s.q.(drained := false), pubs := s.pubs[p := Blocked(b.ev, b.at, b.next + 1, false)])
        else s.(q := Q.Put(cfg.maxsize, s.q, b.ev, TierOf(b.ev)), pubs := s.pubs[p := Fan(b.ev, b.at, b.next + 1)])
      else s
    case Unblock(p, timedOut) =>
      if p in s.pubs && s.pubs[p].Blocked? && (timedOut || s.pubs[p].woken) then
        var b := s.pubs[p];
        s.(q := Q.Put(cfg.maxsize, Q.Charge(s.q, timedOut), b.ev, TierOf(b.ev)),
           pubs := s.pubs[p := Fan(b.ev, b.at, b.next)])
      else s
    case Finish(p) =>
      if p in s.pubs && s.pubs[p].Fan? && s.pubs[p].next >= |s.subs| then s.(pubs := s.pubs - {p}) else s
    case SubscribeOther(x) =>
      if x == cfg.me || x in s.subs then s else s.(subs := s.subs + [x])
    case UnsubscribeOther(x) =>
      if x == cfg.me || x !in s.subs then s
      else
        var j := Index(s.subs, x);
        s.(subs := Without(s.subs, j),
           skipped := s.skipped + if cfg.me in s.subs then PassedOver(cfg, s, j) else {})
    case Subscribe =>
      if s.reader.Away? then s.(subs := s.subs + [cfg.me], reader := Subscribed, since := |s.store|) else s
    case FetchPage =>
      if s.reader.Subscribed? then
        s.(reader := Replaying(Page(s.store, cfg.cursor, cfg.limit), 0, |s.store|))
      else s
    case EmitReplay =>
      if s.reader.Replaying? && s.reader.pos < |s.reader.page| then
        var x := s.reader.page[s.reader.pos];
        s.(reader := s.reader.(pos := s.reader.pos + 1),
           emitted := s.emitted + if Wanted(cfg, x, false) then [x] else [])
      else s
    case StartTail =>
      if s.reader.Replaying? && s.reader.pos == |s.reader.page| then
        s.(reader := Tailing(s.reader.page, s.reader.stored))
      else s
    case EmitLive =>
      if s.reader.Tailing? && s.q.items != [] then
        var x := s.q.items[0];
        s.(q := Q.Pop(cfg.maxsize, s.q), emitted := s.emitted + (if Wanted(cfg, x, true) then [x] else []),
           pubs := if Q.Full(cfg.maxsize, s.q) && !s.q.drained then Signal(s.pubs) else s.pubs)
      else s
  }

  function After(cfg: Config, ev: seq<Step>): State
    requires cfg.maxsize >= 1
  {
    if ev == [] then Start else Apply(cfg, After(cfg, ev[..|ev| - 1]), ev[|ev| - 1])
  }

  // ---------------------------------------------------------------- every later event reaches the queue

  /** The fan-out of the event with this seq still has the reader ahead of it. */
  predicate Ahead(cfg: Config, s: State, p: PubId, at: nat) {
    && p in s.pubs && !s.pubs[p].Storing? && s.pubs[p].at == at
    && (s.pubs[p].Blocked? || s.pubs[p].next <= Index(s.subs, cfg.me))
  }

  predicate Reaches(cfg: Config, s: State, at: nat)
    requires 1 <= at <= |s.store|
  {
    || (exists p <- s.pubs :: Ahead(cfg, s, p, at))
    || s.store[at - 1] in s.q.log
    || at in s.skipped
  }

  predicate PubInv(s: State) {
    forall p <- s.pubs :: PubKnows(s, p)
  }

  /** A fan-out that carries a seq carries the event stored under it. */
  predicate PubKnows(s: State, p: PubId) {
    p in s.pubs && !s.pubs[p].Storing? && s.pubs[p].at > 0 ==>
      s.pubs[p].at <= |s.store| && s.store[s.pubs[p].at - 1] == s.pubs[p].ev
  }

  predicate Wired(cfg: Config, s: State) {
    && s.since <= |s.store|
    && (Attached(s) <==> cfg.me in s.subs)
    && PubInv(s)
    && (Attached(s) ==> forall at :: s.since < at <= |s.store| ==> Reaches(cfg, s, at))
  }

  lemma RemoveShifts(subs: seq<SubId>, j: nat, x: SubId)
    requires j < |subs| && subs[j] != x && x in subs
    ensures var r := Without(subs, j);
            x in r && Index(r, x) == Index(subs, x) - (if j < Index(subs, x) then 1 else 0)
  {
    var r := Without(subs, j);
    var i := Index(subs, x);
    var i' := if j < i then i - 1 else i;
    assert r[i'] == x;
    assert forall k :: 0 <= k < i' ==> r[k] == if k < j then subs[k] else subs[k + 1];
  }

  lemma AppendKeepsIndex(subs: seq<SubId>, y: SubId, x: SubId)
    ensures x in subs ==> Index(subs + [y], x) == Index(subs, x)
    ensures x !in subs && x == y ==> Index(subs + [y], x) == |subs|
  {
    var r := subs + [y];
    if x in subs {
      assert r[Index(subs, x)] == x;
    }
  }

  /** What the departure of another subscriber does. */
  lemma UnsubscribeShifts(cfg: Config, s: State, x: SubId)
    requires cfg.maxsize >= 1 && cfg.me in s.subs && x != cfg.me && x in s.subs
    ensures var t := Apply(cfg, s, UnsubscribeOther(x));
            var j := Index(s.subs, x);
            t == s.(subs := Without(s.subs, j), skipped := s.skipped + PassedOver(cfg, s, j))
  {
  }

  lemma PassedOverHas(cfg: Config, s: State, j: nat, p: PubId)
    requires p in s.pubs && s.pubs[p].Fan? && j < s.pubs[p].next == Index(s.subs, cfg.me)
    ensures s.pubs[p].at in PassedOver(cfg, s, j)
  {
  }

  lemma AheadUnsubscribe(cfg: Config, s: State, x: SubId, p: PubId, at: nat)
    requires cfg.maxsize >= 1 && cfg.me in s.subs && Ahead(cfg, s, p, at)
    ensures var t := Apply(cfg, s, UnsubscribeOther(x)); Ahead(cfg, t, p, at) || at in t.skipped
  {
    if x != cfg.me && x in s.subs {
      UnsubscribeShifts(cfg, s, x);
      var j := Index(s.subs, x);
      RemoveShifts(s.subs, j, cfg.me);
      if s.pubs[p].Fan? && j < s.pubs[p].next == Index(s.subs, cfg.me) {
        PassedOverHas(cfg, s, j, p);
      }
    }
  }

  /** What a step can do to one fan-out that still has the reader ahead. */
  lemma AheadStep(cfg: Config, s: State, e: Step, p: PubId, at: nat)
    requires cfg.maxsize >= 1 && PubInv(s) && cfg.me in s.subs && 1 <= at <= |s.store|
    requires Ahead(cfg, s, p, at)
    ensures var t := Apply(cfg, s, e);
            Ahead(cfg, t, p, at) || s.store[at - 1] in t.q.log || at in t.skipped
  {
    if e.UnsubscribeOther? {
      AheadUnsubscribe(cfg, s, e.x, p, at);
    } else if e.SubscribeOther? {
      AppendKeepsIndex(s.subs, e.x, cfg.me);
    } else if e.Subscribe? {
      AppendKeepsIndex(s.subs, cfg.me, cfg.me);
    } else {
      assert s.store[at - 1] == s.pubs[p].ev;
      AheadElsewhere(cfg, s, e, p);
    }
  }

  /** A fan-out moves on past another subscriber, or delivers to the reader. */
  lemma AheadElsewhere(cfg: Config, s: State, e: Step, p: PubId)
    requires cfg.maxsize >= 1 && cfg.me in s.subs && p in s.pubs && !s.pubs[p].Storing?
        && Ahead(cfg, s, p, s.pubs[p].at)
    requires !e.UnsubscribeOther? && !e.SubscribeOther? && !e.Subscribe?
    ensures var t := Apply(cfg, s, e);
            Ahead(cfg, t, p, s.pubs[p].at) || s.pubs[p].ev in t.q.log
  {
  }

  lemma LogGrows(cfg: Config, s: State, e: Step, x: Event)
    requires cfg.maxsize >= 1
    requires x in s.q.log
    ensures x in Apply(cfg, s, e).q.log
  {
  }

  lemma ReachesStep(cfg: Config, s: State, e: Step, at: nat)
    requires cfg.maxsize >= 1 && PubInv(s) && cfg.me in s.subs && 1 <= at <= |s.store| && Reaches(cfg, s, at)
    ensures var t := Apply(cfg, s, e);
            |s.store| <= |t.store| && t.store[at - 1] == s.store[at - 1] && Reaches(cfg, t, at)
  {
    var t := Apply(cfg, s, e);
    StoreGrows(cfg, s, e);
    if s.store[at - 1] in s.q.log {
      LogGrows(cfg, s, e, s.store[at - 1]);
    } else if at in s.skipped {
      assert at in t.skipped;
    } else {
      var p :| p in s.pubs && Ahead(cfg, s, p, at);
      AheadStep(cfg, s, e, p, at);
    }
  }

  lemma StoreGrows(cfg: Config, s: State, e: Step)
    requires cfg.maxsize >= 1
    ensures var t := Apply(cfg, s, e);
            && s.store <= t.store && s.skipped <= t.skipped
            && (Attached(s) ==> Attached(t) && t.since == s.since)
  {
  }

  lemma StepPubKnows(cfg: Config, s: State, e: Step, p: PubId)
    requires cfg.maxsize >= 1 && PubKnows(s, p)
    ensures PubKnows(Apply(cfg, s, e), p)
  {
  }

  lemma StepPubInv(cfg: Config, s: State, e: Step)
    requires cfg.maxsize >= 1 && PubInv(s)
    ensures PubInv(Apply(cfg, s, e))
  {
    forall p | p in Apply(cfg, s, e).pubs ensures PubKnows(Apply(cfg, s, e), p) {
      assert PubKnows(s, p);
      StepPubKnows(cfg, s, e, p);
    }
  }

  lemma StepMembership(cfg: Config, s: State, e: Step)
    requires cfg.maxsize >= 1 && (Attached(s) <==> cfg.me in s.subs)
    ensures var t := Apply(cfg, s, e); Attached(t) <==> cfg.me in t.subs
  {
    if e.UnsubscribeOther? && e.x != cfg.me && e.x in s.subs && cfg.me in s.subs {
      RemoveShifts(s.subs, Index(s.subs, e.x), cfg.me);
    }
  }

  lemma StepWired(cfg: Config, s: State, e: Step)
    requires cfg.maxsize >= 1 && Wired(cfg, s)
    ensures Wired(cfg, Apply(cfg, s, e))
  {
    var t := Apply(cfg, s, e);
    StoreGrows(cfg, s, e);
    StepPubInv(cfg, s, e);
    StepMembership(cfg, s, e);
    if Attached(t) {
      forall at | t.since < at <= |t.store| ensures Reaches(cfg, t, at) {
        if at <= |s.store| {
          assert Attached(s);
          ReachesStep(cfg, s, e, at);
        } else {
          assert e.Persist?;
          assert Ahead(cfg, t, e.p, at);
        }
      }
    }
  }

  lemma {:induction false} AlwaysWired(cfg: Config, ev: seq<Step>)
    requires cfg.maxsize >= 1
    ensures Wired(cfg, After(cfg, ev))
  {
    if ev != [] {
      AlwaysWired(cfg, ev[..|ev| - 1]);
      StepWired(cfg, After(cfg, ev[..|ev| - 1]), ev[|ev| - 1]);
    }
  }

  // ---------------------------------------------------------------- what the reader has emitted

  predicate Emissions(cfg: Config, s: State) {
    match s.reader
    case Away => s.emitted == [] && s.q.yielded == []
    case Subscribed => s.emitted == [] && s.q.yielded == []
    case Replaying(page, pos, stored) =>
      && pos <= |page| && s.q.yielded == []
      && s.emitted == Mine(cfg, page[..pos], false)
    case Tailing(page, stored) => s.emitted == Mine(cfg, page, false) + Mine(cfg, s.q.yielded, true)
  }

  predicate Fetched(cfg: Config, s: State) {
    match s.reader
    case Replaying(page, pos, stored) =>
      s.since <= stored <= |s.store| && page == Page(s.store[..stored], cfg.cursor, cfg.limit)
    case Tailing(page, stored) =>
      s.since <= stored <= |s.store| && page == Page(s.store[..stored], cfg.cursor, cfg.limit)
    case _ => true
  }

  lemma MineThen(cfg: Config, es: seq<Event>, x: Event, live: bool)
    ensures Mine(cfg, es + [x], live) == Mine(cfg, es, live) + (if Wanted(cfg, x, live) then [x] else [])
  {
    assert (es + [x])[..|es|] == es;
  }

  predicate ReaderStep(e: Step) {
    e.Subscribe? || e.FetchPage? || e.EmitReplay? || e.StartTail? || e.EmitLive?
  }

  /** Publishers and other subscribers touch nothing the reader has seen. */
  lemma ReaderFrame(cfg: Config, s: State, e: Step)
    requires cfg.maxsize >= 1 && !ReaderStep(e)
    ensures var t := Apply(cfg, s, e);
            t.reader == s.reader && t.emitted == s.emitted && t.q.yielded == s.q.yielded
  {
  }

  lemma EmitReplayStep(cfg: Config, s: State)
    requires cfg.maxsize >= 1 && Emissions(cfg, s)
    ensures Emissions(cfg, Apply(cfg, s, EmitReplay))
  {
    if s.reader.Replaying? && s.reader.pos < |s.reader.page| {
      var page, pos := s.reader.page, s.reader.pos;
      assert page[..pos + 1] == page[..pos] + [page[pos]];
      MineThen(cfg, page[..pos], page[pos], false);
    }
  }

  lemma EmitLiveStep(cfg: Config, s: State)
    requires cfg.maxsize >= 1 && Emissions(cfg, s)
    ensures Emissions(cfg, Apply(cfg, s, EmitLive))
  {
    if s.reader.Tailing? && s.q.items != [] {
      MineThen(cfg, s.q.yielded, s.q.items[0], true);
    }
  }

  lemma StepEmissions(cfg: Config, s: State, e: Step)
    requires cfg.maxsize >= 1 && Emissions(cfg, s)
    ensures Emissions(cfg, Apply(cfg, s, e))
  {
    if e.EmitReplay? {
      EmitReplayStep(cfg, s);
    } else if e.EmitLive? {
      EmitLiveStep(cfg, s);
    } else if !ReaderStep(e) {
      ReaderFrame(cfg, s, e);
    } else if e.StartTail? && s.reader.Replaying? && s.reader.pos == |s.reader.page| {
      assert s.reader.page[..s.reader.pos] == s.reader.page;
    }
  }

  lemma StepFetched(cfg: Config, s: State, e: Step)
    requires cfg.maxsize >= 1 && Fetched(cfg, s) && s.since <= |s.store|
    ensures Fetched(cfg, Apply(cfg, s, e))
  {
    StoreGrows(cfg, s, e);
    var t := Apply(cfg, s, e);
    if e.FetchPage? && s.reader.Subscribed? {
      assert s.store[..|s.store|] == s.store;
    } else if s.reader.Replaying? || s.reader.Tailing? {
      assert t.store[..s.reader.stored] == s.store[..s.reader.stored];
    }
  }

  lemma StepLawful(cfg: Config, s: State, e: Step)
    requires cfg.maxsize >= 1 && Q.Lawful(cfg.maxsize, s.q)
    ensures Q.Lawful(cfg.maxsize, Apply(cfg, s, e).q)
  {
    if e.Advance? && e.p in s.pubs {
      Q.PutLawful(cfg.maxsize, s.q, s.pubs[e.p].ev, TierOf(s.pubs[e.p].ev));
    } else if e.Unblock? && e.p in s.pubs {
      Q.PutLawful(cfg.maxsize, Q.Charge(s.q, e.timedOut), s.pubs[e.p].ev, TierOf(s.pubs[e.p].ev));
    } else if e.EmitLive? && s.q.items != [] {
      Q.PopLawful(cfg.maxsize, s.q);
    }
  }

  lemma {:induction false} ReaderHistory(cfg: Config, ev: seq<Step>)
    requires cfg.maxsize >= 1
    ensures var s := After(cfg, ev);
            Emissions(cfg, s) && Fetched(cfg, s) && Q.Lawful(cfg.maxsize, s.q)
  {
    if ev != [] {
      var before := ev[..|ev| - 1];
      ReaderHistory(cfg, before);
      AlwaysWired(cfg, before);
      StepEmissions(cfg, After(cfg, before), ev[|ev| - 1]);
      StepFetched(cfg, After(cfg, before), ev[|ev| - 1]);
      StepLawful(cfg, After(cfg, before), ev[|ev| - 1]);
    }
  }

  /** Filtering keeps wanted elements of the list and nothing else. */
  lemma {:induction false} MineOnly(cfg: Config, es: seq<Event>, live: bool, x: Event)
    requires x in Mine(cfg, es, live)
    ensures x in es && Wanted(cfg, x, live)
  {
    var n := |es| - 1;
    if x in Mine(cfg, es[..n], live) {
      MineOnly(cfg, es[..n], live, x);
    }
  }

  /** Isolation: whatever the interleaving, an emitted event belongs to the reader's session and was
      stored or queued for it; the one exception is a replayed row without a session. */
  lemma OnlyOwnEvents(cfg: Config, ev: seq<Step>, x: Event)
    requires cfg.maxsize >= 1 && x in After(cfg, ev).emitted
    ensures x in After(cfg, ev).store || x in After(cfg, ev).q.log
    ensures x.session == cfg.session || (x.session == "" && cfg.rowReplay && x in After(cfg, ev).store)
  {
    var s := After(cfg, ev);
    ReaderHistory(cfg, ev);
    var shown := if s.reader.Replaying? then s.reader.page[..s.reader.pos] else s.reader.page;
    if x in Mine(cfg, shown, false) {
      MineOnly(cfg, shown, false, x);
      assert x in s.reader.page;
    } else {
      MineOnly(cfg, s.q.yielded, true, x);
      KeptAreLogged(s.q.log, s.q.fates, true, x);
    }
  }

  lemma {:induction false} KeptAreLogged<T>(log: seq<T>, fates: seq<bool>, fate: bool, x: T)
    requires |fates| <= |log| && x in Q.Kept(log, fates, fate)
    ensures x in log
  {
    if x in Q.Kept(log, fates[..|fates| - 1], fate) {
      KeptAreLogged(log, fates[..|fates| - 1], fate, x);
    }
  }

  /** The part of the page the reader has gone through. */
  function Shown(s: State): seq<Event> {
    match s.reader
    case Replaying(page, pos, _) => if pos <= |page| then page[..pos] else page
    case Tailing(page, _) => page
    case _ => []
  }

  /** Exactly which events of other sessions a reader emits: replayed rows without a session. */
  lemma ForeignEmittedIff(cfg: Config, ev: seq<Step>, x: Event)
    requires cfg.maxsize >= 1 && x.session != cfg.session
    ensures x in After(cfg, ev).emitted <==> cfg.rowReplay && x.session == "" && x in Shown(After(cfg, ev))
  {
    var s := After(cfg, ev);
    ReaderHistory(cfg, ev);
    if x in Mine(cfg, Shown(s), false) {
      MineOnly(cfg, Shown(s), false, x);
    } else if x in Shown(s) && Wanted(cfg, x, false) {
      MineHas(cfg, Shown(s), x, false);
    }
    if x in Mine(cfg, s.q.yielded, true) {
      MineOnly(cfg, s.q.yielded, true, x);
    }
  }

  // ---------------------------------------------------------------- persist before fan-out

  /** A fan-out of a durable event carries the seq it was stored under. */
  predicate CarriesSeq(s: State, p: PubId) {
    p in s.pubs && !s.pubs[p].Storing? && s.pubs[p].ev.durable ==> s.pubs[p].at > 0
  }

  lemma StepCarriesSeq(cfg: Config, s: State, e: Step, p: PubId)
    requires cfg.maxsize >= 1 && CarriesSeq(s, p)
    ensures CarriesSeq(Apply(cfg, s, e), p)
  {
  }

  /** A step appends to the reader's queue at most what a fan-out or a woken publisher carries. */
  lemma StepLogs(cfg: Config, s: State, e: Step, x: Event)
    requires cfg.maxsize >= 1 && x in Apply(cfg, s, e).q.log && x !in s.q.log
    ensures (e.Advance? || e.Unblock?) && e.p in s.pubs && !s.pubs[e.p].Storing? && s.pubs[e.p].ev == x
  {
  }

  /** Only durable events are stored, and every durable event that a fan-out carries or the queue was
      given is stored. */
  predicate StoredFirst(s: State) {
    && (forall x <- s.store :: x.durable)
    && (forall p <- s.pubs :: CarriesSeq(s, p) && (s.pubs[p].Storing? ==> s.pubs[p].ev.durable))
    && (forall x <- s.q.log :: x.durable ==> x in s.store)
  }

  lemma StepStoredFirst(cfg: Config, s: State, e: Step)
    requires cfg.maxsize >= 1 && PubInv(s) && StoredFirst(s)
    ensures StoredFirst(Apply(cfg, s, e))
  {
    var t := Apply(cfg, s, e);
    StoreGrows(cfg, s, e);
    forall p | p in t.pubs ensures CarriesSeq(t, p) {
      assert p in s.pubs ==> CarriesSeq(s, p);
      StepCarriesSeq(cfg, s, e, p);
    }
    forall p | p in t.pubs && t.pubs[p].Storing? ensures t.pubs[p].ev.durable {
      StoringIsDurable(cfg, s, e, p);
    }
    forall x | x in t.store ensures x.durable {
      StoredIsDurable(cfg, s, e, x);
    }
    forall x | x in t.q.log && x.durable ensures x in t.store {
      if x !in s.q.log {
        StepLogs(cfg, s, e, x);
        assert CarriesSeq(s, e.p) && PubKnows(s, e.p);
      }
    }
  }

  lemma StoringIsDurable(cfg: Config, s: State, e: Step, p: PubId)
    requires cfg.maxsize >= 1 && p in Apply(cfg, s, e).pubs && Apply(cfg, s, e).pubs[p].Storing?
    requires p in s.pubs && s.pubs[p].Storing? ==> s.pubs[p].ev.durable
    ensures Apply(cfg, s, e).pubs[p].ev.durable
  {
  }

  lemma StoredIsDurable(cfg: Config, s: State, e: Step, x: Event)
    requires cfg.maxsize >= 1 && StoredFirst(s) && x in Apply(cfg, s, e).store
    ensures x.durable
  {
    assert x in s.store || (e.Persist? && e.p in s.pubs && s.pubs[e.p].Storing? && x == s.pubs[e.p].ev);
  }

  lemma {:induction false} AlwaysStoredFirst(cfg: Config, ev: seq<Step>)
    requires cfg.maxsize >= 1
    ensures StoredFirst(After(cfg, ev))
  {
    if ev != [] {
      AlwaysStoredFirst(cfg, ev[..|ev| - 1]);
      AlwaysWired(cfg, ev[..|ev| - 1]);
      StepStoredFirst(cfg, After(cfg, ev[..|ev| - 1]), ev[|ev| - 1]);
    }
  }

  /** Persist before fan-out: over every run, a durable event that a publisher is fanning out, that is or
      was in the reader's queue, or that was emitted, is in the store, so a later replay can bring it
      back; and the store holds durable events only. */
  lemma PersistedBeforeSeen(cfg: Config, ev: seq<Step>, x: Event)
    requires cfg.maxsize >= 1 && x.durable
    requires var s := After(cfg, ev);
             x in s.emitted || x in s.q.log || exists p <- s.pubs :: !s.pubs[p].Storing? && s.pubs[p].ev == x
    ensures x in After(cfg, ev).store
  {
    var s := After(cfg, ev);
    AlwaysStoredFirst(cfg, ev);
    AlwaysWired(cfg, ev);
    if x in s.emitted {
      OnlyOwnEvents(cfg, ev, x);
    } else if x !in s.q.log {
      var p :| p in s.pubs && !s.pubs[p].Storing? && s.pubs[p].ev == x;
      assert CarriesSeq(s, p) && PubKnows(s, p);
    }
  }

  /** A publish whose persist fails ends there. */
  lemma FailedPersistEnds(cfg: Config, s: State, p: PubId)
    requires cfg.maxsize >= 1 && p in s.pubs && s.pubs[p].Storing?
    ensures var t := Apply(cfg, s, PersistFails(p));
            p !in t.pubs && t.store == s.store && t.q == s.q && t.emitted == s.emitted
  {
  }

  /** What a fan-out does when it reaches the reader: the event is appended, or the publisher waits, which
      it does exactly for a durable event on a full queue of a blocking bus. */
  lemma FanOutDelivers(cfg: Config, s: State, p: PubId)
    requires cfg.maxsize >= 1 && p in s.pubs && s.pubs[p].Fan? && s.pubs[p].next < |s.subs|
    requires s.subs[s.pubs[p].next] == cfg.me
    ensures var t := Apply(cfg, s, Advance(p));
            var b := s.pubs[p];
            if |s.q.items| >= cfg.maxsize && b.ev.durable && cfg.mayBlock
            then t.pubs[p] == Blocked(b.ev, b.at, b.next + 1, false) && t.q.log == s.q.log
            else t.pubs[p] == Fan(b.ev, b.at, b.next + 1) && t.q.log == s.q.log + [b.ev]
  {
  }

  /** A waiting publisher goes on, and appends its event, once the reader made room or its time is up; a
      reader that takes an item from a full queue wakes all of them. */
  lemma BlockedGoesOnIff(cfg: Config, s: State, p: PubId, timedOut: bool)
    requires cfg.maxsize >= 1 && p in s.pubs && s.pubs[p].Blocked?
    ensures var t := Apply(cfg, s, Unblock(p, timedOut));
            if timedOut || s.pubs[p].woken
            then
              && t.pubs[p] == Fan(s.pubs[p].ev, s.pubs[p].at, s.pubs[p].next) && t.q.log == s.q.log + [s.pubs[p].ev]
              && t.q.durableDropped == s.q.durableDropped + if timedOut then 1 else 0
            else t == s
    ensures s.reader.Tailing? && |s.q.items| >= cfg.maxsize && !s.q.drained ==>
              Apply(cfg, s, EmitLive).pubs[p] == s.pubs[p].(woken := true)
  {
  }

  // ---------------------------------------------------------------- no gap

  lemma {:induction false} MineHas(cfg: Config, es: seq<Event>, x: Event, live: bool)
    requires x in es && Wanted(cfg, x, live)
    ensures x in Mine(cfg, es, live)
  {
    var n := |es| - 1;
    if es[n] != x {
      assert x in es[..n];
      MineHas(cfg, es[..n], x, live);
    }
  }

  /** A logged item is buffered, was yielded, or was dropped. */
  lemma {:induction false} LogPlaces<T>(log: seq<T>, fates: seq<bool>, i: nat)
    requires i < |fates| <= |log|
    ensures log[i] in Q.Kept(log, fates, true) || log[i] in Q.Kept(log, fates, false)
  {
    if i < |fates| - 1 {
      LogPlaces(log, fates[..|fates| - 1], i);
    }
  }

  function DroppedItems(q: Q.Queue<Event>): seq<Event> {
    if |q.fates| <= |q.log| then Q.Kept(q.log, q.fates, false) else []
  }

  predicate HasPage(s: State) {
    s.reader.Replaying? || s.reader.Tailing?
  }

  /** The event is still in the page, in the queue, or on its way there. */
  predicate Coming(cfg: Config, s: State, at: nat)
    requires HasPage(s) && 1 <= at <= |s.store|
  {
    || (s.reader.Replaying? && s.store[at - 1] in s.reader.page[Clip(s.reader.pos, |s.reader.page|)..])
    || s.store[at - 1] in s.q.items
    || (exists p <- s.pubs :: Ahead(cfg, s, p, at))
  }

  /** The three ways to lose an event: past the page limit, dropped from the full queue, or passed
      over by a fan-out. */
  predicate Gone(cfg: Config, s: State, at: nat)
    requires HasPage(s) && 1 <= at <= |s.store|
  {
    || (at <= s.reader.stored && at > Clip(cfg.cursor, s.reader.stored) + cfg.limit)
    || s.store[at - 1] in DroppedItems(s.q)
    || at in s.skipped
  }

  lemma Accounted(cfg: Config, s: State, at: nat)
    requires cfg.maxsize >= 1 && HasPage(s)
    requires Wired(cfg, s) && Emissions(cfg, s) && Fetched(cfg, s) && Q.Lawful(cfg.maxsize, s.q)
    requires 1 <= at <= |s.store| && at > cfg.cursor && s.store[at - 1].session == cfg.session
    ensures s.store[at - 1] in s.emitted || Coming(cfg, s, at) || Gone(cfg, s, at)
  {
    var x := s.store[at - 1];
    if at <= s.reader.stored {
      var lo := Clip(cfg.cursor, s.reader.stored);
      if at <= lo + cfg.limit {
        assert s.reader.page[at - 1 - lo] == x;
        PageEmission(cfg, s, at - 1 - lo);
      }
    } else {
      assert Reaches(cfg, s, at);
      if x in s.q.log {
        LogEmission(cfg, s, x);
      }
    }
  }

  /** In every run, once the page is fetched, every stored event of the session past the cursor has
      been emitted, is still coming, or is lost in one of the three named ways. */
  lemma EveryEventAccounted(cfg: Config, ev: seq<Step>, at: nat)
    requires cfg.maxsize >= 1
    requires var s := After(cfg, ev);
             HasPage(s) && 1 <= at <= |s.store| && at > cfg.cursor && s.store[at - 1].session == cfg.session
    ensures var s := After(cfg, ev);
            s.store[at - 1] in s.emitted || Coming(cfg, s, at) || Gone(cfg, s, at)
  {
    AlwaysWired(cfg, ev);
    ReaderHistory(cfg, ev);
    Accounted(cfg, After(cfg, ev), at);
  }

  lemma PageEmission(cfg: Config, s: State, i: nat)
    requires (s.reader.Replaying? || s.reader.Tailing?) && Emissions(cfg, s)
    requires i < |s.reader.page| && s.reader.page[i].session == cfg.session
    ensures || s.reader.page[i] in s.emitted
            || (s.reader.Replaying? && s.reader.page[i] in s.reader.page[Clip(s.reader.pos, |s.reader.page|)..])
  {
    var page := s.reader.page;
    if s.reader.Tailing? {
      MineHas(cfg, page, page[i], false);
    } else if i < s.reader.pos {
      assert page[..s.reader.pos][i] == page[i];
      MineHas(cfg, page[..s.reader.pos], page[i], false);
    } else {
      assert page[s.reader.pos..][i - s.reader.pos] == page[i];
    }
  }

  lemma LogEmission(cfg: Config, s: State, x: Event)
    requires (s.reader.Replaying? || s.reader.Tailing?) && Emissions(cfg, s) && Q.Lawful(cfg.maxsize, s.q)
    requires x in s.q.log && x.session == cfg.session
    ensures x in s.emitted || x in s.q.items || x in Q.Kept(s.q.log, s.q.fates, false)
  {
    var i :| 0 <= i < |s.q.log| && s.q.log[i] == x;
    if i < |s.q.fates| {
      LogPlaces(s.q.log, s.q.fates, i);
      if x in s.q.yielded {
        assert s.reader.Tailing?;
        MineHas(cfg, s.q.yielded, x, true);
      }
    } else {
      assert s.q.items[i - |s.q.fates|] == x;
    }
  }

  /** No gap: once the publishers have finished and the reader has drained its queue, every stored
      event of its session past its cursor has been emitted, if at most `limit` events were stored
      past the cursor when the page was fetched, nothing was dropped from the live queue, and no
      fan-out passed over the reader. */
  lemma NoGap(cfg: Config, ev: seq<Step>, at: nat)
    requires cfg.maxsize >= 1
    requires var s := After(cfg, ev);
             && s.reader.Tailing? && s.pubs == map[] && s.q.items == []
             && s.reader.stored <= Clip(cfg.cursor, s.reader.stored) + cfg.limit
             && s.q.dropped == 0 && s.skipped == {}
             && 1 <= at <= |s.store| && at > cfg.cursor && s.store[at - 1].session == cfg.session
    ensures After(cfg, ev).store[at - 1] in After(cfg, ev).emitted
  {
    EveryEventAccounted(cfg, ev, at);
    ReaderHistory(cfg, ev);
  }

  /** Nothing on the reader's side holds the event any more and no publisher carries it. */
  predicate Absent(s: State, x: Event) {
    && HasPage(s) && x !in s.emitted && x !in s.q.items
    && (s.reader.Replaying? ==> x !in s.reader.page[Clip(s.reader.pos, |s.reader.page|)..])
    && (forall p <- s.pubs :: s.pubs[p].ev != x)
  }

  lemma SuffixShrinks<T>(s: seq<T>, i: nat, x: T)
    requires i < |s| && x !in s[i..]
    ensures x != s[i] && x !in s[i + 1..]
  {
    assert s[i..][0] == s[i];
    assert s[i + 1..] == s[i..][1..];
  }

  lemma AbsentStep(cfg: Config, s: State, e: Step, x: Event)
    requires cfg.maxsize >= 1 && Absent(s, x) && !(e.Publish? && e.ev == x)
    ensures Absent(Apply(cfg, s, e), x)
  {
    if e.EmitReplay? {
      if s.reader.Replaying? && s.reader.pos < |s.reader.page| {
        SuffixShrinks(s.reader.page, s.reader.pos, x);
      }
    } else if !ReaderStep(e) {
      ReaderFrame(cfg, s, e);
    }
  }

  /** An event that is lost stays lost for this reader: unless it is published again, no run emits
      it. */
  lemma {:induction false} LostForGood(cfg: Config, ev: seq<Step>, n: nat, x: Event)
    requires cfg.maxsize >= 1 && n <= |ev| && Absent(After(cfg, ev[..n]), x)
    requires forall i :: n <= i < |ev| ==> !(ev[i].Publish? && ev[i].ev == x)
    ensures x !in After(cfg, ev).emitted && Absent(After(cfg, ev), x)
  {
    if n == |ev| {
      assert ev[..n] == ev;
    } else {
      var before := ev[..|ev| - 1];
      assert before[..n] == ev[..n];
      LostForGood(cfg, before, n, x);
      AbsentStep(cfg, After(cfg, before), ev[|ev| - 1], x);
    }
  }

  // ---------------------------------------------------------------- runs that leak or lose

  lemma AfterThen(cfg: Config, ev: seq<Step>, e: Step)
    requires cfg.maxsize >= 1
    ensures After(cfg, ev + [e]) == Apply(cfg, After(cfg, ev), e)
  {
    assert (ev + [e])[..|ev|] == ev;
  }

  lemma AfterThree(cfg: Config, ev: seq<Step>, a: Step, b: Step, c: Step)
    requires cfg.maxsize >= 1
    ensures After(cfg, ev + [a] + [b] + [c]) == Apply(cfg, Apply(cfg, Apply(cfg, After(cfg, ev), a), b), c)
  {
    AfterThen(cfg, ev, a);
    AfterThen(cfg, ev + [a], b);
    AfterThen(cfg, ev + [a] + [b], c);
  }

  /** Publish durable events one after the other, with nobody subscribed. */
  function StoreAll(es: seq<Event>): seq<Step> {
    if es == [] then []
    else StoreAll(es[..|es| - 1]) + [Publish(0, es[|es| - 1])] + [Persist(0)] + [Finish(0)]
  }

  lemma StoreOne(cfg: Config, store: seq<Event>, x: Event)
    requires cfg.maxsize >= 1 && x.durable
    ensures Apply(cfg, Apply(cfg, Apply(cfg, Start.(store := store), Publish(0, x)), Persist(0)), Finish(0))
         == Start.(store := store + [x])
  {
    var s := Start.(store := store, pubs := map[0 := Storing(x)]);
    assert Apply(cfg, Start.(store := store), Publish(0, x)) == s;
    var t := Start.(store := store + [x], pubs := map[0 := Fan(x, |store| + 1, 0)]);
    assert map[0 := Storing(x)][0 := Fan(x, |store| + 1, 0)] == t.pubs;
    assert Apply(cfg, s, Persist(0)) == t;
    assert t.pubs - {0} == map[];
  }

  lemma {:induction false} StoredAll(cfg: Config, es: seq<Event>)
    requires cfg.maxsize >= 1 && forall x <- es :: x.durable
    ensures After(cfg, StoreAll(es)) == Start.(store := es)
  {
    if es != [] {
      var n := |es| - 1;
      var ev := StoreAll(es[..n]);
      assert es[n] in es;
      StoredAll(cfg, es[..n]);
      StoreOne(cfg, es[..n], es[n]);
      AfterThree(cfg, ev, Publish(0, es[n]), Persist(0), Finish(0));
      assert es[..n] + [es[n]] == es;
    }
  }

  /** A reader that subscribes and fetches its page from a store nobody writes to any more. */
  function ReadAll(es: seq<Event>): seq<Step> {
    StoreAll(es) + [Subscribe] + [FetchPage]
  }

  lemma SubscribeStep(cfg: Config, store: seq<Event>, others: seq<SubId>)
    requires cfg.maxsize >= 1
    ensures Apply(cfg, Start.(store := store, subs := others), Subscribe)
         == Start.(store := store, subs := others + [cfg.me], since := |store|, reader := Subscribed)
  {
  }

  lemma FetchStep(cfg: Config, s: State)
    requires cfg.maxsize >= 1 && s.reader.Subscribed?
    ensures Apply(cfg, s, FetchPage) == s.(reader := Replaying(Page(s.store, cfg.cursor, cfg.limit), 0, |s.store|))
  {
  }

  lemma PageFetched(cfg: Config, es: seq<Event>)
    requires cfg.maxsize >= 1 && forall x <- es :: x.durable
    ensures After(cfg, ReadAll(es))
         == Start.(store := es, subs := [] + [cfg.me], since := |es|,
             reader := Replaying(Page(es, cfg.cursor, cfg.limit), 0, |es|))
  {
    StoredAll(cfg, es);
    SubscribeStep(cfg, es, []);
    AfterThen(cfg, StoreAll(es), Subscribe);
    FetchStep(cfg, After(cfg, StoreAll(es) + [Subscribe]));
    AfterThen(cfg, StoreAll(es) + [Subscribe], FetchPage);
  }

  /** A stored row without a session, the key-rotation broadcast say, reaches the feed of any session
      that resumes before it, although the feed of a session is documented to ignore such events. */
  lemma SessionlessRowLeaks(cfg: Config, x: Event)
    requires cfg.maxsize >= 1 && cfg.rowReplay && cfg.cursor <= 0 && cfg.limit >= 1
    requires x.durable && x.session == "" && cfg.session != ""
    ensures After(cfg, ReadAll([x]) + [EmitReplay]).emitted == [x]
  {
    PageFetched(cfg, [x]);
    assert Page([x], cfg.cursor, cfg.limit) == [x];
    AfterThen(cfg, ReadAll([x]), EmitReplay);
  }

  /** Loss by the page limit: with one event more than the limit past the cursor, the last one is not
      in the page and no run emits it unless it is published again. */
  lemma PageLimitLoses(cfg: Config, es: seq<Event>, x: Event)
    requires cfg.maxsize >= 1 && cfg.cursor <= 0 && |es| == cfg.limit && x !in es
    requires forall y <- es + [x] :: y.durable
    ensures Absent(After(cfg, ReadAll(es + [x])), x)
  {
    PageFetched(cfg, es + [x]);
    assert Page(es + [x], cfg.cursor, cfg.limit) == es;
    assert es[0..] == es;
  }

  /** A reader that tails an empty store behind the given subscribers. */
  function Tailer(cfg: Config, others: seq<SubId>): State {
    Start.(subs := others + [cfg.me], reader := Tailing([], 0))
  }

  /** Subscribe to an empty store, fetch the empty page, and tail. */
  function TailAfter(ev: seq<Step>): seq<Step> {
    ev + [Subscribe] + [FetchPage] + [StartTail]
  }

  lemma Tails(cfg: Config, ev: seq<Step>, others: seq<SubId>)
    requires cfg.maxsize >= 1 && After(cfg, ev) == Start.(subs := others)
    ensures After(cfg, TailAfter(ev)) == Tailer(cfg, others)
  {
    SubscribeStep(cfg, [], others);
    AfterThen(cfg, ev, Subscribe);
    FetchStep(cfg, After(cfg, ev + [Subscribe]));
    AfterThen(cfg, ev + [Subscribe], FetchPage);
    assert Page([], cfg.cursor, cfg.limit) == [];
    AfterThen(cfg, ev + [Subscribe] + [FetchPage], StartTail);
  }

  /** The reader tails with nothing emitted; one event is stored and no publisher is at work. */
  predicate Idle(cfg: Config, s: State, x: Event) {
    && s.store == [x] && s.subs == [cfg.me] && s.pubs == map[] && s.reader == Tailing([], 0) && s.emitted == []
  }

  function QueueRun(x: Event): seq<Step> {
    TailAfter([]) + [Publish(0, x)] + [Persist(0)] + [Advance(0)] + [Finish(0)]
  }

  lemma QueueSteps(cfg: Config, x: Event)
    requires cfg.maxsize >= 1 && x.durable
    ensures var s := Apply(cfg, Apply(cfg, Apply(cfg, Tailer(cfg, []), Publish(0, x)), Persist(0)), Advance(0));
            Idle(cfg, Apply(cfg, s, Finish(0)), x) && Apply(cfg, s, Finish(0)).q.items == [x]
  {
    var s := Tailer(cfg, []).(pubs := map[0 := Storing(x)]);
    assert Apply(cfg, Tailer(cfg, []), Publish(0, x)) == s;
    s := Apply(cfg, s, Persist(0));
    assert s.pubs == map[0 := Fan(x, 1, 0)] && s.store == [x];
    s := Apply(cfg, s, Advance(0));
    assert s.pubs == map[0 := Fan(x, 1, 1)] && s.q.items == [x];
  }

  lemma DurableQueued(cfg: Config, x: Event)
    requires cfg.maxsize >= 1 && x.durable
    ensures Idle(cfg, After(cfg, QueueRun(x)), x) && After(cfg, QueueRun(x)).q.items == [x]
  {
    var ev := TailAfter([]);
    Tails(cfg, [], []);
    QueueSteps(cfg, x);
    AfterThree(cfg, ev, Publish(0, x), Persist(0), Advance(0));
    AfterThen(cfg, ev + [Publish(0, x)] + [Persist(0)] + [Advance(0)], Finish(0));
  }

  /** Lossy events are published one after the other while the reader takes nothing. */
  function LossyOne(ev: seq<Step>, y: Event): seq<Step> {
    ev + [Publish(1, y)] + [Advance(1)] + [Finish(1)]
  }

  function LossyRun(ev: seq<Step>, ys: seq<Event>): seq<Step> {
    if ys == [] then ev else LossyOne(LossyRun(ev, ys[..|ys| - 1]), ys[|ys| - 1])
  }

  lemma LossyStep(cfg: Config, s: State, x: Event, y: Event)
    requires cfg.maxsize >= 1 && Idle(cfg, s, x) && !y.durable
    ensures var t := Apply(cfg, Apply(cfg, Apply(cfg, s, Publish(1, y)), Advance(1)), Finish(1));
            && Idle(cfg, t, x)
            && t.q.items == (if |s.q.items| >= cfg.maxsize then s.q.items[1..] else s.q.items) + [y]
  {
    var a := Apply(cfg, s, Publish(1, y));
    assert a.pubs == map[1 := Fan(y, 0, 0)] && a.subs == [cfg.me];
    var b := Apply(cfg, a, Advance(1));
    assert b.pubs == map[1 := Fan(y, 0, 1)];
  }

  lemma LossyNext(cfg: Config, s: State, x: Event, ys: seq<Event>, y: Event)
    requires cfg.maxsize >= 1 && Idle(cfg, s, x) && !y.durable && |ys| < cfg.maxsize && s.q.items == [x] + ys
    ensures var t := Apply(cfg, Apply(cfg, Apply(cfg, s, Publish(1, y)), Advance(1)), Finish(1));
            Idle(cfg, t, x) && t.q.items == if |ys| + 1 < cfg.maxsize then [x] + (ys + [y]) else ys + [y]
  {
    LossyStep(cfg, s, x, y);
    assert [x] + (ys + [y]) == [x] + ys + [y];
    assert ([x] + ys)[1..] == ys;
  }

  /** After `ys` the queue holds the durable event and `ys`, or only `ys` once they fill it. */
  predicate Filled(cfg: Config, s: State, x: Event, ys: seq<Event>) {
    Idle(cfg, s, x) && s.q.items == if |ys| < cfg.maxsize then [x] + ys else ys
  }

  lemma LossyExtends(cfg: Config, ev: seq<Step>, x: Event, ys: seq<Event>, y: Event)
    requires cfg.maxsize >= 1 && Filled(cfg, After(cfg, ev), x, ys) && !y.durable && |ys| < cfg.maxsize
    ensures Filled(cfg, After(cfg, LossyOne(ev, y)), x, ys + [y])
  {
    LossyNext(cfg, After(cfg, ev), x, ys, y);
    AfterThree(cfg, ev, Publish(1, y), Advance(1), Finish(1));
  }

  lemma {:induction false} LossyFills(cfg: Config, ev: seq<Step>, x: Event, ys: seq<Event>)
    requires cfg.maxsize >= 1 && Filled(cfg, After(cfg, ev), x, [])
    requires |ys| <= cfg.maxsize && forall y <- ys :: !y.durable
    ensures Filled(cfg, After(cfg, LossyRun(ev, ys)), x, ys)
  {
    if ys != [] {
      var before, y := ys[..|ys| - 1], ys[|ys| - 1];
      assert y in ys;
      LossyFills(cfg, ev, x, before);
      assert before + [y] == ys;
      assert LossyRun(ev, ys) == LossyOne(LossyRun(ev, before), y);
      LossyExtends(cfg, LossyRun(ev, before), x, before, y);
    }
  }

  /** Loss by eviction, for every size of the reader's queue: as many lossy events as it holds drop a
      durable one. */
  lemma EvictionLoses(cfg: Config, x: Event, ys: seq<Event>)
    requires cfg.maxsize >= 1 && x.durable && |ys| == cfg.maxsize && forall y <- ys :: !y.durable
    ensures var s := After(cfg, LossyRun(QueueRun(x), ys));
            Absent(s, x) && s.store == [x]
  {
    DurableQueued(cfg, x);
    assert [x] + [] == [x];
    LossyFills(cfg, QueueRun(x), x, ys);
  }

  function PassingRun(x: SubId, y: Event): seq<Step> {
    TailAfter([SubscribeOther(x)]) + [Publish(0, y)] + [Persist(0)] + [Advance(0)] + [UnsubscribeOther(x)] + [Finish(0)]
  }

  lemma PassStep(cfg: Config, x: SubId, y: Event)
    requires cfg.maxsize >= 1 && x != cfg.me && y.durable
    ensures var a := Apply(cfg, Apply(cfg, Apply(cfg, Tailer(cfg, [x]), Publish(0, y)), Persist(0)), Advance(0));
            a == Tailer(cfg, [x]).(store := [y], pubs := map[0 := Fan(y, 1, 1)])
  {
    var s := Tailer(cfg, [x]).(pubs := map[0 := Storing(y)]);
    assert Apply(cfg, Tailer(cfg, [x]), Publish(0, y)) == s;
    var t := Tailer(cfg, [x]).(store := [y], pubs := map[0 := Fan(y, 1, 0)]);
    assert s.pubs[0 := Fan(y, 1, 0)] == t.pubs && [] + [y] == [y];
    assert Apply(cfg, s, Persist(0)) == t;
    assert t.pubs[0 := Fan(y, 1, 1)] == map[0 := Fan(y, 1, 1)];
  }

  /** One fan-out about to reach the reader is passed over when the subscriber before it leaves. */
  lemma PassedOne(cfg: Config, s: State, x: SubId, y: Event)
    requires x != cfg.me && s.subs == [x, cfg.me] && s.pubs == map[0 := Fan(y, 1, 1)]
    ensures Index(s.subs, x) == 0 && Index(s.subs, cfg.me) == 1 && PassedOver(cfg, s, 0) == {1}
  {
    assert Index(s.subs, x) == 0 && Index(s.subs, cfg.me) == 1;
    assert s.pubs[0].at in PassedOver(cfg, s, 0);
  }

  lemma LeaveStep(cfg: Config, s: State, x: SubId, y: Event)
    requires cfg.maxsize >= 1 && x != cfg.me && y.durable
    requires s == Tailer(cfg, [x]).(store := [y], pubs := map[0 := Fan(y, 1, 1)])
    ensures var t := Apply(cfg, Apply(cfg, s, UnsubscribeOther(x)), Finish(0));
            Absent(t, y) && t.store == [y] && t.skipped == {1} && t.q.dropped == 0
  {
    assert s.subs == [x, cfg.me];
    PassedOne(cfg, s, x, y);
    var left := s.(subs := s.subs[..0] + s.subs[1..], skipped := {} + {1});
    assert Apply(cfg, s, UnsubscribeOther(x)) == left;
    assert |left.subs| == 1;
    assert Apply(cfg, left, Finish(0)) == left.(pubs := left.pubs - {0});
  }

  /** Loss by a fan-out that passes over the reader: a subscriber ahead of it leaves while the
      publisher is suspended there. Nothing was evicted and the page was complete. */
  lemma PassingOverLoses(cfg: Config, x: SubId, y: Event)
    requires cfg.maxsize >= 1 && x != cfg.me && y.durable
    ensures var t := After(cfg, PassingRun(x, y));
            Absent(t, y) && t.store == [y] && t.skipped == {1} && t.q.dropped == 0
  {
    var e0 := [SubscribeOther(x)];
    AfterThen(cfg, [], SubscribeOther(x));
    assert [] + e0 == e0 && [] + [x] == [x];
    Tails(cfg, e0, [x]);
    var e1 := TailAfter(e0);
    var e2 := e1 + [Publish(0, y)];
    var e3 := e2 + [Persist(0)];
    var e4 := e3 + [Advance(0)];
    AfterThen(cfg, e1, Publish(0, y));
    AfterThen(cfg, e2, Persist(0));
    AfterThen(cfg, e3, Advance(0));
    PassStep(cfg, x, y);
    LeaveStep(cfg, After(cfg, e4), x, y);
    AfterThen(cfg, e4, UnsubscribeOther(x));
    AfterThen(cfg, e4 + [UnsubscribeOther(x)], Finish(0));
  }

  // ---------------------------------------------------------------- reconnecting

  /** A client that reconnects with the id of an event it was replayed has no gap: every stored event of
      the session past its first cursor was emitted to the first connection, or is accounted for in
      the second. */
  lemma ReconnectAfterReplay(cfg: Config, ev: seq<Step>, n: nat, eventId: string, cfg': Config, ev': seq<Step>, at: nat)
    requires cfg.maxsize >= 1 && cfg'.maxsize >= 1 && cfg'.session == cfg.session
    requires var s, s' := After(cfg, ev), After(cfg', ev');
             && HasPage(s) && HasPage(s') && s.store <= s'.store
             && n <= Clip(cfg.cursor, s.reader.stored) + |Shown(s)|
             && 1 <= at <= |s'.store| && at > cfg.cursor && s'.store[at - 1].session == cfg.session
    requires cfg'.cursor == n
    ensures R.ParseDurable(Some(R.ReplayId(n, eventId))) == Some(cfg'.cursor)
    ensures var s, s' := After(cfg, ev), After(cfg', ev');
            s'.store[at - 1] in s.emitted || s'.store[at - 1] in s'.emitted || Coming(cfg', s', at)
                || Gone(cfg', s', at)
  {
    R.ReplayIdRoundTrip(n, eventId);
    if at > n {
      EveryEventAccounted(cfg', ev', at);
    } else {
      ReaderHistory(cfg, ev);
      ShownIsEmitted(cfg, After(cfg, ev), at);
    }
  }

  /** What the reader went through is a stretch of the store that starts after its cursor. */
  lemma ShownIsStored(cfg: Config, s: State, at: nat)
    requires HasPage(s) && Fetched(cfg, s) && 1 <= at && at > cfg.cursor
    requires at <= Clip(cfg.cursor, s.reader.stored) + |Shown(s)|
    ensures Clip(cfg.cursor, s.reader.stored) < at <= |s.store|
    ensures Shown(s)[at - 1 - Clip(cfg.cursor, s.reader.stored)] == s.store[at - 1]
  {
    var lo := Clip(cfg.cursor, s.reader.stored);
    var page := s.reader.page;
    assert |Shown(s)| <= |page| && Shown(s) == page[..|Shown(s)|];
    assert page[at - 1 - lo] == s.store[..s.reader.stored][at - 1];
  }

  lemma ShownEmission(cfg: Config, s: State, i: nat)
    requires HasPage(s) && Emissions(cfg, s) && i < |Shown(s)| && Shown(s)[i].session == cfg.session
    ensures Shown(s)[i] in s.emitted
  {
    MineHas(cfg, Shown(s), Shown(s)[i], false);
  }

  /** Everything up to the position of the reader in its page has been emitted. */
  lemma ShownIsEmitted(cfg: Config, s: State, at: nat)
    requires HasPage(s) && Fetched(cfg, s) && Emissions(cfg, s) && 1 <= at && at > cfg.cursor
    requires at <= Clip(cfg.cursor, s.reader.stored) + |Shown(s)|
    ensures at <= |s.store|
    ensures s.store[at - 1].session == cfg.session ==> s.store[at - 1] in s.emitted
  {
    ShownIsStored(cfg, s, at);
    if s.store[at - 1].session == cfg.session {
      ShownEmission(cfg, s, at - 1 - Clip(cfg.cursor, s.reader.stored));
    }
  }

  /** The id of a live event is no durable cursor, so a client that reconnects with one is replayed
      nothing, and an event stored while it was away is lost to it. A reader without a cursor is one
      whose page is limited to nothing. */
  lemma ReconnectAfterLive(cfg: Config, eventId: string, x: Event)
    requires ':' !in eventId
    requires cfg.maxsize >= 1 && cfg.limit == 0 && cfg.cursor <= 0 && x.durable
    ensures R.ParseDurable(Some(eventId)) == None
    ensures Absent(After(cfg, ReadAll([] + [x])), x)
  {
    R.LiveIdIsNoCursor(eventId);
    PageLimitLoses(cfg, [], x);
  }

  // ---------------------------------------------------------------- the page is what the store returns

  function TableOf(store: seq<Event>): (rows: map<nat, Event>)
    ensures forall n: nat :: n in rows <==> 1 <= n <= |store|
    ensures forall i :: 0 <= i < |store| ==> rows[i + 1] == store[i]
  {
    if store == [] then map[]
    else
      var n := |store|;
      assert forall i :: 0 <= i < n - 1 ==> store[..n - 1][i] == store[i];
      TableOf(store[..n - 1])[n := store[n - 1]]
  }

  function ListOf(store: seq<Event>): seq<(nat, Event)> {
    seq(|store|, i requires 0 <= i < |store| => (i + 1, store[i]))
  }

  lemma PastThen(events: seq<(nat, Event)>, x: (nat, Event), cursor: int)
    ensures D.Past(events + [x], cursor) == D.Past(events, cursor) + (if x.0 > cursor then [x.1] else [])
  {
    assert (events + [x])[..|events|] == events;
  }

  /** The stretch past the cursor, one event longer. */
  lemma SliceThen(store: seq<Event>, cursor: int, hi: nat)
    requires 0 < hi <= |store|
    ensures store[Clip(cursor, hi)..hi]
         == store[Clip(cursor, hi - 1)..hi - 1] + (if hi > cursor then [store[hi - 1]] else [])
  {
  }

  lemma {:induction false} PastIsSlice(store: seq<Event>, cursor: int, hi: nat)
    requires hi <= |store|
    ensures D.Past(ListOf(store)[..hi], cursor) == store[Clip(cursor, hi)..hi]
  {
    if hi > 0 {
      PastIsSlice(store, cursor, hi - 1);
      var l := ListOf(store);
      assert l[..hi] == l[..hi - 1] + [(hi, store[hi - 1])];
      PastThen(l[..hi - 1], (hi, store[hi - 1]), cursor);
      SliceThen(store, cursor, hi);
    }
  }

  lemma SliceTakes(store: seq<Event>, cursor: int, limit: nat)
    ensures D.Take(store[Clip(cursor, |store|)..], limit) == Page(store, cursor, limit)
  {
    var lo := Clip(cursor, |store|);
    assert lo + limit <= |store| ==> store[lo..][..limit] == store[lo..lo + limit];
  }

  lemma ListedAndTabled(store: seq<Event>)
    ensures D.Same(D.Mem(ListOf(store), |store| + 1), TableOf(store))
  {
  }

  /** Both store implementations hand the reader exactly this page. */
  lemma PageIsFetch(store: seq<Event>, cursor: int, limit: nat)
    ensures (forall n <- D.Fetch(TableOf(store), cursor, limit) :: n in TableOf(store))
    ensures D.Rows(TableOf(store), D.Fetch(TableOf(store), cursor, limit)) == Page(store, cursor, limit)
    ensures D.Take(D.Past(ListOf(store), cursor), limit) == Page(store, cursor, limit)
  {
    ListedAndTabled(store);
    D.FetchAgrees(D.Mem(ListOf(store), |store| + 1), TableOf(store), cursor, limit);
    PastIsSlice(store, cursor, |store|);
    assert ListOf(store)[..|store|] == ListOf(store);
    assert store[Clip(cursor, |store|)..|store|] == store[Clip(cursor, |store|)..];
    SliceTakes(store, cursor, limit);
  }
}
