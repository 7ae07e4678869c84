/** One subscriber of the in-process event bus: a bounded deque that drops its oldest item, and
    publishers of durable events that wait for room. */
module EventQueue {
  import opened Basics

  datatype Tier = Lossy | Durable

  /** `log` is everything ever appended, `tiers` the tier of each; `fates` tells for each item that
      has left the front whether the consumer got it (true) or it was dropped. */
  datatype Queue<T> = Queue(
    items: seq<T>,
    dropped: nat,
    durableDropped: nat,
    drained: bool,
    log: seq<T>,
    tiers: seq<Tier>,
    fates: seq<bool>,
    yielded: seq<T>)

  function Empty<T>(): Queue<T> {
    Queue([], 0, 0, false, [], [], [], [])
  }

  predicate Full<T>(maxsize: nat, q: Queue<T>) {
    |q.items| >= maxsize
  }

  /** With `maxsize` 0 the empty queue is full, and making room pops an empty deque. */
  predicate Raises<T>(maxsize: nat, q: Queue<T>) {
    Full(maxsize, q) && q.items == []
  }

  function Evict<T>(q: Queue<T>): Queue<T>
    requires q.items != []
  {
    q.(items := q.items[1..], dropped := q.dropped + 1, fates := q.fates + [false])
  }

  /** The tail of a dispatch: make room if the queue is (still) full, then append. */
  function Put<T>(maxsize: nat, q: Queue<T>, x: T, tier: Tier): Queue<T> {
    if Raises(maxsize, q) then q
    else
      var r := if Full(maxsize, q) then Evict(q) else q;
      r.(items := r.items + [x], log := r.log + [x], tiers := r.tiers + [tier])
  }

  function Pop<T>(maxsize: nat, q: Queue<T>): Queue<T>
    requires q.items != []
  {
    q.(items := q.items[1..], drained := q.drained || Full(maxsize, q),
       fates := q.fates + [true], yielded := q.yielded + [q.items[0]])
  }

  /** A publisher that finds the queue full with a durable event waits; every other one puts. */
  predicate Blocks<T>(maxsize: nat, q: Queue<T>, tier: Tier, mayBlock: bool) {
    Full(maxsize, q) && tier == Durable && mayBlock
  }

  function Charge<T>(q: Queue<T>, timedOut: bool): Queue<T> {
    if timedOut then q.(durableDropped := q.durableDropped + 1) else q
  }

  // ---------------------------------------------------------------- the object

  datatype Offered = Waits | Appended | IndexError

  class Sub<T> {
    const maxsize: nat
    var items: seq<T>
    var drained: bool
    var dropped: nat
    var durableDropped: nat
    ghost var log: seq<T>
    ghost var tiers: seq<Tier>
    ghost var fates: seq<bool>
    ghost var yielded: seq<T>

    ghost function View(): Queue<T>
      reads this
    {
      Queue(items, dropped, durableDropped, drained, log, tiers, fates, yielded)
    }

    constructor (maxsize: nat)
      ensures this.maxsize == maxsize && View() == Empty<T>()
    {
      this.maxsize := maxsize;
      items, drained, dropped, durableDropped := [], false, 0, 0;
      log, tiers, fates, yielded := [], [], [], [];
    }

    /** The first stretch of `_dispatch` for this subscriber. */
    method Offer(x: T, tier: Tier, mayBlock: bool) returns (r: Offered)
      modifies this
      ensures r.Waits? <==> old(|items|) >= maxsize && tier == Durable && mayBlock
      ensures r.Waits? ==> View() == old(View()).(drained := false)
      ensures r.Appended? ==> items == (old(items) + [x])[(if old(|items|) >= maxsize then 1 else 0)..]
      ensures r.IndexError? ==> maxsize == 0 && View() == old(View())
      ensures !r.Waits? ==> View() == Put(maxsize, old(View()), x, tier)
    {
      if |items| >= maxsize && tier == Durable && mayBlock {
        drained := false;
        return Waits;
      }
      var ok := Append(x, tier);
      r := if ok then Appended else IndexError;
    }

    /** The stretch after the wait. */
    method AfterWait(x: T, timedOut: bool) returns (ok: bool)
      modifies this
      ensures View() == Put(maxsize, Charge(old(View()), timedOut), x, Durable)
      ensures ok <==> !old(Raises(maxsize, View()))
    {
      if timedOut {
        durableDropped := durableDropped + 1;
      }
      ok := Append(x, Durable);
    }

    method Append(x: T, tier: Tier) returns (ok: bool)
      modifies this
      ensures View() == Put(maxsize, old(View()), x, tier)
      ensures ok <==> !old(Raises(maxsize, View()))
    {
      if |items| >= maxsize {
        if items == [] {
          return false;
        }
        items, dropped, fates := items[1..], dropped + 1, fates + [false];
      }
      items, log, tiers := items + [x], log + [x], tiers + [tier];
      ok := true;
    }

    /** The consumer takes the oldest item; `signals` says that it wakes the waiting publishers. */
    method Next() returns (x: T, signals: bool)
      requires items != []
      modifies this
      ensures x == old(items)[0] && View() == Pop(maxsize, old(View()))
      ensures items == old(items)[1..] && drained == (old(drained) || old(|items|) >= maxsize)
      ensures signals <==> old(|items|) >= maxsize && !old(drained)
    {
      var wasFull := |items| >= maxsize;
      x, items := items[0], items[1..];
      signals := wasFull && !drained;
      if signals {
        drained := true;
      }
      fates, yielded := fates + [true], yielded + [x];
    }
  }

  // ---------------------------------------------------------------- the law

  type PubId = nat

  /** A publisher of a durable event that waits; `woken` once `drained` was set while it waited. */
  datatype Waiter<T> = Waiter(x: T, woken: bool)

  datatype State<T> = State(q: Queue<T>, waiting: map<PubId, Waiter<T>>)

  datatype Step<T> =
    | Publish(p: PubId, x: T, tier: Tier, mayBlock: bool)
    | Wake(p: PubId, timedOut: bool)
    | Consume

  /** A publish that does not wait, or a wake-up: of a woken publisher, or by timeout. */
  predicate Puts<T>(maxsize: nat, s: State<T>, e: Step<T>) {
    match e
    case Publish(p, _, tier, mayBlock) => p !in s.waiting && !Blocks(maxsize, s.q, tier, mayBlock)
    case Wake(p, timedOut) => p in s.waiting && (timedOut || s.waiting[p].woken)
    case Consume => false
  }

  function Signal<T>(ws: map<PubId, Waiter<T>>): map<PubId, Waiter<T>> {
    map p | p in ws :: ws[p].(woken := true)
  }

  function Apply<T>(maxsize: nat, s: State<T>, e: Step<T>): State<T> {
    match e
    case Publish(p, x, tier, mayBlock) =>
      if Puts(maxsize, s, e) then s.(q := Put(maxsize, s.q, x, tier))
      else if p in s.waiting then s
      else State(s.q.(drained := false), s.waiting[p := Waiter(x, false)])
    case Wake(p, timedOut) =>
      if Puts(maxsize, s, e) then State(Put(maxsize, Charge(s.q, timedOut), s.waiting[p].x, Durable), s.waiting - {p})
      else s
    case Consume =>
      if s.q.items == [] then s
      else State(Pop(maxsize, s.q), if Full(maxsize, s.q) && !s.q.drained then Signal(s.waiting) else s.waiting)
  }

  function After<T>(maxsize: nat, ev: seq<Step<T>>): State<T> {
    if ev == [] then State(Empty(), map[]) else Apply(maxsize, After(maxsize, ev[..|ev| - 1]), ev[|ev| - 1])
  }

  /** The object takes any step of the state machine; `waiting` is the table of suspended publishers. */
  method Take<T>(sub: Sub<T>, waiting: map<PubId, Waiter<T>>, e: Step<T>) returns (waiting': map<PubId, Waiter<T>>)
    modifies sub
    ensures State(sub.View(), waiting') == Apply(sub.maxsize, old(State(sub.View(), waiting)), e)
  {
    waiting' := waiting;
    match e {
      case Publish(p, x, tier, mayBlock) =>
        if p !in waiting {
          var r := sub.Offer(x, tier, mayBlock);
          if r.Waits? {
            waiting' := waiting[p := Waiter(x, false)];
          }
        }
      case Wake(p, timedOut) =>
        if p in waiting && (timedOut || waiting[p].woken) {
          var _ := sub.AfterWait(waiting[p].x, timedOut);
          waiting' := waiting - {p};
        }
      case Consume =>
        if sub.items != [] {
          var _, signals := sub.Next();
          if signals {
            waiting' := Signal(waiting);
          }
        }
    }
  }

  /** A durable publish on a blocking bus drops nothing in any state; a publisher that was not waiting
      waits afterwards exactly when the queue was full, and its event is otherwise appended. */
  lemma DurablePublishWaits<T>(maxsize: nat, s: State<T>, p: PubId, x: T)
    ensures var t := Apply(maxsize, s, Publish(p, x, Durable, true));
            && t.q.dropped == s.q.dropped && t.q.fates == s.q.fates && t.q.durableDropped == s.q.durableDropped
            && (p !in s.waiting ==>
                  && (p in t.waiting <==> |s.q.items| >= maxsize)
                  && (p in t.waiting ==> t.waiting[p] == Waiter(x, false) && t.q.log == s.q.log)
                  && (p !in t.waiting ==> t.q.log == s.q.log + [x] && t.q.items == s.q.items + [x]))
  {
  }

  /** A lossy publish never waits. */
  lemma LossyPublishPuts<T>(maxsize: nat, s: State<T>, p: PubId, x: T, mayBlock: bool)
    requires maxsize >= 1 && p !in s.waiting
    ensures var t := Apply(maxsize, s, Publish(p, x, Lossy, mayBlock));
            t.waiting == s.waiting && t.q.log == s.q.log + [x] && t.q.tiers == s.q.tiers + [Lossy]
  {
  }

  /** A waiting publisher goes on exactly by timeout or once woken, and it is woken exactly by a consumer
      that takes an item from a full queue; it then appends its event. */
  lemma WaiterGoesOnIff<T>(maxsize: nat, s: State<T>, p: PubId, timedOut: bool)
    requires p in s.waiting
    ensures var t := Apply(maxsize, s, Wake(p, timedOut));
            && (p !in t.waiting <==> timedOut || s.waiting[p].woken)
            && (p in t.waiting ==> t == s)
            && (p !in t.waiting && maxsize >= 1 ==> t.q.log == s.q.log + [s.waiting[p].x])
  {
  }

  lemma WokenIff<T>(maxsize: nat, s: State<T>, e: Step<T>, p: PubId)
    requires p in s.waiting && p in Apply(maxsize, s, e).waiting && !s.waiting[p].woken
    ensures Apply(maxsize, s, e).waiting[p].woken
       <==> e.Consume? && s.q.items != [] && |s.q.items| >= maxsize && !s.q.drained
  {
  }

  /** No wake-up is lost: while `drained` is set, every waiting publisher has been woken. */
  lemma {:induction false} NoLostWakeUp<T>(maxsize: nat, ev: seq<Step<T>>)
    ensures var s := After(maxsize, ev);
            s.q.drained ==> forall p <- s.waiting :: s.waiting[p].woken
  {
    if ev != [] {
      NoLostWakeUp(maxsize, ev[..|ev| - 1]);
    }
  }

  /** The items of a log that met the given fate, in order. */
  function Kept<T>(log: seq<T>, fates: seq<bool>, fate: bool): seq<T>
    requires |fates| <= |log|
  {
    if fates == [] then []
    else
      var n := |fates| - 1;
      Kept(log, fates[..n], fate) + (if fates[n] == fate then [log[n]] else [])
  }

  ghost predicate Lawful<T>(maxsize: nat, q: Queue<T>) {
    && |q.items| <= maxsize
    && |q.fates| + |q.items| == |q.log| == |q.tiers|
    && q.items == q.log[|q.fates|..]
    && q.yielded == Kept(q.log, q.fates, true)
    && q.dropped == |Kept(q.log, q.fates, false)|
  }

  lemma KeptStable<T>(log: seq<T>, x: T, fates: seq<bool>, fate: bool)
    requires |fates| <= |log|
    ensures Kept(log + [x], fates, fate) == Kept(log, fates, fate)
  {
  }

  lemma KeptSizes<T>(log: seq<T>, fates: seq<bool>)
    requires |fates| <= |log|
    ensures |Kept(log, fates, true)| + |Kept(log, fates, false)| == |fates|
  {
  }

  lemma KeptThen<T>(log: seq<T>, fates: seq<bool>, b: bool, fate: bool)
    requires |fates| < |log|
    ensures Kept(log, fates + [b], fate) == Kept(log, fates, fate) + (if b == fate then [log[|fates|]] else [])
  {
    assert (fates + [b])[..|fates|] == fates;
  }

  lemma EvictLawful<T>(maxsize: nat, q: Queue<T>)
    requires Lawful(maxsize, q) && q.items != []
    ensures Lawful(maxsize, Evict(q))
  {
    KeptThen(q.log, q.fates, false, true);
    KeptThen(q.log, q.fates, false, false);
  }

  lemma AppendLawful<T>(maxsize: nat, q: Queue<T>, x: T, tier: Tier)
    requires Lawful(maxsize, q) && !Full(maxsize, q)
    ensures Lawful(maxsize, q.(items := q.items + [x], log := q.log + [x], tiers := q.tiers + [tier]))
  {
    KeptStable(q.log, x, q.fates, true);
    KeptStable(q.log, x, q.fates, false);
    assert (q.log + [x])[|q.fates|..] == q.log[|q.fates|..] + [x];
  }

  lemma PutLawful<T>(maxsize: nat, q: Queue<T>, x: T, tier: Tier)
    requires Lawful(maxsize, q)
    ensures Lawful(maxsize, Put(maxsize, q, x, tier))
  {
    if !Raises(maxsize, q) {
      if Full(maxsize, q) {
        EvictLawful(maxsize, q);
      }
      AppendLawful(maxsize, if Full(maxsize, q) then Evict(q) else q, x, tier);
    }
  }

  lemma PopLawful<T>(maxsize: nat, q: Queue<T>)
    requires Lawful(maxsize, q) && q.items != []
    ensures Lawful(maxsize, Pop(maxsize, q))
  {
    KeptThen(q.log, q.fates, true, true);
    KeptThen(q.log, q.fates, true, false);
  }

  lemma StepLawful<T>(maxsize: nat, s: State<T>, e: Step<T>)
    requires Lawful(maxsize, s.q)
    ensures Lawful(maxsize, Apply(maxsize, s, e).q)
  {
    if e.Publish? && Puts(maxsize, s, e) {
      PutLawful(maxsize, s.q, e.x, e.tier);
    } else if e.Wake? && Puts(maxsize, s, e) {
      PutLawful(maxsize, Charge(s.q, e.timedOut), s.waiting[e.p].x, Durable);
    } else if e.Consume? && s.q.items != [] {
      PopLawful(maxsize, s.q);
    }
  }

  /** With any number of waiting publishers and any wake-up order: the buffer is bounded and is the
      end of the append log, the consumer gets exactly the undropped items in log order, and every
      appended item is yielded, dropped or buffered. */
  lemma {:induction false} QueueLaw<T>(maxsize: nat, ev: seq<Step<T>>)
    ensures var q := After(maxsize, ev).q;
            Lawful(maxsize, q) && |q.log| == |q.yielded| + q.dropped + |q.items|
  {
    if ev != [] {
      QueueLaw(maxsize, ev[..|ev| - 1]);
      StepLawful(maxsize, After(maxsize, ev[..|ev| - 1]), ev[|ev| - 1]);
    }
    var q := After(maxsize, ev).q;
    KeptSizes(q.log, q.fates);
  }

  // ---------------------------------------------------------------- durable drops

  /** Durable items among those that left the front undelivered. */
  function Lost(tiers: seq<Tier>, fates: seq<bool>): nat
    requires |fates| <= |tiers|
  {
    if fates == [] then 0
    else
      var n := |fates| - 1;
      Lost(tiers, fates[..n]) + (if !fates[n] && tiers[n] == Durable then 1 else 0)
  }

  predicate HeadDurable<T>(q: Queue<T>) {
    q.items != [] && |q.fates| < |q.tiers| && q.tiers[|q.fates|] == Durable
  }

  /** The step drops a durable item and counts no durable drop. */
  predicate Silent<T>(maxsize: nat, s: State<T>, e: Step<T>) {
    Puts(maxsize, s, e) && !(e.Wake? && e.timedOut) && Full(maxsize, s.q) && HeadDurable(s.q)
  }

  /** The step counts a durable drop and drops no durable item: room was made in the meantime, or the
      item at the head is lossy. */
  predicate Phantom<T>(maxsize: nat, s: State<T>, e: Step<T>) {
    Puts(maxsize, s, e) && e.Wake? && e.timedOut && !(Full(maxsize, s.q) && HeadDurable(s.q))
  }

  function Times<T>(maxsize: nat, ev: seq<Step<T>>, silent: bool): nat {
    if ev == [] then 0
    else
      var s, e := After(maxsize, ev[..|ev| - 1]), ev[|ev| - 1];
      Times(maxsize, ev[..|ev| - 1], silent)
      + (if (if silent then Silent(maxsize, s, e) else Phantom(maxsize, s, e)) then 1 else 0)
  }

  lemma {:induction false} LostStable(tiers: seq<Tier>, tier: Tier, fates: seq<bool>)
    requires |fates| <= |tiers|
    ensures Lost(tiers + [tier], fates) == Lost(tiers, fates)
  {
    if fates != [] {
      LostStable(tiers, tier, fates[..|fates| - 1]);
    }
  }

  lemma LostThen(tiers: seq<Tier>, fates: seq<bool>, b: bool)
    requires |fates| < |tiers|
    ensures Lost(tiers, fates + [b]) == Lost(tiers, fates) + (if !b && tiers[|fates|] == Durable then 1 else 0)
  {
    assert (fates + [b])[..|fates|] == fates;
  }

  lemma PutLost<T>(maxsize: nat, q: Queue<T>, x: T, tier: Tier)
    requires Lawful(maxsize, q)
    ensures Lawful(maxsize, Put(maxsize, q, x, tier))
    ensures var t := Put(maxsize, q, x, tier);
            && Lost(t.tiers, t.fates) == Lost(q.tiers, q.fates) + (if Full(maxsize, q) && HeadDurable(q) then 1 else 0)
            && t.durableDropped == q.durableDropped
  {
    PutLawful(maxsize, q, x, tier);
    if !Raises(maxsize, q) {
      var r := if Full(maxsize, q) then Evict(q) else q;
      if Full(maxsize, q) {
        LostThen(q.tiers, q.fates, false);
      }
      LostStable(r.tiers, tier, r.fates);
    }
  }

  lemma StepDurableLedger<T>(maxsize: nat, s: State<T>, e: Step<T>)
    requires Lawful(maxsize, s.q)
    ensures Lawful(maxsize, Apply(maxsize, s, e).q)
    ensures var t := Apply(maxsize, s, e);
            Lost(t.q.tiers, t.q.fates) - t.q.durableDropped
            == Lost(s.q.tiers, s.q.fates) - s.q.durableDropped
               + (if Silent(maxsize, s, e) then 1 else 0) - (if Phantom(maxsize, s, e) then 1 else 0)
  {
    StepLawful(maxsize, s, e);
    if e.Publish? && Puts(maxsize, s, e) {
      PutLost(maxsize, s.q, e.x, e.tier);
    } else if e.Wake? && Puts(maxsize, s, e) {
      PutLost(maxsize, Charge(s.q, e.timedOut), s.waiting[e.p].x, Durable);
    } else if e.Consume? && s.q.items != [] {
      LostThen(s.q.tiers, s.q.fates, true);
    }
  }

  /** A step drops an item without counting a durable drop exactly when the queue is full and the
      step is a publish that does not wait or a wake-up that did not time out. */
  lemma StepDropsUncountedIff<T>(maxsize: nat, s: State<T>, e: Step<T>)
    ensures var t := Apply(maxsize, s, e);
            (t.q.dropped > s.q.dropped && t.q.durableDropped == s.q.durableDropped)
            <==> (Full(maxsize, s.q) && s.q.items != [] && Puts(maxsize, s, e) && !(e.Wake? && e.timedOut))
  {
  }

  /** The durable drop counter follows the lost durable items over a step exactly when the step is
      neither silent nor phantom. */
  lemma StepCountsExactlyIff<T>(maxsize: nat, s: State<T>, e: Step<T>)
    requires Lawful(maxsize, s.q)
    ensures Lawful(maxsize, Apply(maxsize, s, e).q)
    ensures var t := Apply(maxsize, s, e);
            Lost(t.q.tiers, t.q.fates) - Lost(s.q.tiers, s.q.fates) == t.q.durableDropped - s.q.durableDropped
            <==> !Silent(maxsize, s, e) && !Phantom(maxsize, s, e)
  {
    StepDurableLedger(maxsize, s, e);
  }

  /** Over every run: durable items lost = durable drops counted + silent drops - phantom counts. */
  lemma {:induction false} DurableLedger<T>(maxsize: nat, ev: seq<Step<T>>)
    ensures var q := After(maxsize, ev).q;
            && Lawful(maxsize, q)
            && Lost(q.tiers, q.fates) == q.durableDropped + Times(maxsize, ev, true) - Times(maxsize, ev, false)
  {
    QueueLaw(maxsize, ev);
    if ev != [] {
      var before := ev[..|ev| - 1];
      DurableLedger(maxsize, before);
      StepDurableLedger(maxsize, After(maxsize, before), ev[|ev| - 1]);
    }
  }

  predicate Exact<T>(q: Queue<T>) {
    |q.fates| <= |q.tiers| && Lost(q.tiers, q.fates) == q.durableDropped
  }

  /** The counter is exact at the end of the run and of all its prefixes. */
  predicate ExactThroughout<T>(maxsize: nat, ev: seq<Step<T>>) {
    Exact(After(maxsize, ev).q) && (ev == [] || ExactThroughout(maxsize, ev[..|ev| - 1]))
  }

  /** No step of the run is silent or phantom. */
  predicate NeverMiscounts<T>(maxsize: nat, ev: seq<Step<T>>) {
    ev == [] ||
    (var s, e := After(maxsize, ev[..|ev| - 1]), ev[|ev| - 1];
     !Silent(maxsize, s, e) && !Phantom(maxsize, s, e) && NeverMiscounts(maxsize, ev[..|ev| - 1]))
  }

  /** So the counter is right throughout a run exactly when no step of the run is silent or phantom. */
  lemma {:induction false} CounterExactIff<T>(maxsize: nat, ev: seq<Step<T>>)
    ensures ExactThroughout(maxsize, ev) <==> NeverMiscounts(maxsize, ev)
  {
    if ev != [] {
      var before := ev[..|ev| - 1];
      CounterExactIff(maxsize, before);
      QueueLaw(maxsize, before);
      StepCountsExactlyIff(maxsize, After(maxsize, before), ev[|ev| - 1]);
      assert ExactThroughout(maxsize, before) ==> Exact(After(maxsize, before).q);
    }
  }

  // ---------------------------------------------------------------- the counter is wrong both ways

  function DrainRace<T>(a: T, b: T, c: T): seq<Step<T>> {
    [] + [Publish(0, a, Durable, true)] + [Publish(1, b, Durable, true)] + [Publish(2, c, Durable, true)]
    + [Consume] + [Wake(1, false)] + [Wake(2, false)]
  }

  /** Two durable publishers that wake for one freed place: the second drops the first one's event,
      with no timeout and nothing added to the durable drop counter. */
  lemma DrainedPublishersEvict<T>(a: T, b: T, c: T)
    ensures var q := After(1, DrainRace(a, b, c)).q;
            q.dropped == 1 && q.durableDropped == 0 && q.items == [c] && q.log == [a, b, c] && q.yielded == [a]
  {
    var e1 := [] + [Publish(0, a, Durable, true)];
    var e2 := e1 + [Publish(1, b, Durable, true)];
    var e3 := e2 + [Publish(2, c, Durable, true)];
    var e4 := e3 + [Consume];
    var e5 := e4 + [Wake(1, false)];
    AfterThen(1, [], Publish(0, a, Durable, true));
    AfterThen(1, e1, Publish(1, b, Durable, true));
    AfterThen(1, e2, Publish(2, c, Durable, true));
    AfterThen(1, e3, Consume);
    AfterThen(1, e4, Wake(1, false));
    AfterThen(1, e5, Wake(2, false));
  }

  /** A lossy event, or a durable one on a bus that never blocks, drops a durable event at once,
      whatever the size of the queue. */
  lemma UnblockedPublishEvicts<T>(maxsize: nat, s: State<T>, p: PubId, x: T, tier: Tier, mayBlock: bool)
    requires Full(maxsize, s.q) && HeadDurable(s.q) && p !in s.waiting && !(tier == Durable && mayBlock)
    ensures Silent(maxsize, s, Publish(p, x, tier, mayBlock))
  {
  }

  function LossyRace<T>(a: T, b: T): seq<Step<T>> {
    [] + [Publish(0, a, Durable, true)] + [Publish(1, b, Lossy, true)]
  }

  lemma LossyEvictsDurable<T>(a: T, b: T)
    ensures var q := After(1, LossyRace(a, b)).q;
            q.dropped == 1 && q.durableDropped == 0 && q.items == [b] && q.log == [a, b] && q.yielded == []
  {
    AfterThen(1, [], Publish(0, a, Durable, true));
    AfterThen(1, [] + [Publish(0, a, Durable, true)], Publish(1, b, Lossy, true));
  }

  function LateRace<T>(a: T, b: T): seq<Step<T>> {
    [] + [Publish(0, a, Durable, true)] + [Publish(1, b, Durable, true)] + [Consume] + [Wake(1, true)]
  }

  /** A timeout that fires after the consumer made room is counted although nothing is dropped. */
  lemma TimeoutWithRoom<T>(a: T, b: T)
    ensures var q := After(1, LateRace(a, b)).q;
            q.dropped == 0 && q.durableDropped == 1 && q.items == [b] && q.yielded == [a]
  {
    var e1 := [] + [Publish(0, a, Durable, true)];
    var e2 := e1 + [Publish(1, b, Durable, true)];
    AfterThen(1, [], Publish(0, a, Durable, true));
    AfterThen(1, e1, Publish(1, b, Durable, true));
    AfterThen(1, e2, Consume);
    AfterThen(1, e2 + [Consume], Wake(1, true));
  }

  lemma AfterThen<T>(maxsize: nat, ev: seq<Step<T>>, e: Step<T>)
    ensures After(maxsize, ev + [e]) == Apply(maxsize, After(maxsize, ev), e)
  {
    assert (ev + [e])[..|ev|] == ev;
  }
}
