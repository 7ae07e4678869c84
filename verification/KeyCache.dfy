/** DBKeyResolver: a TTL cache with single-flight lookups in front of the api_keys table. */
module KeyCache {
  import opened Basics

  type Hash = string
  type CallId = nat
  type Tick = nat

  datatype Row = Row(name: string, role: string, revoked: bool, expires: Option<int>)
  datatype Key = Key(name: string, role: string, expires: Option<int>)
  type Db = map<Hash, Row>

  /** `roles` is the override map of the config mode, empty otherwise. */
  datatype Config = Config(ttl: nat, roles: map<string, string>)

  /** `_lookup`: the revoked/expired filter and the role override, over the row that was read. */
  function Filter(cfg: Config, row: Option<Row>, clock: Tick): Option<Key> {
    if row.None? || row.value.revoked then None
    else if row.value.expires.Some? && row.value.expires.value < clock then None
    else
      var r := row.value;
      var role := if r.name in cfg.roles && cfg.roles[r.name] != "" then cfg.roles[r.name] else r.role;
      Some(Key(r.name, role, r.expires))
  }

  /** A lookup: when it began, when it read the row, when it finished, and what it found. */
  datatype Lookup = Lookup(hash: Hash, begin: Tick, readAt: Tick, finish: Tick, found: Option<Key>)

  datatype Fut = Pending | Resolved(l: Lookup) | Failed | Cancelled

  datatype Call =
    | Leading(hash: Hash, begin: Tick)               // its future is registered, the row not read
    | Reading(hash: Hash, begin: Tick, readAt: Tick) // the row is read
    | Waiting(hash: Hash, fut: CallId, start: Tick)

  /** A call that returned a value: when it was made and the lookup it answers from. */
  datatype Answer = Answer(start: Tick, l: Lookup)

  datatype Core = Core(cache: map<Hash, Lookup>, inflight: map<Hash, CallId>, futs: map<CallId, Fut>)

  datatype State = State(
    rows: seq<Db>,                  // the table at every tick so far; the last one is now
    core: Core,
    calls: map<CallId, Call>,
    answers: map<CallId, Answer>,
    nextCall: CallId)

  datatype Step =
    | Pass(db: Db)                  // time passes, and the table may change
    | Resolve(hash: Hash)
    | ReadRow(c: CallId)
    | Finish(c: CallId)
    | Raise(c: CallId)              // the lookup raises an ordinary exception
    | LeaderCancelled(c: CallId)
    | WaiterWakes(c: CallId)
    | WaiterCancelled(c: CallId)
    | Drop(hash: Hash)              // invalidate_cache, or eviction by size

  function Now(s: State): Tick
    requires s.rows != []
  {
    |s.rows| - 1
  }

  function RowAt(s: State, h: Hash, t: Tick): Option<Row>
    requires t < |s.rows|
  {
    if h in s.rows[t] then Some(s.rows[t][h]) else None
  }

  /** A live cache entry for the hash. */
  predicate Hit(cfg: Config, core: Core, h: Hash, now: Tick) {
    h in core.cache && now < core.cache[h].finish + cfg.ttl
  }

  function Settle(core: Core, c: CallId, f: Fut): Core {
    if c in core.futs && core.futs[c].Pending? then core.(futs := core.futs[c := f]) else core
  }

  /** The leader's stretch after the lookup: cache, wake the waiters, leave the in-flight table. */
  function Land(core: Core, c: CallId, l: Lookup): Core {
    Settle(core.(cache := core.cache[l.hash := l]), c, Resolved(l)).(inflight := core.inflight - {l.hash})
  }

  predicate Leads(call: Call) {
    call.Leading? || call.Reading?
  }

  function Apply(cfg: Config, s: State, e: Step): State
    requires s.rows != []
  {
    match e
    case Pass(db) => s.(rows := s.rows + [db])
    case Resolve(h) =>
      var c := s.nextCall;
      var t := s.(nextCall := c + 1);
      if Hit(cfg, s.core, h, Now(s)) then t.(answers := s.answers[c := Answer(Now(s), s.core.cache[h])])
      else if h in s.core.inflight then t.(calls := s.calls[c := Waiting(h, s.core.inflight[h], Now(s))])
      else
        t.(core := s.core.(inflight := s.core.inflight[h := c], futs := s.core.futs[c := Pending]),
           calls := s.calls[c := Leading(h, Now(s))])
    case ReadRow(c) =>
      if c in s.calls && s.calls[c].Leading? then
        s.(calls := s.calls[c := Reading(s.calls[c].hash, s.calls[c].begin, Now(s))])
      else s
    case Finish(c) =>
      if c in s.calls && s.calls[c].Reading? && s.calls[c].readAt < |s.rows| then
        var call := s.calls[c];
        var l := Lookup(call.hash, call.begin, call.readAt, Now(s),
            Filter(cfg, RowAt(s, call.hash, call.readAt), Now(s)));
        s.(core := Land(s.core, c, l), calls := s.calls - {c}, answers := s.answers[c := Answer(call.begin, l)])
      else s
    case Raise(c) =>
      if c in s.calls && Leads(s.calls[c]) then
        s.(core := Settle(s.core, c, Failed).(inflight := s.core.inflight - {s.calls[c].hash}), calls := s.calls - {c})
      else s
    case LeaderCancelled(c) =>
      if c in s.calls && Leads(s.calls[c]) then
        s.(core := s.core.(inflight := s.core.inflight - {s.calls[c].hash}), calls := s.calls - {c})
      else s
    case WaiterWakes(c) =>
      if c in s.calls && s.calls[c].Waiting? && s.calls[c].fut in s.core.futs
          && !s.core.futs[s.calls[c].fut].Pending? then
        var f := s.core.futs[s.calls[c].fut];
        s.(calls := s.calls - {c},
           answers := if f.Resolved? then s.answers[c := Answer(s.calls[c].start, f.l)] else s.answers)
      else s
    case WaiterCancelled(c) =>
      if c in s.calls && s.calls[c].Waiting? then
        s.(core := Settle(s.core, s.calls[c].fut, Cancelled), calls := s.calls - {c})
      else s
    case Drop(h) => s.(core := s.core.(cache := s.core.cache - {h}))
  }

  function After(cfg: Config, db: Db, ev: seq<Step>): (s: State)
    ensures s.rows != []
  {
    if ev == [] then State([db], Core(map[], map[], map[]), map[], map[], 0)
    else Apply(cfg, After(cfg, db, ev[..|ev| - 1]), ev[|ev| - 1])
  }

  // ---------------------------------------------------------------- the object

  /** What to invalidate; for a label, the hash that the store found for it, if any. */
  datatype Target = ByHash(h: Hash) | ByLabel(found: Option<Hash>) | Everything

  predicate Names(target: Target, h: Hash) {
    match target
    case ByHash(x) => x == h
    case ByLabel(found) => found == Some(h)
    case Everything => true
  }

  datatype Start = CacheHit(l: Lookup) | Join(fut: CallId) | Lead

  class DBKeyResolver {
    const cfg: Config
    var cache: map<Hash, Lookup>
    var inflight: map<Hash, CallId>
    var futs: map<CallId, Fut>

    function View(): Core
      reads this
    {
      Core(cache, inflight, futs)
    }

    constructor (cfg: Config)
      ensures this.cfg == cfg && View() == Core(map[], map[], map[])
    {
      this.cfg := cfg;
      cache, inflight, futs := map[], map[], map[];
    }

    /** The first stretch of `resolve`. */
    method Begin(h: Hash, c: CallId, now: Tick) returns (r: Start)
      modifies this`inflight, this`futs
      ensures r.CacheHit? <==> h in cache && now < cache[h].finish + cfg.ttl
      ensures r.Join? <==> !r.CacheHit? && h in old(inflight)
      ensures r.CacheHit? ==> r.l == cache[h] && View() == old(View())
      ensures r.Join? ==> h in inflight && r.fut == inflight[h] && View() == old(View())
      ensures r.Lead? ==> h !in old(inflight)
      ensures r.Lead? ==>
        View() == old(View()).(inflight := old(inflight)[h := c], futs := old(futs)[c := Pending])
    {
      if h in cache && now < cache[h].finish + cfg.ttl {
        return CacheHit(cache[h]);
      }
      if h in inflight {
        return Join(inflight[h]);
      }
      futs := futs[c := Pending];
      inflight := inflight[h := c];
      return Lead;
    }

    method Complete(c: CallId, l: Lookup)
      modifies this
      ensures View() == Land(old(View()), c, l)
      ensures cache == old(cache)[l.hash := l] && inflight == old(inflight) - {l.hash}
      ensures futs == if c in old(futs) && old(futs)[c].Pending? then old(futs)[c := Resolved(l)] else old(futs)
    {
      cache := cache[l.hash := l];
      if c in futs && futs[c].Pending? {
        futs := futs[c := Resolved(l)];
      }
      inflight := inflight - {l.hash};
    }

    method LookupRaises(c: CallId, h: Hash)
      modifies this`futs, this`inflight
      ensures View() == Settle(old(View()), c, Failed).(inflight := old(inflight) - {h})
      ensures inflight == old(inflight) - {h}
      ensures futs == if c in old(futs) && old(futs)[c].Pending? then old(futs)[c := Failed] else old(futs)
    {
      if c in futs && futs[c].Pending? {
        futs := futs[c := Failed];
      }
      inflight := inflight - {h};
    }

    /** What a cancelled leader still does: its cleanup leaves the in-flight table, and the future as it
        is. */
    method LeaderGone(h: Hash)
      modifies this`inflight
      ensures inflight == old(inflight) - {h}
    {
      inflight := inflight - {h};
    }

    /** Cancelling a waiter cancels the future it shares with the others. */
    method WaiterGone(fut: CallId)
      modifies this`futs
      ensures View() == Settle(old(View()), fut, Cancelled)
      ensures futs == if fut in old(futs) && old(futs)[fut].Pending? then old(futs)[fut := Cancelled] else old(futs)
    {
      if fut in futs && futs[fut].Pending? {
        futs := futs[fut := Cancelled];
      }
    }

    /** The last stretch of `invalidate_cache`: exactly the named entries go, and lookups under way are
        left alone. */
    method InvalidateCache(target: Target)
      modifies this`cache
      ensures forall h :: h in cache <==> h in old(cache) && !Names(target, h)
      ensures forall h <- cache :: cache[h] == old(cache)[h]
      ensures target == Everything ==> cache == map[]
      ensures target == ByLabel(None) ==> cache == old(cache)
      ensures target.ByHash? ==> cache == old(cache) - {target.h}
      ensures target.ByLabel? && target.found.Some? ==> cache == old(cache) - {target.found.value}
    {
      match target
      case ByHash(h) => cache := cache - {h};
      case ByLabel(Some(h)) => cache := cache - {h};
      case ByLabel(None) =>
      case Everything => cache := map[];
    }
  }

  /** The object takes any step of the state machine. */
  method Take(r: DBKeyResolver, s: State, e: Step)
    requires s.rows != [] && r.View() == s.core
    modifies r
    ensures r.View() == Apply(r.cfg, s, e).core
  {
    match e {
      case Resolve(h) =>
        var _ := r.Begin(h, s.nextCall, Now(s));
      case Finish(c) =>
        if c in s.calls && s.calls[c].Reading? && s.calls[c].readAt < |s.rows| {
          var call := s.calls[c];
          var found := Filter(r.cfg, RowAt(s, call.hash, call.readAt), Now(s));
          r.Complete(c, Lookup(call.hash, call.begin, call.readAt, Now(s), found));
        }
      case Raise(c) =>
        if c in s.calls && Leads(s.calls[c]) {
          r.LookupRaises(c, s.calls[c].hash);
        }
      case LeaderCancelled(c) =>
        if c in s.calls && Leads(s.calls[c]) {
          r.LeaderGone(s.calls[c].hash);
        }
      case WaiterCancelled(c) =>
        if c in s.calls && s.calls[c].Waiting? {
          r.WaiterGone(s.calls[c].fut);
        }
      case Drop(h) =>
        r.InvalidateCache(ByHash(h));
        assert r.cache == s.core.cache - {h};
      case _ =>
    }
  }

  // ---------------------------------------------------------------- single flight

  /** The in-flight entry of a hash names the call that leads its lookup. */
  predicate Flying(s: State, h: Hash) {
    h in s.core.inflight ==>
      var c := s.core.inflight[h];
      c in s.calls && Leads(s.calls[c]) && s.calls[c].hash == h
  }

  /** A call that leads a lookup is the one its hash's in-flight entry names. */
  predicate Enlisted(s: State, c: CallId) {
    c in s.calls ==> c < s.nextCall && (Leads(s.calls[c]) ==>
      s.calls[c].hash in s.core.inflight && s.core.inflight[s.calls[c].hash] == c)
  }

  predicate Known(s: State, c: CallId) {
    && Enlisted(s, c)
    && (c in s.core.futs ==> c < s.nextCall)
    && (c in s.answers ==> c < s.nextCall && c !in s.calls)
  }

  predicate Solo(s: State) {
    && (forall h <- s.core.inflight :: Flying(s, h))
    && (forall c <- s.calls :: Known(s, c))
    && (forall c <- s.core.futs :: Known(s, c))
    && (forall c <- s.answers :: Known(s, c))
  }

  lemma StepFlying(cfg: Config, s: State, e: Step, h: Hash)
    requires s.rows != [] && Solo(s)
    ensures Flying(Apply(cfg, s, e), h)
  {
  }

  lemma StepEnlisted(cfg: Config, s: State, e: Step, c: CallId)
    requires s.rows != [] && Solo(s)
    ensures Enlisted(Apply(cfg, s, e), c)
  {
  }

  lemma StepKnown(cfg: Config, s: State, e: Step, c: CallId)
    requires s.rows != [] && Solo(s)
    ensures Known(Apply(cfg, s, e), c)
  {
    StepEnlisted(cfg, s, e, c);
  }

  lemma StepSolo(cfg: Config, s: State, e: Step)
    requires s.rows != [] && Solo(s)
    ensures Solo(Apply(cfg, s, e))
  {
    var t := Apply(cfg, s, e);
    forall h ensures Flying(t, h) {
      StepFlying(cfg, s, e, h);
    }
    forall c ensures Known(t, c) {
      StepKnown(cfg, s, e, c);
    }
  }

  /** At most one lookup per hash is under way, and new callers join exactly that one. */
  lemma {:induction false} SingleFlight(cfg: Config, db: Db, ev: seq<Step>)
    ensures Solo(After(cfg, db, ev))
    ensures var s := After(cfg, db, ev);
            forall c <- s.calls, d <- s.calls ::
              Leads(s.calls[c]) && Leads(s.calls[d]) && s.calls[c].hash == s.calls[d].hash ==> c == d
  {
    if ev != [] {
      SingleFlight(cfg, db, ev[..|ev| - 1]);
      StepSolo(cfg, After(cfg, db, ev[..|ev| - 1]), ev[|ev| - 1]);
    }
  }

  // ---------------------------------------------------------------- refinement of the direct lookup

  /** What a direct lookup that reads the row at `readAt` and finishes at `finish` returns. */
  predicate Genuine(cfg: Config, s: State, l: Lookup) {
    && l.begin <= l.readAt <= l.finish < |s.rows|
    && l.found == Filter(cfg, RowAt(s, l.hash, l.readAt), l.finish)
  }

  /** The answer is genuine, and its row was read at most the ttl plus the duration of its own
      lookup before the call was made. */
  predicate Fresh(cfg: Config, s: State, a: Answer) {
    && Genuine(cfg, s, a.l)
    && a.start - a.l.readAt <= cfg.ttl + (a.l.finish - a.l.begin)
  }

  predicate CallOk(s: State, c: CallId)
    requires c in s.calls
  {
    match s.calls[c]
    case Leading(_, begin) => begin < |s.rows|
    case Reading(_, begin, readAt) => begin <= readAt < |s.rows|
    case Waiting(h, fut, start) =>
      && start < |s.rows| && fut in s.core.futs
      && (s.core.futs[fut].Resolved? ==> start <= s.core.futs[fut].l.finish && s.core.futs[fut].l.hash == h)
      && (s.core.futs[fut].Pending? && fut in s.calls ==> Leads(s.calls[fut]) && s.calls[fut].hash == h)
      && fut < s.nextCall
  }

  predicate Refines(cfg: Config, s: State) {
    && (forall h <- s.core.cache :: Genuine(cfg, s, s.core.cache[h]) && s.core.cache[h].hash == h)
    && (forall f <- s.core.futs :: s.core.futs[f].Resolved? ==>
          Genuine(cfg, s, s.core.futs[f].l) && f in s.answers && s.answers[f].l == s.core.futs[f].l)
    && (forall c <- s.calls :: CallOk(s, c))
    && (forall c <- s.answers :: Fresh(cfg, s, s.answers[c]))
    && (forall c <- s.calls :: Leads(s.calls[c]) ==> c in s.core.futs && !s.core.futs[c].Resolved?)
  }

  lemma GenuineStays(cfg: Config, s: State, e: Step, l: Lookup)
    requires s.rows != [] && Genuine(cfg, s, l)
    ensures Genuine(cfg, Apply(cfg, s, e), l)
  {
  }

  /** The lookup a reading leader ends with if it finishes now. */
  predicate Landed(cfg: Config, s: State, c: CallId, l: Lookup)
    requires s.rows != [] && c in s.calls && s.calls[c].Reading?
  {
    && s.calls[c].readAt < |s.rows|
    && l == Lookup(s.calls[c].hash, s.calls[c].begin, s.calls[c].readAt, Now(s),
                   Filter(cfg, RowAt(s, s.calls[c].hash, s.calls[c].readAt), Now(s)))
  }

  /** How one future can change: only a pending one does, and only its own leader resolves it. */
  predicate FutEvolves(cfg: Config, s: State, t: State, f: CallId)
    requires s.rows != []
  {
    f in s.core.futs ==>
      && f in t.core.futs
      && (!s.core.futs[f].Pending? ==> t.core.futs[f] == s.core.futs[f])
      && (s.core.futs[f].Pending? && t.core.futs[f].Resolved? ==>
            && f in s.calls && s.calls[f].Reading? && Landed(cfg, s, f, t.core.futs[f].l)
            && t.rows == s.rows && f in t.answers && t.answers[f].l == t.core.futs[f].l)
  }

  lemma StepFut(cfg: Config, s: State, e: Step, f: CallId)
    requires s.rows != [] && Solo(s)
    ensures FutEvolves(cfg, s, Apply(cfg, s, e), f)
    ensures f in Apply(cfg, s, e).core.futs && f !in s.core.futs ==>
              Apply(cfg, s, e).core.futs[f].Pending? && f == s.nextCall
  {
  }

  /** How one call can change: a leader reads its row; a new call gets the next id and joins or
      leads. */
  predicate CallEvolves(s: State, t: State, c: CallId)
    requires s.rows != []
  {
    c in t.calls ==>
      if c in s.calls then
        || t.calls[c] == s.calls[c]
        || (s.calls[c].Leading? && t.rows == s.rows && t.calls[c] == Reading(s.calls[c].hash, s.calls[c].begin, Now(s)))
      else
        && c == s.nextCall && t.rows == s.rows
        && (|| (t.calls[c].Leading? && t.calls[c].begin == Now(s) && c in t.core.futs && t.core.futs[c].Pending?)
            || (t.calls[c].Waiting? && t.calls[c].start == Now(s) && t.core == s.core
                && t.calls[c].hash in s.core.inflight
                && t.calls[c].fut == s.core.inflight[t.calls[c].hash]))
  }

  lemma StepCall(cfg: Config, s: State, e: Step, c: CallId)
    requires s.rows != [] && Solo(s)
    ensures CallEvolves(s, Apply(cfg, s, e), c)
  {
  }

  lemma StepMonotone(cfg: Config, s: State, e: Step)
    requires s.rows != [] && Solo(s)
    ensures var t := Apply(cfg, s, e);
            && s.rows <= t.rows && s.nextCall <= t.nextCall
            && (forall c <- s.answers :: c in t.answers && t.answers[c] == s.answers[c])
  {
  }

  lemma CallStaysOk(cfg: Config, s: State, t: State, c: CallId)
    requires s.rows != [] && Solo(s) && Refines(cfg, s) && s.rows <= t.rows && s.nextCall <= t.nextCall
    requires c in t.calls && CallEvolves(s, t, c)
    requires t.calls[c].Waiting? ==> FutEvolves(cfg, s, t, t.calls[c].fut) && CallEvolves(s, t, t.calls[c].fut)
    ensures CallOk(t, c)
  {
    if c in s.calls {
      assert CallOk(s, c);
    } else if t.calls[c].Waiting? {
      var lead := t.calls[c].fut;
      assert lead in s.calls && Leads(s.calls[lead]);
    }
  }

  lemma FutStaysOk(cfg: Config, s: State, t: State, f: CallId)
    requires s.rows != [] && Refines(cfg, s) && s.rows <= t.rows
    requires forall c <- s.answers :: c in t.answers && t.answers[c] == s.answers[c]
    requires f in s.core.futs && FutEvolves(cfg, s, t, f)
    ensures t.core.futs[f].Resolved? ==>
        Genuine(cfg, t, t.core.futs[f].l) && f in t.answers && t.answers[f].l == t.core.futs[f].l
  {
    if t.core.futs[f].Resolved? && s.core.futs[f].Pending? {
      assert CallOk(s, f);
    }
  }

  /** A new answer comes from the cache, from the call's own lookup, or from the flight it joined. */
  predicate AnswerArises(cfg: Config, s: State, t: State, c: CallId)
    requires s.rows != []
  {
    c in t.answers && c !in s.answers ==>
      var a := t.answers[c];
      && t.rows == s.rows
      && (|| (a.start == Now(s) && exists h <- s.core.cache :: a.l == s.core.cache[h] && Hit(cfg, s.core, h, Now(s)))
          || (c in s.calls && s.calls[c].Reading? && a.start == s.calls[c].begin && Landed(cfg, s, c, a.l))
          || (c in s.calls && s.calls[c].Waiting? && a.start == s.calls[c].start && s.calls[c].fut in s.core.futs
              && s.core.futs[s.calls[c].fut] == Resolved(a.l)))
  }

  lemma StepAnswerArises(cfg: Config, s: State, e: Step, c: CallId)
    requires s.rows != []
    ensures AnswerArises(cfg, s, Apply(cfg, s, e), c)
  {
  }

  lemma AnswerIsFresh(cfg: Config, s: State, t: State, c: CallId)
    requires s.rows != [] && Refines(cfg, s) && c in t.answers && c !in s.answers && AnswerArises(cfg, s, t, c)
    ensures Fresh(cfg, t, t.answers[c])
  {
    if c in s.calls {
      assert CallOk(s, c);
    }
  }

  lemma StepAnswers(cfg: Config, s: State, e: Step, c: CallId)
    requires s.rows != [] && Solo(s) && Refines(cfg, s) && c in Apply(cfg, s, e).answers
    ensures Fresh(cfg, Apply(cfg, s, e), Apply(cfg, s, e).answers[c])
  {
    if c in s.answers {
      assert Fresh(cfg, s, s.answers[c]);
      StepMonotone(cfg, s, e);
      GenuineStays(cfg, s, e, s.answers[c].l);
    } else {
      StepAnswerArises(cfg, s, e, c);
      AnswerIsFresh(cfg, s, Apply(cfg, s, e), c);
    }
  }

  /** A cache entry was there before or belongs to a lookup that finishes now. */
  lemma StepCacheEntry(cfg: Config, s: State, e: Step, h: Hash)
    requires s.rows != [] && h in Apply(cfg, s, e).core.cache
    ensures var t := Apply(cfg, s, e);
            || (h in s.core.cache && t.core.cache[h] == s.core.cache[h])
            || (t.rows == s.rows && e.Finish? && e.c in s.calls && s.calls[e.c].Reading? && s.calls[e.c].hash == h
                && Landed(cfg, s, e.c, t.core.cache[h]))
  {
  }

  lemma StepCache(cfg: Config, s: State, e: Step, h: Hash)
    requires s.rows != [] && Refines(cfg, s) && h in Apply(cfg, s, e).core.cache
    ensures var t := Apply(cfg, s, e); Genuine(cfg, t, t.core.cache[h]) && t.core.cache[h].hash == h
  {
    StepCacheEntry(cfg, s, e, h);
    if h in s.core.cache {
      GenuineStays(cfg, s, e, s.core.cache[h]);
    }
    if e.Finish? && e.c in s.calls {
      assert CallOk(s, e.c);
    }
  }

  /** A leader's own future is not resolved before it finishes. */
  lemma LeaderPends(cfg: Config, s: State, t: State, c: CallId)
    requires s.rows != [] && Solo(s) && Refines(cfg, s) && c in t.calls && Leads(t.calls[c])
    requires CallEvolves(s, t, c) && FutEvolves(cfg, s, t, c)
    requires c in t.answers ==> c !in t.calls
    ensures c in t.core.futs && !t.core.futs[c].Resolved?
  {
  }

  lemma StepRefines(cfg: Config, s: State, e: Step)
    requires s.rows != [] && Solo(s) && Refines(cfg, s)
    ensures Refines(cfg, Apply(cfg, s, e))
  {
    var t := Apply(cfg, s, e);
    StepMonotone(cfg, s, e);
    StepSolo(cfg, s, e);
    forall h | h in t.core.cache ensures Genuine(cfg, t, t.core.cache[h]) && t.core.cache[h].hash == h {
      StepCache(cfg, s, e, h);
    }
    forall f | f in t.core.futs
      ensures t.core.futs[f].Resolved? ==>
          Genuine(cfg, t, t.core.futs[f].l) && f in t.answers && t.answers[f].l == t.core.futs[f].l
    {
      StepFut(cfg, s, e, f);
      if f in s.core.futs {
        FutStaysOk(cfg, s, t, f);
      }
    }
    forall c | c in t.calls ensures CallOk(t, c)
        && (Leads(t.calls[c]) ==> c in t.core.futs && !t.core.futs[c].Resolved?) {
      StepCall(cfg, s, e, c);
      StepFut(cfg, s, e, c);
      if t.calls[c].Waiting? {
        StepFut(cfg, s, e, t.calls[c].fut);
        StepCall(cfg, s, e, t.calls[c].fut);
      } else {
        LeaderPends(cfg, s, t, c);
      }
      CallStaysOk(cfg, s, t, c);
    }
    forall c | c in t.answers ensures Fresh(cfg, t, t.answers[c]) {
      StepAnswers(cfg, s, e, c);
    }
  }

  /** For every interleaving of lookups, waiters, table changes, invalidations and evictions, every
      value a resolve call returns is what a direct lookup returned whose read is no older than the
      ttl plus the duration of that lookup; and a waiter returns its leader's value. */
  lemma {:induction false} CacheRefinesLookup(cfg: Config, db: Db, ev: seq<Step>)
    ensures Refines(cfg, After(cfg, db, ev))
  {
    if ev != [] {
      var before := ev[..|ev| - 1];
      CacheRefinesLookup(cfg, db, before);
      SingleFlight(cfg, db, before);
      StepRefines(cfg, After(cfg, db, before), ev[|ev| - 1]);
    }
  }

  /** The row admits a key at this moment: it exists, is not revoked and has not expired. */
  predicate Admits(row: Option<Row>, clock: Tick) {
    row.Some? && !row.value.revoked && !(row.value.expires.Some? && row.value.expires.value < clock)
  }

  /** What a resolve call says, told from the table alone: it answers with a key if and only if the row
      that was read exists, is not revoked and had not expired when the lookup finished; the key has
      the row's name and expiry, and the role configured for that name if there is one that is not
      empty, else the row's. */
  lemma AnswerTellsRow(cfg: Config, db: Db, ev: seq<Step>, c: CallId)
    requires c in After(cfg, db, ev).answers
    ensures var s := After(cfg, db, ev);
            var l := s.answers[c].l;
            && l.readAt < |s.rows|
            && var row := if l.hash in s.rows[l.readAt] then Some(s.rows[l.readAt][l.hash]) else None;
               && (l.found.Some? <==> Admits(row, l.finish))
               && (l.found.Some? ==>
                     && l.found.value.name == row.value.name && l.found.value.expires == row.value.expires
                     && l.found.value.role
                        == (if row.value.name in cfg.roles && cfg.roles[row.value.name] != ""
                            then cfg.roles[row.value.name] else row.value.role))
  {
    CacheRefinesLookup(cfg, db, ev);
    assert Fresh(cfg, After(cfg, db, ev), After(cfg, db, ev).answers[c]);
  }

  /** So a key is honoured for at most the ttl plus the length of one lookup after it expired. */
  lemma ExpiredKeyHonouredBriefly(cfg: Config, db: Db, ev: seq<Step>, c: CallId)
    requires var s := After(cfg, db, ev);
             c in s.answers && s.answers[c].l.found.Some? && s.answers[c].l.found.value.expires.Some?
    ensures var a := After(cfg, db, ev).answers[c];
            a.start <= a.l.found.value.expires.value + cfg.ttl + (a.l.finish - a.l.begin)
  {
    AnswerTellsRow(cfg, db, ev, c);
    CacheRefinesLookup(cfg, db, ev);
    assert Fresh(cfg, After(cfg, db, ev), After(cfg, db, ev).answers[c]);
  }

  /** A waiter that returns a value returns the one its leader returned. */
  lemma WaiterGetsLeadersAnswer(cfg: Config, db: Db, ev: seq<Step>, c: CallId)
    requires var s := After(cfg, db, ev);
             && c in s.calls && s.calls[c].Waiting?
             && c in Apply(cfg, s, WaiterWakes(c)).answers
    ensures var s := After(cfg, db, ev);
            var lead := s.calls[c].fut;
            lead in s.answers && Apply(cfg, s, WaiterWakes(c)).answers[c].l == s.answers[lead].l
  {
    CacheRefinesLookup(cfg, db, ev);
    SingleFlight(cfg, db, ev);
  }

  // ---------------------------------------------------------------- invalidation

  /** Nothing that calls from `base` on can be answered from was read before `t0`. */
  predicate CleanSince(cfg: Config, s: State, h: Hash, t0: Tick, base: CallId) {
    && t0 < |s.rows| && base <= s.nextCall
    && (h in s.core.cache && cfg.ttl > 0 ==> s.core.cache[h].readAt >= t0)
    && (forall c <- s.calls :: s.calls[c].hash == h ==> CallClean(cfg, s, c, t0, base))
    && FreshAnswers(s, h, t0, base)
  }

  /** Calls made from `base` on are answered from reads at or after `t0`. */
  predicate FreshAnswers(s: State, h: Hash, t0: Tick, base: CallId) {
    forall c <- s.answers :: c >= base && s.answers[c].l.hash == h ==> s.answers[c].l.readAt >= t0
  }

  /** The lookup can still reach a later caller: through the cache, or through its future. */
  predicate Spreads(cfg: Config, s: State, c: CallId) {
    cfg.ttl > 0 || (c in s.core.futs && s.core.futs[c].Pending?)
  }

  predicate CallClean(cfg: Config, s: State, c: CallId, t0: Tick, base: CallId)
    requires c in s.calls
  {
    match s.calls[c]
    case Leading(_, begin) => c >= base ==> begin >= t0
    case Reading(_, begin, readAt) => (c >= base ==> begin >= t0) && (Spreads(cfg, s, c) ==> readAt >= t0)
    case Waiting(_, fut, _) => c >= base ==> FutClean(s, fut, t0)
  }

  predicate FutClean(s: State, f: CallId, t0: Tick) {
    f in s.core.futs && s.core.futs[f].Resolved? ==> s.core.futs[f].l.readAt >= t0
  }

  lemma CleanCall(cfg: Config, s: State, t: State, h: Hash, t0: Tick, base: CallId, c: CallId)
    requires s.rows != [] && Solo(s) && Refines(cfg, s) && CleanSince(cfg, s, h, t0, base)
    requires c in t.calls && t.calls[c].hash == h
    requires CallEvolves(s, t, c) && FutEvolves(cfg, s, t, c)
    requires t.calls[c].Waiting? ==> FutEvolves(cfg, s, t, t.calls[c].fut)
    ensures CallClean(cfg, t, c, t0, base)
  {
    if c in s.calls {
      assert CallOk(s, c);
      assert CallClean(cfg, s, c, t0, base);
      if t.calls[c].Waiting? && t.calls[c].fut in s.calls {
        assert s.calls[t.calls[c].fut].hash == h && Leads(s.calls[t.calls[c].fut]) ==>
            CallClean(cfg, s, t.calls[c].fut, t0, base);
      }
    } else if t.calls[c].Waiting? {
      assert Flying(s, h);
    }
  }

  lemma CleanAnswer(cfg: Config, s: State, t: State, h: Hash, t0: Tick, base: CallId, c: CallId)
    requires s.rows != [] && Refines(cfg, s) && CleanSince(cfg, s, h, t0, base)
    requires c in t.answers && c >= base && t.answers[c].l.hash == h
    requires if c in s.answers then t.answers[c] == s.answers[c] else AnswerArises(cfg, s, t, c)
    ensures t.answers[c].l.readAt >= t0
  {
    if c in s.calls {
      assert CallOk(s, c);
      assert s.calls[c].hash == h ==> CallClean(cfg, s, c, t0, base);
    }
  }

  lemma CleanCache(cfg: Config, s: State, e: Step, h: Hash, t0: Tick, base: CallId)
    requires s.rows != [] && Refines(cfg, s) && CleanSince(cfg, s, h, t0, base)
    requires cfg.ttl > 0 && h in Apply(cfg, s, e).core.cache
    ensures Apply(cfg, s, e).core.cache[h].readAt >= t0
  {
    StepCacheEntry(cfg, s, e, h);
    if e.Finish? && e.c in s.calls && s.calls[e.c].hash == h {
      assert CallClean(cfg, s, e.c, t0, base);
    }
  }

  lemma CleanStep(cfg: Config, s: State, e: Step, h: Hash, t0: Tick, base: CallId)
    requires s.rows != [] && Solo(s) && Refines(cfg, s) && CleanSince(cfg, s, h, t0, base)
    ensures CleanSince(cfg, Apply(cfg, s, e), h, t0, base)
  {
    var t := Apply(cfg, s, e);
    StepMonotone(cfg, s, e);
    if cfg.ttl > 0 && h in t.core.cache {
      CleanCache(cfg, s, e, h, t0, base);
    }
    forall c | c in t.calls && t.calls[c].hash == h ensures CallClean(cfg, t, c, t0, base) {
      StepCall(cfg, s, e, c);
      StepFut(cfg, s, e, c);
      if t.calls[c].Waiting? {
        StepFut(cfg, s, e, t.calls[c].fut);
      }
      CleanCall(cfg, s, t, h, t0, base, c);
    }
    forall c | c in t.answers && c >= base && t.answers[c].l.hash == h ensures t.answers[c].l.readAt >= t0 {
      StepAnswerArises(cfg, s, e, c);
      CleanAnswer(cfg, s, t, h, t0, base, c);
    }
  }

  /** A lookup of the hash that read its row before now is still under way and can still reach a later
      caller. */
  predicate Stale(cfg: Config, s: State, h: Hash)
    requires s.rows != []
  {
    exists c <- s.calls :: s.calls[c].Reading? && s.calls[c].hash == h && s.calls[c].readAt < Now(s)
        && Spreads(cfg, s, c)
  }

  /** If no lookup of the hash has already read its row when the cache entry is invalidated, every
      later call is answered from a read at or after the invalidation. */
  lemma {:induction false} InvalidationTakesEffect(cfg: Config, db: Db, ev: seq<Step>, n: nat, h: Hash)
    requires n < |ev| && ev[n] == Drop(h)
    requires !Stale(cfg, After(cfg, db, ev[..n]), h)
    ensures var s := After(cfg, db, ev[..n]);
            CleanSince(cfg, After(cfg, db, ev), h, Now(s), s.nextCall)
  {
    var s := After(cfg, db, ev[..n]);
    var before := ev[..|ev| - 1];
    SingleFlight(cfg, db, before);
    CacheRefinesLookup(cfg, db, before);
    if n == |ev| - 1 {
      assert before == ev[..n];
    } else {
      assert before[..n] == ev[..n];
      InvalidationTakesEffect(cfg, db, before, n, h);
      CleanStep(cfg, After(cfg, db, before), ev[|ev| - 1], h, Now(s), s.nextCall);
    }
  }

  /** And only then: a lookup that read its row before the invalidation puts the old value back, and
      the next call is answered from it. */
  lemma InvalidationOutrun(cfg: Config, s: State, h: Hash, c: CallId)
    requires s.rows != [] && Solo(s) && Refines(cfg, s) && cfg.ttl > 0
    requires c in s.calls && s.calls[c].Reading? && s.calls[c].hash == h
    ensures var t := Apply(cfg, Apply(cfg, Apply(cfg, s, Drop(h)), Finish(c)), Resolve(h));
            s.nextCall in t.answers && t.answers[s.nextCall].l.readAt == s.calls[c].readAt
                && t.answers[s.nextCall].l.hash == h
  {
    assert CallOk(s, c);
  }

  lemma AfterThen(cfg: Config, db: Db, ev: seq<Step>, e: Step)
    ensures After(cfg, db, ev + [e]) == Apply(cfg, After(cfg, db, ev), e)
  {
    assert (ev + [e])[..|ev|] == ev;
  }

  /** Invalidating the hash after the run takes effect in every continuation. */
  ghost predicate TakesEffect(cfg: Config, db: Db, ev: seq<Step>, h: Hash) {
    forall more :: FreshAnswers(After(cfg, db, ev + [Drop(h)] + more), h, Now(After(cfg, db, ev)),
        After(cfg, db, ev).nextCall)
  }

  lemma DropIsFresh(cfg: Config, db: Db, ev: seq<Step>, h: Hash, more: seq<Step>)
    requires !Stale(cfg, After(cfg, db, ev), h)
    ensures FreshAnswers(After(cfg, db, ev + [Drop(h)] + more), h, Now(After(cfg, db, ev)), After(cfg, db, ev).nextCall)
  {
    var all := ev + [Drop(h)] + more;
    assert all[..|ev|] == ev && all[|ev|] == Drop(h);
    InvalidationTakesEffect(cfg, db, all, |ev|, h);
  }

  lemma AfterThree(cfg: Config, db: Db, ev: seq<Step>, a: Step, b: Step, c: Step)
    ensures After(cfg, db, ev + [a] + [b] + [c]) == Apply(cfg, Apply(cfg, Apply(cfg, After(cfg, db, ev), a), b), c)
  {
    AfterThen(cfg, db, ev, a);
    AfterThen(cfg, db, ev + [a], b);
    AfterThen(cfg, db, ev + [a] + [b], c);
  }

  /** A call after the invalidation joins the lookup under way. */
  lemma JoinStep(cfg: Config, s: State, h: Hash)
    requires s.rows != [] && Solo(s) && h in s.core.inflight
    ensures var t := Apply(cfg, Apply(cfg, s, Drop(h)), Resolve(h));
            && t.calls == s.calls[s.nextCall := Waiting(h, s.core.inflight[h], Now(s))] && s.nextCall !in s.calls
            && t.core.futs == s.core.futs
  {
  }

  /** It gets the old value. */
  lemma JoinerAnswer(cfg: Config, s: State, h: Hash, c: CallId)
    requires s.rows != [] && Solo(s)
    requires c in s.calls && s.calls[c].Reading? && s.calls[c].hash == h && c in s.core.futs && s.core.futs[c].Pending?
    requires var joined := Apply(cfg, Apply(cfg, s, Drop(h)), Resolve(h)); Solo(joined) && Refines(cfg, joined)
    ensures var joined := Apply(cfg, Apply(cfg, s, Drop(h)), Resolve(h));
            var u := Apply(cfg, Apply(cfg, joined, Finish(c)), WaiterWakes(s.nextCall));
            && s.nextCall in u.answers && u.answers[s.nextCall].l.hash == h
            && u.answers[s.nextCall].l.readAt == s.calls[c].readAt
  {
    assert Known(s, c);
    JoinStep(cfg, s, h);
    var joined := Apply(cfg, Apply(cfg, s, Drop(h)), Resolve(h));
    FinishServesIff(cfg, joined, c, s.nextCall);
    LandsNow(cfg, joined, c);
  }

  lemma LandsNow(cfg: Config, s: State, c: CallId)
    requires s.rows != [] && Refines(cfg, s) && c in s.calls && s.calls[c].Reading?
    ensures var t := Apply(cfg, s, Finish(c));
            c in t.answers && t.answers[c].l.hash == s.calls[c].hash && t.answers[c].l.readAt == s.calls[c].readAt
  {
    assert CallOk(s, c);
  }

  /** So a stale lookup outruns the invalidation through a caller that joins it. */
  lemma JoinerIsOutrun(cfg: Config, db: Db, ev: seq<Step>, h: Hash, c: CallId) returns (more: seq<Step>)
    requires var s := After(cfg, db, ev);
             && c in s.calls && s.calls[c].Reading? && s.calls[c].hash == h && s.calls[c].readAt < Now(s)
             && c in s.core.futs && s.core.futs[c].Pending?
    ensures !FreshAnswers(After(cfg, db, ev + [Drop(h)] + more), h, Now(After(cfg, db, ev)),
        After(cfg, db, ev).nextCall)
  {
    var s := After(cfg, db, ev);
    var e1 := ev + [Drop(h)];
    AfterThen(cfg, db, ev, Drop(h));
    AfterThen(cfg, db, e1, Resolve(h));
    SingleFlight(cfg, db, ev);
    SingleFlight(cfg, db, e1 + [Resolve(h)]);
    CacheRefinesLookup(cfg, db, e1 + [Resolve(h)]);
    JoinerAnswer(cfg, s, h, c);
    AfterThree(cfg, db, e1, Resolve(h), Finish(c), WaiterWakes(s.nextCall));
    more := [Resolve(h)] + [Finish(c)] + [WaiterWakes(s.nextCall)];
    assert e1 + more == e1 + [Resolve(h)] + [Finish(c)] + [WaiterWakes(s.nextCall)];
  }

  lemma DropIsOutrun(cfg: Config, db: Db, ev: seq<Step>, h: Hash) returns (more: seq<Step>)
    requires Stale(cfg, After(cfg, db, ev), h)
    ensures !FreshAnswers(After(cfg, db, ev + [Drop(h)] + more), h, Now(After(cfg, db, ev)),
        After(cfg, db, ev).nextCall)
  {
    var s := After(cfg, db, ev);
    var c :| c in s.calls && s.calls[c].Reading? && s.calls[c].hash == h && s.calls[c].readAt < Now(s)
        && Spreads(cfg, s, c);
    if cfg.ttl == 0 {
      more := JoinerIsOutrun(cfg, db, ev, h, c);
    } else {
      SingleFlight(cfg, db, ev);
      CacheRefinesLookup(cfg, db, ev);
      InvalidationOutrun(cfg, s, h, c);
      more := [Finish(c)] + [Resolve(h)];
      var e1 := ev + [Drop(h)];
      AfterThen(cfg, db, ev, Drop(h));
      AfterThen(cfg, db, e1, Finish(c));
      AfterThen(cfg, db, e1 + [Finish(c)], Resolve(h));
      assert e1 + more == e1 + [Finish(c)] + [Resolve(h)];
    }
  }

  /** Exactly when an invalidation takes effect: if and only if no lookup that read the row before, and
      can still reach a later caller, is under way. */
  lemma InvalidationTakesEffectIff(cfg: Config, db: Db, ev: seq<Step>, h: Hash)
    ensures TakesEffect(cfg, db, ev, h) <==> !Stale(cfg, After(cfg, db, ev), h)
  {
    if Stale(cfg, After(cfg, db, ev), h) {
      var more := DropIsOutrun(cfg, db, ev, h);
    } else {
      forall more
        ensures FreshAnswers(After(cfg, db, ev + [Drop(h)] + more), h, Now(After(cfg, db, ev)),
            After(cfg, db, ev).nextCall)
      {
        DropIsFresh(cfg, db, ev, h, more);
      }
    }
  }

  function LookupUnderWay(h: Hash): seq<Step> {
    [] + [Resolve(h)] + [ReadRow(0)]
  }

  lemma LookupStarts(cfg: Config, db: Db, h: Hash)
    ensures After(cfg, db, LookupUnderWay(h))
         == State([db], Core(map[], map[h := 0], map[0 := Pending]), map[0 := Reading(h, 0, 0)], map[], 1)
  {
    AfterThen(cfg, db, [], Resolve(h));
    AfterThen(cfg, db, [] + [Resolve(h)], ReadRow(0));
  }

  /** A lookup that has read the row of a key, which is then revoked. */
  function RevokedMidway(h: Hash, row: Row): State {
    State([map[h := row], map[h := row.(revoked := true)]], Core(map[], map[h := 0], map[0 := Pending]),
          map[0 := Reading(h, 0, 0)], map[], 1)
  }

  lemma RevokedSteps(cfg: Config, h: Hash, row: Row)
    requires cfg.ttl > 0 && !row.revoked && row.expires.None?
    ensures var t := Apply(cfg, Apply(cfg, Apply(cfg, RevokedMidway(h, row), Drop(h)), Finish(0)), Resolve(h));
            && t.rows == RevokedMidway(h, row).rows
            && 1 in t.answers && t.answers[1].start == 1 && t.answers[1].l.found.Some?
  {
    var s := RevokedMidway(h, row);
    assert s.core.cache - {h} == s.core.cache;
    assert Apply(cfg, s, Drop(h)) == s;
    var u := Apply(cfg, s, Finish(0));
    assert u.rows == s.rows && h in u.core.cache && u.core.cache[h].finish == 1 && u.core.cache[h].found.Some?;
  }

  lemma RevokedReached(cfg: Config, h: Hash, row: Row)
    ensures After(cfg, map[h := row], LookupUnderWay(h) + [Pass(map[h := row.(revoked := true)])])
        == RevokedMidway(h, row)
  {
    LookupStarts(cfg, map[h := row], h);
    AfterThen(cfg, map[h := row], LookupUnderWay(h), Pass(map[h := row.(revoked := true)]));
  }

  /** A run in which a key that is revoked and then invalidated still resolves: its row is read, the
      row is revoked, the cache entry is dropped, the lookup finishes, and the next call succeeds. */
  lemma RevokedKeyStillResolves(cfg: Config, h: Hash, row: Row)
    requires cfg.ttl > 0 && !row.revoked && row.expires.None?
    ensures var revoked := map[h := row.(revoked := true)];
            var s := After(cfg, map[h := row],
                LookupUnderWay(h) + [Pass(revoked)] + [Drop(h)] + [Finish(0)] + [Resolve(h)]);
            && s.rows[Now(s)] == revoked && Filter(cfg, RowAt(s, h, Now(s)), Now(s)).None?
            && 1 in s.answers && s.answers[1].start == Now(s) && s.answers[1].l.found.Some?
  {
    var db, revoked := map[h := row], map[h := row.(revoked := true)];
    var e2 := LookupUnderWay(h) + [Pass(revoked)];
    RevokedReached(cfg, h, row);
    RevokedSteps(cfg, h, row);
    AfterThree(cfg, db, e2, Drop(h), Finish(0), Resolve(h));
  }

  // ---------------------------------------------------------------- waiters of a dead flight

  /** The future will never carry a value: it failed, was cancelled, or its leader is gone. */
  predicate Dead(s: State, f: CallId) {
    f in s.core.futs && f < s.nextCall && !s.core.futs[f].Resolved? && (s.core.futs[f].Pending? ==> f !in s.calls)
  }

  predicate Stranded(s: State, c: CallId, f: CallId) {
    Dead(s, f) && c < s.nextCall && c !in s.answers && (c in s.calls ==> s.calls[c].Waiting? && s.calls[c].fut == f)
  }

  lemma StrandedStep(cfg: Config, s: State, e: Step, c: CallId, f: CallId)
    requires s.rows != [] && Solo(s) && Stranded(s, c, f)
    ensures Stranded(Apply(cfg, s, e), c, f)
  {
    StepMonotone(cfg, s, e);
    StepFut(cfg, s, e, f);
    StepCall(cfg, s, e, f);
    StepCall(cfg, s, e, c);
  }

  /** A cancelled leader ends its lookup without touching the cache or its future. */
  lemma CancelledLeaderLeaves(cfg: Config, s: State, c: CallId)
    requires s.rows != [] && c in s.calls && Leads(s.calls[c])
    ensures var t := Apply(cfg, s, LeaderCancelled(c));
            && c !in t.calls && s.calls[c].hash !in t.core.inflight
            && t.core.futs == s.core.futs && t.core.cache == s.core.cache && t.answers == s.answers
  {
  }

  /** A waiter wakes exactly when its future is settled; it is then done, and has an answer exactly if the
      future carries one. */
  lemma SettledWaiterEnds(cfg: Config, s: State, c: CallId)
    requires s.rows != [] && Solo(s) && c in s.calls && s.calls[c].Waiting? && s.calls[c].fut in s.core.futs
    ensures var f := s.core.futs[s.calls[c].fut];
            var t := Apply(cfg, s, WaiterWakes(c));
            && (c !in t.calls <==> !f.Pending?)
            && (c in t.answers <==> f.Resolved?)
            && (f.Pending? ==> t == s)
  {
    assert Known(s, c);
  }

  /** A waiter whose leader was cancelled, or whose fellow waiter was cancelled first, never returns
      a value in any continuation. */
  lemma {:induction false} StrandedForever(cfg: Config, db: Db, ev: seq<Step>, n: nat, c: CallId, f: CallId)
    requires n <= |ev| && Stranded(After(cfg, db, ev[..n]), c, f)
    ensures c !in After(cfg, db, ev).answers && Stranded(After(cfg, db, ev), c, f)
  {
    if n == |ev| {
      assert ev[..n] == ev;
    } else {
      var before := ev[..|ev| - 1];
      assert before[..n] == ev[..n];
      StrandedForever(cfg, db, before, n, c, f);
      SingleFlight(cfg, db, before);
      StrandedStep(cfg, After(cfg, db, before), ev[|ev| - 1], c, f);
    }
  }

  /** Cancelling the leader, or any one waiter of a pending flight, strands the other waiters. */
  lemma CancelStrands(cfg: Config, s: State, c: CallId, other: CallId)
    requires s.rows != [] && Solo(s) && Refines(cfg, s)
    requires c in s.calls && s.calls[c].Waiting? && s.core.futs[s.calls[c].fut].Pending? && other != c
    requires other in s.calls
        && (other == s.calls[c].fut || (s.calls[other].Waiting? && s.calls[other].fut == s.calls[c].fut))
    ensures var e := if Leads(s.calls[other]) then LeaderCancelled(other) else WaiterCancelled(other);
            Stranded(Apply(cfg, s, e), c, s.calls[c].fut)
  {
    assert CallOk(s, c);
  }

  /** A run in which one cancelled waiter keeps another from ever getting a value, although the lookup
      goes on and finishes. */
  lemma FellowWaiterStrands(cfg: Config, db: Db, h: Hash, more: seq<Step>)
    ensures 2 !in After(cfg, db, LookupUnderWay(h) + [Resolve(h)] + [Resolve(h)] + [WaiterCancelled(1)] + more).answers
  {
    var e1 := LookupUnderWay(h);
    var e2 := e1 + [Resolve(h)];
    var e3 := e2 + [Resolve(h)];
    var e4 := e3 + [WaiterCancelled(1)];
    LookupStarts(cfg, db, h);
    AfterThen(cfg, db, e1, Resolve(h));
    AfterThen(cfg, db, e2, Resolve(h));
    CacheRefinesLookup(cfg, db, e3);
    SingleFlight(cfg, db, e3);
    CancelStrands(cfg, After(cfg, db, e3), 2, 1);
    AfterThen(cfg, db, e3, WaiterCancelled(1));
    assert (e4 + more)[..|e4|] == e4;
    StrandedForever(cfg, db, e4 + more, |e4|, 2, 0);
  }

  // ---------------------------------------------------------------- who gets an answer

  /** When a reading leader finishes, a waiter of its flight that wakes gets the leader's lookup if and
      only if nothing settled the flight's future before. */
  lemma FinishServesIff(cfg: Config, s: State, lead: CallId, c: CallId)
    requires s.rows != [] && Solo(s) && Refines(cfg, s)
    requires lead in s.calls && s.calls[lead].Reading? && c in s.calls && s.calls[c].Waiting? && s.calls[c].fut == lead
    ensures var t := Apply(cfg, s, Finish(lead));
            var u := Apply(cfg, t, WaiterWakes(c));
            && lead in t.answers
            && (c in u.answers <==> s.core.futs[lead].Pending?)
            && (c in u.answers ==> u.answers[c].l == t.answers[lead].l)
  {
    assert CallOk(s, lead) && CallOk(s, c);
    assert Known(s, c) && Known(s, lead);
    var t := Apply(cfg, s, Finish(lead));
    assert c in t.calls && t.calls[c] == s.calls[c];
    assert t.core.futs[lead].Resolved? <==> s.core.futs[lead].Pending?;
  }

  /** The step settles the flight's pending future without a value, or ends its leader: the leader
      raises or is cancelled, or one of the waiters is cancelled. */
  predicate Spoils(s: State, e: Step, f: CallId) {
    && f in s.core.futs && s.core.futs[f].Pending?
    && (|| ((e.Raise? || e.LeaderCancelled?) && e.c == f && f in s.calls && Leads(s.calls[f]))
        || (e.WaiterCancelled? && e.c in s.calls && s.calls[e.c].Waiting? && s.calls[e.c].fut == f))
  }

  /** The waiter has the leader's value, or waits on a flight that is alive or has landed. */
  predicate Served(s: State, c: CallId, f: CallId) {
    && c < s.nextCall && f in s.core.futs && f < s.nextCall
    && (s.core.futs[f].Resolved? ==> f in s.answers && s.answers[f].l == s.core.futs[f].l)
    && if c in s.calls then
         && s.calls[c].Waiting? && s.calls[c].fut == f
         && (s.core.futs[f].Resolved? || (s.core.futs[f].Pending? && f in s.calls && Leads(s.calls[f])))
       else s.core.futs[f].Resolved? && c in s.answers && s.answers[c].l == s.answers[f].l
  }

  lemma SpoiledStep(cfg: Config, s: State, e: Step, c: CallId, f: CallId)
    requires s.rows != [] && Solo(s) && Served(s, c, f) && e != WaiterCancelled(c) && Spoils(s, e, f)
    ensures Stranded(Apply(cfg, s, e), c, f)
  {
    assert Known(s, c);
  }

  lemma ServedStep(cfg: Config, s: State, e: Step, c: CallId, f: CallId)
    requires s.rows != [] && Solo(s) && Refines(cfg, s) && Served(s, c, f) && e != WaiterCancelled(c)
        && !Spoils(s, e, f)
    ensures Served(Apply(cfg, s, e), c, f)
  {
    var t := Apply(cfg, s, e);
    StepMonotone(cfg, s, e);
    StepFut(cfg, s, e, f);
    if c in s.calls {
      assert Known(s, c);
      WaiterStep(cfg, s, e, c);
      LeaderStep(cfg, s, e, f);
    } else {
      assert Known(s, c);
      StepCall(cfg, s, e, c);
    }
  }

  /** A waiter that is not cancelled waits on, or wakes with what its future holds. */
  lemma WaiterStep(cfg: Config, s: State, e: Step, c: CallId)
    requires s.rows != [] && c in s.calls && s.calls[c].Waiting? && e != WaiterCancelled(c) && c < s.nextCall
    ensures var t := Apply(cfg, s, e);
            if c in t.calls then t.calls[c] == s.calls[c]
            else
              && s.calls[c].fut in s.core.futs && !s.core.futs[s.calls[c].fut].Pending? && t.core == s.core
              && (s.core.futs[s.calls[c].fut].Resolved? ==>
                  c in t.answers && t.answers[c].l == s.core.futs[s.calls[c].fut].l)
  {
  }

  /** A flight that is not spoiled stays alive or lands. */
  lemma LeaderStep(cfg: Config, s: State, e: Step, f: CallId)
    requires s.rows != [] && f in s.core.futs && f < s.nextCall && !Spoils(s, e, f)
    requires Refines(cfg, s)
    requires s.core.futs[f].Pending? ==> f in s.calls && Leads(s.calls[f])
    ensures var t := Apply(cfg, s, e);
            && f in t.core.futs
            && (s.core.futs[f].Pending? ==>
                  || (t.core.futs[f].Pending? && f in t.calls && Leads(t.calls[f]))
                  || (t.core.futs[f].Resolved? && f in t.answers && t.answers[f].l == t.core.futs[f].l))
  {
    if f in s.calls {
      assert CallOk(s, f);
    }
  }

  /** Some step of the run from position `n` on spoils the flight. */
  predicate Spoiled(cfg: Config, db: Db, ev: seq<Step>, n: nat, f: CallId)
    requires n <= |ev|
  {
    n < |ev|
    && (Spoils(After(cfg, db, ev[..|ev| - 1]), ev[|ev| - 1], f) || Spoiled(cfg, db, ev[..|ev| - 1], n, f))
  }

  /** The fate of a waiter that is not cancelled itself: stranded for good if the flight is spoiled,
      and otherwise it has the leader's value or waits for it. */
  lemma {:induction false} WaiterFate(cfg: Config, db: Db, ev: seq<Step>, n: nat, c: CallId, f: CallId)
    requires n <= |ev| && Served(After(cfg, db, ev[..n]), c, f)
    requires forall i :: n <= i < |ev| ==> ev[i] != WaiterCancelled(c)
    ensures if Spoiled(cfg, db, ev, n, f) then Stranded(After(cfg, db, ev), c, f) else Served(After(cfg, db, ev), c, f)
  {
    if n == |ev| {
      assert ev[..n] == ev;
    } else {
      var before, e := ev[..|ev| - 1], ev[|ev| - 1];
      var s := After(cfg, db, before);
      assert before[..n] == ev[..n];
      WaiterFate(cfg, db, before, n, c, f);
      SingleFlight(cfg, db, before);
      CacheRefinesLookup(cfg, db, before);
      if Spoiled(cfg, db, before, n, f) {
        StrandedStep(cfg, s, e, c, f);
      } else if Spoils(s, e, f) {
        SpoiledStep(cfg, s, e, c, f);
      } else {
        ServedStep(cfg, s, e, c, f);
      }
    }
  }

  /** All waiters of a flight get the leader's result: in every run, a waiter that joined a live flight,
      was not cancelled itself and is done returned the leader's value if and only if the leader
      neither raised nor was cancelled and no fellow waiter was cancelled first. */
  lemma WaiterAnsweredIff(cfg: Config, db: Db, ev: seq<Step>, n: nat, c: CallId, f: CallId)
    requires n <= |ev| && Served(After(cfg, db, ev[..n]), c, f)
    requires forall i :: n <= i < |ev| ==> ev[i] != WaiterCancelled(c)
    requires c !in After(cfg, db, ev).calls
    ensures var s := After(cfg, db, ev);
            && (c in s.answers <==> !Spoiled(cfg, db, ev, n, f))
            && (c in s.answers ==> f in s.answers && s.answers[c].l == s.answers[f].l)
  {
    WaiterFate(cfg, db, ev, n, c, f);
  }

  /** A call that finds a lookup under way joins it, and is served as long as nobody spoiled it. */
  lemma JoiningIsServed(cfg: Config, db: Db, ev: seq<Step>, h: Hash)
    requires var s := After(cfg, db, ev);
             && h in s.core.inflight && !Hit(cfg, s.core, h, Now(s))
             && s.core.inflight[h] in s.core.futs && s.core.futs[s.core.inflight[h]].Pending?
    ensures var s := After(cfg, db, ev);
            Served(Apply(cfg, s, Resolve(h)), s.nextCall, s.core.inflight[h])
  {
    SingleFlight(cfg, db, ev);
    var s := After(cfg, db, ev);
    assert Flying(s, h);
    assert Known(s, s.core.inflight[h]);
  }
}
