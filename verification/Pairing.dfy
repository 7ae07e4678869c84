/** The runner's two-queue pairing of permission requests with tool-use blocks. */
module Pairing {
  import opened Basics

  /** A tool name with its frozen input. */
  datatype Key = Key(name: string, input: set<(string, string)>)

  datatype Pend = Pend(id: string, key: Key)

  /** `made` collects every (tool_use_id, req_id) pair ever registered. */
  datatype State = State(perms: seq<Pend>, blocks: seq<Pend>, links: map<string, string>, made: set<(string, string)>)

  datatype Step =
    | Perm(req: string, key: Key)
    | Block(use: string, key: Key)
    | Result(use: string)

  const Start := State([], [], map[], {})

  /** Position of the oldest entry of a key, or the length. */
  function First(q: seq<Pend>, k: Key): (i: nat)
    ensures i <= |q| && (i < |q| ==> q[i].key == k) && forall n :: 0 <= n < i ==> q[n].key != k
  {
    if q == [] || q[0].key == k then 0 else 1 + First(q[1..], k)
  }

  function Cut(q: seq<Pend>, i: nat): seq<Pend>
    requires i < |q|
  {
    q[..i] + q[i + 1..]
  }

  function Link(s: State, use: string, req: string): State {
    s.(links := s.links[use := req], made := s.made + {(use, req)})
  }

  function Apply(s: State, e: Step): State {
    match e
    case Perm(req, key) =>
      var i := First(s.blocks, key);
      if i < |s.blocks| then Link(s, s.blocks[i].id, req).(blocks := Cut(s.blocks, i))
      else s.(perms := s.perms + [Pend(req, key)])
    case Block(use, key) =>
      var i := First(s.perms, key);
      if i < |s.perms| then Link(s, use, s.perms[i].id).(perms := Cut(s.perms, i))
      else s.(blocks := s.blocks + [Pend(use, key)])
    case Result(use) => s.(links := s.links - {use})
  }

  function After(ev: seq<Step>): State {
    if ev == [] then Start else Apply(After(ev[..|ev| - 1]), ev[|ev| - 1])
  }

  // ---------------------------------------------------------------- the object

  class PairingTable {
    var pendingPerms: seq<Pend>
    var pendingUseBlocks: seq<Pend>
    var useIdToReqId: map<string, string>
    ghost var made: set<(string, string)>

    ghost function View(): State
      reads this
    {
      State(pendingPerms, pendingUseBlocks, useIdToReqId, made)
    }

    constructor ()
      ensures View() == Start
    {
      pendingPerms, pendingUseBlocks, useIdToReqId, made := [], [], map[], {};
    }

    /** The scan both pairing helpers make: the oldest entry of the key, taken out of the queue. */
    static method TakeFirst(q: seq<Pend>, k: Key) returns (found: Option<string>, rest: seq<Pend>)
      ensures First(q, k) == |q| ==> found == None && rest == q
      ensures First(q, k) < |q| ==> found == Some(q[First(q, k)].id) && rest == Cut(q, First(q, k))
    {
      var i := 0;
      while i < |q|
        invariant 0 <= i <= |q|
        invariant forall n :: 0 <= n < i ==> q[n].key != k
      {
        if q[i].key == k {
          return Some(q[i].id), q[..i] + q[i + 1..];
        }
        i := i + 1;
      }
      return None, q;
    }

    method CanUseTool(req: string, key: Key)
      modifies this
      ensures View() == Apply(old(View()), Perm(req, key))
    {
      var use, rest := TakeFirst(pendingUseBlocks, key);
      if use.Some? {
        pendingUseBlocks := rest;
        useIdToReqId := useIdToReqId[use.value := req];
        made := made + {(use.value, req)};
      } else {
        pendingPerms := pendingPerms + [Pend(req, key)];
      }
    }

    method ToolUseBlock(use: string, key: Key)
      modifies this
      ensures View() == Apply(old(View()), Block(use, key))
    {
      var req, rest := TakeFirst(pendingPerms, key);
      if req.Some? {
        pendingPerms := rest;
        useIdToReqId := useIdToReqId[use := req.value];
        made := made + {(use, req.value)};
      } else {
        pendingUseBlocks := pendingUseBlocks + [Pend(use, key)];
      }
    }

    /** A tool result consumes its mapping; the empty string stands for "unknown". */
    method ToolResult(use: string) returns (req: string)
      modifies this
      ensures req == if use in old(useIdToReqId) then old(useIdToReqId)[use] else ""
      ensures View() == Apply(old(View()), Result(use))
    {
      req := if use in useIdToReqId then useIdToReqId[use] else "";
      useIdToReqId := useIdToReqId - {use};
    }
  }

  // ---------------------------------------------------------------- arrival order per key

  function PermsOf(ev: seq<Step>, k: Key): seq<string> {
    if ev == [] then []
    else
      var e := ev[|ev| - 1];
      PermsOf(ev[..|ev| - 1], k) + (if e.Perm? && e.key == k then [e.req] else [])
  }

  function BlocksOf(ev: seq<Step>, k: Key): seq<string> {
    if ev == [] then []
    else
      var e := ev[|ev| - 1];
      BlocksOf(ev[..|ev| - 1], k) + (if e.Block? && e.key == k then [e.use] else [])
  }

  /** The ids of one key in a queue, oldest first. */
  function Ids(q: seq<Pend>, k: Key): seq<string> {
    if q == [] then [] else (if q[0].key == k then [q[0].id] else []) + Ids(q[1..], k)
  }

  function Beyond(s: seq<string>, n: nat): seq<string> {
    if n <= |s| then s[n..] else []
  }

  lemma {:induction false} IdsConcat(a: seq<Pend>, b: seq<Pend>, k: Key)
    ensures Ids(a + b, k) == Ids(a, k) + Ids(b, k)
  {
    if a == [] {
      assert a + b == b;
    } else {
      assert (a + b)[1..] == a[1..] + b;
      IdsConcat(a[1..], b, k);
    }
  }

  lemma {:induction false} IdsNone(q: seq<Pend>, k: Key)
    requires forall n :: 0 <= n < |q| ==> q[n].key != k
    ensures Ids(q, k) == []
  {
    if q != [] {
      IdsNone(q[1..], k);
    }
  }

  /** The ids of a key around one position of a queue. */
  lemma IdsAround(q: seq<Pend>, i: nat, x: Key)
    requires i < |q|
    ensures Ids(q, x) == Ids(q[..i], x) + (if q[i].key == x then [q[i].id] else []) + Ids(q[i + 1..], x)
    ensures Ids(Cut(q, i), x) == Ids(q[..i], x) + Ids(q[i + 1..], x)
  {
    assert q == q[..i] + q[i..];
    IdsConcat(q[..i], q[i..], x);
    assert q[i..][1..] == q[i + 1..];
    IdsConcat(q[..i], q[i + 1..], x);
  }

  /** Taking out the oldest entry of a key removes the head of that key's ids and nothing else. */
  lemma IdsCut(q: seq<Pend>, k: Key, x: Key)
    requires First(q, k) < |q|
    ensures var i := First(q, k);
            && Ids(q, k) == [q[i].id] + Ids(Cut(q, i), k)
            && (x != k ==> Ids(Cut(q, i), x) == Ids(q, x))
  {
    var i := First(q, k);
    IdsNone(q[..i], k);
    IdsAround(q, i, k);
    IdsAround(q, i, x);
  }

  lemma IdsMiss(q: seq<Pend>, k: Key)
    ensures Ids(q, k) == [] <==> First(q, k) == |q|
  {
    if First(q, k) < |q| {
      IdsCut(q, k, k);
    } else {
      IdsNone(q, k);
    }
  }

  /** What the queues hold for a key: the permissions beyond the blocks seen, the blocks beyond the
      permissions asked. */
  predicate Queued(s: State, ps: seq<string>, bs: seq<string>, k: Key) {
    Ids(s.perms, k) == Beyond(ps, |bs|) && Ids(s.blocks, k) == Beyond(bs, |ps|)
  }

  /** One more arrival on one side: it eats the head of the other side's surplus, or joins its own. */
  lemma BeyondStep(xs: seq<string>, ys: seq<string>, x: string)
    ensures Beyond(ys, |xs|) != [] ==>
        Beyond(xs + [x], |ys|) == [] == Beyond(xs, |ys|) && Beyond(ys, |xs| + 1) == Beyond(ys, |xs|)[1..]
    ensures Beyond(ys, |xs|) == [] ==> Beyond(xs + [x], |ys|) == Beyond(xs, |ys|) + [x] && Beyond(ys, |xs| + 1) == []
  {
  }

  lemma QueuedPerm(s: State, ps: seq<string>, bs: seq<string>, req: string, key: Key, k: Key)
    requires Queued(s, ps, bs, k)
    ensures Queued(Apply(s, Perm(req, key)), if key == k then ps + [req] else ps, bs, k)
  {
    BeyondStep(ps, bs, req);
    IdsMiss(s.blocks, key);
    if First(s.blocks, key) < |s.blocks| {
      IdsCut(s.blocks, key, k);
    } else {
      IdsConcat(s.perms, [Pend(req, key)], k);
    }
  }

  lemma QueuedBlock(s: State, ps: seq<string>, bs: seq<string>, use: string, key: Key, k: Key)
    requires Queued(s, ps, bs, k)
    ensures Queued(Apply(s, Block(use, key)), ps, if key == k then bs + [use] else bs, k)
  {
    BeyondStep(bs, ps, use);
    IdsMiss(s.perms, key);
    if First(s.perms, key) < |s.perms| {
      IdsCut(s.perms, key, k);
    } else {
      IdsConcat(s.blocks, [Pend(use, key)], k);
    }
  }

  /** The pair of the i-th block and the i-th permission of a key. */
  predicate Ranked(ps: seq<string>, bs: seq<string>, i: int, use: string, req: string) {
    0 <= i < |ps| && i < |bs| && bs[i] == use && ps[i] == req
  }

  ghost predicate SameRank(ev: seq<Step>, use: string, req: string, k: Key) {
    exists i :: Ranked(PermsOf(ev, k), BlocksOf(ev, k), i, use, req)
  }

  lemma RankGrows(ps: seq<string>, bs: seq<string>, ps': seq<string>, bs': seq<string>, use: string, req: string)
    requires ps <= ps' && bs <= bs'
    requires exists i :: Ranked(ps, bs, i, use, req)
    ensures exists i :: Ranked(ps', bs', i, use, req)
  {
    var i :| Ranked(ps, bs, i, use, req);
    assert Ranked(ps', bs', i, use, req);
  }

  /** The pair a step registers, if any, and the key it belongs to. */
  function NewPair(s: State, e: Step): Option<(string, string)> {
    match e
    case Perm(req, key) =>
      if First(s.blocks, key) < |s.blocks| then Some((s.blocks[First(s.blocks, key)].id, req)) else None
    case Block(use, key) =>
      if First(s.perms, key) < |s.perms| then Some((use, s.perms[First(s.perms, key)].id)) else None
    case Result(_) => None
  }

  lemma MadeStep(s: State, e: Step)
    ensures Apply(s, e).made == s.made + (if NewPair(s, e).Some? then {NewPair(s, e).value} else {})
  {
  }

  /** A new pair has the rank of the block and permission that complete it. */
  lemma NewPairRank(s: State, ps: seq<string>, bs: seq<string>, e: Step)
    requires !e.Result? && Queued(s, ps, bs, e.key)
    ensures var ps' := ps + (if e.Perm? then [e.req] else []);
            var bs' := bs + (if e.Block? then [e.use] else []);
            && (NewPair(s, e).Some? ==>
                Ranked(ps', bs', if e.Perm? then |ps| else |bs|, NewPair(s, e).value.0, NewPair(s, e).value.1))
            && (NewPair(s, e).None? ==> if e.Perm? then |ps| >= |bs| else |bs| >= |ps|)
  {
    if e.Perm? {
      IdsMiss(s.blocks, e.key);
      if First(s.blocks, e.key) < |s.blocks| {
        IdsCut(s.blocks, e.key, e.key);
      }
    } else {
      IdsMiss(s.perms, e.key);
      if First(s.perms, e.key) < |s.perms| {
        IdsCut(s.perms, e.key, e.key);
      }
    }
  }

  lemma QueuedStep(s: State, ps: seq<string>, bs: seq<string>, e: Step, k: Key)
    requires Queued(s, ps, bs, k)
    ensures Queued(Apply(s, e), if e.Perm? && e.key == k then ps + [e.req] else ps,
                   if e.Block? && e.key == k then bs + [e.use] else bs, k)
  {
    match e
    case Perm(req, key) => QueuedPerm(s, ps, bs, req, key, k);
    case Block(use, key) => QueuedBlock(s, ps, bs, use, key, k);
    case Result(_) =>
  }

  /** The queues after any run. */
  lemma {:induction false} QueuesHoldTheSurplus(ev: seq<Step>, k: Key)
    ensures Queued(After(ev), PermsOf(ev, k), BlocksOf(ev, k), k)
  {
    if ev != [] {
      var before, e := ev[..|ev| - 1], ev[|ev| - 1];
      var ps, bs := PermsOf(before, k), BlocksOf(before, k);
      QueuesHoldTheSurplus(before, k);
      QueuedStep(After(before), ps, bs, e, k);
    }
  }

  /** No key ever waits in both queues. */
  lemma {:induction false} NeverInBothQueues(ev: seq<Step>, p: Pend, b: Pend)
    requires p in After(ev).perms && b in After(ev).blocks
    ensures p.key != b.key
  {
    var s := After(ev);
    if p.key == b.key {
      QueuesHoldTheSurplus(ev, p.key);
      var i :| 0 <= i < |s.perms| && s.perms[i] == p;
      var j :| 0 <= j < |s.blocks| && s.blocks[j] == b;
      IdsMiss(s.perms, p.key);
      IdsMiss(s.blocks, p.key);
      assert false;
    }
  }

  /** Every registered pair joins the k-th block and the k-th permission of one key... */
  lemma {:induction false} PairsHaveEqualRank(ev: seq<Step>, use: string, req: string)
    requires (use, req) in After(ev).made
    ensures exists k :: SameRank(ev, use, req, k)
  {
    var before, e := ev[..|ev| - 1], ev[|ev| - 1];
    var s := After(before);
    MadeStep(s, e);
    if (use, req) in s.made {
      PairsHaveEqualRank(before, use, req);
      var k :| SameRank(before, use, req, k);
      RankGrows(PermsOf(before, k), BlocksOf(before, k), PermsOf(ev, k), BlocksOf(ev, k), use, req);
      assert SameRank(ev, use, req, k);
    } else {
      QueuesHoldTheSurplus(before, e.key);
      NewPairRank(s, PermsOf(before, e.key), BlocksOf(before, e.key), e);
      var i := if e.Perm? then |PermsOf(before, e.key)| else |BlocksOf(before, e.key)|;
      assert Ranked(PermsOf(ev, e.key), BlocksOf(ev, e.key), i, use, req);
      assert SameRank(ev, use, req, e.key);
    }
  }

  /** ... and every block and permission of equal rank are registered as a pair. */
  lemma {:induction false} EqualRankIsPaired(ev: seq<Step>, k: Key, i: nat)
    requires i < |PermsOf(ev, k)| && i < |BlocksOf(ev, k)|
    ensures (BlocksOf(ev, k)[i], PermsOf(ev, k)[i]) in After(ev).made
  {
    var before, e := ev[..|ev| - 1], ev[|ev| - 1];
    var s := After(before);
    MadeStep(s, e);
    if i < |PermsOf(before, k)| && i < |BlocksOf(before, k)| {
      EqualRankIsPaired(before, k, i);
    } else {
      QueuesHoldTheSurplus(before, k);
      NewPairRank(s, PermsOf(before, k), BlocksOf(before, k), e);
    }
  }

  /** The pairs registered by a run, and what is left in the queues for each key, depend only on the
      arrival order within each key, not on how keys, permissions and blocks interleave. */
  lemma PairingConfluence(ev: seq<Step>, ev': seq<Step>)
    requires forall k :: PermsOf(ev, k) == PermsOf(ev', k) && BlocksOf(ev, k) == BlocksOf(ev', k)
    ensures After(ev).made == After(ev').made
    ensures forall k :: Ids(After(ev).perms, k) == Ids(After(ev').perms, k)
    ensures forall k :: Ids(After(ev).blocks, k) == Ids(After(ev').blocks, k)
  {
    MadeIncluded(ev, ev');
    MadeIncluded(ev', ev);
    forall k
      ensures Ids(After(ev).perms, k) == Ids(After(ev').perms, k)
          && Ids(After(ev).blocks, k) == Ids(After(ev').blocks, k)
    {
      assert PermsOf(ev, k) == PermsOf(ev', k);
      QueuesHoldTheSurplus(ev, k);
      QueuesHoldTheSurplus(ev', k);
    }
  }

  lemma SameOrderSamePair(ev: seq<Step>, ev': seq<Step>, use: string, req: string)
    requires forall k :: PermsOf(ev, k) == PermsOf(ev', k) && BlocksOf(ev, k) == BlocksOf(ev', k)
    requires (use, req) in After(ev).made
    ensures (use, req) in After(ev').made
  {
    PairsHaveEqualRank(ev, use, req);
    var k :| SameRank(ev, use, req, k);
    assert PermsOf(ev, k) == PermsOf(ev', k) && BlocksOf(ev, k) == BlocksOf(ev', k);
    var i :| Ranked(PermsOf(ev, k), BlocksOf(ev, k), i, use, req);
    EqualRankIsPaired(ev', k, i);
  }

  lemma MadeIncluded(ev: seq<Step>, ev': seq<Step>)
    requires forall k :: PermsOf(ev, k) == PermsOf(ev', k) && BlocksOf(ev, k) == BlocksOf(ev', k)
    ensures After(ev).made <= After(ev').made
  {
    forall p | p in After(ev).made ensures p in After(ev').made {
      SameOrderSamePair(ev, ev', p.0, p.1);
    }
  }

  // ---------------------------------------------------------------- fresh ids

  /** No tool_use_id and no req_id is used by two arrivals. */
  predicate FreshIds(ev: seq<Step>) {
    && (forall i, j :: 0 <= i < j < |ev| && ev[i].Block? && ev[j].Block? ==> ev[i].use != ev[j].use)
    && (forall i, j :: 0 <= i < j < |ev| && ev[i].Perm? && ev[j].Perm? ==> ev[i].req != ev[j].req)
  }

  lemma {:induction false} ArrivedBlock(ev: seq<Step>, k: Key, i: nat) returns (n: nat)
    requires i < |BlocksOf(ev, k)|
    ensures n < |ev| && ev[n] == Block(BlocksOf(ev, k)[i], k) && i == |BlocksOf(ev[..n], k)|
  {
    n := |ev| - 1;
    if i < |BlocksOf(ev[..n], k)| {
      var m := ArrivedBlock(ev[..n], k, i);
      assert ev[..n][..m] == ev[..m];
      n := m;
    }
  }

  lemma {:induction false} ArrivedPerm(ev: seq<Step>, k: Key, i: nat) returns (n: nat)
    requires i < |PermsOf(ev, k)|
    ensures n < |ev| && ev[n] == Perm(PermsOf(ev, k)[i], k) && i == |PermsOf(ev[..n], k)|
  {
    n := |ev| - 1;
    if i < |PermsOf(ev[..n], k)| {
      var m := ArrivedPerm(ev[..n], k, i);
      assert ev[..n][..m] == ev[..m];
      n := m;
    }
  }

  /** With fresh ids the pairs form a one-to-one map between tool_use_ids and req_ids. */
  lemma PairsAreOneToOne(ev: seq<Step>, use: string, req: string, use': string, req': string)
    requires FreshIds(ev) && (use, req) in After(ev).made && (use', req') in After(ev).made
    ensures use == use' <==> req == req'
  {
    PairsHaveEqualRank(ev, use, req);
    PairsHaveEqualRank(ev, use', req');
    var k :| SameRank(ev, use, req, k);
    var k' :| SameRank(ev, use', req', k');
    var i :| Ranked(PermsOf(ev, k), BlocksOf(ev, k), i, use, req);
    var i' :| Ranked(PermsOf(ev, k'), BlocksOf(ev, k'), i', use', req');
    var b := ArrivedBlock(ev, k, i);
    var b' := ArrivedBlock(ev, k', i');
    var p := ArrivedPerm(ev, k, i);
    var p' := ArrivedPerm(ev, k', i');
    if use == use' {
      assert b == b';
    }
    if req == req' {
      assert p == p';
    }
  }

  lemma LinksStep(s: State, e: Step)
    requires forall u <- s.links :: (u, s.links[u]) in s.made
    ensures forall u <- Apply(s, e).links :: (u, Apply(s, e).links[u]) in Apply(s, e).made
  {
    MadeStep(s, e);
    var pair := NewPair(s, e);
    if pair.Some? {
      assert Apply(s, e).links == s.links[pair.value.0 := pair.value.1];
    }
  }

  /** The dictionary only ever holds registered pairs. */
  lemma {:induction false} LinksAreMade(ev: seq<Step>)
    ensures forall u <- After(ev).links :: (u, After(ev).links[u]) in After(ev).made
  {
    if ev != [] {
      LinksAreMade(ev[..|ev| - 1]);
      LinksStep(After(ev[..|ev| - 1]), ev[|ev| - 1]);
    }
  }

  /** The step registers a pair for this tool_use_id. */
  predicate Registers(s: State, e: Step, use: string) {
    NewPair(s, e).Some? && NewPair(s, e).value.0 == use
  }

  /** A pair for the id was registered in the run, and no result for it came since. */
  predicate Outstanding(ev: seq<Step>, use: string) {
    ev != [] &&
    (var before, e := ev[..|ev| - 1], ev[|ev| - 1];
     Registers(After(before), e, use) || (e != Result(use) && Outstanding(before, use)))
  }

  lemma LinkStepIff(s: State, e: Step, use: string)
    ensures use in Apply(s, e).links <==> Registers(s, e, use) || (use in s.links && e != Result(use))
  {
  }

  /** And it holds exactly those not yet consumed: an id is in the dictionary if and only if it was
      paired and no result for it has come since. */
  lemma {:induction false} LinkedIff(ev: seq<Step>, use: string)
    ensures use in After(ev).links <==> Outstanding(ev, use)
  {
    if ev != [] {
      LinkedIff(ev[..|ev| - 1], use);
      LinkStepIff(After(ev[..|ev| - 1]), ev[|ev| - 1], use);
    }
  }
}
