/** The durable event store: the SQL table whose next seq is MAX(seq) + 1, and the in-memory list
    with a counter. */
module DurableStore {
  import opened Basics

  // ---------------------------------------------------------------- the table

  /** The stored seqs in `(lo, hi]`, ascending. */
  function Window<E>(rows: map<nat, E>, lo: int, hi: nat): seq<nat> {
    if hi <= lo || hi == 0 then []
    else Window(rows, lo, hi - 1) + (if hi in rows then [hi] else [])
  }

  /** COALESCE(MAX(seq), 0). */
  function MaxSeq(seqs: set<nat>): (m: nat)
    ensures forall n <- seqs :: n <= m
    ensures seqs == {} ==> m == 0
    ensures seqs != {} ==> m in seqs
  {
    if seqs == {} then 0
    else
      ExistsMax(seqs);
      var n: nat :| IsMax(seqs, n);
      n
  }

  predicate IsMax(seqs: set<nat>, n: nat) {
    n in seqs && forall k <- seqs :: k <= n
  }

  lemma {:induction false} ExistsMax(seqs: set<nat>)
    requires seqs != {}
    ensures exists n :: IsMax(seqs, n)
  {
    var n :| n in seqs;
    var rest := seqs - {n};
    assert seqs == rest + {n};
    if rest == {} {
      assert IsMax(seqs, n);
    } else {
      ExistsMax(rest);
      var m :| IsMax(rest, m);
      assert IsMax(seqs, if m < n then n else m);
    }
  }

  function Take<T>(s: seq<T>, n: nat): seq<T> {
    if n <= |s| then s[..n] else s
  }

  /** SELECT ... WHERE seq > last ORDER BY seq ASC LIMIT limit. */
  function Fetch<E>(rows: map<nat, E>, last: int, limit: nat): seq<nat> {
    Take(Window(rows, last, MaxSeq(rows.Keys)), limit)
  }

  lemma {:induction false} InWindow<E>(rows: map<nat, E>, lo: int, hi: nat, n: nat)
    ensures n in Window(rows, lo, hi) <==> n in rows && n > 0 && lo < n <= hi
  {
    if !(hi <= lo || hi == 0) {
      InWindow(rows, lo, hi - 1, n);
    }
  }

  lemma {:induction false} WindowAscends<E>(rows: map<nat, E>, lo: int, hi: nat, i: nat, k: nat)
    requires i < k < |Window(rows, lo, hi)|
    ensures Window(rows, lo, hi)[i] < Window(rows, lo, hi)[k]
  {
    var w := Window(rows, lo, hi - 1);
    if k < |w| {
      WindowAscends(rows, lo, hi - 1, i, k);
    } else {
      InWindow(rows, lo, hi - 1, w[i]);
    }
  }

  lemma WindowExact<E>(rows: map<nat, E>, lo: int, hi: nat)
    ensures var w := Window(rows, lo, hi);
            && (forall n: nat :: n in w <==> n in rows && n > 0 && lo < n <= hi)
            && (forall i, k :: 0 <= i < k < |w| ==> w[i] < w[k])
  {
    var w := Window(rows, lo, hi);
    forall n: nat ensures n in w <==> n in rows && n > 0 && lo < n <= hi {
      InWindow(rows, lo, hi, n);
    }
    forall i, k | 0 <= i < k < |w| ensures w[i] < w[k] {
      WindowAscends(rows, lo, hi, i, k);
    }
  }

  lemma {:induction false} WindowSplit<E>(rows: map<nat, E>, lo: int, mid: nat, hi: nat)
    requires lo <= mid <= hi
    ensures Window(rows, lo, hi) == Window(rows, lo, mid) + Window(rows, mid, hi)
  {
    if mid < hi {
      WindowSplit(rows, lo, mid, hi - 1);
    } else {
      assert Window(rows, mid, hi) == [];
    }
  }

  /** A page is the window up to its last seq. */
  lemma {:induction false} PageIsWindow<E>(rows: map<nat, E>, lo: int, hi: nat, n: nat)
    requires 1 <= n <= |Window(rows, lo, hi)|
    ensures Window(rows, lo, hi)[..n] == Window(rows, lo, Window(rows, lo, hi)[n - 1])
    ensures lo < Window(rows, lo, hi)[n - 1] <= hi
  {
    var shorter := Window(rows, lo, hi - 1);
    if n <= |shorter| {
      PageIsWindow(rows, lo, hi - 1, n);
      assert Window(rows, lo, hi)[..n] == shorter[..n];
    } else {
      assert Window(rows, lo, hi)[n - 1] == hi;
    }
  }

  /** One page, and what is left for the next cursor. */
  lemma PageStep<E>(rows: map<nat, E>, last: int, limit: nat)
    requires limit >= 1
    ensures var hi := MaxSeq(rows.Keys);
            var page := Fetch(rows, last, limit);
            if page == [] then Window(rows, last, hi) == []
            else last < page[|page| - 1] <= hi && Window(rows, last, hi) == page + Window(rows, page[|page| - 1], hi)
  {
    var hi := MaxSeq(rows.Keys);
    var w, page := Window(rows, last, hi), Fetch(rows, last, limit);
    assert |page| <= |w| && page == w[..|page|];
    if page != [] {
      PageIsWindow(rows, last, hi, |page|);
      WindowSplit(rows, last, page[|page| - 1], hi);
    }
  }

  /** What is still to come after the pages seen so far. */
  function Rest<E>(rows: map<nat, E>, last: int): seq<nat> {
    Window(rows, last, MaxSeq(rows.Keys))
  }

  lemma PageMore<E>(rows: map<nat, E>, seen: seq<nat>, last: int, limit: nat)
    requires limit >= 1
    ensures var page := Fetch(rows, last, limit);
            if page == [] then Rest(rows, last) == []
            else
              && last < page[|page| - 1] <= MaxSeq(rows.Keys)
              && seen + Rest(rows, last) == (seen + page) + Rest(rows, page[|page| - 1])
  {
    PageStep(rows, last, limit);
  }

  /** Paging with the last seq seen as the next cursor visits every stored event past the start
      once, in order. */
  method PageAll<E>(rows: map<nat, E>, start: int, limit: nat) returns (seen: seq<nat>)
    requires limit >= 1
    ensures seen == Window(rows, start, MaxSeq(rows.Keys))
    ensures forall n: nat :: n in seen <==> n in rows && n > 0 && n > start
    ensures forall i, k :: 0 <= i < k < |seen| ==> seen[i] < seen[k]
  {
    var last := start;
    seen := [];
    ghost var all := Rest(rows, start);
    var page := Fetch(rows, last, limit);
    while page != []
      invariant page == Fetch(rows, last, limit)
      invariant all == seen + Rest(rows, last)
      decreases MaxSeq(rows.Keys) - last
    {
      PageMore(rows, seen, last, limit);
      seen := seen + page;
      last := page[|page| - 1];
      page := Fetch(rows, last, limit);
    }
    PageMore(rows, seen, last, limit);
    assert seen + [] == seen;
    WindowExact(rows, start, MaxSeq(rows.Keys));
  }

  // ---------------------------------------------------------------- the two stores agree

  datatype Mem<E> = Mem(events: seq<(nat, E)>, next: nat)

  datatype Op<E> = Persist(e: E) | FetchAfter(last: int, limit: nat)
  datatype Out<E> = Assigned(seq_: nat) | Events(es: seq<E>)

  function Past<E>(events: seq<(nat, E)>, last: int): seq<E> {
    if events == [] then []
    else
      var n := |events| - 1;
      Past(events[..n], last) + (if events[n].0 > last then [events[n].1] else [])
  }

  function Rows<E>(rows: map<nat, E>, seqs: seq<nat>): seq<E>
    requires forall n <- seqs :: n in rows
  {
    seq(|seqs|, i requires 0 <= i < |seqs| => rows[seqs[i]])
  }

  class InMemoryDurableEventStore<E> {
    var events: seq<(nat, E)>
    var nextSeq: nat

    function View(): Mem<E>
      reads this
    {
      Mem(events, nextSeq)
    }

    constructor ()
      ensures View() == Mem([], 1)
    {
      events, nextSeq := [], 1;
    }

    method PersistEvent(e: E) returns (n: nat)
      modifies this
      ensures n == old(nextSeq) && View() == Mem(old(events) + [(n, e)], n + 1)
    {
      n := nextSeq;
      nextSeq := nextSeq + 1;
      events := events + [(n, e)];
    }

    method Fetch(last: int, limit: nat) returns (window: seq<E>)
      ensures window == Take(Past(events, last), limit)
    {
      window := [];
      for i := 0 to |events|
        invariant window == Past(events[..i], last)
      {
        assert events[..i + 1][..i] == events[..i];
        if events[i].0 > last {
          window := window + [events[i].1];
        }
      }
      assert events[..|events|] == events;
      window := Take(window, limit);
    }
  }

  class SqlDurableEventStore<E> {
    var rows: map<nat, E>

    constructor ()
      ensures rows == map[]
    {
      rows := map[];
    }

    method PersistEvent(e: E) returns (n: nat)
      modifies this
      ensures n == MaxSeq(old(rows).Keys) + 1 && rows == old(rows)[n := e]
    {
      n := MaxSeq(rows.Keys) + 1;
      rows := rows[n := e];
    }

    method FetchEvents(last: int, limit: nat) returns (window: seq<E>)
      ensures (forall n <- Fetch(rows, last, limit) :: n in rows) && window == Rows(rows, Fetch(rows, last, limit))
    {
      FetchedAreStored(rows, last, limit);
      var seqs := Fetch(rows, last, limit);
      window := [];
      for i := 0 to |seqs|
        invariant window == Rows(rows, seqs[..i])
      {
        window := window + [rows[seqs[i]]];
      }
      assert seqs[..|seqs|] == seqs;
    }
  }

  lemma FetchedAreStored<E>(rows: map<nat, E>, last: int, limit: nat)
    ensures forall n <- Fetch(rows, last, limit) :: n in rows
  {
    WindowExact(rows, last, MaxSeq(rows.Keys));
  }

  /** The table holds seqs 1..n and the list holds the same events in the same order. */
  ghost predicate Same<E>(m: Mem<E>, rows: map<nat, E>) {
    && m.next == |m.events| + 1
    && (forall i :: 0 <= i < |m.events| ==> m.events[i].0 == i + 1)
    && (forall n: nat :: n in rows <==> 1 <= n <= |m.events|)
    && (forall i :: 0 <= i < |m.events| ==> i + 1 in rows && rows[i + 1] == m.events[i].1)
  }

  lemma SameMax<E>(m: Mem<E>, rows: map<nat, E>)
    requires Same(m, rows)
    ensures MaxSeq(rows.Keys) == |m.events|
  {
    if |m.events| > 0 {
      assert |m.events| in rows;
    }
  }

  lemma RowsThen<E>(rows: map<nat, E>, w: seq<nat>, n: nat)
    requires n in rows && forall k <- w :: k in rows
    ensures (forall k <- w + [n] :: k in rows) && Rows(rows, w + [n]) == Rows(rows, w) + [rows[n]]
  {
  }

  lemma {:induction false} SameWindow<E>(m: Mem<E>, rows: map<nat, E>, last: int, hi: nat)
    requires Same(m, rows) && hi <= |m.events|
    ensures (forall n <- Window(rows, last, hi) :: n in rows)
    ensures Past(m.events[..hi], last) == Rows(rows, Window(rows, last, hi))
  {
    if hi > 0 {
      SameWindow(m, rows, last, hi - 1);
      var shorter := Window(rows, last, hi - 1);
      assert m.events[..hi][..hi - 1] == m.events[..hi - 1];
      assert m.events[hi - 1].0 == hi && hi in rows && rows[hi] == m.events[hi - 1].1;
      if hi <= last {
        assert shorter == [] && Window(rows, last, hi) == [];
      } else {
        assert Window(rows, last, hi) == shorter + [hi];
        RowsThen(rows, shorter, hi);
      }
    }
  }

  lemma RowsTake<E>(rows: map<nat, E>, w: seq<nat>, limit: nat)
    requires forall n <- w :: n in rows
    ensures (forall n <- Take(w, limit) :: n in rows) && Rows(rows, Take(w, limit)) == Take(Rows(rows, w), limit)
  {
  }

  lemma FetchAgrees<E>(m: Mem<E>, rows: map<nat, E>, last: int, limit: nat)
    requires Same(m, rows)
    ensures (forall n <- Fetch(rows, last, limit) :: n in rows)
    ensures Take(Past(m.events, last), limit) == Rows(rows, Fetch(rows, last, limit))
  {
    SameMax(m, rows);
    SameWindow(m, rows, last, |m.events|);
    assert m.events[..|m.events|] == m.events;
    RowsTake(rows, Window(rows, last, |m.events|), limit);
  }

  /** Run the same calls against both stores: every call returns the same value. */
  method RunBoth<E(==)>(ops: seq<Op<E>>) returns (mem: seq<Out<E>>, sql: seq<Out<E>>)
    ensures |mem| == |sql| == |ops| && mem == sql
  {
    var a := new InMemoryDurableEventStore<E>();
    var b := new SqlDurableEventStore<E>();
    mem, sql := [], [];
    for i := 0 to |ops|
      invariant fresh(a) && fresh(b)
      invariant |mem| == i && mem == sql
      invariant Same(a.View(), b.rows)
    {
      SameMax(a.View(), b.rows);
      match ops[i] {
        case Persist(e) =>
          var m := a.PersistEvent(e);
          var s := b.PersistEvent(e);
          mem, sql := mem + [Assigned(m)], sql + [Assigned(s)];
        case FetchAfter(last, limit) =>
          FetchAgrees(a.View(), b.rows, last, limit);
          var m := a.Fetch(last, limit);
          var s := b.FetchEvents(last, limit);
          mem, sql := mem + [Events(m)], sql + [Events(s)];
      }
    }
  }

  // ---------------------------------------------------------------- pruning

  /** After a prune the next seq is above every seq ever assigned exactly when the newest row
      survived. */
  lemma SeqGrowsIffTopKept<E>(rows: map<nat, E>, pruned: set<nat>)
    requires rows.Keys != {} && 0 !in rows
    ensures MaxSeq((rows - pruned).Keys) + 1 > MaxSeq(rows.Keys) <==> MaxSeq(rows.Keys) !in pruned
  {
    var left := (rows - pruned).Keys;
    if left != {} {
      assert MaxSeq(left) in rows.Keys;
    }
    if MaxSeq(rows.Keys) !in pruned {
      assert MaxSeq(rows.Keys) in left;
    }
  }

  /** A reader whose cursor is the last seq assigned sees the next event exactly when the newest row
      was not pruned in between. */
  lemma CursorSeesNextIff<E>(rows: map<nat, E>, pruned: set<nat>, e: E, limit: nat)
    requires rows.Keys != {} && 0 !in rows && limit >= 1
    ensures var cursor := MaxSeq(rows.Keys);
            var next := MaxSeq((rows - pruned).Keys) + 1;
            next in Fetch((rows - pruned)[next := e], cursor, limit) <==> cursor !in pruned
  {
    var cursor := MaxSeq(rows.Keys);
    var left := rows - pruned;
    var next := MaxSeq(left.Keys) + 1;
    var after := left[next := e];
    SeqGrowsIffTopKept(rows, pruned);
    assert next in after.Keys && MaxSeq(after.Keys) == next;
    WindowExact(after, cursor, next);
    var w := Window(after, cursor, next);
    if cursor !in pruned {
      assert left.Keys != {} && MaxSeq(left.Keys) in rows.Keys;
      assert next == cursor + 1;
      assert next in w;
      assert w[0] == next;
    }
  }

  datatype Life<E> = Add(e: E) | Prune(gone: set<nat>)

  function Table<E>(ops: seq<Life<E>>): map<nat, E> {
    if ops == [] then map[]
    else
      var rows := Table(ops[..|ops| - 1]);
      match ops[|ops| - 1]
      case Add(e) => rows[MaxSeq(rows.Keys) + 1 := e]
      case Prune(gone) => rows - gone
  }

  /** The seqs that `persist` returned, in call order. */
  function Returned<E>(ops: seq<Life<E>>): seq<nat> {
    if ops == [] then []
    else
      Returned(ops[..|ops| - 1])
      + (if ops[|ops| - 1].Add? then [MaxSeq(Table(ops[..|ops| - 1]).Keys) + 1] else [])
  }

  predicate Ascending(r: seq<nat>) {
    forall i, k :: 0 <= i < k < |r| ==> r[i] < r[k]
  }

  /** At every persist but the first, the row of the persist before it is still stored. */
  predicate LastKept<E>(ops: seq<Life<E>>) {
    ops == [] ||
    (var before := ops[..|ops| - 1];
     var r := Returned(before);
     LastKept(before) && (ops[|ops| - 1].Add? && r != [] ==> r[|r| - 1] in Table(before)))
  }

  lemma {:induction false} KeysWereReturned<E>(ops: seq<Life<E>>, n: nat)
    requires n in Table(ops)
    ensures n in Returned(ops) && n > 0
  {
    var before := ops[..|ops| - 1];
    if n in Table(before) {
      KeysWereReturned(before, n);
    }
  }

  lemma {:induction false} ReturnedPositive<E>(ops: seq<Life<E>>)
    ensures forall n <- Returned(ops) :: n > 0
  {
    if ops != [] {
      ReturnedPositive(ops[..|ops| - 1]);
    }
  }

  lemma AscendingThen(r: seq<nat>, n: nat)
    ensures Ascending(r + [n]) <==> Ascending(r) && (r != [] ==> r[|r| - 1] < n)
  {
    var s := r + [n];
    if Ascending(s) {
      forall i, k | 0 <= i < k < |r| ensures r[i] < r[k] {
        assert s[i] < s[k];
      }
      if r != [] {
        assert s[|r| - 1] < s[|r|];
      }
    }
  }

  /** With ascending seqs so far, the next one is above the last exactly when the last is stored. */
  lemma NextAboveLastIff<E>(ops: seq<Life<E>>)
    requires Ascending(Returned(ops)) && Returned(ops) != []
    ensures var r := Returned(ops);
            MaxSeq(Table(ops).Keys) + 1 > r[|r| - 1] <==> r[|r| - 1] in Table(ops)
  {
    var r := Returned(ops);
    var m := MaxSeq(Table(ops).Keys);
    ReturnedPositive(ops);
    assert r[|r| - 1] in r;
    if Table(ops).Keys != {} {
      KeysWereReturned(ops, m);
      var i :| 0 <= i < |r| && r[i] == m;
      assert i < |r| - 1 ==> r[i] < r[|r| - 1];
    }
  }

  /** Over every history of persists and prunes, the returned seqs strictly increase if and only if at
      every persist the row of the one before is still stored. */
  lemma {:induction false} SeqsIncreaseIff<E>(ops: seq<Life<E>>)
    ensures Ascending(Returned(ops)) <==> LastKept(ops)
  {
    if ops != [] {
      var before := ops[..|ops| - 1];
      SeqsIncreaseIff(before);
      if !ops[|ops| - 1].Add? {
        assert Returned(ops) == Returned(before);
      } else {
        assert Returned(ops) == Returned(before) + [MaxSeq(Table(before).Keys) + 1];
        AscendingThen(Returned(before), MaxSeq(Table(before).Keys) + 1);
        if Ascending(Returned(before)) && Returned(before) != [] {
          NextAboveLastIff(before);
        }
      }
    }
  }

  /** No prune of the history removes the newest row. */
  predicate TopSpared<E>(ops: seq<Life<E>>) {
    ops == [] ||
    (var before, op := ops[..|ops| - 1], ops[|ops| - 1];
     TopSpared(before) && (op.Prune? ==> MaxSeq(Table(before).Keys) !in op.gone))
  }

  lemma AddIsTop<E>(rows: map<nat, E>, e: E)
    ensures MaxSeq(rows[MaxSeq(rows.Keys) + 1 := e].Keys) == MaxSeq(rows.Keys) + 1
  {
    assert MaxSeq(rows.Keys) + 1 in rows[MaxSeq(rows.Keys) + 1 := e].Keys;
  }

  lemma PruneKeepsTop<E>(rows: map<nat, E>, gone: set<nat>)
    requires rows.Keys != {} && MaxSeq(rows.Keys) !in gone
    ensures (rows - gone).Keys != {} && MaxSeq((rows - gone).Keys) == MaxSeq(rows.Keys)
  {
    assert MaxSeq(rows.Keys) in (rows - gone).Keys;
    assert MaxSeq((rows - gone).Keys) in rows.Keys;
  }

  /** As long as no prune removes the newest row, the returned seqs strictly increase and the last one is
      the table's maximum. */
  lemma {:induction false} SeqsIncrease<E>(ops: seq<Life<E>>)
    requires TopSpared(ops)
    ensures var r := Returned(ops);
            && Ascending(r)
            && (r != [] ==> Table(ops).Keys != {} && r[|r| - 1] == MaxSeq(Table(ops).Keys))
  {
    if ops != [] {
      var before, op := ops[..|ops| - 1], ops[|ops| - 1];
      SeqsIncrease(before);
      if op.Add? {
        AddIsTop(Table(before), op.e);
        assert Returned(ops) == Returned(before) + [MaxSeq(Table(before).Keys) + 1];
        AscendingThen(Returned(before), MaxSeq(Table(before).Keys) + 1);
      } else {
        assert Returned(ops) == Returned(before);
        if Returned(before) != [] {
          PruneKeepsTop(Table(before), op.gone);
        }
      }
    }
  }

  function PruneTop<E>(a: E, b: E): seq<Life<E>> {
    [] + [Add(a)] + [Prune({1})] + [Add(b)]
  }

  lemma LifeThen<E>(ops: seq<Life<E>>, op: Life<E>)
    ensures op.Add? ==> Table(ops + [op]) == Table(ops)[MaxSeq(Table(ops).Keys) + 1 := op.e]
    ensures op.Prune? ==> Table(ops + [op]) == Table(ops) - op.gone
    ensures Returned(ops + [op]) == Returned(ops) + (if op.Add? then [MaxSeq(Table(ops).Keys) + 1] else [])
  {
    assert (ops + [op])[..|ops|] == ops;
  }

  /** Pruning the newest row makes the store hand out its seq again. */
  lemma SeqReused<E>(a: E, b: E)
    ensures Returned(PruneTop(a, b)) == [1, 1]
  {
    var one: seq<Life<E>> := [] + [Add(a)];
    LifeThen([], Add(a));
    assert Table(one) == map[1 := a] && Returned(one) == [1];
    LifeThen(one, Prune({1}));
    assert Table(one + [Prune({1})]).Keys == {};
    LifeThen(one + [Prune({1})], Add(b));
  }
}
