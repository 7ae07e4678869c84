/** Version-checked row writes and the one-retry helper `_update_status_locked`. */
module OptimisticLock {
  import opened Basics

  datatype WriteResult = Written(version: nat) | Conflict(actual: Option<nat>)

  /** A session row under the store's versioned-write contract; `commits` lists the version each
      committed write was checked against. */
  class SessionRow {
    var version: Option<nat>   // None once the row is deleted
    ghost var first: nat
    ghost var commits: seq<nat>

    ghost predicate Valid()
      reads this
    {
      && (version.Some? ==> version.value == first + |commits|)
      && (forall i :: 0 <= i < |commits| ==> commits[i] == first + i)
    }

    constructor (first: nat)
      ensures Valid() && version == Some(first) && this.first == first && commits == []
    {
      version, this.first, commits := Some(first), first, [];
    }

    /** `update_session_status` with an expected version. */
    method Update(expected: nat) returns (r: WriteResult)
      requires Valid()
      modifies this
      ensures Valid() && first == old(first)
      ensures r.Written? <==> old(version) == Some(expected)
      ensures r.Written? ==> r.version == expected + 1 && version == Some(expected + 1)
      ensures r.Written? ==> commits == old(commits) + [expected]
      ensures r.Conflict? ==> r.actual == old(version) && version == old(version) && commits == old(commits)
    {
      if version != Some(expected) {
        return Conflict(version);
      }
      version, commits := Some(expected + 1), commits + [expected];
      return Written(expected + 1);
    }

    /** What other writers do while this one is suspended: `n` commits, then perhaps a delete. */
    method Others(n: nat, delete: bool)
      requires Valid()
      modifies this
      ensures Valid() && first == old(first)
      ensures version == if delete || old(version).None? then None else Some(old(version).value + n)
      ensures old(version).Some? ==> |commits| == |old(commits)| + n
      ensures old(commits) <= commits
    {
      if version.Some? {
        for i := 0 to n
          invariant Valid() && version.Some? && first == old(first)
          invariant |commits| == |old(commits)| + i && old(commits) <= commits
        {
          var _ := Update(version.value);
        }
      }
      if delete {
        version := None;
      }
    }
  }

  /** What the rest of the world does during one suspension of the helper. */
  datatype Gap = Gap(commits: nat, delete: bool)

  datatype Outcome = Saved(version: nat) | Raised(expected: nat, actual: Option<nat>) | NotFound

  /** `_update_status_locked`: an anchor read, an attempt, and after a conflict one more attempt
      against the version the conflict reported. `gaps[0]` is what others do between the anchor read
      (the caller's own, when it passes one) and the first attempt, `gaps[1]` what they do between
      the attempts. The three outcomes are told apart by the gaps alone; on a row that nobody
      deletes the helper raises exactly when others commit in both gaps, so at least two other
      commits landed after its anchor was read. */
  method UpdateStatusLocked(row: SessionRow, gaps: seq<Gap>) returns (r: Outcome)
    requires row.Valid() && |gaps| == 2
    modifies row
    ensures row.Valid() && row.first == old(row.first)
    ensures r.NotFound? <==> old(row.version).None? || gaps[0].delete
    ensures r.Raised? <==> !r.NotFound? && gaps[0].commits > 0 && (gaps[1].commits > 0 || gaps[1].delete)
    ensures r.Raised? ==> row.version == r.actual && r.expected == old(row.version).value + gaps[0].commits
    ensures r.Raised? && !gaps[1].delete ==>
        |row.commits| - |old(row.commits)| == gaps[0].commits + gaps[1].commits >= 2
    ensures r.Saved? ==>
      && row.version == Some(r.version)
      && |row.commits| - |old(row.commits)| == gaps[0].commits + 1
      && row.commits[|row.commits| - 1] == r.version - 1 == old(row.version).value + gaps[0].commits
  {
    if row.version.None? {
      return NotFound;
    }
    var expected := row.version.value;
    var attempt := 0;
    while true
      invariant 0 <= attempt < 2
      invariant row.Valid() && row.first == old(row.first)
      invariant old(row.version).Some? && row.version == Some(expected)
      invariant attempt == 0 ==> row.commits == old(row.commits) && expected == old(row.version).value
      invariant attempt == 1 ==>
        && !gaps[0].delete && gaps[0].commits > 0
        && expected == old(row.version).value + gaps[0].commits && |row.commits| == |old(row.commits)| + gaps[0].commits
      decreases 2 - attempt
    {
      row.Others(gaps[attempt].commits, gaps[attempt].delete);
      var w := row.Update(expected);
      if w.Written? {
        return Saved(w.version);
      }
      if attempt == 1 {
        return Raised(expected, w.actual);
      }
      if w.actual.None? {
        // The helper re-reads the row; a deleted row does not come back.
        return NotFound;
      }
      expected, attempt := w.actual.value, 1;
    }
  }

  // ---------------------------------------------------------------- any number of writers

  type Writer = nat

  datatype Pc =
    | Anchored(expected: nat, since: nat)             // `since` commits existed when the anchor was read
    | Retrying(expected: nat, since: nat, mid: nat)   // first attempt failed after `mid` commits
    | Won(at: nat)                                    // its commit has this index
    | Lost(since: nat, mid: nat, at: nat, gone: bool) // second attempt failed after `at` commits
    | Missing                                         // it found the row deleted

  datatype State = State(version: Option<nat>, commits: seq<(Option<Writer>, nat)>, writers: map<Writer, Pc>)

  datatype Step =
    | Read(w: Writer)
    | Attempt(w: Writer)
    | Blind            // a write without an expected version
    | Delete

  /** A committed write, logged with the version it was checked against; the row moves on to the
      version after that one. */
  function Commit(s: State, who: Option<Writer>, expected: nat): State {
    s.(version := Some(expected + 1), commits := s.commits + [(who, expected)])
  }

  function Apply(s: State, e: Step): State {
    match e
    case Read(w) =>
      if w in s.writers then s
      else s.(writers := s.writers[w := if s.version.None? then Missing else Anchored(s.version.value, |s.commits|)])
    case Blind => if s.version.None? then s else Commit(s, None, s.version.value)
    case Delete => s.(version := None)
    case Attempt(w) =>
      if w !in s.writers then s else
      match s.writers[w]
      case Anchored(expected, since) =>
        if s.version == Some(expected) then Commit(s, Some(w), expected).(writers := s.writers[w := Won(|s.commits|)])
        else if s.version.None? then s.(writers := s.writers[w := Missing])
        else s.(writers := s.writers[w := Retrying(s.version.value, since, |s.commits|)])
      case Retrying(expected, since, mid) =>
        if s.version == Some(expected) then Commit(s, Some(w), expected).(writers := s.writers[w := Won(|s.commits|)])
        else s.(writers := s.writers[w := Lost(since, mid, |s.commits|, s.version.None?)])
      case _ => s
  }

  function After(first: nat, ev: seq<Step>): State {
    if ev == [] then State(Some(first), [], map[]) else Apply(After(first, ev[..|ev| - 1]), ev[|ev| - 1])
  }

  /** No commit is by `w`. */
  predicate NotBy(s: State, w: Writer) {
    forall i :: 0 <= i < |s.commits| ==> s.commits[i].0 != Some(w)
  }

  predicate WriterInv(first: nat, s: State, w: Writer) {
    w in s.writers &&
    match s.writers[w]
    case Anchored(expected, since) => expected == first + since && since <= |s.commits| && NotBy(s, w)
    case Retrying(expected, since, mid) => expected == first + mid && since < mid <= |s.commits| && NotBy(s, w)
    case Won(at) =>
      && at < |s.commits| && s.commits[at].0 == Some(w)
      && forall i :: 0 <= i < |s.commits| && s.commits[i].0 == Some(w) ==> i == at
    case Lost(since, mid, at, gone) =>
      && since < mid <= at <= |s.commits| && (gone || mid < at)
      && (gone ==> s.version.None?) && NotBy(s, w)
    case Missing => s.version.None? && NotBy(s, w)
  }

  predicate Versioned(first: nat, s: State) {
    s.version.Some? ==> s.version.value == first + |s.commits|
  }

  predicate Inv(first: nat, s: State) {
    && Versioned(first, s)
    && (forall i :: 0 <= i < |s.commits| ==> s.commits[i].1 == first + i)
    && (forall i :: 0 <= i < |s.commits| && s.commits[i].0.Some? ==> s.commits[i].0.value in s.writers)
    && (forall w <- s.writers :: WriterInv(first, s, w))
  }

  lemma LogStep(first: nat, s: State, e: Step)
    requires Inv(first, s)
    ensures var t := Apply(s, e);
            && Versioned(first, t)
            && (forall i :: 0 <= i < |t.commits| ==> t.commits[i].1 == first + i)
            && (forall i :: 0 <= i < |t.commits| && t.commits[i].0.Some? ==> t.commits[i].0.value in t.writers)
  {
  }

  lemma OwnStep(first: nat, s: State, e: Step)
    requires e.Read? || e.Attempt?
    requires Versioned(first, s) && e.w in Apply(s, e).writers
    requires if e.w in s.writers then WriterInv(first, s, e.w) else NotBy(s, e.w)
    ensures WriterInv(first, Apply(s, e), e.w)
  {
  }

  lemma OthersStep(first: nat, s: State, e: Step, w: Writer)
    requires !((e.Read? || e.Attempt?) && e.w == w)
    requires w in s.writers && WriterInv(first, s, w)
    ensures WriterInv(first, Apply(s, e), w)
  {
  }

  lemma WriterStep(first: nat, s: State, e: Step, w: Writer)
    requires Versioned(first, s) && w in Apply(s, e).writers
    requires if w in s.writers then WriterInv(first, s, w) else NotBy(s, w)
    ensures WriterInv(first, Apply(s, e), w)
  {
    if (e.Read? || e.Attempt?) && e.w == w {
      OwnStep(first, s, e);
    } else {
      OthersStep(first, s, e, w);
    }
  }

  lemma StepKeepsInv(first: nat, s: State, e: Step)
    requires Inv(first, s)
    ensures Inv(first, Apply(s, e))
  {
    LogStep(first, s, e);
    forall w | w in Apply(s, e).writers ensures WriterInv(first, Apply(s, e), w) {
      WriterStep(first, s, e, w);
    }
  }

  /** A write without an expected version commits whenever the row exists. */
  lemma BlindCommits(s: State)
    requires s.version.Some?
    ensures var t := Apply(s, Blind);
            t.version == Some(s.version.value + 1) && t.commits == s.commits + [(None, s.version.value)]
  {
  }

  /** A writer commits exactly when the version it expects is the row's. */
  lemma CommitsIff(s: State, w: Writer)
    requires w in s.writers && (s.writers[w].Anchored? || s.writers[w].Retrying?)
    ensures Apply(s, Attempt(w)).commits != s.commits <==> s.version == Some(s.writers[w].expected)
    ensures Apply(s, Attempt(w)).writers[w].Won? <==> s.version == Some(s.writers[w].expected)
  {
    if s.version == Some(s.writers[w].expected) {
      assert |Apply(s, Attempt(w)).commits| == |s.commits| + 1;
    }
  }

  /** A deleted row stays deleted, and nothing commits to it any more. */
  lemma {:induction false} DeleteIsFinal(first: nat, ev: seq<Step>, more: seq<Step>)
    ensures var s := After(first, ev);
            var t := After(first, ev + [Delete] + more);
            t.version == None && t.commits == s.commits
  {
    var base := ev + [Delete];
    if more == [] {
      assert base + more == base && base[..|ev|] == ev;
    } else {
      assert (base + more)[..|base + more| - 1] == base + more[..|more| - 1];
      DeleteIsFinal(first, ev, more[..|more| - 1]);
    }
  }

  /** For every interleaving, with deletion at any moment: while the row exists its version counts the
      commits, each commit was checked against the version it found, and a writer that raised while
      the row existed was overtaken by at least two commits of others between its anchor read and
      its second attempt. */
  lemma {:induction false} VersionsCountCommits(first: nat, ev: seq<Step>)
    ensures var s := After(first, ev);
            && Versioned(first, s)
            && (forall i :: 0 <= i < |s.commits| ==> s.commits[i].1 == first + i)
            && (forall w <- s.writers :: s.writers[w].Lost? && !s.writers[w].gone ==>
                  && s.writers[w].since + 2 <= s.writers[w].at <= |s.commits|
                  && (forall i :: s.writers[w].since <= i < s.writers[w].at ==> s.commits[i].0 != Some(w)))
            && (forall w <- s.writers :: s.writers[w].Missing? || (s.writers[w].Lost? && s.writers[w].gone) ==>
                s.version.None?)
    ensures Inv(first, After(first, ev))
  {
    if ev != [] {
      VersionsCountCommits(first, ev[..|ev| - 1]);
      StepKeepsInv(first, After(first, ev[..|ev| - 1]), ev[|ev| - 1]);
    }
    var s := After(first, ev);
    forall w | w in s.writers ensures WriterInv(first, s, w) {
    }
  }
}
