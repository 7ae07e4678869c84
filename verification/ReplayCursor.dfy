/** SSE ids and the two `Last-Event-ID` parsers. */
module ReplayCursor {
  import opened Basics

  // ---------------------------------------------------------------- decimal numerals

  predicate IsDigit(c: char) {
    '0' <= c <= '9'
  }

  function DigitChar(d: nat): (c: char)
    requires d < 10
    ensures IsDigit(c) && Digit(c) == d
  {
    '0' + d as char
  }

  function Digit(c: char): (d: nat)
    requires IsDigit(c)
    ensures d < 10
  {
    (c - '0') as nat
  }

  /** `str(n)`. */
  function Dec(n: nat): (s: string)
    ensures s != [] && forall c <- s :: IsDigit(c)
  {
    if n < 10 then [DigitChar(n)] else Dec(n / 10) + [DigitChar(n % 10)]
  }

  function Undec(s: string): nat
    requires forall c <- s :: IsDigit(c)
  {
    if s == [] then 0 else Undec(s[..|s| - 1]) * 10 + Digit(s[|s| - 1])
  }

  lemma {:induction false} UndecDec(n: nat)
    ensures Undec(Dec(n)) == n
  {
    var s := Dec(n);
    if n >= 10 {
      UndecDec(n / 10);
      assert s[..|s| - 1] == Dec(n / 10);
    } else {
      assert s[..|s| - 1] == [];
    }
  }

  // ---------------------------------------------------------------- Python's int()

  /** The characters `str.strip` and `int` skip, within the Latin-1 range of an HTTP header. */
  predicate IsSpace(c: char) {
    c == ' ' || '\t' <= c <= '\r' || '\U{1c}' <= c <= '\U{1f}' || c == '\U{85}' || c == '\U{a0}'
  }

  function StripLeft(s: string): string {
    if s != [] && IsSpace(s[0]) then StripLeft(s[1..]) else s
  }

  function StripRight(s: string): string {
    if s != [] && IsSpace(s[|s| - 1]) then StripRight(s[..|s| - 1]) else s
  }

  function Strip(s: string): string {
    StripRight(StripLeft(s))
  }

  predicate AllDigits(s: string) {
    forall c <- s :: IsDigit(c)
  }

  predicate Groupable(s: string) {
    forall c <- s :: IsDigit(c) || c == '_'
  }

  /** Digits with single underscores between them. */
  predicate Grouped(s: string) {
    && s != [] && IsDigit(s[0]) && IsDigit(s[|s| - 1])
    && Groupable(s)
    && (forall i :: 0 <= i < |s| - 1 ==> IsDigit(s[i]) || IsDigit(s[i + 1]))
  }

  function Ungroup(s: string): (r: string)
    requires Groupable(s)
    ensures AllDigits(r)
  {
    if s == [] then []
    else Ungroup(s[..|s| - 1]) + (if s[|s| - 1] == '_' then [] else [s[|s| - 1]])
  }

  /** What `int` makes of a string without spaces around it. */
  function Numeral(t: string): Option<int> {
    if t == [] then None
    else
      var body := if t[0] == '+' || t[0] == '-' then t[1..] else t;
      if Grouped(body) then Some(Negate(t[0] == '-', Undec(Ungroup(body)))) else None
  }

  function Negate(negative: bool, n: nat): int {
    if negative then -(n as int) else n
  }

  /** `int(s)`, or None for ValueError. */
  function PyInt(s: string): Option<int> {
    Numeral(Strip(s))
  }

  lemma UngroupDigits(s: string)
    requires AllDigits(s)
    ensures Groupable(s) && Ungroup(s) == s
  {
    if s != [] {
      UngroupDigits(s[..|s| - 1]);
      assert s[|s| - 1] in s;
    }
  }

  lemma StripNothing(s: string)
    requires s != [] && !IsSpace(s[0]) && !IsSpace(s[|s| - 1])
    ensures Strip(s) == s
  {
  }

  lemma PyIntReadsDec(n: nat)
    ensures PyInt(Dec(n)) == Some(n as int)
  {
    var s := Dec(n);
    assert s[0] in s && s[|s| - 1] in s;
    StripNothing(s);
    assert Grouped(s) by {
      forall i | 0 <= i < |s| - 1 ensures IsDigit(s[i]) {
        assert s[i] in s;
      }
    }
    UngroupDigits(s);
    UndecDec(n);
  }

  // ---------------------------------------------------------------- the parsers

  /** The first colon, or the length. */
  function Colon(s: string): (i: nat)
    ensures i <= |s| && (i < |s| ==> s[i] == ':') && forall k :: 0 <= k < i ==> s[k] != ':'
  {
    if s == [] || s[0] == ':' then 0 else 1 + Colon(s[1..])
  }

  /** `_parse_last_event_id`: `42` or `seq:42`. */
  function ParseFrame(header: Option<string>): Option<int> {
    if header.None? || header.value == [] then None
    else
      var v := Strip(header.value);
      PyInt(if "seq:" <= v then v[4..] else v)
  }

  /** `_parse_durable_last_event_id`: the number before the first colon. */
  function ParseDurable(header: Option<string>): Option<int> {
    if header.None? || header.value == [] then None
    else
      var v := Strip(header.value);
      if "seq:" <= v then None
      else if Colon(v) == |v| then None
      else PyInt(v[..Colon(v)])
  }

  /** The SSE id of a replayed event and of a legacy frame. */
  function ReplayId(seq_: nat, eventId: string): string {
    Dec(seq_) + ":" + eventId
  }

  function FrameId(seq_: nat): string {
    "seq:" + Dec(seq_)
  }

  /** Stripping cannot reach past a character that is not a space. */
  lemma {:induction false} StripRightKeeps(a: string, x: char, b: string)
    requires !IsSpace(x)
    ensures exists n :: 0 <= n <= |b| && StripRight(a + [x] + b) == a + [x] + b[..n]
  {
    var s := a + [x] + b;
    if b == [] || !IsSpace(b[|b| - 1]) {
      assert s[|s| - 1] == if b == [] then x else b[|b| - 1];
      assert b[..|b|] == b;
      assert StripRight(s) == a + [x] + b[..|b|];
    } else {
      var c := b[..|b| - 1];
      assert s[..|s| - 1] == a + [x] + c;
      StripRightKeeps(a, x, c);
      var n :| 0 <= n <= |c| && StripRight(a + [x] + c) == a + [x] + c[..n];
      assert c[..n] == b[..n];
    }
  }

  /** A numeral with a colon in it is not a number. */
  lemma ColonIsNoInt(s: string, i: nat)
    requires i < |s| && s[i] == ':' && IsDigit(s[0])
    ensures PyInt(s) == None
  {
    assert StripLeft(s) == s;
    StripRightKeeps(s[..i], ':', s[i + 1..]);
    assert s == s[..i] + [':'] + s[i + 1..];
    var n :| 0 <= n <= |s[i + 1..]| && StripRight(s) == s[..i] + [':'] + s[i + 1..][..n];
    var t := Strip(s);
    assert t[i] == ':' && t[0] == s[0];
    assert ':' in t;
  }

  /** What is left of a replay id after the header is stripped. */
  lemma StrippedReplayId(seq_: nat, eventId: string) returns (n: nat)
    ensures n <= |eventId| && Strip(ReplayId(seq_, eventId)) == Dec(seq_) + ":" + eventId[..n]
  {
    var s := ReplayId(seq_, eventId);
    assert s[0] == Dec(seq_)[0] && Dec(seq_)[0] in Dec(seq_);
    assert StripLeft(s) == s;
    StripRightKeeps(Dec(seq_), ':', eventId);
    n :| 0 <= n <= |eventId| && StripRight(Dec(seq_) + [':'] + eventId) == Dec(seq_) + [':'] + eventId[..n];
  }

  /** The id printed on a replayed event brings the reader back to that seq, and is no frame cursor,
      whatever the event id looks like. */
  lemma ReplayIdRoundTrip(seq_: nat, eventId: string)
    ensures ParseDurable(Some(ReplayId(seq_, eventId))) == Some(seq_ as int)
    ensures ParseFrame(Some(ReplayId(seq_, eventId))) == None
  {
    var n := StrippedReplayId(seq_, eventId);
    var d := Dec(seq_);
    var v := d + ":" + eventId[..n];
    assert v[0] == d[0] && d[0] in d;
    assert v[|d|] == ':';
    forall k | 0 <= k < |d| ensures v[k] != ':' {
      assert v[k] == d[k] && d[k] in d;
    }
    assert Colon(v) == |d|;
    assert v[..|d|] == d;
    PyIntReadsDec(seq_);
    ColonIsNoInt(v, |d|);
  }

  /** The id printed on a legacy frame brings the reader back to that frame, and is no durable
      cursor. */
  lemma FrameIdRoundTrip(seq_: nat)
    ensures ParseFrame(Some(FrameId(seq_))) == Some(seq_ as int)
    ensures ParseDurable(Some(FrameId(seq_))) == None
  {
    var s := FrameId(seq_);
    var d := Dec(seq_);
    assert s[|s| - 1] == d[|d| - 1] && d[|d| - 1] in d;
    StripNothing(s);
    assert s[4..] == d;
    PyIntReadsDec(seq_);
  }

  lemma {:induction false} StripLeftIn(s: string, c: char)
    requires c in StripLeft(s)
    ensures c in s
  {
    if s != [] && IsSpace(s[0]) {
      StripLeftIn(s[1..], c);
    }
  }

  lemma {:induction false} StripRightIn(s: string, c: char)
    requires c in StripRight(s)
    ensures c in s
  {
    if s != [] && IsSpace(s[|s| - 1]) {
      StripRightIn(s[..|s| - 1], c);
    }
  }

  /** An id without a colon, such as the bare id of a live event, is no durable cursor. */
  lemma LiveIdIsNoCursor(eventId: string)
    requires ':' !in eventId
    ensures ParseDurable(Some(eventId)) == None
  {
    var v := Strip(eventId);
    if ':' in v {
      StripRightIn(StripLeft(eventId), ':');
      StripLeftIn(eventId, ':');
      assert false;
    }
  }

  /** A missing or empty header is no cursor of either kind. */
  lemma NoHeaderNoCursor()
    ensures ParseFrame(None) == None && ParseDurable(None) == None
    ensures ParseFrame(Some("")) == None && ParseDurable(Some("")) == None
  {
  }

  /** A bare number is a frame cursor and no durable one. */
  lemma BareNumberIsFrameCursor(n: nat)
    ensures ParseFrame(Some(Dec(n))) == Some(n as int)
    ensures ParseDurable(Some(Dec(n))) == None
  {
    var d := Dec(n);
    assert d[0] in d && d[|d| - 1] in d;
    StripNothing(d);
    PyIntReadsDec(n);
    if ':' in d {
      assert false;
    }
    LiveIdIsNoCursor(d);
  }

  lemma PyIntUnsigned(s: string)
    requires Grouped(s)
    ensures PyInt(s) == Some(Undec(Ungroup(s)) as int)
  {
    StripNothing(s);
  }

  lemma NumeralSigned(c: char, s: string)
    requires Grouped(s) && (c == '+' || c == '-')
    ensures Numeral([c] + s) == Some(Negate(c == '-', Undec(Ungroup(s))))
  {
    assert ([c] + s)[1..] == s;
  }

  /** `int()` reads a sign before digits. */
  lemma PyIntSigned(c: char, s: string)
    requires Grouped(s) && (c == '+' || c == '-')
    ensures PyInt([c] + s) == Some(Negate(c == '-', Undec(Ungroup(s))))
    ensures PyInt([c] + s).value == if c == '+' then Undec(Ungroup(s)) as int else 0 - Undec(Ungroup(s)) as int
  {
    var t := [c] + s;
    assert t[|t| - 1] == s[|s| - 1];
    StripNothing(t);
    NumeralSigned(c, s);
  }

  lemma DigitsAreGrouped(s: string)
    requires s != [] && AllDigits(s)
    ensures Grouped(s)
  {
    forall i | 0 <= i < |s| ensures IsDigit(s[i]) {
      assert s[i] in s;
    }
  }

  lemma {:induction false} UngroupConcat(a: string, b: string)
    requires Groupable(a) && Groupable(b)
    ensures Groupable(a + b) && Ungroup(a + b) == Ungroup(a) + Ungroup(b)
  {
    if b == [] {
      assert a + b == a;
    } else {
      var n := |b| - 1;
      assert (a + b)[..|a + b| - 1] == a + b[..n];
      UngroupConcat(a, b[..n]);
    }
  }

  lemma UnderscoreIsGrouped(a: string, b: string)
    requires a != [] && b != [] && AllDigits(a) && AllDigits(b)
    ensures Grouped(a + ['_'] + b)
  {
    var s := a + ['_'] + b;
    assert s[0] == a[0] && s[|s| - 1] == b[|b| - 1] && a[0] in a && b[|b| - 1] in b;
    forall i | 0 <= i < |s| - 1 ensures IsDigit(s[i]) || IsDigit(s[i + 1]) {
      if i < |a| {
        assert s[i] == a[i] && a[i] in a;
      } else {
        assert s[i + 1] == b[i - |a|] && b[i - |a|] in b;
      }
    }
  }

  lemma UngroupThen(a: string, c: char)
    requires Groupable(a) && (IsDigit(c) || c == '_')
    ensures Groupable(a + [c]) && Ungroup(a + [c]) == Ungroup(a) + (if c == '_' then [] else [c])
  {
    assert (a + [c])[..|a|] == a;
  }

  /** `int()` skips a single underscore between digits. */
  lemma PyIntSkipsUnderscore(a: string, b: string)
    requires a != [] && b != [] && AllDigits(a) && AllDigits(b)
    ensures PyInt(a + ['_'] + b) == PyInt(a + b)
  {
    UnderscoreIsGrouped(a, b);
    UngroupThen(a, '_');
    UngroupConcat(a + ['_'], b);
    UngroupConcat(a, b);
    assert Ungroup(a + ['_'] + b) == Ungroup(a + b);
    PyIntUnsigned(a + ['_'] + b);
    DigitsAreGrouped(a + b);
    PyIntUnsigned(a + b);
  }

  /** Spaces around a header do not matter. */
  lemma SpacesDoNotMatter(s: string, c: char)
    requires IsSpace(c) && s != [] && !IsSpace(s[0]) && !IsSpace(s[|s| - 1])
    ensures ParseFrame(Some([c] + s + [c])) == ParseFrame(Some(s))
    ensures ParseDurable(Some([c] + s + [c])) == ParseDurable(Some(s))
  {
    var padded := [c] + s + [c];
    assert padded[1..] == s + [c];
    assert StripLeft(s + [c]) == s + [c];
    assert (s + [c])[..|s|] == s;
    assert StripRight(s) == s;
    StripNothing(s);
  }

  /** Different request numbers print differently, so channel request ids never collide. */
  lemma RequestIdsDistinct(op1: string, n1: nat, op2: string, n2: nat)
    requires op1 in ["pause", "resume"] && op2 in ["pause", "resume"]
    requires op1 + "-" + Dec(n1) == op2 + "-" + Dec(n2)
    ensures op1 == op2 && n1 == n2
  {
    var s, t := op1 + "-" + Dec(n1), op2 + "-" + Dec(n2);
    assert s[0] == op1[0] && t[0] == op2[0];
    assert s[|op1| + 1..] == Dec(n1) && t[|op2| + 1..] == Dec(n2);
    UndecDec(n1);
    UndecDec(n2);
  }
}
