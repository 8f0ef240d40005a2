/** Line terminators and event boundaries of an SSE byte stream (src/upstream.rs). */
module Sse {
  import opened Prelude

  const LF: byte := 10
  const CR: byte := 13

  predicate IsEol(b: byte) {
    b == LF || b == CR
  }

  datatype Term = Not | Len(n: nat) | Incomplete

  /** Whether a line ends at index `i`, and with how many bytes; a CR that comes last could be either kind. */
  function TermAt(buf: bytes, i: nat): Term {
    if i >= |buf| then Not
    else if buf[i] == LF then Len(1)
    else if buf[i] == CR then
      if i + 1 >= |buf| then Incomplete
      else if buf[i + 1] == LF then Len(2)
      else Len(1)
    else Not
  }

  /** The scan of `find_event_boundary` from index `i`: end of the event body, end of its separator. */
  function Boundary(buf: bytes, i: nat): (r: Option<(nat, nat)>)
    ensures r.Some? ==> i <= r.value.0 < r.value.1 <= |buf|
    decreases |buf| - i
  {
    if i >= |buf| then None
    else
      match TermAt(buf, i)
      case Not => Boundary(buf, i + 1)
      case Incomplete => None
      case Len(l1) =>
        match TermAt(buf, i + l1)
        case Not => Boundary(buf, i + l1)
        case Incomplete => None
        case Len(l2) => Some((i, i + l1 + l2))
  }

  method FindEventBoundary(buf: bytes) returns (r: Option<(nat, nat)>)
    ensures r == Boundary(buf, 0)
  {
    var i := 0;
    while i < |buf|
      invariant 0 <= i <= |buf|
      invariant Boundary(buf, i) == Boundary(buf, 0)
    {
      match TermAt(buf, i)
      case Not =>
        i := i + 1;
      case Incomplete =>
        return None;
      case Len(l1) =>
        var j := i + l1;
        match TermAt(buf, j)
        case Not => i := j;
        case Incomplete => return None;
        case Len(l2) => return Some((i, j + l2));
    }
    return None;
  }

  // -------------------------------------------------------------------------
  // What a boundary is, in terms of raw bytes only
  // -------------------------------------------------------------------------

  /** Bytes `i` and `i+1` belong to two different line terminators: a blank line. */
  predicate BlankPair(s: bytes, i: int) {
    0 <= i && i + 1 < |s| && IsEol(s[i]) && IsEol(s[i + 1]) && !(s[i] == CR && s[i + 1] == LF)
  }

  predicate FirstPair(s: bytes, i: int) {
    BlankPair(s, i) && forall k | 0 <= k < i :: !BlankPair(s, k)
  }

  /** Where the terminator whose last byte is `s[i]` starts. */
  function EventEnd(s: bytes, i: int): nat
    requires 0 <= i < |s|
  {
    if s[i] == LF && i > 0 && s[i - 1] == CR then i - 1 else i
  }

  /** Where the terminator that starts at `s[i+1]` ends, once the next byte has decided it. */
  function SeparatorEnd(s: bytes, i: int): Option<nat>
    requires 0 <= i && i + 1 < |s|
  {
    if s[i + 1] == LF then Some(i + 2)
    else if i + 2 >= |s| then None
    else if s[i + 2] == LF then Some(i + 3)
    else Some(i + 2)
  }

  /** The answer of a boundary search, said without the search. */
  ghost predicate BoundarySpec(s: bytes, r: Option<(nat, nat)>) {
    match r
    case None => forall i | BlankPair(s, i) :: SeparatorEnd(s, i) == None
    case Some((e, c)) => exists i :: FirstPair(s, i) && e == EventEnd(s, i) && SeparatorEnd(s, i) == Some(c)
  }

  lemma {:induction false} BoundaryFrom(s: bytes, i: nat)
    requires i <= |s|
    requires i == 0 || i == |s| || !IsEol(s[i - 1]) || !IsEol(s[i])
    requires forall k | 0 <= k < i :: !BlankPair(s, k)
    ensures BoundarySpec(s, Boundary(s, i))
    decreases |s| - i
  {
    if i < |s| {
      match TermAt(s, i)
      case Not => BoundaryFrom(s, i + 1);
      case Incomplete =>
      case Len(l1) =>
        var j := i + l1;
        match TermAt(s, j)
        case Not =>
          SkipTerminator(s, i, l1);
          BoundaryFrom(s, j);
        case Incomplete =>
        case Len(l2) => FoundFirst(s, i, l1, l2);
    }
  }

  lemma SkipTerminator(s: bytes, i: nat, l: nat)
    requires i < |s| && TermAt(s, i) == Len(l) && TermAt(s, i + l) == Not
    requires forall k | 0 <= k < i :: !BlankPair(s, k)
    ensures i + l <= |s| && forall k | 0 <= k < i + l :: !BlankPair(s, k)
    ensures i + l == |s| || !IsEol(s[i + l])
  {
  }

  lemma FoundFirst(s: bytes, i: nat, l1: nat, l2: nat)
    requires i < |s| && (i == 0 || !IsEol(s[i - 1]) || !IsEol(s[i]))
    requires forall k | 0 <= k < i :: !BlankPair(s, k)
    requires TermAt(s, i) == Len(l1) && TermAt(s, i + l1) == Len(l2)
    ensures BoundarySpec(s, Some((i, i + l1 + l2)))
  {
    assert FirstPair(s, i + l1 - 1);
  }

  /** A boundary is found exactly at the first decided blank line, whatever the terminators are. */
  lemma BoundaryMeaning(s: bytes)
    ensures BoundarySpec(s, Boundary(s, 0))
  {
    BoundaryFrom(s, 0);
  }

  /** The byte-level description leaves one answer only. */
  lemma BoundarySpecUnique(s: bytes, r1: Option<(nat, nat)>, r2: Option<(nat, nat)>)
    requires BoundarySpec(s, r1) && BoundarySpec(s, r2)
    ensures r1 == r2
  {
    if r1.Some? && r2.Some? {
      var i :| FirstPair(s, i) && r1.value.0 == EventEnd(s, i) && SeparatorEnd(s, i) == Some(r1.value.1);
      var j :| FirstPair(s, j) && r2.value.0 == EventEnd(s, j) && SeparatorEnd(s, j) == Some(r2.value.1);
      assert i == j;
    }
  }

  /** A boundary found in a prefix is the first boundary, with the same indices, in every extension. */
  lemma {:induction false} BoundaryStable(s: bytes, t: bytes, i: nat)
    requires Boundary(s, i).Some?
    ensures Boundary(s + t, i) == Boundary(s, i)
    decreases |s| - i
  {
    match TermAt(s, i)
    case Not => BoundaryStable(s, t, i + 1);
    case Incomplete =>
    case Len(l1) =>
      if TermAt(s, i + l1) == Not {
        BoundaryStable(s, t, i + l1);
      }
  }

  predicate IsTerminator(t: bytes) {
    t == [LF] || t == [CR] || t == [CR, LF]
  }

  /** No blank line inside, and no terminator left dangling at the end. */
  ghost predicate IsEventBody(body: bytes) {
    && (forall i :: !BlankPair(body, i))
    && (body != [] ==> !IsEol(body[|body| - 1]))
  }

  ghost predicate IsSeparatorPair(sep: bytes, t1: bytes, t2: bytes) {
    IsTerminator(t1) && IsTerminator(t2) && sep == t1 + t2 && (t1 == [CR] ==> t2[0] != LF)
  }

  /** Two adjacent line terminators. */
  ghost predicate IsSeparator(sep: bytes) {
    exists t1, t2 :: IsSeparatorPair(sep, t1, t2)
  }

  lemma SeparatorShape(s: bytes, i: int, c: nat)
    requires FirstPair(s, i) && SeparatorEnd(s, i) == Some(c)
    ensures EventEnd(s, i) <= i < c <= |s|
    ensures s[EventEnd(s, i)..c] == s[EventEnd(s, i)..i + 1] + s[i + 1..c]
    ensures IsSeparatorPair(s[EventEnd(s, i)..c], s[EventEnd(s, i)..i + 1], s[i + 1..c])
    ensures s[c - 1] == CR ==> c < |s| && s[c] != LF
  {
  }

  lemma BodyShape(s: bytes, i: int)
    requires FirstPair(s, i)
    ensures IsEventBody(s[..EventEnd(s, i)])
  {
    var e: int := EventEnd(s, i);
    var body := s[..e];
    forall k ensures !BlankPair(body, k) {
      assert BlankPair(body, k) ==> BlankPair(s, k);
    }
    assert !BlankPair(s, e - 1);
  }

  lemma BoundaryPair(s: bytes, e: nat, c: nat) returns (i: int)
    requires Boundary(s, 0) == Some((e, c))
    ensures FirstPair(s, i) && e == EventEnd(s, i) && SeparatorEnd(s, i) == Some(c)
  {
    BoundaryMeaning(s);
    i :| FirstPair(s, i) && e == EventEnd(s, i) && SeparatorEnd(s, i) == Some(c);
  }

  /** Every event cut out is minimal: a body without a blank line, then exactly two terminators. */
  lemma EventShape(s: bytes, e: nat, c: nat)
    requires Boundary(s, 0) == Some((e, c))
    ensures IsEventBody(s[..e]) && IsSeparator(s[e..c])
    ensures s[c - 1] == CR ==> c < |s| && s[c] != LF
  {
    var i := BoundaryPair(s, e, c);
    BodyShape(s, i);
    SeparatorShape(s, i, c);
  }
}
