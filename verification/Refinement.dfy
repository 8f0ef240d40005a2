/** The buffered scanner refines the line-at-a-time interpreter. */
module Refinement {
  import opened Prelude
  import opened Sse
  import opened EventStream
  import opened Scanner

  /** The bytes whose meaning is settled: a final CR may still become CRLF. */
  function Decided(s: bytes): bytes {
    if s != [] && s[|s| - 1] == CR then s[..|s| - 1] else s
  }

  /** The interpreter's data buffer that corresponds to the scanner's joined payload. */
  function DataBuffer(acc: Acc): bytes {
    if acc.saw then acc.data + [LF] else []
  }

  lemma {:induction false} IndexOfIs(line: bytes, b: byte, j: nat, i: nat)
    requires j <= i < |line| && line[i] == b && forall m | j <= m < i :: line[m] != b
    ensures IndexOf(line, b, j) == Some(i)
    decreases i - j
  {
    if j < i {
      IndexOfIs(line, b, j + 1, i);
    }
  }

  /** Having the prefix `data:` is having the field name `data` before the first colon. */
  lemma DataField(line: bytes)
    ensures DATA_COLON <= line <==> IndexOf(line, COLON, 0) == Some(4) && line[..4] == DATA
    ensures line == DATA ==> IndexOf(line, COLON, 0) == None
  {
    if DATA_COLON <= line {
      assert forall j | 0 <= j < 5 :: line[j] == DATA_COLON[j];
      IndexOfIs(line, COLON, 0, 4);
    }
  }

  predicate Tidy(acc: Acc) {
    acc.saw || acc.data == []
  }

  /** Both sides read a non-empty line the same way. */
  lemma LineAgrees(st: Interp, acc: Acc)
    requires st.line != [] && st.data == DataBuffer(acc) && Tidy(acc)
    ensures Tidy(CollectDataLine(st.line, acc))
    ensures ProcessLine(st) == st.(line := [], data := DataBuffer(CollectDataLine(st.line, acc)))
  {
    DataField(st.line);
    var p := LinePayload(st.line);
    var k := IndexOf(st.line, COLON, 0);
    if p.Some? {
      assert DataBuffer(CollectDataLine(st.line, acc)) == st.data + p.value + [LF];
    } else if k.Some? {
      assert |st.line[..k.value]| == k.value;
    }
  }

  /** The interpreter `st` and the loop of `process_event` stand at the same token of `body`. */
  ghost predicate InStep(body: bytes, i: nat, start: nat, acc: Acc, st: Interp) {
    && IsEventBody(body) && start <= i <= |body|
    && st.line == body[start..i] && st.data == DataBuffer(acc) && Tidy(acc)
    && (start == i ==> if i == 0 then acc == Acc([], false) else i < |body| && !IsEol(body[i]))
    && (st.skipLf ==> i < |body| && body[i] != LF)
  }

  /** At the end of the body the interpreter holds the last line, the loop has yet to collect it. */
  ghost predicate EndsInStep(body: bytes, acc: Acc, end: Interp, events: seq<bytes>, last: Acc) {
    && end == Interp(false, end.line, DataBuffer(last), events)
    && Tidy(last)
    && (end.line == [] <==> body == [])
    && acc == CollectDataLine(end.line, last)
  }

  /** A line terminator inside the body ends the line on both sides. */
  lemma LineInStep(body: bytes, i: nat, start: nat, acc: Acc, st: Interp, l: nat)
    requires InStep(body, i, start, acc, st) && TermAt(body, i) == Len(l)
    ensures var st1 := ProcessLine(st).(skipLf := body[i + l - 1] == CR);
            && Run(st, body[i..]) == Run(st1, body[i + l..])
            && st1.events == st.events
            && InStep(body, i + l, i + l, CollectDataLine(st.line, acc), st1)
  {
    if st.line != [] {
      LineAgrees(st, acc);
    }
    assert !BlankPair(body, i + l - 1);
    RunStep(st, body[i..]);
    assert body[i..][1..] == body[i + 1..];
    if l == 2 {
      RunStep(StepByte(st, CR), body[i + 1..]);
      assert body[i + 1..][1..] == body[i + 2..];
    }
  }

  /** Any other byte extends the line on both sides. */
  lemma ByteInStep(body: bytes, i: nat, start: nat, acc: Acc, st: Interp)
    requires InStep(body, i, start, acc, st) && i < |body| && !IsEol(body[i])
    ensures var st1 := StepByte(st, body[i]);
            && Run(st, body[i..]) == Run(st1, body[i + 1..])
            && st1.events == st.events
            && InStep(body, i + 1, start, acc, st1)
  {
    RunStep(st, body[i..]);
    assert body[i..][1..] == body[i + 1..];
  }

  lemma LastInStep(body: bytes, start: nat, acc: Acc, st: Interp)
    requires InStep(body, |body|, start, acc, st)
    ensures Run(st, body[|body|..]) == st
    ensures EndsInStep(body, ExtractFrom(body, |body|, start, acc), st, st.events, acc)
  {
    assert body[|body|..] == [];
    assert body[start..] == body[start..|body|];
  }

  lemma ExtractLine(body: bytes, i: nat, start: nat, acc: Acc, l: nat)
    requires start <= i < |body| && TermAt(body, i) == Len(l)
    ensures ExtractFrom(body, i, start, acc) == ExtractFrom(body, i + l, i + l, CollectDataLine(body[start..i], acc))
  {
  }

  lemma ExtractByte(body: bytes, i: nat, start: nat, acc: Acc)
    requires start <= i < |body| && !IsEol(body[i])
    ensures ExtractFrom(body, i, start, acc) == ExtractFrom(body, i + 1, start, acc)
  {
  }

  /** Running the interpreter over the rest of an event body follows `process_event` line by line. */
  lemma {:induction false} BodyAgrees(body: bytes, i: nat, start: nat, acc: Acc, st: Interp) returns (last: Acc)
    requires InStep(body, i, start, acc, st)
    ensures EndsInStep(body, ExtractFrom(body, i, start, acc), Run(st, body[i..]), st.events, last)
    decreases |body| - i
  {
    if i == |body| {
      LastInStep(body, start, acc, st);
      last := acc;
    } else if IsEol(body[i]) {
      var l := TermAt(body, i).n;
      LineInStep(body, i, start, acc, st, l);
      var acc1, st1 := CollectDataLine(st.line, acc), ProcessLine(st).(skipLf := body[i + l - 1] == CR);
      ExtractLine(body, i, start, acc, l);
      last := BodyAgrees(body, i + l, i + l, acc1, st1);
    } else {
      ByteInStep(body, i, start, acc, st);
      ExtractByte(body, i, start, acc);
      last := BodyAgrees(body, i + 1, start, acc, StepByte(st, body[i]));
    }
  }

  lemma TerminatorEndsLine(st: Interp, t: bytes)
    requires IsTerminator(t) && (st.skipLf ==> t[0] != LF)
    ensures Run(st, t) == ProcessLine(st).(skipLf := t == [CR])
  {
    RunStep(st, t);
    assert Run(StepByte(st, t[0]), t[1..]) == if |t| == 1 then StepByte(st, t[0]) else StepByte(StepByte(st, t[0]), t[1]) by {
      if |t| == 2 {
        RunStep(StepByte(st, t[0]), t[1..]);
      }
    }
  }

  function AsList(p: Option<bytes>): seq<bytes> {
    match p case None => [] case Some(x) => [x]
  }

  /** Up to the end of its last line an event fills the data buffer with exactly what
      `process_event` collects; the buffer is empty exactly when no data line was seen. */
  lemma BodyThenTerminator(body: bytes, t: bytes)
    requires IsEventBody(body) && IsTerminator(t)
    ensures Run(INIT, body + t)
         == Interp(t == [CR], [], match Payload(body) case None => [] case Some(p) => p + [LF], [])
  {
    var last := BodyAgrees(body, 0, 0, Acc([], false), INIT);
    assert body[0..] == body;
    var st := Run(INIT, body);
    if st.line != [] {
      LineAgrees(st, last);
    }
    RunConcat(INIT, body, t);
    TerminatorEndsLine(st, t);
  }

  lemma BlankLineDispatches(skip: bool, p: Option<bytes>, t: bytes)
    requires IsTerminator(t) && (skip ==> t[0] != LF)
    ensures Run(Interp(skip, [], match p case None => [] case Some(x) => x + [LF], []), t)
         == Interp(t == [CR], [], [], AsList(p))
  {
    var st := Interp(skip, [], match p case None => [] case Some(x) => x + [LF], []);
    TerminatorEndsLine(st, t);
    if p.Some? {
      assert st.data[..|st.data| - 1] == p.value;
    }
  }

  /** One event with its blank line dispatches exactly the payload that `process_event` extracts. */
  lemma EventAgrees(body: bytes, t1: bytes, t2: bytes)
    requires IsEventBody(body) && IsTerminator(t1) && IsTerminator(t2) && (t1 == [CR] ==> t2[0] != LF)
    ensures Run(INIT, body + t1 + t2) == Interp(t2 == [CR], [], [], AsList(Payload(body)))
  {
    BodyThenTerminator(body, t1);
    RunConcat(INIT, body + t1, t2);
    BlankLineDispatches(t1 == [CR], Payload(body), t2);
  }

  lemma DecidedSplit(s: bytes, c: nat)
    requires c <= |s| && (c == |s| && c > 0 ==> s[c - 1] != CR)
    ensures Decided(s) == s[..c] + Decided(s[c..])
  {
  }

  /** After a complete event, which ends at `c`, the interpreter starts afresh, whatever follows. */
  lemma EventThenRest(s: bytes, c: nat, past: seq<bytes>)
    requires 0 < c <= |s| && Run(INIT, s[..c]) == Interp(s[c - 1] == CR, [], [], past)
    requires s[c - 1] == CR ==> c < |s| && s[c] != LF
    ensures var whole := Run(INIT, Decided(s));
            var tail := Run(INIT, Decided(s[c..]));
            whole.events == past + tail.events && whole.line == tail.line && whole.data == tail.data
  {
    var tail := Decided(s[c..]);
    DecidedSplit(s, c);
    RunConcat(INIT, s[..c], tail);
    if tail != [] {
      assert tail[0] == s[c];
      RunFrame(INIT, tail, s[c - 1] == CR, past);
      assert past + INIT.events == past;
    }
  }

  lemma NoBlankLineDecided(s: bytes)
    requires Boundary(s, 0) == None
    ensures forall i :: !BlankPair(Decided(s), i)
  {
    BoundaryMeaning(s);
    forall i ensures !BlankPair(Decided(s), i) {
      assert BlankPair(Decided(s), i) ==> BlankPair(s, i);
    }
  }

  lemma NoEventYet(s: bytes)
    requires Boundary(s, 0) == None
    ensures Run(INIT, Decided(s)).events == []
  {
    NoBlankLineDecided(s);
    NoBlankNoDispatch(Decided(s));
  }

  lemma HeadPieces(s: bytes, e: nat, c: nat, t1: bytes, t2: bytes)
    requires e < c <= |s| && s[e..c] == t1 + t2 && t2 != []
    ensures s[..c] == s[..e] + t1 + t2 && s[c - 1] == t2[|t2| - 1]
  {
    assert s[c - 1] == s[e..c][c - e - 1];
    assert s[..c] == s[..e] + s[e..c];
  }

  lemma EventRun(s: bytes, e: nat, c: nat)
    requires e < c <= |s| && IsEventBody(s[..e]) && IsSeparator(s[e..c])
    ensures Run(INIT, s[..c]) == Interp(s[c - 1] == CR, [], [], AsList(Payload(s[..e])))
  {
    var t1, t2 :| IsSeparatorPair(s[e..c], t1, t2);
    HeadPieces(s, e, c, t1, t2);
    EventAgrees(s[..e], t1, t2);
  }

  lemma FirstEvent(s: bytes, e: nat, c: nat)
    requires Boundary(s, 0) == Some((e, c))
    ensures var whole := Run(INIT, Decided(s));
            var tail := Run(INIT, Decided(s[c..]));
            && whole.events == AsList(Payload(s[..e])) + tail.events
            && whole.line == tail.line && whole.data == tail.data
  {
    CutRun(s, e, c);
    EventThenRest(s, c, AsList(Payload(s[..e])));
  }

  lemma CutRun(s: bytes, e: nat, c: nat)
    requires Boundary(s, 0) == Some((e, c))
    ensures 0 < c <= |s| && (s[c - 1] == CR ==> c < |s| && s[c] != LF)
    ensures Run(INIT, s[..c]) == Interp(s[c - 1] == CR, [], [], AsList(Payload(s[..e])))
  {
    EventShape(s, e, c);
    EventRun(s, e, c);
  }

  lemma PayloadsOfSegment(s: bytes, e: nat, c: nat)
    requires Boundary(s, 0) == Some((e, c))
    ensures Payloads(Segment(s).events) == AsList(Payload(s[..e])) + Payloads(Segment(s[c..]).events)
    ensures Residue(s) == Residue(s[c..])
  {
    assert Segment(s).events[1..] == Segment(s[c..]).events;
  }

  /** REFINEMENT. On every byte sequence, the payloads of the events the scanner cuts out are the
      payloads the standard's interpreter dispatches on the settled bytes, and the bytes it keeps
      put the interpreter in the same unfinished state. */
  lemma {:induction false} ScannerRefinesInterpreter(s: bytes)
    ensures Run(INIT, Decided(s)).events == Payloads(Segment(s).events)
    ensures var whole := Run(INIT, Decided(s));
            var kept := Run(INIT, Decided(Residue(s)));
            whole.line == kept.line && whole.data == kept.data && kept.events == []
    decreases |s|
  {
    match Boundary(s, 0)
    case None =>
      NoEventYet(s);
    case Some((e, c)) =>
      FirstEvent(s, e, c);
      PayloadsOfSegment(s, e, c);
      ScannerRefinesInterpreter(s[c..]);
  }

  // -------------------------------------------------------------------------
  // The end of the stream
  // -------------------------------------------------------------------------

  /** `r` ends in a blank line whose last CR is still undecided, after an event with a data line. */
  predicate PendingBlankLine(r: bytes) {
    |r| >= 2 && r[|r| - 1] == CR && IsEol(r[|r| - 2]) && Payload(r[..EventEnd(r, |r| - 2)]) != None
  }

  /** The payload of the event that an undecided blank line at the end of `r` would complete. */
  function Missed(r: bytes): seq<bytes> {
    if |r| >= 2 && r[|r| - 1] == CR && IsEol(r[|r| - 2])
    then AsList(Payload(r[..EventEnd(r, |r| - 2)]))
    else []
  }

  lemma CutIsDecided(s: bytes, e: nat, c: nat)
    requires Boundary(s, 0) == Some((e, c))
    ensures 0 < c <= |s| && (c == |s| ==> s[c - 1] != CR)
    ensures Residue(s) == Residue(s[c..])
  {
    EventShape(s, e, c);
  }

  predicate EndsInCr(s: bytes) {
    s != [] && s[|s| - 1] == CR
  }

  /** The bytes left over hold no complete event and end as the stream does. */
  lemma {:induction false} ResidueEnd(s: bytes)
    ensures Boundary(Residue(s), 0) == None
    ensures EndsInCr(Residue(s)) <==> EndsInCr(s)
    decreases |s|
  {
    match Boundary(s, 0)
    case None =>
    case Some((e, c)) =>
      CutIsDecided(s, e, c);
      ResidueEnd(s[c..]);
      assert c < |s| ==> s[c..][|s| - c - 1] == s[|s| - 1];
  }

  /** A byte sequence without a blank line that ends in a terminator is a body and that terminator. */
  lemma SplitLastTerminator(d: bytes)
    requires d != [] && IsEol(d[|d| - 1]) && forall i :: !BlankPair(d, i)
    ensures var e := EventEnd(d, |d| - 1);
            IsEventBody(d[..e]) && IsTerminator(d[e..]) && d == d[..e] + d[e..]
  {
    var e: int := EventEnd(d, |d| - 1);
    var body := d[..e];
    forall i ensures !BlankPair(body, i) {
      assert BlankPair(body, i) ==> BlankPair(d, i);
    }
    assert !BlankPair(d, e - 1);
  }

  /** The interpreter's state once `d`, which holds no blank line, has been read. */
  lemma BeforeBlankLine(d: bytes)
    requires forall i :: !BlankPair(d, i)
    ensures var st := Run(INIT, d);
            && st.events == []
            && (if d != [] && IsEol(d[|d| - 1])
                then st.line == [] && st.data == match Payload(d[..EventEnd(d, |d| - 1)])
                                                 case None => [] case Some(p) => p + [LF]
                else st.line != [] || st.data == [])
  {
    NoBlankNoDispatch(d);
    if d != [] && IsEol(d[|d| - 1]) {
      SplitLastTerminator(d);
      var e := EventEnd(d, |d| - 1);
      BodyThenTerminator(d[..e], d[e..]);
    }
  }

  /** What a CR adds when it ends the current line. */
  function DispatchedBy(st: Interp): seq<bytes> {
    if st.line == [] && st.data != [] then Dispatch(st.(events := [])).events else []
  }

  lemma StepCr(st: Interp)
    ensures StepByte(st, CR).events == st.events + DispatchedBy(st)
  {
  }

  /** What an undecided final CR would dispatch if the stream ended here. */
  lemma UndecidedTail(r: bytes)
    requires Boundary(r, 0) == None && r != [] && r[|r| - 1] == CR
    ensures DispatchedBy(Run(INIT, Decided(r))) == Missed(r)
  {
    NoBlankLineDecided(r);
    DispatchedAfter(Decided(r));
    MissedIsCompleted(r);
  }

  /** The payload of the event that one more terminator after `d` would complete. */
  function Completed(d: bytes): seq<bytes> {
    if d != [] && IsEol(d[|d| - 1]) then AsList(Payload(d[..EventEnd(d, |d| - 1)])) else []
  }

  lemma DispatchedAfter(d: bytes)
    requires forall i :: !BlankPair(d, i)
    ensures DispatchedBy(Run(INIT, d)) == Completed(d)
  {
    BeforeBlankLine(d);
    if d != [] && IsEol(d[|d| - 1]) {
      LastLfDropped(Run(INIT, d), Payload(d[..EventEnd(d, |d| - 1)]));
    }
  }

  lemma MissedIsCompleted(r: bytes)
    requires r != [] && r[|r| - 1] == CR
    ensures Missed(r) == Completed(Decided(r))
  {
    var d := Decided(r);
    if d != [] && IsEol(d[|d| - 1]) {
      assert EventEnd(d, |d| - 1) == EventEnd(r, |r| - 2);
      assert d[..EventEnd(d, |d| - 1)] == r[..EventEnd(r, |r| - 2)];
    }
  }

  lemma LastLfDropped(st: Interp, p: Option<bytes>)
    requires st.line == [] && st.data == match p case None => [] case Some(x) => x + [LF]
    ensures DispatchedBy(st) == AsList(p)
  {
    if p.Some? {
      assert st.data[..|st.data| - 1] == p.value;
    }
  }

  /** When the whole stream has arrived the scanner has seen everything the standard dispatches,
      except possibly one last event ... */
  lemma EndOfStream(s: bytes)
    ensures Run(INIT, s).events == Payloads(Segment(s).events) + Missed(Residue(s))
  {
    if EndsInCr(s) {
      UndecidedEnd(s);
    } else {
      ResidueEnd(s);
    }
    SettledEvents(s);
  }

  lemma SettledEvents(s: bytes)
    ensures Run(INIT, Decided(s)).events == Payloads(Segment(s).events)
  {
    ScannerRefinesInterpreter(s);
  }

  lemma SameUnfinished(s: bytes)
    ensures var whole, kept := Run(INIT, Decided(s)), Run(INIT, Decided(Residue(s)));
            whole.line == kept.line && whole.data == kept.data
  {
    ScannerRefinesInterpreter(s);
  }

  /** What the last CR of a stream would add. */
  lemma UndecidedEnd(s: bytes)
    requires EndsInCr(s)
    ensures Run(INIT, s).events == Run(INIT, Decided(s)).events + Missed(Residue(s))
  {
    ResidueEnd(s);
    SameUnfinished(s);
    UndecidedTail(Residue(s));
    LastCr(s, Run(INIT, Decided(s)), Run(INIT, Decided(Residue(s))));
  }

  lemma LastCr(s: bytes, whole: Interp, kept: Interp)
    requires s != [] && s[|s| - 1] == CR && whole == Run(INIT, Decided(s))
    requires whole.line == kept.line && whole.data == kept.data
    ensures Run(INIT, s).events == whole.events + DispatchedBy(kept)
  {
    StepCr(whole);
  }

  /** ... which is missed exactly when the bytes left over end in an undecided blank line. */
  lemma EndOfStreamExact(s: bytes)
    ensures Payloads(Segment(s).events) == Run(INIT, s).events <==> !PendingBlankLine(Residue(s))
  {
    EndOfStream(s);
  }

  /** A stream that shows the difference: `data:x`, CR, CR and nothing more. */
  lemma MissedLastEvent()
    ensures var s: bytes := DATA_COLON + [120, CR, CR];
            Payloads(Segment(s).events) == [] && Run(INIT, s).events == [[120]]
  {
    var s: bytes := DATA_COLON + [120, CR, CR];
    var body: bytes := DATA_COLON + [120];
    assert s[..EventEnd(s, |s| - 2)] == body;
    BoundaryMeaning(s);
    assert BlankPair(s, 6);
    assert forall i | BlankPair(s, i) :: i == 6;
    assert ExtractFrom(body, 6, 0, Acc([], false)) == CollectDataLine(body, Acc([], false));
    assert ExtractFrom(body, 4, 0, Acc([], false)) == ExtractFrom(body, 6, 0, Acc([], false));
    assert ExtractFrom(body, 2, 0, Acc([], false)) == ExtractFrom(body, 4, 0, Acc([], false));
    assert ExtractFrom(body, 0, 0, Acc([], false)) == ExtractFrom(body, 2, 0, Acc([], false));
    assert body[0..] == body && body[5..] == [120];
    EndOfStream(s);
    assert LinePayload(body) == Some([120]);
    assert CollectDataLine(body, Acc([], false)).data == [120];
    assert Missed(s) == [[120]];
  }
}
