/** How the stream is cut into chunks does not matter, except through the buffer cap. */
module Chunking {
  import opened Prelude
  import opened Sse
  import opened EventStream
  import opened Scanner
  import opened Refinement

  // -------------------------------------------------------------------------
  // Lossless cutting
  // -------------------------------------------------------------------------

  function Joined(events: seq<Event>): bytes {
    if events == [] then [] else events[0].body + events[0].separator + Joined(events[1..])
  }

  lemma CutAt(s: bytes, e: nat, c: nat)
    requires Boundary(s, 0) == Some((e, c))
    ensures Segment(s).events == [Event(s[..e], s[e..c])] + Segment(s[c..]).events
    ensures Residue(s) == Residue(s[c..])
    ensures s == s[..e] + s[e..c] + s[c..]
  {
  }

  lemma JoinedCons(ev: Event, rest: seq<Event>)
    ensures Joined([ev] + rest) == ev.body + ev.separator + Joined(rest)
  {
    assert ([ev] + rest)[1..] == rest;
  }

  lemma {:induction false} NothingLost(s: bytes)
    ensures Joined(Segment(s).events) + Residue(s) == s
    decreases |s|
  {
    if Boundary(s, 0).Some? {
      var (e, c) := Boundary(s, 0).value;
      CutAt(s, e, c);
      var rest := s[c..];
      NothingLost(rest);
      JoinedCons(Event(s[..e], s[e..c]), Segment(rest).events);
      Associate(s[..e] + s[e..c], Joined(Segment(rest).events), Residue(rest));
    }
  }

  lemma {:induction false} EventShapes(s: bytes)
    ensures forall ev | ev in Segment(s).events :: IsEventBody(ev.body) && IsSeparator(ev.separator)
    ensures Boundary(Residue(s), 0) == None
    decreases |s|
  {
    if Boundary(s, 0).Some? {
      var (e, c) := Boundary(s, 0).value;
      EventShape(s, e, c);
      CutAt(s, e, c);
      EventShapes(s[c..]);
    }
  }

  /** No byte is lost or invented, and every event is as small as it can be. */
  lemma LosslessPartition(s: bytes)
    ensures Joined(Segment(s).events) + Residue(s) == s
    ensures forall ev | ev in Segment(s).events :: IsEventBody(ev.body) && IsSeparator(ev.separator)
    ensures Boundary(Residue(s), 0) == None
  {
    NothingLost(s);
    EventShapes(s);
  }

  /** In the body of a complete event `process_event` never meets an undecided CR. */
  lemma NoIncompleteInEvents(s: bytes, ev: Event, i: nat)
    requires ev in Segment(s).events
    ensures TermAt(ev.body, i) != Incomplete
  {
    assert IsEventBody(ev.body) by {
      EventShapes(s);
    }
    BodyIsDecided(ev.body, i);
  }

  lemma BodyIsDecided(body: bytes, i: nat)
    requires IsEventBody(body)
    ensures TermAt(body, i) != Incomplete
  {
  }

  lemma SlicesOfPrefix(s: bytes, t: bytes, e: nat, c: nat)
    requires e <= c <= |s|
    ensures (s + t)[..e] == s[..e] && (s + t)[e..c] == s[e..c] && (s + t)[c..] == s[c..] + t
  {
  }

  lemma CutAtExtended(s: bytes, t: bytes, e: nat, c: nat)
    requires Boundary(s, 0) == Some((e, c))
    ensures Segment(s + t).events == [Event(s[..e], s[e..c])] + Segment(s[c..] + t).events
    ensures Residue(s + t) == Residue(s[c..] + t)
  {
    BoundaryStable(s, t, 0);
    CutAt(s + t, e, c);
    SlicesOfPrefix(s, t, e, c);
  }

  /** Cutting a longer stream continues from the bytes left over. */
  lemma {:induction false} SegmentAppend(s: bytes, t: bytes)
    ensures Segment(s + t).events == Segment(s).events + Segment(Residue(s) + t).events
    ensures Residue(s + t) == Residue(Residue(s) + t)
    decreases |s|
  {
    if Boundary(s, 0).Some? {
      var (e, c) := Boundary(s, 0).value;
      CutAt(s, e, c);
      CutAtExtended(s, t, e, c);
      SegmentAppend(s[c..], t);
      Associate([Event(s[..e], s[e..c])], Segment(s[c..]).events, Segment(Residue(s) + t).events);
    }
  }

  lemma {:induction false} PayloadsAppend(a: seq<Event>, b: seq<Event>)
    ensures Payloads(a + b) == Payloads(a) + Payloads(b)
  {
    if a == [] {
      assert a + b == b;
    } else {
      assert (a + b)[1..] == a[1..] + b;
      PayloadsAppend(a[1..], b);
    }
  }

  lemma {:induction false} LearnAppend(parse: bytes -> Option<Usage>, f: Facts, a: seq<bytes>, b: seq<bytes>)
    ensures LearnAll(parse, f, a + b) == LearnAll(parse, LearnAll(parse, f, a), b)
    decreases |a|
  {
    if a == [] {
      assert a + b == b;
    } else {
      assert (a + b)[1..] == a[1..] + b;
      LearnAppend(parse, Learn(parse, f, a[0]), a[1..], b);
    }
  }

  /** What a scanner knows after reading `s` in one go. */
  function FactsOf(parse: bytes -> Option<Usage>, s: bytes): Facts {
    LearnAll(parse, NO_FACTS, Payloads(Segment(s).events))
  }

  lemma FactsAppend(parse: bytes -> Option<Usage>, s: bytes, t: bytes)
    ensures FactsOf(parse, s + t)
         == LearnAll(parse, FactsOf(parse, s), Payloads(Segment(Residue(s) + t).events))
  {
    SegmentAppend(s, t);
    PayloadsAppend(Segment(s).events, Segment(Residue(s) + t).events);
    LearnAppend(parse, NO_FACTS, Payloads(Segment(s).events), Payloads(Segment(Residue(s) + t).events));
  }

  // -------------------------------------------------------------------------
  // Every chunking
  // -------------------------------------------------------------------------

  /** The bytes that have arrived with the first `k` chunks. */
  function Arrived(chunks: seq<bytes>, k: nat): bytes
    requires k <= |chunks|
  {
    Concat(chunks[..k])
  }

  /** More than 1 MiB is left over. */
  predicate TooLong(s: bytes) {
    |Residue(s)| > 1_048_576
  }

  /** `k` chunks have arrived when, for the first time, too much is left over. */
  ghost predicate OverflowsAt(chunks: seq<bytes>, k: nat) {
    && k <= |chunks| && TooLong(Arrived(chunks, k))
    && forall j: nat | j < k :: !TooLong(Arrived(chunks, j))
  }

  ghost predicate Overflows(chunks: seq<bytes>) {
    exists k: nat | k <= |chunks| :: TooLong(Arrived(chunks, k))
  }

  /** The scanner's state in terms of the bytes alone: the left-over and the facts of everything
      read; from an overflow on, the facts frozen at the cut where it happened. */
  ghost predicate StateOf(parse: bytes -> Option<Usage>, chunks: seq<bytes>, st: State) {
    if Overflows(chunks) then
      exists k: nat :: OverflowsAt(chunks, k) && st == State([], FactsOf(parse, Arrived(chunks, k)), true)
    else
      st == State(Residue(Concat(chunks)), FactsOf(parse, Concat(chunks)), false)
  }

  lemma ArrivedBefore(chunks: seq<bytes>, n: nat, j: nat)
    requires j <= n <= |chunks|
    ensures Arrived(chunks[..n], j) == Arrived(chunks, j)
  {
    assert chunks[..n][..j] == chunks[..j];
  }

  lemma NothingArrived(chunks: seq<bytes>)
    ensures Arrived(chunks, 0) == [] && !TooLong([])
  {
  }

  lemma OverflowExtends(chunks: seq<bytes>, k: nat)
    requires chunks != [] && OverflowsAt(chunks[..|chunks| - 1], k)
    ensures OverflowsAt(chunks, k)
  {
    var n := |chunks| - 1;
    forall j: nat | j <= n ensures Arrived(chunks[..n], j) == Arrived(chunks, j) {
      ArrivedBefore(chunks, n, j);
    }
  }

  lemma NoOverflowBefore(chunks: seq<bytes>)
    requires chunks != [] && !Overflows(chunks[..|chunks| - 1])
    ensures forall j: nat | j < |chunks| :: !TooLong(Arrived(chunks, j))
  {
    var n := |chunks| - 1;
    forall j: nat | j <= n ensures !TooLong(Arrived(chunks, j)) {
      ArrivedBefore(chunks, n, j);
    }
  }

  /** OVERFLOW, exactly: feeding chunk by chunk overflows if and only if at some cut too much is
      left over; otherwise the result depends on the bytes only. */
  lemma {:induction false} FeedAllMeaning(parse: bytes -> Option<Usage>, chunks: seq<bytes>)
    ensures StateOf(parse, chunks, FeedAll(parse, FRESH, chunks))
    decreases |chunks|
  {
    if chunks == [] {
      NothingArrived(chunks);
    } else {
      var n := |chunks| - 1;
      var init := chunks[..n];
      var st := FeedAll(parse, FRESH, init);
      FeedAllMeaning(parse, init);
      if Overflows(init) {
        var k: nat :| OverflowsAt(init, k) && st == State([], FactsOf(parse, Arrived(init, k)), true);
        OverflowExtends(chunks, k);
        ArrivedBefore(chunks, n, k);
        assert TooLong(Arrived(chunks, k));
      } else {
        NoOverflowBefore(chunks);
        assert chunks[..|chunks|] == chunks;
        FactsAppend(parse, Concat(init), chunks[n]);
        SegmentAppend(Concat(init), chunks[n]);
        assert Concat(chunks) == Concat(init) + chunks[n];
        if TooLong(Arrived(chunks, |chunks|)) {
          assert OverflowsAt(chunks, |chunks|);
        }
      }
    }
  }

  /** `buf` never exceeds the cap, and an overflow is final. */
  lemma BufferCapped(parse: bytes -> Option<Usage>, st: State, chunk: bytes)
    requires |st.buf| <= 1_048_576
    ensures |FeedState(parse, st, chunk).buf| <= 1_048_576
    ensures st.overflowed ==> FeedState(parse, st, chunk) == st
  {
  }

  /** CHUNKING INVARIANCE. Without an overflow every cutting, empty chunks included, leaves the
      scanner exactly as feeding the whole stream at once does. */
  lemma ChunkingInvariance(parse: bytes -> Option<Usage>, chunks: seq<bytes>)
    requires !Overflows(chunks)
    ensures FeedAll(parse, FRESH, chunks) == FeedState(parse, FRESH, Concat(chunks))
  {
    FeedAllMeaning(parse, chunks);
    assert chunks[..|chunks|] == chunks;
    assert !TooLong(Arrived(chunks, |chunks|));
    assert [] + Concat(chunks) == Concat(chunks);
  }

  /** Fed in any cutting that does not overflow, the scanner knows exactly what the events that the
      standard's interpreter dispatches teach it. */
  lemma FedScannerRefinesStandard(parse: bytes -> Option<Usage>, chunks: seq<bytes>)
    requires !Overflows(chunks)
    ensures FeedAll(parse, FRESH, chunks).facts
         == LearnAll(parse, NO_FACTS, Run(INIT, Decided(Concat(chunks))).events)
  {
    FeedAllMeaning(parse, chunks);
    ScannerRefinesInterpreter(Concat(chunks));
  }

  // -------------------------------------------------------------------------
  // What an overflow leaves behind
  // -------------------------------------------------------------------------

  /** A payload that sets the last usage. */
  predicate Reports(parse: bytes -> Option<Usage>, data: bytes) {
    data != DONE && Mentions(data, QUOTED_USAGE) && parse(data).Some?
  }

  ghost predicate IsInside(word: bytes, data: bytes) {
    exists pre, post :: data == pre + word + post
  }

  lemma InsideIsMentioned(word: bytes, data: bytes)
    ensures IsInside(word, data) <==> Mentions(data, word)
  {
    if pre, post :| data == pre + word + post {
      assert MatchAt(data, word, |pre|);
    }
    if i: nat :| i <= |data| && MatchAt(data, word, i) {
      assert data == data[..i] + word + data[i + |word|..];
    }
  }

  /** WHAT A PAYLOAD TEACHES, byte for byte: `[DONE]` sets the done flag and nothing else does; any
      other payload sets the last usage if and only if it holds `"usage"`, quotes included, anywhere
      and the parser reads usage from it. */
  lemma LearnExactly(parse: bytes -> Option<Usage>, facts: Facts, data: bytes)
    ensures Learn(parse, facts, data).sawDone <==> facts.sawDone || data == [91, 68, 79, 78, 69, 93]
    ensures Learn(parse, facts, data).lastUsage
         == if data != [91, 68, 79, 78, 69, 93] && IsInside([34, 117, 115, 97, 103, 101, 34], data) && parse(data).Some?
            then parse(data) else facts.lastUsage
  {
    InsideIsMentioned([34, 117, 115, 97, 103, 101, 34], data);
  }

  /** In particular wherever the key stands. */
  lemma UsageIsFound(parse: bytes -> Option<Usage>, facts: Facts, pre: bytes, post: bytes)
    requires var data := pre + [34, 117, 115, 97, 103, 101, 34] + post;
             data != [91, 68, 79, 78, 69, 93] && parse(data).Some?
    ensures var data := pre + [34, 117, 115, 97, 103, 101, 34] + post;
            Learn(parse, facts, data) == facts.(lastUsage := parse(data))
  {
    var data := pre + [34, 117, 115, 97, 103, 101, 34] + post;
    LearnExactly(parse, facts, data);
  }

  lemma ReportsExactly(parse: bytes -> Option<Usage>, data: bytes)
    ensures Reports(parse, data)
       <==> data != [91, 68, 79, 78, 69, 93] && IsInside([34, 117, 115, 97, 103, 101, 34], data) && parse(data).Some?
  {
    InsideIsMentioned([34, 117, 115, 97, 103, 101, 34], data);
  }

  ghost predicate LastReportAt(parse: bytes -> Option<Usage>, payloads: seq<bytes>, i: nat) {
    i < |payloads| && Reports(parse, payloads[i]) && forall j | i < j < |payloads| :: !Reports(parse, payloads[j])
  }

  lemma LearnLast(parse: bytes -> Option<Usage>, payloads: seq<bytes>)
    requires payloads != []
    ensures var n := |payloads| - 1;
            LearnAll(parse, NO_FACTS, payloads)
            == Learn(parse, LearnAll(parse, NO_FACTS, payloads[..n]), payloads[n])
  {
    var n := |payloads| - 1;
    assert payloads == payloads[..n] + [payloads[n]];
    LearnAppend(parse, NO_FACTS, payloads[..n], [payloads[n]]);
  }

  /** What is learnt from a list of payloads: the usage of the last one that reports any, and whether
      one of them is `[DONE]`. */
  lemma {:induction false} LearnedExactly(parse: bytes -> Option<Usage>, payloads: seq<bytes>)
    ensures var facts := LearnAll(parse, NO_FACTS, payloads);
            && (facts.sawDone <==> DONE in payloads)
            && (facts.lastUsage == None <==> forall p | p in payloads :: !Reports(parse, p))
            && forall i: nat | LastReportAt(parse, payloads, i) :: facts.lastUsage == parse(payloads[i])
  {
    if payloads != [] {
      var n := |payloads| - 1;
      var init := payloads[..n];
      LearnedExactly(parse, init);
      LearnLast(parse, payloads);
      assert payloads == init + [payloads[n]];
      assert forall p :: p in payloads <==> p in init || p == payloads[n];
      if Reports(parse, payloads[n]) {
        assert payloads[n] in payloads && LearnAll(parse, NO_FACTS, payloads).lastUsage == parse(payloads[n]);
      } else {
        assert LearnAll(parse, NO_FACTS, payloads).lastUsage == LearnAll(parse, NO_FACTS, init).lastUsage;
      }
      forall i: nat | LastReportAt(parse, payloads, i)
        ensures LearnAll(parse, NO_FACTS, payloads).lastUsage == parse(payloads[i])
      {
        if i < n {
          assert !Reports(parse, payloads[n]);
          assert LastReportAt(parse, init, i);
        }
      }
    }
  }

  /** AFTER AN OVERFLOW no usage is reported if and only if no event that was complete at the cut
      where it happened had reported any. */
  lemma OverflowKeepsUsage(parse: bytes -> Option<Usage>, chunks: seq<bytes>, k: nat)
    requires OverflowsAt(chunks, k)
    ensures var seen := Payloads(Segment(Arrived(chunks, k)).events);
            var st := FeedAll(parse, FRESH, chunks);
            && st.overflowed
            && (st.facts.lastUsage == None <==> forall p | p in seen :: !Reports(parse, p))
            && forall i: nat | LastReportAt(parse, seen, i) :: st.facts.lastUsage == parse(seen[i])
  {
    FeedAllMeaning(parse, chunks);
    var j: nat :| OverflowsAt(chunks, j)
      && FeedAll(parse, FRESH, chunks) == State([], FactsOf(parse, Arrived(chunks, j)), true);
    assert j == k;
    LearnedExactly(parse, Payloads(Segment(Arrived(chunks, k)).events));
  }

  lemma {:induction false} NoTerminatorNoBoundary(s: bytes, i: nat)
    requires forall j | i <= j < |s| :: !IsEol(s[j])
    ensures Boundary(s, i) == None
    decreases |s| - i
  {
    if i < |s| {
      NoTerminatorNoBoundary(s, i + 1);
    }
  }

  /** `n` bytes of one line. */
  function LongLine(n: nat): bytes {
    seq(n, _ => 120)
  }

  /** A line longer than the cap overflows, whatever complete events came before it: all that they
      taught is kept. */
  lemma LongLineOverflows(parse: bytes -> Option<Usage>, s: bytes, n: nat)
    requires Residue(s) == [] && n > MAX_EVENT_BUFFER
    ensures OverflowsAt([s, LongLine(n)], 2)
    ensures FeedAll(parse, FRESH, [s, LongLine(n)]) == State([], FactsOf(parse, s), true)
  {
    var chunks := [s, LongLine(n)];
    NoTerminatorNoBoundary(LongLine(n), 0);
    assert Residue(LongLine(n)) == LongLine(n) && Segment(LongLine(n)).events == [];
    assert chunks[..0] == [] && chunks[..1] == [s] && chunks[..2] == chunks && [s][..0] == [];
    assert [] + s == s && Concat([s]) == s;
    assert [] + LongLine(n) == LongLine(n);
    SegmentAppend(s, LongLine(n));
    FactsAppend(parse, s, LongLine(n));
    assert Arrived(chunks, 0) == [] && Arrived(chunks, 1) == s && Arrived(chunks, 2) == s + LongLine(n);
    FeedAllMeaning(parse, chunks);
    assert TooLong(Arrived(chunks, 2));
  }

  // `{"usage":{}}`
  const USAGE_OBJECT: bytes := [123] + QUOTED_USAGE + [58, 123, 125, 125]

  /** One event that reports usage. */
  const USAGE_EVENT: bytes := DATA_COLON + USAGE_OBJECT + [LF, LF]

  lemma UsageEventIsCut()
    ensures Boundary(USAGE_EVENT, 0) == Some((17, 19))
    ensures Payload(USAGE_EVENT[..17]) == Some(USAGE_OBJECT)
  {
    var s := USAGE_EVENT;
    assert |s| == 19 && s[17] == LF && s[18] == LF && forall j | 0 <= j < 17 :: !IsEol(s[j]);
    BoundaryAfterLine(s, 0, 17);
    var body := s[..17];
    assert body == DATA_COLON + USAGE_OBJECT;
    ExtractOneLine(body, 0);
    assert body[0..] == body && body[5..] == USAGE_OBJECT && USAGE_OBJECT[0] == 123;
    assert LinePayload(body) == Some(USAGE_OBJECT);
    assert [] + USAGE_OBJECT == USAGE_OBJECT;
  }

  lemma {:induction false} BoundaryAfterLine(s: bytes, i: nat, e: nat)
    requires i <= e && e + 2 <= |s| && s[e] == LF && s[e + 1] == LF && forall j | i <= j < e :: !IsEol(s[j])
    ensures Boundary(s, i) == Some((e, e + 2))
    decreases e - i
  {
    if i < e {
      BoundaryAfterLine(s, i + 1, e);
    }
  }

  lemma {:induction false} ExtractOneLine(body: bytes, i: nat)
    requires i <= |body| && forall j | i <= j < |body| :: !IsEol(body[j])
    ensures ExtractFrom(body, i, 0, Acc([], false)) == CollectDataLine(body[0..], Acc([], false))
    decreases |body| - i
  {
    if i < |body| {
      ExtractOneLine(body, i + 1);
    }
  }

  // -------------------------------------------------------------------------
  // Events written out in bytes
  // -------------------------------------------------------------------------

  /** One line, without a terminator. */
  predicate IsLine(s: bytes) {
    10 !in s && 13 !in s
  }

  /** The payload of every event of one line: what follows `data:` and at most one space, nothing for
      a bare `data`, no payload for any other line. */
  lemma OneLinePayload(line: bytes)
    requires IsLine(line)
    ensures Payload(line)
         == if [100, 97, 116, 97, 58, 32] <= line then Some(line[6..])
            else if [100, 97, 116, 97, 58] <= line then Some(line[5..])
            else if line == [100, 97, 116, 97] then Some([])
            else None
  {
    ExtractOneLine(line, 0);
    assert line[0..] == line;
    if [100, 97, 116, 97, 58] <= line {
      OneMoreByte(line, [100, 97, 116, 97, 58], 32);
      assert [100, 97, 116, 97, 58] + [32] == [100, 97, 116, 97, 58, 32];
      var rest := line[5..];
      assert [SPACE] <= rest ==> rest[1..] == line[6..];
      assert [] + LinePayload(line).value == LinePayload(line).value;
    }
  }

  lemma OneMoreByte(s: bytes, word: bytes, b: byte)
    requires word <= s
    ensures word + [b] <= s <==> [b] <= s[|word|..]
  {
    var n := |word|;
    assert |s| > n ==> s[..n + 1] == word + [s[n]];
    assert |s| > n ==> s[n..][..1] == [s[n]];
  }

  lemma {:induction false} PlainBytes(s: bytes, i: nat, e: nat)
    requires i <= e <= |s| && forall j | i <= j < e :: s[j] != 10 && s[j] != 13
    ensures Boundary(s, i) == Boundary(s, e)
    decreases e - i
  {
    if i < e {
      PlainBytes(s, i + 1, e);
    }
  }

  /** Two line feeds, or two CRLFs, end an event of any line. */
  lemma LineIsEvent(line: bytes, separator: bytes)
    requires IsLine(line) && (separator == [10, 10] || separator == [13, 10, 13, 10])
    ensures Segment(line + separator) == Segmentation([Event(line, separator)], [])
  {
    var s := line + separator;
    PlainBytes(s, 0, |line|);
    assert s[|line|..] == separator;
    assert forall k | 0 <= k < |separator| :: s[|line| + k] == separator[k];
    assert Boundary(s, |line|) == Some((|line|, |s|));
    CutAt(s, |line|, |s|);
    assert s[..|line|] == line && s[|line|..|s|] == separator && s[|s|..] == [];
    assert Segment([]) == Segmentation([], []);
  }

  /** Two lone CRs do as soon as a byte other than LF follows, and not before. */
  lemma LoneCrIsEvent(line: bytes, next: byte)
    requires IsLine(line) && next != 10 && next != 13
    ensures Segment(line + [13, 13]).events == []
    ensures Segment(line + [13, 13, next]) == Segmentation([Event(line, [13, 13])], [next])
  {
    UndecidedCrs(line);
    DecidedCrs(line, next);
  }

  lemma UndecidedCrs(line: bytes)
    requires IsLine(line)
    ensures Segment(line + [13, 13]).events == []
  {
    var s := line + [13, 13];
    PlainBytes(s, 0, |line|);
    assert s[|line|] == 13 && s[|line| + 1] == 13;
    assert Boundary(s, |line|) == None;
  }

  lemma DecidedCrs(line: bytes, next: byte)
    requires IsLine(line) && next != 10 && next != 13
    ensures Segment(line + [13, 13, next]) == Segmentation([Event(line, [13, 13])], [next])
  {
    var t := line + [13, 13, next];
    PlainBytes(t, 0, |line|);
    assert t[|line|] == 13 && t[|line| + 1] == 13 && t[|line| + 2] == next;
    assert Boundary(t, |line|) == Some((|line|, |line| + 2));
    CutAt(t, |line|, |line| + 2);
    assert t[..|line|] == line && t[|line|..|line| + 2] == [13, 13] && t[|line| + 2..] == [next];
    PlainBytes([next], 0, 1);
    assert Segment([next]) == Segmentation([], [next]);
  }

  /** A usage chunk as a server sends it, `data: ` and a JSON payload and a blank line, is learnt from
      wherever the key stands in it. */
  lemma UsageChunkIsLearnt(parse: bytes -> Option<Usage>, pre: bytes, post: bytes, separator: bytes)
    requires IsLine(pre) && IsLine(post) && (separator == [10, 10] || separator == [13, 10, 13, 10])
    requires parse(pre + [34, 117, 115, 97, 103, 101, 34] + post).Some?
    ensures var data := pre + [34, 117, 115, 97, 103, 101, 34] + post;
            FeedState(parse, FRESH, [100, 97, 116, 97, 58, 32] + data + separator)
            == State([], Facts(parse(data), false), false)
  {
    var data := pre + [34, 117, 115, 97, 103, 101, 34] + post;
    var line := [100, 97, 116, 97, 58, 32] + data;
    assert data[|pre|] == 34;
    assert data != [91, 68, 79, 78, 69, 93] by {
      assert 34 in data;
    }
    OneLinePayload(line);
    assert line[..6] == [100, 97, 116, 97, 58, 32] && line[6..] == data;
    LineIsEvent(line, separator);
    UsageIsFound(parse, NO_FACTS, pre, post);
    assert [] + (line + separator) == line + separator;
    var ev := Event(line, separator);
    assert [ev][1..] == [] && Payloads([ev]) == [data] && [data][1..] == [];
    assert LearnAll(parse, NO_FACTS, [data]) == LearnAll(parse, Learn(parse, NO_FACTS, data), []);
  }

  /** A stream on which usage survives an overflow: one usage event, then a line over the cap. */
  lemma UsageSurvivesOverflow(parse: bytes -> Option<Usage>, u: Usage)
    requires parse(USAGE_OBJECT) == Some(u)
    ensures var chunks := [USAGE_EVENT, LongLine(MAX_EVENT_BUFFER + 1)];
            OverflowsAt(chunks, 2)
            && FeedAll(parse, FRESH, chunks) == State([], Facts(Some(u), false), true)
  {
    var s := USAGE_EVENT;
    UsageEventIsCut();
    CutAt(s, 17, 19);
    assert s[19..] == [];
    assert Segment([]).events == [];
    var ev := Event(s[..17], s[17..19]);
    assert Segment(s).events == [ev];
    assert [ev][1..] == [];
    assert Payloads([ev]) == [USAGE_OBJECT];
    assert MatchAt(USAGE_OBJECT, QUOTED_USAGE, 1) && |USAGE_OBJECT| != |DONE|;
    assert Learn(parse, NO_FACTS, USAGE_OBJECT) == Facts(Some(u), false);
    assert [USAGE_OBJECT][1..] == [];
    assert FactsOf(parse, s) == LearnAll(parse, Learn(parse, NO_FACTS, USAGE_OBJECT), []);
    LongLineOverflows(parse, s, MAX_EVENT_BUFFER + 1);
  }

  // -------------------------------------------------------------------------
  // Finer cuttings of the same bytes
  // -------------------------------------------------------------------------

  /** Every cut of `coarse` is a cut of `fine`, and both carry the same bytes. */
  ghost predicate Refines(fine: seq<bytes>, coarse: seq<bytes>) {
    && Concat(fine) == Concat(coarse)
    && forall k: nat | k <= |coarse| ::
         exists j: nat :: j <= |fine| && |Arrived(fine, j)| == |Arrived(coarse, k)|
  }

  lemma {:induction false} ArrivedIsPrefix(chunks: seq<bytes>, k: nat)
    requires k <= |chunks|
    ensures |Arrived(chunks, k)| <= |Concat(chunks)|
    ensures Arrived(chunks, k) == Concat(chunks)[..|Arrived(chunks, k)|]
    decreases |chunks|
  {
    if k == |chunks| {
      assert chunks[..k] == chunks;
    } else {
      var n := |chunks| - 1;
      ArrivedIsPrefix(chunks[..n], k);
      ArrivedBefore(chunks, n, k);
    }
  }

  lemma {:induction false} ArrivedGrows(chunks: seq<bytes>, j: nat, k: nat)
    requires j <= k <= |chunks|
    ensures |Arrived(chunks, j)| <= |Arrived(chunks, k)|
  {
    ArrivedIsPrefix(chunks[..k], j);
    ArrivedBefore(chunks, k, j);
  }

  lemma {:induction false} FirstOverflow(chunks: seq<bytes>, k: nat) returns (first: nat)
    requires k <= |chunks| && TooLong(Arrived(chunks, k))
    ensures first <= k && OverflowsAt(chunks, first)
  {
    if j: nat :| j < k && TooLong(Arrived(chunks, j)) {
      first := FirstOverflow(chunks, j);
    } else {
      first := k;
    }
  }

  lemma EventsOfPrefix(s: bytes, p: nat)
    requires p <= |s|
    ensures Segment(s[..p]).events <= Segment(s).events
  {
    assert s == s[..p] + s[p..];
    SegmentAppend(s[..p], s[p..]);
  }

  /** OVERFLOW IS MONOTONE. Cutting more finely can only make the scanner give up, and then at the
      same byte or an earlier one: the events it has accounted for are a prefix of the coarse ones. */
  lemma FinerOverflowsEarlier(fine: seq<bytes>, coarse: seq<bytes>, k: nat) returns (j: nat)
    requires Refines(fine, coarse) && OverflowsAt(coarse, k)
    ensures OverflowsAt(fine, j)
    ensures |Arrived(fine, j)| <= |Arrived(coarse, k)|
    ensures Segment(Arrived(fine, j)).events <= Segment(Arrived(coarse, k)).events
  {
    var m: nat :| m <= |fine| && |Arrived(fine, m)| == |Arrived(coarse, k)|;
    ArrivedIsPrefix(fine, m);
    ArrivedIsPrefix(coarse, k);
    assert Arrived(fine, m) == Arrived(coarse, k);
    j := FirstOverflow(fine, m);
    ArrivedGrows(fine, j, m);
    ArrivedIsPrefix(fine, j);
    var p := |Arrived(fine, j)|;
    assert Concat(fine)[..p] == Arrived(coarse, k)[..p];
    EventsOfPrefix(Arrived(coarse, k), p);
  }
}
