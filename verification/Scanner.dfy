/** The incremental usage scanner (src/upstream.rs): a buffer cut into events as chunks arrive. */
module Scanner {
  import opened Prelude
  import opened Sse
  import opened EventStream

  const MAX_EVENT_BUFFER := 1024 * 1024
  const DATA_COLON: bytes := [100, 97, 116, 97, 58]            // data:
  const DONE: bytes := [91, 68, 79, 78, 69, 93]                // [DONE]
  const QUOTED_USAGE: bytes := [34, 117, 115, 97, 103, 101, 34] // "usage"

  /** The two locals of `process_event`: the joined payload and whether a data line was seen. */
  datatype Acc = Acc(data: bytes, saw: bool)

  function LinePayload(line: bytes): Option<bytes> {
    if DATA_COLON <= line then
      var rest := line[|DATA_COLON|..];
      Some(if [SPACE] <= rest then rest[1..] else rest)
    else if line == DATA then Some([])
    else None
  }

  function CollectDataLine(line: bytes, acc: Acc): Acc {
    match LinePayload(line)
    case None => acc
    case Some(p) => Acc((if acc.saw then acc.data + [LF] else acc.data) + p, true)
  }

  /** The tokenising loop of `process_event` from index `i`, its current line starting at `start`. */
  function ExtractFrom(event: bytes, i: nat, start: nat, acc: Acc): Acc
    requires start <= i <= |event|
    decreases |event| - i
  {
    match TermAt(event, i)
    case Len(l) => ExtractFrom(event, i + l, i + l, CollectDataLine(event[start..i], acc))
    case _ =>
      if i >= |event| then CollectDataLine(event[start..], acc)
      else ExtractFrom(event, i + 1, start, acc)
  }

  /** The payload of an event body; `None` for a comment or any event without a data line. */
  function Payload(event: bytes): Option<bytes> {
    var acc := ExtractFrom(event, 0, 0, Acc([], false));
    if acc.saw then Some(acc.data) else None
  }

  /** What the events seen so far have taught the scanner. */
  datatype Facts = Facts(lastUsage: Option<Usage>, sawDone: bool)

  const NO_FACTS := Facts(None, false)

  predicate MatchAt(data: bytes, word: bytes, i: nat) {
    i + |word| <= |data| && data[i..i + |word|] == word
  }

  predicate Mentions(data: bytes, word: bytes) {
    exists i: nat | i <= |data| :: MatchAt(data, word, i)
  }

  /** How one payload changes the facts; `parse` stands for the JSON parser. */
  function Learn(parse: bytes -> Option<Usage>, facts: Facts, data: bytes): Facts {
    if data == DONE then facts.(sawDone := true)
    else if Mentions(data, QUOTED_USAGE) && parse(data).Some? then facts.(lastUsage := parse(data))
    else facts
  }

  function LearnAll(parse: bytes -> Option<Usage>, facts: Facts, payloads: seq<bytes>): Facts
    decreases |payloads|
  {
    if payloads == [] then facts
    else LearnAll(parse, Learn(parse, facts, payloads[0]), payloads[1..])
  }

  /** One event as it is cut out of the stream. */
  datatype Event = Event(body: bytes, separator: bytes)

  datatype Segmentation = Segmentation(events: seq<Event>, residue: bytes)

  /** All complete events of a byte sequence, and what is left over. */
  function Segment(s: bytes): Segmentation
    decreases |s|
  {
    match Boundary(s, 0)
    case None => Segmentation([], s)
    case Some((e, c)) =>
      var rest := Segment(s[c..]);
      Segmentation([Event(s[..e], s[e..c])] + rest.events, rest.residue)
  }

  function Residue(s: bytes): bytes { Segment(s).residue }

  function Payloads(events: seq<Event>): seq<bytes> {
    if events == [] then []
    else
      var rest := Payloads(events[1..]);
      match Payload(events[0].body)
      case None => rest
      case Some(p) => [p] + rest
  }

  /** Everything the scanner remembers, as a value. */
  datatype State = State(buf: bytes, facts: Facts, overflowed: bool)

  const FRESH := State([], NO_FACTS, false)

  /** The effect of `feed` on the scanner state. */
  function FeedState(parse: bytes -> Option<Usage>, st: State, chunk: bytes): State {
    if st.overflowed then st
    else
      var seg := Segment(st.buf + chunk);
      var facts := LearnAll(parse, st.facts, Payloads(seg.events));
      if |seg.residue| > MAX_EVENT_BUFFER then State([], facts, true)
      else State(seg.residue, facts, false)
  }

  function FeedAll(parse: bytes -> Option<Usage>, st: State, chunks: seq<bytes>): State
    decreases |chunks|
  {
    if chunks == [] then st
    else FeedState(parse, FeedAll(parse, st, chunks[..|chunks| - 1]), chunks[|chunks| - 1])
  }

  class UsageScanner {
    const parse: bytes -> Option<Usage>
    var buf: bytes
    var lastUsage: Option<Usage>
    var sawDone: bool
    var overflowed: bool

    function Current(): State
      reads this
    {
      State(buf, Facts(lastUsage, sawDone), overflowed)
    }

    constructor (parse: bytes -> Option<Usage>)
      ensures this.parse == parse && Current() == FRESH
    {
      this.parse := parse;
      buf, lastUsage, sawDone, overflowed := [], None, false, false;
    }

    method Feed(chunk: bytes)
      modifies this
      ensures Current() == FeedState(parse, old(Current()), chunk)
    {
      if overflowed {
        return;
      }
      buf := buf + chunk;
      ghost var all := buf;
      var r := FindEventBoundary(buf);
      while r.Some?
        invariant r == Boundary(buf, 0)
        invariant !overflowed
        invariant Segment(all).residue == Segment(buf).residue
        invariant LearnAll(parse, old(Current().facts), Payloads(Segment(all).events))
               == LearnAll(parse, Facts(lastUsage, sawDone), Payloads(Segment(buf).events))
        decreases |buf|
      {
        var (eventEnd, consumeTo) := r.value;
        var event := buf[..eventEnd];
        assert Segment(buf).events[1..] == Segment(buf[consumeTo..]).events;
        buf := buf[consumeTo..];
        ProcessEvent(event);
        r := FindEventBoundary(buf);
      }
      if |buf| > MAX_EVENT_BUFFER {
        overflowed := true;
        buf := [];
      }
    }

    method ProcessEvent(event: bytes)
      modifies this`lastUsage, this`sawDone
      ensures Facts(lastUsage, sawDone)
           == match Payload(event)
              case None => old(Facts(lastUsage, sawDone))
              case Some(p) => Learn(parse, old(Facts(lastUsage, sawDone)), p)
    {
      var acc := Acc([], false);
      var i, lineStart := 0, 0;
      while true
        invariant 0 <= lineStart <= i <= |event|
        invariant ExtractFrom(event, i, lineStart, acc) == ExtractFrom(event, 0, 0, Acc([], false))
        decreases |event| - i
      {
        var t := TermAt(event, i);
        if t.Len? {
          acc := CollectDataLine(event[lineStart..i], acc);
          i := i + t.n;
          lineStart := i;
        } else if i >= |event| {
          acc := CollectDataLine(event[lineStart..], acc);
          break;
        } else {
          i := i + 1;
        }
      }
      if !acc.saw {
        return;
      }
      if acc.data == DONE {
        sawDone := true;
        return;
      }
      if Mentions(acc.data, QUOTED_USAGE) {
        var u := parse(acc.data);
        if u.Some? {
          lastUsage := u;
        }
      }
    }
  }
}
