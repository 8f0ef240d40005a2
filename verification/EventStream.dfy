/** The line-at-a-time interpreter of the HTML Living Standard, section 9.2.6
    ("Interpreting an event stream"), restricted to the `data` field. Lines end as in its
    section 9.2.5: at CRLF, at an LF not preceded by CR, or at a CR not followed by LF. */
module EventStream {
  import opened Prelude
  import opened Sse

  const COLON: byte := 58
  const SPACE: byte := 32
  const DATA: bytes := [100, 97, 116, 97]

  /** `skipLf`: the last byte was a CR, so an LF now belongs to a line already ended.
      `line`: the unfinished line. `data`: the data buffer. `events`: the payloads dispatched. */
  datatype Interp = Interp(skipLf: bool, line: bytes, data: bytes, events: seq<bytes>)

  const INIT := Interp(false, [], [], [])

  /** Index of the first `b` in `line` at or after `i`. */
  function IndexOf(line: bytes, b: byte, i: nat): (r: Option<nat>)
    requires i <= |line|
    ensures r.Some? ==> i <= r.value < |line| && line[r.value] == b && b !in line[i..r.value]
    ensures r.None? ==> b !in line[i..]
    decreases |line| - i
  {
    if i == |line| then None
    else if line[i] == b then Some(i)
    else IndexOf(line, b, i + 1)
  }

  /** Dispatch: an empty data buffer dispatches nothing; else its final LF is dropped. */
  function Dispatch(st: Interp): Interp {
    if st.data == [] then st
    else st.(data := [],
             events := st.events + [if st.data[|st.data| - 1] == LF
                                    then st.data[..|st.data| - 1] else st.data])
  }

  function ProcessField(st: Interp, field: bytes, value: bytes): Interp {
    if field == DATA then st.(data := st.data + value + [LF]) else st
  }

  function ProcessLine(st: Interp): Interp {
    var line := st.line;
    var st' := st.(line := []);
    if line == [] then Dispatch(st')
    else if line[0] == COLON then st'
    else
      match IndexOf(line, COLON, 0)
      case None => ProcessField(st', line, [])
      case Some(k) =>
        var value := line[k + 1..];
        ProcessField(st', line[..k], if [SPACE] <= value then value[1..] else value)
  }

  function StepByte(st: Interp, b: byte): Interp {
    if b == LF && st.skipLf then st.(skipLf := false)
    else if IsEol(b) then ProcessLine(st).(skipLf := b == CR)
    else st.(skipLf := false, line := st.line + [b])
  }

  function Run(st: Interp, s: bytes): Interp {
    if s == [] then st else StepByte(Run(st, s[..|s| - 1]), s[|s| - 1])
  }

  lemma {:induction false} RunConcat(st: Interp, s: bytes, t: bytes)
    ensures Run(st, s + t) == Run(Run(st, s), t)
  {
    if t == [] {
      assert s + t == s;
    } else {
      var n := |t| - 1;
      RunConcat(st, s, t[..n]);
      assert (s + t)[..|s + t| - 1] == s + t[..n];
    }
  }

  lemma RunStep(st: Interp, s: bytes)
    requires s != []
    ensures Run(st, s) == Run(StepByte(st, s[0]), s[1..])
  {
    RunConcat(st, s[..1], s[1..]);
    assert s == s[..1] + s[1..];
    assert s[..1][..0] == [];
  }

  /** Events already dispatched, and a CR the next byte does not complete, change nothing later. */
  lemma {:induction false} RunFrame(st: Interp, s: bytes, skip: bool, past: seq<bytes>)
    requires skip != st.skipLf ==> s != [] && s[0] != LF
    ensures var a := Run(st, s);
            Run(st.(skipLf := skip, events := past + st.events), s) == a.(events := past + a.events)
  {
    if s != [] {
      var n := |s| - 1;
      if n == 0 {
        assert s[..n] == [];
        assert past + (st.events + [st.data]) == past + st.events + [st.data];
        RunFrameStep(st, s[0], skip, past);
      } else {
        RunFrame(st, s[..n], skip, past);
        var a := Run(st, s[..n]);
        RunFrameStep(a, s[n], a.skipLf, past);
      }
    }
  }

  lemma RunFrameStep(st: Interp, b: byte, skip: bool, past: seq<bytes>)
    requires skip != st.skipLf ==> b != LF
    ensures var a := StepByte(st, b);
            StepByte(st.(skipLf := skip, events := past + st.events), b) == a.(events := past + a.events)
  {
    if IsEol(b) {
      LineFrame(st, skip, past);
    }
  }

  lemma LineFrame(st: Interp, skip: bool, past: seq<bytes>)
    ensures var a := ProcessLine(st);
            ProcessLine(st.(skipLf := skip, events := past + st.events)) == a.(skipLf := skip, events := past + a.events)
  {
    if st.line == [] {
      DispatchFrame(st.(line := []), skip, past);
    }
  }

  lemma DispatchFrame(st: Interp, skip: bool, past: seq<bytes>)
    ensures var a := Dispatch(st);
            Dispatch(st.(skipLf := skip, events := past + st.events)) == a.(skipLf := skip, events := past + a.events)
  {
    if st.data != [] {
      Associate(past, st.events, [if st.data[|st.data| - 1] == LF then st.data[..|st.data| - 1] else st.data]);
    }
  }

  /** Without a blank line nothing is dispatched. */
  lemma {:induction false} NoBlankNoDispatch(s: bytes)
    requires forall i :: !BlankPair(s, i)
    ensures var st := Run(INIT, s);
            && st.events == []
            && (st.skipLf <==> s != [] && s[|s| - 1] == CR)
            && (st.line == [] <==> s == [] || IsEol(s[|s| - 1]))
            && (s == [] ==> st.data == [])
  {
    if s != [] {
      var n := |s| - 1;
      var t := s[..n];
      forall i ensures !BlankPair(t, i) {
        assert BlankPair(t, i) ==> BlankPair(s, i);
      }
      NoBlankNoDispatch(t);
      assert !BlankPair(s, n - 1);
    }
  }
}
