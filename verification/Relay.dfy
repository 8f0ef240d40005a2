/** The byte-faithful relay (src/upstream.rs): a poll/drop machine around the usage scanner. */
module Relay {
  import opened Prelude
  import opened Scanner

  /** What one poll of the upstream stream yields. */
  datatype Upstream = Chunk(data: bytes) | Failed(message: string) | Ended | Pending

  datatype Item = Data(data: bytes) | UpstreamFailure(message: string) | StallTimeout(timeout: nat)

  /** `Ready(None)` ends the stream the client sees; `NotReady` asks it to poll again. */
  datatype PollResult = Ready(item: Option<Item>) | NotReady

  datatype Outcome = Completed | UpstreamError(message: string) | Stalled | ClientDisconnected

  datatype Summary = Summary(outcome: Outcome, usage: Option<Usage>, sawDone: bool, bytesRelayed: u64)

  /** The relay as a value. `armed`: the reporter has not been taken. `sent`: what the summary
      channel has received. */
  datatype RelayState = RelayState(
    scan: State, deadline: nat, armed: bool, bytesRelayed: u64, finished: bool, sent: seq<Summary>)

  /** The setting of one relay: the JSON parser, the stall timeout and the time of construction. */
  datatype Setting = Setting(parse: bytes -> Option<Usage>, timeout: nat, start: nat)

  function NewRelay(cfg: Setting): RelayState {
    RelayState(FRESH, cfg.start + cfg.timeout, true, 0, false, [])
  }

  function Report(st: RelayState, outcome: Outcome): RelayState {
    if st.armed then
      st.(armed := false,
          sent := st.sent + [Summary(outcome, st.scan.facts.lastUsage, st.scan.facts.sawDone, st.bytesRelayed)])
    else st
  }

  function Finish(st: RelayState, outcome: Outcome): RelayState {
    Report(st.(finished := true), outcome)
  }

  /** The effect of `poll_next` when the upstream would yield `up` and the clock shows `now`. */
  function PollState(cfg: Setting, st: RelayState, up: Upstream, now: nat): (RelayState, PollResult) {
    if st.finished then (st, Ready(None))
    else
      match up
      case Chunk(data) =>
        (st.(scan := FeedState(cfg.parse, st.scan, data),
             bytesRelayed := (st.bytesRelayed + |data|) % U64_MODULUS,
             deadline := now + cfg.timeout),
         Ready(Some(Data(data))))
      case Failed(m) => (Finish(st, UpstreamError(m)), Ready(Some(UpstreamFailure(m))))
      case Ended => (Finish(st, Completed), Ready(None))
      case Pending =>
        if now >= st.deadline then (Finish(st, Stalled), Ready(Some(StallTimeout(cfg.timeout))))
        else (st, NotReady)
  }

  class SseRelay {
    const scanner: UsageScanner
    const stallTimeout: nat
    var deadline: nat
    var armed: bool
    var bytesRelayed: u64
    var finished: bool
    var sent: seq<Summary>

    function Current(): RelayState
      reads this, scanner
    {
      RelayState(scanner.Current(), deadline, armed, bytesRelayed, finished, sent)
    }

    constructor (cfg: Setting)
      ensures fresh(scanner)
      ensures scanner.parse == cfg.parse && stallTimeout == cfg.timeout && Current() == NewRelay(cfg)
    {
      scanner := new UsageScanner(cfg.parse);
      stallTimeout := cfg.timeout;
      deadline := cfg.start + cfg.timeout;
      armed, bytesRelayed, finished, sent := true, 0, false, [];
    }

    method ReportOutcome(outcome: Outcome)
      modifies this`armed, this`sent
      ensures Current() == Report(old(Current()), outcome)
    {
      if armed {
        armed := false;
        sent := sent + [Summary(outcome, scanner.lastUsage, scanner.sawDone, bytesRelayed)];
      }
    }

    method PollNext(cfg: Setting, up: Upstream, now: nat) returns (out: PollResult)
      requires scanner.parse == cfg.parse && stallTimeout == cfg.timeout
      modifies this, scanner
      ensures (Current(), out) == PollState(cfg, old(Current()), up, now)
    {
      if finished {
        return Ready(None);
      }
      match up
      case Chunk(data) =>
        scanner.Feed(data);
        bytesRelayed := (bytesRelayed + |data|) % U64_MODULUS;
        deadline := now + stallTimeout;
        out := Ready(Some(Data(data)));
      case Failed(m) =>
        finished := true;
        ReportOutcome(UpstreamError(m));
        out := Ready(Some(UpstreamFailure(m)));
      case Ended =>
        finished := true;
        ReportOutcome(Completed);
        out := Ready(None);
      case Pending =>
        if now >= deadline {
          finished := true;
          ReportOutcome(Stalled);
          out := Ready(Some(StallTimeout(stallTimeout)));
        } else {
          out := NotReady;
        }
    }

    method Drop()
      modifies this`armed, this`sent
      ensures Current() == Report(old(Current()), ClientDisconnected)
    {
      ReportOutcome(ClientDisconnected);
    }
  }

  // -------------------------------------------------------------------------
  // Whole runs: a script of polls, then a drop
  // -------------------------------------------------------------------------

  datatype Poll = Poll(up: Upstream, now: nat)

  /** State and outputs after every poll of the script. */
  function Trace(cfg: Setting, script: seq<Poll>): (RelayState, seq<PollResult>)
    decreases |script|
  {
    if script == [] then (NewRelay(cfg), [])
    else
      var n := |script| - 1;
      var (st, outs) := Trace(cfg, script[..n]);
      var (st', out) := PollState(cfg, st, script[n].up, script[n].now);
      (st', outs + [out])
  }

  // What a run should be, said about the script only.

  function ChunksIn(script: seq<Poll>): seq<bytes> {
    if script == [] then []
    else
      var n := |script| - 1;
      ChunksIn(script[..n]) + (match script[n].up case Chunk(data) => [data] case _ => [])
  }

  /** When the upstream last delivered something; the time of construction if it never did. */
  function LastActivity(cfg: Setting, script: seq<Poll>): nat
    decreases |script|
  {
    if script == [] then cfg.start
    else
      var n := |script| - 1;
      if script[n].up.Chunk? then script[n].now else LastActivity(cfg, script[..n])
  }

  predicate IsStall(cfg: Setting, before: seq<Poll>, p: Poll) {
    p.up == Pending && p.now >= LastActivity(cfg, before) + cfg.timeout
  }

  /** Poll `p`, coming after `before`, is one that ends the stream. */
  predicate EndsStream(cfg: Setting, before: seq<Poll>, p: Poll) {
    p.up.Failed? || p.up == Ended || IsStall(cfg, before, p)
  }

  /** Poll `k` is the first that ends the stream. */
  ghost predicate StopsAt(cfg: Setting, script: seq<Poll>, k: nat) {
    && k < |script| && EndsStream(cfg, script[..k], script[k])
    && forall j: nat | j < k :: !EndsStream(cfg, script[..j], script[j])
  }

  ghost predicate StillLive(cfg: Setting, script: seq<Poll>) {
    forall j: nat | j < |script| :: !EndsStream(cfg, script[..j], script[j])
  }

  /** The client sees a chunk as it came, or is told to wait. */
  function Echo(p: Poll): PollResult {
    match p.up case Chunk(data) => Ready(Some(Data(data))) case _ => NotReady
  }

  function LastOutput(cfg: Setting, p: Poll): PollResult {
    match p.up
    case Failed(m) => Ready(Some(UpstreamFailure(m)))
    case Pending => Ready(Some(StallTimeout(cfg.timeout)))
    case _ => Ready(None)
  }

  function OutcomeOf(p: Poll): Outcome {
    match p.up
    case Failed(m) => UpstreamError(m)
    case Pending => Stalled
    case _ => Completed
  }

  /** The accounting record for the chunks in `relayed`. */
  function TruthfulSummary(cfg: Setting, outcome: Outcome, relayed: seq<bytes>): Summary {
    var facts := FeedAll(cfg.parse, FRESH, relayed).facts;
    Summary(outcome, facts.lastUsage, facts.sawDone, |Concat(relayed)| % U64_MODULUS)
  }

  /** While the stream is live nothing has been reported and every chunk has been scanned. */
  ghost predicate LiveState(cfg: Setting, script: seq<Poll>, st: RelayState) {
    st == RelayState(FeedAll(cfg.parse, FRESH, ChunksIn(script)), LastActivity(cfg, script) + cfg.timeout, true,
                     |Concat(ChunksIn(script))| % U64_MODULUS, false, [])
  }

  /** Once it has ended, one summary has been sent and it tells how. */
  ghost predicate EndedState(cfg: Setting, script: seq<Poll>, k: nat, st: RelayState) {
    && k < |script| && st.finished && !st.armed
    && st.sent == [TruthfulSummary(cfg, OutcomeOf(script[k]), ChunksIn(script[..k]))]
  }

  lemma ConcatSnoc(pieces: seq<bytes>, p: bytes)
    ensures Concat(pieces + [p]) == Concat(pieces) + p
  {
    assert (pieces + [p])[..|pieces|] == pieces;
  }

  lemma LivePoll(cfg: Setting, script: seq<Poll>, p: Poll, st: RelayState)
    requires LiveState(cfg, script, st)
    ensures var (st', out) := PollState(cfg, st, p.up, p.now);
            if EndsStream(cfg, script, p) then
              && st'.finished && !st'.armed && out == LastOutput(cfg, p)
              && st'.sent == [TruthfulSummary(cfg, OutcomeOf(p), ChunksIn(script))]
            else
              LiveState(cfg, script + [p], st') && out == Echo(p)
  {
    assert (script + [p])[..|script|] == script;
    if p.up.Chunk? {
      var chunks := ChunksIn(script);
      assert (chunks + [p.up.data])[..|chunks|] == chunks;
      ConcatSnoc(chunks, p.up.data);
      WrapCongruence(|Concat(chunks)|, |p.up.data|);
    } else {
      assert ChunksIn(script) + [] == ChunksIn(script);
    }
  }

  lemma PrefixPolls(script: seq<Poll>, n: nat, j: nat)
    requires j <= n <= |script|
    ensures script[..n][..j] == script[..j]
  {
  }

  lemma LiveSnoc(cfg: Setting, init: seq<Poll>, p: Poll)
    ensures StillLive(cfg, init + [p]) <==> StillLive(cfg, init) && !EndsStream(cfg, init, p)
  {
    var script := init + [p];
    assert script[..|init|] == init;
    forall j: nat | j < |init| ensures init[..j] == script[..j] && init[j] == script[j] {
      PrefixPolls(script, |init|, j);
    }
  }

  lemma StopsSnoc(cfg: Setting, init: seq<Poll>, p: Poll, k: nat)
    ensures StopsAt(cfg, init + [p], k)
       <==> StopsAt(cfg, init, k) || (k == |init| && StillLive(cfg, init) && EndsStream(cfg, init, p))
  {
    var script := init + [p];
    assert script[..|init|] == init;
    forall j: nat | j < |init| ensures init[..j] == script[..j] && init[j] == script[j] {
      PrefixPolls(script, |init|, j);
    }
  }

  lemma TraceSnoc(cfg: Setting, init: seq<Poll>, p: Poll)
    ensures var (st, outs) := Trace(cfg, init);
            var (st', out) := PollState(cfg, st, p.up, p.now);
            Trace(cfg, init + [p]) == (st', outs + [out])
  {
    assert (init + [p])[..|init|] == init;
  }

  /** An ended relay stays as it is. */
  lemma EndedPoll(cfg: Setting, init: seq<Poll>, p: Poll, k: nat, st: RelayState)
    requires EndedState(cfg, init, k, st)
    ensures PollState(cfg, st, p.up, p.now) == (st, Ready(None))
    ensures EndedState(cfg, init + [p], k, st)
  {
    assert (init + [p])[..k] == init[..k];
  }

  lemma LiveOnce(cfg: Setting, script: seq<Poll>, k: nat)
    ensures !(StillLive(cfg, script) && StopsAt(cfg, script, k))
  {
  }

  /** Every run, poll by poll. */
  lemma {:induction false} RelayMeaning(cfg: Setting, script: seq<Poll>)
    ensures StillLive(cfg, script) ==> LiveState(cfg, script, Trace(cfg, script).0)
    ensures forall k: nat | StopsAt(cfg, script, k) :: EndedState(cfg, script, k, Trace(cfg, script).0)
    ensures !StillLive(cfg, script) ==> exists k: nat :: StopsAt(cfg, script, k)
    decreases |script|
  {
    if script != [] {
      var init, p := script[..|script| - 1], script[|script| - 1];
      assert init + [p] == script;
      RelayMeaning(cfg, init);
      NextPoll(cfg, init, p);
    }
  }

  lemma NextPoll(cfg: Setting, init: seq<Poll>, p: Poll)
    requires StillLive(cfg, init) ==> LiveState(cfg, init, Trace(cfg, init).0)
    requires forall k: nat | StopsAt(cfg, init, k) :: EndedState(cfg, init, k, Trace(cfg, init).0)
    requires !StillLive(cfg, init) ==> exists k: nat :: StopsAt(cfg, init, k)
    ensures var script := init + [p];
            && (StillLive(cfg, script) ==> LiveState(cfg, script, Trace(cfg, script).0))
            && (forall k: nat | StopsAt(cfg, script, k) :: EndedState(cfg, script, k, Trace(cfg, script).0))
            && (!StillLive(cfg, script) ==> exists k: nat :: StopsAt(cfg, script, k))
  {
    var script := init + [p];
    TraceSnoc(cfg, init, p);
    LiveSnoc(cfg, init, p);
    if StillLive(cfg, init) {
      LivePoll(cfg, init, p, Trace(cfg, init).0);
      StopsSnoc(cfg, init, p, |init|);
      assert script[..|init|] == init;
    } else {
      var k: nat :| StopsAt(cfg, init, k);
      StopsSnoc(cfg, init, p, k);
    }
    forall k: nat | StopsAt(cfg, script, k) ensures EndedState(cfg, script, k, Trace(cfg, script).0) {
      StopsSnoc(cfg, init, p, k);
      LiveOnce(cfg, init, k);
      if StopsAt(cfg, init, k) {
        EndedPoll(cfg, init, p, k, Trace(cfg, init).0);
      }
    }
  }

  /** EXACTLY ONE TRUTHFUL SUMMARY. Whatever the polls, once the relay is dropped one summary has
      been sent. It names how the run ended, and its usage, its `[DONE]` flag and its byte count are
      those of exactly the chunks relayed before that. */
  lemma OneTruthfulSummary(cfg: Setting, script: seq<Poll>)
    ensures var sent := Report(Trace(cfg, script).0, ClientDisconnected).sent;
            if StillLive(cfg, script) then
              sent == [TruthfulSummary(cfg, ClientDisconnected, ChunksIn(script))]
            else
              exists k: nat :: StopsAt(cfg, script, k)
                && sent == [TruthfulSummary(cfg, OutcomeOf(script[k]), ChunksIn(script[..k]))]
  {
    RelayMeaning(cfg, script);
    if !StillLive(cfg, script) {
      var k: nat :| StopsAt(cfg, script, k);
      assert EndedState(cfg, script, k, Trace(cfg, script).0);
    }
  }

  /** FAITHFUL, FUSED TRACE. Poll by poll the client sees the upstream's own chunks; the poll that
      ends the stream yields the end or one error; after it there is only the end. Neither the
      scanner nor its overflow appears in this description. */
  lemma {:induction false} FaithfulTrace(cfg: Setting, script: seq<Poll>, i: nat)
    requires i < |script|
    ensures |Trace(cfg, script).1| == |script|
    ensures Trace(cfg, script).1[i]
         == if StillLive(cfg, script[..i + 1]) then Echo(script[i])
            else if StillLive(cfg, script[..i]) then LastOutput(cfg, script[i])
            else Ready(None)
    decreases |script|
  {
    var n := |script| - 1;
    var init := script[..n];
    TraceLength(cfg, init);
    if i < n {
      FaithfulTrace(cfg, init, i);
      PrefixPolls(script, n, i);
      PrefixPolls(script, n, i + 1);
    } else {
      RelayMeaning(cfg, init);
      assert script[..i + 1] == script;
      forall j: nat | j <= n ensures init[..j] == script[..j] {
        PrefixPolls(script, n, j);
      }
      if StillLive(cfg, init) {
        LivePoll(cfg, init, script[n], Trace(cfg, init).0);
      } else {
        assert !StillLive(cfg, script);
      }
    }
  }

  lemma {:induction false} TraceLength(cfg: Setting, script: seq<Poll>)
    ensures |Trace(cfg, script).1| == |script|
    decreases |script|
  {
    if script != [] {
      TraceLength(cfg, script[..|script| - 1]);
    }
  }

  /** STALLS, exactly: a poll reports a stall if and only if the stream was live, the upstream is
      pending, and at least the timeout has passed since construction or the last relayed chunk.
      A chunk that is ready after the deadline is still relayed and re-arms the timer. */
  lemma StallExactly(cfg: Setting, script: seq<Poll>, i: nat)
    requires i < |script|
    ensures |Trace(cfg, script).1| == |script|
    ensures Trace(cfg, script).1[i] == Ready(Some(StallTimeout(cfg.timeout)))
       <==> StillLive(cfg, script[..i]) && IsStall(cfg, script[..i], script[i])
    ensures StillLive(cfg, script[..i]) && script[i].up.Chunk? ==>
              && Trace(cfg, script).1[i] == Ready(Some(Data(script[i].up.data)))
              && LastActivity(cfg, script[..i + 1]) == script[i].now
  {
    FaithfulTrace(cfg, script, i);
    var upto := script[..i + 1];
    forall j: nat | j <= i ensures upto[..j] == script[..j] {
      PrefixPolls(script, i + 1, j);
    }
    assert upto[i] == script[i];
    forall j: nat | j < i ensures script[..i][..j] == script[..j] {
      PrefixPolls(script, i, j);
    }
  }

  /** An ended relay has given its reporter away, whatever happened before. */
  lemma FinishedHasReported(cfg: Setting, script: seq<Poll>)
    ensures Trace(cfg, script).0.finished ==> !Trace(cfg, script).0.armed
    ensures |Trace(cfg, script).0.sent| == if Trace(cfg, script).0.armed then 0 else 1
  {
    RelayMeaning(cfg, script);
    if !StillLive(cfg, script) {
      var k: nat :| StopsAt(cfg, script, k);
      assert EndedState(cfg, script, k, Trace(cfg, script).0);
    }
  }

  /** A client's whole run: poll a new relay as the script says, then drop it. */
  method RunRelay(cfg: Setting, script: seq<Poll>) returns (outs: seq<PollResult>, sent: seq<Summary>)
    ensures outs == Trace(cfg, script).1
    ensures sent == Report(Trace(cfg, script).0, ClientDisconnected).sent
  {
    var relay := new SseRelay(cfg);
    outs := [];
    for i := 0 to |script|
      invariant fresh(relay) && fresh(relay.scanner)
      invariant relay.scanner.parse == cfg.parse && relay.stallTimeout == cfg.timeout
      invariant (relay.Current(), outs) == Trace(cfg, script[..i])
    {
      TraceSnoc(cfg, script[..i], script[i]);
      assert script[..i] + [script[i]] == script[..i + 1];
      var out := relay.PollNext(cfg, script[i].up, script[i].now);
      outs := outs + [out];
    }
    assert script[..|script|] == script;
    relay.Drop();
    sent := relay.sent;
  }

  /** THE LAST POLL, case by case, of a relay that is live: what the client gets, and what the summary
      says about how the stream ended. */
  lemma LastPollExactly(cfg: Setting, init: seq<Poll>, p: Poll)
    requires StillLive(cfg, init)
    ensures var (st, out) := PollState(cfg, Trace(cfg, init).0, p.up, p.now);
            match p.up
            case Chunk(data) => out == Ready(Some(Data(data))) && !st.finished && st.sent == []
            case Failed(m) =>
              out == Ready(Some(UpstreamFailure(m))) && st.finished && |st.sent| == 1 && st.sent[0].outcome == UpstreamError(m)
            case Ended => out == Ready(None) && st.finished && |st.sent| == 1 && st.sent[0].outcome == Completed
            case Pending =>
              if p.now >= LastActivity(cfg, init) + cfg.timeout then
                out == Ready(Some(StallTimeout(cfg.timeout))) && st.finished && |st.sent| == 1 && st.sent[0].outcome == Stalled
              else out == NotReady && !st.finished && st.sent == []
  {
    RelayMeaning(cfg, init);
  }

  /** The timer runs from the last chunk, or from construction if there was none. */
  lemma {:induction false} ActivityExactly(cfg: Setting, script: seq<Poll>)
    ensures (forall i | 0 <= i < |script| :: !script[i].up.Chunk?) ==> LastActivity(cfg, script) == cfg.start
    ensures forall i | 0 <= i < |script| && script[i].up.Chunk? && (forall j | i < j < |script| :: !script[j].up.Chunk?) ::
              LastActivity(cfg, script) == script[i].now
  {
    if script != [] {
      var n := |script| - 1;
      var init := script[..n];
      ActivityExactly(cfg, init);
      forall i | 0 <= i < |script| && script[i].up.Chunk? && (forall j | i < j < |script| :: !script[j].up.Chunk?)
        ensures LastActivity(cfg, script) == script[i].now
      {
        if i < n {
          assert init[i] == script[i] && !script[n].up.Chunk?;
        }
      }
      if forall i | 0 <= i < |script| :: !script[i].up.Chunk? {
        assert !script[n].up.Chunk?;
      }
    }
  }
}
