/** The request handler (src/server.rs): routing, retries before the first byte, accounting. */
module Server {
  import opened Prelude
  import opened BudgetLedger
  import opened Counting
  import Labels
  import Metrics
  import Relay
  import Scanner
  import EventStream
  import Refinement
  import Chunking
  import Router

  const MAX_RETRIES := 5
  const BASE_BACKOFF_MS := 100
  const MAX_BACKOFF_MS := 2_000
  const STALL_TIMEOUT_MS := 30_000

  // -------------------------------------------------------------------------
  // Retry policy
  // -------------------------------------------------------------------------

  function Pow2(n: nat): nat {
    if n == 0 then 1 else 2 * Pow2(n - 1)
  }

  function Min(a: nat, b: nat): nat {
    if a < b then a else b
  }

  function BackoffMs(attempt: nat): nat {
    Min(BASE_BACKOFF_MS * Pow2(Min(attempt, 10)), MAX_BACKOFF_MS)
  }

  /** `hash` stands for the clock-seeded hash value. */
  function Jitter(ms: nat, hash: nat): nat {
    ms + hash % (ms / 4 + 1)
  }

  /** The error of one attempt to open the upstream request. */
  datatype AttemptError = Http | BadStatus(status: nat)

  predicate IsRetryable(e: AttemptError) {
    e.Http? || e.status == 429 || e.status >= 500
  }

  /** What an upstream sends once it has answered 2xx: poll by poll if it is relayed as a stream, or as
      one body if it is read whole (`None` if that fails). */
  datatype Reply = Reply(script: seq<Relay.Poll>, body: Option<bytes>)

  datatype Attempt = Opened(reply: Reply) | Failed(error: AttemptError)

  /** How the retry loop ended; `at` is the attempt, counted from zero. */
  datatype Decision =
    | Relayed(at: nat, reply: Reply)
    | PassedThrough(at: nat, error: AttemptError)
    | Exhausted(last: AttemptError)

  /** The decision if the attempts before `k` have failed retryably. */
  function Decide(attempts: nat -> Attempt, k: nat): Decision
    requires k <= MAX_RETRIES
    decreases MAX_RETRIES - k
  {
    match attempts(k)
    case Opened(reply) => Relayed(k, reply)
    case Failed(e) =>
      if !IsRetryable(e) then PassedThrough(k, e)
      else if k == MAX_RETRIES then Exhausted(e)
      else Decide(attempts, k + 1)
  }

  function Made(d: Decision): nat {
    match d
    case Relayed(k, _) => k + 1
    case PassedThrough(k, _) => k + 1
    case Exhausted(_) => MAX_RETRIES + 1
  }

  function FailuresOf(d: Decision): nat {
    if d.Relayed? then d.at else Made(d)
  }

  predicate FailedRetryably(a: Attempt) {
    a.Failed? && IsRetryable(a.error)
  }

  /** The decision, said without the loop. */
  ghost predicate IsDecision(attempts: nat -> Attempt, d: Decision)
  {
    match d
    case Relayed(k, reply) =>
      k <= MAX_RETRIES && attempts(k) == Opened(reply) && forall j | 0 <= j < k :: FailedRetryably(attempts(j))
    case PassedThrough(k, e) =>
      k <= MAX_RETRIES && attempts(k) == Failed(e) && !IsRetryable(e)
      && forall j | 0 <= j < k :: FailedRetryably(attempts(j))
    case Exhausted(e) =>
      attempts(MAX_RETRIES) == Failed(e) && forall j | 0 <= j <= MAX_RETRIES :: FailedRetryably(attempts(j))
  }

  lemma {:induction false} DecideFrom(attempts: nat -> Attempt, k: nat)
    requires k <= MAX_RETRIES
    requires forall j | 0 <= j < k :: FailedRetryably(attempts(j))
    ensures IsDecision(attempts, Decide(attempts, k))
    decreases MAX_RETRIES - k
  {
    if FailedRetryably(attempts(k)) && k < MAX_RETRIES {
      DecideFrom(attempts, k + 1);
    }
  }

  lemma DecisionUnique(attempts: nat -> Attempt, d: Decision)
    ensures IsDecision(attempts, d) <==> d == Decide(attempts, 0)
  {
    DecideFrom(attempts, 0);
    SameDecision(attempts, d, Decide(attempts, 0));
  }

  lemma SameDecision(attempts: nat -> Attempt, d1: Decision, d2: Decision)
    requires IsDecision(attempts, d2)
    ensures IsDecision(attempts, d1) <==> d1 == d2
  {
  }

  /** RETRIES. For every sequence of upstream results there are at most six attempts; each one before
      the last failed retryably, and the last is the first that did not, if any did not. */
  lemma RetryMeaning(attempts: nat -> Attempt)
    ensures forall d :: IsDecision(attempts, d) <==> d == Decide(attempts, 0)
    ensures 1 <= Made(Decide(attempts, 0)) <= 6
  {
    DecideFrom(attempts, 0);
    forall d ensures IsDecision(attempts, d) <==> d == Decide(attempts, 0) {
      DecisionUnique(attempts, d);
    }
  }

  /** What the wait after failed attempt `n` may be. */
  predicate IsWait(n: nat, ms: nat) {
    BackoffMs(n) <= ms <= BackoffMs(n) + BackoffMs(n) / 4
  }

  function Sum(waits: seq<nat>): nat {
    if waits == [] then 0 else Sum(waits[..|waits| - 1]) + waits[|waits| - 1]
  }

  lemma BackoffTable()
    ensures BackoffMs(0) == 100 && BackoffMs(1) == 200 && BackoffMs(2) == 400
    ensures BackoffMs(3) == 800 && BackoffMs(4) == 1600
    ensures forall n: nat | n >= 5 :: BackoffMs(n) == 2000
  {
    assert Pow2(1) == 2 && Pow2(2) == 4 && Pow2(3) == 8 && Pow2(4) == 16;
    forall n: nat | n >= 5 ensures BackoffMs(n) == 2000 {
      Pow2AtLeast(Min(n, 10));
    }
  }

  lemma {:induction false} Pow2AtLeast(n: nat)
    requires n >= 5
    ensures Pow2(n) >= 32
  {
    if n == 5 {
      assert Pow2(2) == 4 && Pow2(4) == 16;
    } else {
      Pow2AtLeast(n - 1);
    }
  }

  /** Jitter adds any amount up to a quarter, and nothing else. */
  lemma JitterExactly(ms: nat, jittered: nat)
    ensures ms <= jittered <= ms + ms / 4 <==> exists hash: nat :: jittered == Jitter(ms, hash)
  {
    if ms <= jittered <= ms + ms / 4 {
      var hash: nat := jittered - ms;
      assert hash % (ms / 4 + 1) == hash;
      assert jittered == Jitter(ms, hash);
    }
  }

  /** The waits after the first failed attempts, in order. */
  predicate AreWaits(waits: seq<nat>) {
    forall n | 0 <= n < |waits| :: IsWait(n, waits[n])
  }

  /** All waits of a request together stay within 3875 ms, whatever the jitter. */
  lemma TotalWaitBounded(waits: seq<nat>)
    requires |waits| <= MAX_RETRIES && AreWaits(waits)
    ensures Sum(waits) <= 3875
    ensures |waits| == MAX_RETRIES ==> Sum(waits) >= 3100
  {
    BackoffTable();
    SumAtMostFive(waits);
  }

  lemma SumAtMostFive(w: seq<nat>)
    requires |w| <= 5
    ensures Sum(w) == (if |w| > 0 then w[0] else 0) + (if |w| > 1 then w[1] else 0) + (if |w| > 2 then w[2] else 0)
                    + (if |w| > 3 then w[3] else 0) + (if |w| > 4 then w[4] else 0)
  {
    if |w| > 0 {
      SumAtMostFive(w[..|w| - 1]);
    }
  }

  // -------------------------------------------------------------------------
  // One request
  // -------------------------------------------------------------------------

  /** What cannot be seen from here: the JSON readers for stream payloads and for whole bodies. */
  datatype Parsers = Parsers(payload: bytes -> Option<Usage>, body: bytes -> Option<Usage>)

  /** A request with everything its environment will answer: the limiter's verdict, the upstream's
      result for each attempt, the hash behind each wait and the time at which a relay would start. */
  datatype Request = Request(
    key: string, enforcePrivate: bool, model: string, stream: bool, withinRate: bool,
    attempts: nat -> Attempt, hashes: nat -> nat, start: nat)

  datatype Response =
    | RateLimitExceeded | ModelRequired | NoEligibleBackend
    | UpstreamFailure(status: nat) | RetriesExhausted(last: AttemptError)
    | Streaming | Buffered(readable: bool)

  function Setting(parsers: Parsers, req: Request): Relay.Setting {
    Relay.Setting(parsers.payload, STALL_TIMEOUT_MS, req.start)
  }

  /** The one summary of a relay that is polled by `script` and then dropped. */
  function SummaryOf(cfg: Relay.Setting, script: seq<Relay.Poll>): Relay.Summary {
    Relay.FinishedHasReported(cfg, script);
    Relay.Report(Relay.Trace(cfg, script).0, Relay.ClientDisconnected).sent[0]
  }

  /** The usage a reply reports. */
  function UsageOf(parsers: Parsers, req: Request, reply: Reply): Option<Usage> {
    if req.stream then SummaryOf(Setting(parsers, req), reply.script).usage
    else
      match reply.body
      case None => None
      case Some(content) => parsers.body(content)
  }

  /** A reply that ended in an upstream failure. */
  predicate EndedBadly(parsers: Parsers, req: Request, reply: Reply) {
    if req.stream then
      var outcome := SummaryOf(Setting(parsers, req), reply.script).outcome;
      outcome == Relay.Stalled || outcome.UpstreamError?
    else reply.body == None
  }

  /** The metrics events of accounting one ended reply. */
  function AccountEvents(key: string, backend: string, usage: Option<Usage>, bad: bool): seq<Event> {
    (match usage case Some(u) => [TokenUse(key, u)] case None => [])
    + (if bad then [UpstreamError(backend)] else [])
  }

  function ReplyEvents(parsers: Parsers, req: Request, backend: string, reply: Reply): seq<Event> {
    AccountEvents(req.key, backend, UsageOf(parsers, req, reply), EndedBadly(parsers, req, reply))
  }

  function DecisionEvents(parsers: Parsers, req: Request, backend: string, d: Decision): seq<Event> {
    match d
    case Relayed(_, reply) =>
      [Counting.Request(backend, req.model, "2xx")] + ReplyEvents(parsers, req, backend, reply)
    case PassedThrough(_, _) => []
    case Exhausted(_) => [Counting.Request(backend, req.model, "5xx")]
  }

  /** The events of forwarding a request to a backend. */
  function ForwardEvents(parsers: Parsers, req: Request, backend: string): seq<Event>
  {
    var d := Decide(req.attempts, 0);
    Repeat(UpstreamError(backend), FailuresOf(d)) + DecisionEvents(parsers, req, backend, d)
  }

  /** The backend a request is forwarded to, if it gets that far. */
  function Target(backends: seq<Router.Backend>, policy: Router.Policy, req: Request): Option<Router.Backend> {
    if !req.withinRate || req.model == "" then None
    else
      match Router.Route(backends, policy, Router.Query(req.model, []), req.enforcePrivate)
      case NoEligibleBackend(_, _, _) => None
      case Routed(b) => Some(b)
  }

  /** Everything one request does to the metrics, in order. */
  function EventsOf(parsers: Parsers, backends: seq<Router.Backend>, policy: Router.Policy, req: Request): seq<Event>
  {
    if !req.withinRate then [RateLimited(req.key)]
    else
      match Target(backends, policy, req)
      case None => []
      case Some(b) => ForwardEvents(parsers, req, b.name)
  }

  /** The backends one request is posted to, attempt by attempt. */
  function SentBy(backends: seq<Router.Backend>, policy: Router.Policy, req: Request): seq<Router.Backend>
  {
    match Target(backends, policy, req)
    case None => []
    case Some(b) => Repeat(b, Made(Decide(req.attempts, 0)))
  }

  /** The usage an ended retry loop leaves to be charged. */
  function DecisionUsage(parsers: Parsers, req: Request, d: Decision): Option<Usage> {
    if d.Relayed? then UsageOf(parsers, req, d.reply) else None
  }

  /** The usage one request adds to its key's budget. */
  function RecordedUsage(parsers: Parsers, backends: seq<Router.Backend>, policy: Router.Policy, req: Request): Option<Usage>
  {
    if Target(backends, policy, req) == None then None
    else DecisionUsage(parsers, req, Decide(req.attempts, 0))
  }

  /** The counters after accounting one ended reply. */
  function Accounted(f: Families, key: string, backend: string, usage: Option<Usage>, bad: bool): Families {
    var used := match usage case Some(u) => Apply(f, TokenUse(key, u)) case None => f;
    if bad then Apply(used, UpstreamError(backend)) else used
  }

  lemma AccountedByEvents(f: Families, key: string, backend: string, usage: Option<Usage>, bad: bool)
    ensures Accounted(f, key, backend, usage, bad) == ApplyAll(f, AccountEvents(key, backend, usage, bad))
  {
    var used := match usage case Some(u) => [TokenUse(key, u)] case None => [];
    var ended := if bad then [UpstreamError(backend)] else [];
    ApplyConcat(f, used, ended);
    if usage.Some? {
      ApplyOne(f, TokenUse(key, usage.value));
    }
    if bad {
      ApplyOne(ApplyAll(f, used), UpstreamError(backend));
    }
  }

  /** The counters after the retry loop has ended with `d`. */
  function Finished(parsers: Parsers, f: Families, req: Request, backend: string, d: Decision): Families {
    match d
    case Relayed(_, reply) =>
      Accounted(Apply(f, Counting.Request(backend, req.model, "2xx")), req.key, backend,
                UsageOf(parsers, req, reply), EndedBadly(parsers, req, reply))
    case PassedThrough(_, _) => f
    case Exhausted(_) => Apply(f, Counting.Request(backend, req.model, "5xx"))
  }

  lemma FinishedByEvents(parsers: Parsers, f: Families, req: Request, backend: string, d: Decision)
    ensures Finished(parsers, f, req, backend, d) == ApplyAll(f, DecisionEvents(parsers, req, backend, d))
  {
    match d
    case Relayed(_, reply) =>
      var opening := Counting.Request(backend, req.model, "2xx");
      ApplyCons(f, opening, ReplyEvents(parsers, req, backend, reply));
      AccountedByEvents(Apply(f, opening), req.key, backend, UsageOf(parsers, req, reply), EndedBadly(parsers, req, reply));
    case PassedThrough(_, _) =>
    case Exhausted(_) => ApplyOne(f, Counting.Request(backend, req.model, "5xx"));
  }

  function AddUsage(view: map<string, Usage>, key: string, usage: Option<Usage>): map<string, Usage> {
    match usage
    case None => view
    case Some(u) => view[key := AddTo(BudgetLedger.Stored(view, key), u)]
  }

  /** The counters after `n` failed attempts. */
  function Failures(f: Families, backend: string, n: nat): Families {
    Iterate(Apply, f, UpstreamError(backend), n)
  }

  lemma FailuresByEvents(f: Families, backend: string, n: nat)
    ensures Failures(f, backend, n) == ApplyAll(f, Repeat(UpstreamError(backend), n))
  {
    FoldRepeat(Apply, f, UpstreamError(backend), n);
  }

  lemma ForwardedByEvents(parsers: Parsers, f: Families, req: Request, backend: string)
    ensures var d := Decide(req.attempts, 0);
            Finished(parsers, Failures(f, backend, FailuresOf(d)), req, backend, d)
            == ApplyAll(f, ForwardEvents(parsers, req, backend))
  {
    var d := Decide(req.attempts, 0);
    var failed := Repeat(UpstreamError(backend), FailuresOf(d));
    FailuresByEvents(f, backend, FailuresOf(d));
    FinishedByEvents(parsers, ApplyAll(f, failed), req, backend, d);
    ApplyConcat(f, failed, DecisionEvents(parsers, req, backend, d));
  }

  /** `sent` after `n` more attempts at one backend. */
  function Posts(sent: seq<Router.Backend>, b: Router.Backend, n: nat): seq<Router.Backend> {
    if n == 0 then sent else Posts(sent, b, n - 1) + [b]
  }

  lemma {:induction false} PostsAppend(sent: seq<Router.Backend>, b: Router.Backend, n: nat)
    ensures Posts(sent, b, n) == sent + Repeat(b, n)
  {
    if n > 0 {
      PostsAppend(sent, b, n - 1);
    }
  }

  /** The HTTP client. What an upstream answers is an input; `sent` is what was posted to whom. */
  class UpstreamClient {
    var sent: seq<Router.Backend>

    constructor ()
      ensures sent == []
    {
      sent := [];
    }

    method OpenSse(backend: Router.Backend, answer: Attempt) returns (result: Attempt)
      modifies this
      ensures result == answer && sent == old(sent) + [backend]
    {
      sent := sent + [backend];
      result := answer;
    }
  }

  class Gateway {
    const parsers: Parsers
    const backends: seq<Router.Backend>
    const policy: Router.Policy
    const upstream: UpstreamClient
    const metrics: MetricsHandle
    const ledger: Ledger

    ghost predicate Valid()
      reads ledger
    {
      metrics.Valid() && ledger.Valid()
    }

    constructor (parsers: Parsers, backends: seq<Router.Backend>, policy: Router.Policy,
                 upstream: UpstreamClient, metrics: MetricsHandle, ledger: Ledger)
      requires metrics.Valid() && ledger.Valid()
      ensures Valid() && this.parsers == parsers && this.backends == backends && this.policy == policy
      ensures this.upstream == upstream && this.metrics == metrics && this.ledger == ledger
    {
      this.parsers, this.backends, this.policy := parsers, backends, policy;
      this.upstream, this.metrics, this.ledger := upstream, metrics, ledger;
    }

    method RecordUsage(key: string, usage: Usage)
      requires Valid()
      modifies metrics.tokens, ledger`counters, ledger.counters.Values
      ensures Valid() && fresh(ledger.counters.Values - old(ledger.counters.Values))
      ensures metrics.View() == Apply(old(metrics.View()), TokenUse(key, usage))
      ensures ledger.View() == AddUsage(old(ledger.View()), key, Some(usage))
    {
      ledger.Record(key, usage);
      assert metrics.View() == old(metrics.View());
      label Charged:
      metrics.RecordTokens(key, usage);
      assert ledger.View() == old@Charged(ledger.View());
    }

    /** Accounting at the end of a relayed stream or a buffered body. */
    method AccountReply(key: string, backend: string, usage: Option<Usage>, bad: bool)
      requires Valid()
      modifies metrics.Repr, ledger`counters, ledger.counters.Values
      ensures Valid() && fresh(ledger.counters.Values - old(ledger.counters.Values))
      ensures metrics.View() == Accounted(old(metrics.View()), key, backend, usage, bad)
      ensures ledger.View() == AddUsage(old(ledger.View()), key, usage)
    {
      if usage.Some? {
        RecordUsage(key, usage.value);
      }
      if bad {
        metrics.RecordUpstreamError(backend);
      }
    }

    method Relayed2xx(key: string, model: string, backend: string, usage: Option<Usage>, bad: bool)
      requires Valid()
      modifies metrics.Repr, ledger`counters, ledger.counters.Values
      ensures Valid() && fresh(ledger.counters.Values - old(ledger.counters.Values))
      ensures metrics.View()
           == Accounted(Apply(old(metrics.View()), Counting.Request(backend, model, "2xx")), key, backend, usage, bad)
      ensures ledger.View() == AddUsage(old(ledger.View()), key, usage)
    {
      metrics.RecordRequest(backend, model, "2xx");
      assert ledger.View() == old(ledger.View());
      AccountReply(key, backend, usage, bad);
    }

    /** The wait before the next attempt, after one more failed one than there were waits. */
    method Backoff(waits: seq<nat>, hash: nat) returns (longer: seq<nat>)
      requires AreWaits(waits)
      ensures |longer| == |waits| + 1 && longer[..|waits|] == waits && AreWaits(longer)
    {
      var ms := BackoffMs(|waits|);
      JitterExactly(ms, Jitter(ms, hash));
      longer := waits + [Jitter(ms, hash)];
    }

    /** One attempt to open the upstream request; a failed one is counted. */
    method TryOnce(answer: Attempt, backend: Router.Backend) returns (result: Attempt)
      requires metrics.Valid()
      modifies metrics.upstreamErrors, upstream
      ensures result == answer && upstream.sent == old(upstream.sent) + [backend]
      ensures metrics.View() == if answer.Failed? then Apply(old(metrics.View()), UpstreamError(backend.name))
                                else old(metrics.View())
    {
      result := upstream.OpenSse(backend, answer);
      if result.Failed? {
        metrics.RecordUpstreamError(backend.name);
      }
    }

    /** The retry loop, ending as `Decide` says. */
    method TryAttempts(req: Request, backend: Router.Backend) returns (d: Decision, waits: seq<nat>)
      requires metrics.Valid()
      modifies metrics.upstreamErrors, upstream
      ensures d == Decide(req.attempts, 0)
      ensures upstream.sent == Posts(old(upstream.sent), backend, Made(d))
      ensures metrics.View() == Failures(old(metrics.View()), backend.name, FailuresOf(d))
      ensures |waits| == Made(d) - 1 && AreWaits(waits)
    {
      d, waits := RetryLoop(req, backend);
      DecisionUnique(req.attempts, d);
    }

    /** The retry loop: attempts before the first byte only. */
    method RetryLoop(req: Request, backend: Router.Backend) returns (d: Decision, waits: seq<nat>)
      requires metrics.Valid()
      modifies metrics.upstreamErrors, upstream
      ensures IsDecision(req.attempts, d)
      ensures upstream.sent == Posts(old(upstream.sent), backend, Made(d))
      ensures metrics.View() == Failures(old(metrics.View()), backend.name, FailuresOf(d))
      ensures |waits| == Made(d) - 1 && AreWaits(waits)
    {
      waits := [];
      var lastErr: Option<AttemptError> := None;
      for attempt := 0 to MAX_RETRIES + 1
        invariant forall j | 0 <= j < attempt :: FailedRetryably(req.attempts(j))
        invariant attempt > 0 ==> lastErr.Some? && req.attempts(attempt - 1) == Failed(lastErr.value)
        invariant |waits| == (if attempt == 0 then 0 else attempt - 1) && AreWaits(waits)
        invariant upstream.sent == Posts(old(upstream.sent), backend, attempt)
        invariant metrics.View() == Failures(old(metrics.View()), backend.name, attempt)
      {
        if attempt > 0 {
          waits := Backoff(waits, req.hashes(attempt - 1));
        }
        var result := TryOnce(req.attempts(attempt), backend);
        match result
        case Opened(reply) =>
          return Relayed(attempt, reply), waits;
        case Failed(e) =>
          if !IsRetryable(e) {
            return PassedThrough(attempt, e), waits;
          }
          lastErr := Some(e);
      }
      d := Exhausted(lastErr.value);
    }

    /** What happens to the counters once the retry loop has ended. */
    method Finish(req: Request, backend: string, d: Decision)
      requires Valid()
      modifies metrics.Repr, ledger`counters, ledger.counters.Values
      ensures Valid() && fresh(ledger.counters.Values - old(ledger.counters.Values))
      ensures metrics.View() == Finished(parsers, old(metrics.View()), req, backend, d)
      ensures ledger.View() == AddUsage(old(ledger.View()), req.key, DecisionUsage(parsers, req, d))
    {
      match d
      case Relayed(_, reply) =>
        Relayed2xx(req.key, req.model, backend, UsageOf(parsers, req, reply), EndedBadly(parsers, req, reply));
      case PassedThrough(_, _) =>
      case Exhausted(_) =>
        metrics.RecordRequest(backend, req.model, "5xx");
    }

    /** `Finish`, which posts nothing more to any upstream. */
    method Conclude(req: Request, backend: string, d: Decision)
      requires Valid()
      modifies metrics.Repr, ledger`counters, ledger.counters.Values
      ensures Valid() && fresh(ledger.counters.Values - old(ledger.counters.Values))
      ensures metrics.View() == Finished(parsers, old(metrics.View()), req, backend, d)
      ensures ledger.View() == AddUsage(old(ledger.View()), req.key, DecisionUsage(parsers, req, d))
      ensures upstream.sent == old(upstream.sent)
    {
      Finish(req, backend, d);
    }

    /** Retries, then the accounting of how they ended. */
    method Forward(req: Request, backend: Router.Backend) returns (d: Decision, waits: seq<nat>)
      requires Valid()
      modifies metrics.Repr, upstream, ledger`counters, ledger.counters.Values
      ensures Valid() && fresh(ledger.counters.Values - old(ledger.counters.Values))
      ensures d == Decide(req.attempts, 0)
      ensures upstream.sent == Posts(old(upstream.sent), backend, Made(d))
      ensures metrics.View()
           == Finished(parsers, Failures(old(metrics.View()), backend.name, FailuresOf(d)), req, backend.name, d)
      ensures ledger.View() == AddUsage(old(ledger.View()), req.key, DecisionUsage(parsers, req, d))
      ensures |waits| == Made(d) - 1 && AreWaits(waits)
    {
      d, waits := TryAttempts(req, backend);
      assert ledger.View() == old(ledger.View());
      Conclude(req, backend.name, d);
    }

    method ChatCompletions(req: Request) returns (resp: Response, waits: seq<nat>)
      requires Valid()
      modifies metrics.Repr, upstream, ledger`counters, ledger.counters.Values
      ensures Valid() && fresh(ledger.counters.Values - old(ledger.counters.Values))
      ensures upstream.sent == old(upstream.sent) + SentBy(backends, policy, req)
      ensures metrics.View() == ApplyAll(old(metrics.View()), EventsOf(parsers, backends, policy, req))
      ensures ledger.View() == AddUsage(old(ledger.View()), req.key, RecordedUsage(parsers, backends, policy, req))
      ensures resp == ResponseOf(backends, policy, req)
      ensures Sum(waits) <= 3875
    {
      waits := [];
      if !req.withinRate {
        ApplyOne(metrics.View(), RateLimited(req.key));
        metrics.RecordRateLimitRejection(req.key);
        return RateLimitExceeded, waits;
      }
      if req.model == "" {
        return ModelRequired, waits;
      }
      var routed := Router.Route(backends, policy, Router.Query(req.model, []), req.enforcePrivate);
      if routed.NoEligibleBackend? {
        return NoEligibleBackend, waits;
      }
      ForwardedByEvents(parsers, metrics.View(), req, routed.backend.name);
      var d;
      d, waits := Forward(req, routed.backend);
      WaitsBounded(req, waits);
      PostsAppend(old(upstream.sent), routed.backend, Made(d));
      resp := ResponseTo(req, d);
    }

    /** The whole state, in terms of the requests served so far. */
    ghost predicate HasServed(reqs: seq<Request>)
      reads upstream, metrics.Repr, ledger, ledger.counters.Values
    {
      && upstream.sent == RunSent(backends, policy, reqs)
      && metrics.View() == After(RunEvents(parsers, backends, policy, reqs))
      && ledger.View() == RunLedger(parsers, backends, policy, reqs)
    }

    method ServeNext(ghost served: seq<Request>, req: Request) returns (resp: Response)
      requires Valid() && HasServed(served)
      modifies metrics.Repr, upstream, ledger`counters, ledger.counters.Values
      ensures Valid() && fresh(ledger.counters.Values - old(ledger.counters.Values))
      ensures HasServed(served + [req])
      ensures RunResponses(backends, policy, served + [req]) == RunResponses(backends, policy, served) + [resp]
    {
      RunOneMore(parsers, backends, policy, served, req);
      var waits;
      resp, waits := ChatCompletions(req);
    }

    /** The budget ledger and the token counters hold the same number for every key and kind. */
    ghost predicate Agrees()
      reads metrics.Repr, ledger, ledger.counters.Values
    {
      InAgreement(ledger.View(), metrics.View())
    }

    method ServeOne(req: Request) returns (resp: Response)
      requires Valid()
      modifies metrics.Repr, upstream, ledger`counters, ledger.counters.Values
      ensures Valid() && fresh(ledger.counters.Values - old(ledger.counters.Values))
      ensures old(Agrees()) ==> Agrees()
      ensures resp == ResponseOf(backends, policy, req)
    {
      if Agrees() {
        RequestKeepsAgreement(parsers, backends, policy, req, ledger.View(), metrics.View());
      }
      var waits;
      resp, waits := ChatCompletions(req);
    }

    /** A request that is forwarded, and whose attempt `k` is the first that did not fail for now or the
        last of all: the ledger and the counters are charged what that attempt's reply is worth. */
    method ServeForwarded(req: Request, ghost k: nat) returns (resp: Response, ghost usage: Option<Usage>)
      requires Valid() && Target(backends, policy, req).Some?
      requires k <= 5 && (forall j | 0 <= j < k :: FailedForNow(req.attempts(j))) && (k == 5 || !FailedForNow(req.attempts(k)))
      modifies metrics.Repr, upstream, ledger`counters, ledger.counters.Values
      ensures Valid() && fresh(ledger.counters.Values - old(ledger.counters.Values))
      ensures IsWorth(parsers, req, k, usage)
      ensures Charged(old(ledger.View()), ledger.View(), old(metrics.View()), metrics.View(), req.key, usage)
    {
      usage := RecordedUsage(parsers, backends, policy, req);
      WorthExactly(parsers, backends, policy, req, k);
      RequestIsCharged(parsers, backends, policy, req, ledger.View(), metrics.View());
      var waits;
      resp, waits := ChatCompletions(req);
    }

    /** Requests in, responses out: no run of requests ever brings budget and counters apart. */
    method Serve(reqs: seq<Request>) returns (resps: seq<Response>)
      requires Valid() && Agrees()
      modifies metrics.Repr, upstream, ledger`counters, ledger.counters.Values
      ensures Valid() && fresh(ledger.counters.Values - old(ledger.counters.Values))
      ensures Agrees()
      ensures resps == RunResponses(backends, policy, reqs)
    {
      resps := [];
      for i := 0 to |reqs|
        invariant Valid() && fresh(ledger.counters.Values - old(ledger.counters.Values))
        invariant Agrees()
        invariant resps == RunResponses(backends, policy, reqs[..i])
      {
        var resp := ServeOne(reqs[i]);
        assert reqs[..i + 1][..i] == reqs[..i];
        resps := resps + [resp];
      }
      assert reqs[..|reqs|] == reqs;
    }

    /** The last request of a run. */
    method ServeLast(reqs: seq<Request>) returns (resp: Response)
      requires Valid() && reqs != [] && HasServed(reqs[..|reqs| - 1])
      modifies metrics.Repr, upstream, ledger`counters, ledger.counters.Values
      ensures Valid() && fresh(ledger.counters.Values - old(ledger.counters.Values))
      ensures HasServed(reqs)
      ensures RunResponses(backends, policy, reqs) == RunResponses(backends, policy, reqs[..|reqs| - 1]) + [resp]
    {
      assert reqs[..|reqs| - 1] + [reqs[|reqs| - 1]] == reqs;
      resp := ServeNext(reqs[..|reqs| - 1], reqs[|reqs| - 1]);
    }

    /** THE WHOLE RUN. A gateway that starts with nothing served ends with the posts, the counters and
        the ledger of exactly the requests it was given, whatever the upstreams did. */
    method ServeAll(reqs: seq<Request>) returns (resps: seq<Response>)
      requires Valid() && HasServed([])
      modifies metrics.Repr, upstream, ledger`counters, ledger.counters.Values
      ensures Valid() && fresh(ledger.counters.Values - old(ledger.counters.Values))
      ensures HasServed(reqs) && resps == RunResponses(backends, policy, reqs)
      decreases |reqs|
    {
      if reqs == [] {
        return [];
      }
      resps := ServeAll(reqs[..|reqs| - 1]);
      var resp := ServeLast(reqs);
      resps := resps + [resp];
    }

    /** Whatever has been served, the budget and the token counters agree. */
    lemma ServedAgrees(reqs: seq<Request>)
      requires HasServed(reqs)
      ensures Agrees()
    {
      RunAgrees(parsers, backends, policy, reqs);
    }
  }

  lemma WaitsBounded(req: Request, waits: seq<nat>)
    requires |waits| == Made(Decide(req.attempts, 0)) - 1 && AreWaits(waits)
    ensures Sum(waits) <= 3875
  {
    RetryMeaning(req.attempts);
    TotalWaitBounded(waits);
  }

  function ResponseOf(backends: seq<Router.Backend>, policy: Router.Policy, req: Request): Response
  {
    if !req.withinRate then RateLimitExceeded
    else if req.model == "" then ModelRequired
    else if Target(backends, policy, req) == None then NoEligibleBackend
    else ResponseTo(req, Decide(req.attempts, 0))
  }

  function ResponseTo(req: Request, d: Decision): Response {
    match d
    case Relayed(_, reply) => if req.stream then Streaming else Buffered(reply.body.Some?)
    case PassedThrough(_, e) => UpstreamFailure(PassedStatus(e))
    case Exhausted(e) => RetriesExhausted(e)
  }

  function PassedStatus(e: AttemptError): nat {
    if e.BadStatus? && 100 <= e.status <= 999 then e.status else 502
  }

  // -------------------------------------------------------------------------
  // What a request may touch
  // -------------------------------------------------------------------------

  predicate NamesBackend(ev: Event, backend: string) {
    match ev
    case Request(b, _, _) => b == backend
    case UpstreamError(b) => b == backend
    case _ => true
  }

  lemma {:induction false} RepeatIs<T>(x: T, n: nat)
    ensures |Repeat(x, n)| == n && forall y | y in Repeat(x, n) :: y == x
  {
    if n > 0 {
      RepeatIs(x, n - 1);
    }
  }

  lemma {:induction false} CountConcat(a: seq<Event>, b: seq<Event>, ev: Event)
    ensures Count(a + b, ev) == Count(a, ev) + Count(b, ev)
  {
    if b == [] {
      assert a + b == a;
    } else {
      var n := |b| - 1;
      CountConcat(a, b[..n], ev);
      assert (a + b)[..|a + b| - 1] == a + b[..n];
    }
  }

  lemma {:induction false} CountRepeat(ev: Event, n: nat)
    ensures Count(Repeat(ev, n), ev) == n
  {
    if n > 0 {
      CountRepeat(ev, n - 1);
      assert Repeat(ev, n)[..n - 1] == Repeat(ev, n - 1) by {
        RepeatIs(ev, n - 1);
      }
    }
  }

  lemma DecisionNames(parsers: Parsers, req: Request, backend: string, d: Decision)
    ensures forall ev | ev in DecisionEvents(parsers, req, backend, d) :: NamesBackend(ev, backend)
  {
  }

  /** ONE BACKEND, ADMITTED BY THE REQUEST. Every attempt of a request, and there are at most six, is
      posted to the one backend it was routed to, which is in the table and eligible; a private
      request's is local. */
  lemma OneAdmittedBackend(backends: seq<Router.Backend>, policy: Router.Policy, req: Request)
    ensures var sent := SentBy(backends, policy, req);
            && |sent| == (if Target(backends, policy, req) == None then 0 else Made(Decide(req.attempts, 0))) <= 6
            && forall b | b in sent ::
                 && Target(backends, policy, req) == Some(b) && b in backends
                 && Router.Eligible(Router.Classify(Router.Query(req.model, []), req.enforcePrivate), b)
                 && (req.enforcePrivate ==> b.privacy == Router.Local)
  {
    RetryMeaning(req.attempts);
    match Target(backends, policy, req)
    case None =>
    case Some(b) =>
      Router.RoutedIsEligible(backends, policy, Router.Query(req.model, []), req.enforcePrivate);
      RepeatIs(b, Made(Decide(req.attempts, 0)));
  }

  lemma EventsName(parsers: Parsers, backends: seq<Router.Backend>, policy: Router.Policy, req: Request, other: string)
    requires Target(backends, policy, req).Some? ==> Target(backends, policy, req).value.name != other
    ensures forall ev | ev in EventsOf(parsers, backends, policy, req) ::
              (ev.Request? || ev.UpstreamError?) ==> ev.backend != other
  {
    match Target(backends, policy, req)
    case None =>
    case Some(b) =>
      var d := Decide(req.attempts, 0);
      RepeatIs(UpstreamError(b.name), FailuresOf(d));
      DecisionNames(parsers, req, b.name, d);
  }

  /** No counter of any other backend is created or moves. */
  lemma OtherBackendsUntouched(parsers: Parsers, backends: seq<Router.Backend>, policy: Router.Policy, req: Request,
                               f: Families, other: string, model: string, status: string)
    requires Target(backends, policy, req).Some? ==> Target(backends, policy, req).value.name != other
    ensures var f' := ApplyAll(f, EventsOf(parsers, backends, policy, req));
            && SameCounter(f.upstreamErrors, f'.upstreamErrors, Labels.BackendLabel(other))
            && SameCounter(f.requests, f'.requests, Labels.RequestLabel(other, model, status))
  {
    var events := EventsOf(parsers, backends, policy, req);
    EventsName(parsers, backends, policy, req, other);
    AbsentKeepsCounter(f, events, UpstreamError(other));
    AbsentKeepsCounter(f, events, Counting.Request(other, model, status));
  }

  /** FAILURES ARE COUNTED. The upstream errors counted for a request are its failed attempts, and one
      more if the relayed reply ended badly. */
  lemma UpstreamErrorsCounted(parsers: Parsers, backends: seq<Router.Backend>, policy: Router.Policy, req: Request, b: Router.Backend)
    requires Target(backends, policy, req) == Some(b)
    ensures var d := Decide(req.attempts, 0);
            Count(EventsOf(parsers, backends, policy, req), UpstreamError(b.name))
            == FailuresOf(d) + (if d.Relayed? && EndedBadly(parsers, req, d.reply) then 1 else 0)
  {
    var d := Decide(req.attempts, 0);
    var err := UpstreamError(b.name);
    CountRepeat(err, FailuresOf(d));
    CountConcat(Repeat(err, FailuresOf(d)), DecisionEvents(parsers, req, b.name, d), err);
    DecisionErrors(parsers, req, b.name, d);
  }

  lemma CountOne(ev: Event, other: Event)
    ensures Count([other], ev) == if other == ev then 1 else 0
  {
    assert [other][..0] == [];
  }

  lemma DecisionErrors(parsers: Parsers, req: Request, backend: string, d: Decision)
    ensures Count(DecisionEvents(parsers, req, backend, d), UpstreamError(backend))
         == if d.Relayed? && EndedBadly(parsers, req, d.reply) then 1 else 0
  {
    var err := UpstreamError(backend);
    match d
    case Relayed(_, reply) =>
      var opening := Counting.Request(backend, req.model, "2xx");
      var used := match UsageOf(parsers, req, reply) case Some(u) => [TokenUse(req.key, u)] case None => [];
      var ended := if EndedBadly(parsers, req, reply) then [err] else [];
      CountConcat([opening], used + ended, err);
      CountConcat(used, ended, err);
      CountOne(err, opening);
      CountOne(err, err);
      if used != [] {
        CountOne(err, used[0]);
      }
    case PassedThrough(_, _) =>
    case Exhausted(_) => CountOne(err, Counting.Request(backend, req.model, "5xx"));
  }

  lemma {:induction false} CountAbsent(h: seq<Event>, ev: Event)
    requires ev !in h
    ensures Count(h, ev) == 0
  {
    if h != [] {
      CountAbsent(h[..|h| - 1], ev);
    }
  }

  /** REQUESTS ARE COUNTED ONCE OR NOT AT ALL. A forwarded request counts once as 2xx if it is relayed
      and once as 5xx if all attempts failed. One passed through counts under no status. */
  lemma RequestsCounted(parsers: Parsers, backends: seq<Router.Backend>, policy: Router.Policy, req: Request,
                        b: Router.Backend, status: string)
    requires Target(backends, policy, req) == Some(b)
    ensures var d := Decide(req.attempts, 0);
            Count(EventsOf(parsers, backends, policy, req), Counting.Request(b.name, req.model, status))
            == if (d.Relayed? && status == "2xx") || (d.Exhausted? && status == "5xx") then 1 else 0
  {
    var d := Decide(req.attempts, 0);
    var ev := Counting.Request(b.name, req.model, status);
    var failed := Repeat(UpstreamError(b.name), FailuresOf(d));
    RepeatIs(UpstreamError(b.name), FailuresOf(d));
    CountAbsent(failed, ev);
    CountConcat(failed, DecisionEvents(parsers, req, b.name, d), ev);
    match d
    case Relayed(_, reply) =>
      var opening := Counting.Request(b.name, req.model, "2xx");
      CountOne(ev, opening);
      CountAbsent(ReplyEvents(parsers, req, b.name, reply), ev);
      CountConcat([opening], ReplyEvents(parsers, req, b.name, reply), ev);
    case PassedThrough(_, _) =>
    case Exhausted(_) => CountOne(ev, Counting.Request(b.name, req.model, "5xx"));
  }

  /** The first attempt that does not fail retryably fails for good. */
  ghost predicate PassesThrough(attempts: nat -> Attempt) {
    exists k: nat | k <= MAX_RETRIES ::
      && attempts(k).Failed? && !IsRetryable(attempts(k).error)
      && forall j | 0 <= j < k :: FailedRetryably(attempts(j))
  }

  lemma PassedThroughExactly(attempts: nat -> Attempt)
    ensures Decide(attempts, 0).PassedThrough? <==> PassesThrough(attempts)
  {
    RetryMeaning(attempts);
    if k: nat :| k <= MAX_RETRIES && attempts(k).Failed? && !IsRetryable(attempts(k).error)
                 && forall j | 0 <= j < k :: FailedRetryably(attempts(j)) {
      assert IsDecision(attempts, PassedThrough(k, attempts(k).error));
    }
  }

  /** Some status counts the request. */
  ghost predicate IsCounted(parsers: Parsers, backends: seq<Router.Backend>, policy: Router.Policy, req: Request,
                            b: Router.Backend) {
    exists status :: Count(EventsOf(parsers, backends, policy, req), Counting.Request(b.name, req.model, status)) > 0
  }

  /** UNCOUNTED REQUESTS, exactly: a forwarded request counts under some status if and only if its
      first attempt that does not fail retryably, if there is one, succeeds. */
  lemma CountedExactly(parsers: Parsers, backends: seq<Router.Backend>, policy: Router.Policy, req: Request, b: Router.Backend)
    requires Target(backends, policy, req) == Some(b)
    ensures IsCounted(parsers, backends, policy, req, b) <==> !PassesThrough(req.attempts)
  {
    PassedThroughExactly(req.attempts);
    forall status
      ensures Count(EventsOf(parsers, backends, policy, req), Counting.Request(b.name, req.model, status))
           == var d := Decide(req.attempts, 0);
              if (d.Relayed? && status == "2xx") || (d.Exhausted? && status == "5xx") then 1 else 0
    {
      RequestsCounted(parsers, backends, policy, req, b, status);
    }
    if !PassesThrough(req.attempts) {
      var status := if Decide(req.attempts, 0).Relayed? then "2xx" else "5xx";
      assert Count(EventsOf(parsers, backends, policy, req), Counting.Request(b.name, req.model, status)) > 0;
    }
  }

  /** Such a request: whatever it is, if it is forwarded and answered 404 at once, it is not counted. */
  lemma NotFoundIsUncounted(parsers: Parsers, backends: seq<Router.Backend>, policy: Router.Policy, req: Request, b: Router.Backend)
    requires Target(backends, policy, req) == Some(b) && req.attempts(0) == Failed(BadStatus(404))
    ensures !IsCounted(parsers, backends, policy, req, b)
    ensures ResponseOf(backends, policy, req) == UpstreamFailure(404)
  {
    assert PassesThrough(req.attempts);
    CountedExactly(parsers, backends, policy, req, b);
  }

  lemma OneBackend(b: Router.Backend, req: Request)
    requires req.withinRate && req.model != ""
    requires Router.Eligible(Router.Classify(Router.Query(req.model, []), req.enforcePrivate), b)
    ensures Target([b], Router.StaticPriority, req) == Some(b)
  {
    Router.GatherSnoc(Router.Classify(Router.Query(req.model, []), req.enforcePrivate), [], b);
    assert [] + [b] == [b];
  }

  /** And there is one. */
  lemma UncountedRequest(parsers: Parsers) returns (b: Router.Backend, req: Request)
    ensures Target([b], Router.StaticPriority, req) == Some(b)
    ensures !IsCounted(parsers, [b], Router.StaticPriority, req, b)
  {
    b := Router.Backend("local", ["small"], [], Router.Local);
    req := Request.Request("key", true, "small", true, true, _ => Failed(BadStatus(404)), _ => 0, 0);
    assert b.models[0] == req.model;
    OneBackend(b, req);
    NotFoundIsUncounted(parsers, [b], Router.StaticPriority, req, b);
  }

  // -------------------------------------------------------------------------
  // All requests together
  // -------------------------------------------------------------------------

  /** The backends a run of requests is posted to, attempt by attempt. */
  function RunSent(backends: seq<Router.Backend>, policy: Router.Policy, reqs: seq<Request>): seq<Router.Backend>
  {
    if reqs == [] then []
    else
      var n := |reqs| - 1;
      RunSent(backends, policy, reqs[..n]) + SentBy(backends, policy, reqs[n])
  }

  function RunResponses(backends: seq<Router.Backend>, policy: Router.Policy, reqs: seq<Request>): seq<Response>
  {
    if reqs == [] then []
    else
      var n := |reqs| - 1;
      RunResponses(backends, policy, reqs[..n]) + [ResponseOf(backends, policy, reqs[n])]
  }

  /** The metrics events of a run of requests. */
  function RunEvents(parsers: Parsers, backends: seq<Router.Backend>, policy: Router.Policy, reqs: seq<Request>): seq<Event>
  {
    if reqs == [] then []
    else
      var n := |reqs| - 1;
      RunEvents(parsers, backends, policy, reqs[..n]) + EventsOf(parsers, backends, policy, reqs[n])
  }

  /** The ledger after a run of requests; the server starts it without a snapshot. */
  function RunLedger(parsers: Parsers, backends: seq<Router.Backend>, policy: Router.Policy, reqs: seq<Request>): map<string, Usage>
  {
    if reqs == [] then map[]
    else
      var n := |reqs| - 1;
      AddUsage(RunLedger(parsers, backends, policy, reqs[..n]), reqs[n].key,
               RecordedUsage(parsers, backends, policy, reqs[n]))
  }

  function UsedBy(usage: Option<Usage>, kind: Kind): nat {
    match usage case None => 0 case Some(u) => Amount(u, kind)
  }

  lemma {:induction false} TokensUsedConcat(a: seq<Event>, b: seq<Event>, key: string, kind: Kind)
    ensures TokensUsed(a + b, key, kind) == TokensUsed(a, key, kind) + TokensUsed(b, key, kind)
  {
    if b == [] {
      assert a + b == a;
    } else {
      var n := |b| - 1;
      TokensUsedConcat(a, b[..n], key, kind);
      assert (a + b)[..|a + b| - 1] == a + b[..n];
    }
  }

  lemma {:induction false} NoTokensUsed(a: seq<Event>, key: string, kind: Kind)
    requires forall ev | ev in a :: !ev.TokenUse?
    ensures TokensUsed(a, key, kind) == 0
  {
    if a != [] {
      NoTokensUsed(a[..|a| - 1], key, kind);
    }
  }

  lemma TokensUsedOne(ev: Event, key: string, kind: Kind)
    ensures TokensUsed([ev], key, kind) == if ev.TokenUse? && ev.key == key then Amount(ev.usage, kind) else 0
  {
    assert [ev][..0] == [];
  }

  lemma ReplyTokens(parsers: Parsers, req: Request, backend: string, reply: Reply, key: string, kind: Kind)
    ensures TokensUsed(ReplyEvents(parsers, req, backend, reply), key, kind)
         == if key == req.key then UsedBy(UsageOf(parsers, req, reply), kind) else 0
  {
    var usage := UsageOf(parsers, req, reply);
    var used := match usage case Some(u) => [TokenUse(req.key, u)] case None => [];
    var ended := if EndedBadly(parsers, req, reply) then [UpstreamError(backend)] else [];
    TokensUsedConcat(used, ended, key, kind);
    NoTokensUsed(ended, key, kind);
    if usage.Some? {
      TokensUsedOne(used[0], key, kind);
    }
  }

  lemma ForwardTokens(parsers: Parsers, req: Request, backend: string, key: string, kind: Kind)
    ensures TokensUsed(ForwardEvents(parsers, req, backend), key, kind)
         == if key == req.key then UsedBy(DecisionUsage(parsers, req, Decide(req.attempts, 0)), kind) else 0
  {
    var d := Decide(req.attempts, 0);
    var failed := Repeat(UpstreamError(backend), FailuresOf(d));
    var rest := DecisionEvents(parsers, req, backend, d);
    RepeatIs(UpstreamError(backend), FailuresOf(d));
    TokensUsedConcat(failed, rest, key, kind);
    NoTokensUsed(failed, key, kind);
    if d.Relayed? {
      var opening := Counting.Request(backend, req.model, "2xx");
      TokensUsedConcat([opening], ReplyEvents(parsers, req, backend, d.reply), key, kind);
      TokensUsedOne(opening, key, kind);
      ReplyTokens(parsers, req, backend, d.reply, key, kind);
    } else {
      NoTokensUsed(rest, key, kind);
    }
  }

  /** A request's token events are exactly the usage it records. */
  lemma RequestTokens(parsers: Parsers, backends: seq<Router.Backend>, policy: Router.Policy, req: Request, key: string, kind: Kind)
    ensures TokensUsed(EventsOf(parsers, backends, policy, req), key, kind)
         == if key == req.key then UsedBy(RecordedUsage(parsers, backends, policy, req), kind) else 0
  {
    var events := EventsOf(parsers, backends, policy, req);
    match Target(backends, policy, req)
    case None => NoTokensUsed(events, key, kind);
    case Some(b) => ForwardTokens(parsers, req, b.name, key, kind);
  }

  lemma AddUsageMeaning(view: map<string, Usage>, of: string, usage: Option<Usage>, key: string, kind: Kind, total: nat)
    requires Amount(BudgetLedger.Stored(view, key), kind) == total % U64_MODULUS
    ensures Amount(BudgetLedger.Stored(AddUsage(view, of, usage), key), kind)
         == (total + if key == of then UsedBy(usage, kind) else 0) % U64_MODULUS
  {
    if usage.Some? {
      WrapCongruence(total, Amount(usage.value, kind));
    }
  }

  lemma ChargeKeepsAgreement(
    view: map<string, Usage>, before: seq<Event>, of: string, usage: Option<Usage>, events: seq<Event>, key: string, kind: Kind)
    requires Amount(BudgetLedger.Stored(view, key), kind) == TokensUsed(before, key, kind) % U64_MODULUS
    requires TokensUsed(events, key, kind) == if key == of then UsedBy(usage, kind) else 0
    ensures Amount(BudgetLedger.Stored(AddUsage(view, of, usage), key), kind)
         == TokensUsed(before + events, key, kind) % U64_MODULUS
  {
    TokensUsedConcat(before, events, key, kind);
    AddUsageMeaning(view, of, usage, key, kind, TokensUsed(before, key, kind));
  }

  lemma {:induction false} LedgerIsTokensUsed(
    parsers: Parsers, backends: seq<Router.Backend>, policy: Router.Policy, reqs: seq<Request>, key: string, kind: Kind)
    ensures Amount(BudgetLedger.Stored(RunLedger(parsers, backends, policy, reqs), key), kind)
         == TokensUsed(RunEvents(parsers, backends, policy, reqs), key, kind) % U64_MODULUS
  {
    if reqs != [] {
      var init, last := reqs[..|reqs| - 1], reqs[|reqs| - 1];
      LedgerIsTokensUsed(parsers, backends, policy, init, key, kind);
      RequestTokens(parsers, backends, policy, last, key, kind);
      ChargeKeepsAgreement(RunLedger(parsers, backends, policy, init), RunEvents(parsers, backends, policy, init),
                           last.key, RecordedUsage(parsers, backends, policy, last),
                           EventsOf(parsers, backends, policy, last), key, kind);
    }
  }

  /** The ledger and the token counters hold the same number for every key and kind. */
  ghost predicate InAgreement(view: map<string, Usage>, f: Families) {
    forall key, kind ::
      Amount(BudgetLedger.Stored(view, key), kind) == Metrics.Stored(f.tokens, Labels.TokenLabel(key, kind))
  }

  lemma LedgerAndMetricsAgree(
    parsers: Parsers, backends: seq<Router.Backend>, policy: Router.Policy, reqs: seq<Request>, key: string, kind: Kind)
    ensures Amount(BudgetLedger.Stored(RunLedger(parsers, backends, policy, reqs), key), kind)
         == Metrics.Stored(After(RunEvents(parsers, backends, policy, reqs)).tokens, Labels.TokenLabel(key, kind))
  {
    LedgerIsTokensUsed(parsers, backends, policy, reqs, key, kind);
    ExactTokens(RunEvents(parsers, backends, policy, reqs), key, kind);
  }

  /** BUDGET AND METRICS AGREE over every run of requests, whatever the upstreams do. */
  lemma RunAgrees(parsers: Parsers, backends: seq<Router.Backend>, policy: Router.Policy, reqs: seq<Request>)
    ensures InAgreement(RunLedger(parsers, backends, policy, reqs), After(RunEvents(parsers, backends, policy, reqs)))
  {
    forall key, kind
      ensures Amount(BudgetLedger.Stored(RunLedger(parsers, backends, policy, reqs), key), kind)
           == Metrics.Stored(After(RunEvents(parsers, backends, policy, reqs)).tokens, Labels.TokenLabel(key, kind))
    {
      LedgerAndMetricsAgree(parsers, backends, policy, reqs, key, kind);
    }
  }

  lemma ChargeKeepsLabel(view: map<string, Usage>, f: Families, of: string, usage: Option<Usage>, events: seq<Event>,
                         key: string, kind: Kind, labels: string)
    requires Amount(BudgetLedger.Stored(view, key), kind) == Metrics.Stored(f.tokens, labels)
    requires Contributed(events, Tokens, labels) == if key == of then UsedBy(usage, kind) else 0
    ensures Amount(BudgetLedger.Stored(AddUsage(view, of, usage), key), kind)
         == Metrics.Stored(ApplyAll(f, events).tokens, labels)
  {
    TokenCounterMoves(f, events, labels, Contributed(events, Tokens, labels));
    ChargeIsMove(view, of, usage, key, kind, Contributed(events, Tokens, labels),
                 Metrics.Stored(ApplyAll(f, events).tokens, labels));
  }

  lemma ChargeIsMove(view: map<string, Usage>, of: string, usage: Option<Usage>, key: string, kind: Kind,
                     used: nat, moved: u64)
    requires used == if key == of then UsedBy(usage, kind) else 0
    requires moved == (Amount(BudgetLedger.Stored(view, key), kind) + used) % U64_MODULUS
    ensures Amount(BudgetLedger.Stored(AddUsage(view, of, usage), key), kind) == moved
  {
    AddUsageMeaning(view, of, usage, key, kind, Amount(BudgetLedger.Stored(view, key), kind));
  }

  lemma ChargeKeepsKey(view: map<string, Usage>, f: Families, of: string, usage: Option<Usage>, events: seq<Event>,
                       key: string, kind: Kind)
    requires Amount(BudgetLedger.Stored(view, key), kind) == Metrics.Stored(f.tokens, Labels.TokenLabel(key, kind))
    requires TokensUsed(events, key, kind) == if key == of then UsedBy(usage, kind) else 0
    ensures Amount(BudgetLedger.Stored(AddUsage(view, of, usage), key), kind)
         == Metrics.Stored(ApplyAll(f, events).tokens, Labels.TokenLabel(key, kind))
  {
    assert Contributed(events, Tokens, Labels.TokenLabel(key, kind)) == TokensUsed(events, key, kind) by {
      TokensAreContributed(events, key, kind);
    }
    ChargeKeepsLabel(view, f, of, usage, events, key, kind, Labels.TokenLabel(key, kind));
  }

  /** No request brings a ledger and counters apart that agree, whatever they hold. */
  lemma RequestKeepsAgreement(parsers: Parsers, backends: seq<Router.Backend>, policy: Router.Policy, req: Request,
                              view: map<string, Usage>, f: Families)
    requires InAgreement(view, f)
    ensures InAgreement(AddUsage(view, req.key, RecordedUsage(parsers, backends, policy, req)),
                        ApplyAll(f, EventsOf(parsers, backends, policy, req)))
  {
    var usage := RecordedUsage(parsers, backends, policy, req);
    var events := EventsOf(parsers, backends, policy, req);
    forall key, kind ensures TokensUsed(events, key, kind) == if key == req.key then UsedBy(usage, kind) else 0 {
      RequestTokens(parsers, backends, policy, req, key, kind);
    }
    ChargeKeepsAll(view, f, req.key, usage, events);
  }

  lemma ChargeKeepsAll(view: map<string, Usage>, f: Families, of: string, usage: Option<Usage>, events: seq<Event>)
    requires InAgreement(view, f)
    requires forall key, kind :: TokensUsed(events, key, kind) == if key == of then UsedBy(usage, kind) else 0
    ensures InAgreement(AddUsage(view, of, usage), ApplyAll(f, events))
  {
    forall key, kind
      ensures Amount(BudgetLedger.Stored(AddUsage(view, of, usage), key), kind)
           == Metrics.Stored(ApplyAll(f, events).tokens, Labels.TokenLabel(key, kind))
    {
      ChargeKeepsKey(view, f, of, usage, events, key, kind);
    }
  }

  lemma RunOneMore(parsers: Parsers, backends: seq<Router.Backend>, policy: Router.Policy, reqs: seq<Request>, req: Request)
    ensures RunSent(backends, policy, reqs + [req]) == RunSent(backends, policy, reqs) + SentBy(backends, policy, req)
    ensures RunResponses(backends, policy, reqs + [req])
         == RunResponses(backends, policy, reqs) + [ResponseOf(backends, policy, req)]
    ensures After(RunEvents(parsers, backends, policy, reqs + [req]))
         == ApplyAll(After(RunEvents(parsers, backends, policy, reqs)), EventsOf(parsers, backends, policy, req))
    ensures RunLedger(parsers, backends, policy, reqs + [req])
         == AddUsage(RunLedger(parsers, backends, policy, reqs), req.key, RecordedUsage(parsers, backends, policy, req))
  {
    assert (reqs + [req])[..|reqs|] == reqs;
    ApplyConcat(EMPTY, RunEvents(parsers, backends, policy, reqs), EventsOf(parsers, backends, policy, req));
  }

  /** The chunks relayed to the client before the stream ended. */
  ghost predicate AreRelayed(cfg: Relay.Setting, script: seq<Relay.Poll>, relayed: seq<bytes>) {
    if Relay.StillLive(cfg, script) then relayed == Relay.ChunksIn(script)
    else exists k: nat :: Relay.StopsAt(cfg, script, k) && relayed == Relay.ChunksIn(script[..k])
  }

  /** What a streamed reply is charged is what its relayed chunks report, no more and no less. Unless
      the scanner has overflowed, that is what the events teach that the standard's interpreter
      dispatches on the bytes the client got. */
  lemma StreamChargesRelayedChunks(parsers: Parsers, req: Request, reply: Reply) returns (relayed: seq<bytes>)
    requires req.stream
    ensures AreRelayed(Setting(parsers, req), reply.script, relayed)
    ensures UsageOf(parsers, req, reply)
         == Scanner.FeedAll(parsers.payload, Scanner.FRESH, relayed).facts.lastUsage
    ensures !Chunking.Overflows(relayed) ==>
              UsageOf(parsers, req, reply)
              == Scanner.LearnAll(parsers.payload, Scanner.NO_FACTS,
                                  EventStream.Run(EventStream.INIT, Refinement.Decided(Concat(relayed))).events).lastUsage
  {
    var cfg, script := Setting(parsers, req), reply.script;
    Relay.OneTruthfulSummary(cfg, script);
    if Relay.StillLive(cfg, script) {
      relayed := Relay.ChunksIn(script);
    } else {
      var k: nat :| Relay.StopsAt(cfg, script, k)
        && Relay.Report(Relay.Trace(cfg, script).0, Relay.ClientDisconnected).sent
           == [Relay.TruthfulSummary(cfg, Relay.OutcomeOf(script[k]), Relay.ChunksIn(script[..k]))];
      relayed := Relay.ChunksIn(script[..k]);
    }
    if !Chunking.Overflows(relayed) {
      Chunking.FedScannerRefinesStandard(parsers.payload, relayed);
    }
  }

  /** A stream counts as an upstream error if and only if the poll that ended it found an upstream
      failure or a stall; one that completed, or that the client left, does not. A body counts as one
      if and only if it could not be read. */
  lemma BadEndings(parsers: Parsers, req: Request, reply: Reply)
    ensures EndedBadly(parsers, req, reply)
       <==> if req.stream then
              exists k: nat :: Relay.StopsAt(Setting(parsers, req), reply.script, k) && reply.script[k].up != Relay.Ended
            else reply.body == None
  {
    var cfg, script := Setting(parsers, req), reply.script;
    if req.stream {
      Relay.OneTruthfulSummary(cfg, script);
      if Relay.StillLive(cfg, script) {
        assert forall k: nat :: !Relay.StopsAt(cfg, script, k);
      } else {
        var k: nat :| Relay.StopsAt(cfg, script, k)
          && Relay.Report(Relay.Trace(cfg, script).0, Relay.ClientDisconnected).sent
             == [Relay.TruthfulSummary(cfg, Relay.OutcomeOf(script[k]), Relay.ChunksIn(script[..k]))];
        assert forall j: nat | Relay.StopsAt(cfg, script, j) :: j == k;
      }
    }
  }

  // -------------------------------------------------------------------------
  // A request in terms of its fields
  // -------------------------------------------------------------------------

  /** An attempt that failed with a connection error, a 429 or a 5xx. */
  predicate FailedForNow(a: Attempt) {
    a.Failed? && (a.error == Http || a.error.status == 429 || a.error.status >= 500)
  }

  lemma FailedForNowIsRetryable(attempts: nat -> Attempt)
    ensures forall j: nat :: FailedRetryably(attempts(j)) <==> FailedForNow(attempts(j))
  {
  }

  /** HOW OFTEN, exactly: another attempt is made, up to the sixth, if and only if all attempts so far
      failed with a connection error, a 429 or a 5xx. */
  lemma AttemptsExactly(attempts: nat -> Attempt, k: nat)
    ensures Made(Decide(attempts, 0)) > k + 1 <==> k < 5 && forall j | 0 <= j <= k :: FailedForNow(attempts(j))
  {
    RetryMeaning(attempts);
    FailedForNowIsRetryable(attempts);
    assert IsDecision(attempts, Decide(attempts, 0));
  }

  /** THE ANSWER of a forwarded request whose first `k` attempts failed for now. */
  lemma AnswerExactly(backends: seq<Router.Backend>, policy: Router.Policy, req: Request, k: nat)
    requires Target(backends, policy, req).Some? && k <= 5 && forall j | 0 <= j < k :: FailedForNow(req.attempts(j))
    ensures var a := req.attempts(k);
            && (a.Opened? ==> ResponseOf(backends, policy, req) == if req.stream then Streaming else Buffered(a.reply.body.Some?))
            && (a.Failed? && a.error.BadStatus? && a.error.status != 429 && a.error.status < 500 ==>
                  ResponseOf(backends, policy, req) == UpstreamFailure(if a.error.status >= 100 then a.error.status else 502))
            && (k == 5 && FailedForNow(a) ==> ResponseOf(backends, policy, req) == RetriesExhausted(a.error))
  {
    RetryMeaning(req.attempts);
    FailedForNowIsRetryable(req.attempts);
    match req.attempts(k)
    case Opened(reply) => assert IsDecision(req.attempts, Relayed(k, reply));
    case Failed(e) =>
      if !IsRetryable(e) {
        assert IsDecision(req.attempts, PassedThrough(k, e));
      } else if k == 5 {
        assert IsDecision(req.attempts, Exhausted(e));
      }
  }

  /** WHO IS FORWARDED, and what the others get. With an honest policy a request is forwarded if and
      only if it is within its rate, names a model, and some backend of the table serves that model
      and, if the key enforces privacy, is local. */
  lemma ForwardedExactly(backends: seq<Router.Backend>, policy: Router.Policy, req: Request)
    requires Router.Honest(policy)
    ensures Target(backends, policy, req).Some?
       <==> && req.withinRate && req.model != ""
            && exists b | b in backends :: req.model in b.models && (req.enforcePrivate ==> b.privacy == Router.Local)
    ensures !req.withinRate ==> ResponseOf(backends, policy, req) == RateLimitExceeded
    ensures req.withinRate && req.model == "" ==> ResponseOf(backends, policy, req) == ModelRequired
    ensures req.withinRate && req.model != "" && Target(backends, policy, req) == None ==>
              ResponseOf(backends, policy, req) == NoEligibleBackend
  {
    Router.HonestRoutesExactly(backends, policy, Router.Query(req.model, []), req.enforcePrivate);
  }

  /** A request over its rate moves the key's rate-limit counter by one and nothing else; one that is
      turned away for another reason moves nothing. */
  lemma TurnedAwayExactly(parsers: Parsers, backends: seq<Router.Backend>, policy: Router.Policy, req: Request, f: Families)
    requires Target(backends, policy, req) == None
    ensures var f' := ApplyAll(f, EventsOf(parsers, backends, policy, req));
            if req.withinRate then f' == f
            else
              var labels := Labels.LabelSet([Labels.Label("key", req.key)]);
              f' == f.(rateLimitRejections :=
                         f.rateLimitRejections[labels := (Metrics.Stored(f.rateLimitRejections, labels) + 1) % U64_MODULUS])
  {
    if !req.withinRate {
      ApplyOne(f, RateLimited(req.key));
      Labels.KeyLabelIsSet(req.key);
      AddAllOne(f, Increments(RateLimited(req.key))[0]);
    }
  }

  /** STALLS count after thirty seconds: a stream from which nothing has come is an upstream error if
      and only if it is polled again half a minute or more after its start. */
  lemma SilentStreamStalls(parsers: Parsers, req: Request, reply: Reply, now: nat)
    requires req.stream && reply.script == [Relay.Poll(Relay.Pending, now)]
    ensures EndedBadly(parsers, req, reply) <==> now >= req.start + 30_000
  {
    BadEndings(parsers, req, reply);
    var cfg, script := Setting(parsers, req), reply.script;
    assert script[..0] == [];
    assert Relay.StopsAt(cfg, script, 0) <==> now >= req.start + 30_000;
  }

  // -------------------------------------------------------------------------
  // What a request is charged
  // -------------------------------------------------------------------------

  function NamedCount(f: Families, key: string, kind: string): u64 {
    Metrics.Stored(f.tokens, Labels.LabelSet([Labels.Label("key", key), Labels.Label("kind", kind)]))
  }

  ghost predicate CountMoved(f: Families, f': Families, key: string, kind: string, n: nat) {
    NamedCount(f', key, kind) == (NamedCount(f, key, kind) + n) % U64_MODULUS
  }

  /** Every key's counter of one kind has moved by what the key is charged. */
  ghost predicate PromptMoved(f: Families, f': Families, key: string, usage: Option<Usage>) {
    forall k :: CountMoved(f, f', k, "prompt", ShareOf(k, key, usage).prompt)
  }

  ghost predicate CompletionMoved(f: Families, f': Families, key: string, usage: Option<Usage>) {
    forall k :: CountMoved(f, f', k, "completion", ShareOf(k, key, usage).completion)
  }

  ghost predicate TotalMoved(f: Families, f': Families, key: string, usage: Option<Usage>) {
    forall k :: CountMoved(f, f', k, "total", ShareOf(k, key, usage).total)
  }

  /** The key's entry has grown by `u`, and no other entry has changed. */
  ghost predicate EntryGrown(view: map<string, Usage>, view': map<string, Usage>, key: string, u: Usage) {
    var was := if key in view then view[key] else Usage(0, 0, 0);
    && view'.Keys == view.Keys + {key}
    && (forall k | k in view && k != key :: view'[k] == view[k])
    && key in view'
    && view'[key] == Usage((was.prompt + u.prompt) % U64_MODULUS, (was.completion + u.completion) % U64_MODULUS,
                           (was.total + u.total) % U64_MODULUS)
  }

  /** Ledger and counters before and after a request that is charged `usage`. */
  ghost predicate Charged(view: map<string, Usage>, view': map<string, Usage>, f: Families, f': Families,
                          key: string, usage: Option<Usage>) {
    && (if usage.Some? then EntryGrown(view, view', key, usage.value) else view' == view)
    && PromptMoved(f, f', key, usage) && CompletionMoved(f, f', key, usage) && TotalMoved(f, f', key, usage)
  }

  /** What `k` is charged when `key` is charged `usage`. */
  function ShareOf(k: string, key: string, usage: Option<Usage>): Usage {
    if k == key && usage.Some? then usage.value else Usage(0, 0, 0)
  }

  lemma NamedCountMoves(f: Families, events: seq<Event>, key: string, kind: Kind, name: string, used: nat)
    requires Labels.KindName(kind) == name && TokensUsed(events, key, kind) == used
    ensures CountMoved(f, ApplyAll(f, events), key, name, used)
  {
    var labels := Labels.TokenLabel(key, kind);
    assert labels == Labels.LabelSet([Labels.Label("key", key), Labels.Label("kind", name)]) by {
      Labels.TokenLabelIsSet(key, kind);
    }
    assert Contributed(events, Tokens, labels) == used by {
      TokensAreContributed(events, key, kind);
    }
    TokenCounterMoves(f, events, labels, used);
    LabelMoved(f, ApplyAll(f, events), key, name, labels, used);
  }

  lemma LabelMoved(f: Families, f': Families, key: string, name: string, labels: string, used: nat)
    requires labels == Labels.LabelSet([Labels.Label("key", key), Labels.Label("kind", name)])
    requires Metrics.Stored(f'.tokens, labels) == (Metrics.Stored(f.tokens, labels) + used) % U64_MODULUS
    ensures CountMoved(f, f', key, name, used)
  {
  }

  lemma PromptIsCharged(parsers: Parsers, backends: seq<Router.Backend>, policy: Router.Policy, req: Request, f: Families)
    ensures PromptMoved(f, ApplyAll(f, EventsOf(parsers, backends, policy, req)), req.key,
                        RecordedUsage(parsers, backends, policy, req))
  {
    var usage := RecordedUsage(parsers, backends, policy, req);
    var events := EventsOf(parsers, backends, policy, req);
    forall k ensures CountMoved(f, ApplyAll(f, events), k, "prompt", ShareOf(k, req.key, usage).prompt) {
      RequestTokens(parsers, backends, policy, req, k, Prompt);
      NamedCountMoves(f, events, k, Prompt, "prompt", ShareOf(k, req.key, usage).prompt);
    }
  }

  lemma CompletionIsCharged(parsers: Parsers, backends: seq<Router.Backend>, policy: Router.Policy, req: Request, f: Families)
    ensures CompletionMoved(f, ApplyAll(f, EventsOf(parsers, backends, policy, req)), req.key,
                        RecordedUsage(parsers, backends, policy, req))
  {
    var usage := RecordedUsage(parsers, backends, policy, req);
    var events := EventsOf(parsers, backends, policy, req);
    forall k ensures CountMoved(f, ApplyAll(f, events), k, "completion", ShareOf(k, req.key, usage).completion) {
      RequestTokens(parsers, backends, policy, req, k, Completion);
      NamedCountMoves(f, events, k, Completion, "completion", ShareOf(k, req.key, usage).completion);
    }
  }

  lemma TotalIsCharged(parsers: Parsers, backends: seq<Router.Backend>, policy: Router.Policy, req: Request, f: Families)
    ensures TotalMoved(f, ApplyAll(f, EventsOf(parsers, backends, policy, req)), req.key,
                        RecordedUsage(parsers, backends, policy, req))
  {
    var usage := RecordedUsage(parsers, backends, policy, req);
    var events := EventsOf(parsers, backends, policy, req);
    forall k ensures CountMoved(f, ApplyAll(f, events), k, "total", ShareOf(k, req.key, usage).total) {
      RequestTokens(parsers, backends, policy, req, k, Kind.Total);
      NamedCountMoves(f, events, k, Kind.Total, "total", ShareOf(k, req.key, usage).total);
    }
  }

  lemma AddUsageGrows(view: map<string, Usage>, key: string, u: Usage)
    ensures EntryGrown(view, AddUsage(view, key, Some(u)), key, u)
  {
  }

  lemma RequestIsCharged(parsers: Parsers, backends: seq<Router.Backend>, policy: Router.Policy, req: Request,
                         view: map<string, Usage>, f: Families)
    ensures var usage := RecordedUsage(parsers, backends, policy, req);
            Charged(view, AddUsage(view, req.key, usage), f, ApplyAll(f, EventsOf(parsers, backends, policy, req)), req.key, usage)
  {
    var usage := RecordedUsage(parsers, backends, policy, req);
    PromptIsCharged(parsers, backends, policy, req, f);
    CompletionIsCharged(parsers, backends, policy, req, f);
    TotalIsCharged(parsers, backends, policy, req, f);
    if usage.Some? {
      AddUsageGrows(view, req.key, usage.value);
    }
  }

  /** What the reply of a forwarded request is worth, said without the handler: `None` if no attempt is
      answered, what the body reader finds in a buffered body, what the scanner has learnt from the
      relayed chunks of a stream. */
  ghost predicate IsWorth(parsers: Parsers, req: Request, k: nat, usage: Option<Usage>) {
    match req.attempts(k)
    case Failed(_) => usage == None
    case Opened(Reply(script, body)) =>
      if !req.stream then usage == if body == None then None else parsers.body(body.value)
      else
        exists relayed :: AreRelayed(Relay.Setting(parsers.payload, 30_000, req.start), script, relayed)
          && usage == Scanner.FeedAll(parsers.payload, Scanner.FRESH, relayed).facts.lastUsage
  }

  /** THE CHARGE of a forwarded request, decided by its first attempt that did not fail for now, or by
      the sixth. */
  lemma WorthExactly(parsers: Parsers, backends: seq<Router.Backend>, policy: Router.Policy, req: Request, k: nat)
    requires Target(backends, policy, req).Some?
    requires k <= 5 && (forall j | 0 <= j < k :: FailedForNow(req.attempts(j))) && (k == 5 || !FailedForNow(req.attempts(k)))
    ensures IsWorth(parsers, req, k, RecordedUsage(parsers, backends, policy, req))
  {
    RetryMeaning(req.attempts);
    FailedForNowIsRetryable(req.attempts);
    match req.attempts(k)
    case Opened(reply) =>
      assert IsDecision(req.attempts, Relayed(k, reply));
      if req.stream {
        var relayed := StreamChargesRelayedChunks(parsers, req, reply);
      }
    case Failed(e) =>
      if IsRetryable(e) {
        assert IsDecision(req.attempts, Exhausted(e));
      } else {
        assert IsDecision(req.attempts, PassedThrough(k, e));
      }
  }

  /** THE TARGET, for any policy: of a request within its rate that names a model, the backend that the
      policy picks from those serving that model (and local, if the key enforces privacy). */
  lemma TargetExactly(backends: seq<Router.Backend>, policy: Router.Policy, req: Request)
    ensures var candidates := Filter((b: Router.Backend) => && req.model in b.models
                                                            && (req.enforcePrivate ==> b.privacy == Router.Local), backends);
            var choice := policy(candidates);
            Target(backends, policy, req)
            == if req.withinRate && req.model != "" && choice.Some? && choice.value < |candidates|
               then Some(candidates[choice.value]) else None
  {
    Router.RouteExactly(backends, policy, Router.Query(req.model, []), req.enforcePrivate);
    SameFilter((b: Router.Backend) => && req.model in b.models && (forall t | t in [] :: t in b.tags)
                                      && (req.enforcePrivate ==> b.privacy == Router.Local),
               (b: Router.Backend) => && req.model in b.models && (req.enforcePrivate ==> b.privacy == Router.Local), backends);
  }
}
