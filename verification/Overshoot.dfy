/** The non-atomic check/record protocol for one key (src/budget.rs): how far it can overshoot. */
module Overshoot {
  import opened Prelude
  import opened BudgetLedger

  /** Where a request stands: three loads of `would_exceed`, then three fetch-adds of `add_usage`. */
  datatype Stage =
    | CheckPrompt | CheckCompletion | CheckTotal
    | Admitted | PromptAdded | CompletionAdded | Recorded | Rejected

  /** A request proposes some usage at its check and records some usage at its end. */
  datatype Request = Request(proposed: Usage, actual: Usage, stage: Stage)

  /** At most `slots` requests are between the start of their check and the end of their record at
      any time, and none proposes more than `cap` in any dimension. */
  datatype Protocol = Protocol(limit: Limit, slots: nat, cap: Usage)

  datatype State = State(value: Usage, requests: seq<Request>)

  datatype Step = Start(proposed: Usage, actual: Usage) | Advance(request: nat)

  predicate IsOpen(r: Request) {
    r.stage != Recorded && r.stage != Rejected
  }

  function OpenCount(rs: seq<Request>): nat {
    if rs == [] then 0 else OpenCount(rs[..|rs| - 1]) + (if IsOpen(rs[|rs| - 1]) then 1 else 0)
  }

  predicate WithinCap(p: Protocol, proposed: Usage, actual: Usage) {
    && actual.prompt <= proposed.prompt <= p.cap.prompt
    && actual.completion <= proposed.completion <= p.cap.completion
    && actual.total <= proposed.total <= p.cap.total
  }

  function CheckStage(p: Protocol, value: Usage, r: Request, kind: Kind, next: Stage): Request {
    r.(stage := if Refuses(value, p.limit, r.proposed, kind) then Rejected else next)
  }

  function AddField(value: Usage, u: Usage, kind: Kind): Usage {
    match kind
    case Prompt => value.(prompt := WrapAdd(value.prompt, u.prompt))
    case Completion => value.(completion := WrapAdd(value.completion, u.completion))
    case Total => value.(total := WrapAdd(value.total, u.total))
  }

  /** One atomic access of one request. */
  function Move(p: Protocol, value: Usage, r: Request): (Usage, Request) {
    match r.stage
    case CheckPrompt => (value, CheckStage(p, value, r, Prompt, CheckCompletion))
    case CheckCompletion => (value, CheckStage(p, value, r, Completion, CheckTotal))
    case CheckTotal => (value, CheckStage(p, value, r, Kind.Total, Admitted))
    case Admitted => (AddField(value, r.actual, Prompt), r.(stage := PromptAdded))
    case PromptAdded => (AddField(value, r.actual, Completion), r.(stage := CompletionAdded))
    case CompletionAdded => (AddField(value, r.actual, Kind.Total), r.(stage := Recorded))
    case _ => (value, r)
  }

  /** A step that is not possible changes nothing. */
  ghost function Do(p: Protocol, s: State, step: Step): State {
    match step
    case Start(proposed, actual) =>
      if OpenCount(s.requests) < p.slots && WithinCap(p, proposed, actual)
      then s.(requests := s.requests + [Request(proposed, actual, CheckPrompt)]) else s
    case Advance(i) =>
      if i < |s.requests| then
        var (value, r) := Move(p, s.value, s.requests[i]);
        State(value, s.requests[i := r])
      else s
  }

  ghost function Exec(p: Protocol, s: State, steps: seq<Step>): State {
    if steps == [] then s else Do(p, Exec(p, s, steps[..|steps| - 1]), steps[|steps| - 1])
  }

  // -------------------------------------------------------------------------
  // The bound
  // -------------------------------------------------------------------------

  /** The request has passed the check of this dimension and not yet recorded it. */
  predicate IsCommitted(r: Request, kind: Kind) {
    match kind
    case Prompt => r.stage == CheckCompletion || r.stage == CheckTotal || r.stage == Admitted
    case Completion => r.stage == CheckTotal || r.stage == Admitted || r.stage == PromptAdded
    case Total => r.stage == Admitted || r.stage == PromptAdded || r.stage == CompletionAdded
  }

  function Pending(r: Request, kind: Kind): nat {
    if IsCommitted(r, kind) then Amount(r.proposed, kind) else 0
  }

  /** What the requests that have passed the check may still record. */
  function Committed(rs: seq<Request>, kind: Kind): nat {
    if rs == [] then 0 else Committed(rs[..|rs| - 1], kind) + Pending(rs[|rs| - 1], kind)
  }

  /** The largest proposal that can pass the check of this dimension. */
  function Largest(p: Protocol, kind: Kind): u64 {
    match LimitOf(p.limit, kind)
    case None => Amount(p.cap, kind)
    case Some(max) => if Amount(p.cap, kind) <= max then Amount(p.cap, kind) else max
  }

  function Copies(n: nat, u: nat): nat {
    MulMonotone(0, n, u);
    n * u
  }

  /** One such proposal for every slot but one. */
  function Spare(p: Protocol, kind: Kind): nat {
    if p.slots == 0 then 0 else Copies(p.slots - 1, Largest(p, kind))
  }

  ghost predicate Inv(p: Protocol, ceiling: nat, kind: Kind, s: State) {
    && OpenCount(s.requests) <= p.slots
    && (forall i | 0 <= i < |s.requests| :: WithinCap(p, s.requests[i].proposed, s.requests[i].actual))
    && (forall i | 0 <= i < |s.requests| :: Pending(s.requests[i], kind) <= Largest(p, kind))
    && Amount(s.value, kind) + Committed(s.requests, kind) <= ceiling
  }

  lemma {:induction false} CommittedUpdate(rs: seq<Request>, i: nat, r: Request, kind: Kind)
    requires i < |rs|
    ensures Committed(rs[i := r], kind) == Committed(rs, kind) - Pending(rs[i], kind) + Pending(r, kind)
    decreases |rs|
  {
    var n := |rs| - 1;
    if i == n {
      assert rs[i := r][..n] == rs[..n];
    } else {
      assert rs[i := r][..n] == rs[..n][i := r];
      CommittedUpdate(rs[..n], i, r, kind);
    }
  }

  lemma {:induction false} OpenUpdate(rs: seq<Request>, i: nat, r: Request)
    requires i < |rs|
    ensures OpenCount(rs[i := r])
         == OpenCount(rs) - (if IsOpen(rs[i]) then 1 else 0) + (if IsOpen(r) then 1 else 0)
    decreases |rs|
  {
    var n := |rs| - 1;
    if i == n {
      assert rs[i := r][..n] == rs[..n];
    } else {
      assert rs[i := r][..n] == rs[..n][i := r];
      OpenUpdate(rs[..n], i, r);
    }
  }

  /** Committed proposals fit in the open slots. */
  lemma {:induction false} CommittedFits(rs: seq<Request>, kind: Kind, cap: nat)
    requires forall i | 0 <= i < |rs| :: Pending(rs[i], kind) <= cap
    ensures Committed(rs, kind) <= OpenCount(rs) * cap
  {
    if rs != [] {
      var n := |rs| - 1;
      CommittedFits(rs[..n], kind, cap);
      assert (OpenCount(rs[..n]) + 1) * cap == OpenCount(rs[..n]) * cap + cap;
    }
  }

  lemma MulMonotone(a: nat, b: nat, c: nat)
    requires a <= b
    ensures a * c <= b * c
  {
  }

  /** The other requests can have committed at most one proposal each. */
  lemma OthersFit(p: Protocol, rs: seq<Request>, i: nat, kind: Kind)
    requires i < |rs| && IsOpen(rs[i]) && !IsCommitted(rs[i], kind) && OpenCount(rs) <= p.slots
    requires forall j | 0 <= j < |rs| :: Pending(rs[j], kind) <= Largest(p, kind)
    ensures p.slots >= 1 && Committed(rs, kind) <= (p.slots - 1) * Largest(p, kind)
  {
    var closed := rs[i].(stage := Rejected);
    var others := rs[i := closed];
    CommittedUpdate(rs, i, closed, kind);
    OpenUpdate(rs, i, closed);
    CommittedFits(others, kind, Largest(p, kind));
    MulMonotone(OpenCount(others), p.slots - 1, Largest(p, kind));
  }

  /** One step of a request never raises stored plus pending usage, unless it passes the check. */
  lemma MoveInDimension(p: Protocol, max: u64, value: Usage, r: Request, kind: Kind)
    requires LimitOf(p.limit, kind) == Some(max)
    requires Amount(r.actual, kind) <= Amount(r.proposed, kind)
    requires Amount(value, kind) + Amount(r.proposed, kind) < U64_MODULUS
    ensures var (value', r') := Move(p, value, r);
            && r'.proposed == r.proposed && r'.actual == r.actual
            && (IsOpen(r') ==> IsOpen(r))
            && (Pending(r', kind) <= max || Pending(r', kind) <= Pending(r, kind))
            && (|| Amount(value', kind) + Pending(r', kind) <= Amount(value, kind) + Pending(r, kind)
                || (IsOpen(r) && !IsCommitted(r, kind) && Amount(value', kind) + Pending(r', kind) <= max))
  {
  }

  /** A step that admits the request finds room for it next to all the others. */
  lemma AdmissionFits(p: Protocol, kind: Kind, s: State, i: nat)
    requires i < |s.requests| && OpenCount(s.requests) <= p.slots
    requires forall j | 0 <= j < |s.requests| :: Pending(s.requests[j], kind) <= Largest(p, kind)
    requires IsOpen(s.requests[i]) && !IsCommitted(s.requests[i], kind)
    ensures Committed(s.requests, kind) <= Spare(p, kind)
  {
    OthersFit(p, s.requests, i, kind);
  }

  lemma AdvanceKeeps(p: Protocol, ceiling: nat, max: u64, spare: nat, kind: Kind, s: State, i: nat)
    requires LimitOf(p.limit, kind) == Some(max) && spare == Spare(p, kind)
    requires max + spare <= ceiling && ceiling + Amount(p.cap, kind) < U64_MODULUS
    requires Inv(p, ceiling, kind, s) && i < |s.requests|
    ensures Inv(p, ceiling, kind, Do(p, s, Advance(i)))
  {
    var r := s.requests[i];
    assert WithinCap(p, r.proposed, r.actual);
    assert Amount(r.actual, kind) <= Amount(r.proposed, kind) <= Amount(p.cap, kind);
    var r' := Move(p, s.value, r).1;
    MoveInDimension(p, max, s.value, r, kind);
    OpenUpdate(s.requests, i, r');
    CommittedUpdate(s.requests, i, r', kind);
    if IsOpen(r) && !IsCommitted(r, kind) {
      AdmissionFits(p, kind, s, i);
    }
  }

  lemma StartKeeps(p: Protocol, ceiling: nat, kind: Kind, s: State, proposed: Usage, actual: Usage)
    requires Inv(p, ceiling, kind, s)
    ensures Inv(p, ceiling, kind, Do(p, s, Start(proposed, actual)))
  {
    if OpenCount(s.requests) < p.slots && WithinCap(p, proposed, actual) {
      var r := Request(proposed, actual, CheckPrompt);
      var rs := s.requests + [r];
      assert rs[..|s.requests|] == s.requests;
      assert Committed(rs, kind) == Committed(s.requests, kind);
    }
  }

  lemma {:induction false} InvHolds(p: Protocol, start: Usage, ceiling: nat, max: u64, spare: nat, kind: Kind,
                                    steps: seq<Step>)
    requires LimitOf(p.limit, kind) == Some(max) && spare == Spare(p, kind) && Amount(start, kind) <= ceiling
    requires max + spare <= ceiling && ceiling + Amount(p.cap, kind) < U64_MODULUS
    ensures Inv(p, ceiling, kind, Exec(p, State(start, []), steps))
  {
    if steps != [] {
      var n := |steps| - 1;
      InvHolds(p, start, ceiling, max, spare, kind, steps[..n]);
      var mid := Exec(p, State(start, []), steps[..n]);
      match steps[n]
      case Start(proposed, actual) => StartKeeps(p, ceiling, kind, mid, proposed, actual);
      case Advance(i) =>
        if i < |mid.requests| {
          AdvanceKeeps(p, ceiling, max, spare, kind, mid, i);
        }
    }
  }

  function Max(a: nat, b: nat): nat {
    if a < b then b else a
  }

  /** OVERSHOOT BOUND. However requests interleave, recorded usage and what is still committed stay,
      in each limited dimension, within the limit plus one proposal for every slot but one (or the
      initial value, if that was higher). */
  lemma OvershootBound(p: Protocol, start: Usage, kind: Kind, max: u64, steps: seq<Step>)
    requires LimitOf(p.limit, kind) == Some(max)
    requires Max(Amount(start, kind), max + Spare(p, kind)) + Amount(p.cap, kind) < U64_MODULUS
    ensures var end := Exec(p, State(start, []), steps);
            Amount(end.value, kind) + Committed(end.requests, kind)
            <= Max(Amount(start, kind), max + Spare(p, kind))
  {
    InvHolds(p, start, Max(Amount(start, kind), max + Spare(p, kind)), max, Spare(p, kind), kind, steps);
  }

  // -------------------------------------------------------------------------
  // The bound is attained
  // -------------------------------------------------------------------------

  /** Usage in one dimension only. */
  function Only(kind: Kind, n: u64): Usage {
    match kind
    case Prompt => Usage(n, 0, 0)
    case Completion => Usage(0, n, 0)
    case Total => Usage(0, 0, n)
  }

  /** `n` requests that propose `u` and use it all; the first `done` of them have recorded. */
  function AllAt(n: nat, done: nat, u: Usage): seq<Request> {
    seq(n, i => Request(u, u, if i < done then Recorded else Admitted))
  }

  lemma ExecOne(p: Protocol, s: State, steps: seq<Step>, a: Step)
    ensures Exec(p, s, steps + [a]) == Do(p, Exec(p, s, steps), a)
  {
    assert (steps + [a])[..|steps|] == steps;
  }

  lemma ExecThree(p: Protocol, s: State, steps: seq<Step>, a: Step)
    ensures Exec(p, s, steps + [a, a, a]) == Do(p, Do(p, Do(p, Exec(p, s, steps), a), a), a)
  {
    var one, two := steps + [a], steps + [a, a];
    assert two == one + [a] && steps + [a, a, a] == two + [a];
    ExecOne(p, s, steps, a);
    ExecOne(p, s, one, a);
    ExecOne(p, s, two, a);
  }

  lemma OneMore(n: nat, u: nat)
    requires n >= 1
    ensures n * u == (n - 1) * u + u
  {
  }

  lemma {:induction false} OpenAll(rs: seq<Request>)
    requires forall i | 0 <= i < |rs| :: IsOpen(rs[i])
    ensures OpenCount(rs) == |rs|
  {
    if rs != [] {
      OpenAll(rs[..|rs| - 1]);
    }
  }

  /** A key with room for exactly one proposal of the greatest size. */
  function RoomForOne(p: Protocol, kind: Kind, max: u64): State
    requires LimitOf(p.limit, kind) == Some(max)
  {
    State(Only(kind, max - Largest(p, kind)), [])
  }

  lemma AdvanceLast(p: Protocol, value: Usage, rs: seq<Request>, r: Request)
    ensures Do(p, State(value, rs + [r]), Advance(|rs|))
         == var (value', r') := Move(p, value, r); State(value', rs + [r'])
  {
    var (_, r') := Move(p, value, r);
    assert (rs + [r])[|rs|] == r && (rs + [r])[|rs| := r'] == rs + [r'];
  }

  /** A proposal in one dimension passes each check if its sum, as the machine adds, is within the limit. */
  lemma CheckPasses(p: Protocol, kind: Kind, max: u64, v: u64, u: u64, r: Request)
    requires LimitOf(p.limit, kind) == Some(max) && WrapAdd(v, u) <= max
    requires r.proposed == Only(kind, u)
    ensures var value := Only(kind, v);
            && Move(p, value, r.(stage := CheckPrompt)) == (value, r.(stage := CheckCompletion))
            && Move(p, value, r.(stage := CheckCompletion)) == (value, r.(stage := CheckTotal))
            && Move(p, value, r.(stage := CheckTotal)) == (value, r.(stage := Admitted))
  {
  }

  lemma PassChecks(p: Protocol, kind: Kind, max: u64, v: u64, u: u64, actual: Usage, rs: seq<Request>)
    requires LimitOf(p.limit, kind) == Some(max) && WrapAdd(v, u) <= max
    ensures var use := Only(kind, u);
            var value := Only(kind, v);
            Do(p, Do(p, Do(p, State(value, rs + [Request(use, actual, CheckPrompt)]),
                           Advance(|rs|)), Advance(|rs|)), Advance(|rs|))
            == State(value, rs + [Request(use, actual, Admitted)])
  {
    var use := Only(kind, u);
    var value := Only(kind, v);
    var r := Request(use, actual, CheckPrompt);
    CheckPasses(p, kind, max, v, u, r);
    AdvanceLast(p, value, rs, r);
    AdvanceLast(p, value, rs, r.(stage := CheckCompletion));
    AdvanceLast(p, value, rs, r.(stage := CheckTotal));
  }

  /** The four steps that start and admit a request. */
  function AdmitSteps(ask: Usage, use: Usage, i: nat): seq<Step> {
    [Start(ask, use)] + [Advance(i), Advance(i), Advance(i)]
  }

  lemma StartLast(p: Protocol, value: Usage, rs: seq<Request>, ask: Usage, use: Usage)
    requires OpenCount(rs) < p.slots && WithinCap(p, ask, use)
    ensures Do(p, State(value, rs), Start(ask, use)) == State(value, rs + [Request(ask, use, CheckPrompt)])
  {
  }

  lemma AdmitLast(p: Protocol, kind: Kind, max: u64, init: State, before: seq<Step>, v: u64, u: u64, use: Usage,
                  rs: seq<Request>)
    requires LimitOf(p.limit, kind) == Some(max) && WrapAdd(v, u) <= max
    requires OpenCount(rs) < p.slots && WithinCap(p, Only(kind, u), use)
    requires Exec(p, init, before) == State(Only(kind, v), rs)
    ensures Exec(p, init, before + AdmitSteps(Only(kind, u), use, |rs|))
         == State(Only(kind, v), rs + [Request(Only(kind, u), use, Admitted)])
  {
    var ask, i := Only(kind, u), |rs|;
    var started := before + [Start(ask, use)];
    ExecOne(p, init, before, Start(ask, use));
    StartLast(p, Only(kind, v), rs, ask, use);
    ExecThree(p, init, started, Advance(i));
    PassChecks(p, kind, max, v, u, use, rs);
    assert before + AdmitSteps(ask, use, i) == started + [Advance(i), Advance(i), Advance(i)];
  }

  /** `k` requests pass the check before any of them records. */
  lemma {:induction false} AllPass(p: Protocol, kind: Kind, max: u64, k: nat) returns (steps: seq<Step>)
    requires LimitOf(p.limit, kind) == Some(max) && k <= p.slots
    ensures Exec(p, RoomForOne(p, kind, max), steps)
         == State(RoomForOne(p, kind, max).value, AllAt(k, 0, Only(kind, Largest(p, kind))))
  {
    var init := RoomForOne(p, kind, max);
    if k == 0 {
      steps := [];
    } else {
      var before := AllPass(p, kind, max, k - 1);
      var use := Only(kind, Largest(p, kind));
      var rs := AllAt(k - 1, 0, use);
      OpenAll(rs);
      AdmitLast(p, kind, max, init, before, max - Largest(p, kind), Largest(p, kind), use, rs);
      steps := before + AdmitSteps(use, use, k - 1);
      assert rs + [Request(use, use, Admitted)] == AllAt(k, 0, use);
    }
  }

  /** An admitted request records all it proposed in three additions. */
  lemma RecordAll(p: Protocol, kind: Kind, v: u64, u: u64, rs: seq<Request>, i: nat)
    requires v + u < U64_MODULUS && i < |rs| && rs[i] == Request(Only(kind, u), Only(kind, u), Admitted)
    ensures Do(p, Do(p, Do(p, State(Only(kind, v), rs), Advance(i)), Advance(i)), Advance(i))
         == State(Only(kind, v + u), rs[i := rs[i].(stage := Recorded)])
  {
    var s1 := Do(p, State(Only(kind, v), rs), Advance(i));
    var s2 := Do(p, s1, Advance(i));
    var s3 := Do(p, s2, Advance(i));
    assert s2.requests[i].stage == CompletionAdded;
    assert s3.requests == rs[i := rs[i].(stage := Recorded)];
  }

  lemma RecordNext(p: Protocol, kind: Kind, v: u64, u: u64, n: nat, i: nat)
    requires v + u < U64_MODULUS && i < n
    ensures Do(p, Do(p, Do(p, State(Only(kind, v), AllAt(n, i, Only(kind, u))), Advance(i)), Advance(i)), Advance(i))
         == State(Only(kind, v + u), AllAt(n, i + 1, Only(kind, u)))
  {
    var rs := AllAt(n, i, Only(kind, u));
    RecordAll(p, kind, v, u, rs, i);
    assert rs[i := rs[i].(stage := Recorded)] == AllAt(n, i + 1, Only(kind, u));
  }

  /** What is recorded once `k` of the requests have. */
  function Level(max: nat, u: nat, k: nat): nat
    requires u <= max
  {
    if k == 0 then max - u else Level(max, u, k - 1) + u
  }

  lemma {:induction false} LevelIs(max: nat, u: nat, k: nat)
    requires u <= max && k >= 1
    ensures Level(max, u, k) == max + (k - 1) * u
  {
    if k > 1 {
      LevelIs(max, u, k - 1);
      OneMore(k - 1, u);
    } else {
      assert Level(max, u, 1) == Level(max, u, 0) + u;
    }
  }

  /** The first `k` of them record. */
  lemma {:induction false} AllRecord(p: Protocol, kind: Kind, max: u64, k: nat) returns (steps: seq<Step>)
    requires LimitOf(p.limit, kind) == Some(max) && k <= p.slots
    requires Level(max, Largest(p, kind), k) < U64_MODULUS
    ensures var u := Largest(p, kind);
            Exec(p, RoomForOne(p, kind, max), steps)
            == State(Only(kind, Level(max, u, k)), AllAt(p.slots, k, Only(kind, u)))
  {
    var u := Largest(p, kind);
    if k == 0 {
      steps := AllPass(p, kind, max, p.slots);
    } else {
      var before := AllRecord(p, kind, max, k - 1);
      var i := k - 1;
      steps := before + [Advance(i), Advance(i), Advance(i)];
      ExecThree(p, RoomForOne(p, kind, max), before, Advance(i));
      RecordNext(p, kind, Level(max, u, i), u, p.slots, i);
    }
  }

  /** THE BOUND IS TIGHT for every protocol, in every limited dimension: some interleaving records
      exactly the limit plus one proposal for every slot but one. */
  lemma OvershootAttained(p: Protocol, kind: Kind, max: u64) returns (steps: seq<Step>)
    requires LimitOf(p.limit, kind) == Some(max) && p.slots >= 1
    requires max + Spare(p, kind) < U64_MODULUS
    ensures Amount(Exec(p, RoomForOne(p, kind, max), steps).value, kind) == max + Spare(p, kind)
  {
    LevelIs(max, Largest(p, kind), p.slots);
    steps := AllRecord(p, kind, max, p.slots);
  }

  // -------------------------------------------------------------------------
  // Near 2^64
  // -------------------------------------------------------------------------

  lemma {:induction false} OpenOfAll(n: nat, k: nat, u: Usage)
    requires k <= n
    ensures OpenCount(AllAt(n, k, u)) == n - k
  {
    if n > 0 {
      var before := if k == n then k - 1 else k;
      assert AllAt(n, k, u)[..n - 1] == AllAt(n - 1, before, u);
      OpenOfAll(n - 1, before, u);
    }
  }

  lemma {:induction false} CommittedOfAll(n: nat, k: nat, kind: Kind, u: u64)
    requires k <= n
    ensures Committed(AllAt(n, k, Only(kind, u)), kind) == Copies(n - k, u)
  {
    if n > 0 {
      var before := if k == n then k - 1 else k;
      assert AllAt(n, k, Only(kind, u))[..n - 1] == AllAt(n - 1, before, Only(kind, u));
      CommittedOfAll(n - 1, before, kind, u);
      if k < n {
        OneMore(n - k, u);
      }
    }
  }

  lemma OnlyWithinCap(p: Protocol, kind: Kind, ask: u64, use: u64)
    requires use <= ask <= Amount(p.cap, kind)
    ensures WithinCap(p, Only(kind, ask), Only(kind, use))
  {
  }

  /** The last level that fits in 64 bits: one more proposal, of at most the greatest size, reaches 2^64. */
  lemma {:induction false} TopLevel(max: u64, u: u64, cap: u64, n: nat) returns (k: nat)
    requires n >= 1 && u <= max && u <= cap && Level(max, u, n) + cap >= U64_MODULUS
    ensures 1 <= k <= n && Level(max, u, k) < U64_MODULUS <= Level(max, u, k) + cap
  {
    if Level(max, u, n) < U64_MODULUS {
      k := n;
    } else {
      LevelIs(max, u, 1);
      assert n > 1 && Level(max, u, n) == Level(max, u, n - 1) + u;
      k := TopLevel(max, u, cap, n - 1);
    }
  }

  lemma TopSlot(p: Protocol, kind: Kind, max: u64) returns (k: nat)
    requires LimitOf(p.limit, kind) == Some(max) && p.slots >= 1
    requires max + Spare(p, kind) + Amount(p.cap, kind) >= U64_MODULUS
    ensures 1 <= k <= p.slots
    ensures Level(max, Largest(p, kind), k) < U64_MODULUS <= Level(max, Largest(p, kind), k) + Amount(p.cap, kind)
  {
    LevelIs(max, Largest(p, kind), p.slots);
    k := TopLevel(max, Largest(p, kind), Amount(p.cap, kind), p.slots);
  }

  /** Once the sum can reach 2^64, one more proposal is admitted: its sum comes back as zero. */
  lemma AdmitAtTop(p: Protocol, kind: Kind, max: u64, k: nat, actual: u64) returns (steps: seq<Step>)
    requires LimitOf(p.limit, kind) == Some(max) && 1 <= k <= p.slots
    requires Level(max, Largest(p, kind), k) < U64_MODULUS <= Level(max, Largest(p, kind), k) + Amount(p.cap, kind)
    requires actual <= U64_MODULUS - Level(max, Largest(p, kind), k)
    ensures var v := Level(max, Largest(p, kind), k);
            Exec(p, RoomForOne(p, kind, max), steps)
            == State(Only(kind, v), AllAt(p.slots, k, Only(kind, Largest(p, kind)))
                                    + [Request(Only(kind, U64_MODULUS - v), Only(kind, actual), Admitted)])
  {
    var init := RoomForOne(p, kind, max);
    var u := Largest(p, kind);
    var v := Level(max, u, k);
    LevelAtLeast(max, u, k);
    var before := AllRecord(p, kind, max, k);
    var rs := AllAt(p.slots, k, Only(kind, u));
    var ask, use := Only(kind, U64_MODULUS - v), Only(kind, actual);
    OpenOfAll(p.slots, k, Only(kind, u));
    OnlyWithinCap(p, kind, U64_MODULUS - v, actual);
    AdmitLast(p, kind, max, init, before, v, U64_MODULUS - v, use, rs);
    steps := before + AdmitSteps(ask, use, |rs|);
  }

  lemma {:induction false} LevelAtLeast(max: nat, u: nat, k: nat)
    requires u <= max && k >= 1
    ensures Level(max, u, k) >= max
  {
    if k > 1 {
      LevelAtLeast(max, u, k - 1);
    } else {
      assert Level(max, u, 1) == Level(max, u, 0) + u;
    }
  }

  /** What is recorded and committed then exceeds the bound. */
  lemma ExceedsAtTop(p: Protocol, kind: Kind, max: u64) returns (steps: seq<Step>)
    requires LimitOf(p.limit, kind) == Some(max) && p.slots >= 1
    requires max + Spare(p, kind) + Amount(p.cap, kind) >= U64_MODULUS
    ensures var end := Exec(p, RoomForOne(p, kind, max), steps);
            Amount(end.value, kind) + Committed(end.requests, kind) > max + Spare(p, kind)
  {
    var u := Largest(p, kind);
    var k := TopSlot(p, kind, max);
    steps := AdmitAtTop(p, kind, max, k, 0);
    assert Level(max, u, k) + Committed(Exec(p, RoomForOne(p, kind, max), steps).requests, kind) > max + Spare(p, kind) by {
      SumAtTop(p, kind, max, k, U64_MODULUS - Level(max, u, k));
    }
  }

  lemma SumAtTop(p: Protocol, kind: Kind, max: u64, k: nat, ask: u64)
    requires LimitOf(p.limit, kind) == Some(max) && 1 <= k <= p.slots && ask > 0
    ensures var u := Largest(p, kind);
            Level(max, u, k)
            + Committed(AllAt(p.slots, k, Only(kind, u)) + [Request(Only(kind, ask), Only(kind, 0), Admitted)], kind)
            > max + Spare(p, kind)
  {
    CommittedAtTop(p, kind, k, Largest(p, kind), ask);
    LevelAndRest(max, Largest(p, kind), p.slots, k);
  }

  lemma CommittedAtTop(p: Protocol, kind: Kind, k: nat, u: u64, ask: u64)
    requires k <= p.slots
    ensures Committed(AllAt(p.slots, k, Only(kind, u)) + [Request(Only(kind, ask), Only(kind, 0), Admitted)], kind)
         == Copies(p.slots - k, u) + ask
  {
    var rs, r := AllAt(p.slots, k, Only(kind, u)), Request(Only(kind, ask), Only(kind, 0), Admitted);
    CommittedOfAll(p.slots, k, kind, u);
    assert (rs + [r])[..|rs|] == rs;
    assert Pending(r, kind) == ask;
  }

  lemma LevelAndRest(max: nat, u: nat, n: nat, k: nat)
    requires u <= max && 1 <= k <= n
    ensures Level(max, u, k) + Copies(n - k, u) == max + Copies(n - 1, u)
  {
    LevelIs(max, u, k);
    assert (k - 1) + (n - k) == n - 1;
  }

  /** And the counter itself can then be driven to the top of its range. */
  lemma TopReached(p: Protocol, kind: Kind, max: u64) returns (steps: seq<Step>)
    requires LimitOf(p.limit, kind) == Some(max) && p.slots >= 1
    requires max + Spare(p, kind) + Amount(p.cap, kind) >= U64_MODULUS
    ensures Amount(Exec(p, RoomForOne(p, kind, max), steps).value, kind) == U64_MODULUS - 1
  {
    var u := Largest(p, kind);
    var k := TopSlot(p, kind, max);
    var v := Level(max, u, k);
    var before := AdmitAtTop(p, kind, max, k, U64_MODULUS - 1 - v);
    var rs := AllAt(p.slots, k, Only(kind, u));
    var r := Request(Only(kind, U64_MODULUS - v), Only(kind, U64_MODULUS - 1 - v), Admitted);
    ExecThree(p, RoomForOne(p, kind, max), before, Advance(|rs|));
    steps := before + [Advance(|rs|), Advance(|rs|), Advance(|rs|)];
    RecordLast(p, kind, v, U64_MODULUS - 1 - v, rs, r);
  }

  lemma RecordLast(p: Protocol, kind: Kind, v: u64, u: u64, rs: seq<Request>, r: Request)
    requires v + u < U64_MODULUS && r.actual == Only(kind, u) && r.stage == Admitted
    ensures Do(p, Do(p, Do(p, State(Only(kind, v), rs + [r]), Advance(|rs|)), Advance(|rs|)), Advance(|rs|)).value
         == Only(kind, v + u)
  {
    var one, two := AddField(Only(kind, v), r.actual, Prompt), r.(stage := PromptAdded);
    AdvanceLast(p, Only(kind, v), rs, r);
    AdvanceLast(p, one, rs, two);
    AdvanceLast(p, AddField(one, r.actual, Completion), rs, r.(stage := CompletionAdded));
  }

  /** The bound, for every starting value within the limit and every run. */
  ghost predicate StaysInBound(p: Protocol, kind: Kind, max: u64) {
    forall start: Usage, steps | Amount(start, kind) <= max ::
      var end := Exec(p, State(start, []), steps);
      Amount(end.value, kind) + Committed(end.requests, kind) <= max + Spare(p, kind)
  }

  /** OVERSHOOT BOUND, exactly. From any value within the limit, recorded usage and what is still
      committed stay within the limit plus one proposal for every slot but one, if and only if that
      bound and one more proposal fit in 64 bits. */
  lemma OvershootExactly(p: Protocol, kind: Kind, max: u64)
    requires LimitOf(p.limit, kind) == Some(max) && p.slots >= 1
    ensures StaysInBound(p, kind, max) <==> max + Spare(p, kind) + Amount(p.cap, kind) < U64_MODULUS
  {
    if max + Spare(p, kind) + Amount(p.cap, kind) < U64_MODULUS {
      forall start: Usage, steps | Amount(start, kind) <= max
        ensures var end := Exec(p, State(start, []), steps);
                Amount(end.value, kind) + Committed(end.requests, kind) <= max + Spare(p, kind)
      {
        OvershootBound(p, start, kind, max, steps);
      }
    } else {
      var steps := ExceedsAtTop(p, kind, max);
      assert Amount(RoomForOne(p, kind, max).value, kind) <= max;
    }
  }

  // -------------------------------------------------------------------------
  // Margins on the recorded usage
  // -------------------------------------------------------------------------

  /** Whatever happens, recorded usage stays within the limit plus `margin`. */
  ghost predicate OverByAtMost(p: Protocol, kind: Kind, max: u64, margin: nat) {
    forall start: Usage, steps | Amount(start, kind) <= max ::
      Amount(Exec(p, State(start, []), steps).value, kind) <= max + margin
  }

  /** EVERY MARGIN, exactly. Recorded usage never exceeds the limit by more than `margin` if and only
      if the margin holds one proposal for every slot but one and no sum can reach 2^64, or the limit
      and the margin exhaust the counter's range anyway. */
  lemma MarginExactly(p: Protocol, kind: Kind, max: u64, margin: nat)
    requires LimitOf(p.limit, kind) == Some(max) && p.slots >= 1
    ensures OverByAtMost(p, kind, max, margin)
       <==> || max + margin >= U64_MODULUS - 1
            || (Spare(p, kind) <= margin && max + Spare(p, kind) + Amount(p.cap, kind) < U64_MODULUS)
  {
    assert Amount(RoomForOne(p, kind, max).value, kind) <= max;
    if max + Spare(p, kind) + Amount(p.cap, kind) >= U64_MODULUS {
      var steps := TopReached(p, kind, max);
    } else {
      var steps := OvershootAttained(p, kind, max);
      if Spare(p, kind) <= margin {
        forall start: Usage, steps | Amount(start, kind) <= max
          ensures Amount(Exec(p, State(start, []), steps).value, kind) <= max + margin
        {
          OvershootBound(p, start, kind, max, steps);
        }
      }
    }
  }

  /** One request at a time never takes a key over its limit, exactly: if and only if the limit and a
      proposal together fit in 64 bits (or the limit is the top of the range). */
  lemma SerialExactly(p: Protocol, kind: Kind, max: u64)
    requires LimitOf(p.limit, kind) == Some(max) && p.slots == 1
    ensures OverByAtMost(p, kind, max, 0)
       <==> max == U64_MODULUS - 1 || max + Amount(p.cap, kind) < U64_MODULUS
  {
    MarginExactly(p, kind, max, 0);
    assert Spare(p, kind) == 0;
  }

  lemma SpareIsMore(n: nat, u: nat)
    requires n >= 1
    ensures (n - 1) * u <= u <==> n <= 2 || u == 0
  {
    if n >= 3 && u > 0 {
      MulMonotone(2, n - 1, u);
    }
  }

  /** ONE REQUEST'S WORTH is the true margin, where nothing can reach 2^64, if and only if one proposal
      covers the spare slots. If the limit admits the greatest proposal, that is: at most two requests
      of a key can be under way at the same time (or requests use nothing at all). */
  lemma OverByOneExactly(p: Protocol, kind: Kind, max: u64)
    requires LimitOf(p.limit, kind) == Some(max) && p.slots >= 1
    ensures OverByAtMost(p, kind, max, Amount(p.cap, kind))
       <==> || max + Amount(p.cap, kind) >= U64_MODULUS - 1
            || (Spare(p, kind) <= Amount(p.cap, kind) && max + Spare(p, kind) + Amount(p.cap, kind) < U64_MODULUS)
    ensures Amount(p.cap, kind) <= max ==> (Spare(p, kind) <= Amount(p.cap, kind) <==> p.slots <= 2 || Amount(p.cap, kind) == 0)
  {
    MarginExactly(p, kind, max, Amount(p.cap, kind));
    SpareIsMore(p.slots, Amount(p.cap, kind));
  }
}
