/** Backend selection (src/router.rs). */
module Router {
  import opened Prelude

  datatype Privacy = Local | External

  datatype Backend = Backend(name: string, models: seq<string>, tags: seq<string>, privacy: Privacy)

  datatype Query = Query(model: string, requiredTags: seq<string>)

  /** The privacy class a request is stamped with, once. */
  datatype Class = Private | Shareable

  datatype ClassifiedQuery = ClassifiedQuery(query: Query, cls: Class)

  function Classify(q: Query, markPrivate: bool): ClassifiedQuery {
    ClassifiedQuery(q, if markPrivate then Private else Shareable)
  }

  predicate Admits(cls: Class, p: Privacy) {
    match cls
    case Private => p == Local
    case Shareable => true
  }

  predicate ServesModel(b: Backend, model: string) {
    model in b.models
  }

  predicate HasTags(b: Backend, required: seq<string>) {
    forall t | t in required :: t in b.tags
  }

  predicate Eligible(cq: ClassifiedQuery, b: Backend) {
    Admits(cq.cls, b.privacy) && ServesModel(b, cq.query.model) && HasTags(b, cq.query.requiredTags)
  }

  /** The candidates of a query, in configuration order. */
  function Gather(cq: ClassifiedQuery, backends: seq<Backend>): seq<Backend> {
    if backends == [] then []
    else
      var n := |backends| - 1;
      Gather(cq, backends[..n]) + (if Eligible(cq, backends[n]) then [backends[n]] else [])
  }

  /** A policy may answer any index, or none. */
  type Policy = seq<Backend> -> Option<nat>

  function Select(items: seq<Backend>, policy: Policy): Option<Backend> {
    match policy(items)
    case None => None
    case Some(i) => if i < |items| then Some(items[i]) else None
  }

  datatype RouteResult = Routed(backend: Backend) | NoEligibleBackend(model: string, requiredTags: seq<string>, cls: Class)

  function Resolve(cq: ClassifiedQuery, backends: seq<Backend>, policy: Policy): RouteResult {
    match Select(Gather(cq, backends), policy)
    case Some(b) => Routed(b)
    case None => NoEligibleBackend(cq.query.model, cq.query.requiredTags, cq.cls)
  }

  function Route(backends: seq<Backend>, policy: Policy, q: Query, markPrivate: bool): RouteResult {
    Resolve(Classify(q, markPrivate), backends, policy)
  }

  // -------------------------------------------------------------------------
  // Privacy
  // -------------------------------------------------------------------------

  /** The table with every external backend taken out. */
  function OnlyLocal(backends: seq<Backend>): seq<Backend> {
    if backends == [] then []
    else
      var n := |backends| - 1;
      OnlyLocal(backends[..n]) + (if backends[n].privacy == Local then [backends[n]] else [])
  }

  lemma GatherSnoc(cq: ClassifiedQuery, backends: seq<Backend>, b: Backend)
    ensures Gather(cq, backends + [b]) == Gather(cq, backends) + (if Eligible(cq, b) then [b] else [])
  {
    assert (backends + [b])[..|backends|] == backends;
  }

  lemma {:induction false} PrivateGathersLocal(q: Query, backends: seq<Backend>)
    ensures Gather(ClassifiedQuery(q, Private), backends)
         == Gather(ClassifiedQuery(q, Shareable), OnlyLocal(backends))
  {
    if backends != [] {
      var n := |backends| - 1;
      var b := backends[n];
      PrivateGathersLocal(q, backends[..n]);
      if b.privacy == Local {
        GatherSnoc(ClassifiedQuery(q, Shareable), OnlyLocal(backends[..n]), b);
      } else {
        assert OnlyLocal(backends) == OnlyLocal(backends[..n]);
      }
    }
  }

  /** PRIVATE ROUTING DOES NOT DEPEND ON EXTERNAL BACKENDS. For every table, query and policy,
      well-behaved or not, a private request is routed exactly as a shareable one would be if the
      external backends were not there. */
  lemma PrivateIndependence(backends: seq<Backend>, policy: Policy, q: Query)
    ensures var private := Route(backends, policy, q, true);
            var without := Route(OnlyLocal(backends), policy, q, false);
            && (private.Routed? <==> without.Routed?)
            && (private.Routed? ==> private.backend == without.backend)
  {
    PrivateGathersLocal(q, backends);
  }

  /** Two tables that differ in external backends only route every private request alike. */
  lemma PrivateNoninterference(b1: seq<Backend>, b2: seq<Backend>, policy: Policy, q: Query)
    requires OnlyLocal(b1) == OnlyLocal(b2)
    ensures Route(b1, policy, q, true) == Route(b2, policy, q, true)
  {
    PrivateGathersLocal(q, b1);
    PrivateGathersLocal(q, b2);
  }

  /** Where candidate `i` stands in the table, and where all the others stand relative to it. */
  lemma {:induction false} CandidatePosition(cq: ClassifiedQuery, backends: seq<Backend>, i: nat) returns (p: nat)
    requires i < |Gather(cq, backends)|
    ensures p < |backends| && backends[p] == Gather(cq, backends)[i] && Eligible(cq, backends[p])
    ensures forall j | 0 <= j < p && Eligible(cq, backends[j]) :: backends[j] in Gather(cq, backends)[..i]
    ensures forall j | p < j < |backends| && Eligible(cq, backends[j]) :: backends[j] in Gather(cq, backends)[i..]
    decreases |backends|
  {
    var n := |backends| - 1;
    var init := backends[..n];
    var items := Gather(cq, init);
    if i < |items| {
      p := CandidatePosition(cq, init, i);
      assert Gather(cq, backends)[..i] == items[..i];
      assert Gather(cq, backends)[i..] == items[i..] + (if Eligible(cq, backends[n]) then [backends[n]] else []);
    } else {
      p := n;
      assert Gather(cq, backends)[..i] == items;
      forall j | 0 <= j < n && Eligible(cq, backends[j]) ensures backends[j] in items {
        EligibleIsCandidate(cq, init, j);
      }
    }
  }

  lemma {:induction false} EligibleIsCandidate(cq: ClassifiedQuery, backends: seq<Backend>, j: nat)
    requires j < |backends| && Eligible(cq, backends[j])
    ensures backends[j] in Gather(cq, backends)
    decreases |backends|
  {
    var n := |backends| - 1;
    if j < n {
      EligibleIsCandidate(cq, backends[..n], j);
    }
  }

  /** Whatever the policy answers, a routed backend is in the table and eligible; a private request
      is never routed to an external one. */
  lemma RoutedIsEligible(backends: seq<Backend>, policy: Policy, q: Query, markPrivate: bool)
    requires Route(backends, policy, q, markPrivate).Routed?
    ensures var b := Route(backends, policy, q, markPrivate).backend;
            && b in backends && Eligible(Classify(q, markPrivate), b)
            && (markPrivate ==> b.privacy == Local)
  {
    var cq := Classify(q, markPrivate);
    var i := policy(Gather(cq, backends)).value;
    var p := CandidatePosition(cq, backends, i);
  }

  /** A policy that answers an index in range whenever there is a candidate. */
  ghost predicate Honest(policy: Policy) {
    forall items ::
      if items == [] then policy(items) == None
      else policy(items).Some? && policy(items).value < |items|
  }

  /** An honest policy routes exactly when some backend is eligible. */
  lemma HonestIsComplete(backends: seq<Backend>, policy: Policy, q: Query, markPrivate: bool)
    requires Honest(policy)
    ensures Route(backends, policy, q, markPrivate).Routed?
       <==> exists j | 0 <= j < |backends| :: Eligible(Classify(q, markPrivate), backends[j])
  {
    var cq := Classify(q, markPrivate);
    var items := Gather(cq, backends);
    if items != [] {
      var p := CandidatePosition(cq, backends, 0);
    }
    if j :| 0 <= j < |backends| && Eligible(cq, backends[j]) {
      EligibleIsCandidate(cq, backends, j);
    }
  }

  // -------------------------------------------------------------------------
  // The two policies
  // -------------------------------------------------------------------------

  function StaticPriority(items: seq<Backend>): Option<nat> {
    if items == [] then None else Some(0)
  }

  /** Static priority takes the first eligible backend of the table. */
  lemma StaticTakesFirst(backends: seq<Backend>, q: Query, markPrivate: bool)
    ensures Honest(StaticPriority)
    ensures Route(backends, StaticPriority, q, markPrivate).Routed? ==>
              exists p | 0 <= p < |backends| ::
                && backends[p] == Route(backends, StaticPriority, q, markPrivate).backend
                && Eligible(Classify(q, markPrivate), backends[p])
                && forall j | 0 <= j < p :: !Eligible(Classify(q, markPrivate), backends[j])
  {
    var cq := Classify(q, markPrivate);
    if Gather(cq, backends) != [] {
      var p := CandidatePosition(cq, backends, 0);
      assert forall j | 0 <= j < p :: !Eligible(cq, backends[j]);
    }
  }

  /** A backend without a sample scores zero. */
  function Score(stats: map<string, real>, b: Backend): real {
    if b.name in stats then stats[b.name] else 0.0
  }

  /** `min_by` over the scores: of equal scores the first wins. */
  function MinIndex(stats: map<string, real>, items: seq<Backend>): nat
    requires items != []
  {
    var n := |items| - 1;
    if n == 0 then 0
    else
      var best := MinIndex(stats, items[..n]);
      if best < n && Score(stats, items[best]) > Score(stats, items[n]) then n else best
  }

  function EwmaChoose(stats: map<string, real>, items: seq<Backend>): Option<nat> {
    if items == [] then None else Some(MinIndex(stats, items))
  }

  /** The first of the candidates with the least score. */
  ghost predicate FirstLeast(stats: map<string, real>, items: seq<Backend>, i: nat) {
    && i < |items|
    && (forall j | 0 <= j < |items| :: Score(stats, items[i]) <= Score(stats, items[j]))
    && (forall j | 0 <= j < i :: Score(stats, items[i]) < Score(stats, items[j]))
  }

  lemma {:induction false} MinIndexIsFirstLeast(stats: map<string, real>, items: seq<Backend>)
    requires items != []
    ensures FirstLeast(stats, items, MinIndex(stats, items))
  {
    var n := |items| - 1;
    if n > 0 {
      MinIndexIsFirstLeast(stats, items[..n]);
      assert forall j | 0 <= j < n :: items[..n][j] == items[j];
    }
  }

  /** `b` at position `p` is the first eligible backend of the table with the least score. */
  ghost predicate BestInTable(stats: map<string, real>, cq: ClassifiedQuery, backends: seq<Backend>, p: nat) {
    && p < |backends| && Eligible(cq, backends[p])
    && (forall j | 0 <= j < |backends| && Eligible(cq, backends[j]) ::
          Score(stats, backends[p]) <= Score(stats, backends[j]))
    && (forall j | 0 <= j < p && Eligible(cq, backends[j]) ::
          Score(stats, backends[p]) < Score(stats, backends[j]))
  }

  lemma EwmaIsHonest(stats: map<string, real>)
    ensures Honest(items => EwmaChoose(stats, items))
  {
    forall items: seq<Backend> | items != [] ensures MinIndex(stats, items) < |items| {
      MinIndexIsFirstLeast(stats, items);
    }
  }

  /** EWMA ROUTING. The latency policy picks, of the eligible backends, the first in configuration
      order with the least score. */
  lemma EwmaRoutesToBest(stats: map<string, real>, backends: seq<Backend>, q: Query, markPrivate: bool)
    returns (p: nat)
    requires Route(backends, items => EwmaChoose(stats, items), q, markPrivate).Routed?
    ensures BestInTable(stats, Classify(q, markPrivate), backends, p)
    ensures Route(backends, items => EwmaChoose(stats, items), q, markPrivate).backend == backends[p]
  {
    var cq := Classify(q, markPrivate);
    var items := Gather(cq, backends);
    var i := MinIndex(stats, items);
    MinIndexIsFirstLeast(stats, items);
    p := CandidatePosition(cq, backends, i);
    forall j | 0 <= j < |backends| && Eligible(cq, backends[j])
      ensures Score(stats, backends[p]) <= Score(stats, backends[j])
    {
      EligibleIsCandidate(cq, backends, j);
    }
    forall j | 0 <= j < p && Eligible(cq, backends[j])
      ensures Score(stats, backends[p]) < Score(stats, backends[j])
    {
      assert backends[j] in items[..i];
    }
  }

  /** With non-negative averages an eligible backend that was never observed forces a zero score. */
  lemma ColdBackendIsProbed(stats: map<string, real>, backends: seq<Backend>, q: Query, markPrivate: bool, cold: nat)
    requires forall name | name in stats :: stats[name] >= 0.0
    requires cold < |backends| && Eligible(Classify(q, markPrivate), backends[cold]) && backends[cold].name !in stats
    ensures var r := Route(backends, items => EwmaChoose(stats, items), q, markPrivate);
            r.Routed? && Score(stats, r.backend) == 0.0
  {
    EwmaIsHonest(stats);
    HonestIsComplete(backends, items => EwmaChoose(stats, items), q, markPrivate);
    var p := EwmaRoutesToBest(stats, backends, q, markPrivate);
  }

  // -------------------------------------------------------------------------
  // Routing in terms of the table's fields
  // -------------------------------------------------------------------------

  /** THE CANDIDATES, field by field: the table filtered by model, by tags and, for a private request
      only, by privacy. A shareable request may go anywhere. */
  lemma {:induction false} CandidatesExactly(q: Query, markPrivate: bool, backends: seq<Backend>)
    ensures Gather(Classify(q, markPrivate), backends)
         == Filter((b: Backend) => && q.model in b.models
                                   && (forall t | t in q.requiredTags :: t in b.tags)
                                   && (markPrivate ==> b.privacy == Local), backends)
  {
    if backends != [] {
      CandidatesExactly(q, markPrivate, backends[..|backends| - 1]);
    }
  }

  /** ROUTING, field by field: the policy is asked about the candidates; an index in range routes to
      that candidate, and anything else is an error that repeats the query. */
  lemma RouteExactly(backends: seq<Backend>, policy: Policy, q: Query, markPrivate: bool)
    ensures var candidates := Filter((b: Backend) => && q.model in b.models
                                                     && (forall t | t in q.requiredTags :: t in b.tags)
                                                     && (markPrivate ==> b.privacy == Local), backends);
            var choice := policy(candidates);
            Route(backends, policy, q, markPrivate)
            == if choice.Some? && choice.value < |candidates| then Routed(candidates[choice.value])
               else NoEligibleBackend(q.model, q.requiredTags, if markPrivate then Private else Shareable)
  {
    CandidatesExactly(q, markPrivate, backends);
  }

  /** An honest policy routes if and only if some backend of the table serves the model, has every
      required tag and, for a private request, is local; and it routes to such a backend. */
  lemma HonestRoutesExactly(backends: seq<Backend>, policy: Policy, q: Query, markPrivate: bool)
    requires Honest(policy)
    ensures Route(backends, policy, q, markPrivate).Routed?
       <==> exists b | b in backends ::
              && q.model in b.models && (forall t | t in q.requiredTags :: t in b.tags)
              && (markPrivate ==> b.privacy == Local)
    ensures Route(backends, policy, q, markPrivate).Routed? ==>
              var b := Route(backends, policy, q, markPrivate).backend;
              && b in backends && q.model in b.models && (forall t | t in q.requiredTags :: t in b.tags)
              && (markPrivate ==> b.privacy == Local)
  {
    HonestIsComplete(backends, policy, q, markPrivate);
    if Route(backends, policy, q, markPrivate).Routed? {
      RoutedIsEligible(backends, policy, q, markPrivate);
    }
    if b :| b in backends && q.model in b.models && (forall t | t in q.requiredTags :: t in b.tags)
            && (markPrivate ==> b.privacy == Local) {
      var j :| 0 <= j < |backends| && backends[j] == b;
      assert Eligible(Classify(q, markPrivate), backends[j]);
    }
  }

  /** The latency policy routes to a backend whose average, zero if it has none, no other backend that
      may serve the request undercuts. */
  lemma EwmaPicksFastest(stats: map<string, real>, backends: seq<Backend>, q: Query, markPrivate: bool, other: Backend)
    requires Route(backends, items => EwmaChoose(stats, items), q, markPrivate).Routed?
    requires other in backends && q.model in other.models && (forall t | t in q.requiredTags :: t in other.tags)
    requires markPrivate ==> other.privacy == Local
    ensures var b := Route(backends, items => EwmaChoose(stats, items), q, markPrivate).backend;
            (if b.name in stats then stats[b.name] else 0.0) <= (if other.name in stats then stats[other.name] else 0.0)
  {
    var p := EwmaRoutesToBest(stats, backends, q, markPrivate);
    var j :| 0 <= j < |backends| && backends[j] == other;
    assert Eligible(Classify(q, markPrivate), backends[j]);
  }

  lemma {:induction false} OnlyLocalExactly(backends: seq<Backend>)
    ensures OnlyLocal(backends) == Filter((b: Backend) => b.privacy == Local, backends)
  {
    if backends != [] {
      OnlyLocalExactly(backends[..|backends| - 1]);
    }
  }
}
