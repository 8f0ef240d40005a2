/** Types shared by every component: options, 64-bit counters, bytes and token usage. */
module Prelude {
  datatype Option<+T> = None | Some(value: T)

  const U64_MODULUS := 0x1_0000_0000_0000_0000

  type u64 = x: int | 0 <= x < U64_MODULUS

  /** What `AtomicU64::fetch_add` leaves behind: addition wraps around. */
  function WrapAdd(a: u64, b: u64): u64 {
    (a + b) % U64_MODULUS
  }

  type byte = x: int | 0 <= x < 256

  type bytes = seq<byte>

  /** Token usage as reported by an upstream. */
  datatype Usage = Usage(prompt: u64, completion: u64, total: u64)

  /** The three counted dimensions of a usage record. */
  datatype Kind = Prompt | Completion | Total

  function Amount(u: Usage, kind: Kind): u64 {
    match kind
    case Prompt => u.prompt
    case Completion => u.completion
    case Total => u.total
  }

  /** All the pieces of a sequence of pieces, in order. */
  function Concat<T>(pieces: seq<seq<T>>): seq<T> {
    if pieces == [] then [] else Concat(pieces[..|pieces| - 1]) + pieces[|pieces| - 1]
  }

  lemma Associate<T>(a: seq<T>, b: seq<T>, c: seq<T>)
    ensures a + b + c == a + (b + c)
  {
  }

  /** Wrapping twice is wrapping once. */
  lemma WrapCongruence(a: int, b: int)
    ensures (a % U64_MODULUS + b) % U64_MODULUS == (a + b) % U64_MODULUS
  {
    var q := a / U64_MODULUS;
    assert a == q * U64_MODULUS + a % U64_MODULUS;
  }

  function Fold<S, E>(step: (S, E) -> S, s: S, es: seq<E>): S {
    if es == [] then s else step(Fold(step, s, es[..|es| - 1]), es[|es| - 1])
  }

  lemma FoldSnoc<S, E>(step: (S, E) -> S, s: S, es: seq<E>, e: E)
    ensures Fold(step, s, es + [e]) == step(Fold(step, s, es), e)
  {
    assert (es + [e])[..|es|] == es;
  }

  lemma {:induction false} FoldConcat<S, E>(step: (S, E) -> S, s: S, a: seq<E>, b: seq<E>)
    ensures Fold(step, s, a + b) == Fold(step, Fold(step, s, a), b)
  {
    if b == [] {
      assert a + b == a;
    } else {
      var n := |b| - 1;
      FoldConcat(step, s, a, b[..n]);
      assert (a + b)[..|a + b| - 1] == a + b[..n];
    }
  }

  function Repeat<T>(x: T, n: nat): seq<T> {
    if n == 0 then [] else Repeat(x, n - 1) + [x]
  }

  /** The same step `n` times. */
  function Iterate<S, E>(step: (S, E) -> S, s: S, e: E, n: nat): S {
    if n == 0 then s else step(Iterate(step, s, e, n - 1), e)
  }

  lemma {:induction false} FoldRepeat<S, E>(step: (S, E) -> S, s: S, e: E, n: nat)
    ensures Iterate(step, s, e, n) == Fold(step, s, Repeat(e, n))
  {
    if n > 0 {
      FoldRepeat(step, s, e, n - 1);
      FoldSnoc(step, s, Repeat(e, n - 1), e);
    }
  }

  /** The elements that `keep` keeps, in order. */
  function Filter<T>(keep: T -> bool, xs: seq<T>): seq<T> {
    if xs == [] then []
    else
      var n := |xs| - 1;
      Filter(keep, xs[..n]) + (if keep(xs[n]) then [xs[n]] else [])
  }

  lemma {:induction false} SameFilter<T>(keep1: T -> bool, keep2: T -> bool, xs: seq<T>)
    requires forall x | x in xs :: keep1(x) == keep2(x)
    ensures Filter(keep1, xs) == Filter(keep2, xs)
  {
    if xs != [] {
      SameFilter(keep1, keep2, xs[..|xs| - 1]);
    }
  }

  function TotalOf<E>(weight: E -> nat, es: seq<E>): nat {
    if es == [] then 0 else TotalOf(weight, es[..|es| - 1]) + weight(es[|es| - 1])
  }

  /** Every step adds its element's weight to the measure, modulo 2^64. */
  ghost predicate AddsWeight<S(!new), E(!new)>(step: (S, E) -> S, measure: S -> u64, weight: E -> nat) {
    forall t, e :: measure(step(t, e)) == (measure(t) + weight(e)) % U64_MODULUS
  }

  /** If every step adds its element's weight, all of them add the total weight; modulo 2^64. */
  lemma {:induction false} FoldTotal<S(!new), E(!new)>(step: (S, E) -> S, s: S, es: seq<E>, measure: S -> u64, weight: E -> nat)
    requires AddsWeight(step, measure, weight)
    ensures measure(Fold(step, s, es)) == (measure(s) + TotalOf(weight, es)) % U64_MODULUS
  {
    if es != [] {
      var n := |es| - 1;
      FoldTotal(step, s, es[..n], measure, weight);
      WrapCongruence(measure(s) + TotalOf(weight, es[..n]), weight(es[n]));
    }
  }

  function Without<E>(es: seq<E>, i: nat): seq<E>
    requires i < |es|
  {
    es[..i] + es[i + 1..]
  }

  /** If steps commute, any element may as well have come last. */
  lemma {:induction false} FoldMoveLast<S, E>(step: (S, E) -> S, s: S, es: seq<E>, i: nat)
    requires i < |es|
    requires forall t, x, y :: step(step(t, x), y) == step(step(t, y), x)
    ensures Fold(step, s, es) == step(Fold(step, s, Without(es, i)), es[i])
    decreases |es|
  {
    var n := |es| - 1;
    if i == n {
      assert Without(es, i) == es[..n];
    } else {
      FoldMoveLast(step, s, es[..n], i);
      assert Without(es, i) == Without(es[..n], i) + [es[n]];
      FoldSnoc(step, s, Without(es[..n], i), es[n]);
    }
  }

  /** A permutation of `es` stays one when its last element is taken out of both. */
  lemma TakeLast<E>(es: seq<E>, perm: seq<E>) returns (i: nat)
    requires multiset(es) == multiset(perm) && es != []
    ensures i < |perm| && perm[i] == es[|es| - 1]
    ensures multiset(Without(perm, i)) == multiset(es[..|es| - 1])
  {
    var n := |es| - 1;
    var e := es[n];
    assert es == es[..n] + [e];
    assert e in multiset(perm);
    i :| 0 <= i < |perm| && perm[i] == e;
    assert perm == perm[..i] + [e] + perm[i + 1..];
    assert multiset(Without(perm, i)) == multiset(perm) - multiset{e} == multiset(es[..n]);
  }

  lemma {:induction false} FoldOrderIrrelevant<S, E>(step: (S, E) -> S, s: S, es1: seq<E>, es2: seq<E>)
    requires forall t, x, y :: step(step(t, x), y) == step(step(t, y), x)
    requires multiset(es1) == multiset(es2)
    ensures Fold(step, s, es1) == Fold(step, s, es2)
    decreases |es1|
  {
    if es1 == [] {
      assert |multiset(es2)| == 0;
    } else {
      var i := TakeLast(es1, es2);
      FoldOrderIrrelevant(step, s, es1[..|es1| - 1], Without(es2, i));
      FoldMoveLast(step, s, es2, i);
    }
  }
}
