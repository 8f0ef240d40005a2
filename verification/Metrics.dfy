/** Labelled counters (src/metrics.rs): five families of 64-bit counters keyed by label strings. */
module Metrics {
  import opened Prelude

  /** The stored value, zero if the counter does not exist. */
  function Stored(m: map<string, u64>, labels: string): u64 {
    if labels in m then m[labels] else 0
  }

  /** Get or create, then fetch-add. */
  function Bump(m: map<string, u64>, labels: string, n: u64): map<string, u64> {
    m[labels := WrapAdd(Stored(m, labels), n)]
  }

  // -------------------------------------------------------------------------
  // Sorted snapshots
  // -------------------------------------------------------------------------

  datatype Pair = Pair(labels: string, value: u64)

  /** Strings in lexicographic order of their characters. */
  predicate Before(a: string, b: string) {
    if b == "" then false
    else if a == "" then true
    else a[0] < b[0] || (a[0] == b[0] && Before(a[1..], b[1..]))
  }

  lemma {:induction false} BeforeTotal(a: string, b: string)
    ensures a == b || Before(a, b) || Before(b, a)
    ensures !(Before(a, b) && Before(b, a)) && !Before(a, a)
  {
    if a != "" {
      BeforeTotal(a[1..], a[1..]);
      if b != "" && a[0] == b[0] {
        BeforeTotal(a[1..], b[1..]);
        if a[1..] == b[1..] {
          assert a == [a[0]] + a[1..] == b;
        }
      }
    }
  }

  lemma {:induction false} BeforeTransitive(a: string, b: string, c: string)
    requires Before(a, b) && Before(b, c)
    ensures Before(a, c)
  {
    if a != "" && a[0] == b[0] == c[0] {
      BeforeTransitive(a[1..], b[1..], c[1..]);
    }
  }

  ghost predicate Sorted(ps: seq<Pair>) {
    forall i, j | 0 <= i < j < |ps| :: Before(ps[i].labels, ps[j].labels)
  }

  /** `ps` lists every counter of `m` once, in label order. */
  ghost predicate IsSnapshot(m: map<string, u64>, ps: seq<Pair>) {
    Sorted(ps) && forall p: Pair :: p in ps <==> p.labels in m && m[p.labels] == p.value
  }

  /** The library sort, by label. */
  function InsertPair(ps: seq<Pair>, p: Pair): seq<Pair> {
    if ps == [] then [p]
    else if Before(p.labels, ps[0].labels) then [p] + ps
    else [ps[0]] + InsertPair(ps[1..], p)
  }

  function SortPairs(ps: seq<Pair>): seq<Pair> {
    if ps == [] then [] else InsertPair(SortPairs(ps[1..]), ps[0])
  }

  lemma {:induction false} InsertKeeps(ps: seq<Pair>, p: Pair)
    ensures forall q: Pair :: q in InsertPair(ps, p) <==> q == p || q in ps
  {
    if ps != [] && !Before(p.labels, ps[0].labels) {
      InsertKeeps(ps[1..], p);
      assert ps == [ps[0]] + ps[1..];
    }
  }

  lemma SortedCons(p: Pair, ps: seq<Pair>)
    requires Sorted(ps) && forall q | q in ps :: Before(p.labels, q.labels)
    ensures Sorted([p] + ps)
  {
    var all := [p] + ps;
    forall i, j | 0 <= i < j < |all| ensures Before(all[i].labels, all[j].labels) {
      assert all[j] == ps[j - 1];
      if i > 0 {
        assert all[i] == ps[i - 1];
      }
    }
  }

  lemma {:induction false} InsertSorts(ps: seq<Pair>, p: Pair)
    requires Sorted(ps) && forall q | q in ps :: q.labels != p.labels
    ensures Sorted(InsertPair(ps, p))
  {
    if ps != [] {
      BeforeTotal(p.labels, ps[0].labels);
      if Before(p.labels, ps[0].labels) {
        forall q | q in ps ensures Before(p.labels, q.labels) {
          if q != ps[0] {
            BeforeTransitive(p.labels, ps[0].labels, q.labels);
          }
        }
        SortedCons(p, ps);
      } else {
        InsertSorts(ps[1..], p);
        InsertKeeps(ps[1..], p);
        SortedCons(ps[0], InsertPair(ps[1..], p));
      }
    }
  }

  lemma {:induction false} SortPairsSorts(ps: seq<Pair>)
    requires forall i, j | 0 <= i < j < |ps| :: ps[i].labels != ps[j].labels
    ensures Sorted(SortPairs(ps)) && forall q: Pair :: q in SortPairs(ps) <==> q in ps
  {
    if ps != [] {
      SortPairsSorts(ps[1..]);
      InsertKeeps(SortPairs(ps[1..]), ps[0]);
      InsertSorts(SortPairs(ps[1..]), ps[0]);
      assert ps == [ps[0]] + ps[1..];
    }
  }

  /** CANONICAL. Whatever order the hash map is iterated in, there is one sorted snapshot. */
  lemma {:induction false} SnapshotUnique(m: map<string, u64>, ps: seq<Pair>, qs: seq<Pair>)
    requires IsSnapshot(m, ps) && IsSnapshot(m, qs)
    ensures ps == qs
    decreases |ps|
  {
    BothEmpty(ps, qs);
    if ps != [] {
      assert ps[0] in qs && qs[0] in ps;
      SmallestFirst(ps, qs);
      var m' := m - {ps[0].labels};
      TailSnapshot(m, ps);
      TailSnapshot(m, qs);
      SnapshotUnique(m', ps[1..], qs[1..]);
      assert ps == [ps[0]] + ps[1..] == qs;
    }
  }

  lemma BothEmpty(ps: seq<Pair>, qs: seq<Pair>)
    requires forall p: Pair :: p in ps <==> p in qs
    ensures ps == [] <==> qs == []
  {
    assert ps != [] ==> ps[0] in qs;
    assert qs != [] ==> qs[0] in ps;
  }

  lemma SmallestFirst(ps: seq<Pair>, qs: seq<Pair>)
    requires ps != [] && qs != [] && Sorted(ps) && Sorted(qs)
    requires ps[0] in qs && qs[0] in ps
    ensures ps[0] == qs[0]
  {
    BeforeTotal(ps[0].labels, qs[0].labels);
  }

  lemma TailSnapshot(m: map<string, u64>, ps: seq<Pair>)
    requires IsSnapshot(m, ps) && ps != []
    ensures IsSnapshot(m - {ps[0].labels}, ps[1..])
  {
    var m' := m - {ps[0].labels};
    forall p: Pair ensures p in ps[1..] <==> p.labels in m' && m'[p.labels] == p.value {
      assert ps == [ps[0]] + ps[1..];
      assert p in ps <==> p == ps[0] || p in ps[1..];
      if p in ps[1..] {
        var i :| 0 <= i < |ps[1..]| && ps[1..][i] == p;
        assert Before(ps[0].labels, ps[i + 1].labels);
        BeforeTotal(p.labels, p.labels);
      }
    }
  }

  class LabeledCounters {
    var inner: map<string, u64>

    constructor ()
      ensures inner == map[]
    {
      inner := map[];
    }

    method GetOrCreate(labels: string)
      modifies this
      ensures inner == old(inner)[labels := Stored(old(inner), labels)]
    {
      if labels in inner {
        return;
      }
      inner := inner[labels := 0];
    }

    method Add(labels: string, n: u64)
      modifies this
      ensures inner == Bump(old(inner), labels, n)
    {
      GetOrCreate(labels);
      inner := inner[labels := WrapAdd(inner[labels], n)];
    }

    method Inc(labels: string)
      modifies this
      ensures inner == Bump(old(inner), labels, 1)
    {
      Add(labels, 1);
    }

    method Snapshot() returns (ps: seq<Pair>)
      ensures IsSnapshot(inner, ps)
    {
      var listed: seq<Pair> := [];
      var left := inner.Keys;
      while left != {}
        invariant left <= inner.Keys
        invariant forall i, j | 0 <= i < j < |listed| :: listed[i].labels != listed[j].labels
        invariant forall p: Pair :: p in listed <==> p.labels in inner.Keys - left && inner[p.labels] == p.value
        decreases left
      {
        var k :| k in left;
        listed := listed + [Pair(k, inner[k])];
        left := left - {k};
      }
      SortPairsSorts(listed);
      ps := SortPairs(listed);
    }
  }

  /** THE ORDER of the printed labels: at the first character where two strings differ the smaller one
      comes first, and a string comes before those it begins. */
  lemma {:induction false} BeforeExactly(a: string, b: string)
    ensures Before(a, b)
       <==> || (a <= b && a != b)
            || exists i | 0 <= i < |a| && i < |b| :: a[..i] == b[..i] && a[i] < b[i]
  {
    if a != "" && b != "" && a[0] == b[0] {
      var a', b' := a[1..], b[1..];
      BeforeExactly(a', b');
      assert a == [a[0]] + a' && b == [a[0]] + b';
      if i :| 0 <= i < |a| && i < |b| && a[..i] == b[..i] && a[i] < b[i] {
        assert a'[..i - 1] == a[..i][1..] && b'[..i - 1] == b[..i][1..];
        assert a'[i - 1] < b'[i - 1];
      }
      if i :| 0 <= i < |a'| && i < |b'| && a'[..i] == b'[..i] && a'[i] < b'[i] {
        assert a[..i + 1] == [a[0]] + a'[..i] && b[..i + 1] == [a[0]] + b'[..i];
        assert a[i + 1] < b[i + 1];
      }
    } else if a != "" && b != "" {
      assert a[0] < b[0] ==> a[..0] == b[..0];
    }
  }
}
