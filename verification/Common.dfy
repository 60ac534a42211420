/** Shared vocabulary: optional values, results of calls that may fail, and sums over finite maps. */
module Common {

  datatype Option<+T> = None | Some(value: T)

  datatype Result<+T, +E> = Ok(value: T) | Err(error: E)

  // ----- Sums over a map -----

  ghost function SumOf<K>(m: map<K, nat>): nat {
    if m == map[] then 0
    else
      var k :| k in m;
      m[k] + SumOf(m - {k})
  }

  lemma {:induction false} SumWithout<K>(m: map<K, nat>, k: K)
    requires k in m
    ensures SumOf(m) == m[k] + SumOf(m - {k})
    decreases |m|
  {
    var j :| j in m && SumOf(m) == m[j] + SumOf(m - {j});
    if j != k {
      SumWithout(m - {j}, k);
      SumWithout(m - {k}, j);
      assert m - {j} - {k} == m - {k} - {j};
    }
  }

  lemma SumWith<K>(m: map<K, nat>, k: K, n: nat)
    requires k !in m
    ensures SumOf(m[k := n]) == SumOf(m) + n
  {
    SumWithout(m[k := n], k);
    assert m[k := n] - {k} == m;
  }

  lemma EmptySum<K>()
    ensures SumOf<K>(map[]) == 0
  {
  }

  // ----- Counting -----

  /** Counting a part of a set tells whether it is all of it. */
  lemma {:induction false} CountDecides<T>(part: set<T>, all: set<T>)
    requires part <= all
    ensures |part| <= |all| && (|part| == |all| <==> part == all)
    decreases |all|
  {
    if part != {} {
      var x :| x in part;
      CountDecides(part - {x}, all - {x});
      assert part == (part - {x}) + {x} && all == (all - {x}) + {x};
    }
  }

  // ----- Fractions -----

  lemma TimesAtMost(a: real, b: real, s: real)
    requires a <= b && s >= 0.0
    ensures a * s <= b * s
  {
  }

}
