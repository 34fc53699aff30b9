/** Totals over the values of a finite map. */
module MapSum {
  import opened Prelude

  ghost function Sum(m: map<Address, nat>): nat
    decreases m.Keys
  {
    if m.Keys == {} then 0
    else
      var k :| k in m;
      m[k] + Sum(m - {k})
  }

  /** Any key can be taken out first. */
  lemma {:induction false} SumExtract(m: map<Address, nat>, k: Address)
    requires k in m
    ensures Sum(m) == m[k] + Sum(m - {k})
    decreases m.Keys
  {
    assert exists j :: j in m && Sum(m) == m[j] + Sum(m - {j});
    var j :| j in m && Sum(m) == m[j] + Sum(m - {j});
    if j != k {
      SumExtract(m - {j}, k);
      SumExtract(m - {k}, j);
      assert m - {j} - {k} == m - {k} - {j};
    }
  }

  lemma {:induction false} SumPut(m: map<Address, nat>, k: Address, v: nat)
    ensures Sum(m[k := v]) + (if k in m then m[k] else 0) == Sum(m) + v
  {
    SumExtract(m[k := v], k);
    assert m[k := v] - {k} == m - {k};
    if k in m {
      SumExtract(m, k);
    } else {
      assert m - {k} == m;
    }
  }

  lemma {:induction false} SumMember(m: map<Address, nat>, k: Address)
    requires k in m
    ensures m[k] <= Sum(m)
  {
    SumExtract(m, k);
  }

  /** Summing is linear. */
  lemma {:induction false} SumLinear(m: map<Address, nat>, a: map<Address, nat>, b: map<Address, nat>, x: nat)
    requires m.Keys == a.Keys == b.Keys
    requires forall k | k in m :: m[k] == a[k] + b[k] * x
    ensures Sum(m) == Sum(a) + Sum(b) * x
    decreases m.Keys
  {
    if m.Keys != {} {
      var k :| k in m;
      SumExtract(m, k);
      SumExtract(a, k);
      SumExtract(b, k);
      SumLinear(m - {k}, a - {k}, b - {k}, x);
      assert (b[k] + Sum(b - {k})) * x == b[k] * x + Sum(b - {k}) * x;
    }
  }

  lemma {:induction false} SumAdd(m: map<Address, nat>, a: map<Address, nat>, b: map<Address, nat>)
    requires m.Keys == a.Keys == b.Keys
    requires forall k | k in m :: m[k] == a[k] + b[k]
    ensures Sum(m) == Sum(a) + Sum(b)
  {
    SumLinear(m, a, b, 1);
  }

  /** A pointwise bound by a combination of two maps bounds the total. */
  lemma {:induction false} SumAtMost(m: map<Address, nat>, a: map<Address, nat>, x: nat, b: map<Address, nat>, y: nat)
    requires m.Keys == a.Keys == b.Keys
    requires forall k | k in m :: m[k] <= a[k] * x + b[k] * y
    ensures Sum(m) <= Sum(a) * x + Sum(b) * y
    decreases m.Keys
  {
    if m.Keys != {} {
      var k :| k in m;
      SumExtract(m, k);
      SumExtract(a, k);
      SumExtract(b, k);
      SumAtMost(m - {k}, a - {k}, x, b - {k}, y);
      assert (a[k] + Sum(a - {k})) * x == a[k] * x + Sum(a - {k}) * x;
      assert (b[k] + Sum(b - {k})) * y == b[k] * y + Sum(b - {k}) * y;
    }
  }

  /** A pointwise lower bound by a multiple of a map. */
  lemma {:induction false} SumAtLeast(m: map<Address, nat>, a: map<Address, nat>, x: nat)
    requires m.Keys == a.Keys
    requires forall k | k in m :: a[k] * x <= m[k]
    ensures Sum(a) * x <= Sum(m)
    decreases m.Keys
  {
    if m.Keys != {} {
      var k :| k in m;
      SumExtract(m, k);
      SumExtract(a, k);
      SumAtLeast(m - {k}, a - {k}, x);
      assert (a[k] + Sum(a - {k})) * x == a[k] * x + Sum(a - {k}) * x;
    }
  }
}
