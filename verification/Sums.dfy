/** Sums of real sequences and of the values of a map. */
module Sums {

  function Sum(xs: seq<real>): real
  {
    if xs == [] then 0.0 else Sum(xs[..|xs| - 1]) + xs[|xs| - 1]
  }

  function Abs(x: real): (r: real)
    ensures r >= 0.0
  {
    if x < 0.0 then -x else x
  }

  lemma {:induction false} SumSnoc(xs: seq<real>, x: real)
    ensures Sum(xs + [x]) == Sum(xs) + x
  {
  }

  lemma {:induction false} SumMonotone(us: seq<real>, vs: seq<real>)
    requires |us| == |vs|
    requires forall i :: 0 <= i < |us| ==> us[i] <= vs[i]
    ensures Sum(us) <= Sum(vs)
  {
    if us != [] {
      SumMonotone(us[..|us| - 1], vs[..|vs| - 1]);
    }
  }

  /** A gap at one position is a gap between the sums. */
  lemma {:induction false} SumGap(us: seq<real>, vs: seq<real>, j: nat)
    requires |us| == |vs| && j < |us|
    requires forall i :: 0 <= i < |us| ==> us[i] <= vs[i]
    ensures Sum(us) + (vs[j] - us[j]) <= Sum(vs)
  {
    var n := |us| - 1;
    if j < n {
      SumGap(us[..n], vs[..n], j);
    } else {
      SumMonotone(us[..n], vs[..n]);
    }
  }

  lemma {:induction false} SumLinear(us: seq<real>, vs: seq<real>, t: real, ys: seq<real>)
    requires |us| == |vs| == |ys|
    requires forall i :: 0 <= i < |us| ==> ys[i] == us[i] + t * vs[i]
    ensures Sum(ys) == Sum(us) + t * Sum(vs)
  {
    if us != [] {
      var n := |us| - 1;
      SumLinear(us[..n], vs[..n], t, ys[..n]);
      assert t * (Sum(vs[..n]) + vs[n]) == t * Sum(vs[..n]) + t * vs[n];
    }
  }

  /** c added n times. */
  function Times(n: nat, c: real): real
  {
    if n == 0 then 0.0 else Times(n - 1, c) + c
  }

  lemma OneMore(n: nat, c: real)
    ensures (n + 1) as real * c == n as real * c + c
  {
  }

  lemma {:induction false} TimesIsProduct(n: nat, c: real)
    ensures Times(n, c) == n as real * c
  {
    if n > 0 {
      TimesIsProduct(n - 1, c);
      OneMore(n - 1, c);
    }
  }

  lemma {:induction false} TimesNegated(n: nat, c: real)
    ensures Times(n, -c) == -Times(n, c)
  {
    if n > 0 {
      TimesNegated(n - 1, c);
    }
  }

  lemma {:induction false} SumConstant(us: seq<real>, c: real)
    requires forall i :: 0 <= i < |us| ==> us[i] == c
    ensures Sum(us) == Times(|us|, c)
  {
    if us != [] {
      SumConstant(us[..|us| - 1], c);
    }
  }

  lemma {:induction false} SumZeros(us: seq<real>)
    requires forall i :: 0 <= i < |us| ==> us[i] == 0.0
    ensures Sum(us) == 0.0
  {
    if us != [] {
      SumZeros(us[..|us| - 1]);
    }
  }

  /** Sum of the values of a dictionary, in whatever order they are added. */
  ghost function SumOf<K>(m: map<K, real>): real
  {
    if m == map[] then 0.0
    else
      var k :| k in m;
      m[k] + SumOf(m - {k})
  }

  lemma {:induction false} SumOfRemove<K>(m: map<K, real>, k: K)
    requires k in m
    ensures SumOf(m) == m[k] + SumOf(m - {k})
    decreases |m|
  {
    var p :| p in m && SumOf(m) == m[p] + SumOf(m - {p});
    if p != k {
      SumOfRemove(m - {p}, k);
      SumOfRemove(m - {k}, p);
      assert (m - {p}) - {k} == (m - {k}) - {p};
    }
  }

  /** Shifting every value by c moves the sum by c per key. */
  lemma {:induction false} SumOfShift<K>(m: map<K, real>, c: real, m': map<K, real>, keys: set<K>)
    requires m'.Keys == m.Keys == keys
    requires forall k :: k in keys ==> m'[k] == m[k] + c
    ensures SumOf(m') == SumOf(m) + Times(|keys|, c)
    decreases |keys|
  {
    if keys == {} {
      assert m == map[];
      assert m' == map[];
    } else {
      var k :| k in keys;
      SumOfRemove(m, k);
      SumOfRemove(m', k);
      SumOfShift(m - {k}, c, m' - {k}, keys - {k});
      assert |keys| == |keys - {k}| + 1;
    }
  }

  lemma {:induction false} SumOfMonotone<K>(m: map<K, real>, m': map<K, real>)
    requires m.Keys <= m'.Keys
    requires forall k :: k in m ==> m[k] <= m'[k]
    requires forall k :: k in m' && k !in m ==> m'[k] >= 0.0
    ensures SumOf(m) <= SumOf(m')
    decreases |m'|
  {
    if m' == map[] {
      assert m == map[];
    } else {
      var k :| k in m';
      SumOfRemove(m', k);
      if k in m {
        SumOfRemove(m, k);
        SumOfMonotone(m - {k}, m' - {k});
      } else {
        SumOfMonotone(m, m' - {k});
      }
    }
  }
}
