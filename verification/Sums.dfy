/** Sums of sequences of numbers, for the potentials and counts of the other modules. */
module Sums {

  function Sum(f: seq<nat>): nat {
    if f == [] then 0 else Sum(f[..|f| - 1]) + f[|f| - 1]
  }

  lemma {:induction false} SumConcat(f: seq<nat>, g: seq<nat>)
    ensures Sum(f + g) == Sum(f) + Sum(g)
    decreases |g|
  {
    if g == [] {
      assert f + g == f;
    } else {
      SumConcat(f, g[..|g| - 1]);
      assert (f + g)[..|f + g| - 1] == f + g[..|g| - 1];
    }
  }

  lemma SumHead(f: seq<nat>)
    requires f != []
    ensures Sum(f) == f[0] + Sum(f[1..])
  {
    assert f == [f[0]] + f[1..];
    SumConcat([f[0]], f[1..]);
    assert [f[0]][..0] == [];
  }

  lemma {:induction false} SumAtLeast(f: seq<nat>, k: nat)
    requires k < |f|
    ensures Sum(f) >= f[k]
    decreases |f|
  {
    if k < |f| - 1 {
      SumAtLeast(f[..|f| - 1], k);
    }
  }

  lemma {:induction false} SumUpdate(w: seq<nat>, i: nat, x: nat)
    requires i < |w|
    ensures Sum(w[i := x]) == Sum(w) - w[i] + x
    decreases |w|
  {
    var last := |w| - 1;
    if i == last {
      assert w[i := x][..last] == w[..last];
    } else {
      SumUpdate(w[..last], i, x);
      assert w[i := x][..last] == w[..last][i := x];
    }
  }

  lemma {:induction false} SumMonotone(v: seq<nat>, w: seq<nat>)
    requires |v| == |w| && forall i :: 0 <= i < |v| ==> v[i] <= w[i]
    ensures Sum(v) <= Sum(w)
    ensures (exists i :: 0 <= i < |v| && v[i] < w[i]) ==> Sum(v) < Sum(w)
    decreases |v|
  {
    if v != [] {
      var last := |v| - 1;
      SumMonotone(v[..last], w[..last]);
      if i :| 0 <= i < |v| && v[i] < w[i] {
        if i < last { assert v[..last][i] < w[..last][i]; }
      }
    }
  }

  lemma {:induction false} SumAdds(w: seq<nat>, v: seq<nat>, z: seq<nat>)
    requires |w| == |v| == |z| && forall i :: 0 <= i < |w| ==> w[i] == v[i] + z[i]
    ensures Sum(w) == Sum(v) + Sum(z)
    decreases |w|
  {
    if w != [] {
      SumAdds(w[..|w| - 1], v[..|w| - 1], z[..|w| - 1]);
    }
  }

  lemma {:induction false} SumOfChosen(w: seq<nat>, chosen: set<int>, x: nat)
    requires forall i :: i in chosen ==> 0 <= i < |w|
    requires forall i :: 0 <= i < |w| ==> w[i] <= if i in chosen then x else 0
    ensures Sum(w) <= |chosen| * x
    decreases |w|
  {
    if w != [] {
      var last := |w| - 1;
      SumOfChosen(w[..last], chosen - {last}, x);
      if last in chosen {
        OneMore(|chosen|, |chosen - {last}|, x);
      } else {
        assert chosen - {last} == chosen;
      }
    } else if i :| i in chosen {
      assert false;
    }
  }

  lemma OneMore(a: nat, b: nat, x: nat)
    requires a == b + 1
    ensures a * x == b * x + x
  {
  }
}
