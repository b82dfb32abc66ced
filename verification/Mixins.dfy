/** Sampling decoys for a ring: distinct ledger indices outside an excluded list. */
module Mixins {

  datatype Sample =
    | Sampled(indices: set<nat>)
    | OutOfDraws
    | InvalidArgument
    | InsufficientTxOuts

  function Below(n: nat): (r: set<nat>)
    ensures forall i: nat :: i in r <==> i < n
    ensures |r| == n
  {
    if n == 0 then {} else Below(n - 1) + {n - 1}
  }

  function Elements(xs: seq<nat>): set<nat> {
    set x | x in xs
  }

  lemma {:induction false} ElementsSize(xs: seq<nat>)
    ensures |Elements(xs)| <= |xs|
  {
    if xs != [] {
      var init := xs[..|xs| - 1];
      ElementsSize(init);
      assert xs == init + [xs[|xs| - 1]];
      assert Elements(xs) == Elements(init) + {xs[|xs| - 1]};
    }
  }

  lemma {:induction false} SubsetSize(s: set<nat>, t: set<nat>)
    requires s <= t
    ensures |s| <= |t|
  {
    if s != {} {
      var x :| x in s;
      SubsetSize(s - {x}, t - {x});
    }
  }

  /** An index that may be sampled. */
  predicate Allowed(i: nat, numTxos: nat, excluded: seq<nat>) {
    i < numTxos && i !in excluded
  }

  /** As long as fewer indices are sampled than the size check admits, some allowed index is still unsampled. */
  lemma SomeIndexIsLeft(numTxos: nat, excluded: seq<nat>, sampled: set<nat>)
    requires |sampled| + |excluded| < numTxos
    ensures exists i :: Allowed(i, numTxos, excluded) && i !in sampled
  {
    var taken := Elements(excluded) + sampled;
    ElementsSize(excluded);
    assert |taken| <= |Elements(excluded)| + |sampled|;
    if Below(numTxos) <= taken {
      SubsetSize(Below(numTxos), taken);
    }
    var i :| i in Below(numTxos) && i !in taken;
    assert Allowed(i, numTxos, excluded);
  }

  /**
   Draw indices until enough distinct allowed ones are found. `draws` are the results of the random
   generator. Duplicate and out-of-range exclusions are harmless; running out of draws means that some
   allowed index was never drawn, so a generator that draws every index cannot fail.
   */
  method SampleMixins(numTxos: nat, numMixins: nat, excluded: seq<nat>, draws: seq<nat>) returns (r: Sample)
    requires forall d :: d in draws ==> d < numTxos
    ensures r.InvalidArgument? <==> |excluded| > numTxos
    ensures r.InsufficientTxOuts? <==> |excluded| <= numTxos && numMixins > numTxos - |excluded|
    ensures r.Sampled? ==> |r.indices| == numMixins && forall i :: i in r.indices ==> Allowed(i, numTxos, excluded) && i in draws
    ensures r.OutOfDraws? ==> exists i :: Allowed(i, numTxos, excluded) && i !in draws
  {
    if |excluded| > numTxos {
      return InvalidArgument;
    }
    if numMixins > numTxos - |excluded| {
      return InsufficientTxOuts;
    }
    var sampled: set<nat> := {};
    var next := 0;
    while |sampled| < numMixins
      invariant next <= |draws| && |sampled| <= numMixins
      invariant forall i :: i in sampled <==> i in draws[..next] && Allowed(i, numTxos, excluded)
      decreases |draws| - next
    {
      SomeIndexIsLeft(numTxos, excluded, sampled);
      if next == |draws| {
        assert draws[..next] == draws;
        return OutOfDraws;
      }
      var index := draws[next];
      assert draws[..next + 1] == draws[..next] + [index];
      assert index in draws && forall i :: i in draws[..next + 1] <==> i in draws[..next] || i == index;
      next := next + 1;
      if index in excluded {
        continue;
      }
      sampled := sampled + {index};
    }
    return Sampled(sampled);
  }
}
