/**
 Coin selection: listing the spendable coins of an account, the most that fits in one
 transaction, and the window of coins that is spent.
 */
module CoinSelection {
  import opened Schema

  const MAX_INPUTS: nat := 16

  /** A spendable txo as the query returns it, with its value column as stored. */
  datatype Coin = Coin(id: TxoId, value: i64)

  datatype SelectionError =
    | NoSpendableTxos
    | InsufficientFundsFragmentedTxos
    | InsufficientFundsUnderMaxSpendable
    | InsufficientFunds

  datatype Selection = Selected(coins: seq<Coin>) | Rejected(error: SelectionError)

  datatype Spendable = Spendable(coins: seq<Coin>, maxSpendable: nat)

  function Value(c: Coin): u64 {
    AsU64(c.value)
  }

  function Min(a: nat, b: nat): nat {
    if a < b then a else b
  }

  // ----- Sums -----

  /** The total value of cs[lo..hi]. */
  function SumRange(cs: seq<Coin>, lo: nat, hi: nat): nat
    requires lo <= hi <= |cs|
    decreases hi
  {
    if lo == hi then 0 else SumRange(cs, lo, hi - 1) + Value(cs[hi - 1])
  }

  function Sum(cs: seq<Coin>): nat {
    SumRange(cs, 0, |cs|)
  }

  lemma {:induction false} SumDropFirst(cs: seq<Coin>, lo: nat, hi: nat)
    requires lo < hi <= |cs|
    ensures SumRange(cs, lo, hi) == Value(cs[lo]) + SumRange(cs, lo + 1, hi)
    decreases hi
  {
    if lo + 1 < hi {
      SumDropFirst(cs, lo, hi - 1);
    }
  }

  lemma {:induction false} SumOfSlice(cs: seq<Coin>, ds: seq<Coin>, lo: nat, hi: nat)
    requires lo <= hi <= |cs| && |ds| >= hi - lo
    requires forall i :: 0 <= i < hi - lo ==> ds[i] == cs[lo + i]
    ensures SumRange(ds, 0, hi - lo) == SumRange(cs, lo, hi)
    decreases hi
  {
    if lo < hi {
      SumOfSlice(cs, ds, lo, hi - 1);
    }
  }

  ghost function SumSet(s: set<Coin>): nat {
    if s == {} then 0 else
      var c :| c in s;
      Value(c) + SumSet(s - {c})
  }

  lemma {:induction false} SumSetRemove(s: set<Coin>, c: Coin)
    requires c in s
    ensures SumSet(s) == Value(c) + SumSet(s - {c})
  {
    var d :| d in s && SumSet(s) == Value(d) + SumSet(s - {d});
    if d != c {
      SumSetRemove(s - {d}, c);
      SumSetRemove(s - {c}, d);
      assert s - {d} - {c} == s - {c} - {d};
    }
  }

  ghost predicate Distinct(cs: seq<Coin>) {
    forall i, j :: 0 <= i < j < |cs| ==> cs[i] != cs[j]
  }

  /** The first `m` coins as a set. */
  ghost function Prefix(cs: seq<Coin>, m: nat): set<Coin>
    requires m <= |cs|
  {
    set i | 0 <= i < m :: cs[i]
  }

  ghost function Coins(cs: seq<Coin>): set<Coin> {
    Prefix(cs, |cs|)
  }

  lemma {:induction false} SumOfDistinct(cs: seq<Coin>, m: nat)
    requires Distinct(cs) && m <= |cs|
    ensures SumSet(Prefix(cs, m)) == SumRange(cs, 0, m)
    ensures |Prefix(cs, m)| == m
  {
    if m > 0 {
      SumOfDistinct(cs, m - 1);
      assert Prefix(cs, m) - {cs[m - 1]} == Prefix(cs, m - 1);
      SumSetRemove(Prefix(cs, m), cs[m - 1]);
    }
  }

  // ----- The sliding window over coins in ascending order -----

  ghost predicate Ascending(cs: seq<Coin>) {
    forall i, j :: 0 <= i < j < |cs| ==> Value(cs[i]) <= Value(cs[j])
  }

  ghost predicate Descending(cs: seq<Coin>) {
    forall i, j :: 0 <= i < j < |cs| ==> Value(cs[i]) >= Value(cs[j])
  }

  /** The window ending at `m` holds the last `k` of the first `m` coins. */
  function WindowStart(k: nat, m: nat): (lo: nat)
    ensures lo <= m
  {
    if m > k then m - k else 0
  }

  function WindowSum(cs: seq<Coin>, k: nat, m: nat): nat
    requires m <= |cs|
  {
    SumRange(cs, WindowStart(k, m), m)
  }

  /** Sliding the window up by one coin never lowers its sum. */
  lemma WindowStep(cs: seq<Coin>, k: nat, m: nat)
    requires m < |cs| && Ascending(cs)
    ensures WindowSum(cs, k, m) <= WindowSum(cs, k, m + 1)
  {
    if k <= m {
      SumDropFirst(cs, m - k, m + 1);
      assert k > 0 ==> Value(cs[m - k]) <= Value(cs[m]);
    }
  }

  lemma {:induction false} WindowMonotone(cs: seq<Coin>, k: nat, m: nat, n: nat)
    requires m <= n <= |cs| && Ascending(cs)
    ensures WindowSum(cs, k, m) <= WindowSum(cs, k, n)
    decreases n
  {
    if m < n {
      WindowMonotone(cs, k, m, n - 1);
      WindowStep(cs, k, n - 1);
    }
  }

  lemma PrefixStep(cs: seq<Coin>, m: nat, s: set<Coin>)
    requires 0 < m <= |cs| && s <= Prefix(cs, m)
    ensures s - {cs[m - 1]} <= Prefix(cs, m - 1)
  {
  }

  /** No choice of at most `k` of the first `m` coins is worth more than the window ending at `m`. */
  lemma {:induction false} WindowIsBest(cs: seq<Coin>, k: nat, m: nat, s: set<Coin>)
    requires m <= |cs| && Ascending(cs)
    requires s <= Prefix(cs, m) && |s| <= k
    ensures SumSet(s) <= WindowSum(cs, k, m)
    decreases m
  {
    hide Ascending;
    if m == 0 || k == 0 {
      assert s == {};
    } else {
      PrefixStep(cs, m, s);
      hide Prefix;
      var last := cs[m - 1];
      if last in s {
        SumSetRemove(s, last);
        WindowIsBest(cs, k - 1, m - 1, s - {last});
      } else {
        assert s - {last} == s;
        WindowIsBest(cs, k, m - 1, s);
        WindowStep(cs, k, m - 1);
      }
    }
  }

  // ----- Sorting -----

  lemma DescendingAppend(cs: seq<Coin>, c: Coin)
    requires Descending(cs)
    requires forall x :: x in cs ==> Value(x) >= Value(c)
    ensures Descending(cs + [c])
  {
  }

  /** Insert before the first strictly smaller coin, so equal coins keep their order. */
  function InsertSorted(cs: seq<Coin>, c: Coin): (r: seq<Coin>)
    requires Descending(cs)
    ensures Descending(r)
    ensures forall x :: x in r <==> x in cs || x == c
    ensures multiset(r) == multiset(cs) + multiset{c}
  {
    if cs == [] then [c]
    else
      var init, last := cs[..|cs| - 1], cs[|cs| - 1];
      assert cs == init + [last];
      if Value(last) >= Value(c) then
        DescendingAppend(cs, c);
        cs + [c]
      else
        var r := InsertSorted(init, c);
        DescendingAppend(r, last);
        r + [last]
  }

  /** The stable descending sort of `sort_by`. */
  function SortDescending(cs: seq<Coin>): (r: seq<Coin>)
    ensures Descending(r)
    ensures multiset(r) == multiset(cs)
  {
    if cs == [] then []
    else
      assert cs == cs[..|cs| - 1] + [cs[|cs| - 1]];
      InsertSorted(SortDescending(cs[..|cs| - 1]), cs[|cs| - 1])
  }

  lemma {:induction false} DistinctCounts(cs: seq<Coin>)
    ensures Distinct(cs) <==> forall c :: multiset(cs)[c] <= 1
  {
    if cs != [] {
      var init, last := cs[..|cs| - 1], cs[|cs| - 1];
      assert cs == init + [last];
      DistinctCounts(init);
      if Distinct(cs) {
        assert last !in init;
      } else if last !in init {
        assert !Distinct(init);
        var c :| multiset(init)[c] > 1;
        assert multiset(cs)[c] > 1;
      } else {
        assert multiset(cs)[last] > 1;
      }
    }
  }

  lemma PermutationKeepsDistinct(xs: seq<Coin>, ys: seq<Coin>)
    requires multiset(xs) == multiset(ys) && Distinct(xs)
    ensures Distinct(ys) && Coins(ys) == Coins(xs) && |ys| == |xs|
  {
    DistinctCounts(xs);
    DistinctCounts(ys);
    assert forall c :: c in Coins(ys) <==> c in multiset(ys);
    assert forall c :: c in Coins(xs) <==> c in multiset(xs);
    assert |multiset(xs)| == |multiset(ys)|;
  }

  /** `asc` is `desc` read backwards. */
  ghost predicate Reversed(desc: seq<Coin>, asc: seq<Coin>) {
    && |asc| == |desc|
    && forall i :: 0 <= i < |desc| ==> asc[i] == desc[|desc| - 1 - i]
  }

  function Reverse(cs: seq<Coin>): (r: seq<Coin>)
    ensures Reversed(cs, r)
  {
    seq(|cs|, i requires 0 <= i < |cs| => cs[|cs| - 1 - i])
  }

  /** The head of the descending order is worth what the last window of the ascending order is. */
  lemma {:induction false} ReversedSum(desc: seq<Coin>, asc: seq<Coin>, t: nat)
    requires Reversed(desc, asc) && t <= |desc|
    ensures SumRange(desc, 0, t) == SumRange(asc, |desc| - t, |desc|)
  {
    if t > 0 {
      ReversedSum(desc, asc, t - 1);
      SumDropFirst(asc, |desc| - t, |desc|);
    }
  }

  lemma SameCoinsSameMultiset(xs: seq<Coin>, ys: seq<Coin>)
    requires Distinct(xs) && Distinct(ys) && Coins(xs) == Coins(ys)
    ensures multiset(xs) == multiset(ys)
  {
    DistinctCounts(xs);
    DistinctCounts(ys);
    forall c ensures multiset(xs)[c] == multiset(ys)[c] {
      assert c in multiset(xs) <==> c in Coins(xs);
      assert c in multiset(ys) <==> c in Coins(ys);
    }
  }

  lemma ReversedCoins(desc: seq<Coin>, asc: seq<Coin>)
    requires Reversed(desc, asc)
    ensures Coins(asc) == Coins(desc)
    ensures Distinct(desc) ==> Distinct(asc)
    ensures Descending(desc) ==> Ascending(asc)
  {
    assert forall i :: 0 <= i < |desc| ==> desc[i] == asc[|desc| - 1 - i];
  }

  /** Reversing a descending order of distinct coins gives an ascending one of the same coins. */
  lemma ReversedOrder(eligible: seq<Coin>, desc: seq<Coin>, asc: seq<Coin>)
    requires Distinct(eligible) && multiset(desc) == multiset(eligible)
    requires Descending(desc) && Reversed(desc, asc)
    ensures Ascending(asc) && Distinct(asc)
    ensures Coins(asc) == Coins(eligible) && multiset(asc) == multiset(eligible)
  {
    hide Distinct, Descending, Ascending, Reversed, Coins;
    PermutationKeepsDistinct(eligible, desc);
    ReversedCoins(desc, asc);
    SameCoinsSameMultiset(asc, eligible);
  }

  // ----- Listing -----

  predicate WithinLimit(c: Coin, maxValue: Option<u64>) {
    maxValue.None? || Value(c) <= maxValue.value
  }

  /** The coins the query found that are not above the caller's limit. */
  function Eligible(found: seq<Coin>, maxValue: Option<u64>): (r: seq<Coin>)
    ensures forall c :: c in r <==> c in found && WithinLimit(c, maxValue)
    ensures Distinct(found) ==> Distinct(r)
  {
    if found == [] then []
    else
      var init, last := found[..|found| - 1], found[|found| - 1];
      assert found == init + [last];
      Eligible(init, maxValue) + if WithinLimit(last, maxValue) then [last] else []
  }

  /** Sorting the coins found keeps exactly those at or below the limit. */
  lemma ListedCoins(found: seq<Coin>, maxValue: Option<u64>)
    ensures forall c :: c in SortDescending(Eligible(found, maxValue)) <==>
      c in found && (maxValue.None? || AsU64(c.value) <= maxValue.value)
  {
    var eligible := Eligible(found, maxValue);
    var coins := SortDescending(eligible);
    hide SortDescending, Eligible;
    forall c
      ensures c in coins <==> c in found && (maxValue.None? || AsU64(c.value) <= maxValue.value)
    {
      assert c in coins <==> c in multiset(coins);
      assert c in eligible <==> c in multiset(eligible);
    }
  }

  function LessFee(total: nat, fee: nat): nat {
    if total > fee then total - fee else 0
  }

  /** `m` is the most that any choice of at most `k` coins yields after the fee. */
  ghost predicate IsMaxSpendable(m: nat, coins: set<Coin>, k: nat, fee: nat) {
    && (forall s :: s <= coins && |s| <= k ==> (if SumSet(s) > fee then SumSet(s) - fee else 0) <= m)
    && (exists s :: s <= coins && |s| <= k && (if SumSet(s) > fee then SumSet(s) - fee else 0) == m)
  }

  /** The sum of the first `k` coins in descending order. */
  function TopSum(cs: seq<Coin>, k: nat): nat {
    var desc := SortDescending(cs);
    SumRange(desc, 0, Min(k, |desc|))
  }

  lemma HeadBound(desc: seq<Coin>, asc: seq<Coin>, k: nat, s: set<Coin>)
    requires Reversed(desc, asc) && Ascending(asc) && s <= Coins(asc) && |s| <= k
    ensures SumSet(s) <= SumRange(desc, 0, Min(k, |desc|))
  {
    var t := Min(k, |desc|);
    assert WindowStart(k, |asc|) == |desc| - t;
    ReversedSum(desc, asc, t);
    WindowIsBest(asc, k, |asc|, s);
  }

  lemma TopSumBound(cs: seq<Coin>, k: nat, s: set<Coin>)
    requires Distinct(cs) && s <= Coins(cs) && |s| <= k
    ensures SumSet(s) <= TopSum(cs, k)
  {
    var desc := SortDescending(cs);
    var asc := Reverse(desc);
    ReversedOrder(cs, desc, asc);
    HeadBound(desc, asc, k, s);
  }

  lemma TopSumAttained(cs: seq<Coin>, k: nat) returns (s: set<Coin>)
    requires Distinct(cs)
    ensures s <= Coins(cs) && |s| <= k && SumSet(s) == TopSum(cs, k)
  {
    var desc := SortDescending(cs);
    PermutationKeepsDistinct(cs, desc);
    SumOfDistinct(desc, Min(k, |desc|));
    s := Prefix(desc, Min(k, |desc|));
    assert s <= Coins(desc);
  }

  /** The head of the descending order, less the fee, is the most that can be spent. */
  lemma TopSumIsBest(cs: seq<Coin>, k: nat, fee: nat)
    requires Distinct(cs)
    ensures IsMaxSpendable(LessFee(TopSum(cs, k), fee), Coins(cs), k, fee)
  {
    forall s | s <= Coins(cs) && |s| <= k
      ensures LessFee(SumSet(s), fee) <= LessFee(TopSum(cs, k), fee)
    {
      TopSumBound(cs, k, s);
    }
    var _ := TopSumAttained(cs, k);
  }

  method SumOf(coins: seq<Coin>, n: nat) returns (total: nat)
    requires n <= |coins|
    ensures total == SumRange(coins, 0, n)
  {
    total := 0;
    for i := 0 to n
      invariant total == SumRange(coins, 0, i)
    {
      total := total + Value(coins[i]);
    }
  }

  /** The spendable coins, largest first, and the most that can be spent in one transaction. */
  method ListSpendable(found: seq<Coin>, maxValue: Option<u64>, fee: u64) returns (r: Spendable)
    requires Distinct(found)
    ensures r.coins == SortDescending(Eligible(found, maxValue))
    ensures forall c :: c in r.coins <==> c in found && (maxValue.None? || AsU64(c.value) <= maxValue.value)
    ensures IsMaxSpendable(r.maxSpendable, Coins(Eligible(found, maxValue)), MAX_INPUTS, fee)
    ensures r.maxSpendable == LessFee(TopSum(Eligible(found, maxValue), MAX_INPUTS), fee)
  {
    var eligible := Eligible(found, maxValue);
    var coins := SortDescending(eligible);
    ListedCoins(found, maxValue);
    hide IsMaxSpendable, SortDescending, Eligible, Coins, Distinct, SumRange;
    var total := SumOf(coins, Min(MAX_INPUTS, |coins|));
    TopSumIsBest(eligible, MAX_INPUTS, fee);
    var maxSpendable: nat := 0;
    if total > fee {
      maxSpendable := total - fee;
    }
    r := Spendable(coins, maxSpendable);
  }

  // ----- Selection -----

  /** Every choice of at most `k` coins that reaches the target spends some coin at least as large as all of `chosen`. */
  ghost predicate Minimax(chosen: seq<Coin>, coins: set<Coin>, k: nat, target: nat) {
    forall s, c :: s <= coins && |s| <= k && SumSet(s) >= target && c in chosen
      ==> exists d :: d in s && Value(d) >= Value(c)
  }

  /** The window ending at `m` reaches the target, and no earlier window does. */
  ghost predicate IsFirstWindow(asc: seq<Coin>, k: nat, m: nat, target: nat) {
    && m <= |asc|
    && WindowSum(asc, k, m) >= target
    && forall j :: 0 <= j < m ==> WindowSum(asc, k, j) < target
  }

  /** The chosen coins are the first window that suffices in some ascending order of all the coins. */
  ghost predicate FirstWindow(chosen: seq<Coin>, coins: seq<Coin>, k: nat, target: nat) {
    exists asc: seq<Coin>, m: nat ::
      && multiset(asc) == multiset(coins) && Ascending(asc)
      && IsFirstWindow(asc, k, m, target)
      && chosen == asc[WindowStart(k, m)..m]
  }

  lemma SumOfCoins(cs: seq<Coin>)
    requires Distinct(cs)
    ensures SumSet(Coins(cs)) == Sum(cs)
  {
    SumOfDistinct(cs, |cs|);
    assert Prefix(cs, |cs|) == Coins(cs);
  }

  /** Some choice of at most `k` of the coins reaches the target. */
  ghost predicate Payable(coins: set<Coin>, k: nat, target: nat) {
    exists s :: s <= coins && |s| <= k && SumSet(s) >= target
  }

  /** A target can be paid exactly when the best sum reaches it. */
  lemma PayableIffTopSum(cs: seq<Coin>, k: nat, target: nat)
    requires Distinct(cs)
    ensures Payable(Coins(cs), k, target) <==> target <= TopSum(cs, k)
  {
    hide TopSum, Coins, Distinct;
    forall s | s <= Coins(cs) && |s| <= k
      ensures SumSet(s) <= TopSum(cs, k)
    {
      TopSumBound(cs, k, s);
    }
    var best := TopSumAttained(cs, k);
  }

  lemma FirstWindowIsMinimax(asc: seq<Coin>, k: nat, m: nat, target: nat)
    requires Ascending(asc) && IsFirstWindow(asc, k, m, target)
    ensures Minimax(asc[WindowStart(k, m)..m], Coins(asc), k, target)
  {
    forall s, c | s <= Coins(asc) && |s| <= k && SumSet(s) >= target && c in asc[WindowStart(k, m)..m]
      ensures exists d :: d in s && Value(d) >= Value(c)
    {
      if forall d :: d in s ==> Value(d) < Value(c) {
        assert Value(c) <= Value(asc[m - 1]);
        hide Ascending, SumRange, Prefix, SumSet;
        SmallerCoinsComeEarlier(asc, m, s);
        WindowIsBest(asc, k, m - 1, s);
        assert false;
      }
    }
  }

  lemma SmallerCoinsComeEarlier(asc: seq<Coin>, m: nat, s: set<Coin>)
    requires Ascending(asc) && 0 < m <= |asc| && s <= Coins(asc)
    requires forall d :: d in s ==> Value(d) < Value(asc[m - 1])
    ensures s <= Prefix(asc, m - 1)
  {
    forall d | d in s ensures d in Prefix(asc, m - 1) {
      var i :| 0 <= i < |asc| && asc[i] == d;
      assert i < m - 1;
    }
  }

  /**
   Choose the coins to spend. With `top` the best sum of any MAX_INPUTS eligible coins, a
   non-empty list succeeds exactly when 0 < target <= top, whatever the fee; the errors are
   told apart exactly, and running out of coins happens only when top < target <= fee.
   */
  method SelectSpendableTxosForValue(found: seq<Coin>, target: nat, maxValue: Option<u64>, fee: u64)
    returns (r: Selection)
    requires Distinct(found)
    ensures var eligible, top := Eligible(found, maxValue), TopSum(Eligible(found, maxValue), MAX_INPUTS);
      && (r.Selected? <==> eligible != [] && 0 < target <= top)
      && (r == Rejected(NoSpendableTxos) <==> eligible == [])
      && (r == Rejected(InsufficientFundsFragmentedTxos) <==>
            eligible != [] && target > top && target > fee && Sum(eligible) >= target + fee)
      && (r == Rejected(InsufficientFundsUnderMaxSpendable) <==>
            eligible != [] && target > top && target > fee && Sum(eligible) < target + fee)
      && (r == Rejected(InsufficientFunds) <==> eligible != [] && (target == 0 || top < target <= fee))
    ensures r.Selected? ==>
      && 1 <= |r.coins| <= MAX_INPUTS == 16
      && Distinct(r.coins)
      && (forall c :: c in r.coins ==> c in found && (maxValue.Some? ==> AsU64(c.value) <= maxValue.value))
      && Coins(r.coins) <= Coins(Eligible(found, maxValue))
      && Sum(r.coins) >= target
      && FirstWindow(r.coins, Eligible(found, maxValue), MAX_INPUTS, target)
      && Minimax(r.coins, Coins(Eligible(found, maxValue)), MAX_INPUTS, target)
  {
    hide Eligible, SortDescending, SumRange, Distinct, Descending, IsFirstWindow, FirstWindow, Minimax, Coins;
    ghost var eligible := Eligible(found, maxValue);
    var listed := ListSpendable(found, maxValue, fee);
    if listed.coins == [] {
      return Rejected(NoSpendableTxos);
    }
    if target > listed.maxSpendable + fee {
      var total := SumOf(listed.coins, |listed.coins|);
      SortKeepsSum(eligible);
      if total >= target + fee {
        return Rejected(InsufficientFundsFragmentedTxos);
      } else {
        return Rejected(InsufficientFundsUnderMaxSpendable);
      }
    }
    ghost var asc := Reverse(listed.coins);
    ReversedSum(listed.coins, asc, Min(MAX_INPUTS, |asc|));
    var selected, enough, m := SlideWindow(listed.coins, asc, target);
    if !enough {
      return Rejected(InsufficientFunds);
    }
    ReversedOrder(eligible, listed.coins, asc);
    SelectedFacts(eligible, asc, m, target);
    if |selected| == 0 || |selected| > MAX_INPUTS {
      return Rejected(InsufficientFunds);
    }
    ChosenAmongListed(found, maxValue, selected);
    return Selected(selected);
  }

  /** What is chosen among the eligible coins was found and is within the limit. */
  lemma ChosenAmongListed(found: seq<Coin>, maxValue: Option<u64>, chosen: seq<Coin>)
    requires Coins(chosen) <= Coins(Eligible(found, maxValue))
    ensures forall c :: c in chosen ==> c in found && (maxValue.Some? ==> AsU64(c.value) <= maxValue.value)
  {
    var eligible := Eligible(found, maxValue);
    ListedCoins(found, maxValue);
    hide Eligible;
    forall c | c in chosen
      ensures c in eligible
    {
      assert c in Coins(chosen);
    }
  }

  lemma SortKeepsSum(cs: seq<Coin>)
    requires Distinct(cs)
    ensures Sum(SortDescending(cs)) == Sum(cs)
    ensures SortDescending(cs) == [] <==> cs == []
  {
    PermutationKeepsDistinct(cs, SortDescending(cs));
    SumOfDistinct(cs, |cs|);
    SumOfDistinct(SortDescending(cs), |cs|);
  }

  lemma SliceFacts(asc: seq<Coin>, lo: nat, hi: nat)
    requires lo <= hi <= |asc| && Distinct(asc)
    ensures Distinct(asc[lo..hi]) && Coins(asc[lo..hi]) <= Coins(asc)
  {
    assert forall c :: c in asc[lo..hi] ==> c in asc;
  }

  lemma WindowIsEnough(asc: seq<Coin>, k: nat, m: nat, target: nat)
    requires Ascending(asc) && IsFirstWindow(asc, k, m, target)
    ensures Sum(asc[WindowStart(k, m)..m]) >= target && target <= WindowSum(asc, k, |asc|)
    ensures target == 0 ==> m == 0
  {
    SumOfSlice(asc, asc[WindowStart(k, m)..m], WindowStart(k, m), m);
    WindowMonotone(asc, k, m, |asc|);
    hide Ascending;
    assert m > 0 ==> WindowSum(asc, k, 0) < target;
  }

  lemma SelectedFacts(eligible: seq<Coin>, asc: seq<Coin>, m: nat, target: nat)
    requires Ascending(asc) && Distinct(asc) && IsFirstWindow(asc, MAX_INPUTS, m, target)
    requires multiset(asc) == multiset(eligible) && Coins(asc) == Coins(eligible)
    ensures var chosen := asc[WindowStart(MAX_INPUTS, m)..m];
      && Distinct(chosen) && Coins(chosen) <= Coins(eligible) && Sum(chosen) >= target
      && FirstWindow(chosen, eligible, MAX_INPUTS, target)
      && Minimax(chosen, Coins(eligible), MAX_INPUTS, target)
      && |chosen| <= MAX_INPUTS && (|chosen| == 0 <==> target == 0)
    ensures target <= WindowSum(asc, MAX_INPUTS, |asc|)
  {
    WindowIsEnough(asc, MAX_INPUTS, m, target);
    FirstWindowIsMinimax(asc, MAX_INPUTS, m, target);
    SliceFacts(asc, WindowStart(MAX_INPUTS, m), m);
    assert m == 0 ==> target == 0;
    hide Distinct, Coins, Minimax, Ascending, WindowSum, SumRange, Sum;
    assert FirstWindow(asc[WindowStart(MAX_INPUTS, m)..m], eligible, MAX_INPUTS, target);
  }

  lemma SlideStep(asc: seq<Coin>, k: nat, m: nat)
    requires m < |asc|
    ensures var pushed := asc[WindowStart(k, m)..m] + [asc[m]];
      if |pushed| > k then
        && pushed[1..] == asc[WindowStart(k, m + 1)..m + 1]
        && WindowSum(asc, k, m + 1) == WindowSum(asc, k, m) + Value(asc[m]) - Value(pushed[0])
      else
        && pushed == asc[WindowStart(k, m + 1)..m + 1]
        && WindowSum(asc, k, m + 1) == WindowSum(asc, k, m) + Value(asc[m])
  {
    SumDropFirst(asc, WindowStart(k, m), m + 1);
  }

  /** Move the window up from the dust, popping the next smallest coin, until it reaches the target or coins run out. */
  method SlideWindow(coins: seq<Coin>, ghost asc: seq<Coin>, target: nat)
    returns (selected: seq<Coin>, enough: bool, ghost m: nat)
    requires Reversed(coins, asc)
    ensures m <= |asc| && selected == asc[WindowStart(MAX_INPUTS, m)..m]
    ensures enough ==> IsFirstWindow(asc, MAX_INPUTS, m, target)
    ensures !enough ==> WindowSum(asc, MAX_INPUTS, |asc|) < target
  {
    var spendable := coins;
    selected := [];
    var total: nat := 0;
    m := 0;
    while total < target
      invariant m <= |coins| && spendable == coins[..|coins| - m]
      invariant selected == asc[WindowStart(MAX_INPUTS, m)..m]
      invariant total == WindowSum(asc, MAX_INPUTS, m)
      invariant forall j :: 0 <= j < m ==> WindowSum(asc, MAX_INPUTS, j) < target
      decreases |spendable|
    {
      if spendable == [] {
        enough := false;
        return;
      }
      var next := spendable[|spendable| - 1];
      spendable := spendable[..|spendable| - 1];
      SlideStep(asc, MAX_INPUTS, m);
      selected := selected + [next];
      total := total + Value(next);
      if |selected| > MAX_INPUTS {
        var removed := selected[0];
        selected := selected[1..];
        total := total - Value(removed);
      }
      m := m + 1;
    }
    enough := true;
    assert IsFirstWindow(asc, MAX_INPUTS, m, target);
  }
}
