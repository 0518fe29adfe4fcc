/** The greedy choice of coins for an amount, and the choice made from the bounded candidates. */
module CoinSelection {
  import opened Wrappers
  import opened Coins
  import opened TopK
  import opened Sequences

  ghost predicate Descending(s: seq<Coin>) {
    forall i, j :: 0 <= i < j < |s| ==> s[i].amount >= s[j].amount
  }

  /** The coins of s at the given indices. */
  function Pick(s: seq<Coin>, idx: seq<nat>): seq<Coin>
    requires Indices(idx, |s|)
  {
    seq(|idx|, j requires 0 <= j < |idx| => s[idx[j]])
  }

  predicate Indices(idx: seq<nat>, n: nat) { forall i :: 0 <= i < |idx| ==> idx[i] < n }

  /** Strictly increasing indices below n. */
  ghost predicate Increasing(idx: seq<nat>, n: nat) {
    Indices(idx, n) && forall i, j :: 0 <= i < j < |idx| ==> idx[i] < idx[j]
  }

  lemma PickAppend(s: seq<Coin>, idx: seq<nat>, i: nat)
    requires Increasing(idx, i) && i < |s|
    ensures Increasing(idx + [i], i + 1)
    ensures Pick(s, idx + [i]) == Pick(s, idx) + [s[i]]
    ensures Sum(Pick(s, idx + [i])) == Sum(Pick(s, idx)) + s[i].amount
  {
    assert Pick(s, idx + [i]) == Pick(s, idx) + [s[i]];
    SumAppend(Pick(s, idx), s[i]);
  }

  lemma {:induction false} PickIsPart(s: seq<Coin>, idx: seq<nat>, n: nat)
    requires Increasing(idx, n) && n <= |s|
    ensures multiset(Pick(s, idx)) <= multiset(s[..n])
    decreases n
  {
    if n > 0 {
      assert s[..n] == s[..n - 1] + [s[n - 1]];
      if idx != [] && idx[|idx| - 1] == n - 1 {
        PickIsPart(s, idx[..|idx| - 1], n - 1);
        assert Pick(s, idx) == Pick(s, idx[..|idx| - 1]) + [s[n - 1]];
      } else {
        PickIsPart(s, idx, n - 1);
      }
    }
  }

  lemma {:induction false} PickAll(s: seq<Coin>, idx: seq<nat>)
    requires |idx| <= |s| && forall i :: 0 <= i < |idx| ==> idx[i] == i
    ensures Pick(s, idx) == s[..|idx|]
  {
  }

  /** Dropping any one coin of the selection falls short of the amount. */
  ghost predicate Minimal(sel: seq<Coin>, amount: nat) {
    forall c <- sel :: Sum(sel) - c.amount < amount
  }

  /** What a selection promises: coins among those offered, covering the amount if all of them together
      do, with none to spare; and all of them otherwise. */
  ghost predicate Selection(sel: seq<Coin>, offered: multiset<Coin>, amount: nat) {
    multiset(sel) <= offered &&
    if Value(offered) < amount then multiset(sel) == offered
    else Sum(sel) >= amount && Minimal(sel, amount)
  }

  method SortDescending(s: seq<Coin>) returns (r: seq<Coin>)
    ensures Descending(r) && multiset(r) == multiset(s)
  {
    r := [];
    for i := 0 to |s|
      invariant Descending(r) && multiset(r) == multiset(s[..i])
    {
      assert s[..i + 1] == s[..i] + [s[i]];
      r := Insert(r, s[i]);
    }
    assert s[..|s|] == s;
  }

  method Insert(s: seq<Coin>, c: Coin) returns (r: seq<Coin>)
    requires Descending(s)
    ensures Descending(r) && multiset(r) == multiset(s) + multiset{c}
  {
    var j := 0;
    while j < |s| && s[j].amount >= c.amount
      invariant j <= |s| && forall i :: 0 <= i < j ==> s[i].amount >= c.amount
    {
      j := j + 1;
    }
    r := s[..j] + [c] + s[j..];
    InsertedAll(s, c, j);
  }

  /** The selected indices below a bound, of which ghost at is the whole list. */
  method Below(selected: seq<nat>, u: nat, ghost at: seq<nat>) returns (r: seq<nat>)
    requires |at| <= |selected| && selected[..|at|] == at
    requires Indices(at, u) && forall i :: |at| <= i < |selected| ==> selected[i] >= u
    ensures r == at
  {
    r := [];
    for i := 0 to |selected|
      invariant r == if i <= |at| then at[..i] else at
    {
      assert i < |at| ==> selected[i] == at[i];
      if selected[i] < u {
        r := r + [selected[i]];
      }
    }
  }

  /** The state of the greedy walk before index i: the running sum of the selected coins is below the amount,
      every coin is selected unless one was rejected, and the selection at the last rejection with the
      rejected coin in place of the later ones exceeds the amount. */
  ghost predicate Walk(s: seq<Coin>, i: nat, selected: seq<nat>, unselected: seq<nat>, at: seq<nat>, opt: nat,
                       amount: nat) {
    i <= |s| && Increasing(selected, i) && opt == Sum(Pick(s, selected)) && opt < amount &&
    if unselected == [] then |selected| == i && forall j :: 0 <= j < i ==> selected[j] == j
    else Rejected(s, i, selected, unselected[|unselected| - 1], at, amount)
  }

  ghost predicate Rejected(s: seq<Coin>, i: nat, selected: seq<nat>, u: nat, at: seq<nat>, amount: nat) {
    u < i <= |s| && |at| <= |selected| && selected[..|at|] == at && Increasing(at, u) &&
    (forall j :: |at| <= j < |selected| ==> selected[j] > u) &&
      Sum(Pick(s, at)) < amount < Sum(Pick(s, at)) + s[u].amount
  }

  lemma WalkReject(s: seq<Coin>, i: nat, selected: seq<nat>, unselected: seq<nat>, at: seq<nat>, opt: nat, amount: nat)
    requires Walk(s, i, selected, unselected, at, opt, amount) && i < |s| && opt + s[i].amount > amount
    ensures Walk(s, i + 1, selected, unselected + [i], selected, opt, amount)
  {
    assert (unselected + [i])[|unselected|] == i;
  }

  lemma WalkSelect(s: seq<Coin>, i: nat, selected: seq<nat>, unselected: seq<nat>, at: seq<nat>, opt: nat, amount: nat)
    requires Walk(s, i, selected, unselected, at, opt, amount) && i < |s| && opt + s[i].amount < amount
    ensures Walk(s, i + 1, selected + [i], unselected, at, opt + s[i].amount, amount)
  {
    PickAppend(s, selected, i);
    if unselected != [] {
      assert (selected + [i])[..|at|] == at;
    }
  }

  /** Indices whose coins are a selection. */
  ghost predicate Chosen(s: seq<Coin>, idx: seq<nat>, amount: nat) {
    Increasing(idx, |s|) && Selection(Pick(s, idx), multiset(s), amount)
  }

  /** Increasing indices whose last coin makes the sum reach the amount form a selection. */
  lemma LastReaches(s: seq<Coin>, idx: seq<nat>, i: nat, amount: nat)
    requires Descending(s) && Increasing(idx, i) && i < |s|
    requires Sum(Pick(s, idx)) < amount <= Sum(Pick(s, idx)) + s[i].amount
    ensures Chosen(s, idx + [i], amount)
  {
    PickAppend(s, idx, i);
    var sel := Pick(s, idx + [i]);
    PickIsPart(s, idx + [i], i + 1);
    assert s == s[..i + 1] + s[i + 1..];
    forall c <- sel ensures Sum(sel) - c.amount < amount {
      var j :| 0 <= j < |sel| && sel[j] == c;
      assert s[(idx + [i])[j]].amount >= s[i].amount;
    }
    SumIsValue(sel);
    ValueSub(multiset(sel), multiset(s));
  }

  lemma WalkStarts(s: seq<Coin>, amount: nat)
    requires amount > 0
    ensures Walk(s, 0, [], [], [], 0, amount)
  {
  }

  lemma WalkReaches(s: seq<Coin>, i: nat, selected: seq<nat>, unselected: seq<nat>, at: seq<nat>, opt: nat, amount: nat)
    requires Descending(s) && Walk(s, i, selected, unselected, at, opt, amount) && i < |s|
    requires amount <= opt + s[i].amount
    ensures Chosen(s, selected + [i], amount)
  {
    hide Descending, Chosen;
    LastReaches(s, selected, i, amount);
  }

  /** When the sorted coins run out, the last rejected coin closes the selection made before it; with none
      rejected, all coins together fall short. */
  lemma WalkEnds(s: seq<Coin>, selected: seq<nat>, unselected: seq<nat>, at: seq<nat>, opt: nat, amount: nat)
    requires Descending(s) && Walk(s, |s|, selected, unselected, at, opt, amount)
    ensures unselected == [] ==> Chosen(s, selected, amount)
    ensures unselected != [] ==>
      var u := unselected[|unselected| - 1];
      Chosen(s, at + [u], amount) && |at| <= |selected| && selected[..|at|] == at && Indices(at, u) &&
      forall i :: |at| <= i < |selected| ==> selected[i] >= u
  {
    if unselected == [] {
      PickAll(s, selected);
      assert s[..|s|] == s;
      SumIsValue(s);
    } else {
      hide Descending, Chosen;
      LastReaches(s, at, unselected[|unselected| - 1], amount);
    }
  }

  // ---------- which coins the walk chooses ----------

  /** When the walk came to coin j, the coins chosen so far and it exceeded the amount. */
  ghost predicate PassedOver(s: seq<Coin>, idx: seq<nat>, j: nat, amount: nat)
    requires j < |s| && Indices(idx, |s|)
  {
    exists m: nat :: m <= |idx| && Parted(idx, m, j) && Sum(Pick(s, idx[..m])) + s[j].amount > amount
  }

  /** The first m indices are the ones below j. */
  ghost predicate Parted(idx: seq<nat>, m: nat, j: nat)
    requires m <= |idx|
  {
    forall a :: 0 <= a < |idx| ==> if a < m then idx[a] < j else idx[a] > j
  }

  /** The choice: all coins if they fall short together. Otherwise the last coin chosen makes the sum reach the amount;
      every coin before it that is not chosen would have exceeded the amount when the walk came to it; and if the last
      one exceeds it too, all the coins after it in its place fall short. */
  ghost predicate Greedy(s: seq<Coin>, idx: seq<nat>, amount: nat) {
    Increasing(idx, |s|) &&
    if Sum(s) < amount then |idx| == |s|
    else
      idx != [] &&
      var n := |idx| - 1;
      var before := Sum(Pick(s, idx[..n]));
      before < amount <= before + s[idx[n]].amount &&
      (forall j: nat | j < idx[n] && j !in idx :: PassedOver(s, idx, j, amount)) &&
      (before + s[idx[n]].amount > amount ==> before + Sum(s[idx[n] + 1..]) < amount)
  }

  /** Two such choices agree on every coin that comes before the last of both. */
  lemma {:induction false} GreedyAgree(s: seq<Coin>, idx: seq<nat>, idy: seq<nat>, amount: nat, k: nat)
    requires Greedy(s, idx, amount) && Greedy(s, idy, amount) && Sum(s) >= amount
    requires k < |idx| && k < |idy|
    ensures idx[..k] == idy[..k]
  {
    if k > 0 {
      GreedyAgree(s, idx, idy, amount, k - 1);
      NotLater(s, idx, idy, amount, k - 1);
      NotLater(s, idy, idx, amount, k - 1);
      assert idx[..k] == idx[..k - 1] + [idx[k - 1]] && idy[..k] == idy[..k - 1] + [idy[k - 1]];
    }
  }

  /** A coin chosen before the last one was not passed over. */
  lemma NotLater(s: seq<Coin>, idx: seq<nat>, idy: seq<nat>, amount: nat, k: nat)
    requires Greedy(s, idx, amount) && Greedy(s, idy, amount) && Sum(s) >= amount
    requires k < |idx| - 1 && k < |idy| && idx[..k] == idy[..k]
    ensures idy[k] <= idx[k]
  {
    var j := idx[k];
    if j < idy[k] {
      EarlierUnchosen(idx, idy, k, |s|);
      ChosenFits(s, idx, k, amount);
      assert PassedOver(s, idy, j, amount);
      PartedHere(s, idx, idy, k, amount);
    }
  }

  /** If coin idx[k] was passed over on the way to idy[k], it was when the coins before position k were chosen. */
  lemma PartedHere(s: seq<Coin>, idx: seq<nat>, idy: seq<nat>, k: nat, amount: nat)
    requires Increasing(idx, |s|) && Increasing(idy, |s|) && k < |idx| && k < |idy| && idx[..k] == idy[..k]
    requires idx[k] < idy[k] && PassedOver(s, idy, idx[k], amount)
    ensures Sum(Pick(s, idx[..k])) + s[idx[k]].amount > amount
  {
    hide Sum;
    var j := idx[k];
    var m: nat :| m <= |idy| && Parted(idy, m, j) && Sum(Pick(s, idy[..m])) + s[j].amount > amount;
    assert m <= k;
    assert k > 0 ==> idy[..k][k - 1] == idx[..k][k - 1];
    assert m == k;
  }

  lemma ChosenFits(s: seq<Coin>, idx: seq<nat>, k: nat, amount: nat)
    requires Increasing(idx, |s|) && k < |idx| - 1 && Sum(Pick(s, idx[..|idx| - 1])) < amount
    ensures Sum(Pick(s, idx[..k])) + s[idx[k]].amount < amount
  {
    var p := Pick(s, idx[..|idx| - 1]);
    assert Pick(s, idx[..k + 1]) == p[..k + 1];
    assert Pick(s, idx[..k]) == p[..k];
    assert p[..k + 1] == p[..k] + [s[idx[k]]];
    SumAppend(p[..k], s[idx[k]]);
    SumPrefix(p, k + 1);
  }

  /** The last coin of one choice does not come before what the other chose next. */
  lemma LastNotBefore(s: seq<Coin>, idx: seq<nat>, idy: seq<nat>, amount: nat)
    requires Greedy(s, idx, amount) && Greedy(s, idy, amount) && Sum(s) >= amount && |idx| <= |idy|
    requires idx[..|idx| - 1] == idy[..|idx| - 1]
    ensures idy[|idx| - 1] <= idx[|idx| - 1]
  {
    hide Sum, PassedOver;
    var k := |idx| - 1;
    if idx[k] < idy[k] {
      EarlierUnchosen(idx, idy, k, |s|);
      assert PassedOver(s, idy, idx[k], amount);
      PartedHere(s, idx, idy, k, amount);
      RestWithin(s, idy, k, idx[k], |s|);
      assert s[idx[k] + 1..|s|] == s[idx[k] + 1..];
      BeforeLast(s, idy, amount);
    }
  }

  lemma EarlierUnchosen(idx: seq<nat>, idy: seq<nat>, k: nat, n: nat)
    requires Increasing(idx, n) && Increasing(idy, n) && k < |idx| && k < |idy| && idx[..k] == idy[..k]
    requires idx[k] < idy[k]
    ensures idx[k] !in idy && idx[k] < idy[|idy| - 1] && forall a :: k <= a < |idy| ==> idy[a] > idx[k]
  {
    forall a | 0 <= a < |idy| ensures idy[a] != idx[k] {
      assert a < k ==> idx[..k][a] == idy[..k][a];
    }
  }

  lemma BeforeLast(s: seq<Coin>, idx: seq<nat>, amount: nat)
    requires Greedy(s, idx, amount) && Sum(s) >= amount
    ensures Sum(Pick(s, idx)) >= amount
  {
    var n := |idx| - 1;
    assert Pick(s, idx) == Pick(s, idx[..n]) + [s[idx[n]]];
    SumAppend(Pick(s, idx[..n]), s[idx[n]]);
  }

  /** Coins chosen after u are worth no more than all coins after u. */
  lemma {:induction false} RestWithin(s: seq<Coin>, idx: seq<nat>, k: nat, u: nat, n: nat)
    requires Increasing(idx, n) && u < n <= |s| && k <= |idx| && forall a :: k <= a < |idx| ==> idx[a] > u
    ensures Sum(Pick(s, idx)) <= Sum(Pick(s, idx[..k])) + Sum(s[u + 1..n])
    decreases n
  {
    hide Sum;
    if |idx| == k {
      assert idx[..k] == idx;
    } else {
      var l := |idx| - 1;
      assert u < idx[l] < n;
      assert s[u + 1..n] == s[u + 1..n - 1] + [s[n - 1]];
      SumAppend(s[u + 1..n - 1], s[n - 1]);
      if idx[l] == n - 1 {
        RestWithin(s, idx[..l], k, u, n - 1);
        assert idx[..l][..k] == idx[..k];
        assert Pick(s, idx) == Pick(s, idx[..l]) + [s[n - 1]];
        SumAppend(Pick(s, idx[..l]), s[n - 1]);
      } else {
        RestWithin(s, idx, k, u, n - 1);
      }
    }
  }

  lemma {:induction false} AllIndices(idx: seq<nat>, n: nat, i: nat)
    requires Increasing(idx, n) && |idx| == n && i < n
    ensures idx[i] >= i
    decreases i
  {
    if i > 0 {
      AllIndices(idx, n, i - 1);
    }
  }

  lemma {:induction false} AllIndicesAre(idx: seq<nat>, n: nat, i: nat)
    requires Increasing(idx, n) && |idx| == n && i < n
    ensures idx[i] == i
    decreases n - i
  {
    AllIndices(idx, n, i);
    if i + 1 < n {
      AllIndicesAre(idx, n, i + 1);
    }
  }

  /** What one choice ends with, the other does not go past. */
  lemma SameLength(s: seq<Coin>, idx: seq<nat>, idy: seq<nat>, amount: nat)
    requires Greedy(s, idx, amount) && Greedy(s, idy, amount) && Sum(s) >= amount && |idx| <= |idy|
    requires idx[..|idx| - 1] == idy[..|idx| - 1]
    ensures |idx| == |idy|
  {
    hide Sum, PassedOver;
    var k := |idx| - 1;
    if |idy| > |idx| {
      LastNotBefore(s, idx, idy, amount);
      NotLater(s, idy, idx, amount, k);
      ChosenFits(s, idy, k, amount);
    }
  }

  lemma NoLonger(s: seq<Coin>, idx: seq<nat>, idy: seq<nat>, amount: nat)
    requires Greedy(s, idx, amount) && Greedy(s, idy, amount) && Sum(s) >= amount && |idx| <= |idy|
    ensures idx == idy
  {
    NotNone(s, idx, amount);
    hide Greedy, Sum;
    GreedyAgree(s, idx, idy, amount, |idx| - 1);
    SameLength(s, idx, idy, amount);
    LastNotBefore(s, idx, idy, amount);
    LastNotBefore(s, idy, idx, amount);
    SameEnds(idx, idy);
  }

  lemma SameEnds(idx: seq<nat>, idy: seq<nat>)
    requires |idx| == |idy| > 0
    requires idx[..|idx| - 1] == idy[..|idx| - 1] && idx[|idx| - 1] == idy[|idx| - 1]
    ensures idx == idy
  {
    assert idx == idx[..|idx| - 1] + [idx[|idx| - 1]] && idy == idy[..|idx| - 1] + [idy[|idx| - 1]];
  }

  lemma NotNone(s: seq<Coin>, idx: seq<nat>, amount: nat)
    requires Greedy(s, idx, amount) && Sum(s) >= amount
    ensures idx != []
  {
  }

  /** There is one such choice. */
  lemma GreedyIsOne(s: seq<Coin>, idx: seq<nat>, idy: seq<nat>, amount: nat)
    requires Greedy(s, idx, amount) && Greedy(s, idy, amount)
    ensures idx == idy
  {
    hide Sum, PassedOver;
    if Sum(s) < amount {
      forall i | 0 <= i < |s| ensures idx[i] == idy[i] {
        AllIndicesAre(idx, |s|, i);
        AllIndicesAre(idy, |s|, i);
      }
    } else if |idx| <= |idy| {
      NoLonger(s, idx, idy, amount);
    } else {
      NoLonger(s, idy, idx, amount);
    }
  }

  /** What the walk has passed over, and that it has chosen every coin since the last it passed over. */
  ghost predicate Trail(s: seq<Coin>, i: nat, selected: seq<nat>, unselected: seq<nat>, at: seq<nat>, amount: nat) {
    i <= |s| && Increasing(selected, i) &&
    (forall j: nat | j < i && j !in selected :: PassedOver(s, selected, j, amount)) &&
    (unselected != [] ==>
       var u := unselected[|unselected| - 1];
       u < i && |selected| == |at| + i - u - 1 &&
       forall a :: |at| <= a < |selected| ==> selected[a] == u + 1 + a - |at|)
  }

  lemma PassedOverMore(s: seq<Coin>, selected: seq<nat>, i: nat, j: nat, amount: nat)
    requires Increasing(selected, i) && j < i < |s| && PassedOver(s, selected, j, amount)
    ensures PassedOver(s, selected + [i], j, amount)
  {
    hide Sum;
    var m: nat :| m <= |selected| && Parted(selected, m, j) && Sum(Pick(s, selected[..m])) + s[j].amount > amount;
    assert (selected + [i])[..m] == selected[..m];
    assert Parted(selected + [i], m, j);
  }

  lemma TrailReject(s: seq<Coin>, i: nat, selected: seq<nat>, unselected: seq<nat>, at: seq<nat>, opt: nat,
                    amount: nat)
    requires Trail(s, i, selected, unselected, at, amount) && i < |s|
    requires opt == Sum(Pick(s, selected)) && opt + s[i].amount > amount
    ensures Trail(s, i + 1, selected, unselected + [i], selected, amount)
  {
    hide Sum;
    assert selected[..|selected|] == selected;
    assert Parted(selected, |selected|, i);
    hide PassedOver;
    assert PassedOver(s, selected, i, amount) by {
      PassedOverAt(s, selected, i, |selected|, amount);
    }
  }

  lemma PassedOverAt(s: seq<Coin>, idx: seq<nat>, j: nat, m: nat, amount: nat)
    requires j < |s| && Indices(idx, |s|) && m <= |idx| && Parted(idx, m, j)
    requires Sum(Pick(s, idx[..m])) + s[j].amount > amount
    ensures PassedOver(s, idx, j, amount)
  {
  }

  lemma TrailSelect(s: seq<Coin>, i: nat, selected: seq<nat>, unselected: seq<nat>, at: seq<nat>, amount: nat)
    requires Trail(s, i, selected, unselected, at, amount) && i < |s|
    ensures Trail(s, i + 1, selected + [i], unselected, at, amount)
  {
    forall j: nat | j < i + 1 && j !in selected + [i] ensures PassedOver(s, selected + [i], j, amount) {
      PassedOverMore(s, selected, i, j, amount);
    }
    hide PassedOver;
  }

  lemma TrailReaches(s: seq<Coin>, i: nat, selected: seq<nat>, unselected: seq<nat>, at: seq<nat>, opt: nat,
                     amount: nat)
    requires Trail(s, i, selected, unselected, at, amount) && i < |s| && opt == Sum(Pick(s, selected))
    requires opt < amount <= opt + s[i].amount && (i == |s| - 1 || opt + s[i].amount == amount)
    ensures Greedy(s, selected + [i], amount)
  {
    hide PassedOver, Sum;
    PickAppend(s, selected, i);
    CoversAll(s, selected, i, amount);
    TrailSelect(s, i, selected, unselected, at, amount);
    assert (selected + [i])[..|selected|] == selected;
    if i == |s| - 1 {
      NothingAfter(s);
    }
  }

  lemma NothingAfter(s: seq<Coin>)
    ensures Sum(s[|s|..]) == 0
  {
  }

  /** The last coin passed over closes what was chosen before it. */
  lemma TrailEnds(s: seq<Coin>, selected: seq<nat>, unselected: seq<nat>, at: seq<nat>, opt: nat, amount: nat)
    requires Trail(s, |s|, selected, unselected, at, amount) && Walk(s, |s|, selected, unselected, at, opt, amount)
    ensures unselected == [] ==> Greedy(s, selected, amount)
    ensures unselected != [] ==> Indices(at, |s|) && Greedy(s, at + [unselected[|unselected| - 1]], amount)
  {
    if unselected == [] {
      PickAll(s, selected);
      assert s[..|s|] == s;
    } else {
      var u := unselected[|unselected| - 1];
      hide PassedOver, Sum;
      forall j: nat | j < u && j !in at + [u] ensures PassedOver(s, at + [u], j, amount) {
        EarlierPassed(s, selected, at, u, j, amount);
      }
      RestFallsShort(s, selected, at, u);
      CoversAll(s, at, u, amount);
      assert (at + [u])[..|at|] == at;
    }
  }

  lemma CoversAll(s: seq<Coin>, at: seq<nat>, u: nat, amount: nat)
    requires Increasing(at, u) && u < |s| && Sum(Pick(s, at)) + s[u].amount >= amount
    ensures Sum(s) >= amount
  {
    PickAppend(s, at, u);
    PickWithin(s, at + [u]);
    SumIsValue(s);
  }

  lemma EarlierPassed(s: seq<Coin>, selected: seq<nat>, at: seq<nat>, u: nat, j: nat, amount: nat)
    requires Increasing(selected, |s|) && |at| <= |selected| && selected[..|at|] == at && Increasing(at, u)
    requires u < |s| && forall a :: |at| <= a < |selected| ==> selected[a] > u
    requires j < u && j !in at && (j !in selected ==> PassedOver(s, selected, j, amount))
    ensures PassedOver(s, at + [u], j, amount)
  {
    hide Sum;
    forall a | 0 <= a < |selected| ensures selected[a] != j {
      if a < |at| {
        assert at[a] == selected[a];
      }
    }
    var m: nat :| m <= |selected| && Parted(selected, m, j) && Sum(Pick(s, selected[..m])) + s[j].amount > amount;
    assert |at| < |selected| ==> selected[|at|] > u;
    assert m <= |at|;
    assert forall a :: 0 <= a < |at| ==> at[a] == selected[a];
    assert (at + [u])[..m] == selected[..m];
    PassedOverAt(s, at + [u], j, m, amount);
  }

  lemma RestFallsShort(s: seq<Coin>, selected: seq<nat>, at: seq<nat>, u: nat)
    requires Increasing(selected, |s|) && |at| <= |selected| && selected[..|at|] == at && Indices(at, |s|) && u < |s|
    requires |selected| == |at| + |s| - u - 1
    requires forall a :: |at| <= a < |selected| ==> selected[a] == u + 1 + a - |at|
    ensures Sum(Pick(s, at)) + Sum(s[u + 1..]) == Sum(Pick(s, selected))
  {
    assert forall a :: 0 <= a < |at| ==> at[a] == selected[a];
    assert Pick(s, selected) == Pick(s, at) + s[u + 1..];
    SumIsValue(Pick(s, selected));
    SumIsValue(Pick(s, at));
    SumIsValue(s[u + 1..]);
    ValueUnion(multiset(Pick(s, at)), multiset(s[u + 1..]));
  }

  lemma WalkSums(s: seq<Coin>, i: nat, selected: seq<nat>, unselected: seq<nat>, at: seq<nat>, opt: nat, amount: nat)
    requires Walk(s, i, selected, unselected, at, opt, amount)
    ensures Increasing(selected, |s|) && opt == Sum(Pick(s, selected)) && opt < amount
  {
  }

  lemma TrailStarts(s: seq<Coin>, amount: nat)
    ensures Trail(s, 0, [], [], [], amount)
  {
  }

  lemma SumEmpty(s: seq<Coin>)
    ensures Sum(s[..0]) == 0
  {
  }

  lemma PrefixWithin(s: seq<Coin>, i: nat)
    requires i < |s|
    ensures Sum(s[..i + 1]) == Sum(s[..i]) + s[i].amount <= Value(multiset(s))
  {
    assert s[..i + 1][..i] == s[..i];
    SumIsValue(s[..i + 1]);
    assert s == s[..i + 1] + s[i + 1..];
    ValueSub(multiset(s[..i + 1]), multiset(s));
  }

  /** The walk over the sorted coins: which indices are selected. */
  method Choose(amount: nat, s: seq<Coin>, maxAmount: nat) returns (ok: bool, selected: seq<nat>, sumReserve: nat)
    requires Descending(s) && amount > 0
    ensures ok ==> Chosen(s, selected, amount) && Greedy(s, selected, amount) && sumReserve <= maxAmount
    ensures !ok ==> Value(multiset(s)) > maxAmount
  {
    hide Walk, Chosen, Descending, Sum, Value, Trail, Greedy;
    ok, selected, sumReserve := true, [], 0;
    var unselected: seq<nat>, optAmount: nat := [], 0;
    ghost var at: seq<nat> := [];
    WalkStarts(s, amount);
    TrailStarts(s, amount);
    SumEmpty(s);
    for index := 0 to |s|
      invariant ok && Walk(s, index, selected, unselected, at, optAmount, amount)
      invariant Trail(s, index, selected, unselected, at, amount)
      invariant optAmount <= sumReserve == Sum(s[..index]) <= maxAmount
      invariant (index == |s| ==> index == 0) && (index == 0 ==> unselected == [])
    {
      PrefixWithin(s, index);
      WalkSums(s, index, selected, unselected, at, optAmount, amount);
      ghost var before := optAmount;
      sumReserve := sumReserve + s[index].amount;
      optAmount := optAmount + s[index].amount;
      if sumReserve > maxAmount || optAmount > maxAmount {
        ok := false;
        return;
      }
      if index == |s| - 1 {
        if optAmount < amount {
          WalkSelect(s, index, selected, unselected, at, before, amount);
          TrailSelect(s, index, selected, unselected, at, amount);
          selected := selected + [index];
          WalkEnds(s, selected, unselected, at, optAmount, amount);
          TrailEnds(s, selected, unselected, at, optAmount, amount);
          if unselected != [] {
            var lastUnsel := unselected[|unselected| - 1];
            selected := Below(selected, lastUnsel, at);
            selected := selected + [lastUnsel];
          }
        } else {
          WalkReaches(s, index, selected, unselected, at, before, amount);
          TrailReaches(s, index, selected, unselected, at, before, amount);
          selected := selected + [index];
        }
        return;
      }
      if optAmount > amount {
        WalkReject(s, index, selected, unselected, at, before, amount);
        TrailReject(s, index, selected, unselected, at, before, amount);
        unselected, at := unselected + [index], selected;
        optAmount := optAmount - s[index].amount;
        continue;
      }
      if optAmount == amount {
        WalkReaches(s, index, selected, unselected, at, before, amount);
        TrailReaches(s, index, selected, unselected, at, before, amount);
        selected := selected + [index];
        return;
      }
      WalkSelect(s, index, selected, unselected, at, before, amount);
      TrailSelect(s, index, selected, unselected, at, amount);
      selected := selected + [index];
    }
    WalkEnds(s, selected, unselected, at, optAmount, amount);
    TrailEnds(s, selected, unselected, at, optAmount, amount);
  }

  method Collect(s: seq<Coin>, selected: seq<nat>, maxAmount: nat)
    returns (ok: bool, selections: seq<Coin>, sumSelection: nat)
    requires Increasing(selected, |s|)
    ensures ok ==> selections == Pick(s, selected) && sumSelection == Sum(selections) <= maxAmount
    ensures !ok ==> Value(multiset(s)) > maxAmount
  {
    ok, selections, sumSelection := true, [], 0;
    for i := 0 to |selected|
      invariant ok && selections == Pick(s, selected[..i]) && sumSelection == Sum(selections) <= maxAmount
    {
      assert Pick(s, selected[..i + 1]) == selections + [s[selected[i]]];
      SumAppend(selections, s[selected[i]]);
      if sumSelection + s[selected[i]].amount > maxAmount {
        PickWithin(s, selected[..i + 1]);
        ok := false;
        return;
      }
      sumSelection := sumSelection + s[selected[i]].amount;
      selections := selections + [s[selected[i]]];
    }
    assert selected[..|selected|] == selected;
  }

  lemma PickWithin(s: seq<Coin>, idx: seq<nat>)
    requires Increasing(idx, |s|)
    ensures Sum(Pick(s, idx)) <= Value(multiset(s))
  {
    PickIsPart(s, idx, |s|);
    assert s[..|s|] == s;
    SumIsValue(Pick(s, idx));
    ValueSub(multiset(Pick(s, idx)), multiset(s));
  }

  method OptOutputs(amount: nat, utxos: array<Coin>, maxAmount: nat)
    returns (ok: bool, selections: seq<Coin>, sumSelection: nat, sumReserve: nat)
    modifies utxos
    ensures multiset(utxos[..]) == old(multiset(utxos[..]))
    ensures amount == 0 ==> ok && selections == []
    ensures ok ==> sumSelection == Sum(selections)
    ensures ok && amount > 0 ==> Selection(selections, multiset(utxos[..]), amount)
    ensures ok && amount > 0 ==>
      Descending(utxos[..]) &&
      exists idx :: Greedy(utxos[..], idx, amount) && selections == Pick(utxos[..], idx)
    ensures ok ==> sumSelection <= maxAmount && sumReserve <= maxAmount
    ensures !ok ==> Value(multiset(utxos[..])) > maxAmount
  {
    ok, selections, sumSelection, sumReserve := true, [], 0, 0;
    if amount == 0 {
      return;
    }
    var s := SortDescending(utxos[..]);
    assert |multiset(s)| == |multiset(utxos[..])|;
    forall i | 0 <= i < utxos.Length {
      utxos[i] := s[i];
    }
    assert utxos[..] == s;
    var selected;
    ok, selected, sumReserve := Choose(amount, s, maxAmount);
    if !ok {
      return;
    }
    ok, selections, sumSelection := Collect(s, selected, maxAmount);
  }

  /** The candidates kept from the eligible coins: the k largest of those within the amount, and the smallest
      of those above it. */
  ghost predicate Split(items: seq<Coin>, coins: multiset<Coin>, amount: nat, k: nat,
                        base: multiset<Coin>, guard: Option<Coin>, low: multiset<Coin>, high: multiset<Coin>) {
    low + high == coins && Largest(base, low, k) && Within(low, amount) && GuardOf(guard, high, amount) &&
    multiset(items) == base + (if guard.Some? then multiset{guard.value} else multiset{})
  }

  ghost predicate Candidates(items: seq<Coin>, coins: multiset<Coin>, amount: nat, k: nat) {
    exists base, guard, low, high :: Split(items, coins, amount, k, base, guard, low, high)
  }

  /** Of the coins above the amount, one of the smallest is kept, if there is any. */
  ghost predicate KeptAbove(items: seq<Coin>, coins: multiset<Coin>, amount: nat) {
    (forall x <- items, y <- coins | x.amount > amount && y.amount > amount :: x.amount <= y.amount) &&
    (forall i, j | 0 <= i < j < |items| :: items[i].amount <= amount || items[j].amount <= amount) &&
    ((exists x <- items :: x.amount > amount) <==> exists y <- coins :: y.amount > amount)
  }

  /** Of the coins within the amount, none left out is larger than one kept, and some are left out only if k are
      kept. */
  ghost predicate KeptWithin(items: seq<Coin>, coins: multiset<Coin>, amount: nat, k: nat) {
    (forall x <- items, y <- coins - multiset(items) | x.amount <= amount && y.amount <= amount ::
       x.amount >= y.amount) &&
    var kept := if exists x <- items :: x.amount > amount then |items| - 1 else |items|;
    kept <= k && (kept < k ==> forall y <- coins - multiset(items) :: y.amount > amount)
  }

  /** Which coins are kept, coin by coin. */
  ghost predicate Kept(items: seq<Coin>, coins: multiset<Coin>, amount: nat, k: nat) {
    multiset(items) <= coins && KeptAbove(items, coins, amount) && KeptWithin(items, coins, amount, k)
  }

  lemma SplitKeeps(items: seq<Coin>, coins: multiset<Coin>, amount: nat, k: nat,
                   base: multiset<Coin>, guard: Option<Coin>, low: multiset<Coin>, high: multiset<Coin>)
    requires Split(items, coins, amount, k, base, guard, low, high)
    ensures Kept(items, coins, amount, k)
  {
    hide Largest, KeptAbove, KeptWithin, GuardOf, Within;
    LeftOverSmaller(base, low, k);
    SplitAbove(items, coins, amount, base, guard, low, high);
    SplitWithin(items, coins, amount, k, base, guard, low, high);
    GuardIsThere(guard, high, amount);
  }

  lemma GuardIsThere(guard: Option<Coin>, high: multiset<Coin>, amount: nat)
    requires GuardOf(guard, high, amount)
    ensures (if guard.Some? then multiset{guard.value} else multiset{}) <= high
    ensures guard.Some? ==> guard.value.amount > amount
    ensures guard.None? ==> high == multiset{}
  {
  }

  lemma SplitAbove(items: seq<Coin>, coins: multiset<Coin>, amount: nat,
                   base: multiset<Coin>, guard: Option<Coin>, low: multiset<Coin>, high: multiset<Coin>)
    requires low + high == coins && base <= low && Within(low, amount) && GuardOf(guard, high, amount)
    requires multiset(items) == base + (if guard.Some? then multiset{guard.value} else multiset{})
    ensures KeptAbove(items, coins, amount)
  {
    var g := if guard.Some? then multiset{guard.value} else multiset{};
    ItemsAre(items, base, g);
    assert forall x <- base :: x in low && x.amount <= amount;
    OneGuard(items, base, guard, amount);
    assert forall y <- coins :: y in low || y in high;
    if guard.Some? {
      assert guard.value in g && guard.value in items && guard.value in coins;
    }
  }

  lemma SplitWithin(items: seq<Coin>, coins: multiset<Coin>, amount: nat, k: nat,
                    base: multiset<Coin>, guard: Option<Coin>, low: multiset<Coin>, high: multiset<Coin>)
    requires low + high == coins && Largest(base, low, k) && Within(low, amount) && GuardOf(guard, high, amount)
    requires multiset(items) == base + (if guard.Some? then multiset{guard.value} else multiset{})
    ensures KeptWithin(items, coins, amount, k)
  {
    hide Largest, GuardOf;
    var g := if guard.Some? then multiset{guard.value} else multiset{};
    ItemsAre(items, base, g);
    LeftOverSmaller(base, low, k);
    GuardIsThere(guard, high, amount);
    AllAbove(high, guard, amount);
    LeftOut(items, coins, amount, base, g, low, high);
    assert forall x <- base :: x in low && x.amount <= amount;
    assert |multiset(items)| == |items| == |base| + |g|;
    assert guard.Some? ==> guard.value in g;
  }

  lemma AllAbove(high: multiset<Coin>, guard: Option<Coin>, amount: nat)
    requires GuardOf(guard, high, amount)
    ensures forall c <- high :: c.amount > amount
  {
  }

  lemma ItemsAre(items: seq<Coin>, base: multiset<Coin>, g: multiset<Coin>)
    requires multiset(items) == base + g
    ensures forall x :: x in items <==> x in base || x in g
  {
    forall x ensures x in items <==> x in base || x in g {
      assert x in items <==> x in multiset(items);
    }
  }

  lemma LeftOverSmaller(base: multiset<Coin>, low: multiset<Coin>, k: nat)
    requires Largest(base, low, k)
    ensures base <= low && |base| <= k
    ensures |base| < k ==> low - base == multiset{}
    ensures forall x <- base, y <- low - base :: x.amount >= y.amount
  {
    if |base| < k {
      PartIsSmaller(base, low);
    }
  }

  /** A coin above the amount is kept once. */
  lemma OneGuard(items: seq<Coin>, base: multiset<Coin>, guard: Option<Coin>, amount: nat)
    requires multiset(items) == base + (if guard.Some? then multiset{guard.value} else multiset{})
    requires forall x <- base :: x.amount <= amount
    ensures forall i, j | 0 <= i < j < |items| :: items[i].amount <= amount || items[j].amount <= amount
  {
    forall i, j | 0 <= i < j < |items| ensures items[i].amount <= amount || items[j].amount <= amount {
      var x, y := items[i], items[j];
      assert items == items[..j] + [y] + items[j + 1..];
      assert x == items[..j][i] && x in multiset(items[..j]);
      assert multiset(items) == multiset(items[..j]) + multiset{y} + multiset(items[j + 1..]);
      assert multiset(items)[x] >= 1 && multiset(items)[y] >= 1 && (x == y ==> multiset(items)[x] >= 2);
    }
  }

  /** What is left out of the coins within the amount. */
  lemma LeftOut(items: seq<Coin>, coins: multiset<Coin>, amount: nat, base: multiset<Coin>, g: multiset<Coin>,
                low: multiset<Coin>, high: multiset<Coin>)
    requires low + high == coins && multiset(items) == base + g && base <= low && g <= high
    requires (forall c <- high :: c.amount > amount) && forall c <- low :: c.amount <= amount
    ensures forall y <- coins - multiset(items) | y.amount <= amount :: y in low - base
  {
    forall y <- coins - multiset(items) | y.amount <= amount ensures y in low - base {
      assert high[y] == 0 && g[y] == 0;
    }
  }

  method GetCandidates(coins: seq<Coin>, wantAmt: nat, k: nat) returns (items: seq<Coin>, overfull: bool)
    ensures Candidates(items, multiset(coins), wantAmt, k)
    ensures Kept(items, multiset(coins), wantAmt, k)
    ensures overfull == (|items| == k)
  {
    hide Largest, Within, GuardOf, Heap, Kept;
    var selector := new TopKSelector(k, wantAmt);
    for i := 0 to |coins|
      invariant selector.Valid() && selector.low + selector.high == multiset(coins[..i])
    {
      assert coins[..i + 1] == coins[..i] + [coins[i]];
      selector.Submit(coins[i]);
    }
    assert coins[..|coins|] == coins;
    items := selector.Items();
    overfull := |items| == k;
    assert Split(items, multiset(coins), wantAmt, k, multiset(selector.base), selector.guard, selector.low,
        selector.high);
    SplitKeeps(items, multiset(coins), wantAmt, k, multiset(selector.base), selector.guard, selector.low,
        selector.high);
  }

  /** What a bounded selection promises about all eligible coins. */
  ghost predicate Bounded(sel: seq<Coin>, coins: multiset<Coin>, amount: nat, k: nat) {
    multiset(sel) <= coins &&
    (k >= 1 ==> |sel| <= k) &&
    (Sum(sel) >= amount ==> Minimal(sel, amount)) &&
    (forall s: multiset<Coin> | s <= coins && |s| <= k && Value(s) >= amount :: Sum(sel) >= amount)
  }

  lemma PartIsSmaller(m: multiset<Coin>, n: multiset<Coin>)
    requires m <= n
    ensures |m| <= |n| && (|m| == |n| ==> m == n)
  {
    assert n == m + (n - m);
    assert |n| == |m| + |n - m|;
  }

  lemma OthersLeave(sel: seq<Coin>, g: Coin)
    requires g in sel
    ensures forall c <- multiset(sel) - multiset{g} :: c in sel && Sum(sel) - c.amount >= g.amount
  {
    var m := multiset(sel);
    SumIsValue(sel);
    ValueRemove(m, g);
    forall c <- m - multiset{g} ensures c in sel && Sum(sel) - c.amount >= g.amount {
      ValueRemove(m - multiset{g}, c);
    }
  }

  /** A minimal selection with a coin above the amount holds no other coin. */
  lemma AboveIsAlone(sel: seq<Coin>, g: Coin, amount: nat)
    requires Minimal(sel, amount) && g in sel && g.amount > amount
    ensures |sel| == 1
  {
    OthersLeave(sel, g);
    var m := multiset(sel);
    assert m == multiset{g} + (m - multiset{g});
    assert m - multiset{g} == multiset{};
    assert |m| == |sel|;
  }

  lemma GuardCovers(items: seq<Coin>, sel: seq<Coin>, amount: nat, k: nat, base: multiset<Coin>, g: Coin)
    requires multiset(items) == base + multiset{g} && g.amount > amount && |base| <= k
    requires Selection(sel, multiset(items), amount)
    ensures Sum(sel) >= amount && (k >= 1 ==> |sel| <= k)
  {
    ValueAdd(base, g);
    if g in sel {
      AboveIsAlone(sel, g, amount);
    } else {
      assert multiset(sel) <= base;
      PartIsSmaller(multiset(sel), base);
      assert |multiset(sel)| == |sel|;
    }
  }

  lemma BaseCovers(items: seq<Coin>, sel: seq<Coin>, amount: nat, k: nat, low: multiset<Coin>)
    requires Largest(multiset(items), low, k) && Selection(sel, multiset(items), amount)
    ensures |sel| <= k
    ensures forall s: multiset<Coin> | s <= low && |s| <= k && Value(s) >= amount :: Sum(sel) >= amount
    ensures Sum(sel) < amount ==> multiset(sel) == multiset(items)
    ensures |items| == k <==> |low| >= k
    ensures |items| != k ==> multiset(items) == low
  {
    assert |multiset(items)| == |items| && |multiset(sel)| == |sel|;
    PartIsSmaller(multiset(sel), multiset(items));
    PartIsSmaller(multiset(items), low);
    SumIsValue(sel);
    forall s: multiset<Coin> | s <= low && |s| <= k && Value(s) >= amount ensures Sum(sel) >= amount {
      LargestIsBest(multiset(items), low, k, s);
    }
  }

  lemma CandidatesAreCoins(items: seq<Coin>, sel: seq<Coin>, coins: multiset<Coin>, amount: nat, k: nat)
    requires Candidates(items, coins, amount, k) && multiset(sel) <= multiset(items)
    ensures multiset(sel) <= coins
  {
    var base, guard, low, high :| Split(items, coins, amount, k, base, guard, low, high);
    assert multiset(items) <= low + high;
  }

  /** The bounded candidates lose nothing: whenever some set of at most k eligible coins covers the amount,
      the selection from the candidates does, and it never holds more than k coins. */
  lemma BoundedLosesNothing(items: seq<Coin>, sel: seq<Coin>, coins: multiset<Coin>, amount: nat, k: nat)
    requires Candidates(items, coins, amount, k) && Selection(sel, multiset(items), amount)
    ensures Bounded(sel, coins, amount, k)
    ensures Sum(sel) < amount ==> (|sel| == |items| == k <==> |coins| >= k)
    ensures Sum(sel) < amount && |coins| < k ==> multiset(sel) == coins
  {
    hide Largest, Within;
    CandidatesAreCoins(items, sel, coins, amount, k);
    SumIsValue(sel);
    var base, guard, low, high :| Split(items, coins, amount, k, base, guard, low, high);
    if guard.None? {
      NoGuard(items, coins, amount, k, base, low, high);
      BaseCovers(items, sel, amount, k, low);
      assert |multiset(items)| == |items| && |multiset(sel)| == |sel|;
    } else {
      LargestSize(base, low, k);
      GuardCovers(items, sel, amount, k, base, guard.value);
    }
  }

  lemma NoGuard(items: seq<Coin>, coins: multiset<Coin>, amount: nat, k: nat,
                base: multiset<Coin>, low: multiset<Coin>, high: multiset<Coin>)
    requires Split(items, coins, amount, k, base, None, low, high)
    ensures coins == low && multiset(items) == base && Largest(multiset(items), low, k)
  {
  }

  lemma LargestSize(b: multiset<Coin>, low: multiset<Coin>, k: nat)
    requires Largest(b, low, k)
    ensures |b| <= k
  {
  }

  datatype Eligible = InvalidParameter | OutOfRange | Eligible(selections: seq<Coin>, found: nat, overfull: bool)

  /** What a search for eligible coins promises. When it finds too little, it reports an overfull wallet
      exactly if there are k eligible coins or more. */
  ghost predicate Search(r: Eligible, coins: multiset<Coin>, amount: nat, k: nat, maxAmount: nat) {
    match r
    case InvalidParameter => amount == 0
    case OutOfRange => Value(coins) > maxAmount
    case Eligible(sel, found, overfull) =>
      found == Sum(sel) <= maxAmount && Bounded(sel, coins, amount, k) &&
      (found < amount ==> (overfull <==> |coins| >= k) && (|coins| < k ==> multiset(sel) == coins))
  }

  method FindEligibleUtxos(amount: nat, coins: seq<Coin>, k: nat, maxAmount: nat) returns (r: Eligible)
    ensures Search(r, multiset(coins), amount, k, maxAmount)
    ensures r.InvalidParameter? <==> amount == 0
  {
    hide Candidates, Selection, Bounded;
    if amount == 0 {
      return InvalidParameter;
    }
    var items, overfull := GetCandidates(coins, amount, k);
    var utxos := new Coin[|items|](i requires 0 <= i < |items| => items[i]);
    assert utxos[..] == items;
    var ok, selections, found, reserve := OptOutputs(amount, utxos, maxAmount);
    if !ok {
      CandidatesWorth(items, multiset(coins), amount, k);
      return OutOfRange;
    }
    BoundedLosesNothing(items, selections, multiset(coins), amount, k);
    assert |multiset(utxos[..])| == |multiset(items)|;
    r := Eligible(selections, found, overfull && utxos.Length == |selections|);
  }

  lemma CandidatesWorth(items: seq<Coin>, coins: multiset<Coin>, amount: nat, k: nat)
    requires Candidates(items, coins, amount, k)
    ensures Value(multiset(items)) <= Value(coins)
  {
    CandidatesAreCoins(items, items, coins, amount, k);
    ValueSub(multiset(items), coins);
  }
}
