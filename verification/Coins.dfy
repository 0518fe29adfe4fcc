/** Coins offered to a new transaction, and sums of their amounts. */
module Coins {
  import opened Ledger

  /** An eligible coin: what it spends, its amount, and the class, length and number of required signatures
      of its redeem script. */
  datatype Coin = Coin(op: OutPoint, amount: nat, multisig: bool, scriptLen: nat, nRequired: nat)

  function Sum(cs: seq<Coin>): nat {
    if cs == [] then 0 else Sum(cs[..|cs| - 1]) + cs[|cs| - 1].amount
  }

  lemma SumAppend(cs: seq<Coin>, c: Coin)
    ensures Sum(cs + [c]) == Sum(cs) + c.amount
  {
    assert (cs + [c])[..|cs|] == cs;
  }

  lemma {:induction false} SumPrefix(cs: seq<Coin>, i: nat)
    requires i <= |cs|
    ensures Sum(cs[..i]) <= Sum(cs)
    decreases |cs|
  {
    if i == |cs| {
      assert cs[..i] == cs;
    } else {
      SumPrefix(cs[..|cs| - 1], i);
      assert cs[..|cs| - 1][..i] == cs[..i];
    }
  }

  /** The sum of a multiset of coins. */
  ghost function Value(m: multiset<Coin>): nat
    decreases |m|
  {
    if m == multiset{} then 0 else var c :| c in m; c.amount + Value(m - multiset{c})
  }

  lemma {:induction false} ValueRemove(m: multiset<Coin>, c: Coin)
    requires c in m
    ensures Value(m) == c.amount + Value(m - multiset{c})
    decreases |m|
  {
    var d :| d in m && Value(m) == d.amount + Value(m - multiset{d});
    if d != c {
      ValueRemove(m - multiset{d}, c);
      ValueRemove(m - multiset{c}, d);
      assert m - multiset{d} - multiset{c} == m - multiset{c} - multiset{d};
    }
  }

  lemma ValueAdd(m: multiset<Coin>, c: Coin)
    ensures Value(m + multiset{c}) == Value(m) + c.amount
  {
    ValueRemove(m + multiset{c}, c);
    assert m + multiset{c} - multiset{c} == m;
  }

  lemma {:induction false} SumIsValue(cs: seq<Coin>)
    ensures Sum(cs) == Value(multiset(cs))
  {
    if cs != [] {
      var n := |cs| - 1;
      SumIsValue(cs[..n]);
      assert cs == cs[..n] + [cs[n]];
      ValueAdd(multiset(cs[..n]), cs[n]);
    }
  }

  lemma {:induction false} ValueUnion(m: multiset<Coin>, n: multiset<Coin>)
    ensures Value(m + n) == Value(m) + Value(n)
    decreases |n|
  {
    if n == multiset{} {
      assert m + n == m;
    } else {
      var c :| c in n;
      ValueUnion(m, n - multiset{c});
      assert m + (n - multiset{c}) + multiset{c} == m + n;
      ValueAdd(m + (n - multiset{c}), c);
      ValueRemove(n, c);
    }
  }

  lemma ValueSub(m: multiset<Coin>, n: multiset<Coin>)
    requires m <= n
    ensures Value(m) <= Value(n)
  {
    ValueUnion(m, n - m);
    assert m + (n - m) == n;
  }

  /** Fewer coins, each no larger than each of the others, are worth no more. */
  lemma {:induction false} ValuePairs(s: multiset<Coin>, b: multiset<Coin>)
    requires |s| <= |b| && forall x <- s, y <- b :: x.amount <= y.amount
    ensures Value(s) <= Value(b)
    decreases |s|
  {
    if s != multiset{} {
      var x :| x in s;
      var y :| y in b;
      ValueRemove(s, x);
      ValueRemove(b, y);
      ValuePairs(s - multiset{x}, b - multiset{y});
    }
  }
}
