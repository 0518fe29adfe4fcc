/** The ledger invariant: the buckets are redundant indexes of the same facts and agree. */
module LedgerInvariant {
  import opened Wrappers
  import opened Ledger

  ghost predicate UnspentIndexed(env: Env, b: Buckets) {
    forall uk <- b.unspent ::
      var ck := CreditKey(uk.op, b.unspent[uk]);
      ck in b.credits && b.credits[ck].spentBy.None? &&
      b.credits[ck].script in env.owner && env.owner[b.credits[ck].script] == uk.wallet
  }

  ghost predicate CreditsIndexed(env: Env, b: Buckets) {
    forall ck <- b.credits ::
      var c := b.credits[ck];
      c.script in env.owner &&
      match c.spentBy
      case None =>
        var uk := UnspentKey(env.owner[c.script], ck.op);
        uk in b.unspent && b.unspent[uk] == ck.block
      case Some(dk) => dk in b.debits && b.debits[dk] == Debit(c.amount, ck)
  }

  ghost predicate DebitsIndexed(b: Buckets) {
    forall dk <- b.debits ::
      b.debits[dk].credit in b.credits && b.credits[b.debits[dk].credit].spentBy == Some(dk)
  }

  /** A transaction hash is mined at most once, so an outpoint names one credit. */
  ghost predicate OutPointsUnique(b: Buckets) {
    forall ck <- b.credits, ck' <- b.credits :: ck.op == ck'.op ==> ck == ck'
  }

  /** An unspent entry exists iff its credit exists unspent; spent credits and debits are in
      bijection through the spender field. */
  ghost predicate Consistent(env: Env, b: Buckets) {
    UnspentIndexed(env, b) && CreditsIndexed(env, b) && DebitsIndexed(b) && OutPointsUnique(b)
  }

  // ---------- balances ----------

  ghost function Coins(b: Buckets, w: WalletId): set<UnspentKey> {
    set uk <- b.unspent | uk.wallet == w
  }

  function Worth(b: Buckets, uk: UnspentKey): nat {
    if uk in b.unspent && CreditKey(uk.op, b.unspent[uk]) in b.credits
    then b.credits[CreditKey(uk.op, b.unspent[uk])].amount else 0
  }

  ghost function Total(b: Buckets, s: set<UnspentKey>): nat {
    if s == {} then 0 else var x :| x in s; Worth(b, x) + Total(b, s - {x})
  }

  lemma {:induction false} TotalRemove(b: Buckets, s: set<UnspentKey>, x: UnspentKey)
    requires x in s
    ensures Total(b, s) == Worth(b, x) + Total(b, s - {x})
  {
    var y :| y in s && Total(b, s) == Worth(b, y) + Total(b, s - {y});
    if y != x {
      TotalRemove(b, s - {y}, x);
      TotalRemove(b, s - {x}, y);
      assert s - {y} - {x} == s - {x} - {y};
    }
  }

  lemma {:induction false} TotalFrame(b: Buckets, b': Buckets, s: set<UnspentKey>)
    requires forall x <- s :: Worth(b, x) == Worth(b', x)
    ensures Total(b, s) == Total(b', s)
  {
    if s != {} {
      var x :| x in s;
      TotalFrame(b, b', s - {x});
      TotalRemove(b, s, x);
      TotalRemove(b', s, x);
    }
  }

  /** Adding one unspent entry moves the total of its wallet by its worth and no other total. */
  lemma TotalInsert(b: Buckets, b': Buckets, uk: UnspentKey, w: WalletId)
    requires uk !in b.unspent && b'.unspent.Keys == b.unspent.Keys + {uk}
    requires forall x <- b.unspent :: Worth(b, x) == Worth(b', x)
    ensures Total(b', Coins(b', w)) == Total(b, Coins(b, w)) + if w == uk.wallet then Worth(b', uk) else 0
  {
    TotalFrame(b, b', Coins(b, w));
    if w == uk.wallet {
      assert Coins(b', w) - {uk} == Coins(b, w);
      TotalRemove(b', Coins(b', w), uk);
    } else {
      assert Coins(b', w) == Coins(b, w);
    }
  }

  lemma {:induction false} TotalMonotone(b: Buckets, s: set<UnspentKey>, x: UnspentKey)
    requires x in s
    ensures Worth(b, x) <= Total(b, s)
  {
    TotalRemove(b, s, x);
  }

  lemma {:induction false} TotalUnion(b: Buckets, s: set<UnspentKey>, r: set<UnspentKey>)
    requires s !! r
    ensures Total(b, s + r) == Total(b, s) + Total(b, r)
  {
    if r == {} {
      assert s + r == s;
    } else {
      var x :| x in r;
      TotalUnion(b, s, r - {x});
      assert s + r - {x} == s + (r - {x});
      TotalRemove(b, s + r, x);
      TotalRemove(b, r, x);
    }
  }

  lemma TotalSubset(b: Buckets, s: set<UnspentKey>, r: set<UnspentKey>)
    requires s <= r
    ensures Total(b, s) <= Total(b, r)
  {
    TotalUnion(b, s, r - s);
    assert s + (r - s) == r;
  }

  /** Each wallet's stored balance is the sum of its unspent credits. */
  ghost predicate Balanced(l: Ledger) {
    (forall uk <- l.b.unspent :: uk.wallet in l.balances) &&
    (forall w <- l.balances :: l.balances[w] == Total(l.b, Coins(l.b, w)))
  }

  ghost predicate Inv(env: Env, l: Ledger) {
    Consistent(env, l.b) && Balanced(l)
  }

  /** No bucket mentions the transaction hash h. */
  ghost predicate Fresh(b: Buckets, h: Hash) {
    (forall ck <- b.credits :: ck.op.hash != h) &&
    (forall dk <- b.debits :: dk.hash != h) &&
    (forall uk <- b.unspent :: uk.op.hash != h)
  }

  /** One more unspent entry, balance raised by its worth. */
  lemma BalanceUp(l: Ledger, l': Ledger, uk: UnspentKey, a: nat)
    requires Balanced(l) && uk !in l.b.unspent && l'.b.unspent.Keys == l.b.unspent.Keys + {uk}
    requires forall x <- l.b.unspent :: Worth(l.b, x) == Worth(l'.b, x)
    requires Worth(l'.b, uk) == a
    requires uk.wallet in l.balances && l'.balances == l.balances[uk.wallet := l.balances[uk.wallet] + a]
    ensures Balanced(l')
  {
    forall w <- l'.balances ensures l'.balances[w] == Total(l'.b, Coins(l'.b, w)) {
      TotalInsert(l.b, l'.b, uk, w);
    }
  }

  /** One unspent entry less, balance lowered by its worth; it never goes negative. */
  lemma BalanceDown(l: Ledger, l': Ledger, uk: UnspentKey, a: nat)
    requires Balanced(l) && uk in l.b.unspent && l'.b.unspent.Keys == l.b.unspent.Keys - {uk}
    requires forall x <- l'.b.unspent :: Worth(l.b, x) == Worth(l'.b, x)
    requires Worth(l.b, uk) == a
    requires l.balances[uk.wallet] >= a ==> l'.balances == l.balances[uk.wallet := l.balances[uk.wallet] - a]
    ensures l.balances[uk.wallet] >= a
    ensures Balanced(l')
  {
    TotalMonotone(l.b, Coins(l.b, uk.wallet), uk);
    forall w <- l'.balances ensures l'.balances[w] == Total(l'.b, Coins(l'.b, w)) {
      TotalInsert(l'.b, l.b, uk, w);
    }
  }

  // ---------- forward steps keep the invariant ----------

  /** The wallets that can receive a coin have a stored balance. */
  ghost predicate Funded(env: Env, l: Ledger) {
    env.ready <= l.balances.Keys
  }

  /** b' is b with the coin uk spent by dk. */
  ghost predicate SpentCoin(b: Buckets, b': Buckets, uk: UnspentKey, dk: DebitKey) {
    uk in b.unspent && dk !in b.debits &&
    var ck := CreditKey(uk.op, b.unspent[uk]);
    ck in b.credits &&
    b' == Buckets(b.credits[ck := b.credits[ck].(spentBy := Some(dk))],
                  b.debits[dk := Debit(b.credits[ck].amount, ck)], b.unspent - {uk})
  }

  lemma SpendUnspent(env: Env, b: Buckets, b': Buckets, uk: UnspentKey, dk: DebitKey)
    requires UnspentIndexed(env, b) && SpentCoin(b, b', uk, dk) && Consistent(env, b)
    ensures UnspentIndexed(env, b')
  {
    var ck := CreditKey(uk.op, b.unspent[uk]);
    forall x <- b'.unspent ensures CreditKey(x.op, b'.unspent[x]) != ck { }
  }

  lemma SpendCredits(env: Env, b: Buckets, b': Buckets, uk: UnspentKey, dk: DebitKey)
    requires CreditsIndexed(env, b) && SpentCoin(b, b', uk, dk) && Consistent(env, b)
    ensures CreditsIndexed(env, b')
  {
    var ck := CreditKey(uk.op, b.unspent[uk]);
    forall k <- b'.credits ensures k != ck && b.credits[k].spentBy.None? ==>
        UnspentKey(env.owner[b.credits[k].script], k.op) != uk { }
  }

  lemma SpendConsistent(env: Env, b: Buckets, b': Buckets, uk: UnspentKey, dk: DebitKey)
    requires Consistent(env, b) && SpentCoin(b, b', uk, dk)
    ensures Consistent(env, b')
  {
    SpendUnspent(env, b, b', uk, dk);
    SpendCredits(env, b, b', uk, dk);
    hide UnspentIndexed, CreditsIndexed;
    assert DebitsIndexed(b');
  }

  lemma SpendKeeps(env: Env, l: Ledger, t: Tx, blk: BlockId, i: nat)
    requires RelIn(env, t, i) && Inv(env, l) && DebitKey(t.hash, blk, i) !in l.b.debits
    requires Spend(env, l, t, blk, i).Some?
    ensures Inv(env, Spend(env, l, t, blk, i).value)
    ensures Spend(env, l, t, blk, i).value.balances.Keys == l.balances.Keys
  {
    hide UnspentIndexed, CreditsIndexed, DebitsIndexed, OutPointsUnique;
    var l' := Spend(env, l, t, blk, i).value;
    var uk := InKey(env, t, i);
    SpendConsistent(env, l.b, l'.b, uk, DebitKey(t.hash, blk, i));
    BalanceDown(l, l', uk, Worth(l.b, uk));
  }

  lemma AddConsistent(env: Env, b: Buckets, b': Buckets, ck: CreditKey, c: Credit)
    requires Consistent(env, b) && ck !in b.credits && c.script in env.owner && c.spentBy.None?
    requires forall k <- b.credits :: k.op != ck.op
    requires b' == b.(credits := b.credits[ck := c],
                      unspent := b.unspent[UnspentKey(env.owner[c.script], ck.op) := ck.block])
    ensures Consistent(env, b')
  {
    NewCoinUnspent(env, b, b', ck, c);
    NewCoinCredits(env, b, b', ck, c);
    hide UnspentIndexed, CreditsIndexed;
  }

  lemma NewCoinUnspent(env: Env, b: Buckets, b': Buckets, ck: CreditKey, c: Credit)
    requires UnspentIndexed(env, b) && ck !in b.credits && c.script in env.owner && c.spentBy.None?
    requires b' == b.(credits := b.credits[ck := c],
                      unspent := b.unspent[UnspentKey(env.owner[c.script], ck.op) := ck.block])
    ensures UnspentIndexed(env, b')
  {
  }

  lemma NewCoinCredits(env: Env, b: Buckets, b': Buckets, ck: CreditKey, c: Credit)
    requires CreditsIndexed(env, b) && ck !in b.credits && c.script in env.owner && c.spentBy.None?
    requires forall k <- b.credits :: k.op != ck.op
    requires b' == b.(credits := b.credits[ck := c],
                      unspent := b.unspent[UnspentKey(env.owner[c.script], ck.op) := ck.block])
    ensures CreditsIndexed(env, b')
  {
  }

  /** A new coin does not change what the others are worth. */
  lemma NewWorth(env: Env, b: Buckets, b': Buckets, uk: UnspentKey, ck: CreditKey, c: Credit)
    requires Consistent(env, b) && uk.op == ck.op && forall k <- b.credits :: k.op != ck.op
    requires b' == b.(credits := b.credits[ck := c], unspent := b.unspent[uk := ck.block])
    ensures uk !in b.unspent && forall x <- b.unspent :: Worth(b, x) == Worth(b', x)
  {
  }

  lemma AddCreditKeeps(env: Env, l: Ledger, t: Tx, blk: BlockId, i: nat)
    requires RelOut(env, t, i) && Inv(env, l) && Funded(env, l)
    requires forall k <- l.b.credits :: k.op != OutPoint(t.hash, i)
    requires AddCredit(env, l, t, blk, i).Some?
    ensures Inv(env, AddCredit(env, l, t, blk, i).value)
    ensures AddCredit(env, l, t, blk, i).value.balances.Keys == l.balances.Keys
  {
    hide UnspentIndexed, CreditsIndexed, DebitsIndexed, OutPointsUnique, Balanced;
    var l' := AddCredit(env, l, t, blk, i).value;
    var o := t.outs[i];
    var ck := OutKey(t, blk, i);
    NewWorth(env, l.b, l'.b, UnspentKey(env.owner[o.script], ck.op), ck, Credit(o.value, o.script, None));
    AddConsistent(env, l.b, l'.b, ck, Credit(o.value, o.script, None));
    BalanceUp(l, l', UnspentKey(env.owner[o.script], ck.op), o.value);
  }
}
