/** When connect succeeds: every coin a transaction spends is there to be spent once, and what it pays stays within the
    range of an amount. */
module LedgerReady {
  import opened Wrappers
  import opened Ledger
  import opened LedgerInvariant
  import opened LedgerInverse
  import opened LedgerChain
  import opened LedgerHeadroom
  import opened Sighting

  /** Input i spends a coin of a ready wallet. */
  ghost predicate Spending(env: Env, t: Tx, i: nat) {
    i < |t.ins| && !t.coinbase && t.ins[i].prevScript.Some? && t.ins[i].prevScript.value in env.owner &&
    env.owner[t.ins[i].prevScript.value] in env.ready
  }

  /** Output i pays wallet w, which is ready. */
  ghost predicate PaysTo(env: Env, t: Tx, i: nat, w: WalletId) {
    i < |t.outs| && t.outs[i].script in env.owner && env.owner[t.outs[i].script] == w && w in env.ready
  }

  /** What the first n inputs of t spend of wallet w. */
  ghost function InSum(env: Env, b: Buckets, t: Tx, w: WalletId, n: nat): nat
    requires n <= |t.ins|
  {
    if n == 0 then 0
    else
      InSum(env, b, t, w, n - 1) +
      if Spending(env, t, n - 1) && env.owner[t.ins[n - 1].prevScript.value] == w
      then Worth(b, UnspentKey(w, t.ins[n - 1].prev)) else 0
  }

  /** The coins that the first n inputs spend are all there, and no two inputs spend one coin. */
  ghost predicate CoinsThere(env: Env, b: Buckets, t: Tx, n: nat) {
    (forall i: nat | i < n && Spending(env, t, i) ::
       UnspentKey(env.owner[t.ins[i].prevScript.value], t.ins[i].prev) in b.unspent) &&
    forall i: nat, j: nat | i < n && j < n && Spending(env, t, i) && Spending(env, t, j) && i != j ::
      t.ins[i].prev != t.ins[j].prev
  }

  /** For each wallet that the first n outputs pay, its balance and what they pay it are in range. */
  ghost predicate PaidInRange(env: Env, balances: map<WalletId, nat>, t: Tx, n: nat)
    requires n <= |t.outs|
  {
    forall i: nat, w: WalletId | i < n && PaysTo(env, t, i, w) ::
      Balance(balances, w) + OutSum(env, t, w, n) <= env.maxAmount
  }

  /** Transaction t can be connected. */
  ghost predicate Ready(env: Env, l: Ledger, t: Tx) {
    CoinsThere(env, l.b, t, |t.ins|) &&
    forall i: nat, w: WalletId | i < |t.outs| && PaysTo(env, t, i, w) ::
      Balance(l.balances, w) - InSum(env, l.b, t, w, |t.ins|) + OutSum(env, t, w, |t.outs|) <= env.maxAmount
  }

  lemma SpendOneIff(env: Env, l: Ledger, t: Tx, blk: BlockId, i: nat)
    requires Inv(env, l) && RelIn(env, t, i)
    ensures Spend(env, l, t, blk, i).Some? <==> InKey(env, t, i) in l.b.unspent
    ensures Spend(env, l, t, blk, i).Some? ==>
      forall w: WalletId ::
        Balance(Spend(env, l, t, blk, i).value.balances, w) + (if w == InKey(env, t, i).wallet then
          Worth(l.b, InKey(env, t, i)) else 0) == Balance(l.balances, w)
  {
    hide CreditsIndexed, DebitsIndexed, OutPointsUnique;
    var uk := InKey(env, t, i);
    if uk in l.b.unspent {
      TotalMonotone(l.b, Coins(l.b, uk.wallet), uk);
    }
  }

  lemma SpendableIff(env: Env, b: Buckets, t: Tx, n: nat)
    requires Consistent(env, b)
    ensures Spendable(env, b, t, 0, n) <==> CoinsThere(env, b, t, n)
  {
    hide CreditsIndexed, DebitsIndexed, OutPointsUnique;
    assert forall i: nat :: Touched(env, t, 0, n, i) <==> i < n && Spending(env, t, i);
  }

  /** The next coin is still there exactly if it was and no earlier input spent it. */
  lemma NextThere(env: Env, b: Buckets, b': Buckets, t: Tx, blk: BlockId, n: nat)
    requires Consistent(env, b) && Spent(env, b, b', t, blk, 0, n) && RelIn(env, t, n)
    ensures InKey(env, t, n) in b'.unspent <==> Spendable(env, b, t, 0, n + 1)
    ensures InKey(env, t, n) in b'.unspent ==> Worth(b', InKey(env, t, n)) == Worth(b, InKey(env, t, n))
  {
    hide Consistent, SpentCredits, SpentDebits;
    if InKey(env, t, n) in b'.unspent {
      SpentStepReady(env, b, b', t, blk, n);
    }
    if Spendable(env, b, t, 0, n + 1) {
      StillThere(env, b, b', t, n);
    }
  }

  lemma StillThere(env: Env, b: Buckets, b': Buckets, t: Tx, n: nat)
    requires SpentUnspent(env, b, b', t, 0, n) && RelIn(env, t, n) && Spendable(env, b, t, 0, n + 1)
    ensures InKey(env, t, n) in b'.unspent
  {
    assert Touched(env, t, 0, n + 1, n);
    forall i: nat | Touched(env, t, 0, n, i) ensures InKey(env, t, i) != InKey(env, t, n) {
      assert Touched(env, t, 0, n + 1, i);
    }
  }

  lemma {:induction false} SpendAllIff(env: Env, l: Ledger, t: Tx, blk: BlockId, n: nat)
    requires Inv(env, l) && Fresh(l.b, t.hash) && n <= |t.ins|
    ensures SpendAll(env, l, t, blk, n).Some? <==> Spendable(env, l.b, t, 0, n)
    ensures SpendAll(env, l, t, blk, n).Some? ==>
      forall w: WalletId ::
        Balance(SpendAll(env, l, t, blk, n).value.balances, w) + InSum(env, l.b, t, w, n) == Balance(l.balances, w)
  {
    hide Consistent, Balanced, Spend, Worth, Spent, Spendable;
    if n == 0 {
      SpentNone(env, l.b, t, blk);
      assert Spendable(env, l.b, t, 0, 0);
    } else {
      SpendAllIff(env, l, t, blk, n - 1);
      SpendableLess(env, l.b, t, n - 1);
      if SpendAll(env, l, t, blk, n - 1).Some? {
        SpendAllSpent(env, l, t, blk, n - 1);
        var m := SpendAll(env, l, t, blk, n - 1).value;
        if RelIn(env, t, n - 1) {
          NextThere(env, l.b, m.b, t, blk, n - 1);
          SpendOneIff(env, m, t, blk, n - 1);
        }
      }
    }
  }

  lemma SpendableLess(env: Env, b: Buckets, t: Tx, n: nat)
    ensures Spendable(env, b, t, 0, n + 1) ==> Spendable(env, b, t, 0, n)
    ensures !RelIn(env, t, n) ==> (Spendable(env, b, t, 0, n + 1) <==> Spendable(env, b, t, 0, n))
    ensures Spendable(env, b, t, 0, 0)
  {
    forall i: nat ensures Touched(env, t, 0, n + 1, i) <==> Touched(env, t, 0, n, i) || (i == n && RelIn(env, t, n)) { }
  }

  lemma {:induction false} AddCreditsIff(env: Env, l: Ledger, t: Tx, blk: BlockId, n: nat)
    requires Inv(env, l) && Funded(env, l) && Unissued(l.b, t.hash) && n <= |t.outs|
    ensures AddCredits(env, l, t, blk, n).Some? <==> PaidInRange(env, l.balances, t, n)
    ensures AddCredits(env, l, t, blk, n).Some? ==>
      forall w: WalletId ::
        Balance(AddCredits(env, l, t, blk, n).value.balances, w) == Balance(l.balances, w) + OutSum(env, t, w, n)
  {
    hide Inv, Funded, Overlay;
    if n > 0 {
      AddCreditsIff(env, l, t, blk, n - 1);
      RangeNext(env, l.balances, t, n - 1);
      if AddCredits(env, l, t, blk, n - 1).Some? {
        AddCreditsOverlay(env, l, t, blk, n - 1);
        OutCreditsAre(env, l.b.credits, t, blk, 0, n - 1);
        var m := AddCredits(env, l, t, blk, n - 1).value;
        assert OutKey(t, blk, n - 1) !in m.b.credits by {
          NotIssuedYet(env, l.b, t, blk, n - 1);
        }
      }
    }
  }

  lemma NotIssuedYet(env: Env, b: Buckets, t: Tx, blk: BlockId, n: nat)
    requires Unissued(b, t.hash)
    ensures OutKey(t, blk, n) !in Overlay(env, b, t, blk, 0, n).credits
  {
    OutCreditsAre(env, b.credits, t, blk, 0, n);
  }

  lemma RangeNext(env: Env, balances: map<WalletId, nat>, t: Tx, n: nat)
    requires n < |t.outs|
    ensures PaidInRange(env, balances, t, n + 1) <==>
      PaidInRange(env, balances, t, n) &&
      (RelOut(env, t, n) ==>
         var w := env.owner[t.outs[n].script]; Balance(balances, w) + OutSum(env, t, w, n + 1) <= env.maxAmount)
  {
    if RelOut(env, t, n) {
      assert PaysTo(env, t, n, env.owner[t.outs[n].script]);
    }
  }

  /** A transaction the ledger has not seen connects exactly if it is ready. */
  lemma ConnectTxIff(env: Env, l: Ledger, t: Tx, blk: BlockId)
    requires Inv(env, l) && Funded(env, l) && Fresh(l.b, t.hash) && TxKey(t.hash, blk) !in l.txs
    ensures ConnectTx(env, l, t, blk).Some? <==> Ready(env, l, t)
  {
    hide Consistent, Balanced, SpendAll, AddCredits, OutSum, InSum, CoinsThere, Spendable, SpentCredits, SpentUnspent;
    var p := Record(l, t, blk);
    SameCoins(l, p);
    SpendAllIff(env, p, t, blk, |t.ins|);
    SpendableIff(env, l.b, t, |t.ins|);
    if SpendAll(env, p, t, blk, |t.ins|).Some? {
      var m := SpendAll(env, p, t, blk, |t.ins|).value;
      SpendAllSpent(env, p, t, blk, |t.ins|);
      SpentUnissued(env, l.b, m.b, t, blk);
      AddCreditsIff(env, m, t, blk, |t.outs|);
    }
  }

  lemma SpentUnissued(env: Env, b: Buckets, b': Buckets, t: Tx, blk: BlockId)
    requires Spent(env, b, b', t, blk, 0, |t.ins|) && Fresh(b, t.hash)
    ensures Unissued(b', t.hash)
  {
  }

  // ---------- blocks ----------

  /** Transaction j of the block is ready where it is connected. */
  ghost predicate ReadyAt(env: Env, l: Ledger, b: Block, j: nat)
    requires j < |b.txs|
  {
    var m := ConnectFirst(env, l, b.txs, b.Id(), j);
    m.Some? ==> Ready(env, m.value, b.txs[j])
  }

  lemma {:induction false} FirstIff(env: Env, l: Ledger, b: Block, s: set<Hash>, h: nat, n: nat)
    requires Good(env, l, s, h) && Follows(b, s, h) && n <= |b.txs|
    ensures ConnectFirst(env, l, b.txs, b.Id(), n).Some? <==> forall j: nat | j < n :: ReadyAt(env, l, b, j)
  {
    hide Good, Follows, ConnectTx, Ready, Relevant, Inv, Fresh;
    if n > 0 {
      FirstIff(env, l, b, s, h, n - 1);
      if ConnectFirst(env, l, b.txs, b.Id(), n - 1).Some? {
        FirstGood(env, l, b, s, h, n - 1);
        var m := ConnectFirst(env, l, b.txs, b.Id(), n - 1).value;
        assert ReadyAt(env, l, b, n - 1) <==> Ready(env, m, b.txs[n - 1]);
        if Relevant(env, b.txs[n - 1]) {
          ConnectTxIff(env, m, b.txs[n - 1], b.Id());
          assert ConnectFirst(env, l, b.txs, b.Id(), n) == ConnectTx(env, m, b.txs[n - 1], b.Id());
        } else {
          IdleIsReady(env, m, b.txs[n - 1]);
        }
      }
    }
  }

  lemma IdleIsReady(env: Env, l: Ledger, t: Tx)
    requires !Relevant(env, t)
    ensures Ready(env, l, t)
  {
    forall i: nat ensures !Spending(env, t, i) {
      assert !RelIn(env, t, i);
    }
    forall i: nat, w: WalletId ensures !PaysTo(env, t, i, w) {
      assert !RelOut(env, t, i);
    }
  }

  /** A block that follows connects exactly if each of its transactions is ready where it is connected. */
  lemma ConnectBlockIff(env: Env, l: Ledger, b: Block, s: set<Hash>, h: nat)
    requires Good(env, l, s, h) && Follows(b, s, h)
    ensures ConnectBlock(env, l, b.txs, b.Id()).Some? <==> forall j: nat | j < |b.txs| :: ReadyAt(env, l, b, j)
  {
    hide Good, Follows, ConnectTx, Ready;
    ConnectFirstIs(env, l, b.txs, b.Id(), |b.txs|);
    FirstIff(env, l, b, s, h, |b.txs|);
  }
}
