/** When rollback succeeds. No balance ever goes negative on the way; what can stop it is the range of an amount,
    because undoing a transaction first gives its inputs back and only then withdraws its outputs. */
module LedgerHeadroom {
  import opened Wrappers
  import opened Ledger
  import opened LedgerInvariant
  import opened LedgerInverse
  import opened LedgerChain

  /** What the first n outputs of t pay to wallet w. */
  function OutSum(env: Env, t: Tx, w: WalletId, n: nat): nat
    requires n <= |t.outs|
  {
    if n == 0 then 0
    else
      OutSum(env, t, w, n - 1) +
      if RelOut(env, t, n - 1) && env.owner[t.outs[n - 1].script] == w then t.outs[n - 1].value else 0
  }

  /** t spends a coin of wallet w. */
  ghost predicate Spender(env: Env, t: Tx, w: WalletId) {
    exists i: nat :: RelIn(env, t, i) && env.owner[t.ins[i].prevScript.value] == w
  }

  /** For each wallet that t spends from, its balance before t and what t pays back to it fit the range of an
      amount together. */
  ghost predicate Fits(env: Env, l: Ledger, t: Tx) {
    forall w: WalletId :: Spender(env, t, w) ==> Balance(l.balances, w) + OutSum(env, t, w, |t.outs|) <= env.maxAmount
  }

  // ---------- sums of coins ----------

  lemma OverlayOne(env: Env, b: Buckets, t: Tx, blk: BlockId, w: WalletId, i: nat)
    requires Unissued(b, t.hash) && RelOut(env, t, i)
    ensures var o, o' := Overlay(env, b, t, blk, 0, i), Overlay(env, b, t, blk, 0, i + 1);
      Total(o', Coins(o', w)) ==
      Total(o, Coins(o, w)) + if env.owner[t.outs[i].script] == w then t.outs[i].value else 0
  {
    hide OutCredits, OutUnspent, Total, Coins;
    var o, o' := Overlay(env, b, t, blk, 0, i), Overlay(env, b, t, blk, 0, i + 1);
    var uk := UnspentKey(env.owner[t.outs[i].script], OutPoint(t.hash, i));
    CreditsGrow(env, b.credits, t, blk, 0, i);
    UnspentGrow(env, b.unspent, t, blk, 0, i);
    OutCreditsAre(env, b.credits, t, blk, 0, i);
    OutUnspentAre(env, b.unspent, t, blk, 0, i);
    TotalInsert(o, o', uk, w);
  }

  /** The outputs add to a wallet's coins what they pay it. */
  lemma {:induction false} OverlayWorth(env: Env, b: Buckets, t: Tx, blk: BlockId, w: WalletId, n: nat)
    requires Unissued(b, t.hash) && n <= |t.outs|
    ensures var o := Overlay(env, b, t, blk, 0, n);
      Total(o, Coins(o, w)) == Total(b, Coins(b, w)) + OutSum(env, t, w, n)
  {
    hide OutCredits, OutUnspent, Total, Coins;
    if n == 0 {
      OverlayNothing(env, b, t, blk);
    } else {
      OverlayWorth(env, b, t, blk, w, n - 1);
      if RelOut(env, t, n - 1) {
        OverlayOne(env, b, t, blk, w, n - 1);
      } else {
        CreditsGrow(env, b.credits, t, blk, 0, n - 1);
        UnspentGrow(env, b.unspent, t, blk, 0, n - 1);
      }
    }
  }

  lemma SpentTotal(env: Env, b: Buckets, b': Buckets, t: Tx, blk: BlockId, lo: nat, hi: nat, w: WalletId)
    requires Spent(env, b, b', t, blk, lo, hi)
    ensures Total(b', Coins(b', w)) <= Total(b, Coins(b, w))
  {
    forall x <- Coins(b', w) ensures Worth(b', x) == Worth(b, x) {
      var ck := CreditKey(x.op, b.unspent[x]);
      if ck in b.credits {
        if i: nat :| Touched(env, t, lo, hi, i) && SpentKey(env, b, t, i) == ck { }
      }
    }
    TotalFrame(b', b, Coins(b', w));
    assert Coins(b', w) <= Coins(b, w);
    TotalSubset(b, Coins(b', w), Coins(b, w));
  }

  // ---------- one transaction ----------

  /** An input can be undone exactly if the total it restores fits the range. */
  lemma UndoInIff(env: Env, l: Ledger, t: Tx, blk: BlockId, k: nat, ck: CreditKey, uk: UnspentKey, o: Buckets)
    requires Debited(env, l.b, t, blk, k, ck, uk) && Balanced(l) && uk.wallet in l.balances
    requires o.credits == l.b.credits[ck := l.b.credits[ck].(spentBy := None)]
    requires o.unspent == l.b.unspent[uk := ck.block]
    ensures UndoIn(env, l, t, blk, k).Some? <==> Total(o, Coins(o, uk.wallet)) <= env.maxAmount
  {
    TotalInsert(l.b, o, uk, uk.wallet);
  }

  /** While inputs are undone, a wallet holds at most what it held before t and what t pays it. */
  lemma UndoneTotal(env: Env, b: Buckets, b': Buckets, t: Tx, blk: BlockId, k: nat, w: WalletId)
    requires Fresh(b, t.hash) && Spent(env, b, b', t, blk, k, |t.ins|)
    ensures var o := Overlay(env, b', t, blk, 0, |t.outs|);
      Total(o, Coins(o, w)) <= Total(b, Coins(b, w)) + OutSum(env, t, w, |t.outs|)
  {
    SpentTotal(env, b, b', t, blk, k, |t.ins|, w);
    OverlayWorth(env, b', t, blk, w, |t.outs|);
  }

  /** Within the range, and with everything below the overlay of t's own outputs as the first k inputs left it. */
  ghost predicate Undoing(env: Env, b: Buckets, b': Buckets, l: Ledger, t: Tx, blk: BlockId, k: nat) {
    Consistent(env, b) && Fresh(b, t.hash) && k <= |t.ins| && Spent(env, b, b', t, blk, k, |t.ins|) &&
    l.b == Overlay(env, b', t, blk, 0, |t.outs|) && Balanced(l) && forall uk <- b.unspent :: uk.wallet in l.balances
  }

  ghost predicate Room(env: Env, b: Buckets, t: Tx) {
    forall w: WalletId :: Spender(env, t, w) ==>
      Total(b, Coins(b, w)) + OutSum(env, t, w, |t.outs|) <= env.maxAmount
  }

  lemma UndoTouchedSome(env: Env, b: Buckets, b': Buckets, l: Ledger, t: Tx, blk: BlockId, k: nat)
    requires Undoing(env, b, b', l, t, blk, k) && Room(env, b, t) && Touched(env, t, k, |t.ins|, k)
    ensures UndoIn(env, l, t, blk, k).Some?
  {
    hide Consistent, Fresh, Spent, Balanced, OutSum, Overlay, UndoIn, Debited;
    var ck, uk, b'' := UndoInSetup(env, b, b', l, t, blk, k);
    var o := Overlay(env, b'', t, blk, 0, |t.outs|);
    UndoneTotal(env, b, b'', t, blk, k + 1, uk.wallet);
    assert Spender(env, t, uk.wallet);
    UndoInIff(env, l, t, blk, k, ck, uk, o);
  }

  lemma FoundBalance(env: Env, l: Ledger, t: Tx, blk: BlockId, k: nat, ck: CreditKey, uk: UnspentKey, w: WalletId)
    requires Debited(env, l.b, t, blk, k, ck, uk) && UndoIn(env, l, t, blk, k).Some?
    ensures var m := UndoIn(env, l, t, blk, k).value;
      if w == uk.wallet then Balance(m.balances, w) <= env.maxAmount
      else Balance(m.balances, w) == Balance(l.balances, w)
  {
  }

  /** An input that is not relevant has no debit, and undoing it does nothing. */
  lemma NoDebit(env: Env, b: Buckets, b': Buckets, l: Ledger, t: Tx, blk: BlockId, k: nat)
    requires Undoing(env, b, b', l, t, blk, k) && k < |t.ins| && !Touched(env, t, k, |t.ins|, k)
    ensures UndoIn(env, l, t, blk, k) == Some(l)
  {
    assert SpentDebits(env, b, b', t, blk, k, |t.ins|);
    assert DebitKey(t.hash, blk, k) !in l.b.debits;
  }

  lemma UndoInSome(env: Env, b: Buckets, b': Buckets, l: Ledger, t: Tx, blk: BlockId, k: nat)
    requires Undoing(env, b, b', l, t, blk, k) && Room(env, b, t) && k < |t.ins|
    ensures UndoIn(env, l, t, blk, k).Some?
  {
    if Touched(env, t, k, |t.ins|, k) {
      UndoTouchedSome(env, b, b', l, t, blk, k);
    } else {
      NoDebit(env, b, b', l, t, blk, k);
    }
  }

  lemma {:induction false} UndoInsSome(env: Env, b: Buckets, b1: Buckets, l: Ledger, t: Tx, blk: BlockId, k: nat)
    requires Undoing(env, b, b1, l, t, blk, 0) && Room(env, b, t) && k <= |t.ins|
    ensures UndoIns(env, l, t, blk, k).Some?
  {
    hide Spent, Overlay, Consistent, Fresh, Room, UndoIn, Balanced;
    if k > 0 {
      UndoInsSome(env, b, b1, l, t, blk, k - 1);
      var b' := UndoInsForm(env, b, b1, l, t, blk, k - 1);
      UndoInSome(env, b, b', UndoIns(env, l, t, blk, k - 1).value, t, blk, k - 1);
    }
  }

  /** Undoing input k leaves the wallet it gives to with a balance in range, and no other balance changed. */
  lemma UndoInBalance(env: Env, b: Buckets, b': Buckets, l: Ledger, t: Tx, blk: BlockId, k: nat, w: WalletId)
    requires Undoing(env, b, b', l, t, blk, k) && k < |t.ins| && UndoIn(env, l, t, blk, k).Some?
    ensures var m := UndoIn(env, l, t, blk, k).value;
      Balance(m.balances, w) <= env.maxAmount ||
      (Balance(m.balances, w) == Balance(l.balances, w) &&
       !(RelIn(env, t, k) && env.owner[t.ins[k].prevScript.value] == w))
  {
    hide Consistent, Fresh, Spent, Balanced, Overlay, UndoIn, Debited;
    if Touched(env, t, k, |t.ins|, k) {
      var ck, uk, b'' := UndoInSetup(env, b, b', l, t, blk, k);
      FoundBalance(env, l, t, blk, k, ck, uk, w);
    } else {
      NoDebit(env, b, b', l, t, blk, k);
    }
  }

  /** Once the first k inputs are undone, the wallets they gave to have balances in range. */
  lemma {:induction false} UndoInsBalance(env: Env, b: Buckets, b1: Buckets, l: Ledger, t: Tx, blk: BlockId, k: nat,
                                          i: nat)
    requires Undoing(env, b, b1, l, t, blk, 0) && i < k <= |t.ins| && RelIn(env, t, i)
    requires UndoIns(env, l, t, blk, k).Some?
    ensures Balance(UndoIns(env, l, t, blk, k).value.balances, env.owner[t.ins[i].prevScript.value]) <= env.maxAmount
  {
    hide Spent, Overlay, Consistent, Fresh, UndoIn, Balanced;
    var b' := UndoInsForm(env, b, b1, l, t, blk, k - 1);
    var w := env.owner[t.ins[i].prevScript.value];
    UndoInBalance(env, b, b', UndoIns(env, l, t, blk, k - 1).value, t, blk, k - 1, w);
    if i < k - 1 {
      UndoInsBalance(env, b, b1, l, t, blk, k - 1, i);
    }
  }

  /** All inputs can be undone exactly if there is room. */
  lemma UndoInsIff(env: Env, b: Buckets, b1: Buckets, l: Ledger, t: Tx, blk: BlockId)
    requires Undoing(env, b, b1, l, t, blk, 0)
    ensures UndoIns(env, l, t, blk, |t.ins|).Some? <==> Room(env, b, t)
  {
    hide Consistent, OutSum, Overlay;
    if Room(env, b, t) {
      UndoInsSome(env, b, b1, l, t, blk, |t.ins|);
    }
    if UndoIns(env, l, t, blk, |t.ins|).Some? {
      var m := UndoIns(env, l, t, blk, |t.ins|).value;
      var b' := UndoInsForm(env, b, b1, l, t, blk, |t.ins|);
      SpentNothing(env, b, b', t, blk, |t.ins|, |t.ins|);
      forall w: WalletId | Spender(env, t, w)
        ensures Total(b, Coins(b, w)) + OutSum(env, t, w, |t.outs|) <= env.maxAmount
      {
        var i: nat :| RelIn(env, t, i) && env.owner[t.ins[i].prevScript.value] == w;
        UndoInsBalance(env, b, b1, l, t, blk, |t.ins|, i);
        OverlayWorth(env, b, t, blk, w, |t.outs|);
        BalanceIsTotal(m, w);
      }
    }
  }

  lemma BalanceIsTotal(l: Ledger, w: WalletId)
    requires Balanced(l)
    ensures Balance(l.balances, w) == Total(l.b, Coins(l.b, w))
  {
    if w !in l.balances {
      assert Coins(l.b, w) == {};
    }
  }

  lemma FitsIsRoom(env: Env, l: Ledger, t: Tx)
    requires Balanced(l)
    ensures Fits(env, l, t) <==> Room(env, l.b, t)
  {
    hide Balanced, OutSum;
    forall w: WalletId ensures Balance(l.balances, w) == Total(l.b, Coins(l.b, w)) {
      BalanceIsTotal(l, w);
    }
  }

  /** A connected transaction can be rolled back exactly if it fits; a coinbase always can. */
  lemma UndoTxIff(env: Env, l: Ledger, t: Tx, blk: BlockId, l': Ledger)
    requires Inv(env, l) && Funded(env, l) && Fresh(l.b, t.hash) && TxKey(t.hash, blk) !in l.txs
    requires ConnectTx(env, l, t, blk).Some?
    requires l' == ConnectTx(env, l, t, blk).value.(blocks := l'.blocks)
    ensures UndoTx(env, l', t.hash, blk).Some? <==> Fits(env, l, t)
    ensures t.coinbase ==> Fits(env, l, t)
  {
    hide Consistent, Overlay, OutSum, ConnectTx, UndoIns, UndoOuts, UndoTx, Fits, Room, Balanced;
    var m := ConnectTxForm(env, l, t, blk);
    var l0 := l'.(txs := l'.txs - {TxKey(t.hash, blk)});
    UndoTxBare(env, l', t, blk);
    FitsIsRoom(env, l, t);
    SameCoins(ConnectTx(env, l, t, blk).value, l0);
    SameWallets(l, l');
    if t.coinbase {
      CoinbaseFits(env, l, t);
      CoinbaseSpendsNothing(env, l.b, m.b, t, blk);
      UndoOutsForm(env, m.b, l0, t, blk, |t.outs|);
    } else {
      UndoInsIff(env, l.b, m.b, l0, t, blk);
      if Room(env, l.b, t) {
        var b := UndoInsForm(env, l.b, m.b, l0, t, blk, |t.ins|);
        SpentNothing(env, l.b, b, t, blk, |t.ins|, |t.ins|);
        UndoOutsForm(env, l.b, UndoIns(env, l0, t, blk, |t.ins|).value, t, blk, |t.outs|);
      }
    }
  }

  lemma CoinbaseFits(env: Env, l: Ledger, t: Tx)
    requires t.coinbase
    ensures Fits(env, l, t)
  {
  }

  lemma CoinbaseSpendsNothing(env: Env, b: Buckets, b': Buckets, t: Tx, blk: BlockId)
    requires t.coinbase && Spent(env, b, b', t, blk, 0, |t.ins|)
    ensures b' == b
  {
    SpentNothing(env, b, b', t, blk, 0, |t.ins|);
  }

  lemma SameCoins(l: Ledger, l': Ledger)
    requires l.b == l'.b && l.balances == l'.balances
    ensures Balanced(l) <==> Balanced(l')
  {
  }

  lemma SameWallets(l: Ledger, l': Ledger)
    requires Balanced(l) && l'.balances.Keys == l.balances.Keys
    ensures forall uk <- l.b.unspent :: uk.wallet in l'.balances
  {
  }

  // ---------- blocks and lists of blocks ----------

  ghost predicate FitsAt(env: Env, l: Ledger, rs: seq<Tx>, blk: BlockId, i: nat)
    requires i < |rs|
  {
    ConnectTxs(env, l, rs, blk, i).Some? ==> Fits(env, ConnectTxs(env, l, rs, blk, i).value, rs[i])
  }

  /** Every transaction from position k on fits where it is connected. */
  ghost predicate TxsFit(env: Env, l: Ledger, rs: seq<Tx>, blk: BlockId, k: nat) {
    forall i: nat :: k <= i < |rs| ==> FitsAt(env, l, rs, blk, i)
  }

  lemma TxsFitStep(env: Env, l: Ledger, rs: seq<Tx>, blk: BlockId, k: nat)
    requires k < |rs|
    ensures TxsFit(env, l, rs, blk, k) <==> FitsAt(env, l, rs, blk, k) && TxsFit(env, l, rs, blk, k + 1)
  {
    hide FitsAt;
  }

  lemma NextFresh(rs: seq<Tx>, s: set<Hash>, k: nat)
    requires DistinctHashes(rs) && HashSet(rs) !! s && k < |rs|
    ensures rs[k].hash !in s + HashSet(rs[..k])
  {
    assert rs[k].hash in HashSet(rs);
  }

  lemma GoodFresh(env: Env, l: Ledger, s: set<Hash>, h: nat, x: Hash, blk: BlockId)
    requires Good(env, l, s, h) && x !in s
    ensures Inv(env, l) && Funded(env, l) && Fresh(l.b, x) && TxKey(x, blk) !in l.txs
  {
  }

  /** The last of k + 1 connected transactions can be rolled back exactly if it fits. */
  lemma UndoLastIff(env: Env, l: Ledger, rs: seq<Tx>, blk: BlockId, s: set<Hash>, h: nat, k: nat,
                    x: map<nat, BlockRecord>)
    requires Good(env, l, s, h) && blk.height == h + 1
    requires DistinctHashes(rs) && HashSet(rs) !! s && k < |rs|
    requires ConnectTxs(env, l, rs, blk, k + 1).Some?
    ensures UndoTx(env, ConnectTxs(env, l, rs, blk, k + 1).value.(blocks := x), rs[k].hash, blk).Some? <==>
            FitsAt(env, l, rs, blk, k)
  {
    hide Good, ConnectTx, UndoTx, Fits, HashSet, DistinctHashes;
    var m := ConnectTxs(env, l, rs, blk, k).value;
    ConnectTxsForm(env, l, rs, blk, s, h, k);
    NextFresh(rs, s, k);
    GoodFresh(env, m, s + HashSet(rs[..k]), h + 1, rs[k].hash, blk);
    UndoTxIff(env, m, rs[k], blk, ConnectTxs(env, l, rs, blk, k + 1).value.(blocks := x));
  }

  lemma {:induction false} UndoTxsIff(env: Env, l: Ledger, rs: seq<Tx>, blk: BlockId, s: set<Hash>, h: nat, k: nat,
                                      l': Ledger)
    requires Good(env, l, s, h) && blk.height == h + 1
    requires DistinctHashes(rs) && HashSet(rs) !! s && k <= |rs|
    requires ConnectTxs(env, l, rs, blk, |rs|).Some?
    requires l' == ConnectTxs(env, l, rs, blk, |rs|).value.(blocks := l'.blocks)
    ensures UndoTxs(env, l', Hashes(rs), blk, k).Some? <==> TxsFit(env, l, rs, blk, k)
    decreases |rs| - k
  {
    hide Good, ConnectTx, ConnectTxs, UndoTx, HashSet, DistinctHashes, FitsAt;
    if k < |rs| {
      TxsFitStep(env, l, rs, blk, k);
      UndoTxsIff(env, l, rs, blk, s, h, k + 1, l');
      if UndoTxs(env, l', Hashes(rs), blk, k + 1).Some? {
        UndoConnectTxs(env, l, rs, blk, s, h, k + 1, l');
        UndoLastIff(env, l, rs, blk, s, h, k, l'.blocks);
      }
    }
  }

  /** Every relevant transaction of the block fits where it is connected. */
  ghost predicate BlockFits(env: Env, l: Ledger, b: Block) {
    TxsFit(env, l, RelevantTxs(env, b.txs, |b.txs|), b.Id(), 0)
  }

  /** A block just connected can be rolled back exactly if it fits. */
  lemma UndoHeightIff(env: Env, l: Ledger, b: Block, s: set<Hash>, h: nat)
    requires Good(env, l, s, h) && Follows(b, s, h)
    requires ConnectBlock(env, l, b.txs, b.Id()).Some?
    ensures UndoHeight(env, ConnectBlock(env, l, b.txs, b.Id()).value, h + 1).Some? <==> BlockFits(env, l, b)
  {
    hide ConnectTxs, UndoTxs, FitsAt, Inv;
    var rs := RelevantTxs(env, b.txs, |b.txs|);
    var l' := ConnectBlock(env, l, b.txs, b.Id()).value;
    RelevantTxsDistinct(env, b.txs, |b.txs|);
    assert HashSet(rs) <= HashSet(b.txs);
    ConnectTxsForm(env, l, rs, b.Id(), s, h, |rs|);
    assert rs[..|rs|] == rs;
    UndoTxsIff(env, l, rs, b.Id(), s, h, 0, l');
  }

  ghost predicate BlockFitsAt(env: Env, l: Ledger, bs: seq<Block>, j: nat)
    requires j < |bs|
  {
    ConnectBlocks(env, l, bs, j).Some? ==> BlockFits(env, ConnectBlocks(env, l, bs, j).value, bs[j])
  }

  /** Every block from position k on fits where it is connected. */
  ghost predicate BlocksFit(env: Env, l: Ledger, bs: seq<Block>, k: nat) {
    forall j: nat :: k <= j < |bs| ==> BlockFitsAt(env, l, bs, j)
  }

  lemma BlocksFitStep(env: Env, l: Ledger, bs: seq<Block>, k: nat)
    requires k < |bs|
    ensures BlocksFit(env, l, bs, k) <==> BlockFitsAt(env, l, bs, k) && BlocksFit(env, l, bs, k + 1)
  {
    hide BlockFitsAt;
  }

  lemma UndoBlockIff(env: Env, l: Ledger, bs: seq<Block>, s: set<Hash>, h: nat, k: nat)
    requires Good(env, l, s, h) && k < |bs| && Sequence(bs, s, h, k + 1)
    requires ConnectBlocks(env, l, bs, k + 1).Some?
    ensures UndoHeight(env, ConnectBlocks(env, l, bs, k + 1).value, h + k + 1).Some? <==> BlockFitsAt(env, l, bs, k)
  {
    hide Good, ConnectBlock, UndoHeight, BlockFits, Follows;
    ConnectBlocksKeep(env, l, bs, s, h, k);
    UndoHeightIff(env, ConnectBlocks(env, l, bs, k).value, bs[k], SeenAfter(bs, k, s), h + k);
  }

  /** Rolling back connected blocks down to position k succeeds exactly if each of them fits, and then returns
      exactly to the ledger before block k. */
  lemma {:induction false} RollbackSucceeds(env: Env, l: Ledger, bs: seq<Block>, s: set<Hash>, h: nat, k: nat)
    requires Good(env, l, s, h) && Sequence(bs, s, h, |bs|) && k <= |bs|
    requires ConnectBlocks(env, l, bs, |bs|).Some?
    ensures var r := RollbackTo(env, ConnectBlocks(env, l, bs, |bs|).value, h + |bs|, h + k + 1);
      (r.Some? <==> BlocksFit(env, l, bs, k)) && (r.Some? ==> r == ConnectBlocks(env, l, bs, k))
    decreases |bs| - k
  {
    hide Good, ConnectBlock, ConnectBlocks, UndoHeight, BlockFitsAt, Sequence;
    if k < |bs| {
      BlocksFitStep(env, l, bs, k);
      RollbackSucceeds(env, l, bs, s, h, k + 1);
      ConnectBlocksPrefix(env, l, bs, k + 1, |bs|);
      SequencePrefix(bs, s, h, k + 1, |bs|);
      UndoBlockIff(env, l, bs, s, h, k);
    }
    if RollbackTo(env, ConnectBlocks(env, l, bs, |bs|).value, h + |bs|, h + k + 1).Some? {
      RollbackToBlock(env, l, bs, s, h, k);
    }
  }

  // ---------- when transactions fit ----------

  /** Balances that stay within half the range leave room for every transaction. */
  lemma HalfRangeFits(env: Env, l: Ledger, t: Tx, blk: BlockId)
    requires Inv(env, l) && Funded(env, l) && Fresh(l.b, t.hash) && TxKey(t.hash, blk) !in l.txs
    requires ConnectTx(env, l, t, blk).Some?
    requires forall w <- l.balances :: 2 * l.balances[w] <= env.maxAmount
    requires var m := ConnectTx(env, l, t, blk).value; forall w <- m.balances :: 2 * m.balances[w] <= env.maxAmount
    ensures Fits(env, l, t)
  {
    hide Consistent, ConnectTx, OutSum, Overlay;
    var p := ConnectTxForm(env, l, t, blk);
    var m := ConnectTx(env, l, t, blk).value;
    forall w: WalletId | Spender(env, t, w)
      ensures Balance(l.balances, w) + OutSum(env, t, w, |t.outs|) <= env.maxAmount
    {
      OverlayWorth(env, p.b, t, blk, w, |t.outs|);
      BalanceIsTotal(m, w);
    }
  }

  const TIGHT: Env := Env(map[1 := 7], {7}, 10)
  const EMPTY: Ledger := Ledger(Buckets(map[], map[], map[]), map[7 := 0], map[], map[])
  const COIN: Tx := Tx(50, true, [], [TxOut(10, 1)])
  const SPEND: Tx := Tx(51, false, [TxIn(OutPoint(50, 0), Some(1))], [TxOut(10, 1)])
  const TIGHT_BLOCK: Block := Block(100, 99, 1, [COIN, SPEND])

  lemma CoinConnects() returns (m: Ledger)
    ensures ConnectTx(TIGHT, EMPTY, COIN, TIGHT_BLOCK.Id()) == Some(m)
    ensures var op, blk := OutPoint(50, 0), TIGHT_BLOCK.Id();
      m.b == Buckets(map[CreditKey(op, blk) := Credit(10, 1, None)], map[], map[UnspentKey(7, op) := blk]) &&
      m.balances == map[7 := 10] && m.txs.Keys == {TxKey(50, blk)}
  {
    var blk := TIGHT_BLOCK.Id();
    var r := Record(EMPTY, COIN, blk);
    assert SpendAll(TIGHT, r, COIN, blk, 0) == Some(r);
    assert RelOut(TIGHT, COIN, 0);
    assert AddCredits(TIGHT, r, COIN, blk, 0) == Some(r);
    m := ConnectTx(TIGHT, EMPTY, COIN, blk).value;
  }

  lemma SpendConnects(m: Ledger)
    requires var op, blk := OutPoint(50, 0), TIGHT_BLOCK.Id();
      m.b == Buckets(map[CreditKey(op, blk) := Credit(10, 1, None)], map[], map[UnspentKey(7, op) := blk]) &&
      m.balances == map[7 := 10] && m.txs.Keys == {TxKey(50, blk)}
    ensures ConnectTx(TIGHT, m, SPEND, TIGHT_BLOCK.Id()).Some? && !Fits(TIGHT, m, SPEND)
  {
    var blk := TIGHT_BLOCK.Id();
    var r := Record(m, SPEND, blk);
    assert RelIn(TIGHT, SPEND, 0) && RelOut(TIGHT, SPEND, 0);
    assert SpendAll(TIGHT, r, SPEND, blk, 0) == Some(r);
    var p := Spend(TIGHT, r, SPEND, blk, 0);
    assert p.Some? && p.value.balances == map[7 := 0];
    assert SpendAll(TIGHT, r, SPEND, blk, 1) == p;
    assert AddCredits(TIGHT, p.value, SPEND, blk, 0) == p;
    assert AddCredit(TIGHT, p.value, SPEND, blk, 0).Some?;
    assert AddCredits(TIGHT, p.value, SPEND, blk, 1).Some?;
    assert Spender(TIGHT, SPEND, 7);
    assert OutSum(TIGHT, SPEND, 7, 0) == 0;
  }

  /** Rollback can fail: with a range of 10, a coin of 10 is spent to pay 10 back to the same wallet. Undoing
      the spending transaction would first give the wallet 20. */
  lemma RollbackCanFail()
    ensures Good(TIGHT, EMPTY, {}, 0) && Follows(TIGHT_BLOCK, {}, 0)
    ensures var m := ConnectBlock(TIGHT, EMPTY, TIGHT_BLOCK.txs, TIGHT_BLOCK.Id());
      m.Some? && RollbackTo(TIGHT, m.value, 1, 1).None?
  {
    TightIsGood();
    TightRelevant();
    TightConnects();
    hide ConnectTxs, FitsAt, UndoHeight, Good, Follows, RelevantTxs;
    UndoHeightIff(TIGHT, EMPTY, TIGHT_BLOCK, {}, 0);
    var l := ConnectBlock(TIGHT, EMPTY, TIGHT_BLOCK.txs, TIGHT_BLOCK.Id()).value;
    assert RollbackTo(TIGHT, l, 1, 2) == Some(l);
  }

  lemma TightConnects()
    ensures var rs, blk := [COIN, SPEND], TIGHT_BLOCK.Id();
      ConnectTxs(TIGHT, EMPTY, rs, blk, 2).Some? && !FitsAt(TIGHT, EMPTY, rs, blk, 1)
  {
    var rs, blk := [COIN, SPEND], TIGHT_BLOCK.Id();
    var m := CoinConnects();
    SpendConnects(m);
    hide ConnectTx, Fits;
    assert ConnectTxs(TIGHT, EMPTY, rs, blk, 0) == Some(EMPTY);
    assert ConnectTxs(TIGHT, EMPTY, rs, blk, 1) == Some(m);
  }

  lemma TightIsGood()
    ensures Good(TIGHT, EMPTY, {}, 0) && Follows(TIGHT_BLOCK, {}, 0)
  {
    assert Coins(EMPTY.b, 7) == {};
  }

  lemma TightRelevant()
    ensures RelevantTxs(TIGHT, TIGHT_BLOCK.txs, 2) == [COIN, SPEND]
  {
    assert RelOut(TIGHT, COIN, 0) && RelOut(TIGHT, SPEND, 0);
    assert RelevantTxs(TIGHT, TIGHT_BLOCK.txs, 0) == [];
    assert RelevantTxs(TIGHT, TIGHT_BLOCK.txs, 1) == [COIN];
  }
}
