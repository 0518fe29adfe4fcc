/** What the ledger of a path is, said of the blocks on the path alone: a credit for every output that pays a ready
    wallet, and for each such wallet a balance of what it was paid less what it spent. */
module Payments {
  import opened Wrappers
  import opened Ledger
  import opened LedgerInvariant
  import opened LedgerInverse
  import opened LedgerChain
  import opened Sighting
  import opened ChainTree

  // ---------- credits ----------

  /** Output ck of transaction j pays script s, which a ready wallet owns. */
  ghost predicate PaidBy(env: Env, txs: seq<Tx>, op: OutPoint, j: nat) {
    j < |txs| && txs[j].hash == op.hash && op.index < |txs[j].outs| &&
    var s := txs[j].outs[op.index].script;
    s in env.owner && env.owner[s] in env.ready
  }

  predicate SameCoin(c: Credit, c': Credit) { c.amount == c'.amount && c.script == c'.script }

  /** A credit worth what output i of t is. */
  predicate CoinOf(c: Credit, t: Tx, i: nat) {
    i < |t.outs| && c.amount == t.outs[i].value && c.script == t.outs[i].script
  }

  /** c has the credits of l, some of them spent meanwhile, and those that transaction t pays. */
  ghost predicate TxGrown(env: Env, l: map<CreditKey, Credit>, c: map<CreditKey, Credit>, t: Tx, blk: BlockId) {
    (forall ck :: ck in c <==>
      (ck in l || (ck.block == blk && ck.op.hash == t.hash && RelOut(env, t, ck.op.index)))) &&
    (forall ck <- l :: ck in c && SameCoin(l[ck], c[ck])) &&
    forall ck <- c | ck.op.hash == t.hash :: ck.block == blk && CoinOf(c[ck], t, ck.op.index)
  }

  /** The same for the first n transactions of a block. */
  ghost predicate BlockGrown(env: Env, l: map<CreditKey, Credit>, c: map<CreditKey, Credit>, txs: seq<Tx>,
                             blk: BlockId, n: nat)
    requires n <= |txs|
  {
    (forall ck ::
       ck in c <==> (ck in l || (ck.block == blk && exists j: nat :: j < n && PaidBy(env, txs, ck.op, j)))) &&
    (forall ck <- l :: ck in c && SameCoin(l[ck], c[ck])) &&
    forall ck <- c, j: nat | ck.block == blk && j < n && PaidBy(env, txs, ck.op, j) ::
      CoinOf(c[ck], txs[j], ck.op.index)
  }

  /** The credits of one connected transaction. */
  lemma ConnectTxCredits(env: Env, l: Ledger, t: Tx, blk: BlockId)
    requires Inv(env, l) && Funded(env, l) && Fresh(l.b, t.hash) && TxKey(t.hash, blk) !in l.txs
    requires ConnectTx(env, l, t, blk).Some?
    ensures TxGrown(env, l.b.credits, ConnectTx(env, l, t, blk).value.b.credits, t, blk)
  {
    hide ConnectTx, SpentDebits, SpentUnspent, Consistent, Balanced;
    var m := ConnectTxForm(env, l, t, blk);
    OutCreditsAre(env, m.b.credits, t, blk, 0, |t.outs|);
    SpentSameCoins(env, l.b, m.b, t, blk);
  }

  lemma SpentSameCoins(env: Env, b: Buckets, b': Buckets, t: Tx, blk: BlockId)
    requires Spent(env, b, b', t, blk, 0, |t.ins|)
    ensures b'.credits.Keys == b.credits.Keys
    ensures forall ck <- b.credits :: ck in b'.credits && SameCoin(b.credits[ck], b'.credits[ck])
  {
    forall ck <- b.credits ensures ck in b'.credits && SameCoin(b.credits[ck], b'.credits[ck]) {
      assert ck in b'.credits.Keys;
      if i: nat :| Touched(env, t, 0, |t.ins|, i) && SpentKey(env, b, t, i) == ck { }
    }
  }

  lemma {:induction false} FirstCredits(env: Env, l: Ledger, b: Block, s: set<Hash>, h: nat, n: nat)
    requires Good(env, l, s, h) && Follows(b, s, h) && n <= |b.txs|
    requires ConnectFirst(env, l, b.txs, b.Id(), n).Some?
    ensures BlockGrown(env, l.b.credits, ConnectFirst(env, l, b.txs, b.Id(), n).value.b.credits, b.txs, b.Id(), n)
  {
    hide ConnectTx, Good, Follows, Inv, Relevant, TxGrown, BlockGrown;
    if n == 0 {
      GrowNone(env, l.b.credits, b.txs, b.Id());
    } else {
      FirstCredits(env, l, b, s, h, n - 1);
      FirstGood(env, l, b, s, h, n - 1);
      var m, t := ConnectFirst(env, l, b.txs, b.Id(), n - 1).value, b.txs[n - 1];
      if Relevant(env, t) {
        ConnectTxCredits(env, m, t, b.Id());
        GrowOne(env, l.b.credits, m.b.credits, ConnectTx(env, m, t, b.Id()).value.b.credits, b, n - 1);
      } else {
        GrowIdle(env, l.b.credits, m.b.credits, b, n - 1);
      }
    }
  }

  lemma GrowNone(env: Env, l: map<CreditKey, Credit>, txs: seq<Tx>, blk: BlockId)
    ensures BlockGrown(env, l, l, txs, blk, 0)
  {
  }

  lemma GrowIdle(env: Env, l: map<CreditKey, Credit>, c: map<CreditKey, Credit>, b: Block, n: nat)
    requires n < |b.txs| && BlockGrown(env, l, c, b.txs, b.Id(), n) && !Relevant(env, b.txs[n])
    ensures BlockGrown(env, l, c, b.txs, b.Id(), n + 1)
  {
    forall op ensures !PaidBy(env, b.txs, op, n) {
      assert op.index < |b.txs[n].outs| ==> !RelOut(env, b.txs[n], op.index);
    }
    hide PaidBy, Relevant;
  }

  lemma GrowOne(env: Env, l: map<CreditKey, Credit>, m: map<CreditKey, Credit>, c: map<CreditKey, Credit>, b: Block,
                n: nat)
    requires n < |b.txs| && BlockGrown(env, l, m, b.txs, b.Id(), n) && TxGrown(env, m, c, b.txs[n], b.Id())
    requires forall ck <- m :: ck.op.hash != b.txs[n].hash
    ensures BlockGrown(env, l, c, b.txs, b.Id(), n + 1)
  {
    var t, blk := b.txs[n], b.Id();
    forall ck: CreditKey
      ensures PaidBy(env, b.txs, ck.op, n) <==> ck.op.hash == t.hash && RelOut(env, t, ck.op.index) { }
    GrowKeys(env, l, m, c, b, n);
    GrowCoins(env, l, m, c, b, n);
  }

  lemma GrowKeys(env: Env, l: map<CreditKey, Credit>, m: map<CreditKey, Credit>, c: map<CreditKey, Credit>, b: Block,
                 n: nat)
    requires n < |b.txs| && BlockGrown(env, l, m, b.txs, b.Id(), n) && TxGrown(env, m, c, b.txs[n], b.Id())
    requires forall ck: CreditKey ::
      PaidBy(env, b.txs, ck.op, n) <==> ck.op.hash == b.txs[n].hash && RelOut(env, b.txs[n], ck.op.index)
    ensures forall ck :: ck in c <==>
      (ck in l || (ck.block == b.Id() && exists j: nat :: j < n + 1 && PaidBy(env, b.txs, ck.op, j)))
    ensures forall ck <- l :: ck in c && SameCoin(l[ck], c[ck])
  {
    hide PaidBy, RelOut, CoinOf;
  }

  lemma GrowCoins(env: Env, l: map<CreditKey, Credit>, m: map<CreditKey, Credit>, c: map<CreditKey, Credit>, b: Block,
                  n: nat)
    requires n < |b.txs| && BlockGrown(env, l, m, b.txs, b.Id(), n) && TxGrown(env, m, c, b.txs[n], b.Id())
    ensures forall ck <- c, j: nat | ck.block == b.Id() && j < n + 1 && PaidBy(env, b.txs, ck.op, j) ::
      CoinOf(c[ck], b.txs[j], ck.op.index)
  {
    forall ck <- c, j: nat | ck.block == b.Id() && j < n + 1 && PaidBy(env, b.txs, ck.op, j)
      ensures CoinOf(c[ck], b.txs[j], ck.op.index)
    {
      assert ck.op.hash == b.txs[j].hash;
      if j < n {
        assert ck in m && SameCoin(m[ck], c[ck]);
      }
    }
  }

  /** What a block seen with some known credits pays is what the block pays. */
  lemma SeenPays(env: Env, known: set<Hash>, txs: seq<Tx>)
    ensures var txs' := Sights(env, known, txs);
      forall j: nat | j < |txs| :: txs'[j].outs == txs[j].outs && txs'[j].hash == txs[j].hash
  {
    hide RelIn, HashSet;
  }

  // ---------- along a path ----------

  /** Output ck was paid to a ready wallet by transaction j of block y, on the path to x. */
  ghost predicate PaidOn(w: World, x: Hash, ck: CreditKey, y: Hash, j: nat)
    requires w.IsTree() && x in w.u
  {
    y in w.u && y != w.g && OnBranch(w.u, w.g, x, y) && ck.block == BlockId(w.u[y].height, y) &&
    PaidBy(w.env, w.u[y].txs, ck.op, j)
  }

  ghost predicate CreditsOf(w: World, x: Hash, c: map<CreditKey, Credit>)
    requires w.IsTree() && x in w.u
  {
    (forall ck :: ck in c <==> exists y, j: nat :: PaidOn(w, x, ck, y, j)) &&
    forall ck, y, j: nat | PaidOn(w, x, ck, y, j) :: ck in c && CoinOf(c[ck], w.u[y].txs[j], ck.op.index)
  }

  /** The ledger of a path holds a credit, with its value and script, for exactly the outputs on the path whose script
      a ready wallet owns, whichever credits were known when its blocks were connected. */
  lemma {:induction false} CreditsAreOutputs(w: World, x: Hash, ks: seq<set<Hash>>)
    requires w.Sound() && x in w.u && |ks| == w.u[x].height && Trace(w, x, ks).Some?
    ensures CreditsOf(w, x, Trace(w, x, ks).value.b.credits)
    decreases w.u[x].height
  {
    hide Good, ConnectBlock, Follows, Seen, Sights, CreditsOf, BlockGrown, ConnectFirst, TxsUnique;
    if x == w.g {
      NoCoins(w);
      NoCredits(w);
    } else {
      var p, n := w.u[x].prev, |ks| - 1;
      CreditsAreOutputs(w, p, ks[..n]);
      TraceGood(w, p, ks[..n]);
      SeeingFollows(w, x, ks[n]);
      BlockCredits(w.env, Trace(w, p, ks[..n]).value, Seeing(w, x, ks[n]), Seen(w.u, w.g, p), w.u[p].height);
      CreditsStep(w, x, Trace(w, p, ks[..n]).value.b.credits, Trace(w, x, ks).value.b.credits, ks[n]);
    }
  }

  lemma BlockCredits(env: Env, l: Ledger, b: Block, s: set<Hash>, h: nat)
    requires Good(env, l, s, h) && Follows(b, s, h) && ConnectBlock(env, l, b.txs, b.Id()).Some?
    ensures BlockGrown(env, l.b.credits, ConnectBlock(env, l, b.txs, b.Id()).value.b.credits, b.txs, b.Id(), |b.txs|)
  {
    hide Good, Follows, BlockGrown, ConnectTx;
    ConnectFirstIs(env, l, b.txs, b.Id(), |b.txs|);
    FirstCredits(env, l, b, s, h, |b.txs|);
  }

  lemma NoCoins(w: World)
    requires w.Sound()
    ensures w.l0.b.credits == map[] && forall wallet: WalletId :: Balance(w.l0.balances, wallet) == 0
  {
    hide TxsUnique;
    forall ck ensures ck !in w.l0.b.credits {
      assert Fresh(w.l0.b, ck.op.hash);
    }
    forall wallet: WalletId ensures Coins(w.l0.b, wallet) == {} {
      forall uk ensures uk !in w.l0.b.unspent {
        assert Fresh(w.l0.b, uk.op.hash);
      }
    }
  }

  lemma NoCredits(w: World)
    requires w.IsTree()
    ensures CreditsOf(w, w.g, map[])
  {
  }

  lemma PaidOnStep(w: World, x: Hash, ck: CreditKey, y: Hash, j: nat)
    requires w.IsTree() && x in w.u && x != w.g
    ensures PaidOn(w, x, ck, y, j) <==>
      (PaidOn(w, w.u[x].prev, ck, y, j) ||
       (y == x && ck.block == w.u[x].Id() && PaidBy(w.env, w.u[x].txs, ck.op, j)))
  {
    hide PaidBy;
    AncestorStep(w.u, w.g, x);
  }

  lemma CreditsStep(w: World, x: Hash, l: map<CreditKey, Credit>, c: map<CreditKey, Credit>, known: set<Hash>)
    requires w.IsTree() && x in w.u && x != w.g && CreditsOf(w, w.u[x].prev, l)
    requires var txs := Seeing(w, x, known).txs; BlockGrown(w.env, l, c, txs, w.u[x].Id(), |txs|)
    ensures CreditsOf(w, x, c)
  {
    var p, txs, txs' := w.u[x].prev, w.u[x].txs, Seeing(w, x, known).txs;
    SeenPays(w.env, known, txs);
    forall op, j: nat ensures PaidBy(w.env, txs', op, j) <==> PaidBy(w.env, txs, op, j) { }
    forall ck, y, j: nat
      ensures PaidOn(w, x, ck, y, j) <==>
        (PaidOn(w, p, ck, y, j) || (y == x && ck.block == w.u[x].Id() && PaidBy(w.env, txs, ck.op, j)))
    {
      PaidOnStep(w, x, ck, y, j);
    }
    CreditKeysStep(w, x, l, c, txs');
    CreditCoinsStep(w, x, l, c, txs');
  }

  ghost predicate Steps(w: World, x: Hash, txs': seq<Tx>)
    requires w.IsTree() && x in w.u && x != w.g
  {
    |txs'| == |w.u[x].txs| &&
    (forall j: nat | j < |txs'| :: txs'[j].outs == w.u[x].txs[j].outs && txs'[j].hash == w.u[x].txs[j].hash) &&
    forall ck, y, j: nat :: PaidOn(w, x, ck, y, j) <==>
      (PaidOn(w, w.u[x].prev, ck, y, j) ||
       (y == x && ck.block == w.u[x].Id() && PaidBy(w.env, txs', ck.op, j)))
  }

  lemma CreditKeysStep(w: World, x: Hash, l: map<CreditKey, Credit>, c: map<CreditKey, Credit>, txs': seq<Tx>)
    requires w.IsTree() && x in w.u && x != w.g && CreditsOf(w, w.u[x].prev, l) && Steps(w, x, txs')
    requires BlockGrown(w.env, l, c, txs', w.u[x].Id(), |txs'|)
    ensures forall ck :: ck in c <==> exists y, j: nat :: PaidOn(w, x, ck, y, j)
  {
    hide PaidOn, PaidBy, CoinOf;
    forall ck | exists y, j: nat :: PaidOn(w, x, ck, y, j) ensures ck in c {
      var y, j: nat :| PaidOn(w, x, ck, y, j);
      PaidIndex(w.env, txs', ck.op, j);
    }
    forall ck <- c ensures exists y, j: nat :: PaidOn(w, x, ck, y, j) {
      if ck in l {
        var y, j: nat :| PaidOn(w, w.u[x].prev, ck, y, j);
        assert PaidOn(w, x, ck, y, j);
      } else {
        var j: nat :| j < |txs'| && PaidBy(w.env, txs', ck.op, j);
        assert PaidOn(w, x, ck, x, j);
      }
    }
  }

  lemma PaidIndex(env: Env, txs: seq<Tx>, op: OutPoint, j: nat)
    ensures PaidBy(env, txs, op, j) ==> j < |txs|
  {
  }

  lemma CreditCoinsStep(w: World, x: Hash, l: map<CreditKey, Credit>, c: map<CreditKey, Credit>, txs': seq<Tx>)
    requires w.IsTree() && x in w.u && x != w.g && CreditsOf(w, w.u[x].prev, l) && Steps(w, x, txs')
    requires BlockGrown(w.env, l, c, txs', w.u[x].Id(), |txs'|)
    ensures forall ck, y, j: nat | PaidOn(w, x, ck, y, j) :: ck in c && CoinOf(c[ck], w.u[y].txs[j], ck.op.index)
  {
    CreditKeysStep(w, x, l, c, txs');
    hide Rooted;
    forall ck, y, j: nat | PaidOn(w, x, ck, y, j) ensures ck in c && CoinOf(c[ck], w.u[y].txs[j], ck.op.index) {
      if PaidOn(w, w.u[x].prev, ck, y, j) {
        assert ck in l && CoinOf(l[ck], w.u[y].txs[j], ck.op.index) && SameCoin(l[ck], c[ck]);
      } else {
        assert PaidBy(w.env, txs', ck.op, j) && CoinOf(c[ck], txs'[j], ck.op.index);
      }
    }
  }

  // ---------- balances ----------

  /** What the first n outputs of t pay to a wallet. */
  function Received(env: Env, wallet: WalletId, t: Tx, n: nat): nat
    requires n <= |t.outs|
  {
    if n == 0 then 0
    else
      var o := t.outs[n - 1];
      Received(env, wallet, t, n - 1) +
      if o.script in env.owner && env.owner[o.script] == wallet then o.value else 0
  }

  function ValueAt(value: map<OutPoint, nat>, op: OutPoint): nat { if op in value then value[op] else 0 }

  /** What the first n inputs of t spend of a wallet, when outputs have these values: inputs of a wallet's script that
      spend from a known transaction. */
  function SpentBy(env: Env, wallet: WalletId, known: set<Hash>, value: map<OutPoint, nat>, t: Tx, n: nat): nat
    requires n <= |t.ins|
  {
    if n == 0 then 0
    else
      var x := t.ins[n - 1];
      SpentBy(env, wallet, known, value, t, n - 1) +
      if !t.coinbase && x.prev.hash in known && x.prevScript.Some? && x.prevScript.value in env.owner &&
         env.owner[x.prevScript.value] == wallet
      then ValueAt(value, x.prev) else 0
  }

  /** Every credit has the value of its output. */
  ghost predicate Priced(value: map<OutPoint, nat>, c: map<CreditKey, Credit>) {
    forall ck <- c :: ck.op in value && value[ck.op] == c[ck].amount
  }

  lemma {:induction false} SpendAllBalance(env: Env, l: Ledger, t: Tx, blk: BlockId, n: nat, wallet: WalletId,
                                           known: set<Hash>, value: map<OutPoint, nat>)
    requires n <= |t.ins| && wallet in env.ready && Priced(value, l.b.credits)
    requires SpendAll(env, l, Sight(env, known, t), blk, n).Some?
    ensures var m := SpendAll(env, l, Sight(env, known, t), blk, n).value;
      Balance(m.balances, wallet) + SpentBy(env, wallet, known, value, t, n) == Balance(l.balances, wallet) &&
      Priced(value, m.b.credits)
  {
    if n > 0 {
      SpendAllBalance(env, l, t, blk, n - 1, wallet, known, value);
      SightKeeps(env, known, t);
      var t' := Sight(env, known, t);
      var m := SpendAll(env, l, t', blk, n - 1).value;
      hide Sight, SpendAll, Priced;
      assert SpendAll(env, l, t', blk, n) ==
             if RelIn(env, t', n - 1) then Spend(env, m, t', blk, n - 1) else Some(m) by {
        SpendAllStep(env, l, t', blk, n);
      }
      if RelIn(env, t', n - 1) {
        SpendBalance(env, m, t', blk, n - 1, wallet, value);
      }
    }
  }

  lemma SpendAllStep(env: Env, l: Ledger, t: Tx, blk: BlockId, n: nat)
    requires 0 < n <= |t.ins|
    ensures SpendAll(env, l, t, blk, n) ==
            match SpendAll(env, l, t, blk, n - 1)
            case None => None
            case Some(m) => if RelIn(env, t, n - 1) then Spend(env, m, t, blk, n - 1) else Some(m)
  {
  }

  lemma SpendBalance(env: Env, m: Ledger, t: Tx, blk: BlockId, i: nat, wallet: WalletId, value: map<OutPoint, nat>)
    requires RelIn(env, t, i) && Priced(value, m.b.credits) && Spend(env, m, t, blk, i).Some?
    ensures var r := Spend(env, m, t, blk, i).value;
      Priced(value, r.b.credits) && t.ins[i].prev in value &&
      Balance(r.balances, wallet) +
        (if env.owner[t.ins[i].prevScript.value] == wallet then value[t.ins[i].prev] else 0) ==
      Balance(m.balances, wallet)
  {
  }

  lemma {:induction false} AddCreditsBalance(env: Env, l: Ledger, t: Tx, blk: BlockId, n: nat, wallet: WalletId)
    requires n <= |t.outs| && wallet in env.ready && AddCredits(env, l, t, blk, n).Some?
    ensures Balance(AddCredits(env, l, t, blk, n).value.balances, wallet) ==
            Balance(l.balances, wallet) + Received(env, wallet, t, n)
  {
    if n > 0 {
      AddCreditsBalance(env, l, t, blk, n - 1, wallet);
    }
  }

  /** One connected transaction: what a wallet had and receives is what it has and spends. */
  lemma ConnectTxBalance(env: Env, l: Ledger, t: Tx, blk: BlockId, wallet: WalletId, known: set<Hash>,
                         value: map<OutPoint, nat>)
    requires wallet in env.ready && Priced(value, l.b.credits) && TxKey(t.hash, blk) !in l.txs
    requires ConnectTx(env, l, Sight(env, known, t), blk).Some?
    ensures Balance(ConnectTx(env, l, Sight(env, known, t), blk).value.balances, wallet) +
            SpentBy(env, wallet, known, value, t, |t.ins|) ==
            Balance(l.balances, wallet) + Received(env, wallet, t, |t.outs|)
  {
    hide Sight, SpendAll, AddCredits, Priced;
    var t' := Sight(env, known, t);
    SightKeeps(env, known, t);
    var r := Record(l, t', blk);
    SpendAllBalance(env, r, t, blk, |t.ins|, wallet, known, value);
    var m := InsertMinedTx(env, l, t', blk).value;
    AddCreditsBalance(env, m, t', blk, |t.outs|, wallet);
    SameReceived(env, wallet, t, t', |t.outs|);
  }

  lemma {:induction false} SameReceived(env: Env, wallet: WalletId, t: Tx, t': Tx, n: nat)
    requires t.outs == t'.outs && n <= |t.outs|
    ensures Received(env, wallet, t, n) == Received(env, wallet, t', n)
  {
    if n > 0 {
      SameReceived(env, wallet, t, t', n - 1);
    }
  }

  // ---------- balances along a path ----------

  function ReceivedIn(env: Env, wallet: WalletId, txs: seq<Tx>, n: nat): nat
    requires n <= |txs|
  {
    if n == 0 then 0
    else ReceivedIn(env, wallet, txs, n - 1) + Received(env, wallet, txs[n - 1], |txs[n - 1].outs|)
  }

  /** What the first n transactions of a block spend of a wallet: besides the known ones, each knows those up to it. */
  ghost function SpentIn(env: Env, wallet: WalletId, known: set<Hash>, value: map<OutPoint, nat>, txs: seq<Tx>, n: nat):
    nat
    requires n <= |txs|
  {
    if n == 0 then 0
    else
      SpentIn(env, wallet, known, value, txs, n - 1) +
      SpentBy(env, wallet, known + HashSet(txs[..n]), value, txs[n - 1], |txs[n - 1].ins|)
  }

  /** Values that fit what the block pays. */
  ghost predicate Prices(env: Env, value: map<OutPoint, nat>, txs: seq<Tx>) {
    forall op, j: nat | PaidBy(env, txs, op, j) :: op in value && value[op] == txs[j].outs[op.index].value
  }

  lemma GrownPriced(env: Env, value: map<OutPoint, nat>, l: map<CreditKey, Credit>, c: map<CreditKey, Credit>,
                    txs: seq<Tx>, txs': seq<Tx>, blk: BlockId, n: nat)
    requires |txs| == |txs'| && n <= |txs| && Priced(value, l) && Prices(env, value, txs)
    requires BlockGrown(env, l, c, txs', blk, n)
    requires forall j: nat | j < |txs| :: txs'[j].outs == txs[j].outs && txs'[j].hash == txs[j].hash
    ensures Priced(value, c)
  {
    forall ck <- c ensures ck.op in value && value[ck.op] == c[ck].amount {
      if ck !in l {
        var j: nat :| j < n && PaidBy(env, txs', ck.op, j);
        assert PaidBy(env, txs, ck.op, j) && CoinOf(c[ck], txs'[j], ck.op.index);
      }
    }
  }

  lemma {:induction false} FirstBalance(env: Env, l: Ledger, b: Block, s: set<Hash>, h: nat, n: nat, wallet: WalletId,
                                        known: set<Hash>, value: map<OutPoint, nat>)
    requires Good(env, l, s, h) && Follows(b, s, h) && n <= |b.txs| && wallet in env.ready
    requires Priced(value, l.b.credits) && Prices(env, value, b.txs)
    requires ConnectFirst(env, l, Sights(env, known, b.txs), b.Id(), n).Some?
    ensures Balance(ConnectFirst(env, l, Sights(env, known, b.txs), b.Id(), n).value.balances, wallet) +
            SpentIn(env, wallet, known, value, b.txs, n) ==
            Balance(l.balances, wallet) + ReceivedIn(env, wallet, b.txs, n)
  {
    hide ConnectTx, Good, Follows, BlockGrown, Relevant, Sight, HashSet, Prices, Priced, Inv, Fresh;
    if n > 0 {
      FirstBalance(env, l, b, s, h, n - 1, wallet, known, value);
      var b' := b.(txs := Sights(env, known, b.txs));
      SightsFollow(env, known, b, s, h);
      var m := ConnectFirst(env, l, b'.txs, b.Id(), n - 1).value;
      FirstGood(env, l, b', s, h, n - 1);
      FirstCredits(env, l, b', s, h, n - 1);
      SeenPays(env, known, b.txs);
      GrownPriced(env, value, l.b.credits, m.b.credits, b.txs, b'.txs, b.Id(), n - 1);
      var t, k := b.txs[n - 1], known + HashSet(b.txs[..n]);
      assert b'.txs[n - 1] == Sight(env, k, t);
      if Relevant(env, b'.txs[n - 1]) {
        ConnectTxBalance(env, m, t, b.Id(), wallet, k, value);
      } else {
        IdleBalance(env, t, wallet, k, value);
      }
    }
  }

  lemma IdleBalance(env: Env, t: Tx, wallet: WalletId, known: set<Hash>, value: map<OutPoint, nat>)
    requires wallet in env.ready && !Relevant(env, Sight(env, known, t))
    ensures SpentBy(env, wallet, known, value, t, |t.ins|) == 0 && Received(env, wallet, t, |t.outs|) == 0
  {
    SightKeeps(env, known, t);
    forall i: nat | i < |t.ins| ensures !(RelIn(env, t, i) && t.ins[i].prev.hash in known) {
      assert !RelIn(env, Sight(env, known, t), i);
    }
    forall i: nat | i < |t.outs| ensures !RelOut(env, t, i) {
      assert !RelOut(env, Sight(env, known, t), i);
    }
    NothingSpent(env, t, wallet, known, value, |t.ins|);
    NothingReceived(env, t, wallet, |t.outs|);
  }

  lemma {:induction false} NothingSpent(env: Env, t: Tx, wallet: WalletId, known: set<Hash>, value: map<OutPoint, nat>,
                                        n: nat)
    requires wallet in env.ready && n <= |t.ins|
    requires forall i: nat | i < |t.ins| :: !(RelIn(env, t, i) && t.ins[i].prev.hash in known)
    ensures SpentBy(env, wallet, known, value, t, n) == 0
  {
    if n > 0 {
      NothingSpent(env, t, wallet, known, value, n - 1);
      assert !(RelIn(env, t, n - 1) && t.ins[n - 1].prev.hash in known);
    }
  }

  lemma {:induction false} NothingReceived(env: Env, t: Tx, wallet: WalletId, n: nat)
    requires wallet in env.ready && n <= |t.outs| && forall i: nat | i < |t.outs| :: !RelOut(env, t, i)
    ensures Received(env, wallet, t, n) == 0
  {
    if n > 0 {
      NothingReceived(env, t, wallet, n - 1);
      assert !RelOut(env, t, n - 1);
    }
  }

  function TxOutputs(t: Tx): map<OutPoint, nat> {
    map i: nat | i < |t.outs| :: OutPoint(t.hash, i) := t.outs[i].value
  }

  function BlockOutputs(txs: seq<Tx>, n: nat): map<OutPoint, nat>
    requires n <= |txs|
  {
    if n == 0 then map[] else BlockOutputs(txs, n - 1) + TxOutputs(txs[n - 1])
  }

  /** The values of all outputs on the path to x, whoever they pay. */
  ghost function Outputs(w: World, x: Hash): map<OutPoint, nat>
    requires w.IsTree() && x in w.u
    decreases w.u[x].height
  {
    if x == w.g then map[] else Outputs(w, w.u[x].prev) + BlockOutputs(w.u[x].txs, |w.u[x].txs|)
  }

  /** What the path to x pays to a wallet. */
  ghost function Income(w: World, x: Hash, wallet: WalletId): nat
    requires w.IsTree() && x in w.u
    decreases w.u[x].height
  {
    if x == w.g then 0
    else Income(w, w.u[x].prev, wallet) + ReceivedIn(w.env, wallet, w.u[x].txs, |w.u[x].txs|)
  }

  /** What the inputs on the path to x spend of it, each block knowing the credits it was connected with. */
  ghost function Outgo(w: World, x: Hash, ks: seq<set<Hash>>, wallet: WalletId): nat
    requires w.IsTree() && x in w.u && |ks| == w.u[x].height
    decreases w.u[x].height
  {
    if x == w.g then 0
    else
      var n := |ks| - 1;
      Outgo(w, w.u[x].prev, ks[..n], wallet) +
      SpentIn(w.env, wallet, ks[n], Outputs(w, x), w.u[x].txs, |w.u[x].txs|)
  }

  lemma {:induction false} BlockOutputsAt(txs: seq<Tx>, n: nat, op: OutPoint)
    requires n <= |txs| && DistinctHashes(txs)
    ensures op in BlockOutputs(txs, n) <==>
      exists j: nat :: j < n && txs[j].hash == op.hash && op.index < |txs[j].outs|
    ensures forall j: nat | j < n && txs[j].hash == op.hash && op.index < |txs[j].outs| ::
      op in BlockOutputs(txs, n) && BlockOutputs(txs, n)[op] == txs[j].outs[op.index].value
  {
    if n > 0 {
      BlockOutputsAt(txs, n - 1, op);
      TxOutputsAt(txs[n - 1], op);
    }
  }

  lemma TxOutputsAt(t: Tx, op: OutPoint)
    ensures op in TxOutputs(t) <==> op.hash == t.hash && op.index < |t.outs|
    ensures op in TxOutputs(t) ==> TxOutputs(t)[op] == t.outs[op.index].value
  {
    assert op == OutPoint(op.hash, op.index);
  }

  /** Outputs has every output of every block on the path, since no transaction hash occurs twice. */
  lemma {:induction false} OutputsAt(w: World, x: Hash, y: Hash, j: nat, op: OutPoint)
    requires w.Sound() && x in w.u && OnBranch(w.u, w.g, x, y) && y != w.g && j < |w.u[y].txs|
    requires w.u[y].txs[j].hash == op.hash && op.index < |w.u[y].txs[j].outs|
    ensures op in Outputs(w, x) && Outputs(w, x)[op] == w.u[y].txs[j].outs[op.index].value
    ensures op.hash in Seen(w.u, w.g, x)
    decreases w.u[x].height
  {
    hide Good, TxsUnique;
    FollowsParent(w.u, w.g, x);
    var txs := w.u[x].txs;
    BlockOutputsAt(txs, |txs|, op);
    AncestorStep(w.u, w.g, x);
    if x == y {
      assert txs[j] in txs;
    } else {
      OutputsAt(w, w.u[x].prev, y, j, op);
      forall i: nat | i < |txs| ensures txs[i].hash != op.hash {
        assert txs[i].hash in HashSet(txs);
      }
    }
  }

  lemma PathPrices(w: World, x: Hash, c: map<CreditKey, Credit>)
    requires w.Sound() && x in w.u && x != w.g && CreditsOf(w, w.u[x].prev, c)
    ensures Priced(Outputs(w, x), c) && Prices(w.env, Outputs(w, x), w.u[x].txs)
  {
    hide Good, TxsUnique, Outputs, Seen;
    AncestorStep(w.u, w.g, x);
    forall ck <- c ensures ck.op in Outputs(w, x) && Outputs(w, x)[ck.op] == c[ck].amount {
      var y, j: nat :| PaidOn(w, w.u[x].prev, ck, y, j);
      OutputsAt(w, x, y, j, ck.op);
    }
    forall op, j: nat | PaidBy(w.env, w.u[x].txs, op, j)
      ensures op in Outputs(w, x) && Outputs(w, x)[op] == w.u[x].txs[j].outs[op.index].value
    {
      OutputsAt(w, x, x, j, op);
    }
  }

  /** The balance of a ready wallet in the ledger of a path is what the path pays it less what the inputs on the path
      spend of it. */
  lemma {:induction false} BalanceIsIncomeLessOutgo(w: World, x: Hash, ks: seq<set<Hash>>, wallet: WalletId)
    requires w.Sound() && x in w.u && |ks| == w.u[x].height && Trace(w, x, ks).Some? && wallet in w.env.ready
    ensures Balance(Trace(w, x, ks).value.balances, wallet) + Outgo(w, x, ks, wallet) == Income(w, x, wallet)
    decreases w.u[x].height
  {
    hide Good, ConnectBlock, Follows, Seen, Sights, CreditsOf, TxsUnique, Outputs, SpentIn, ReceivedIn;
    if x == w.g {
      NoCoins(w);
    } else {
      var p, n := w.u[x].prev, |ks| - 1;
      BalanceIsIncomeLessOutgo(w, p, ks[..n], wallet);
      TraceGood(w, p, ks[..n]);
      CreditsAreOutputs(w, p, ks[..n]);
      FollowsParent(w.u, w.g, x);
      var l := Trace(w, p, ks[..n]).value;
      PathPrices(w, x, l.b.credits);
      BlockBalance(w.env, l, w.u[x], Seen(w.u, w.g, p), w.u[p].height, wallet, ks[n], Outputs(w, x));
    }
  }

  lemma BlockBalance(env: Env, l: Ledger, b: Block, s: set<Hash>, h: nat, wallet: WalletId, known: set<Hash>,
                     value: map<OutPoint, nat>)
    requires Good(env, l, s, h) && Follows(b, s, h) && wallet in env.ready
    requires Priced(value, l.b.credits) && Prices(env, value, b.txs)
    requires ConnectBlock(env, l, Sights(env, known, b.txs), b.Id()).Some?
    ensures Balance(ConnectBlock(env, l, Sights(env, known, b.txs), b.Id()).value.balances, wallet) +
            SpentIn(env, wallet, known, value, b.txs, |b.txs|) ==
            Balance(l.balances, wallet) + ReceivedIn(env, wallet, b.txs, |b.txs|)
  {
    hide Good, Follows, Sights, Priced, Prices, ConnectTx, RelevantTxs;
    var txs := Sights(env, known, b.txs);
    ConnectFirstIs(env, l, txs, b.Id(), |txs|);
    FirstBalance(env, l, b, s, h, |b.txs|, wallet, known, value);
  }
}
