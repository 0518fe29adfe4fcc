/** How the fold over transactions behaves under the working balance map and the block bucket, and the
    lists of relevant inputs and outputs that the code loops over. */
module LedgerFrames {
  import opened Wrappers
  import opened Ledger

  /** The relevant inputs among the first n, as filterTx lists them. */
  function RelIns(env: Env, t: Tx, n: nat): (rs: seq<Rel>)
    requires n <= |t.ins|
    ensures forall r <- rs :: r.index < |t.ins|
  {
    if n == 0 then []
    else RelIns(env, t, n - 1) + if RelIn(env, t, n - 1) then [InRel(env, t, n - 1)] else []
  }

  function RelOuts(env: Env, t: Tx, n: nat): (rs: seq<Rel>)
    requires n <= |t.outs|
    ensures forall r <- rs :: r.index < |t.outs|
  {
    if n == 0 then []
    else RelOuts(env, t, n - 1) + if RelOut(env, t, n - 1) then [OutRel(env, t, n - 1)] else []
  }

  ghost predicate InIndexOrder(rs: seq<Rel>) {
    forall a, b :: 0 <= a < b < |rs| ==> rs[a].index < rs[b].index
  }

  lemma OrderedMore(rs: seq<Rel>, r: Rel)
    requires InIndexOrder(rs) && forall x <- rs :: x.index < r.index
    ensures InIndexOrder(rs + [r])
  {
  }

  /** The relevant inputs, each once and in order. */
  lemma {:induction false} RelInsAre(env: Env, t: Tx, n: nat)
    requires n <= |t.ins|
    ensures forall i: nat, w: WalletId :: Rel(i, w) in RelIns(env, t, n) <==>
      i < n && RelIn(env, t, i) && env.owner[t.ins[i].prevScript.value] == w
    ensures InIndexOrder(RelIns(env, t, n)) && forall r <- RelIns(env, t, n) :: r.index < n
  {
    if n > 0 {
      RelInsAre(env, t, n - 1);
      if RelIn(env, t, n - 1) {
        OrderedMore(RelIns(env, t, n - 1), InRel(env, t, n - 1));
      }
    }
  }

  lemma {:induction false} RelOutsAre(env: Env, t: Tx, n: nat)
    requires n <= |t.outs|
    ensures forall i: nat, w: WalletId :: Rel(i, w) in RelOuts(env, t, n) <==>
      i < n && RelOut(env, t, i) && env.owner[t.outs[i].script] == w
    ensures InIndexOrder(RelOuts(env, t, n)) && forall r <- RelOuts(env, t, n) :: r.index < n
  {
    if n > 0 {
      RelOutsAre(env, t, n - 1);
      if RelOut(env, t, n - 1) {
        OrderedMore(RelOuts(env, t, n - 1), OutRel(env, t, n - 1));
      }
    }
  }

  /** The first k listed inputs, in list order. */
  function SpendRels(l: Ledger, t: Tx, blk: BlockId, rs: seq<Rel>, k: nat): Option<Ledger>
    requires k <= |rs| && forall r <- rs :: r.index < |t.ins|
  {
    if k == 0 then Some(l)
    else
      match SpendRels(l, t, blk, rs, k - 1)
      case None => None
      case Some(m) => SpendRel(m, t, blk, rs[k - 1])
  }

  function AddRels(env: Env, l: Ledger, t: Tx, blk: BlockId, rs: seq<Rel>, k: nat): Option<Ledger>
    requires k <= |rs| && forall r <- rs :: r.index < |t.outs|
  {
    if k == 0 then Some(l)
    else
      match AddRels(env, l, t, blk, rs, k - 1)
      case None => None
      case Some(m) => AddRel(env, m, t, blk, rs[k - 1])
  }

  lemma {:induction false} SpendRelsExtend(l: Ledger, t: Tx, blk: BlockId, rs: seq<Rel>, rs': seq<Rel>, k: nat)
    requires k <= |rs| && forall r <- rs + rs' :: r.index < |t.ins|
    ensures forall r <- rs :: r.index < |t.ins|
    ensures SpendRels(l, t, blk, rs + rs', k) == SpendRels(l, t, blk, rs, k)
  {
    assert forall r <- rs :: r in rs + rs';
    if k > 0 {
      SpendRelsExtend(l, t, blk, rs, rs', k - 1);
    }
  }

  lemma {:induction false} AddRelsExtend(env: Env, l: Ledger, t: Tx, blk: BlockId, rs: seq<Rel>, rs': seq<Rel>, k: nat)
    requires k <= |rs| && forall r <- rs + rs' :: r.index < |t.outs|
    ensures forall r <- rs :: r.index < |t.outs|
    ensures AddRels(env, l, t, blk, rs + rs', k) == AddRels(env, l, t, blk, rs, k)
  {
    assert forall r <- rs :: r in rs + rs';
    if k > 0 {
      AddRelsExtend(env, l, t, blk, rs, rs', k - 1);
    }
  }

  /** Looping over the listed inputs is looping over all inputs and skipping the others. */
  lemma {:induction false} SpendRelsAll(env: Env, l: Ledger, t: Tx, blk: BlockId, n: nat)
    requires n <= |t.ins|
    ensures SpendRels(l, t, blk, RelIns(env, t, n), |RelIns(env, t, n)|) == SpendAll(env, l, t, blk, n)
  {
    if n > 0 {
      SpendRelsAll(env, l, t, blk, n - 1);
      var rs := RelIns(env, t, n - 1);
      if RelIn(env, t, n - 1) {
        var more := [InRel(env, t, n - 1)];
        assert RelIns(env, t, n) == rs + more;
        SpendRelsExtend(l, t, blk, rs, more, |rs|);
        assert (rs + more)[|rs|] == more[0];
      } else {
        assert RelIns(env, t, n) == rs;
      }
    }
  }

  lemma {:induction false} AddRelsAll(env: Env, l: Ledger, t: Tx, blk: BlockId, n: nat)
    requires n <= |t.outs|
    ensures AddRels(env, l, t, blk, RelOuts(env, t, n), |RelOuts(env, t, n)|) == AddCredits(env, l, t, blk, n)
  {
    if n > 0 {
      AddRelsAll(env, l, t, blk, n - 1);
      var rs := RelOuts(env, t, n - 1);
      if RelOut(env, t, n - 1) {
        var more := [OutRel(env, t, n - 1)];
        assert RelOuts(env, t, n) == rs + more;
        AddRelsExtend(env, l, t, blk, rs, more, |rs|);
        assert (rs + more)[|rs|] == more[0];
      } else {
        assert RelOuts(env, t, n) == rs;
      }
    }
  }

  // ---------- a failed step fails the fold ----------

  lemma {:induction false} SpendRelsFail(l: Ledger, t: Tx, blk: BlockId, rs: seq<Rel>, k: nat, n: nat)
    requires k <= n <= |rs| && forall r <- rs :: r.index < |t.ins|
    requires SpendRels(l, t, blk, rs, k).None?
    ensures SpendRels(l, t, blk, rs, n).None?
    decreases n
  {
    if k < n { SpendRelsFail(l, t, blk, rs, k, n - 1); }
  }

  lemma {:induction false} AddRelsFail(env: Env, l: Ledger, t: Tx, blk: BlockId, rs: seq<Rel>, k: nat, n: nat)
    requires k <= n <= |rs| && forall r <- rs :: r.index < |t.outs|
    requires AddRels(env, l, t, blk, rs, k).None?
    ensures AddRels(env, l, t, blk, rs, n).None?
    decreases n
  {
    if k < n { AddRelsFail(env, l, t, blk, rs, k, n - 1); }
  }

  lemma {:induction false} ConnectTxsFail(env: Env, l: Ledger, rs: seq<Tx>, blk: BlockId, k: nat, n: nat)
    requires k <= n <= |rs| && ConnectTxs(env, l, rs, blk, k).None?
    ensures ConnectTxs(env, l, rs, blk, n).None?
    decreases n
  {
    if k < n { ConnectTxsFail(env, l, rs, blk, k, n - 1); }
  }

  lemma {:induction false} UndoInsFail(env: Env, l: Ledger, t: Tx, blk: BlockId, k: nat, n: nat)
    requires k <= n <= |t.ins| && UndoIns(env, l, t, blk, k).None?
    ensures UndoIns(env, l, t, blk, n).None?
    decreases n
  {
    if k < n { UndoInsFail(env, l, t, blk, k, n - 1); }
  }

  lemma {:induction false} UndoOutsFail(env: Env, l: Ledger, t: Tx, blk: BlockId, k: nat, n: nat)
    requires k <= n <= |t.outs| && UndoOuts(env, l, t, blk, k).None?
    ensures UndoOuts(env, l, t, blk, n).None?
    decreases n
  {
    if k < n { UndoOutsFail(env, l, t, blk, k, n - 1); }
  }

  lemma {:induction false} UndoTxsFail(env: Env, l: Ledger, hs: seq<Hash>, blk: BlockId, k: nat, n: nat)
    requires n <= k <= |hs| && UndoTxs(env, l, hs, blk, k).None?
    ensures UndoTxs(env, l, hs, blk, n).None?
    decreases |hs| - n
  {
    if n < k { UndoTxsFail(env, l, hs, blk, k, n + 1); }
  }

  lemma {:induction false} RollbackFail(env: Env, l: Ledger, from: nat, k: nat, to: nat)
    requires to <= k <= from + 1 && RollbackTo(env, l, from, k).None?
    ensures RollbackTo(env, l, from, to).None?
    decreases from + 1 - to
  {
    if to < k { RollbackFail(env, l, from, k, to + 1); }
  }

  // ---------- the block bucket is not touched while transactions are undone ----------

  ghost function WithBlocks(o: Option<Ledger>, x: map<nat, BlockRecord>): Option<Ledger> {
    match o case None => None case Some(l) => Some(l.(blocks := x))
  }

  lemma {:induction false} UndoInsBlocks(env: Env, l: Ledger, t: Tx, blk: BlockId, n: nat, x: map<nat, BlockRecord>)
    requires n <= |t.ins|
    ensures UndoIns(env, l.(blocks := x), t, blk, n) == WithBlocks(UndoIns(env, l, t, blk, n), x)
  {
    if n > 0 { UndoInsBlocks(env, l, t, blk, n - 1, x); }
  }

  lemma {:induction false} UndoOutsBlocks(env: Env, l: Ledger, t: Tx, blk: BlockId, n: nat, x: map<nat, BlockRecord>)
    requires n <= |t.outs|
    ensures UndoOuts(env, l.(blocks := x), t, blk, n) == WithBlocks(UndoOuts(env, l, t, blk, n), x)
  {
    if n > 0 { UndoOutsBlocks(env, l, t, blk, n - 1, x); }
  }

  lemma UndoTxBlocks(env: Env, l: Ledger, h: Hash, blk: BlockId, x: map<nat, BlockRecord>)
    ensures UndoTx(env, l.(blocks := x), h, blk) == WithBlocks(UndoTx(env, l, h, blk), x)
  {
    var tk := TxKey(h, blk);
    if tk in l.txs {
      var t := l.txs[tk].(hash := h);
      var l0 := l.(txs := l.txs - {tk});
      UndoInsBlocks(env, l0, t, blk, |t.ins|, x);
      if t.coinbase {
        UndoOutsBlocks(env, l0, t, blk, |t.outs|, x);
      } else if UndoIns(env, l0, t, blk, |t.ins|).Some? {
        UndoOutsBlocks(env, UndoIns(env, l0, t, blk, |t.ins|).value, t, blk, |t.outs|, x);
      }
    }
  }

  lemma {:induction false} UndoTxsBlocks(env: Env, l: Ledger, hs: seq<Hash>, blk: BlockId, k: nat, x: map<nat,
                                         BlockRecord>)
    requires k <= |hs|
    ensures UndoTxs(env, l.(blocks := x), hs, blk, k) == WithBlocks(UndoTxs(env, l, hs, blk, k), x)
    decreases |hs| - k
  {
    if k < |hs| {
      UndoTxsBlocks(env, l, hs, blk, k + 1, x);
      if UndoTxs(env, l, hs, blk, k + 1).Some? {
        UndoTxBlocks(env, UndoTxs(env, l, hs, blk, k + 1).value, hs[k], blk, x);
      }
    }
  }

  // ---------- a connect needs only the balances of the ready wallets ----------

  /** Balances m put back over the stored ones. */
  ghost function Over(base: map<WalletId, nat>, o: Option<Ledger>): Option<Ledger> {
    match o case None => None case Some(l) => Some(l.(balances := base + l.balances))
  }

  lemma UpdateOver(base: map<WalletId, nat>, m: map<WalletId, nat>, w: WalletId, x: nat)
    ensures base + m[w := x] == (base + m)[w := x]
    ensures w in m ==> Balance(base + m, w) == Balance(m, w)
  {
  }

  lemma SpendRelOver(base: map<WalletId, nat>, l: Ledger, t: Tx, blk: BlockId, rel: Rel)
    requires rel.index < |t.ins| && rel.wallet in l.balances
    ensures SpendRel(l.(balances := base + l.balances), t, blk, rel) == Over(base, SpendRel(l, t, blk, rel))
    ensures SpendRel(l, t, blk, rel).Some? ==> SpendRel(l, t, blk, rel).value.balances.Keys == l.balances.Keys
  {
    var r := SpendRel(l, t, blk, rel);
    UpdateOver(base, l.balances, rel.wallet, if r.Some? then r.value.balances[rel.wallet] else 0);
  }

  lemma AddRelOver(env: Env, base: map<WalletId, nat>, l: Ledger, t: Tx, blk: BlockId, rel: Rel)
    requires rel.index < |t.outs| && rel.wallet in l.balances
    ensures AddRel(env, l.(balances := base + l.balances), t, blk, rel) == Over(base, AddRel(env, l, t, blk, rel))
    ensures AddRel(env, l, t, blk, rel).Some? ==> AddRel(env, l, t, blk, rel).value.balances.Keys == l.balances.Keys
  {
    var r := AddRel(env, l, t, blk, rel);
    UpdateOver(base, l.balances, rel.wallet, if r.Some? then r.value.balances[rel.wallet] else 0);
  }

  lemma {:induction false} SpendAllOver(env: Env, base: map<WalletId, nat>, l: Ledger, t: Tx, blk: BlockId, n: nat)
    requires n <= |t.ins| && env.ready <= l.balances.Keys
    ensures SpendAll(env, l.(balances := base + l.balances), t, blk, n) == Over(base, SpendAll(env, l, t, blk, n))
    ensures SpendAll(env, l, t, blk, n).Some? ==> SpendAll(env, l, t, blk, n).value.balances.Keys == l.balances.Keys
  {
    if n > 0 {
      SpendAllOver(env, base, l, t, blk, n - 1);
      if SpendAll(env, l, t, blk, n - 1).Some? && RelIn(env, t, n - 1) {
        SpendRelOver(base, SpendAll(env, l, t, blk, n - 1).value, t, blk, InRel(env, t, n - 1));
      }
    }
  }

  lemma {:induction false} AddCreditsOver(env: Env, base: map<WalletId, nat>, l: Ledger, t: Tx, blk: BlockId, n: nat)
    requires n <= |t.outs| && env.ready <= l.balances.Keys
    ensures AddCredits(env, l.(balances := base + l.balances), t, blk, n) == Over(base, AddCredits(env, l, t, blk, n))
    ensures AddCredits(env, l, t, blk, n).Some? ==> AddCredits(env, l, t, blk, n).value.balances.Keys == l.balances.Keys
  {
    if n > 0 {
      AddCreditsOver(env, base, l, t, blk, n - 1);
      if AddCredits(env, l, t, blk, n - 1).Some? && RelOut(env, t, n - 1) {
        AddRelOver(env, base, AddCredits(env, l, t, blk, n - 1).value, t, blk, OutRel(env, t, n - 1));
      }
    }
  }

  lemma {:induction false} ConnectTxsOver(env: Env, base: map<WalletId, nat>, l: Ledger, rs: seq<Tx>, blk: BlockId,
                                          n: nat)
    requires n <= |rs| && env.ready <= l.balances.Keys
    ensures ConnectTxs(env, l.(balances := base + l.balances), rs, blk, n) == Over(base, ConnectTxs(env, l, rs, blk, n))
    ensures ConnectTxs(env, l, rs, blk, n).Some? ==>
      ConnectTxs(env, l, rs, blk, n).value.balances.Keys == l.balances.Keys
  {
    hide SpendAll, AddCredits;
    if n > 0 {
      ConnectTxsOver(env, base, l, rs, blk, n - 1);
      if ConnectTxs(env, l, rs, blk, n - 1).Some? {
        var m, t := ConnectTxs(env, l, rs, blk, n - 1).value, rs[n - 1];
        SpendAllOver(env, base, Record(m, t, blk), t, blk, |t.ins|);
        if InsertMinedTx(env, m, t, blk).Some? {
          AddCreditsOver(env, base, InsertMinedTx(env, m, t, blk).value, t, blk, |t.outs|);
        }
      }
    }
  }
}
