/** The transaction store: bucket updates in place, step by step as masswallet/txmgr does them, each
    method proved against the ledger functions. */
module TxStore {
  import opened Wrappers
  import opened Ledger
  import opened LedgerFrames
  import opened Sighting

  /** A transaction record: the transaction, and its relevant inputs and outputs. */
  datatype TxRecord = TxRecord(tx: Tx, relIn: seq<Rel>, relOut: seq<Rel>)

  function RecordOf(env: Env, t: Tx): TxRecord {
    TxRecord(Bare(t), RelIns(env, t, |t.ins|), RelOuts(env, t, |t.outs|))
  }

  /** The inputs listed: exactly those that spend from a script of a ready wallet and from a transaction looked at, each
      with its wallet, in index order; none of a coinbase. */
  ghost predicate InputsListed(env: Env, t: Tx, known: set<Hash>, rels: seq<Rel>) {
    (forall i: nat, w: WalletId :: Rel(i, w) in rels <==>
       i < |t.ins| && !t.coinbase && t.ins[i].prevScript.Some? && t.ins[i].prev.hash in known &&
       t.ins[i].prevScript.value in env.owner && env.owner[t.ins[i].prevScript.value] == w && w in env.ready) &&
    forall a, b :: 0 <= a < b < |rels| ==> rels[a].index < rels[b].index
  }

  /** The outputs listed: exactly those whose script a ready wallet owns, each with its wallet, in index order. */
  ghost predicate OutputsListed(env: Env, t: Tx, rels: seq<Rel>) {
    (forall i: nat, w: WalletId :: Rel(i, w) in rels <==>
       i < |t.outs| && t.outs[i].script in env.owner && env.owner[t.outs[i].script] == w && w in env.ready) &&
    forall a, b :: 0 <= a < b < |rels| ==> rels[a].index < rels[b].index
  }

  lemma RelsListed(env: Env, t: Tx, known: set<Hash>)
    ensures var t' := Sight(env, known, t);
      InputsListed(env, t, known, RelIns(env, t', |t'.ins|)) && OutputsListed(env, t, RelOuts(env, t', |t'.outs|))
  {
    var t' := Sight(env, known, t);
    SightKeeps(env, known, t);
    hide Sight;
    RelInsAre(env, t', |t'.ins|);
    RelOutsAre(env, t', |t'.outs|);
  }

  /** filterTx for a mined transaction: list the relevant inputs and outputs. An input is passed over unless the
      transaction it spends from is in the current block, up to this transaction, or has a committed credit. */
  method FilterTx(env: Env, t: Tx, inCurBlk: set<Hash>, committed: set<Hash>)
    returns (relevant: bool, rec: TxRecord, recInCurBlk: set<Hash>)
    ensures recInCurBlk == inCurBlk + {t.hash}
    ensures var t' := Sight(env, committed + recInCurBlk, t);
      relevant == Relevant(env, t') && rec == RecordOf(env, t')
    ensures InputsListed(env, t, committed + inCurBlk + {t.hash}, rec.relIn) && OutputsListed(env, t, rec.relOut)
    ensures relevant <==> rec.relIn != [] || rec.relOut != []
    ensures rec.tx.hash == t.hash && rec.tx.coinbase == t.coinbase && rec.tx.outs == t.outs
    ensures |rec.tx.ins| == |t.ins| && forall i :: 0 <= i < |t.ins| ==> rec.tx.ins[i].prev == t.ins[i].prev
  {
    recInCurBlk := inCurBlk + {t.hash};
    ghost var t' := Sight(env, committed + recInCurBlk, t);
    SightKeeps(env, committed + recInCurBlk, t);
    hide Sight, Bare, InputsListed, OutputsListed, Relevant;
    var relIn: seq<Rel> := [];
    if !t.coinbase {
      for i := 0 to |t.ins|
        invariant relIn == RelIns(env, t', i)
        invariant relIn != [] <==> exists j: nat | j < i :: RelIn(env, t', j)
      {
        var txIn := t.ins[i];
        if txIn.prev.hash !in recInCurBlk {
          var exist := txIn.prev.hash in committed;
          if !exist {
            continue;
          }
        }
        if txIn.prevScript.Some? && Owned(env, txIn.prevScript.value) {
          relIn := relIn + [Rel(i, env.owner[txIn.prevScript.value])];
        }
      }
    } else {
      NoRelIns(env, t', |t.ins|);
    }
    var relOut: seq<Rel> := [];
    for i := 0 to |t.outs|
      invariant relOut == RelOuts(env, t', i)
      invariant relOut != [] <==> exists j: nat | j < i :: RelOut(env, t', j)
    {
      if Owned(env, t.outs[i].script) {
        relOut := relOut + [Rel(i, env.owner[t.outs[i].script])];
      }
    }
    relevant := relIn != [] || relOut != [];
    RelevantIs(env, t');
    rec := TxRecord(Bare(t), relIn, relOut);
    BareKeeps(t);
    RelsListed(env, t, committed + recInCurBlk);
    assert committed + inCurBlk + {t.hash} == committed + recInCurBlk;
  }

  lemma RelevantIs(env: Env, t: Tx)
    ensures Relevant(env, t) <==>
      (exists j: nat | j < |t.ins| :: RelIn(env, t, j)) || (exists j: nat | j < |t.outs| :: RelOut(env, t, j))
  {
  }

  lemma BareKeeps(t: Tx)
    ensures var b := Bare(t);
      b.hash == t.hash && b.coinbase == t.coinbase && b.outs == t.outs && |b.ins| == |t.ins| &&
      forall i :: 0 <= i < |t.ins| ==> b.ins[i].prev == t.ins[i].prev
  {
  }

  lemma {:induction false} NoRelIns(env: Env, t: Tx, n: nat)
    requires t.coinbase && n <= |t.ins|
    ensures RelIns(env, t, n) == []
  {
    if n > 0 { NoRelIns(env, t, n - 1); }
  }

  /** Spending and crediting look at nothing that the bare transaction does not have. */
  lemma RelBare(env: Env, l: Ledger, t: Tx, blk: BlockId, rel: Rel)
    ensures rel.index < |t.ins| ==> SpendRel(l, Bare(t), blk, rel) == SpendRel(l, t, blk, rel)
    ensures rel.index < |t.outs| ==> AddRel(env, l, Bare(t), blk, rel) == AddRel(env, l, t, blk, rel)
  {
  }

  lemma {:induction false} SpendRelsBare(env: Env, l: Ledger, t: Tx, blk: BlockId, rs: seq<Rel>, k: nat)
    requires k <= |rs| && forall r <- rs :: r.index < |t.ins|
    ensures SpendRels(l, Bare(t), blk, rs, k) == SpendRels(l, t, blk, rs, k)
  {
    hide SpendRel;
    if k > 0 {
      SpendRelsBare(env, l, t, blk, rs, k - 1);
      var m := SpendRels(l, t, blk, rs, k - 1);
      RelBare(env, if m.Some? then m.value else l, t, blk, rs[k - 1]);
    }
  }

  lemma {:induction false} AddRelsBare(env: Env, l: Ledger, t: Tx, blk: BlockId, rs: seq<Rel>, k: nat)
    requires k <= |rs| && forall r <- rs :: r.index < |t.outs|
    ensures AddRels(env, l, Bare(t), blk, rs, k) == AddRels(env, l, t, blk, rs, k)
  {
    hide AddRel;
    if k > 0 {
      AddRelsBare(env, l, t, blk, rs, k - 1);
      var m := AddRels(env, l, t, blk, rs, k - 1);
      RelBare(env, if m.Some? then m.value else l, t, blk, rs[k - 1]);
    }
  }

  class Store {
    var credits: map<CreditKey, Credit>
    var debits: map<DebitKey, Debit>
    var unspent: map<UnspentKey, BlockId>
    var minedBalance: map<WalletId, nat>
    var blocks: map<nat, BlockRecord>
    var txRecords: map<TxKey, Tx>

    ghost function Coins(): Buckets
      reads this
    {
      Buckets(credits, debits, unspent)
    }

    /** The ledger stored in the buckets. */
    ghost function Stored(): Ledger
      reads this
    {
      Ledger(Coins(), minedBalance, blocks, txRecords)
    }

    /** The ledger with a working balance map in place of the stored balances. */
    ghost function Working(bal: map<WalletId, nat>): Ledger
      reads this
    {
      Ledger(Coins(), bal, blocks, txRecords)
    }

    constructor (l: Ledger)
      ensures Stored() == l
    {
      credits, debits, unspent := l.b.credits, l.b.debits, l.b.unspent;
      minedBalance, blocks, txRecords := l.balances, l.blocks, l.txs;
    }

    /** What an aborted database transaction does: put every bucket back. */
    method Restore(l: Ledger)
      modifies this
      ensures Stored() == l
    {
      credits, debits, unspent := l.b.credits, l.b.debits, l.b.unspent;
      minedBalance, blocks, txRecords := l.balances, l.blocks, l.txs;
    }

    method Snapshot() returns (l: Ledger)
      ensures l == Stored()
    {
      l := Ledger(Buckets(credits, debits, unspent), minedBalance, blocks, txRecords);
    }

    /** ExistCreditFromTx, for every hash: the transactions that have a credit. */
    method CreditedTxs() returns (hashes: set<Hash>)
      ensures hashes == CreditHashes(credits)
      ensures forall h :: h in hashes <==> exists ck <- credits :: ck.op.hash == h
    {
      hashes := CreditHashes(credits);
    }

    // ---------- connect ----------

    /** Mark the credit that a relevant input spends, and record its debit. */
    method SpendCredit(allBalances: map<WalletId, nat>, tx: Tx, blk: BlockId, rel: Rel)
      returns (ok: bool, bal: map<WalletId, nat>)
      requires rel.index < |tx.ins|
      modifies `credits, `debits, `unspent
      ensures ok == SpendRel(old(Working(allBalances)), tx, blk, rel).Some?
      ensures ok ==> SpendRel(old(Working(allBalances)), tx, blk, rel) == Some(Working(bal))
    {
      bal := allBalances;
      var prevOut := tx.ins[rel.index].prev;
      var unspentKey := UnspentKey(rel.wallet, prevOut);
      if unspentKey !in unspent {
        return false, bal;
      }
      var credKey := CreditKey(prevOut, unspent[unspentKey]);
      if credKey !in credits || credits[credKey].spentBy.Some? {
        return false, bal;
      }
      var cred := credits[credKey];
      if Balance(bal, rel.wallet) < cred.amount {
        return false, bal;
      }
      var spender := DebitKey(tx.hash, blk, rel.index);
      credits := credits[credKey := cred.(spentBy := Some(spender))];
      debits := debits[spender := Debit(cred.amount, credKey)];
      unspent := unspent - {unspentKey};
      bal := bal[rel.wallet := Balance(bal, rel.wallet) - cred.amount];
      ok := true;
    }

    method UpdateMinedBalance(allBalances: map<WalletId, nat>, rec: TxRecord, blk: BlockId)
      returns (ok: bool, bal: map<WalletId, nat>)
      requires forall r <- rec.relIn :: r.index < |rec.tx.ins|
      modifies `credits, `debits, `unspent
      ensures ok == SpendRels(old(Working(allBalances)), rec.tx, blk, rec.relIn, |rec.relIn|).Some?
      ensures ok ==> SpendRels(old(Working(allBalances)), rec.tx, blk, rec.relIn, |rec.relIn|) == Some(Working(bal))
    {
      hide SpendRel;
      bal := allBalances;
      ghost var l0 := Working(allBalances);
      for k := 0 to |rec.relIn|
        invariant SpendRels(l0, rec.tx, blk, rec.relIn, k) == Some(Working(bal))
      {
        ok, bal := SpendCredit(bal, rec.tx, blk, rec.relIn[k]);
        if !ok {
          SpendRelsFail(l0, rec.tx, blk, rec.relIn, k + 1, |rec.relIn|);
          return;
        }
      }
      ok := true;
    }

    method InsertMined(env: Env, allBalances: map<WalletId, nat>, rec: TxRecord, ghost t: Tx, blk: BlockId)
      returns (ok: bool, bal: map<WalletId, nat>)
      requires rec == RecordOf(env, t)
      modifies `credits, `debits, `unspent, `blocks, `txRecords
      ensures ok == InsertMinedTx(env, old(Working(allBalances)), t, blk).Some?
      ensures ok ==> InsertMinedTx(env, old(Working(allBalances)), t, blk) == Some(Working(bal))
    {
      if TxKey(rec.tx.hash, blk) in txRecords {
        return true, allBalances;
      }
      ghost var l0 := Working(allBalances);
      if blk.height !in blocks {
        blocks := blocks[blk.height := BlockRecord(blk.hash, [rec.tx.hash])];
      } else {
        var value := blocks[blk.height];
        blocks := blocks[blk.height := value.(txs := value.txs + [rec.tx.hash])];
      }
      txRecords := txRecords[TxKey(rec.tx.hash, blk) := rec.tx];
      ghost var l := Working(allBalances);
      assert l == Record(l0, t, blk);
      SpendRelsAll(env, l, t, blk, |t.ins|);
      SpendRelsBare(env, l, t, blk, rec.relIn, |rec.relIn|);
      ok, bal := UpdateMinedBalance(allBalances, rec, blk);
    }

    method AddCredits(env: Env, allBalances: map<WalletId, nat>, rec: TxRecord, blk: BlockId)
      returns (ok: bool, bal: map<WalletId, nat>)
      requires forall r <- rec.relOut :: r.index < |rec.tx.outs|
      modifies `credits, `unspent
      ensures ok == AddRels(env, old(Working(allBalances)), rec.tx, blk, rec.relOut, |rec.relOut|).Some?
      ensures ok ==>
        AddRels(env, old(Working(allBalances)), rec.tx, blk, rec.relOut, |rec.relOut|) == Some(Working(bal))
    {
      bal := allBalances;
      ghost var l0 := Working(allBalances);
      for k := 0 to |rec.relOut|
        invariant AddRels(env, l0, rec.tx, blk, rec.relOut, k) == Some(Working(bal))
      {
        var rel := rec.relOut[k];
        var credKey := CreditKey(OutPoint(rec.tx.hash, rel.index), blk);
        var output := rec.tx.outs[rel.index];
        ghost var before := Working(bal);
        if credKey in credits || Balance(bal, rel.wallet) + output.value > env.maxAmount {
          AddRelsFail(env, l0, rec.tx, blk, rec.relOut, k + 1, |rec.relOut|);
          return false, bal;
        }
        credits := credits[credKey := Credit(output.value, output.script, None)];
        unspent := unspent[UnspentKey(rel.wallet, credKey.op) := blk];
        bal := bal[rel.wallet := Balance(bal, rel.wallet) + output.value];
        assert AddRel(env, before, rec.tx, blk, rel) == Some(Working(bal));
      }
      ok := true;
    }

    method AddRelevantTx(env: Env, allBalances: map<WalletId, nat>, rec: TxRecord, ghost t: Tx, blk: BlockId)
      returns (ok: bool, bal: map<WalletId, nat>)
      requires rec == RecordOf(env, t)
      modifies `credits, `debits, `unspent, `blocks, `txRecords
      ensures ok == ConnectTx(env, old(Working(allBalances)), t, blk).Some?
      ensures ok ==> ConnectTx(env, old(Working(allBalances)), t, blk) == Some(Working(bal))
    {
      ok, bal := InsertMined(env, allBalances, rec, t, blk);
      if ok {
        AddRelsAll(env, Working(bal), t, blk, |t.outs|);
        AddRelsBare(env, Working(bal), t, blk, rec.relOut, |rec.relOut|);
        ok, bal := AddCredits(env, bal, rec, blk);
      }
    }

    /** onRelevantBlockConnected: all relevant transactions of one block, on the balances of the ready
        wallets, which are stored at the end. */
    method ConnectRelevant(env: Env, recs: seq<TxRecord>, ghost rs: seq<Tx>, blk: BlockId) returns (ok: bool)
      requires |recs| == |rs| && forall i | 0 <= i < |rs| :: recs[i] == RecordOf(env, rs[i])
      requires env.ready <= minedBalance.Keys
      modifies this
      ensures ok == ConnectTxs(env, old(Stored()), rs, blk, |rs|).Some?
      ensures ok ==> ConnectTxs(env, old(Stored()), rs, blk, |rs|) == Some(Stored())
    {
      hide ConnectTx;
      ghost var l0 := Stored();
      if recs == [] {
        return true;
      }
      var walletBalances := map w | w in minedBalance && w in env.ready :: minedBalance[w];
      ghost var w0 := Working(walletBalances);
      ConnectTxsOver(env, minedBalance, w0, rs, blk, |rs|);
      assert minedBalance + walletBalances == minedBalance;
      for i := 0 to |recs|
        invariant minedBalance == l0.balances
        invariant ConnectTxs(env, w0, rs, blk, i) == Some(Working(walletBalances))
      {
        ok, walletBalances := AddRelevantTx(env, walletBalances, recs[i], rs[i], blk);
        if !ok {
          ConnectTxsFail(env, w0, rs, blk, i + 1, |rs|);
          return;
        }
      }
      minedBalance := minedBalance + walletBalances;
      ok := true;
    }

    // ---------- rollback ----------

    method RollbackInputs(env: Env, allMined: map<WalletId, nat>, t: Tx, blk: BlockId)
      returns (ok: bool, bal: map<WalletId, nat>)
      modifies `credits, `debits, `unspent
      ensures ok == UndoIns(env, old(Working(allMined)), t, blk, |t.ins|).Some?
      ensures ok ==> UndoIns(env, old(Working(allMined)), t, blk, |t.ins|) == Some(Working(bal))
      ensures allMined.Keys <= bal.Keys
    {
      bal := allMined;
      ghost var l0 := Working(allMined);
      for i := 0 to |t.ins|
        invariant UndoIns(env, l0, t, blk, i) == Some(Working(bal))
        invariant allMined.Keys <= bal.Keys
      {
        var debKey := DebitKey(t.hash, blk, i);
        ghost var before := Working(bal);
        if debKey in debits {
          var credKey := debits[debKey].credit;
          debits := debits - {debKey};
          if credKey !in credits {
            UndoInsFail(env, l0, t, blk, i + 1, |t.ins|);
            return false, bal;
          }
          var cred := credits[credKey].(spentBy := None);
          credits := credits[credKey := cred];
          if cred.script in env.owner {
            var account := env.owner[cred.script];
            unspent := unspent[UnspentKey(account, t.ins[i].prev) := credKey.block];
            if Balance(bal, account) + cred.amount > env.maxAmount {
              UndoInsFail(env, l0, t, blk, i + 1, |t.ins|);
              return false, bal;
            }
            bal := bal[account := Balance(bal, account) + cred.amount];
          }
        }
        assert UndoIn(env, before, t, blk, i) == Some(Working(bal));
      }
      ok := true;
    }

    method RollbackOutputs(env: Env, allMined: map<WalletId, nat>, t: Tx, blk: BlockId)
      returns (ok: bool, bal: map<WalletId, nat>)
      modifies `credits, `unspent
      ensures ok == UndoOuts(env, old(Working(allMined)), t, blk, |t.outs|).Some?
      ensures ok ==> UndoOuts(env, old(Working(allMined)), t, blk, |t.outs|) == Some(Working(bal))
      ensures allMined.Keys <= bal.Keys
    {
      bal := allMined;
      ghost var l0 := Working(allMined);
      for i := 0 to |t.outs|
        invariant UndoOuts(env, l0, t, blk, i) == Some(Working(bal))
        invariant allMined.Keys <= bal.Keys
      {
        var credKey := CreditKey(OutPoint(t.hash, i), blk);
        ghost var before := Working(bal);
        if credKey in credits {
          credits := credits - {credKey};
          var output := t.outs[i];
          if output.script in env.owner {
            var account := env.owner[output.script];
            var unspentKey := UnspentKey(account, credKey.op);
            if unspentKey in unspent {
              unspent := unspent - {unspentKey};
              if Balance(bal, account) < output.value {
                UndoOutsFail(env, l0, t, blk, i + 1, |t.outs|);
                return false, bal;
              }
              bal := bal[account := Balance(bal, account) - output.value];
            }
          }
        }
        assert UndoOut(env, before, t, blk, i) == Some(Working(bal));
      }
      ok := true;
    }

    method RollbackTx(env: Env, allMined: map<WalletId, nat>, txHash: Hash, blk: BlockId)
      returns (ok: bool, bal: map<WalletId, nat>)
      modifies `credits, `debits, `unspent, `txRecords
      ensures ok == UndoTx(env, old(Working(allMined)), txHash, blk).Some?
      ensures ok ==> UndoTx(env, old(Working(allMined)), txHash, blk) == Some(Working(bal))
      ensures TxKey(txHash, blk) !in old(txRecords) ==> ok && bal == allMined && Stored() == old(Stored())
      ensures allMined.Keys <= bal.Keys
    {
      var recKey := TxKey(txHash, blk);
      if recKey !in txRecords {
        return true, allMined;
      }
      var rec := txRecords[recKey].(hash := txHash);
      txRecords := txRecords - {recKey};
      ok, bal := true, allMined;
      if !rec.coinbase {
        ok, bal := RollbackInputs(env, allMined, rec, blk);
      }
      if ok {
        ok, bal := RollbackOutputs(env, bal, rec, blk);
      }
    }

    method RollbackTxs(env: Env, allMined: map<WalletId, nat>, transactions: seq<Hash>, blk: BlockId)
      returns (ok: bool, bal: map<WalletId, nat>)
      modifies `credits, `debits, `unspent, `txRecords
      ensures ok == UndoTxs(env, old(Working(allMined)), transactions, blk, 0).Some?
      ensures ok ==> UndoTxs(env, old(Working(allMined)), transactions, blk, 0) == Some(Working(bal))
      ensures allMined.Keys <= bal.Keys
    {
      bal := allMined;
      ghost var l0 := Working(allMined);
      for i := |transactions| downto 0
        invariant UndoTxs(env, l0, transactions, blk, i) == Some(Working(bal))
        invariant allMined.Keys <= bal.Keys
      {
        ok, bal := RollbackTx(env, bal, transactions[i], blk);
        if !ok {
          UndoTxsFail(env, l0, transactions, blk, i, 0);
          return;
        }
      }
      ok := true;
    }

    /** Every recorded block from the synced height down to `height`. Block records are deleted only
        after all transactions are undone, and balances are written last. */
    method Rollback(env: Env, syncedTo: nat, height: nat) returns (ok: bool)
      requires 0 < height
      modifies this
      ensures ok == RollbackTo(env, old(Stored()), syncedTo, height).Some?
      ensures ok ==> RollbackTo(env, old(Stored()), syncedTo, height) == Some(Stored())
      ensures ok ==> forall k :: k in blocks <==> k in old(blocks) && !(height <= k <= syncedTo)
      ensures (forall k <- old(blocks) :: k < height || k > syncedTo) ==> ok && Stored() == old(Stored())
    {
      ghost var l0 := Stored();
      var allMined := minedBalance;
      var heightsToRemove: set<nat> := {};
      var curHeight := syncedTo;
      assert blocks - heightsToRemove == blocks;
      assert RollbackTo(env, l0, syncedTo, syncedTo + 1) == Some(l0);
      while height <= curHeight
        invariant height <= syncedTo ==> height - 1 <= curHeight <= syncedTo
        invariant syncedTo < height ==> curHeight == syncedTo
        invariant blocks == l0.blocks && minedBalance == l0.balances
        invariant l0.balances.Keys <= allMined.Keys
        invariant forall x :: x in heightsToRemove <==> x in blocks && curHeight < x <= syncedTo
        invariant heightsToRemove == {} ==> Working(allMined) == l0
        invariant RollbackTo(env, l0, syncedTo, curHeight + 1) ==
                  Some(Working(allMined).(blocks := blocks - heightsToRemove))
        decreases curHeight
      {
        ghost var spec := Working(allMined).(blocks := blocks - heightsToRemove);
        assert RollbackTo(env, l0, syncedTo, curHeight) == UndoHeight(env, spec, curHeight);
        if curHeight in blocks {
          var rbBlock := blocks[curHeight];
          assert spec.blocks[curHeight] == rbBlock;
          UndoTxsBlocks(env, Working(allMined), rbBlock.txs, BlockId(curHeight, rbBlock.hash), 0, spec.blocks);
          heightsToRemove := heightsToRemove + {curHeight};
          ok, allMined := RollbackTxs(env, allMined, rbBlock.txs, BlockId(curHeight, rbBlock.hash));
          if !ok {
            RollbackFail(env, l0, syncedTo, curHeight, height);
            return;
          }
          assert blocks - heightsToRemove == spec.blocks - {curHeight};
        }
        curHeight := curHeight - 1;
      }
      blocks := blocks - heightsToRemove;
      minedBalance := minedBalance + allMined;
      assert minedBalance == allMined;
      if syncedTo < height {
        assert RollbackTo(env, l0, syncedTo, height) == Some(l0);
      }
      ok := true;
    }
  }
}
