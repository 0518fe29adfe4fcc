/** What a connected block leaves in the block and transaction records. */
module LedgerRecords {
  import opened Wrappers
  import opened Ledger
  import opened LedgerInvariant
  import opened LedgerInverse
  import opened LedgerChain

  /** t pays a ready wallet, or spends from a script of one. */
  ghost predicate Concerns(env: Env, t: Tx) {
    (exists i: nat | i < |t.outs| :: t.outs[i].script in env.owner && env.owner[t.outs[i].script] in env.ready) ||
    (!t.coinbase && exists i: nat | i < |t.ins| :: ScriptReady(env, t.ins[i].prevScript))
  }

  ghost predicate ScriptReady(env: Env, s: Option<Script>) {
    s.Some? && s.value in env.owner && env.owner[s.value] in env.ready
  }

  lemma ConcernsIs(env: Env, t: Tx)
    ensures Relevant(env, t) <==> Concerns(env, t)
  {
    if i: nat :| i < |t.outs| && t.outs[i].script in env.owner && env.owner[t.outs[i].script] in env.ready {
      assert RelOut(env, t, i);
    }
    if i: nat :| i < |t.ins| && !t.coinbase && ScriptReady(env, t.ins[i].prevScript) {
      assert RelIn(env, t, i);
    }
  }

  /** The positions of the transactions that concern ready wallets, in block order. */
  ghost predicate Positions(env: Env, txs: seq<Tx>, at: seq<nat>, n: nat) {
    (forall j: nat :: j in at <==> j < n && j < |txs| && Concerns(env, txs[j])) &&
    forall a, b :: 0 <= a < b < |at| ==> at[a] < at[b]
  }

  lemma {:induction false} RelevantAt(env: Env, txs: seq<Tx>, n: nat) returns (at: seq<nat>)
    requires n <= |txs|
    ensures Positions(env, txs, at, n)
    ensures |RelevantTxs(env, txs, n)| == |at|
    ensures forall k :: 0 <= k < |at| ==> at[k] < |txs| && RelevantTxs(env, txs, n)[k] == txs[at[k]]
  {
    hide Relevant, Concerns;
    at := [];
    if n > 0 {
      at := RelevantAt(env, txs, n - 1);
      ConcernsIs(env, txs[n - 1]);
      if Concerns(env, txs[n - 1]) {
        OneMore(env, txs, at, n - 1);
        at := at + [n - 1];
      }
    }
  }

  lemma OneMore(env: Env, txs: seq<Tx>, at: seq<nat>, n: nat)
    requires n < |txs| && Positions(env, txs, at, n) && Concerns(env, txs[n])
    ensures Positions(env, txs, at + [n], n + 1)
  {
    hide Concerns;
    forall a, b | 0 <= a < b < |at + [n]| ensures (at + [n])[a] < (at + [n])[b] {
      assert at[a] in at;
    }
  }

  /** A stored transaction record is the transaction without the scripts its inputs spend. */
  predicate RecordedAs(r: Tx, t: Tx) {
    r.hash == t.hash && r.coinbase == t.coinbase && r.outs == t.outs && |r.ins| == |t.ins| &&
    forall i :: 0 <= i < |t.ins| ==> r.ins[i] == TxIn(t.ins[i].prev, None)
  }

  /** r has the records of old and those of the first n of rs. */
  ghost predicate Records(before: map<TxKey, Tx>, r: map<TxKey, Tx>, rs: seq<Tx>, blk: BlockId, n: nat) {
    (forall tk ::
       tk in r <==> (tk in before || (tk.block == blk && exists k: nat :: k < n && HasHash(rs, k, tk.hash)))) &&
    (forall tk <- before :: tk in r && r[tk] == before[tk]) &&
    forall k: nat, x | k < n && HasHash(rs, k, x) :: TxKey(x, blk) in r && RecordedAs(r[TxKey(x, blk)], rs[k])
  }

  predicate HasHash(rs: seq<Tx>, k: nat, x: Hash) { k < |rs| && rs[k].hash == x }

  lemma RecordsNext(before: map<TxKey, Tx>, r: map<TxKey, Tx>, rs: seq<Tx>, blk: BlockId, n: nat)
    requires Records(before, r, rs, blk, n) && n < |rs| && DistinctHashes(rs) && TxKey(rs[n].hash, blk) !in r
    ensures Records(before, r[TxKey(rs[n].hash, blk) := Bare(rs[n])], rs, blk, n + 1)
  {
    hide RecordedAs, Bare;
    BareRecords(rs[n]);
    var key := TxKey(rs[n].hash, blk);
    var r' := r[key := Bare(rs[n])];
    assert HasHash(rs, n, rs[n].hash);
    forall tk ensures tk in r' <==>
      (tk in before || (tk.block == blk && exists k: nat :: k < n + 1 && HasHash(rs, k, tk.hash))) {
      if tk in r' && tk != key && tk !in before {
        var k: nat :| k < n && HasHash(rs, k, tk.hash);
      }
    }
  }

  lemma {:induction false} TxsRecorded(env: Env, l: Ledger, rs: seq<Tx>, blk: BlockId, s: set<Hash>, h: nat, n: nat)
    requires Good(env, l, s, h) && blk.height == h + 1 && DistinctHashes(rs) && HashSet(rs) !! s
    requires n <= |rs| && ConnectTxs(env, l, rs, blk, n).Some?
    ensures Records(l.txs, ConnectTxs(env, l, rs, blk, n).value.txs, rs, blk, n)
  {
    hide ConnectTx, Inv, Bare, Records, Fresh;
    if n == 0 {
      NoRecords(l.txs, rs, blk);
    } else {
      TxsRecorded(env, l, rs, blk, s, h, n - 1);
      ConnectTxsForm(env, l, rs, blk, s, h, n - 1);
      var p, t := ConnectTxs(env, l, rs, blk, n - 1).value, rs[n - 1];
      assert t.hash in HashSet(rs) && t.hash !in HashSet(rs[..n - 1]);
      var _ := ConnectTxForm(env, p, t, blk);
      RecordsNext(l.txs, p.txs, rs, blk, n - 1);
    }
  }

  lemma NoRecords(txs: map<TxKey, Tx>, rs: seq<Tx>, blk: BlockId)
    ensures Records(txs, txs, rs, blk, 0)
  {
  }

  lemma BareRecords(t: Tx)
    ensures RecordedAs(Bare(t), t)
  {
  }

  /** Connecting a block records exactly its transactions that concern ready wallets, here named in block order: each
      in a record of its own, and their hashes in one record of the block; without any, the block has no record. */
  lemma BlockRecorded(env: Env, l: Ledger, b: Block, s: set<Hash>, h: nat) returns (at: seq<nat>, rs: seq<Tx>)
    requires Good(env, l, s, h) && Follows(b, s, h) && ConnectBlock(env, l, b.txs, b.Id()).Some?
    ensures Positions(env, b.txs, at, |b.txs|)
    ensures |rs| == |at| && forall k :: 0 <= k < |at| ==> at[k] < |b.txs| && rs[k] == b.txs[at[k]]
    ensures var m, blk := ConnectBlock(env, l, b.txs, b.Id()).value, BlockId(b.height, b.hash);
      (at == [] ==> m.blocks == l.blocks) &&
      (at != [] ==>
         b.height in m.blocks && m.blocks == l.blocks[b.height := m.blocks[b.height]] &&
         m.blocks[b.height].hash == b.hash && |m.blocks[b.height].txs| == |rs| &&
         forall k :: 0 <= k < |rs| ==> m.blocks[b.height].txs[k] == rs[k].hash) &&
      Records(l.txs, m.txs, rs, blk, |rs|)
  {
    hide Good, Concerns, ConnectTxs, Records, HashSet, Positions;
    at := RelevantAt(env, b.txs, |b.txs|);
    rs := RelevantTxs(env, b.txs, |b.txs|);
    RelevantTxsDistinct(env, b.txs, |b.txs|);
    RelevantHashes(env, b.txs, rs);
    ConnectTxsForm(env, l, rs, b.Id(), s, h, |rs|);
    TxsRecorded(env, l, rs, b.Id(), s, h, |rs|);
    assert rs[..|rs|] == rs;
  }

  lemma RelevantHashes(env: Env, txs: seq<Tx>, rs: seq<Tx>)
    requires forall t <- rs :: t in txs[..|txs|]
    ensures HashSet(rs) <= HashSet(txs)
  {
  }

  // ---------- transactions of wallets that are gone ----------

  /** Whatever inputs of t have a debit spend a credit that is there, and no known wallet owns its script. */
  ghost predicate Ownerless(env: Env, b: Buckets, t: Tx, blk: BlockId) {
    forall i: nat | i < |t.ins| && DebitKey(t.hash, blk, i) in b.debits ::
      var ck := b.debits[DebitKey(t.hash, blk, i)].credit;
      ck in b.credits && b.credits[ck].script !in env.owner
  }

  /** The debits of the first n inputs are gone and what they spent is unspent. */
  ghost predicate Freed(b: Buckets, c: Buckets, t: Tx, blk: BlockId, n: nat) {
    c.unspent == b.unspent && c.credits.Keys == b.credits.Keys &&
    (forall dk :: dk in c.debits <==> dk in b.debits && !(dk.hash == t.hash && dk.block == blk && dk.index < n)) &&
    (forall dk <- c.debits :: dk in b.debits && c.debits[dk] == b.debits[dk]) &&
    forall ck <- b.credits :: ck in c.credits && c.credits[ck] ==
      if SpentIn(b, t, blk, n, ck) then b.credits[ck].(spentBy := None) else b.credits[ck]
  }

  ghost predicate SpentIn(b: Buckets, t: Tx, blk: BlockId, n: nat, ck: CreditKey) {
    exists dk <- b.debits :: dk.hash == t.hash && dk.block == blk && dk.index < n && b.debits[dk].credit == ck
  }

  lemma SpentInNext(b: Buckets, t: Tx, blk: BlockId, n: nat, ck: CreditKey)
    ensures var dk := DebitKey(t.hash, blk, n);
      SpentIn(b, t, blk, n + 1, ck) <==> SpentIn(b, t, blk, n, ck) || (dk in b.debits && b.debits[dk].credit == ck)
  {
    var dk := DebitKey(t.hash, blk, n);
    if d :| d in b.debits && d.hash == t.hash && d.block == blk && d.index < n + 1 && b.debits[d].credit == ck {
      assert d == dk || d.index < n;
    }
  }

  lemma FreedNext(env: Env, l: Ledger, m: Ledger, t: Tx, blk: BlockId, n: nat)
    requires n < |t.ins| && Ownerless(env, l.b, t, blk) && Freed(l.b, m.b, t, blk, n)
    ensures UndoIn(env, m, t, blk, n).Some?
    ensures var r := UndoIn(env, m, t, blk, n).value;
      r == m.(b := r.b) && Freed(l.b, r.b, t, blk, n + 1)
  {
    hide SpentIn;
    var dk := DebitKey(t.hash, blk, n);
    assert dk in m.b.debits <==> dk in l.b.debits;
    forall ck ensures SpentIn(l.b, t, blk, n + 1, ck) <==>
      SpentIn(l.b, t, blk, n, ck) || (dk in l.b.debits && l.b.debits[dk].credit == ck)
    {
      SpentInNext(l.b, t, blk, n, ck);
    }
    if dk in l.b.debits {
      assert l.b.debits[dk].credit in m.b.credits;
    }
  }

  lemma {:induction false} InsFreed(env: Env, l: Ledger, t: Tx, blk: BlockId, n: nat)
    requires n <= |t.ins| && Ownerless(env, l.b, t, blk)
    ensures UndoIns(env, l, t, blk, n).Some?
    ensures var r := UndoIns(env, l, t, blk, n).value; r == l.(b := r.b) && Freed(l.b, r.b, t, blk, n)
  {
    hide UndoIn, Freed, Ownerless;
    if n == 0 {
      NoneFreed(l.b, t, blk);
    } else {
      InsFreed(env, l, t, blk, n - 1);
      FreedNext(env, l, UndoIns(env, l, t, blk, n - 1).value, t, blk, n - 1);
    }
  }

  lemma NoneFreed(b: Buckets, t: Tx, blk: BlockId)
    ensures Freed(b, b, t, blk, 0)
  {
  }

  /** The credit keys of the first n outputs. */
  ghost function OutKeys(t: Tx, blk: BlockId, n: nat): set<CreditKey> {
    set i | 0 <= i < n :: CreditKey(OutPoint(t.hash, i), blk)
  }

  /** No output of t has an unspent entry: it was spent, or no known wallet owns its script. */
  ghost predicate Entryless(env: Env, b: Buckets, t: Tx) {
    forall i: nat | i < |t.outs| && t.outs[i].script in env.owner ::
      UnspentKey(env.owner[t.outs[i].script], OutPoint(t.hash, i)) !in b.unspent
  }

  lemma DropNext(env: Env, l: Ledger, t: Tx, blk: BlockId, n: nat)
    requires n < |t.outs| && Entryless(env, l.b, t)
    ensures UndoOut(env, l, t, blk, n) == Some(l.(b := l.b.(credits := l.b.credits - {OutKey(t, blk, n)})))
  {
    if OutKey(t, blk, n) !in l.b.credits {
      assert l.b.credits - {OutKey(t, blk, n)} == l.b.credits;
    }
  }

  lemma {:induction false} OutsDropped(env: Env, l: Ledger, t: Tx, blk: BlockId, n: nat)
    requires n <= |t.outs| && Entryless(env, l.b, t)
    ensures UndoOuts(env, l, t, blk, n) == Some(l.(b := l.b.(credits := l.b.credits - OutKeys(t, blk, n))))
  {
    hide UndoOut;
    if n == 0 {
      assert l.b.credits - OutKeys(t, blk, 0) == l.b.credits;
    } else {
      OutsDropped(env, l, t, blk, n - 1);
      DropNext(env, l.(b := l.b.(credits := l.b.credits - OutKeys(t, blk, n - 1))), t, blk, n - 1);
      assert OutKeys(t, blk, n) == OutKeys(t, blk, n - 1) + {OutKey(t, blk, n - 1)};
      assert l.b.credits - OutKeys(t, blk, n) == l.b.credits - OutKeys(t, blk, n - 1) - {OutKey(t, blk, n - 1)};
    }
  }

  lemma FreedEntries(env: Env, b: Buckets, c: Buckets, t: Tx, blk: BlockId, n: nat)
    requires Freed(b, c, t, blk, n)
    ensures Entryless(env, b, t) <==> Entryless(env, c, t)
  {
  }

  /** Undoing a transaction whose wallets are gone changes no balance and no unspent entry: its record, its debits and
      the credits of its outputs go, and what it spent is unspent. */
  lemma UndoForgotten(env: Env, l: Ledger, h: Hash, blk: BlockId) returns (c: Buckets)
    requires TxKey(h, blk) in l.txs
    requires var t := l.txs[TxKey(h, blk)].(hash := h);
      !t.coinbase && Ownerless(env, l.b, t, blk) && Entryless(env, l.b, t)
    ensures var t := l.txs[TxKey(h, blk)].(hash := h);
      Freed(l.b, c, t, blk, |t.ins|) &&
      UndoTx(env, l, h, blk) == Some(Ledger(
        c.(credits := c.credits - OutKeys(t, blk, |t.outs|)), l.balances, l.blocks, l.txs - {TxKey(h, blk)}))
  {
    hide Ownerless, Freed, UndoIn, UndoOut, Entryless;
    var t := l.txs[TxKey(h, blk)].(hash := h);
    var l0 := l.(txs := l.txs - {TxKey(h, blk)});
    InsFreed(env, l0, t, blk, |t.ins|);
    FreedEntries(env, l.b, UndoIns(env, l0, t, blk, |t.ins|).value.b, t, blk, |t.ins|);
    var m := UndoIns(env, l0, t, blk, |t.ins|).value;
    OutsDropped(env, m, t, blk, |t.outs|);
    c := m.b;
  }
}
