/** Whole blocks: rollback undoes any list of connected blocks. */
module LedgerChain {
  import opened Wrappers
  import opened Ledger
  import opened LedgerInvariant
  import opened LedgerInverse

  datatype Block = Block(hash: Hash, prev: Hash, height: nat, txs: seq<Tx>)
  {
    function Id(): BlockId { BlockId(height, hash) }
  }

  ghost predicate DistinctHashes(txs: seq<Tx>) {
    forall i, j :: 0 <= i < j < |txs| ==> txs[i].hash != txs[j].hash
  }

  /** The ledger is well formed, and mentions only hashes of s and heights up to h. */
  ghost predicate Good(env: Env, l: Ledger, s: set<Hash>, h: nat) {
    Inv(env, l) && Funded(env, l) &&
    (forall x :: x !in s ==> Fresh(l.b, x)) &&
    (forall tk <- l.txs :: tk.hash in s) &&
    (forall k <- l.blocks :: k <= h) &&
    (forall uk <- l.b.unspent :: l.b.unspent[uk].height <= h)
  }

  ghost function HashSet(txs: seq<Tx>): set<Hash> {
    set t <- txs :: t.hash
  }

  /** Block b can follow: next height, and transactions with new distinct hashes. */
  ghost predicate Follows(b: Block, s: set<Hash>, h: nat) {
    b.height == h + 1 && DistinctHashes(b.txs) && HashSet(b.txs) !! s
  }

  function Hashes(rs: seq<Tx>): seq<Hash> {
    seq(|rs|, i requires 0 <= i < |rs| => rs[i].hash)
  }

  lemma {:induction false} RelevantTxsDistinct(env: Env, txs: seq<Tx>, n: nat)
    requires n <= |txs| && DistinctHashes(txs)
    ensures DistinctHashes(RelevantTxs(env, txs, n))
    ensures forall t <- RelevantTxs(env, txs, n) :: t in txs[..n]
  {
    if n > 0 {
      RelevantTxsDistinct(env, txs, n - 1);
      var rs := RelevantTxs(env, txs, n - 1);
      forall i | 0 <= i < |rs| ensures rs[i].hash != txs[n - 1].hash {
        assert rs[i] in txs[..n - 1];
      }
      assert txs[..n] == txs[..n - 1] + [txs[n - 1]];
    }
  }

  lemma {:induction false} ConnectTxsPrefix(env: Env, l: Ledger, rs: seq<Tx>, blk: BlockId, k: nat, n: nat)
    requires k <= n <= |rs| && ConnectTxs(env, l, rs, blk, n).Some?
    ensures ConnectTxs(env, l, rs, blk, k).Some?
    decreases n
  {
    if k < n {
      ConnectTxsPrefix(env, l, rs, blk, k, n - 1);
    }
  }

  /** The state after the first n relevant transactions of a new block. */
  lemma {:induction false} ConnectTxsForm(env: Env, l: Ledger, rs: seq<Tx>, blk: BlockId, s: set<Hash>, h: nat, n: nat)
    requires Good(env, l, s, h) && blk.height == h + 1
    requires DistinctHashes(rs) && HashSet(rs) !! s
    requires n <= |rs| && ConnectTxs(env, l, rs, blk, n).Some?
    ensures var m := ConnectTxs(env, l, rs, blk, n).value;
      Good(env, m, s + HashSet(rs[..n]), h + 1) && m.balances.Keys == l.balances.Keys &&
      m.blocks == if n == 0 then l.blocks else l.blocks[blk.height := BlockRecord(blk.hash, Hashes(rs[..n]))]
  {
    hide ConnectTx, Inv;
    if n > 0 {
      ConnectTxsForm(env, l, rs, blk, s, h, n - 1);
      var p, t := ConnectTxs(env, l, rs, blk, n - 1).value, rs[n - 1];
      assert rs[..n] == rs[..n - 1] + [t];
      assert Hashes(rs[..n]) == Hashes(rs[..n - 1]) + [t.hash];
      var rec := BlockRecord(blk.hash, Hashes(rs[..n]));
      assert Record(p, t, blk).blocks[blk.height] == rec;
      assert Record(p, t, blk).blocks == l.blocks[blk.height := rec];
      assert Fresh(p.b, t.hash) by {
        assert t.hash in HashSet(rs) && t.hash !in HashSet(rs[..n - 1]);
      }
      hide HashSet, Hashes;
      var _ := ConnectTxForm(env, p, t, blk);
      ConnectTxHeights(env, p, t, blk);
      forall x | x !in s + HashSet(rs[..n]) ensures Fresh(ConnectTx(env, p, t, blk).value.b, x) {
        assert t in rs[..n];
        ConnectTxFresh(env, p, t, blk, x);
      }
    }
  }

  /** Undoing the recorded transactions down to position k returns to the state before k. */
  lemma {:induction false} UndoConnectTxs(env: Env, l: Ledger, rs: seq<Tx>, blk: BlockId, s: set<Hash>, h: nat,
                                          k: nat, l': Ledger)
    requires Good(env, l, s, h) && blk.height == h + 1
    requires DistinctHashes(rs) && HashSet(rs) !! s && k <= |rs|
    requires ConnectTxs(env, l, rs, blk, |rs|).Some?
    requires l' == ConnectTxs(env, l, rs, blk, |rs|).value.(blocks := l'.blocks)
    requires UndoTxs(env, l', Hashes(rs), blk, k).Some?
    ensures ConnectTxs(env, l, rs, blk, k).Some?
    ensures UndoTxs(env, l', Hashes(rs), blk, k).value == ConnectTxs(env, l, rs, blk, k).value.(blocks := l'.blocks)
    decreases |rs| - k
  {
    hide ConnectTx, UndoTx;
    ConnectTxsPrefix(env, l, rs, blk, k, |rs|);
    if k < |rs| {
      UndoConnectTxs(env, l, rs, blk, s, h, k + 1, l');
      ConnectTxsForm(env, l, rs, blk, s, h, k);
      assert rs[k].hash in HashSet(rs) && rs[k].hash !in HashSet(rs[..k]);
      UndoConnectTx(env, ConnectTxs(env, l, rs, blk, k).value, rs[k], blk, UndoTxs(env, l', Hashes(rs), blk,
          k + 1).value);
    }
  }

  /** Connecting a block that follows keeps the ledger well formed. */
  lemma ConnectBlockKeeps(env: Env, l: Ledger, b: Block, s: set<Hash>, h: nat)
    requires Good(env, l, s, h) && Follows(b, s, h)
    requires ConnectBlock(env, l, b.txs, b.Id()).Some?
    ensures Good(env, ConnectBlock(env, l, b.txs, b.Id()).value, s + HashSet(b.txs), h + 1)
    ensures ConnectBlock(env, l, b.txs, b.Id()).value.balances.Keys == l.balances.Keys
  {
    var rs := RelevantTxs(env, b.txs, |b.txs|);
    RelevantTxsDistinct(env, b.txs, |b.txs|);
    assert HashSet(rs) <= HashSet(b.txs);
    ConnectTxsForm(env, l, rs, b.Id(), s, h, |rs|);
    assert rs[..|rs|] == rs;
  }

  /** Rolling back a block right after connecting it restores every bucket. */
  lemma UndoConnectBlock(env: Env, l: Ledger, b: Block, s: set<Hash>, h: nat)
    requires Good(env, l, s, h) && Follows(b, s, h)
    requires ConnectBlock(env, l, b.txs, b.Id()).Some?
    requires UndoHeight(env, ConnectBlock(env, l, b.txs, b.Id()).value, h + 1).Some?
    ensures UndoHeight(env, ConnectBlock(env, l, b.txs, b.Id()).value, h + 1).value == l
  {
    var rs := RelevantTxs(env, b.txs, |b.txs|);
    var l' := ConnectBlock(env, l, b.txs, b.Id()).value;
    RelevantTxsDistinct(env, b.txs, |b.txs|);
    assert HashSet(rs) <= HashSet(b.txs);
    ConnectTxsForm(env, l, rs, b.Id(), s, h, |rs|);
    assert rs[..|rs|] == rs;
    if |rs| > 0 {
      UndoConnectTxs(env, l, rs, b.Id(), s, h, 0, l');
      assert l'.blocks - {h + 1} == l.blocks;
    }
  }

  // ---------- lists of blocks ----------

  function ConnectBlocks(env: Env, l: Ledger, bs: seq<Block>, n: nat): Option<Ledger>
    requires n <= |bs|
  {
    if n == 0 then Some(l)
    else
      match ConnectBlocks(env, l, bs, n - 1)
      case None => None
      case Some(m) => ConnectBlock(env, m, bs[n - 1].txs, bs[n - 1].Id())
  }

  ghost function SeenAfter(bs: seq<Block>, n: nat, s: set<Hash>): set<Hash>
    requires n <= |bs|
  {
    if n == 0 then s else SeenAfter(bs, n - 1, s) + HashSet(bs[n - 1].txs)
  }

  /** The blocks have consecutive heights after h, and no transaction hash occurs twice. */
  ghost predicate Sequence(bs: seq<Block>, s: set<Hash>, h: nat, n: nat)
    requires n <= |bs|
  {
    n == 0 || (Sequence(bs, s, h, n - 1) && Follows(bs[n - 1], SeenAfter(bs, n - 1, s), h + n - 1))
  }

  lemma {:induction false} SequencePrefix(bs: seq<Block>, s: set<Hash>, h: nat, k: nat, n: nat)
    requires k <= n <= |bs| && Sequence(bs, s, h, n)
    ensures Sequence(bs, s, h, k)
    decreases n
  {
    if k < n {
      SequencePrefix(bs, s, h, k, n - 1);
    }
  }

  lemma {:induction false} ConnectBlocksKeep(env: Env, l: Ledger, bs: seq<Block>, s: set<Hash>, h: nat, n: nat)
    requires Good(env, l, s, h) && n <= |bs| && Sequence(bs, s, h, n)
    requires ConnectBlocks(env, l, bs, n).Some?
    ensures Good(env, ConnectBlocks(env, l, bs, n).value, SeenAfter(bs, n, s), h + n)
    ensures ConnectBlocks(env, l, bs, n).value.balances.Keys == l.balances.Keys
  {
    if n > 0 {
      ConnectBlocksKeep(env, l, bs, s, h, n - 1);
      ConnectBlockKeeps(env, ConnectBlocks(env, l, bs, n - 1).value, bs[n - 1], SeenAfter(bs, n - 1, s), h + n - 1);
    }
  }

  lemma {:induction false} ConnectBlocksPrefix(env: Env, l: Ledger, bs: seq<Block>, k: nat, n: nat)
    requires k <= n <= |bs| && ConnectBlocks(env, l, bs, n).Some?
    ensures ConnectBlocks(env, l, bs, k).Some?
    decreases n
  {
    if k < n {
      ConnectBlocksPrefix(env, l, bs, k, n - 1);
    }
  }

  /** Exact inverse, stopping after any number of the blocks: rolling back from the last height to the
      height of block k returns to the ledger before block k. */
  lemma {:induction false} RollbackToBlock(env: Env, l: Ledger, bs: seq<Block>, s: set<Hash>, h: nat, k: nat)
    requires Good(env, l, s, h) && Sequence(bs, s, h, |bs|) && k <= |bs|
    requires ConnectBlocks(env, l, bs, |bs|).Some?
    requires RollbackTo(env, ConnectBlocks(env, l, bs, |bs|).value, h + |bs|, h + k + 1).Some?
    ensures ConnectBlocks(env, l, bs, k).Some?
    ensures RollbackTo(env, ConnectBlocks(env, l, bs, |bs|).value, h + |bs|, h + k + 1) == ConnectBlocks(env, l, bs, k)
    decreases |bs| - k
  {
    hide Good, ConnectBlock, UndoHeight;
    ConnectBlocksPrefix(env, l, bs, k, |bs|);
    if k < |bs| {
      RollbackToBlock(env, l, bs, s, h, k + 1);
      SequencePrefix(bs, s, h, k + 1, |bs|);
      ConnectBlocksKeep(env, l, bs, s, h, k);
      UndoConnectBlock(env, ConnectBlocks(env, l, bs, k).value, bs[k], SeenAfter(bs, k, s), h + k);
    }
  }

  /** Exact inverse: connecting any list of blocks and rolling back at the first of their heights
      restores all six buckets. */
  lemma RollbackInvertsConnect(env: Env, l: Ledger, bs: seq<Block>, s: set<Hash>, h: nat)
    requires Good(env, l, s, h) && Sequence(bs, s, h, |bs|)
    requires ConnectBlocks(env, l, bs, |bs|).Some?
    requires RollbackTo(env, ConnectBlocks(env, l, bs, |bs|).value, h + |bs|, h + 1).Some?
    ensures RollbackTo(env, ConnectBlocks(env, l, bs, |bs|).value, h + |bs|, h + 1).value == l
  {
    hide Good, Sequence, RollbackTo;
    RollbackToBlock(env, l, bs, s, h, 0);
  }

  lemma {:induction false} ConnectBlocksExtend(env: Env, l: Ledger, bs: seq<Block>, cs: seq<Block>, n: nat)
    requires n <= |bs|
    ensures ConnectBlocks(env, l, bs + cs, n) == ConnectBlocks(env, l, bs, n)
  {
    if n > 0 {
      ConnectBlocksExtend(env, l, bs, cs, n - 1);
    }
  }

  lemma {:induction false} ConnectBlocksAppend(env: Env, l: Ledger, bs: seq<Block>, cs: seq<Block>, k: nat, n: nat)
    requires k <= |bs| && n <= |cs|
    ensures ConnectBlocks(env, l, bs[..k] + cs, k + n) ==
            match ConnectBlocks(env, l, bs, k)
            case None => None
            case Some(m) => ConnectBlocks(env, m, cs, n)
    decreases n
  {
    hide ConnectBlock;
    if n > 0 {
      ConnectBlocksAppend(env, l, bs, cs, k, n - 1);
      assert (bs[..k] + cs)[k + n - 1] == cs[n - 1];
    } else {
      ConnectBlocksExtend(env, l, bs[..k], cs, k);
      ConnectBlocksExtend(env, l, bs[..k], bs[k..], k);
      assert bs[..k] + bs[k..] == bs;
    }
  }

  /** A branch taken and left again leaves no trace: connecting blocks, rolling back to any of them and
      connecting others gives what connecting the kept ones and the others once, in order, gives. */
  lemma BranchForgotten(env: Env, l: Ledger, bs: seq<Block>, cs: seq<Block>, s: set<Hash>, h: nat, k: nat)
    requires Good(env, l, s, h) && Sequence(bs, s, h, |bs|) && k <= |bs|
    requires ConnectBlocks(env, l, bs, |bs|).Some?
    requires RollbackTo(env, ConnectBlocks(env, l, bs, |bs|).value, h + |bs|, h + k + 1).Some?
    ensures ConnectBlocks(env, RollbackTo(env, ConnectBlocks(env, l, bs, |bs|).value, h + |bs|, h + k + 1).value, cs,
        |cs|) ==
            ConnectBlocks(env, l, bs[..k] + cs, k + |cs|)
  {
    hide Good, Sequence, ConnectBlocks, RollbackTo;
    RollbackToBlock(env, l, bs, s, h, k);
    ConnectBlocksAppend(env, l, bs, cs, k, |cs|);
  }
}
