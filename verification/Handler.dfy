/** Following the chain: the synced height-to-hash chain, and the notification handler with its reorganisation,
    proved against the state machine of Following. */
module Handler {
  import opened Wrappers
  import opened Ledger
  import opened LedgerInvariant
  import opened LedgerChain
  import opened Sighting
  import opened ChainTree
  import opened Following
  import opened LedgerFrames
  import opened TxStore

  /** The synced chain: block hashes by height, and the height synced to. */
  class SyncStore {
    var hashes: map<nat, Hash>
    var syncedTo: nat

    constructor (genesis: Hash)
      ensures hashes == map[0 := genesis] && syncedTo == 0
    {
      hashes, syncedTo := map[0 := genesis], 0;
    }

    /** The heights stored are exactly 0 to the synced height. */
    ghost predicate Contiguous()
      reads this
    {
      forall k: nat :: k in hashes <==> k <= syncedTo
    }

    method PutSyncedTo(bs: BlockId) returns (ok: bool)
      requires Contiguous()
      modifies this
      ensures ok <==> bs.height == old(syncedTo) || bs.height == old(syncedTo) + 1
      ensures ok ==> Contiguous() && syncedTo == bs.height && hashes == old(hashes)[bs.height := bs.hash]
      ensures !ok ==> unchanged(this)
    {
      if bs.height > 0 && bs.height - 1 !in hashes {
        return false;
      }
      if bs.height + 1 in hashes {
        return false;
      }
      hashes := hashes[bs.height := bs.hash];
      syncedTo := bs.height;
      ok := true;
    }

    method ResetSyncedTo(height: nat)
      requires Contiguous()
      modifies this
      ensures Contiguous()
      ensures syncedTo == if height < old(syncedTo) then height else old(syncedTo)
      ensures forall k <- hashes :: k in old(hashes) && hashes[k] == old(hashes)[k]
    {
      var cur := syncedTo;
      while cur > height
        invariant cur <= old(syncedTo) && (cur >= height || cur == old(syncedTo))
        invariant forall k: nat :: k in hashes <==> k <= cur
        invariant forall k <- hashes :: k in old(hashes) && hashes[k] == old(hashes)[k]
        modifies `hashes
      {
        hashes := hashes - {cur};
        cur := cur - 1;
      }
      syncedTo := cur;
    }

    method SyncedBlock(height: nat) returns (bm: Option<BlockId>)
      ensures bm == if height in hashes then Some(BlockId(height, hashes[height])) else None
    {
      bm := if height in hashes then Some(BlockId(height, hashes[height])) else None;
    }
  }

  /** Each block builds on the one before it. */
  predicate Linked(blocks: seq<Block>) {
    forall i | 0 <= i < |blocks| - 1 :: blocks[i + 1].prev == blocks[i].hash
  }

  /** They start above x and end at last. */
  predicate Spans(blocks: seq<Block>, x: Hash, last: Block) {
    if blocks == [] then x == last.hash else blocks[0].prev == x && blocks[|blocks| - 1] == last
  }

  lemma LinkPush(b: Block, blocks: seq<Block>, last: Block)
    requires Linked(blocks) && Spans(blocks, b.hash, last) && (blocks == [] ==> b == last)
    ensures Linked([b] + blocks) && Spans([b] + blocks, b.prev, last)
  {
    var bs := [b] + blocks;
    forall i | 0 <= i < |bs| - 1 ensures bs[i + 1].prev == bs[i].hash {
      if i > 0 {
        assert blocks[i - 1 + 1].prev == blocks[i - 1].hash;
      }
    }
  }

  class NtfnsHandler {
    const env: Env
    const store: Store
    const sync: SyncStore
    const genesis: Hash
    ghost const w: World
    var bestBlock: BlockId
    /** For each height, the transactions known to have credits when the block followed there was connected. */
    ghost var known: seq<set<Hash>>

    ghost predicate Wired() {
      w.Sound() && w.env == env && w.g == genesis
    }

    /** Everything stored is what following the chain to x gives: the sync bucket holds exactly the
        ancestors of x, nothing above, and the ledger is that of the path from genesis to x. */
    ghost predicate Follows(x: Hash, ks: seq<set<Hash>>)
      reads store, sync
    {
      Wired() && x in w.u && |ks| == w.u[x].height &&
      sync.Contiguous() && sync.syncedTo == w.u[x].height &&
      (forall k: nat | k <= w.u[x].height :: sync.hashes[k] == Ancestor(w.u, w.g, x, k)) &&
      Trace(w, x, ks) == Some(store.Stored())
    }

    /** Between blocks, the best block is the block followed. */
    ghost predicate Valid()
      reads this, store, sync
    {
      Follows(bestBlock.hash, known) && bestBlock.height == w.u[bestBlock.hash].height
    }

    ghost function Now(): (p: Point)
      requires Valid()
      reads this, store, sync
      ensures At(w, p) && LedgerAt(w, p) == store.Stored()
    {
      Point(bestBlock.hash, known)
    }

    constructor (env: Env, genesis: Hash, l0: Ledger, ghost w: World)
      requires w.Sound() && w.env == env && w.g == genesis && w.l0 == l0
      ensures Valid() && Now() == Point(genesis, []) && this.w == w
      ensures fresh(store) && fresh(sync)
    {
      hide Good, TxsUnique;
      this.env, this.genesis, this.w := env, genesis, w;
      store := new Store(l0);
      sync := new SyncStore(genesis);
      bestBlock := BlockId(0, genesis);
      known := [];
    }

    /** The records of the relevant transactions of a block, seen with those known to have credits. */
    method FilterTxs(block: Block, committed: set<Hash>) returns (recs: seq<TxRecord>)
      ensures var rs := RelevantTxs(env, Sights(env, committed, block.txs), |block.txs|);
        |recs| == |rs| && forall j | 0 <= j < |rs| :: recs[j] == RecordOf(env, rs[j])
    {
      hide Relevant, Sight, HashSet, RecordOf;
      recs := [];
      ghost var seen := Sights(env, committed, block.txs);
      var recInCurBlk: set<Hash> := {};
      HashSetStep(block.txs, 0);
      for i := 0 to |block.txs|
        invariant recInCurBlk == HashSet(block.txs[..i])
        invariant var rs := RelevantTxs(env, seen, i);
          |recs| == |rs| && forall j | 0 <= j < |rs| :: recs[j] == RecordOf(env, rs[j])
      {
        var relevant, rec;
        relevant, rec, recInCurBlk := FilterTx(env, block.txs[i], recInCurBlk, committed);
        HashSetStep(block.txs, i);
        if relevant {
          recs := recs + [rec];
        }
      }
    }

    /** Connect one block to its parent. `locs` is the chain database's own best chain: a block that is
        no longer on it is refused. `committed` are the transactions that had credits when the database
        transaction began. */
    method FilterBlock(block: Block, locs: map<nat, Hash>, committed: set<Hash>, ghost ks: seq<set<Hash>>)
      returns (ok: bool)
      requires Follows(block.prev, ks) && block.hash in w.u && w.u[block.hash] == block && block.hash != genesis
      modifies store, sync
      ensures ok ==> Follows(block.hash, ks + [committed])
      ensures ok <==>
        block.height in locs && locs[block.height] == block.hash && Trace(w, block.hash, ks + [committed]).Some?
    {
      hide TxsUnique, ConnectTxs, Ancestor, Good, RelevantTxs, Sights;
      if block.height !in locs || locs[block.height] != block.hash {
        return false;
      }
      var recs := FilterTxs(block, committed);
      ghost var seen := Sights(env, committed, block.txs);
      ghost var rs := RelevantTxs(env, seen, |seen|);
      TraceGood(w, block.prev, ks);
      TraceStep(w, block.hash, ks, committed);
      ReadyStored(w, block.prev, ks);
      AncestorStep(w.u, w.g, block.hash);
      ok := store.ConnectRelevant(env, recs, rs, block.Id());
      if ok {
        ok := sync.PutSyncedTo(block.Id());
      }
    }

    /** Disconnect the tip. */
    method DisconnectBlock(height: nat, ghost tip: Hash, ghost ks: seq<set<Hash>>) returns (ok: bool)
      requires Follows(tip, ks) && height == w.u[tip].height
      modifies store, sync
      ensures ok ==> tip != genesis && Follows(w.u[tip].prev, ks[..|ks| - 1])
      ensures ok <==> tip != genesis && !Stuck(w, tip, ks)
    {
      hide Good, TxsUnique, Trace, Stuck;
      if height == 0 {
        return false;
      }
      if height > sync.syncedTo {
        return true;
      }
      TraceUndo(w, tip, ks);
      ok := store.Rollback(env, sync.syncedTo, height);
      if !ok {
        return;
      }
      AncestorStep(w.u, w.g, tip);
      sync.ResetSyncedTo(height - 1);
    }

    /** b is a block after genesis on the branch of last. */
    ghost predicate Below(b: Block, last: Block)
      requires Wired() && last.hash in w.u
    {
      b.hash in w.u && w.u[b.hash] == b && b.hash != genesis && OnBranch(w.u, w.g, last.hash, b.hash)
    }

    /** The blocks to connect lead from x to last, each linking to the one before it. */
    ghost predicate Leads(blocks: seq<Block>, x: Hash, last: Block)
    {
      Wired() && last.hash in w.u && w.u[last.hash] == last && OnBranch(w.u, w.g, last.hash, x) &&
      (forall b <- blocks :: Below(b, last)) && Linked(blocks) && Spans(blocks, x, last)
    }

    lemma LeadsPush(b: Block, blocks: seq<Block>, last: Block)
      requires b.hash in w.u && w.u[b.hash] == b && b.hash != genesis && Leads(blocks, b.hash, last)
      ensures Leads([b] + blocks, b.prev, last) && OnBranch(w.u, w.g, last.hash, b.hash)
    {
      BranchPrev(w.u, w.g, last.hash, b.hash);
      assert Below(b, last);
      LinkPush(b, blocks, last);
      hide Below, OnBranch, Rooted, Good, TxsUnique, Linked, Spans;
    }

    lemma LeadsNone(last: Block)
      requires Wired() && last.hash in w.u && w.u[last.hash] == last
      ensures Leads([], last.hash, last)
    {
      AncestorStep(w.u, w.g, last.hash);
    }

    /** The synced entry below the tip is the tip's parent. */
    lemma SyncedPrev(tip: Hash, ks: seq<set<Hash>>)
      requires Follows(tip, ks) && tip != genesis
      ensures w.u[tip].height > 0 && w.u[tip].height - 1 in sync.hashes
      ensures sync.hashes[w.u[tip].height - 1] == w.u[tip].prev
    {
      assert sync.hashes[w.u[tip].height - 1] == Ancestor(w.u, w.g, tip, w.u[tip].height - 1);
    }

    /** getBlock: the chain database may not have the block any more. */
    method GetBlock(fetch: map<Hash, Block>, hash: Hash) returns (b: Option<Block>)
      requires Wired() && Fetchable(w.u, fetch)
      ensures b.Some? ==> hash in w.u && b.value == w.u[hash] && b.value.hash == hash
      ensures b == if hash in fetch then Some(fetch[hash]) else None
    {
      b := if hash in fetch then Some(fetch[hash]) else None;
    }

    /** Step 1 of reorg: walk the new branch down to the height of the current best block. */
    method AlignHeight(height: nat, newBlock: Block, fetch: map<Hash, Block>)
      returns (ok: bool, newBest: Block, blocksToConnect: seq<Block>)
      requires Wired() && newBlock.hash in w.u && w.u[newBlock.hash] == newBlock && Fetchable(w.u, fetch)
      ensures ok <==> Fetched(w, newBlock.hash, fetch, height, newBlock.height)
      ensures ok ==> newBest.hash in w.u && w.u[newBest.hash] == newBest
      ensures ok ==> newBest.height == if height <= newBlock.height then height else newBlock.height
      ensures ok ==> Leads(blocksToConnect, newBest.hash, newBlock)
    {
      hide Good, TxsUnique, Leads, OnBranch, Fetched;
      newBest := newBlock;
      LeadsNone(newBlock);
      blocksToConnect := [];
      while height < newBest.height
        invariant newBest.hash in w.u && w.u[newBest.hash] == newBest
        invariant newBest.height <= newBlock.height && (height <= newBlock.height ==> height <= newBest.height)
        invariant height > newBlock.height ==> newBest == newBlock
        invariant Leads(blocksToConnect, newBest.hash, newBlock)
        invariant Fetched(w, newBlock.hash, fetch, height, newBlock.height) <==>
                  Fetched(w, newBest.hash, fetch, height, newBest.height)
        decreases newBest.height
      {
        LeadsPush(newBest, blocksToConnect, newBlock);
        FetchedStep(w, newBest.hash, fetch, height);
        blocksToConnect := [newBest] + blocksToConnect;
        var prev := GetBlock(fetch, newBest.prev);
        if prev.None? {
          return false, newBest, blocksToConnect;
        }
        newBest := prev.value;
      }
      NothingToFetch(newBest.hash, fetch, height);
      ok := true;
    }

    lemma NothingToFetch(x: Hash, fetch: map<Hash, Block>, lo: nat)
      requires Wired() && x in w.u && lo >= w.u[x].height
      ensures Fetched(w, x, fetch, lo, w.u[x].height)
    {
    }

    /** Step 2a: disconnect the current branch down to a height. */
    method DisconnectDown(from: nat, to: nat, ghost tip: Hash, ghost ks: seq<set<Hash>>)
      returns (ok: bool, ghost tip': Hash)
      requires Follows(tip, ks) && from == w.u[tip].height && to <= from
      modifies store, sync
      ensures ok <==> Clear(w, tip, ks, to)
      ensures ok ==> OnBranch(w.u, w.g, tip, tip') && w.u[tip'].height == to && Follows(tip', ks[..to])
    {
      hide Trace, Good, TxsUnique, Stuck, Clear;
      var height := from;
      tip' := tip;
      ghost var ks' := ks;
      AncestorStep(w.u, w.g, tip);
      while height > to
        invariant Follows(tip', ks') && height == w.u[tip'].height && to <= height <= |ks| && ks' == ks[..height]
        invariant OnBranch(w.u, w.g, tip, tip')
        invariant Clear(w, tip, ks, to) <==> Clear(w, tip', ks', to)
      {
        ClearBelow(w, tip', ks', to);
        ok := DisconnectBlock(height, tip', ks');
        if !ok {
          return;
        }
        BranchPrev(w.u, w.g, tip, tip');
        tip', ks' := w.u[tip'].prev, ks'[..|ks'| - 1];
        height := height - 1;
      }
      ClearAtTop(tip', ks');
      ok := true;
    }

    lemma ClearAtTop(tip: Hash, ks: seq<set<Hash>>)
      requires Wired() && tip in w.u && |ks| == w.u[tip].height
      ensures Clear(w, tip, ks, w.u[tip].height)
    {
    }

    /** Disconnect the tip and look up the synced block below the new tip. */
    method DisconnectAndLook(height: nat, ghost tip: Hash, ghost ks: seq<set<Hash>>)
      returns (ok: bool, below: Option<BlockId>)
      requires Follows(tip, ks) && height == w.u[tip].height && tip != genesis && w.u[tip].prev != genesis
      modifies store, sync
      ensures ok <==> !Stuck(w, tip, ks)
      ensures ok ==> var p := w.u[tip].prev;
        Follows(p, ks[..|ks| - 1]) && below == Some(BlockId(w.u[p].height - 1, w.u[p].prev))
    {
      hide Trace, Good, TxsUnique, Stuck;
      below := None;
      ok := DisconnectBlock(height, tip, ks);
      if !ok {
        return;
      }
      SyncedPrev(w.u[tip].prev, ks[..|ks| - 1]);
      below := sync.SyncedBlock(height - 2);
      ok := below.Some?;
    }

    /** Step 2b: from two different blocks at one height, walk both branches down to their fork point,
        disconnecting the current one and collecting the new one. */
    method DisconnectToFork(currentHeight: nat, newBest: Block, blocks: seq<Block>, newBlock: Block,
                            fetch: map<Hash, Block>, ghost tip: Hash, ghost ks: seq<set<Hash>>)
      returns (ok: bool, blocksToConnect: seq<Block>)
      requires Follows(tip, ks) && currentHeight == w.u[tip].height && Fetchable(w.u, fetch)
      requires newBest.hash in w.u && w.u[newBest.hash] == newBest && newBest.height == currentHeight
      requires newBest.hash != tip && Leads(blocks, newBest.hash, newBlock)
      modifies store, sync
      ensures var n := ForkHeight(w, tip, newBest.hash);
        ok <==> Clear(w, tip, ks, n) && Fetched(w, newBest.hash, fetch, n + 1, newBest.height)
      ensures var f := Fork(w.u, w.g, tip, newBest.hash);
        ok ==> Follows(f, ks[..w.u[f].height]) && Leads(blocksToConnect, f, newBlock)
    {
      hide Trace, Ancestor, Good, TxsUnique, Rooted, Leads, OnBranch, Stuck, Clear, Fetched, Fork,
           SyncStore.Contiguous, Fetchable;
      blocksToConnect := blocks;
      ghost var tip', ks', f := tip, ks, Fork(w.u, w.g, tip, newBest.hash);
      ghost var n := w.u[f].height;
      ForkParents(w.u, w.g, tip, newBest.hash);
      // The synced entry below the current block is there, so the source's error for a missing one cannot arise.
      SyncedPrev(tip, ks);
      var currentPrev := sync.SyncedBlock(currentHeight - 1);
      var newTail := newBest;
      while newTail.prev != currentPrev.value.hash
        invariant Follows(tip', ks') && |ks'| <= |ks| && ks' == ks[..|ks'|]
        invariant newTail.hash in w.u && w.u[newTail.hash] == newTail
        invariant newTail.hash != tip' && newTail.height == w.u[tip'].height > n
        invariant Fork(w.u, w.g, tip', newTail.hash) == f && tip' != genesis && newTail.hash != genesis
        invariant currentPrev == Some(BlockId(w.u[tip'].height - 1, w.u[tip'].prev))
        invariant Leads(blocksToConnect, newTail.hash, newBlock)
        invariant Clear(w, tip, ks, n) <==> Clear(w, tip', ks', n)
        invariant Fetched(w, newBest.hash, fetch, n + 1, newBest.height) <==>
                  Fetched(w, newTail.hash, fetch, n + 1, newTail.height)
        decreases newTail.height
      {
        LeadsPush(newTail, blocksToConnect, newBlock);
        ForkParents(w.u, w.g, tip', newTail.hash);
        ForkParents(w.u, w.g, w.u[tip'].prev, newTail.prev);
        ClearBelow(w, tip', ks', n);
        FetchedStep(w, newTail.hash, fetch, n + 1);
        blocksToConnect := [newTail] + blocksToConnect;
        ok, currentPrev := DisconnectAndLook(currentPrev.value.height + 1, tip', ks');
        if !ok {
          return;
        }
        tip', ks' := w.u[tip'].prev, ks'[..|ks'| - 1];
        var prev := GetBlock(fetch, newTail.prev);
        if prev.None? {
          return false, blocksToConnect;
        }
        newTail := prev.value;
      }
      ForkParents(w.u, w.g, tip', newTail.hash);
      ForkSelf(w.u, w.g, newTail.prev, newTail.prev);
      ClearBelow(w, tip', ks', n);
      ClearAtTop(f, ks'[..|ks'| - 1]);
      NothingToFetch(newTail.hash, fetch, newTail.height);
      LeadsPush(newTail, blocksToConnect, newBlock);
      assert ks'[..|ks'| - 1] == ks[..n];
      ok := DisconnectBlock(currentPrev.value.height + 1, tip', ks');
      blocksToConnect := [newTail] + blocksToConnect;
    }

    /** Step 3: connect. */
    method ConnectAll(blocks: seq<Block>, newBlock: Block, locs: map<nat, Hash>, committed: set<Hash>,
                      ghost tip: Hash, ghost ks: seq<set<Hash>>, ghost ks2: seq<set<Hash>>)
      returns (ok: bool)
      requires Follows(tip, ks) && Leads(blocks, tip, newBlock)
      requires ks2 == ks + seq(newBlock.height - w.u[tip].height, _ => committed)
      modifies store, sync
      ensures ok <==> AllCurrent(w, newBlock.hash, locs, w.u[tip].height) && Trace(w, newBlock.hash, ks2).Some?
      ensures ok ==> Follows(newBlock.hash, ks2)
    {
      hide Trace, Ancestor, OnBranch, Good, TxsUnique, Leads, AllCurrent;
      var blocksToConnect := blocks;
      ghost var x, kx := tip, ks;
      LeadsUp(blocks, tip, newBlock);
      while blocksToConnect != []
        invariant Follows(x, kx) && Leads(blocksToConnect, x, newBlock)
        invariant w.u[tip].height <= w.u[x].height <= newBlock.height && kx == ks2[..w.u[x].height]
        invariant AllCurrent(w, newBlock.hash, locs, w.u[tip].height) <==>
                  AllCurrent(w, newBlock.hash, locs, w.u[x].height)
        decreases |blocksToConnect|
      {
        var block := blocksToConnect[0];
        LeadsPop(blocksToConnect, x, newBlock);
        AllCurrentStep(w, newBlock.hash, locs, block.hash);
        assert kx + [committed] == ks2[..block.height];
        ok := FilterBlock(block, locs, committed, kx);
        if !ok {
          if Trace(w, newBlock.hash, ks2).Some? {
            TraceBelow(w, newBlock.hash, ks2, block.hash);
          }
          return;
        }
        x, kx := block.hash, kx + [committed];
        blocksToConnect := blocksToConnect[1..];
      }
      LeadsNowhere(x, newBlock);
      AllCurrentAtTop(x, locs);
      assert kx == ks2;
      ok := true;
    }

    lemma LeadsUp(blocks: seq<Block>, x: Hash, last: Block)
      requires Leads(blocks, x, last)
      ensures x in w.u && w.u[x].height <= last.height && last.hash in w.u && w.u[last.hash] == last
    {
    }

    lemma LeadsPop(blocks: seq<Block>, x: Hash, last: Block)
      requires Leads(blocks, x, last) && blocks != []
      ensures var b := blocks[0];
        b.hash in w.u && w.u[b.hash] == b && b.hash != genesis && b.prev == x &&
        OnBranch(w.u, w.g, last.hash, b.hash) && b.height <= last.height && Leads(blocks[1..], b.hash, last)
    {
      hide Good, TxsUnique, Ancestor;
      assert blocks[0] in blocks;
      if |blocks| > 1 {
        assert blocks[0 + 1].prev == blocks[0].hash;
      }
    }

    lemma LeadsNowhere(x: Hash, last: Block)
      requires Leads([], x, last)
      ensures x == last.hash && last.hash in w.u && w.u[last.hash] == last
    {
    }

    lemma AllCurrentAtTop(x: Hash, locs: map<nat, Hash>)
      requires Wired() && x in w.u
      ensures AllCurrent(w, x, locs, w.u[x].height)
    {
    }

    lemma LeadsFrom(blocks: seq<Block>, x: Hash, last: Block)
      requires Leads(blocks, x, last)
      ensures x in w.u && last.hash in w.u && OnBranch(w.u, w.g, last.hash, x)
    {
    }

    lemma TipOnBranch(tip: Hash)
      requires Wired() && tip in w.u
      ensures OnBranch(w.u, w.g, tip, tip)
    {
      AncestorStep(w.u, w.g, tip);
    }

    /** The synced entry at the height of the tip is the tip. */
    lemma TipSynced(tip: Hash, ks: seq<set<Hash>>)
      requires Follows(tip, ks)
      ensures w.u[tip].height in sync.hashes && sync.hashes[w.u[tip].height] == tip
    {
      AncestorStep(w.u, w.g, tip);
    }

    lemma FetchedMore(tip: Hash, x: Hash, fetch: map<Hash, Block>)
      requires Wired() && tip in w.u && x in w.u && Fetched(w, x, fetch, FetchFrom(w, tip, x), w.u[x].height)
      ensures Fetched(w, x, fetch, w.u[tip].height, w.u[x].height)
    {
      ForkBelow(tip, x);
      hide OnBranch, Fork;
    }

    lemma ForkBelow(tip: Hash, x: Hash)
      requires Wired() && tip in w.u && x in w.u
      ensures ForkHeight(w, tip, x) <= w.u[tip].height && ForkHeight(w, tip, x) <= w.u[x].height
    {
    }

    lemma ClearMore(tip: Hash, ks: seq<set<Hash>>, lo: nat, hi: nat)
      requires Wired() && tip in w.u && |ks| == w.u[tip].height && lo <= hi && Clear(w, tip, ks, lo)
      ensures Clear(w, tip, ks, hi)
    {
    }

    /** Step 2: if the branches differ at the lower of the two heights, disconnect the current one down to the fork
        point. */
    method DisconnectBranch(newBest: Block, blocks: seq<Block>, newBlock: Block, fetch: map<Hash, Block>)
      returns (ok: bool, blocksToConnect: seq<Block>)
      requires Valid() && newBest.hash in w.u && w.u[newBest.hash] == newBest && Leads(blocks, newBest.hash, newBlock)
      requires newBest.height == if bestBlock.height <= newBlock.height then bestBlock.height else newBlock.height
      requires Fetchable(w.u, fetch) && newBlock.hash in w.u && w.u[newBlock.hash] == newBlock
      requires Fetched(w, newBlock.hash, fetch, bestBlock.height, newBlock.height)
      modifies store, sync
      ensures var tip, x := bestBlock.hash, newBlock.hash;
        ok <==> Clear(w, tip, known, ForkHeight(w, tip, x)) &&
                Fetched(w, x, fetch, FetchFrom(w, tip, x), newBlock.height)
      ensures var tip, x := bestBlock.hash, newBlock.hash;
        ok ==> Follows(Fork(w.u, w.g, tip, x), known[..ForkHeight(w, tip, x)]) &&
               Leads(blocksToConnect, Fork(w.u, w.g, tip, x), newBlock)
    {
      hide Trace, Good, TxsUnique, Rooted, OnBranch, Leads, Stuck, Clear, Fetched, Fork, Ancestor;
      ghost var tip, x, n := bestBlock.hash, newBlock.hash, ForkHeight(w, bestBlock.hash, newBlock.hash);
      var currentBest := bestBlock;
      blocksToConnect := blocks;
      LeadsFrom(blocks, newBest.hash, newBlock);
      ForkBelow(tip, x);
      if currentBest.hash == newBest.hash {
        TipOnBranch(tip);
        ClearAtTop(tip, known);
        assert known[..|known|] == known;
        BranchesMeet(tip, known, x, tip, fetch);
        return true, blocksToConnect;
      }
      ghost var t;
      ok, t := DisconnectDown(currentBest.height, newBest.height, tip, known);
      if !ok {
        if Clear(w, tip, known, n) {
          ClearMore(tip, known, n, newBest.height);
        }
        return;
      }
      // TipSynced: the synced entry at this height is there, so the source's error for a missing one cannot arise.
      TipSynced(t, known[..newBest.height]);
      var bm := sync.SyncedBlock(newBest.height);
      currentBest := bm.value;
      if currentBest.hash == newBest.hash {
        BranchesMeet(tip, known, x, t, fetch);
        return;
      }
      ClearSplit(w, tip, known, t, n);
      ForkOfBoth(w, tip, x, t, newBest.hash);
      FetchedWhole(w, tip, x, t, newBest.hash, fetch);
      ghost var ks := known[..newBest.height];
      ok, blocksToConnect := DisconnectToFork(currentBest.height, newBest, blocks, newBlock, fetch, t, ks);
      assert ks[..n] == known[..n];
    }

    /** Both branches go through t at the lower of the two heights: it is the fork point, and what is above it is all
        there is to fetch and to undo. */
    lemma BranchesMeet(tip: Hash, ks: seq<set<Hash>>, x: Hash, t: Hash, fetch: map<Hash, Block>)
      requires Wired() && tip in w.u && x in w.u && t in w.u
      requires OnBranch(w.u, w.g, tip, t) && OnBranch(w.u, w.g, x, t)
      requires |ks| == w.u[tip].height && Clear(w, tip, ks, w.u[t].height)
      requires w.u[t].height == if w.u[tip].height <= w.u[x].height then w.u[tip].height else w.u[x].height
      requires Fetched(w, x, fetch, w.u[tip].height, w.u[x].height)
      ensures Fork(w.u, w.g, tip, x) == t && Clear(w, tip, ks, ForkHeight(w, tip, x))
      ensures Fetched(w, x, fetch, FetchFrom(w, tip, x), w.u[x].height)
    {
      hide Trace, Good, TxsUnique, Rooted, OnBranch, Stuck, Clear, Fetched, Fork;
      ForkOfBoth(w, tip, x, t, t);
      ForkSelf(w.u, w.g, t, t);
      FetchedWhole(w, tip, x, t, t, fetch);
    }

    /** Switch from the best block to newBlock. What filterTx may rely on is `committed`, the transactions that had
        credits when the database transaction began, for every block connected. */
    method Reorg(newBlock: Block, fetch: map<Hash, Block>, locs: map<nat, Hash>, committed: set<Hash>)
      returns (ok: bool)
      requires Valid() && newBlock.hash in w.u && w.u[newBlock.hash] == newBlock && Fetchable(w.u, fetch)
      requires committed == Credited(w, bestBlock.hash)
      modifies store, sync
      ensures ok <==>
        Passable(w, old(Now()), newBlock.hash, locs) &&
        Fetched(w, newBlock.hash, fetch, FetchFrom(w, bestBlock.hash, newBlock.hash), newBlock.height)
      ensures ok ==> Follows(newBlock.hash, Renewed(w, old(Now()), newBlock.hash))
    {
      hide Trace, Good, TxsUnique, Rooted, OnBranch, Leads, Stuck, Clear, Fetched, AllCurrent, Fork, Credited, Ancestor;
      ghost var p, x := Now(), newBlock.hash;
      ForkBelow(p.tip, x);
      ghost var f := Fork(w.u, w.g, p.tip, x);
      var newBest, blocksToConnect;
      ok, newBest, blocksToConnect := AlignHeight(bestBlock.height, newBlock, fetch);
      if !ok {
        if Fetched(w, x, fetch, FetchFrom(w, p.tip, x), w.u[x].height) {
          FetchedMore(p.tip, x, fetch);
        }
        return;
      }
      ok, blocksToConnect := DisconnectBranch(newBest, blocksToConnect, newBlock, fetch);
      if ok {
        ok := ConnectAll(blocksToConnect, newBlock, locs, committed, f, p.known[..w.u[f].height], Renewed(w, p, x));
      }
    }

    /** One database transaction: an offer accepted is followed, otherwise nothing changed. */
    method ProcessConnectedBlock(newBlock: Block, fetch: map<Hash, Block>, locs: map<nat, Hash>) returns (ok: bool)
      requires Valid() && Offered(w.u, Offer(newBlock, fetch, locs))
      modifies this`bestBlock, this`known, store, sync
      ensures Valid() && Now() == Next(w, old(Now()), Offer(newBlock, fetch, locs))
      ensures ok <==> Accepts(w, old(Now()), Offer(newBlock, fetch, locs))
      ensures ok ==> bestBlock == BlockId(newBlock.height, newBlock.hash)
      ensures ChainTo(w, sync.hashes, bestBlock.hash) && sync.syncedTo == bestBlock.height
      ensures !ok ==> bestBlock == old(bestBlock) && store.Stored() == old(store.Stored()) &&
                      sync.hashes == old(sync.hashes) && sync.syncedTo == old(sync.syncedTo)
      ensures sync.hashes == Synced(w, bestBlock.hash)
      ensures ok && Replays(w, old(Now())) ==>
        (Replay(w, newBlock.hash) == Some(store.Stored()) <==> SightedFrom(w, old(bestBlock.hash), newBlock.hash))
    {
      hide Trace, Good, TxsUnique, Credited, Ancestor, Clear, Fetched, AllCurrent, Fork, SightedFrom, Replay, ChainTo;
      ghost var p, o := Now(), Offer(newBlock, fetch, locs);
      var ledger := store.Snapshot();
      var hashes, syncedTo := sync.hashes, sync.syncedTo;
      var committed := store.CreditedTxs();
      TraceGood(w, p.tip, p.known);
      if newBlock.prev == bestBlock.hash {
        AcceptsNext(w, p, o);
        ok := FilterBlock(newBlock, locs, committed, known);
      } else {
        ok := Reorg(newBlock, fetch, locs, committed);
      }
      if ok {
        bestBlock, known := newBlock.Id(), Renewed(w, p, newBlock.hash);
        if Replays(w, p) {
          NextReplays(w, p, o);
        }
      } else {
        store.Restore(ledger);
        sync.hashes, sync.syncedTo := hashes, syncedTo;
      }
      SyncedExactly();
    }

    /** The sync bucket holds the best block and its ancestors. */
    lemma SyncedExactly()
      requires Valid()
      ensures sync.hashes == Synced(w, bestBlock.hash) && ChainTo(w, sync.hashes, bestBlock.hash)
    {
      hide Ancestor, Good, TxsUnique, Trace, ChainTo;
      SyncedIsChain(w, bestBlock.hash);
      assert sync.hashes.Keys == Synced(w, bestBlock.hash).Keys;
    }

    /** A run: each block is offered in turn, with whatever the chain database holds at that moment. */
    method Run(offers: seq<Offer>) returns (accepted: seq<bool>)
      requires Valid() && AllOffered(w, offers)
      modifies this`bestBlock, this`known, store, sync
      ensures Valid() && |accepted| == |offers| && Now() == After(w, old(Now()), offers, |offers|)
      ensures forall i: nat | i < |offers| :: accepted[i] <==> AcceptedAt(w, old(Now()), offers, i)
    {
      hide At, Good, TxsUnique, Universe, Offered, Accepts, Next, Follows, Trace;
      accepted := [];
      ghost var s := Now();
      for i := 0 to |offers|
        invariant Valid() && |accepted| == i && Now() == After(w, s, offers, i)
        invariant forall j: nat | j < i :: accepted[j] <==> AcceptedAt(w, s, offers, j)
      {
        var o := offers[i];
        var ok := ProcessConnectedBlock(o.block, o.fetch, o.locs);
        accepted := accepted + [ok];
      }
    }

    /** The ledger invariant holds between blocks, and no bucket mentions a height above the tip. */
    lemma LedgerInvariantHolds()
      requires Valid()
      ensures Inv(env, store.Stored()) && Funded(env, store.Stored())
      ensures forall k <- store.blocks :: k <= bestBlock.height
      ensures forall uk <- store.unspent :: store.unspent[uk].height <= bestBlock.height
    {
      hide Inv, Trace, TxsUnique;
      TraceGood(w, bestBlock.hash, known);
    }
  }

  /** A handler started at genesis: which offers it accepts, its tip, ledger and synced chain afterwards. */
  method FollowChain(ghost w: World, env: Env, genesis: Hash, l0: Ledger, offers: seq<Offer>)
    returns (accepted: seq<bool>, tip: Hash, ledger: Ledger, hashes: map<nat, Hash>)
    requires w.Sound() && w.env == env && w.g == genesis && w.l0 == l0 && AllOffered(w, offers)
    ensures |accepted| == |offers|
    ensures forall i: nat | i < |offers| :: accepted[i] <==> AcceptedAt(w, Start(w), offers, i)
    ensures var p := After(w, Start(w), offers, |offers|);
      tip == p.tip && ledger == LedgerAt(w, p) && hashes == Synced(w, tip)
    ensures ChainTo(w, hashes, tip)
    ensures AllSighted(w, Start(w), offers, |offers|) ==> Replay(w, tip) == Some(ledger)
  {
    hide Good, TxsUnique, After, Replay, Trace, AllSighted, ChainTo;
    var handler := new NtfnsHandler(env, genesis, l0, w);
    accepted := handler.Run(offers);
    handler.SyncedExactly();
    tip, hashes := handler.bestBlock.hash, handler.sync.hashes;
    ledger := handler.store.Snapshot();
    if AllSighted(w, Start(w), offers, |offers|) {
      PathIndependence(w, offers, offers);
    }
  }
}
