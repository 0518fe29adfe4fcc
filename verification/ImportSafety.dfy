/** Chunked wallet imports interleaved with block connects, disconnects and reorganisations. The
    handler and the import worker exclude each other, so every step below is atomic. */
module ImportSafety {

  type Hash = nat
  type WalletId = nat

  /** WalletSyncedDone: the synced height that marks a wallet ready. */
  const DONE: nat := 0xFFFF_FFFF_FFFF_FFFF

  /** Blocks fetched by one call of asyncImport. */
  const CHUNK: nat := 1000

  /** A wallet's stored status, the list of blocks processed for it at each height (so that a block
      processed twice is seen), and the height its history starts after: 0 for an imported wallet. */
  datatype Wallet = Wallet(syncedHeight: nat, processed: map<nat, seq<Hash>>, floor: nat)
  {
    predicate Ready() { syncedHeight == DONE }
  }

  /** The synced chain by height, the block records, each with the hash of its block, and the wallets. A block has
      a record if it holds transactions of some wallet. */
  datatype State = State(chain: seq<Hash>, records: map<nat, Hash>, wallets: map<WalletId, Wallet>)

  /** A connected block may be relevant to ready wallets; a chunk reads the chain database, in which the blocks at
      the related heights hold transactions of the wallet. */
  datatype Step =
    | Connect(hash: Hash, relevant: bool)
    | Disconnect(height: nat)
    | Import(wallet: WalletId)
    | Create(wallet: WalletId)
    | Chunk(wallet: WalletId, db: seq<Hash>, related: set<nat>)

  function Process(m: map<nat, seq<Hash>>, height: nat, hash: Hash): map<nat, seq<Hash>> {
    m[height := (if height in m then m[height] else []) + [hash]]
  }

  /** The import loop over the heights lo + 1 to hi of the chain database. */
  function ProcessRange(m: map<nat, seq<Hash>>, db: seq<Hash>, lo: nat, hi: nat): map<nat, seq<Hash>>
    requires hi < |db|
  {
    if hi <= lo then m else Process(ProcessRange(m, db, lo, hi - 1), hi, db[hi])
  }

  function Min(a: nat, b: nat): nat { if a < b then a else b }

  /** filterBlock processes the block for the ready wallets. */
  function Connected(w: Wallet, height: nat, hash: Hash): Wallet {
    if w.Ready() then w.(processed := Process(w.processed, height, hash)) else w
  }

  /** Rollback deletes what was processed at the height and above; disconnectBlock lowers the synced
      height of wallets that are not ready. */
  function Disconnected(w: Wallet, height: nat): Wallet
    requires height > 0
  {
    Wallet(if w.Ready() then w.syncedHeight else Min(w.syncedHeight, height - 1),
           map k | k in w.processed && k < height :: w.processed[k],
           Min(w.floor, height - 1))
  }

  /** The end of the next chunk. */
  function Stop(w: Wallet, best: nat): nat {
    Min(w.syncedHeight + CHUNK, best)
  }

  function Chunked(w: Wallet, best: nat, db: seq<Hash>): Wallet
    requires best < |db|
  {
    var stop := Stop(w, best);
    w.(processed := ProcessRange(w.processed, db, w.syncedHeight, stop),
       syncedHeight := if stop == best then DONE else stop)
  }

  /** insertMinedTxForImporting finds a record of another block at a related height, and the chunk is given up. */
  predicate Aborts(s: State, w: Wallet, db: seq<Hash>, related: set<nat>)
    requires 0 < |s.chain| <= |db|
  {
    exists k <- related ::
      w.syncedHeight < k <= Stop(w, |s.chain| - 1) && k in s.records && s.records[k] != db[k]
  }

  /** The records after a chunk: new ones for the related heights that had none. */
  function Recorded(s: State, w: Wallet, db: seq<Hash>, related: set<nat>): map<nat, Hash>
    requires 0 < |s.chain| <= |db|
  {
    (map k | k in related && w.syncedHeight < k <= Stop(w, |s.chain| - 1) :: db[k]) + s.records
  }

  predicate Enabled(s: State, e: Step) {
    |s.chain| > 0 &&
    match e
    case Connect(_, _) => |s.chain| < DONE
    case Disconnect(height) => 0 < height < |s.chain|
    case Import(w) => w !in s.wallets
    case Create(w) => w !in s.wallets
    case Chunk(w, db, _) => w in s.wallets && !s.wallets[w].Ready() && |db| >= |s.chain|
  }

  function Apply(s: State, e: Step): State
    requires Enabled(s, e)
  {
    match e
    case Connect(hash, relevant) =>
      State(s.chain + [hash], if relevant then s.records[|s.chain| := hash] else s.records,
            map w | w in s.wallets :: Connected(s.wallets[w], |s.chain|, hash))
    case Disconnect(height) =>
      State(s.chain[..height], map k | k in s.records && k < height :: s.records[k],
            map w | w in s.wallets :: Disconnected(s.wallets[w], height))
    case Import(w) =>
      s.(wallets := s.wallets[w := Wallet(0, map[], 0)])
    case Create(w) =>
      s.(wallets := s.wallets[w := Wallet(DONE, map[], |s.chain| - 1)])
    case Chunk(w, db, related) =>
      if Aborts(s, s.wallets[w], db, related) then s
      else s.(records := Recorded(s, s.wallets[w], db, related),
              wallets := s.wallets[w := Chunked(s.wallets[w], |s.chain| - 1, db)])
  }

  /** Exactly the blocks of the chain at heights above lo up to hi are processed, each once. */
  ghost predicate ExactlyOnce(m: map<nat, seq<Hash>>, chain: seq<Hash>, lo: nat, hi: int) {
    forall k: nat :: (k in m <==> lo < k <= hi) && (k in m && k < |chain| ==> m[k] == [chain[k]])
  }

  /** A ready wallet has every height up to the tip processed exactly once, one still importing every
      height up to its synced height, which is not above the tip. */
  ghost predicate Safe(w: Wallet, chain: seq<Hash>) {
    w.floor < |chain| &&
    if w.Ready() then ExactlyOnce(w.processed, chain, w.floor, |chain| - 1)
    else w.floor <= w.syncedHeight < |chain| && ExactlyOnce(w.processed, chain, w.floor, w.syncedHeight)
  }

  /** Every record is of a block of the chain. */
  ghost predicate RecordsAgree(records: map<nat, Hash>, chain: seq<Hash>) {
    forall k <- records :: 0 < k < |chain| && records[k] == chain[k]
  }

  ghost predicate Inv(s: State) {
    0 < |s.chain| <= DONE && RecordsAgree(s.records, s.chain) && forall w <- s.wallets :: Safe(s.wallets[w], s.chain)
  }

  /** The record of a height covers it: a chunk that reads another block there is given up. */
  predicate Guarded(s: State, related: set<nat>, k: nat) { k in related && k in s.records }

  /** The chain database agrees with the synced chain on the heights of a chunk that no record covers. */
  ghost predicate Agrees(s: State, w: Wallet, db: seq<Hash>, related: set<nat>)
    requires 0 < |s.chain| <= |db|
  {
    forall k: nat | w.syncedHeight < k <= Stop(w, |s.chain| - 1) && !Guarded(s, related, k) :: db[k] == s.chain[k]
  }

  lemma {:induction false} RangeProcessed(m: map<nat, seq<Hash>>, db: seq<Hash>, lo: nat, hi: nat)
    requires hi < |db| && forall k: nat | k > lo :: k !in m
    ensures var r := ProcessRange(m, db, lo, hi);
      forall k: nat :: (k in r <==> k in m || lo < k <= hi) &&
                       (k in m ==> r[k] == m[k]) && (lo < k <= hi ==> r[k] == [db[k]])
  {
    if hi > lo {
      RangeProcessed(m, db, lo, hi - 1);
    }
  }

  /** A chunk is given up exactly if a block it reads at a covered height is not the chain's. */
  lemma AbortsIff(s: State, w: Wallet, db: seq<Hash>, related: set<nat>)
    requires Inv(s) && |db| >= |s.chain|
    ensures Aborts(s, w, db, related) <==>
      exists k: nat :: w.syncedHeight < k <= Stop(w, |s.chain| - 1) && Guarded(s, related, k) && db[k] != s.chain[k]
  {
    if Aborts(s, w, db, related) {
      var k :| k in related && w.syncedHeight < k <= Stop(w, |s.chain| - 1) && k in s.records && s.records[k] != db[k];
      assert Guarded(s, related, k);
    }
  }

  /** A chunk leaves its wallet safe exactly if it is given up, or the chain database agrees with the synced chain
      on the heights that no record covers. */
  lemma ChunkSafe(s: State, e: Step)
    requires Inv(s) && e.Chunk? && Enabled(s, e)
    ensures Safe(Apply(s, e).wallets[e.wallet], s.chain) <==>
            Aborts(s, s.wallets[e.wallet], e.db, e.related) || Agrees(s, s.wallets[e.wallet], e.db, e.related)
  {
    var w := s.wallets[e.wallet];
    if !Aborts(s, w, e.db, e.related) {
      AbortsIff(s, w, e.db, e.related);
      ChunkedSafe(w, s.chain, e.db);
      if Agrees(s, w, e.db, e.related) {
        forall k: nat | w.syncedHeight < k <= Stop(w, |s.chain| - 1) ensures e.db[k] == s.chain[k] {
          assert Guarded(s, e.related, k) || !Guarded(s, e.related, k);
        }
      }
    }
  }

  /** A chunk that is carried out leaves its wallet safe exactly if it read the blocks of the chain. */
  lemma ChunkedSafe(w: Wallet, chain: seq<Hash>, db: seq<Hash>)
    requires 0 < |chain| <= DONE && |db| >= |chain| && Safe(w, chain) && !w.Ready()
    ensures Safe(Chunked(w, |chain| - 1, db), chain) <==>
            forall k: nat | w.syncedHeight < k <= Stop(w, |chain| - 1) :: db[k] == chain[k]
  {
    var best: nat := |chain| - 1;
    var stop := Stop(w, best);
    RangeProcessed(w.processed, db, w.syncedHeight, stop);
    var w' := Chunked(w, best, db);
    if Safe(w', chain) {
      forall k: nat | w.syncedHeight < k <= stop ensures db[k] == chain[k] {
        assert w'.processed[k] == [db[k]];
      }
    }
  }

  /** The steps that keep the wallets safe: all, with the chain database agreeing where no record covers it. */
  ghost predicate Faithful(s: State, e: Step)
    requires Enabled(s, e)
  {
    e.Chunk? ==>
      Aborts(s, s.wallets[e.wallet], e.db, e.related) || Agrees(s, s.wallets[e.wallet], e.db, e.related)
  }

  /** Every step keeps every wallet safe exactly if it is faithful. */
  lemma StepKeeps(s: State, e: Step)
    requires Inv(s) && Enabled(s, e)
    ensures Inv(Apply(s, e)) <==> Faithful(s, e)
  {
    if e.Chunk? {
      ChunkSafe(s, e);
      if Faithful(s, e) {
        ChunkRecords(s, e);
        ChunkOthers(s, e);
      }
    } else {
      OtherSteps(s, e);
    }
  }

  lemma ChunkRecords(s: State, e: Step)
    requires Inv(s) && e.Chunk? && Enabled(s, e) && Faithful(s, e)
    ensures RecordsAgree(Apply(s, e).records, s.chain)
  {
    var w := s.wallets[e.wallet];
    if !Aborts(s, w, e.db, e.related) {
      forall k <- Apply(s, e).records ensures 0 < k < |s.chain| && Apply(s, e).records[k] == s.chain[k] {
        if k !in s.records {
          assert !Guarded(s, e.related, k);
        }
      }
    }
  }

  lemma ChunkOthers(s: State, e: Step)
    requires Inv(s) && e.Chunk? && Enabled(s, e)
    ensures Apply(s, e).chain == s.chain
    ensures forall w <- Apply(s, e).wallets :: w == e.wallet || Safe(Apply(s, e).wallets[w], s.chain)
  {
  }

  lemma OtherSteps(s: State, e: Step)
    requires Inv(s) && Enabled(s, e) && !e.Chunk?
    ensures Inv(Apply(s, e))
  {
    var s' := Apply(s, e);
    assert RecordsAgree(s'.records, s'.chain);
    forall w <- s'.wallets ensures Safe(s'.wallets[w], s'.chain) {
    }
  }

  /** A run: every step enabled and faithful where it is taken. */
  ghost predicate IsRun(s: State, es: seq<Step>)
    decreases |es|
  {
    es == [] || (Enabled(s, es[0]) && Faithful(s, es[0]) && IsRun(Apply(s, es[0]), es[1..]))
  }

  function After(s: State, es: seq<Step>): State
    requires IsRun(s, es)
    decreases |es|
  {
    if es == [] then s else After(Apply(s, es[0]), es[1..])
  }

  lemma {:induction false} RunKeeps(s: State, es: seq<Step>)
    requires Inv(s) && IsRun(s, es)
    ensures Inv(After(s, es))
    decreases |es|
  {
    if es != [] {
      StepKeeps(s, es[0]);
      RunKeeps(Apply(s, es[0]), es[1..]);
    }
  }

  ghost predicate Imported(s: State, w: WalletId) {
    w in s.wallets && s.wallets[w].floor == 0
  }

  lemma {:induction false} ImportedStays(s: State, es: seq<Step>, w: WalletId)
    requires IsRun(s, es) && Imported(s, w)
    ensures Imported(After(s, es), w)
    decreases |es|
  {
    if es != [] {
      ImportedStays(Apply(s, es[0]), es[1..], w);
    }
  }

  /** Import safety over any interleaving: from a fresh import in a safe state, after any run the wallet
      has a synced height not above the tip and every height 1 to that height processed exactly once or,
      once it is ready, every height 1 to the tip, always with the blocks of the current chain. */
  lemma ImportSafe(s: State, w: WalletId, es: seq<Step>)
    requires Inv(s) && w !in s.wallets && IsRun(s, [Import(w)] + es)
    ensures var t := After(s, [Import(w)] + es);
      w in t.wallets &&
      var x := t.wallets[w];
      (!x.Ready() ==> x.syncedHeight < |t.chain|) &&
      var upTo := if x.Ready() then |t.chain| - 1 else x.syncedHeight;
      forall k: nat :: (k in x.processed <==> 1 <= k <= upTo) && (k in x.processed ==> x.processed[k] == [t.chain[k]])
  {
    var all := [Import(w)] + es;
    assert all[1..] == es;
    StepKeeps(s, Import(w));
    RunKeeps(Apply(s, Import(w)), es);
    ImportedStays(Apply(s, Import(w)), es, w);
  }

  /** The chain database holds the synced chain. */
  ghost predicate Current(db: seq<Hash>, chain: seq<Hash>) {
    |db| >= |chain| && forall k: nat | 0 < k < |chain| :: db[k] == chain[k]
  }

  /** Progress: with the tip at rest and the chain database at the same chain, no chunk is given up, and chunks
      bring the wallet up to the tip and make it ready. */
  lemma {:induction false} ImportFinishes(s: State, w: WalletId, es: seq<Step>)
    requires Inv(s) && w in s.wallets && !s.wallets[w].Ready()
    requires IsRun(s, es) && forall e <- es :: e.Chunk? && e.wallet == w && Current(e.db, s.chain)
    ensures var t := After(s, es);
      w in t.wallets && t.chain == s.chain &&
      (t.wallets[w].Ready() || t.wallets[w].syncedHeight == s.wallets[w].syncedHeight + 1000 * |es|) &&
      (|s.chain| - 1 <= s.wallets[w].syncedHeight + 1000 * |es| && es != [] ==> t.wallets[w].Ready())
    decreases |es|
  {
    if es != [] {
      var s' := Apply(s, es[0]);
      StepKeeps(s, es[0]);
      AbortsIff(s, s.wallets[w], es[0].db, es[0].related);
      if !s'.wallets[w].Ready() {
        ImportFinishes(s', w, es[1..]);
      }
    }
  }
}
