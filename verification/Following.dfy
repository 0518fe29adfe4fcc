/** Following the chain as a state machine on values: which offered block is accepted, what is followed then, and when
    the ledger is that of connecting the path once, in order. */
module Following {
  import opened Wrappers
  import opened Ledger
  import opened LedgerInvariant
  import opened LedgerChain
  import opened LedgerHeadroom
  import opened Sighting
  import opened ChainTree

  /** A new block, and the chain database's blocks and best chain when it arrives. */
  datatype Offer = Offer(block: Block, fetch: map<Hash, Block>, locs: map<nat, Hash>)

  /** What is offered or fetched is a block of the tree. */
  ghost predicate Offered(u: map<Hash, Block>, o: Offer) {
    o.block.hash in u && u[o.block.hash] == o.block && Fetchable(u, o.fetch)
  }

  ghost predicate Fetchable(u: map<Hash, Block>, fetch: map<Hash, Block>) {
    forall x <- fetch :: x in u && fetch[x] == u[x]
  }

  ghost predicate AllOffered(w: World, offers: seq<Offer>) {
    forall o <- offers :: Offered(w.u, o)
  }

  /** What is followed: a tip, and for each height which transactions were known to have credits when the block at
      that height was connected. */
  datatype Point = Point(tip: Hash, known: seq<set<Hash>>)

  ghost predicate At(w: World, p: Point) {
    w.Sound() && p.tip in w.u && |p.known| == w.u[p.tip].height && Trace(w, p.tip, p.known).Some?
  }

  ghost function LedgerAt(w: World, p: Point): Ledger
    requires At(w, p)
  {
    Trace(w, p.tip, p.known).value
  }

  ghost function ForkHeight(w: World, tip: Hash, x: Hash): nat
    requires w.IsTree() && tip in w.u && x in w.u
  {
    w.u[Fork(w.u, w.g, tip, x)].height
  }

  /** The known credits once x is followed instead: the blocks up to the fork point keep theirs, and every block
      connected in the call has the credits of the tip that the call starts from. */
  ghost function Renewed(w: World, p: Point, x: Hash): (ks: seq<set<Hash>>)
    requires w.IsTree() && p.tip in w.u && x in w.u && |p.known| == w.u[p.tip].height
    ensures |ks| == w.u[x].height
  {
    var n := ForkHeight(w, p.tip, x);
    p.known[..n] + seq(w.u[x].height - n, _ => Credited(w, p.tip))
  }

  // ---------- which offers are accepted ----------

  /** The chain database can produce every block of the branch of x at heights from lo up to hi. */
  ghost predicate Fetched(w: World, x: Hash, fetch: map<Hash, Block>, lo: nat, hi: nat)
    requires w.IsTree() && x in w.u
  {
    forall y <- w.u | OnBranch(w.u, w.g, x, y) && lo <= w.u[y].height < hi :: y in fetch
  }

  /** The chain database's best chain holds the block. */
  predicate Current(b: Block, locs: map<nat, Hash>) {
    b.height in locs && locs[b.height] == b.hash
  }

  /** It holds every block of the branch of x above height lo. */
  ghost predicate AllCurrent(w: World, x: Hash, locs: map<nat, Hash>, lo: nat)
    requires w.IsTree() && x in w.u
  {
    forall y <- w.u | OnBranch(w.u, w.g, x, y) && w.u[y].height > lo :: Current(w.u[y], locs)
  }

  /** Every block of the branch of tip above height lo can be undone. */
  ghost predicate Clear(w: World, tip: Hash, ks: seq<set<Hash>>, lo: nat)
    requires w.IsTree() && tip in w.u && |ks| == w.u[tip].height
  {
    forall y <- w.u | OnBranch(w.u, w.g, tip, y) && w.u[y].height > lo :: !Stuck(w, y, ks[..w.u[y].height])
  }

  /** The height of the lowest block that a reorganisation fetches: the one above the fork point, or the tip itself when
      the new block builds on it. */
  ghost function FetchFrom(w: World, tip: Hash, x: Hash): nat
    requires w.IsTree() && tip in w.u && x in w.u
  {
    var n := ForkHeight(w, tip, x);
    if n == w.u[tip].height then n else n + 1
  }

  /** Above the fork point, the abandoned blocks can be undone, and the branch of x is current and connects. */
  ghost predicate Passable(w: World, p: Point, x: Hash, locs: map<nat, Hash>)
    requires At(w, p) && x in w.u
  {
    var n := ForkHeight(w, p.tip, x);
    Clear(w, p.tip, p.known, n) && AllCurrent(w, x, locs, n) && Trace(w, x, Renewed(w, p, x)).Some?
  }

  /** A block is accepted exactly if the way to it is passable and, unless it extends the tip, the rest of its branch
      can be fetched. */
  ghost predicate Accepts(w: World, p: Point, o: Offer)
    requires At(w, p) && Offered(w.u, o)
  {
    var x := o.block.hash;
    Passable(w, p, x, o.locs) &&
    (o.block.prev == p.tip || Fetched(w, x, o.fetch, FetchFrom(w, p.tip, x), w.u[x].height))
  }

  /** What acceptance means, with f the highest block that is on both branches: the blocks of the current branch above
      f can be undone; the chain database's best chain holds every block of the new branch above f; those connect on
      top of the ledger at f, each seen with the credits there are before the call; and unless the new block extends
      the tip, the blocks between f and it can be fetched, f too if it is the tip. */
  lemma AcceptsMeans(w: World, p: Point, o: Offer, f: Hash)
    requires At(w, p) && Offered(w.u, o)
    requires OnBranch(w.u, w.g, p.tip, f) && OnBranch(w.u, w.g, o.block.hash, f)
    requires forall z | OnBranch(w.u, w.g, p.tip, z) && OnBranch(w.u, w.g, o.block.hash, z) ::
      w.u[z].height <= w.u[f].height
    ensures Accepts(w, p, o) <==>
      (forall y <- w.u | OnBranch(w.u, w.g, p.tip, y) && w.u[y].height > w.u[f].height ::
         !Stuck(w, y, p.known[..w.u[y].height])) &&
      (forall y <- w.u | OnBranch(w.u, w.g, o.block.hash, y) && w.u[y].height > w.u[f].height ::
         w.u[y].height in o.locs && o.locs[w.u[y].height] == y) &&
      Trace(w, o.block.hash, p.known[..w.u[f].height] +
        seq(o.block.height - w.u[f].height, _ => Credited(w, p.tip))).Some? &&
      (o.block.prev == p.tip ||
       forall y <- w.u | OnBranch(w.u, w.g, o.block.hash, y) && y != o.block.hash &&
         (w.u[y].height > w.u[f].height || y == f == p.tip) :: y in o.fetch)
  {
    hide Trace, Stuck, Credited, OnBranch, TxsUnique, Clear, AllCurrent, Fetched, Fork, Rooted, Good;
    var x := o.block.hash;
    SameFork(w, p.tip, x, f);
    BranchesMean(w, p, x, o.locs, f);
    FetchedMeans(w, p.tip, x, o.fetch, f);
  }

  lemma BranchesMean(w: World, p: Point, x: Hash, locs: map<nat, Hash>, f: Hash)
    requires At(w, p) && x in w.u && f in w.u
    ensures Clear(w, p.tip, p.known, w.u[f].height) <==>
      forall y <- w.u | OnBranch(w.u, w.g, p.tip, y) && w.u[y].height > w.u[f].height ::
        !Stuck(w, y, p.known[..w.u[y].height])
    ensures AllCurrent(w, x, locs, w.u[f].height) <==>
      forall y <- w.u | OnBranch(w.u, w.g, x, y) && w.u[y].height > w.u[f].height ::
        w.u[y].height in locs && locs[w.u[y].height] == y
  {
    hide Trace, Stuck, Credited, OnBranch, Good, TxsUnique;
  }

  lemma FetchedMeans(w: World, tip: Hash, x: Hash, fetch: map<Hash, Block>, f: Hash)
    requires w.IsTree() && tip in w.u && x in w.u && f == Fork(w.u, w.g, tip, x)
    ensures Fetched(w, x, fetch, FetchFrom(w, tip, x), w.u[x].height) <==>
      forall y <- w.u | OnBranch(w.u, w.g, x, y) && y != x && (w.u[y].height > w.u[f].height || y == f == tip) ::
        y in fetch
  {
    hide OnBranch, Fork;
    BranchHeights(w, x);
    BranchHeights(w, tip);
    ForkOnBoth(w, tip, x);
  }

  lemma ForkOnBoth(w: World, tip: Hash, x: Hash)
    requires w.IsTree() && tip in w.u && x in w.u
    ensures var f := Fork(w.u, w.g, tip, x);
      f in w.u && OnBranch(w.u, w.g, tip, f) && OnBranch(w.u, w.g, x, f)
  {
  }

  lemma SameFork(w: World, tip: Hash, x: Hash, f: Hash)
    requires w.IsTree() && tip in w.u && x in w.u && OnBranch(w.u, w.g, tip, f) && OnBranch(w.u, w.g, x, f)
    requires forall z | OnBranch(w.u, w.g, tip, z) && OnBranch(w.u, w.g, x, z) :: w.u[z].height <= w.u[f].height
    ensures Fork(w.u, w.g, tip, x) == f
  {
    ForkIsHighest(w.u, w.g, tip, x, f);
  }

  /** A branch has one block at each height. */
  lemma BranchHeights(w: World, x: Hash)
    requires w.IsTree() && x in w.u
    ensures OnBranch(w.u, w.g, x, x)
    ensures forall y | OnBranch(w.u, w.g, x, y) :: w.u[y].height <= w.u[x].height
    ensures forall y, z | OnBranch(w.u, w.g, x, y) && OnBranch(w.u, w.g, x, z) && w.u[y].height == w.u[z].height ::
      y == z
  {
    AncestorStep(w.u, w.g, x);
  }

  /** What is followed after one offer. */
  ghost function Next(w: World, p: Point, o: Offer): (p': Point)
    requires At(w, p) && Offered(w.u, o)
    ensures At(w, p')
  {
    if Accepts(w, p, o) then Point(o.block.hash, Renewed(w, p, o.block.hash)) else p
  }

  /** Where following starts. */
  ghost function Start(w: World): (p: Point)
    requires w.Sound()
    ensures At(w, p)
  {
    Point(w.g, [])
  }

  /** The point after the first n offers, starting at s. */
  ghost function After(w: World, s: Point, offers: seq<Offer>, n: nat): (p: Point)
    requires At(w, s) && n <= |offers| && AllOffered(w, offers)
    ensures At(w, p)
  {
    if n == 0 then s else Next(w, After(w, s, offers, n - 1), offers[n - 1])
  }

  /** The synced heights and hashes when x is followed. */
  ghost function Synced(w: World, x: Hash): map<nat, Hash>
    requires w.IsTree() && x in w.u
  {
    map k: nat | 0 <= k <= w.u[x].height :: Ancestor(w.u, w.g, x, k)
  }

  lemma {:induction false} AncestorChain(w: World, x: Hash, k: nat)
    requires w.IsTree() && x in w.u && k <= w.u[x].height
    ensures var y := Ancestor(w.u, w.g, x, k);
      y in w.u && w.u[y].height == k && (k == 0 ==> y == w.g) &&
      (k > 0 ==> w.u[y].prev == Ancestor(w.u, w.g, x, k - 1))
    decreases w.u[x].height
  {
    if k < w.u[x].height {
      AncestorChain(w, w.u[x].prev, k);
    } else if k > 0 {
      AncestorStep(w.u, w.g, w.u[x].prev);
    }
  }

  /** The heights stored lead from genesis to x, each block building on the one below it. */
  ghost predicate ChainTo(w: World, m: map<nat, Hash>, x: Hash)
    requires x in w.u
  {
    (forall k: nat :: k in m <==> k <= w.u[x].height) && m[0] == w.g && m[w.u[x].height] == x &&
    (forall k <- m :: m[k] in w.u && w.u[m[k]].height == k) &&
    forall k: nat | 0 < k <= w.u[x].height :: w.u[m[k]].prev == m[k - 1]
  }

  lemma SyncedIsChain(w: World, x: Hash)
    requires w.IsTree() && x in w.u
    ensures ChainTo(w, Synced(w, x), x)
  {
    hide Ancestor;
    AncestorStep(w.u, w.g, x);
    var m := Synced(w, x);
    forall k: nat | k <= w.u[x].height
      ensures m[k] in w.u && w.u[m[k]].height == k && (k == 0 ==> m[k] == w.g) && (k > 0 ==> w.u[m[k]].prev == m[k - 1])
    {
      AncestorChain(w, x, k);
    }
    assert m[0] == w.g;
  }

  // ---------- walking down the two branches ----------

  /** From x on a branch at or above z, the blocks of the branch up to the height of z are those of z. */
  lemma BelowIs(w: World, x: Hash, z: Hash)
    requires w.IsTree() && x in w.u && OnBranch(w.u, w.g, x, z)
    ensures forall y <- w.u | w.u[y].height <= w.u[z].height :: OnBranch(w.u, w.g, x, y) <==> OnBranch(w.u, w.g, z, y)
  {
    forall y <- w.u | w.u[y].height <= w.u[z].height
      ensures OnBranch(w.u, w.g, x, y) <==> OnBranch(w.u, w.g, z, y)
    {
      AncestorVia(w.u, w.g, x, z, w.u[y].height);
    }
  }

  lemma ClearSplit(w: World, tip: Hash, ks: seq<set<Hash>>, t: Hash, lo: nat)
    requires w.IsTree() && tip in w.u && |ks| == w.u[tip].height && OnBranch(w.u, w.g, tip, t) && lo <= w.u[t].height
    ensures Clear(w, tip, ks, lo) <==> Clear(w, tip, ks, w.u[t].height) && Clear(w, t, ks[..w.u[t].height], lo)
  {
    BelowIs(w, tip, t);
    hide Stuck, OnBranch, Rooted;
    forall y <- w.u | w.u[y].height <= w.u[t].height
      ensures ks[..w.u[t].height][..w.u[y].height] == ks[..w.u[y].height] { }
  }

  lemma FetchedSplit(w: World, x: Hash, fetch: map<Hash, Block>, z: Hash, lo: nat)
    requires w.IsTree() && x in w.u && OnBranch(w.u, w.g, x, z) && lo <= w.u[z].height
    ensures Fetched(w, x, fetch, lo, w.u[x].height) <==>
            Fetched(w, x, fetch, w.u[z].height, w.u[x].height) && Fetched(w, z, fetch, lo, w.u[z].height)
  {
    BelowIs(w, x, z);
    hide OnBranch;
  }

  /** Below x, the block to fetch first is its parent. */
  lemma FetchedStep(w: World, x: Hash, fetch: map<Hash, Block>, lo: nat)
    requires w.IsTree() && x in w.u && lo < w.u[x].height
    ensures Fetched(w, x, fetch, lo, w.u[x].height) <==>
            w.u[x].prev in fetch && Fetched(w, w.u[x].prev, fetch, lo, w.u[x].height - 1)
  {
    AncestorStep(w.u, w.g, x);
    AncestorStep(w.u, w.g, w.u[x].prev);
    BelowIs(w, x, w.u[x].prev);
    assert forall y <- w.u | OnBranch(w.u, w.g, x, y) && w.u[y].height == w.u[x].height - 1 :: y == w.u[x].prev;
    hide OnBranch;
  }

  lemma AllCurrentStep(w: World, x: Hash, locs: map<nat, Hash>, y: Hash)
    requires w.IsTree() && x in w.u && OnBranch(w.u, w.g, x, y) && y != w.g
    ensures AllCurrent(w, x, locs, w.u[y].height - 1) <==>
            w.u[y].height in locs && locs[w.u[y].height] == y && AllCurrent(w, x, locs, w.u[y].height)
  {
    assert forall z <- w.u | OnBranch(w.u, w.g, x, z) && w.u[z].height == w.u[y].height :: z == y;
    hide OnBranch;
  }

  /** What a reorganisation does to the branches of tip and x: bring both to one height, at t and z, and if these
      differ walk on to the fork point. */
  lemma ForkOfBoth(w: World, tip: Hash, x: Hash, t: Hash, z: Hash)
    requires w.IsTree() && tip in w.u && x in w.u && OnBranch(w.u, w.g, tip, t) && OnBranch(w.u, w.g, x, z)
    requires w.u[t].height == w.u[z].height
    requires w.u[z].height == if w.u[tip].height <= w.u[x].height then w.u[tip].height else w.u[x].height
    ensures Fork(w.u, w.g, tip, x) == Fork(w.u, w.g, t, z)
  {
    AncestorStep(w.u, w.g, tip);
    AncestorStep(w.u, w.g, x);
    if w.u[tip].height <= w.u[x].height {
      ForkSecond(w.u, w.g, tip, x, z);
    } else {
      ForkFirst(w.u, w.g, tip, t, x);
    }
  }

  lemma FetchedWhole(w: World, tip: Hash, x: Hash, t: Hash, z: Hash, fetch: map<Hash, Block>)
    requires w.IsTree() && tip in w.u && x in w.u && OnBranch(w.u, w.g, tip, t) && OnBranch(w.u, w.g, x, z)
    requires w.u[t].height == w.u[z].height
    requires w.u[z].height == if w.u[tip].height <= w.u[x].height then w.u[tip].height else w.u[x].height
    ensures Fetched(w, x, fetch, FetchFrom(w, tip, x), w.u[x].height) <==>
            Fetched(w, x, fetch, w.u[tip].height, w.u[x].height) &&
            (t != z ==> Fetched(w, z, fetch, ForkHeight(w, tip, x) + 1, w.u[z].height))
  {
    ForkOfBoth(w, tip, x, t, z);
    var n := ForkHeight(w, tip, x);
    if t == z {
      ForkSelf(w.u, w.g, t, z);
    } else {
      ForkParents(w.u, w.g, t, z);
      if w.u[tip].height <= w.u[x].height {
        FetchedSplit(w, x, fetch, z, n + 1);
      } else {
        AncestorStep(w.u, w.g, x);
      }
    }
  }

  // ---------- when the ledger is the replay ----------

  ghost predicate Replays(w: World, p: Point)
    requires At(w, p)
  {
    Trace(w, p.tip, p.known) == Replay(w, p.tip)
  }

  /** The call that connects x overlooks nothing: no block it connects spends a coin that a transaction in an earlier
      block of the same call pays, unless that transaction had a credit before the call. */
  ghost predicate SightedFrom(w: World, tip: Hash, x: Hash)
    requires w.IsTree() && tip in w.u && x in w.u
  {
    Sighted(w, Fork(w.u, w.g, tip, x), x, Credited(w, tip))
  }

  /** The transactions with credits grow along a branch, by those that pay a ready wallet. */
  lemma {:induction false} CreditedAbove(w: World, f: Hash, x: Hash, h: Hash)
    requires w.IsTree() && x in w.u && OnBranch(w.u, w.g, x, f)
    ensures h in Credited(w, x) <==>
      (h in Credited(w, f) || exists z <- w.u ::
         OnBranch(w.u, w.g, x, z) && w.u[z].height > w.u[f].height && h in Payers(w.env, w.u[z].txs))
    decreases w.u[x].height
  {
    hide Payers;
    AncestorStep(w.u, w.g, x);
    if x != f {
      var p := w.u[x].prev;
      CreditedAbove(w, f, p, h);
      forall z <- w.u ensures OnBranch(w.u, w.g, x, z) <==> z == x || OnBranch(w.u, w.g, p, z) { }
    }
  }

  /** What a call overlooks is a coin of a transaction in an earlier block that the call itself connects. */
  lemma OverlookedWithin(w: World, tip: Hash, x: Hash, y: Hash, j: nat, i: nat)
    requires w.IsTree() && tip in w.u && x in w.u && y in w.u && OnBranch(w.u, w.g, x, y)
    requires w.u[y].height > ForkHeight(w, tip, x)
    requires OverlookedAt(w.env, Credited(w, tip), Credited(w, w.u[y].prev), w.u[y].txs, j, i)
    ensures exists z <- w.u ::
      OnBranch(w.u, w.g, x, z) && ForkHeight(w, tip, x) < w.u[z].height < w.u[y].height &&
      w.u[y].txs[j].ins[i].prev.hash in Payers(w.env, w.u[z].txs)
  {
    hide Payers, Credited;
    var f, h := Fork(w.u, w.g, tip, x), w.u[y].txs[j].ins[i].prev.hash;
    CreditedAbove(w, f, tip, h);
    AncestorVia(w.u, w.g, x, y, w.u[f].height);
    var p := w.u[y].prev;
    BranchPrev(w.u, w.g, x, y);
    AncestorVia(w.u, w.g, x, p, w.u[f].height);
    CreditedAbove(w, f, p, h);
    var z :| z in w.u && OnBranch(w.u, w.g, p, z) && w.u[z].height > w.u[f].height && h in Payers(w.env, w.u[z].txs);
    BranchTrans(w.u, w.g, x, p, z);
  }

  /** A block that extends the tip is always seen in full: every coin stored is known. */
  lemma ExtensionIsSighted(w: World, tip: Hash, x: Hash)
    requires w.IsTree() && tip in w.u && x in w.u && x != w.g && w.u[x].prev == tip
    ensures SightedFrom(w, tip, x)
  {
    ForkSelf(w.u, w.g, tip, x);
    SightedStep(w, tip, x, Credited(w, tip));
    SightedStep(w, tip, tip, Credited(w, tip));
  }

  /** Undoing a block that can be undone keeps a trace the replay. */
  lemma ReplayParent(w: World, x: Hash, ks: seq<set<Hash>>)
    requires w.Sound() && x in w.u && x != w.g && |ks| == w.u[x].height && Trace(w, x, ks).Some?
    requires Trace(w, x, ks) == Replay(w, x) && !Stuck(w, x, ks)
    ensures Trace(w, w.u[x].prev, ks[..|ks| - 1]) == Replay(w, w.u[x].prev)
  {
    hide Good, TxsUnique, Stuck, RollbackTo, Trace, Credited;
    var own := Stepwise(w, x);
    TraceUndo(w, x, ks);
    TraceUndo(w, x, own);
    assert own[..|own| - 1] == Stepwise(w, w.u[x].prev);
  }

  lemma TraceParent(w: World, x: Hash, ks: seq<set<Hash>>)
    requires w.IsTree() && x in w.u && x != w.g && |ks| == w.u[x].height && Trace(w, x, ks).Some?
    ensures Trace(w, w.u[x].prev, ks[..|ks| - 1]).Some?
  {
    hide ConnectBlock;
  }

  /** Walking down a branch that can be undone keeps a trace the replay. */
  lemma {:induction false} ReplayBelow(w: World, x: Hash, ks: seq<set<Hash>>, f: Hash)
    requires w.Sound() && x in w.u && OnBranch(w.u, w.g, x, f) && |ks| == w.u[x].height && Trace(w, x, ks).Some?
    requires Trace(w, x, ks) == Replay(w, x) && Clear(w, x, ks, w.u[f].height)
    ensures Trace(w, f, ks[..w.u[f].height]) == Replay(w, f)
    decreases w.u[x].height
  {
    hide Good, TxsUnique, Stuck, Trace, Replay, Clear;
    if x == f {
      assert ks[..|ks|] == ks;
    } else {
      var n := |ks| - 1;
      ClearBelow(w, x, ks, w.u[f].height);
      ReplayParent(w, x, ks);
      TraceParent(w, x, ks);
      ReplayBelow(w, w.u[x].prev, ks[..n], f);
      assert ks[..n][..w.u[f].height] == ks[..w.u[f].height];
    }
  }

  /** The branch is clear exactly if its tip is not stuck and the rest is clear. */
  lemma ClearBelow(w: World, x: Hash, ks: seq<set<Hash>>, lo: nat)
    requires w.IsTree() && x in w.u && |ks| == w.u[x].height > lo
    ensures Clear(w, x, ks, lo) <==> !Stuck(w, x, ks) && Clear(w, w.u[x].prev, ks[..|ks| - 1], lo)
  {
    hide Stuck;
    var p := w.u[x].prev;
    AncestorStep(w.u, w.g, x);
    assert ks[..|ks|] == ks;
    forall y <- w.u ensures OnBranch(w.u, w.g, x, y) <==> y == x || OnBranch(w.u, w.g, p, y) { }
    forall y <- w.u | OnBranch(w.u, w.g, p, y) ensures ks[..|ks| - 1][..w.u[y].height] == ks[..w.u[y].height] { }
  }

  /** One accepted offer keeps the ledger the replay of its tip exactly if it overlooks nothing. */
  lemma NextReplays(w: World, p: Point, o: Offer)
    requires At(w, p) && Offered(w.u, o) && Accepts(w, p, o) && Replays(w, p)
    ensures Replays(w, Next(w, p, o)) <==> SightedFrom(w, p.tip, o.block.hash)
  {
    hide Good, Trace, Replay, TxsUnique, Clear, AllCurrent, Fetched, Sighted, Credited;
    var x := o.block.hash;
    var f, ks := Fork(w.u, w.g, p.tip, x), Renewed(w, p, x);
    ReplayBelow(w, p.tip, p.known, f);
    assert ks[..w.u[f].height] == p.known[..w.u[f].height];
    var _ := ReplayIff(w, f, x, ks, Credited(w, p.tip));
  }

  /** Offer i is accepted. */
  ghost predicate AcceptedAt(w: World, s: Point, offers: seq<Offer>, i: nat)
    requires At(w, s) && i < |offers| && AllOffered(w, offers)
  {
    Accepts(w, After(w, s, offers, i), offers[i])
  }

  /** If offer i is accepted, the call overlooks nothing. */
  ghost predicate SightedAt(w: World, s: Point, offers: seq<Offer>, i: nat)
    requires At(w, s) && i < |offers| && AllOffered(w, offers)
  {
    var p, o := After(w, s, offers, i), offers[i];
    Accepts(w, p, o) ==> SightedFrom(w, p.tip, o.block.hash)
  }

  /** Every accepted one of the first n offers overlooked nothing. */
  ghost predicate AllSighted(w: World, s: Point, offers: seq<Offer>, n: nat)
    requires At(w, s) && n <= |offers| && AllOffered(w, offers)
  {
    forall i: nat | i < n :: SightedAt(w, s, offers, i)
  }

  ghost predicate ReplaysAt(w: World, s: Point, offers: seq<Offer>, i: nat)
    requires At(w, s) && i <= |offers| && AllOffered(w, offers)
  {
    Replays(w, After(w, s, offers, i))
  }

  /** The ledger was the replay of its tip after each of the first n offers. */
  ghost predicate AlwaysReplays(w: World, s: Point, offers: seq<Offer>, n: nat)
    requires At(w, s) && n <= |offers| && AllOffered(w, offers)
  {
    forall i: nat | i <= n :: ReplaysAt(w, s, offers, i)
  }

  lemma StartReplays(w: World, s: Point, offers: seq<Offer>)
    requires At(w, s) && AllOffered(w, offers) && Replays(w, s)
    ensures ReplaysAt(w, s, offers, 0)
  {
  }

  /** Over any run from such a point, genesis for one, the ledger is at all times that of connecting the path to the
      tip once, in order, exactly if no accepted offer overlooks anything. */
  lemma {:induction false} RunReplays(w: World, s: Point, offers: seq<Offer>, n: nat)
    requires At(w, s) && Replays(w, s) && n <= |offers| && AllOffered(w, offers)
    ensures AlwaysReplays(w, s, offers, n) <==> AllSighted(w, s, offers, n)
  {
    hide SightedAt, ReplaysAt, Replays, After, At, AllOffered, Universe, Good;
    StartReplays(w, s, offers);
    if n > 0 {
      RunReplays(w, s, offers, n - 1);
      if ReplaysAt(w, s, offers, n - 1) {
        OneReplays(w, s, offers, n - 1);
      }
    }
  }

  lemma OneReplays(w: World, s: Point, offers: seq<Offer>, i: nat)
    requires At(w, s) && i < |offers| && AllOffered(w, offers) && ReplaysAt(w, s, offers, i)
    ensures ReplaysAt(w, s, offers, i + 1) <==> SightedAt(w, s, offers, i)
  {
    hide Good, Trace, Replay, TxsUnique, Accepts, SightedFrom, Replays, Offered;
    var p, o := After(w, s, offers, i), offers[i];
    if Accepts(w, p, o) {
      NextReplays(w, p, o);
    }
  }

  /** Path independence: two runs from genesis that overlook nothing and end at the same tip leave the same buckets,
      those of connecting the path to it once, in order. */
  lemma PathIndependence(w: World, offers: seq<Offer>, others: seq<Offer>)
    requires w.Sound() && AllOffered(w, offers) && AllOffered(w, others)
    requires AllSighted(w, Start(w), offers, |offers|) && AllSighted(w, Start(w), others, |others|)
    ensures var p, q := After(w, Start(w), offers, |offers|), After(w, Start(w), others, |others|);
      Replay(w, p.tip) == Some(LedgerAt(w, p)) && (p.tip == q.tip ==> LedgerAt(w, p) == LedgerAt(w, q))
  {
    hide Good, Trace, Replay, TxsUnique, AllSighted, Start, After;
    GenesisReplays(w);
    RunReplays(w, Start(w), offers, |offers|);
    RunReplays(w, Start(w), others, |others|);
    assert ReplaysAt(w, Start(w), offers, |offers|) && ReplaysAt(w, Start(w), others, |others|);
  }

  lemma GenesisReplays(w: World)
    requires w.Sound()
    ensures Replays(w, Start(w))
  {
  }

  // ---------- offering a path in order ----------

  /** The blocks on the path to x offered in order, each while the chain database's best chain holds it. */
  ghost predicate InOrder(w: World, x: Hash, offers: seq<Offer>)
    requires w.IsTree() && x in w.u
  {
    |offers| == w.u[x].height &&
    forall i | 0 <= i < |offers| ::
      offers[i].block == Path(w.u, w.g, x)[i] && Current(offers[i].block, offers[i].locs)
  }

  /** A block that extends the tip is accepted exactly if it is current and connects. */
  lemma AcceptsNext(w: World, p: Point, o: Offer)
    requires At(w, p) && Offered(w.u, o) && o.block.hash != w.g && o.block.prev == p.tip
    ensures Renewed(w, p, o.block.hash) == p.known + [Credited(w, p.tip)]
    ensures Accepts(w, p, o) <==>
      Current(o.block, o.locs) && Trace(w, o.block.hash, p.known + [Credited(w, p.tip)]).Some?
  {
    hide Good, Trace, TxsUnique, Credited, Stuck;
    var x := o.block.hash;
    ForkSelf(w.u, w.g, p.tip, x);
    AncestorStep(w.u, w.g, x);
    assert p.known[..|p.known|] == p.known;
    assert Clear(w, p.tip, p.known, w.u[p.tip].height);
    assert AllCurrent(w, x, o.locs, w.u[p.tip].height) <==> Current(o.block, o.locs);
  }

  lemma {:induction false} AfterPrefix(w: World, s: Point, offers: seq<Offer>, k: nat, n: nat)
    requires At(w, s) && n <= k <= |offers| && AllOffered(w, offers)
    ensures AllOffered(w, offers[..k]) && After(w, s, offers[..k], n) == After(w, s, offers, n)
    ensures n < k ==> (AcceptedAt(w, s, offers[..k], n) <==> AcceptedAt(w, s, offers, n))
  {
    hide At, Universe, Good, Next, Offered;
    if n > 0 {
      AfterPrefix(w, s, offers, k, n - 1);
    }
  }

  /** A chain that replays is accepted block by block when it is offered in order, and its replay is what results. */
  lemma {:induction false} InOrderAccepted(w: World, x: Hash, offers: seq<Offer>)
    requires w.Sound() && x in w.u && AllOffered(w, offers) && InOrder(w, x, offers) && Replay(w, x).Some?
    ensures After(w, Start(w), offers, |offers|) == Point(x, Stepwise(w, x))
    ensures forall i: nat | i < |offers| :: AcceptedAt(w, Start(w), offers, i)
    decreases w.u[x].height
  {
    hide At, TxsUnique, Good, After, Replay, AllOffered, AcceptedAt, InOrder;
    InOrderLast(w, x, offers);
    if x == w.g {
      StartStepwise(w, Start(w), offers);
    } else {
      var n := |offers| - 1;
      InOrderReplays(w, x);
      AfterPrefix(w, Start(w), offers, n, n);
      InOrderAccepted(w, w.u[x].prev, offers[..n]);
      InOrderNext(w, x, offers);
      forall i: nat | i < n ensures AcceptedAt(w, Start(w), offers, i) {
        AfterPrefix(w, Start(w), offers, n, i);
      }
    }
  }

  lemma InOrderReplays(w: World, x: Hash)
    requires w.Sound() && x in w.u && x != w.g && Replay(w, x).Some?
    ensures Replay(w, w.u[x].prev).Some?
  {
    hide Good, TxsUnique, ConnectBlock, Replay;
    ReplayStep(w, x);
  }

  lemma StartStepwise(w: World, s: Point, offers: seq<Offer>)
    requires w.Sound() && AllOffered(w, offers)
    ensures After(w, Start(w), offers, 0) == Point(w.g, Stepwise(w, w.g))
  {
  }

  lemma InOrderNext(w: World, x: Hash, offers: seq<Offer>)
    requires w.Sound() && x in w.u && x != w.g && AllOffered(w, offers) && Replay(w, x).Some?
    requires |offers| == w.u[x].height
    requires var p, o := w.u[x].prev, offers[|offers| - 1];
      After(w, Start(w), offers, |offers| - 1) == Point(p, Stepwise(w, p)) &&
      o.block == w.u[x] && Current(w.u[x], o.locs)
    ensures AcceptedAt(w, Start(w), offers, |offers| - 1)
    ensures After(w, Start(w), offers, |offers|) == Point(x, Stepwise(w, x))
  {
    hide Good, Trace, TxsUnique, Credited, Accepts, Offered;
    AcceptsNext(w, After(w, Start(w), offers, |offers| - 1), offers[|offers| - 1]);
  }

  lemma InOrderLast(w: World, x: Hash, offers: seq<Offer>)
    requires w.IsTree() && x in w.u && InOrder(w, x, offers)
    ensures |offers| == w.u[x].height
    ensures x != w.g ==>
      var n := |offers| - 1;
      offers[n].block == w.u[x] && Current(w.u[x], offers[n].locs) && InOrder(w, w.u[x].prev, offers[..n])
  {
    if x != w.g {
      var n := |offers| - 1;
      assert Path(w.u, w.g, x)[..n] == Path(w.u, w.g, w.u[x].prev);
    }
  }

  // ---------- two routes to one tip ----------

  const PASS: Tx := Tx(52, false, [TxIn(OutPoint(50, 0), Some(1))], [])
  const GENESIS: Block := Block(99, 98, 0, [])
  const PAID: Block := Block(100, 99, 1, [COIN])
  const SPENT: Block := Block(101, 100, 2, [PASS])
  const OTHER: Block := Block(102, 99, 1, [])
  const BLOCKS: map<Hash, Block> := map[99 := GENESIS, 100 := PAID, 101 := SPENT, 102 := OTHER]
  const FORKED: World := World(TIGHT, BLOCKS, 99, EMPTY)
  const CHAIN: map<nat, Hash> := map[1 := 100, 2 := 101]
  const NONE: set<Hash> := {}
  const DETOUR: seq<Offer> := [Offer(OTHER, BLOCKS, map[1 := 102]), Offer(SPENT, BLOCKS, CHAIN)]
  const STRAIGHT: seq<Offer> := [Offer(PAID, BLOCKS, CHAIN), Offer(SPENT, BLOCKS, CHAIN)]

  lemma ForkedIsTree()
    ensures FORKED.IsTree()
  {
  }

  lemma ForkedFollows()
    ensures FORKED.Sound()
  {
    ForkedIsTree();
    TightIsGood();
    hide Good;
    var u := BLOCKS;
    assert Seen(u, 99, 99) == {};
    assert HashSet([COIN]) == {50} by { assert COIN in [COIN]; }
    assert HashSet([PASS]) == {52} by { assert PASS in [PASS]; }
    assert Seen(u, 99, 100) == {50};
    assert HashSet([]) == {};
  }

  lemma NoCredits()
    ensures FORKED.IsTree() && Credited(FORKED, 99) == Credited(FORKED, 102) == {} && Credited(FORKED, 100) == {50}
    ensures Stepwise(FORKED, 101) == [NONE, {50}]
  {
    assert RelOut(TIGHT, COIN, 0) && COIN in [COIN];
    assert Payers(TIGHT, [COIN]) == {50};
    assert Payers(TIGHT, []) == {};
    assert CreditHashes(EMPTY.b.credits) == {};
    hide Credited, Payers;
    assert Stepwise(FORKED, 100) == [Credited(FORKED, 99)];
    assert Stepwise(FORKED, 101) == [Credited(FORKED, 99)] + [Credited(FORKED, 100)];
  }

  /** The block with the coin, however looked at. */
  lemma PaidTrace(known: set<Hash>) returns (m: Ledger)
    ensures FORKED.IsTree() && Trace(FORKED, 100, [known]) == Some(m)
    ensures var op, blk := OutPoint(50, 0), PAID.Id();
      m.b == Buckets(map[CreditKey(op, blk) := Credit(10, 1, None)], map[], map[UnspentKey(7, op) := blk]) &&
      m.balances == map[7 := 10] && m.txs.Keys == {TxKey(50, blk)}
  {
    m := CoinConnects();
    hide ConnectTx;
    var txs := Sights(TIGHT, known, [COIN]);
    assert txs[0].ins == COIN.ins;
    assert txs == [COIN];
    assert RelOut(TIGHT, COIN, 0);
    assert RelevantTxs(TIGHT, txs, 0) == [];
    assert RelevantTxs(TIGHT, txs, 1) == [COIN];
    assert ConnectTxs(TIGHT, EMPTY, [COIN], PAID.Id(), 0) == Some(EMPTY);
    TraceStep(FORKED, 100, [], known);
    assert [] + [known] == [known];
  }

  lemma PassHash()
    ensures HashSet([PASS][..1]) == {52}
  {
    assert [PASS][..1] == [PASS] && PASS in [PASS];
  }

  /** Without the coin known, the transaction that spends it is not relevant. */
  lemma DetourTrace() returns (m: Ledger)
    ensures FORKED.IsTree() && Trace(FORKED, 101, [NONE, NONE]) == Some(m) && m.balances == map[7 := 10]
  {
    m := PaidTrace({});
    hide ConnectTx, Trace;
    var txs := Sights(TIGHT, {}, [PASS]);
    PassHash();
    assert txs[0] == Sight(TIGHT, {} + HashSet([PASS][..1]), PASS);
    assert Passed(TIGHT, {52}, PASS, 0);
    assert !Relevant(TIGHT, txs[0]);
    assert RelevantTxs(TIGHT, txs, 0) == [];
    assert RelevantTxs(TIGHT, txs, 1) == [];
    TraceStep(FORKED, 101, [NONE], {});
    assert [NONE] + [NONE] == [NONE, NONE];
  }

  lemma PassConnects(p: Ledger) returns (m: Ledger)
    requires var op, blk := OutPoint(50, 0), PAID.Id();
      p.b == Buckets(map[CreditKey(op, blk) := Credit(10, 1, None)], map[], map[UnspentKey(7, op) := blk]) &&
      p.balances == map[7 := 10] && p.txs.Keys == {TxKey(50, blk)}
    ensures ConnectTx(TIGHT, p, PASS, SPENT.Id()) == Some(m) && m.balances == map[7 := 0]
  {
    var blk := SPENT.Id();
    var r := Record(p, PASS, blk);
    assert RelIn(TIGHT, PASS, 0);
    assert SpendAll(TIGHT, r, PASS, blk, 0) == Some(r);
    assert SpendAll(TIGHT, r, PASS, blk, 1) == Spend(TIGHT, r, PASS, blk, 0);
    m := Spend(TIGHT, r, PASS, blk, 0).value;
    assert AddCredits(TIGHT, m, PASS, blk, 0) == Some(m);
  }

  lemma PassSeen()
    ensures Sights(TIGHT, {50}, [PASS]) == [PASS]
  {
    var txs := Sights(TIGHT, {50}, [PASS]);
    assert txs[0] == Sight(TIGHT, {50} + HashSet([PASS][..1]), PASS);
    assert txs[0].ins == PASS.ins;
  }

  /** With the coin known, it is spent. */
  lemma StraightTrace() returns (m: Ledger)
    ensures FORKED.IsTree() && Trace(FORKED, 101, [NONE, {50}]) == Some(m) && m.balances == map[7 := 0]
  {
    var p := PaidTrace(NONE);
    m := PassConnects(p);
    hide ConnectTx, Trace;
    PassSeen();
    var txs := [PASS];
    assert RelIn(TIGHT, PASS, 0);
    assert RelevantTxs(TIGHT, txs, 0) == [];
    assert RelevantTxs(TIGHT, txs, 1) == [PASS];
    assert ConnectTxs(TIGHT, p, [PASS], SPENT.Id(), 0) == Some(p);
    TraceStep(FORKED, 101, [NONE], {50});
    assert [NONE] + [{50}] == [NONE, {50}];
  }

  lemma ForkedBranches()
    ensures FORKED.IsTree() && Fork(BLOCKS, 99, 102, 101) == 99
    ensures forall y <- BLOCKS :: OnBranch(BLOCKS, 99, 101, y) && BLOCKS[y].height > 0 ==> y in {100, 101}
    ensures forall y <- BLOCKS :: OnBranch(BLOCKS, 99, 102, y) && BLOCKS[y].height > 0 ==> y == 102
  {
    assert Ancestor(BLOCKS, 99, 101, 1) == 100;
  }

  lemma EmptyTrace()
    ensures FORKED.IsTree() && Trace(FORKED, 102, [NONE]) == Some(EMPTY) && !Stuck(FORKED, 102, [NONE])
  {
    TraceStep(FORKED, 102, [], NONE);
    assert [] + [NONE] == [NONE];
    assert Sights(TIGHT, NONE, []) == [];
  }

  /** Following the other branch first: when the block with the spender arrives, both blocks are connected in one
      call, and the spender is passed over. */
  lemma DetourEnds()
    ensures FORKED.Sound() && AllOffered(FORKED, DETOUR)
    ensures var p := After(FORKED, Start(FORKED), DETOUR, 2);
      p == Point(101, [NONE, NONE]) && LedgerAt(FORKED, p).balances == map[7 := 10]
  {
    ForkedFollows();
    NoCredits();
    ForkedBranches();
    EmptyTrace();
    var m := DetourTrace();
    hide Good, Trace, TxsUnique, Credited, OnBranch, Fork;
    var p := Start(FORKED);
    AcceptsNext(FORKED, p, DETOUR[0]);
    assert [] + [NONE] == [NONE];
    assert After(FORKED, p, DETOUR, 1) == Point(102, [NONE]);
    var q := Point(102, [NONE]);
    assert Renewed(FORKED, q, 101) == [NONE, NONE];
    assert [NONE][..1] == [NONE];
    assert Accepts(FORKED, q, DETOUR[1]);
  }

  lemma StraightEnds()
    ensures FORKED.Sound() && AllOffered(FORKED, STRAIGHT)
    ensures var p := After(FORKED, Start(FORKED), STRAIGHT, 2);
      p == Point(101, [NONE, {50}]) && LedgerAt(FORKED, p).balances == map[7 := 0]
  {
    ForkedFollows();
    NoCredits();
    var m1 := PaidTrace(NONE);
    var m2 := StraightTrace();
    hide Good, Trace, TxsUnique, Credited, OnBranch, Fork;
    var p := Start(FORKED);
    AcceptsNext(FORKED, p, STRAIGHT[0]);
    assert [] + [NONE] == [NONE];
    var q := Point(100, [NONE]);
    assert After(FORKED, p, STRAIGHT, 1) == q;
    AcceptsNext(FORKED, q, STRAIGHT[1]);
    assert [NONE] + [{50}] == [NONE, {50}];
  }

  lemma DetourOverlooks()
    ensures FORKED.IsTree() && !SightedFrom(FORKED, 102, 101)
  {
    NoCredits();
    ForkedBranches();
    assert OverlookedAt(TIGHT, NONE, {50}, SPENT.txs, 0, 0) by {
      PassHash();
      assert RelIn(TIGHT, PASS, 0);
    }
    hide Fork, Credited, OverlookedAt;
    assert OnBranch(BLOCKS, 99, 101, 101);
  }

  /** The ledger can depend on the route. A block pays a wallet 10 and the next spends the coin. Followed one by one
      they leave the wallet nothing. When both are connected in one reorganisation, the wallet keeps its 10. */
  lemma RouteMatters()
    ensures FORKED.Sound() && AllOffered(FORKED, DETOUR) && AllOffered(FORKED, STRAIGHT)
    ensures var p, q := After(FORKED, Start(FORKED), DETOUR, 2), After(FORKED, Start(FORKED), STRAIGHT, 2);
      p.tip == q.tip && LedgerAt(FORKED, p).balances == map[7 := 10] && LedgerAt(FORKED, q).balances == map[7 := 0]
    ensures !SightedFrom(FORKED, 102, 101)
  {
    hide *;
    DetourEnds();
    StraightEnds();
    DetourOverlooks();
  }
}
