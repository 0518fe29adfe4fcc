/** All blocks there are, and the ledger that connecting the path from genesis to one of them gives. */
module ChainTree {
  import opened Wrappers
  import opened Ledger
  import opened LedgerInvariant
  import opened LedgerChain
  import opened LedgerHeadroom
  import opened Sighting

  /** A block hash determines the block and through `prev` its ancestry; heights count from genesis. */
  ghost predicate Rooted(u: map<Hash, Block>, g: Hash) {
    g in u && u[g].height == 0 && u[g].prev !in u &&
    forall x <- u ::
      u[x].hash == x && (x != g ==> u[x].prev in u && u[x].height == u[u[x].prev].height + 1)
  }

  /** The ancestor of x at height k. */
  ghost function Ancestor(u: map<Hash, Block>, g: Hash, x: Hash, k: nat): Hash
    requires Rooted(u, g) && x in u && k <= u[x].height
    decreases u[x].height
  {
    if u[x].height == k then x else Ancestor(u, g, u[x].prev, k)
  }

  lemma AncestorStep(u: map<Hash, Block>, g: Hash, x: Hash)
    requires Rooted(u, g) && x in u
    ensures Ancestor(u, g, x, u[x].height) == x
    ensures x != g ==> forall k: nat | k <= u[u[x].prev].height :: Ancestor(u, g, x, k) == Ancestor(u, g, u[x].prev, k)
  {
  }

  /** y is x or an ancestor of x. */
  ghost predicate OnBranch(u: map<Hash, Block>, g: Hash, x: Hash, y: Hash)
    requires Rooted(u, g) && x in u
  {
    y in u && u[y].height <= u[x].height && Ancestor(u, g, x, u[y].height) == y
  }

  lemma {:induction false} BranchPrev(u: map<Hash, Block>, g: Hash, x: Hash, y: Hash)
    requires Rooted(u, g) && x in u && OnBranch(u, g, x, y) && y != g
    ensures OnBranch(u, g, x, u[y].prev) && u[y].prev != x
    decreases u[x].height
  {
    if x == y {
      AncestorStep(u, g, u[x].prev);
    } else {
      BranchPrev(u, g, u[x].prev, y);
    }
  }

  lemma {:induction false} BranchTrans(u: map<Hash, Block>, g: Hash, x: Hash, y: Hash, z: Hash)
    requires Rooted(u, g) && x in u && OnBranch(u, g, x, y) && OnBranch(u, g, y, z)
    ensures OnBranch(u, g, x, z)
    decreases u[x].height
  {
    if x != y {
      BranchTrans(u, g, u[x].prev, y, z);
    }
  }

  lemma {:induction false} AncestorVia(u: map<Hash, Block>, g: Hash, x: Hash, y: Hash, k: nat)
    requires Rooted(u, g) && x in u && OnBranch(u, g, x, y) && k <= u[y].height
    ensures Ancestor(u, g, x, k) == Ancestor(u, g, y, k)
    decreases u[x].height
  {
    if x != y {
      AncestorVia(u, g, u[x].prev, y, k);
    }
  }

  lemma {:induction false} GenesisOnBranch(u: map<Hash, Block>, g: Hash, x: Hash)
    requires Rooted(u, g) && x in u
    ensures OnBranch(u, g, x, g)
    decreases u[x].height
  {
    if x != g {
      GenesisOnBranch(u, g, u[x].prev);
    }
  }

  // ---------- the fork point of two branches ----------

  /** The highest block on both branches. */
  ghost function Fork(u: map<Hash, Block>, g: Hash, x: Hash, y: Hash): (f: Hash)
    requires Rooted(u, g) && x in u && y in u
    ensures f in u && OnBranch(u, g, x, f) && OnBranch(u, g, y, f)
    decreases u[y].height
  {
    GenesisOnBranch(u, g, x);
    AncestorStep(u, g, y);
    if OnBranch(u, g, x, y) then y else Fork(u, g, x, u[y].prev)
  }

  /** No block above the fork point is on both branches. */
  lemma {:induction false} ForkIsHighest(u: map<Hash, Block>, g: Hash, x: Hash, y: Hash, z: Hash)
    requires Rooted(u, g) && x in u && y in u && OnBranch(u, g, x, z) && OnBranch(u, g, y, z)
    ensures u[z].height <= u[Fork(u, g, x, y)].height
    decreases u[y].height
  {
    GenesisOnBranch(u, g, x);
    if !OnBranch(u, g, x, y) {
      ForkIsHighest(u, g, x, u[y].prev, z);
    }
  }

  /** Walking the first branch down to the height of the other tip does not move the fork point. */
  lemma {:induction false} ForkFirst(u: map<Hash, Block>, g: Hash, x: Hash, x': Hash, y: Hash)
    requires Rooted(u, g) && x in u && y in u && OnBranch(u, g, x, x') && u[y].height <= u[x'].height
    ensures Fork(u, g, x, y) == Fork(u, g, x', y)
    decreases u[y].height
  {
    GenesisOnBranch(u, g, x);
    AncestorVia(u, g, x, x', u[y].height);
    if !OnBranch(u, g, x, y) {
      ForkFirst(u, g, x, x', u[y].prev);
    }
  }

  /** Nor does walking the second branch down to the height of the first tip. */
  lemma {:induction false} ForkSecond(u: map<Hash, Block>, g: Hash, x: Hash, y: Hash, y': Hash)
    requires Rooted(u, g) && x in u && y in u && OnBranch(u, g, y, y') && u[x].height <= u[y'].height
    ensures Fork(u, g, x, y) == Fork(u, g, x, y')
    decreases u[y].height
  {
    if y != y' {
      ForkSecond(u, g, x, u[y].prev, y');
    }
  }

  /** Two different blocks of one height have the fork point of their parents. */
  lemma ForkParents(u: map<Hash, Block>, g: Hash, x: Hash, y: Hash)
    requires Rooted(u, g) && x in u && y in u && u[x].height == u[y].height && x != y
    ensures x != g && y != g && Fork(u, g, x, y) == Fork(u, g, u[x].prev, u[y].prev)
    ensures u[Fork(u, g, x, y)].height < u[x].height
    ensures u[x].prev in u && u[y].prev in u && u[u[x].prev].height == u[u[y].prev].height == u[x].height - 1
  {
    AncestorStep(u, g, x);
    AncestorStep(u, g, u[x].prev);
    ForkFirst(u, g, x, u[x].prev, u[y].prev);
  }

  lemma ForkSelf(u: map<Hash, Block>, g: Hash, x: Hash, y: Hash)
    requires Rooted(u, g) && x in u && y in u && (x == y || (y != g && u[y].prev == x))
    ensures Fork(u, g, x, y) == x
  {
    AncestorStep(u, g, x);
  }

  /** The transaction hashes of the blocks after genesis up to x. */
  ghost function Seen(u: map<Hash, Block>, g: Hash, x: Hash): set<Hash>
    requires Rooted(u, g) && x in u
    decreases u[x].height
  {
    if x == g then {} else Seen(u, g, u[x].prev) + HashSet(u[x].txs)
  }

  /** No transaction of x is on the chain below it, or twice in x. */
  ghost predicate NewTxs(u: map<Hash, Block>, g: Hash, x: Hash)
    requires Rooted(u, g) && x in u && x != g
  {
    Follows(u[x], Seen(u, g, u[x].prev), u[u[x].prev].height)
  }

  /** No transaction hash occurs twice on a chain. */
  ghost predicate TxsUnique(u: map<Hash, Block>, g: Hash)
    requires Rooted(u, g)
  {
    forall x <- u {:trigger NewTxs(u, g, x)} | x != g :: NewTxs(u, g, x)
  }

  ghost predicate Universe(u: map<Hash, Block>, g: Hash) {
    Rooted(u, g) && TxsUnique(u, g)
  }

  lemma FollowsParent(u: map<Hash, Block>, g: Hash, x: Hash)
    requires Universe(u, g) && x in u && x != g
    ensures Follows(u[x], Seen(u, g, u[x].prev), u[u[x].prev].height)
  {
    assert NewTxs(u, g, x);
  }

  // ---------- ledgers along a path ----------

  /** What stays fixed while the chain is followed, with the blocks there are and the ledger at genesis. */
  datatype World = World(env: Env, u: map<Hash, Block>, g: Hash, l0: Ledger)
  {
    ghost predicate IsTree() { Rooted(u, g) }

    ghost predicate Sound() { Universe(u, g) && Good(env, l0, {}, 0) }
  }

  /** Block x as filterBlock sees it when `known` are the transactions with credits. */
  ghost function Seeing(w: World, x: Hash, known: set<Hash>): Block
    requires x in w.u
  {
    w.u[x].(txs := Sights(w.env, known, w.u[x].txs))
  }

  /** The ledger after connecting the path to x, the block at each height with the credits known then. */
  ghost function Trace(w: World, x: Hash, ks: seq<set<Hash>>): Option<Ledger>
    requires w.IsTree() && x in w.u && |ks| == w.u[x].height
    decreases w.u[x].height
  {
    if x == w.g then Some(w.l0)
    else
      match Trace(w, w.u[x].prev, ks[..|ks| - 1])
      case None => None
      case Some(l) => ConnectBlock(w.env, l, Seeing(w, x, ks[|ks| - 1]).txs, w.u[x].Id())
  }

  lemma TraceStep(w: World, x: Hash, ks: seq<set<Hash>>, known: set<Hash>)
    requires w.IsTree() && x in w.u && x != w.g && |ks| == w.u[w.u[x].prev].height
    ensures Trace(w, x, ks + [known]) ==
            match Trace(w, w.u[x].prev, ks)
            case None => None
            case Some(l) => ConnectBlock(w.env, l, Sights(w.env, known, w.u[x].txs), w.u[x].Id())
  {
    hide ConnectBlock;
    assert (ks + [known])[..|ks|] == ks;
  }

  /** The transactions with a credit once x is connected: those that pay a ready wallet. */
  ghost function Credited(w: World, x: Hash): set<Hash>
    requires w.IsTree() && x in w.u
    decreases w.u[x].height
  {
    if x == w.g then CreditHashes(w.l0.b.credits)
    else Credited(w, w.u[x].prev) + Payers(w.env, w.u[x].txs)
  }

  /** Each block of the path to x is connected with the credits of its parent known. */
  ghost function Stepwise(w: World, x: Hash): (ks: seq<set<Hash>>)
    requires w.IsTree() && x in w.u
    ensures |ks| == w.u[x].height
    decreases w.u[x].height
  {
    if x == w.g then [] else Stepwise(w, w.u[x].prev) + [Credited(w, w.u[x].prev)]
  }

  /** The ledger after connecting the path to x once, in order, one block in each database transaction. */
  ghost function Replay(w: World, x: Hash): Option<Ledger>
    requires w.IsTree() && x in w.u
  {
    Trace(w, x, Stepwise(w, x))
  }

  lemma ReplayStep(w: World, x: Hash)
    requires w.IsTree() && x in w.u && x != w.g
    ensures Replay(w, x) ==
            match Replay(w, w.u[x].prev)
            case None => None
            case Some(l) => ConnectBlock(w.env, l, Seeing(w, x, Credited(w, w.u[x].prev)).txs, w.u[x].Id())
  {
    hide ConnectBlock, Credited, Seeing;
    var ks := Stepwise(w, x);
    assert ks[..|ks| - 1] == Stepwise(w, w.u[x].prev);
  }

  lemma SeeingFollows(w: World, x: Hash, known: set<Hash>)
    requires w.Sound() && x in w.u && x != w.g
    ensures var p := w.u[x].prev;
      Follows(w.u[x], Seen(w.u, w.g, p), w.u[p].height) && HashSet(Seeing(w, x, known).txs) == HashSet(w.u[x].txs) &&
      Follows(Seeing(w, x, known), Seen(w.u, w.g, p), w.u[p].height)
  {
    hide Follows, HashSet, Sights;
    FollowsParent(w.u, w.g, x);
    SightsFollow(w.env, known, w.u[x], Seen(w.u, w.g, w.u[x].prev), w.u[w.u[x].prev].height);
  }

  /** Along any trace the ledger is well formed, and which transactions have credits depends on the block alone. */
  lemma {:induction false} TraceGood(w: World, x: Hash, ks: seq<set<Hash>>)
    requires w.Sound() && x in w.u && |ks| == w.u[x].height && Trace(w, x, ks).Some?
    ensures var l := Trace(w, x, ks).value;
      Good(w.env, l, Seen(w.u, w.g, x), w.u[x].height) && l.balances.Keys == w.l0.balances.Keys &&
      CreditHashes(l.b.credits) == Credited(w, x)
    decreases w.u[x].height
  {
    hide Good, ConnectBlock, CreditHashes, Payers, HashSet, Follows, Sights, TxsUnique;
    if x != w.g {
      var p, n := w.u[x].prev, |ks| - 1;
      TraceGood(w, p, ks[..n]);
      SeeingFollows(w, x, ks[n]);
      var l := Trace(w, p, ks[..n]).value;
      ConnectBlockKeeps(w.env, l, Seeing(w, x, ks[n]), Seen(w.u, w.g, p), w.u[p].height);
      BlockHashes(w.env, l, ks[n], w.u[x]);
    }
  }

  /** Ready wallets have stored balances along any trace. */
  lemma ReadyStored(w: World, x: Hash, ks: seq<set<Hash>>)
    requires w.Sound() && x in w.u && |ks| == w.u[x].height && Trace(w, x, ks).Some?
    ensures w.env.ready <= Trace(w, x, ks).value.balances.Keys
  {
    hide Inv, TxsUnique, Trace;
    TraceGood(w, x, ks);
  }

  lemma {:induction false} TraceBelow(w: World, x: Hash, ks: seq<set<Hash>>, y: Hash)
    requires w.IsTree() && x in w.u && |ks| == w.u[x].height && Trace(w, x, ks).Some? && OnBranch(w.u, w.g, x, y)
    ensures Trace(w, y, ks[..w.u[y].height]).Some?
    decreases w.u[x].height
  {
    hide ConnectBlock;
    if x == y {
      assert ks[..|ks|] == ks;
    } else {
      TraceBelow(w, w.u[x].prev, ks[..|ks| - 1], y);
      assert ks[..|ks| - 1][..w.u[y].height] == ks[..w.u[y].height];
    }
  }

  lemma RollbackOne(env: Env, l: Ledger, h: nat)
    ensures RollbackTo(env, l, h, h) == UndoHeight(env, l, h)
  {
    assert RollbackTo(env, l, h, h + 1) == Some(l);
  }

  /** The amounts of block x leave the range when its transactions are undone. */
  ghost predicate Stuck(w: World, x: Hash, ks: seq<set<Hash>>)
    requires w.IsTree() && x in w.u && |ks| == w.u[x].height
  {
    x != w.g &&
    var l := Trace(w, w.u[x].prev, ks[..|ks| - 1]);
    l.Some? && !BlockFits(w.env, l.value, Seeing(w, x, ks[|ks| - 1]))
  }

  /** The tip of a trace can be rolled back exactly if it is not stuck; that gives the trace of its parent. */
  lemma TraceUndo(w: World, x: Hash, ks: seq<set<Hash>>)
    requires w.Sound() && x in w.u && x != w.g && |ks| == w.u[x].height && Trace(w, x, ks).Some?
    ensures var r := RollbackTo(w.env, Trace(w, x, ks).value, w.u[x].height, w.u[x].height);
      (r.Some? <==> !Stuck(w, x, ks)) && (r.Some? ==> r == Trace(w, w.u[x].prev, ks[..|ks| - 1]))
  {
    hide Good, ConnectBlock, UndoHeight, RollbackTo, TxsUnique, Follows, Seen, BlockFits;
    var p, n := w.u[x].prev, |ks| - 1;
    TraceGood(w, p, ks[..n]);
    SeeingFollows(w, x, ks[n]);
    var l, b := Trace(w, p, ks[..n]).value, Seeing(w, x, ks[n]);
    RollbackOne(w.env, Trace(w, x, ks).value, w.u[x].height);
    UndoHeightIff(w.env, l, b, Seen(w.u, w.g, p), w.u[p].height);
    if !Stuck(w, x, ks) {
      UndoConnectBlock(w.env, l, b, Seen(w.u, w.g, p), w.u[p].height);
    }
  }

  // ---------- replay and other traces ----------

  /** Above f, no block up to x spends a coin that `known` hides from filterTx: no relevant input spends from a
      transaction that has a credit by then, is not known to have one, and does not come earlier in the block. */
  ghost predicate Sighted(w: World, f: Hash, x: Hash, known: set<Hash>)
    requires w.IsTree() && x in w.u && f in w.u
  {
    forall y <- w.u | OnBranch(w.u, w.g, x, y) && w.u[y].height > w.u[f].height ::
      !Overlooked(w.env, known, Credited(w, w.u[y].prev), w.u[y].txs)
  }

  lemma SightedStep(w: World, f: Hash, x: Hash, known: set<Hash>)
    requires w.IsTree() && x in w.u && OnBranch(w.u, w.g, x, f)
    ensures if x == f then Sighted(w, f, x, known)
            else Sighted(w, f, x, known) <==> Sighted(w, f, w.u[x].prev, known) &&
                                              !Overlooked(w.env, known, Credited(w, w.u[x].prev), w.u[x].txs)
  {
    hide Overlooked, Credited;
    if x != f {
      var p := w.u[x].prev;
      AncestorStep(w.u, w.g, x);
      forall y <- w.u ensures OnBranch(w.u, w.g, x, y) <==> y == x || OnBranch(w.u, w.g, p, y) {
      }
    }
  }

  /** dk is a debit of l' and not of l. */
  ghost predicate Lacks(l: Ledger, l': Ledger, dk: DebitKey) {
    dk in l'.b.debits && dk !in l.b.debits
  }

  /** Connecting further blocks does not make up for a debit that is missing. */
  lemma StillLacks(w: World, x: Hash, l: Ledger, l': Ledger, known: set<Hash>, known': set<Hash>, dk: DebitKey)
    requires w.Sound() && x in w.u && x != w.g && dk.block.height < w.u[x].height && Lacks(l, l', dk)
    requires var p := w.u[x].prev; var s, h := Seen(w.u, w.g, p), w.u[p].height;
      Good(w.env, l, s, h) && Good(w.env, l', s, h)
    requires ConnectBlock(w.env, l, Seeing(w, x, known).txs, w.u[x].Id()).Some?
    requires ConnectBlock(w.env, l', Seeing(w, x, known').txs, w.u[x].Id()).Some?
    ensures Lacks(ConnectBlock(w.env, l, Seeing(w, x, known).txs, w.u[x].Id()).value,
                  ConnectBlock(w.env, l', Seeing(w, x, known').txs, w.u[x].Id()).value, dk)
  {
    hide Good, ConnectBlock, Follows, Seen, TxsUnique, Sights;
    var p := w.u[x].prev;
    var s, h := Seen(w.u, w.g, p), w.u[p].height;
    SeeingFollows(w, x, known);
    SeeingFollows(w, x, known');
    BlockDebits(w.env, l, Seeing(w, x, known), s, h, dk);
    BlockDebits(w.env, l', Seeing(w, x, known'), s, h, dk);
  }

  /** From a block f where a trace is the replay, connecting up to x with the same credits known for every block
      gives the replay exactly if nothing is overlooked. Otherwise a debit is missing. */
  lemma {:induction false} ReplayIff(w: World, f: Hash, x: Hash, ks: seq<set<Hash>>, known: set<Hash>)
    returns (dk: DebitKey)
    requires w.Sound() && x in w.u && OnBranch(w.u, w.g, x, f) && |ks| == w.u[x].height && Trace(w, x, ks).Some?
    requires Trace(w, f, ks[..w.u[f].height]) == Replay(w, f)
    requires forall k: nat | w.u[f].height <= k < |ks| :: ks[k] == known
    ensures Trace(w, x, ks) == Replay(w, x) <==> Sighted(w, f, x, known)
    ensures !Sighted(w, f, x, known) && Replay(w, x).Some? ==>
      dk.block.height <= w.u[x].height && Lacks(Trace(w, x, ks).value, Replay(w, x).value, dk)
    decreases w.u[x].height
  {
    hide Good, ConnectBlock, Seen, TxsUnique, Sighted, Sights, Credited, Follows, Overlooked, Stepwise, Replay;
    SightedStep(w, f, x, known);
    if x == f {
      assert ks[..|ks|] == ks;
      dk := DebitKey(0, w.u[x].Id(), 0);
    } else {
      var p, n := w.u[x].prev, |ks| - 1;
      assert ks[..n][..w.u[f].height] == ks[..w.u[f].height];
      dk := ReplayIff(w, f, p, ks[..n], known);
      ReplayStep(w, x);
      if Sighted(w, f, x, known) {
        ReplayIffStep(w, x, ks, known);
      } else if Sighted(w, f, p, known) {
        dk := LackedHere(w, x, ks, known);
      } else if Replay(w, x).Some? {
        LackedBelow(w, x, ks, dk);
      }
    }
  }

  lemma ReplayIffStep(w: World, x: Hash, ks: seq<set<Hash>>, known: set<Hash>)
    requires w.Sound() && x in w.u && x != w.g && |ks| == w.u[x].height && Trace(w, x, ks).Some?
    requires ks[|ks| - 1] == known && Trace(w, w.u[x].prev, ks[..|ks| - 1]) == Replay(w, w.u[x].prev)
    requires !Overlooked(w.env, known, Credited(w, w.u[x].prev), w.u[x].txs)
    ensures Trace(w, x, ks) == Replay(w, x)
  {
    hide Good, ConnectBlock, Seen, TxsUnique, Sights, Credited, Follows, Overlooked, Stepwise, Replay;
    var p, n := w.u[x].prev, |ks| - 1;
    ReplayStep(w, x);
    TraceGood(w, p, ks[..n]);
    FollowsParent(w.u, w.g, x);
    SameSights(w.env, Trace(w, p, ks[..n]).value, known, w.u[x], Seen(w.u, w.g, p), w.u[p].height);
  }

  lemma LackedHere(w: World, x: Hash, ks: seq<set<Hash>>, known: set<Hash>) returns (dk: DebitKey)
    requires w.Sound() && x in w.u && x != w.g && |ks| == w.u[x].height && Trace(w, x, ks).Some?
    requires ks[|ks| - 1] == known && Trace(w, w.u[x].prev, ks[..|ks| - 1]) == Replay(w, w.u[x].prev)
    requires Overlooked(w.env, known, Credited(w, w.u[x].prev), w.u[x].txs)
    ensures Replay(w, x).Some? ==>
      dk.block.height <= w.u[x].height && Lacks(Trace(w, x, ks).value, Replay(w, x).value, dk)
  {
    hide Good, ConnectBlock, Seen, TxsUnique, Sights, Credited, Follows, Overlooked, Stepwise, Replay;
    var p, n := w.u[x].prev, |ks| - 1;
    ReplayStep(w, x);
    TraceGood(w, p, ks[..n]);
    FollowsParent(w.u, w.g, x);
    dk := OverlookedDebit(w.env, Trace(w, p, ks[..n]).value, known, w.u[x], Seen(w.u, w.g, p), w.u[p].height);
  }

  lemma LackedBelow(w: World, x: Hash, ks: seq<set<Hash>>, dk: DebitKey)
    requires w.Sound() && x in w.u && x != w.g && |ks| == w.u[x].height && Trace(w, x, ks).Some?
    requires Replay(w, x).Some? && Replay(w, w.u[x].prev).Some? && dk.block.height < w.u[x].height
    requires Lacks(Trace(w, w.u[x].prev, ks[..|ks| - 1]).value, Replay(w, w.u[x].prev).value, dk)
    ensures Lacks(Trace(w, x, ks).value, Replay(w, x).value, dk)
  {
    hide Good, ConnectBlock, Seen, TxsUnique, Sights, Credited, Follows, Stepwise, Lacks;
    var p, n := w.u[x].prev, |ks| - 1;
    ReplayStep(w, x);
    TraceGood(w, p, ks[..n]);
    TraceGood(w, p, Stepwise(w, p));
    StillLacks(w, x, Trace(w, p, ks[..n]).value, Replay(w, p).value, ks[n], Credited(w, p), dk);
  }

  // ---------- replay by scripts alone ----------

  /** The blocks after genesis up to x, in order. */
  ghost function Path(u: map<Hash, Block>, g: Hash, x: Hash): (p: seq<Block>)
    requires Rooted(u, g) && x in u
    ensures |p| == u[x].height
    decreases u[x].height
  {
    if x == g then [] else Path(u, g, u[x].prev) + [u[x]]
  }

  /** If the path connects with every relevant input looked at, replay is that: one block in each database
      transaction, every coin a block spends is stored or made in the block itself, and nothing is passed over. */
  lemma {:induction false} ReplayIsConnect(w: World, x: Hash)
    requires w.Sound() && x in w.u && ConnectBlocks(w.env, w.l0, Path(w.u, w.g, x), w.u[x].height).Some?
    ensures Replay(w, x) == ConnectBlocks(w.env, w.l0, Path(w.u, w.g, x), w.u[x].height)
    decreases w.u[x].height
  {
    hide Good, ConnectBlock, Seen, TxsUnique, Sights, Credited, Follows, Stepwise;
    if x != w.g {
      var p := w.u[x].prev;
      var q := Path(w.u, w.g, p);
      ConnectBlocksExtend(w.env, w.l0, q, [w.u[x]], |q|);
      ReplayIsConnect(w, p);
      ReplayStep(w, x);
      TraceGood(w, p, Stepwise(w, p));
      FollowsParent(w.u, w.g, x);
      NothingPassed(w.env, Replay(w, p).value, w.u[x], Seen(w.u, w.g, p), w.u[p].height);
    }
  }
}
