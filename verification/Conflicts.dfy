/** Unmined transactions and the recursive removal of a conflicting one with everything built on it. */
module Conflicts {
  import opened Wrappers
  import opened Ledger

  type Graph = map<Hash, Tx>

  /** c spends, through an input the wallet tracks, an output of p. */
  ghost predicate Child(env: Env, g: Graph, p: Hash, c: Hash) {
    p in g && c in g &&
    exists i: nat | i < |g[c].ins| ::
      RelIn(env, g[c], i) && g[c].ins[i].prev.hash == p && g[c].ins[i].prev.index < |g[p].outs|
  }

  /** x is reached from p in n spending steps. */
  ghost predicate Reach(env: Env, g: Graph, p: Hash, x: Hash, n: nat)
    decreases n
  {
    p in g && x in g &&
    if n == 0 then x == p else exists c <- g :: Child(env, g, p, c) && Reach(env, g, c, x, n - 1)
  }

  /** x is a proper descendant of p. */
  ghost predicate Under(env: Env, g: Graph, p: Hash, x: Hash) {
    exists n: nat :: n > 0 && Reach(env, g, p, x, n)
  }

  /** p and all its tracked descendants. */
  ghost function Descendants(env: Env, g: Graph, p: Hash): set<Hash> {
    set x <- g | exists n: nat :: Reach(env, g, p, x, n)
  }

  ghost predicate Acyclic(env: Env, g: Graph) {
    forall x <- g, n: nat :: n > 0 ==> !Reach(env, g, x, x, n)
  }

  /** Each outpoint has at most one unmined spender; transactions are stored under their hash. */
  ghost predicate SingleSpender(g: Graph) {
    (forall h <- g :: g[h].hash == h) &&
    (forall h <- g, h' <- g, i: nat, j: nat ::
       i < |g[h].ins| && j < |g[h'].ins| && g[h].ins[i].prev == g[h'].ins[j].prev ==> h == h' && i == j)
  }

  ghost predicate Spends(env: Env, t: Tx, op: OutPoint) {
    exists i: nat | i < |t.ins| :: RelIn(env, t, i) && t.ins[i].prev == op
  }

  /** The inputs index names, for each outpoint, the unmined transaction with a tracked input on it. */
  ghost predicate Exact(env: Env, g: Graph, inputs: map<OutPoint, seq<Hash>>) {
    (forall op <- inputs :: exists h <- g :: inputs[op] == [h] && Spends(env, g[h], op)) &&
    (forall h <- g, op :: Spends(env, g[h], op) ==> op in inputs && inputs[op] == [h])
  }

  ghost predicate Consistent(env: Env, g: Graph, inputs: map<OutPoint, seq<Hash>>) {
    SingleSpender(g) && Exact(env, g, inputs)
  }

  /** All transactions there are, stored under their hash. */
  ghost predicate Keyed(world: Graph) { forall h <- world :: world[h].hash == h }

  /** Whatever competes for an outpoint, the inputs index names for it only transactions with a tracked input
      on it. */
  ghost predicate Named(env: Env, world: Graph, inputs: map<OutPoint, seq<Hash>>) {
    forall op <- inputs, h <- inputs[op] :: h in world && Spends(env, world[h], op)
  }

  /** r is closed under spending. */
  ghost predicate Closed(env: Env, g: Graph, r: set<Hash>) {
    forall x <- r, y <- g :: Child(env, g, x, y) ==> y in r
  }

  function Without(g: Graph, r: set<Hash>): Graph { g - r }

  /** The outpoints of the transactions in r. */
  ghost predicate OutputOf(g: Graph, r: set<Hash>, op: OutPoint) {
    op.hash in r && op.hash in g && op.index < |g[op.hash].outs|
  }

  /** t spends op, tracked or not. */
  ghost predicate Names(t: Tx, op: OutPoint) {
    exists i: nat | i < |t.ins| :: t.ins[i].prev == op
  }

  /** What the transactions in r spend, tracked or not. */
  ghost function Points(g: Graph, r: set<Hash>): set<OutPoint> {
    set h <- r, i: nat | h in g && i < |g[h].ins| :: g[h].ins[i].prev
  }

  // ---------- when removal is complete ----------

  /** The outpoints whose spenders are to go: some given ones, and the outputs of the transactions in d. */
  ghost predicate Doomed(g: Graph, d: set<Hash>, roots: set<OutPoint>, op: OutPoint) {
    op in roots || OutputOf(g, d, op)
  }

  /** Two transactions compete for one of these outpoints, and the second can be reached through another one as
      well; its removal then deletes the entry that names the first. */
  ghost predicate Entangled(env: Env, g: Graph, d: set<Hash>, roots: set<OutPoint>) {
    exists a <- g, b <- g, op, op' :: a != b && op != op' && Doomed(g, d, roots, op) && Doomed(g, d, roots, op') &&
      Spends(env, g[a], op) && Names(g[b], op) && Spends(env, g[b], op')
  }

  /** For these outpoints, those in hand apart, the index names every spender in h. */
  ghost predicate Listed(env: Env, g: Graph, d: set<Hash>, roots: set<OutPoint>, h: Graph,
                         inputs: map<OutPoint, seq<Hash>>, hand: set<OutPoint>) {
    forall c <- h, op :: Spends(env, h[c], op) && Doomed(g, d, roots, op) && op !in hand ==>
      op in inputs && c in inputs[op]
  }

  /** Removal of p from h finds everything: nothing in d is entangled, the index names all spenders, and the outpoints
      in hand are those that led to p. */
  ghost predicate Led(env: Env, g: Graph, above: set<Hash>, d: set<Hash>, roots: set<OutPoint>, h: Graph,
                      inputs: map<OutPoint, seq<Hash>>, hand: set<OutPoint>, p: Hash) {
    p in d && Closed(env, g, d) && !Entangled(env, g, d, roots) && Listed(env, g, d, roots, h, inputs, hand) &&
    forall op <- hand :: exists c <- above + {p} :: c in g && Spends(env, g[c], op)
  }

  /** Before anything is removed: the index names every spender of what p and its descendants pay, and no two of
      those are entangled. */
  ghost predicate Settled(env: Env, g: Graph, inputs: map<OutPoint, seq<Hash>>, p: Hash) {
    var d := Descendants(env, g, p);
    p in g && !Entangled(env, g, d, {}) && Listed(env, g, d, {}, g, inputs, {})
  }

  // ---------- descendants ----------

  lemma {:induction false} ReachTrans(env: Env, g: Graph, p: Hash, x: Hash, y: Hash, n: nat, m: nat)
    requires Reach(env, g, p, x, n) && Reach(env, g, x, y, m)
    ensures Reach(env, g, p, y, n + m)
    decreases n
  {
    if n > 0 {
      var c :| c in g && Child(env, g, p, c) && Reach(env, g, c, x, n - 1);
      ReachTrans(env, g, c, x, y, n - 1, m);
    }
  }

  lemma ReachChild(env: Env, g: Graph, p: Hash, c: Hash)
    requires Child(env, g, p, c)
    ensures Reach(env, g, p, c, 1)
  {
    assert Reach(env, g, c, c, 0);
  }

  ghost predicate Sub(h: Graph, g: Graph) {
    h.Keys <= g.Keys && forall x <- h :: h[x] == g[x]
  }

  lemma {:induction false} ReachMono(env: Env, h: Graph, g: Graph, p: Hash, x: Hash, n: nat)
    requires Sub(h, g) && Reach(env, h, p, x, n)
    ensures Reach(env, g, p, x, n)
    decreases n
  {
    if n > 0 {
      var c :| c in h && Child(env, h, p, c) && Reach(env, h, c, x, n - 1);
      ReachMono(env, h, g, c, x, n - 1);
      assert Child(env, g, p, c);
    }
  }

  lemma {:induction false} ReachClosed(env: Env, g: Graph, r: set<Hash>, p: Hash, x: Hash, n: nat)
    requires Closed(env, g, r) && p in r && Reach(env, g, p, x, n)
    ensures x in r
    decreases n
  {
    if n > 0 {
      var c :| c in g && Child(env, g, p, c) && Reach(env, g, c, x, n - 1);
      ReachClosed(env, g, r, c, x, n - 1);
    }
  }

  /** A closed set of descendants that holds all children of p is, with p, all its descendants. */
  lemma DescendantsAre(env: Env, g: Graph, p: Hash, r: set<Hash>)
    requires p in g && Closed(env, g, r) && r <= Descendants(env, g, p)
    requires forall c <- g :: Child(env, g, p, c) ==> c in r
    ensures Descendants(env, g, p) == r + {p}
  {
    hide Closed, Child;
    assert Reach(env, g, p, p, 0);
    forall x <- Descendants(env, g, p) ensures x in r + {p} {
      var n: nat :| Reach(env, g, p, x, n);
      if n > 0 {
        var c :| c in g && Child(env, g, p, c) && Reach(env, g, c, x, n - 1);
        ReachClosed(env, g, r, c, x, n - 1);
      }
    }
  }

  /** Removing the descendants of a child, in the graph left by earlier removals, keeps the removed set
      closed and below p. */
  lemma RemovedGrows(env: Env, g: Graph, p: Hash, r: set<Hash>, c: Hash)
    requires Closed(env, g, r) && r <= Descendants(env, g, p) && Child(env, g, p, c) && c !in r
    ensures var d := Descendants(env, Without(g, r), c);
      c in d && d !! r && Closed(env, g, r + d) && r + d <= Descendants(env, g, p)
  {
    var h := Without(g, r);
    var d := Descendants(env, h, c);
    assert Reach(env, h, c, c, 0);
    forall x <- d ensures x in Descendants(env, g, p) {
      var n: nat :| Reach(env, h, c, x, n);
      ReachMono(env, h, g, c, x, n);
      assert Reach(env, g, p, x, n + 1);
    }
    forall x <- r + d, y <- g | Child(env, g, x, y) ensures y in r + d {
      if x in d && y !in r {
        var n: nat :| Reach(env, h, c, x, n);
        assert Child(env, h, x, y);
        ReachChild(env, h, x, y);
        ReachTrans(env, h, c, x, y, n, 1);
      }
    }
  }

  lemma {:induction false} DescendantsClosed(env: Env, g: Graph, p: Hash)
    ensures Closed(env, g, Descendants(env, g, p))
  {
    forall x <- Descendants(env, g, p), y <- g | Child(env, g, x, y) ensures y in Descendants(env, g, p) {
      var n: nat :| Reach(env, g, p, x, n);
      ReachChild(env, g, x, y);
      ReachTrans(env, g, p, x, y, n, 1);
    }
  }

  /** A settled transaction is removed with all its descendants. */
  lemma SettledLeads(env: Env, g: Graph, inputs: map<OutPoint, seq<Hash>>, p: Hash)
    requires Settled(env, g, inputs, p)
    ensures Led(env, g, {}, Descendants(env, g, p), {}, g, inputs, {}, p)
  {
    hide Entangled, Listed, Descendants;
    DescendantsClosed(env, g, p);
    ItselfToo(env, g, p);
  }

  /** With at most one spender of each outpoint and an exact index, every transaction is settled, whatever the
      outpoints given. */
  lemma ConsistentIsSettled(env: Env, g: Graph, inputs: map<OutPoint, seq<Hash>>, h: Graph, d: set<Hash>,
                            roots: set<OutPoint>)
    requires Consistent(env, g, inputs) && Sub(h, g)
    ensures !Entangled(env, h, d, roots) && Listed(env, h, d, roots, h, inputs, {})
  {
    forall a <- h, b <- h, op | Spends(env, h[a], op) && Names(h[b], op) ensures a == b {
      assert g[a] == h[a] && g[b] == h[b];
    }
    forall c <- h, op | Spends(env, h[c], op) ensures op in inputs && c in inputs[op] {
      assert Spends(env, g[c], op);
    }
  }

  lemma ValidIsSettled(env: Env, g: Graph, inputs: map<OutPoint, seq<Hash>>, p: Hash)
    requires Consistent(env, g, inputs) && p in g
    ensures Settled(env, g, inputs, p)
  {
    hide Consistent, Entangled, Listed, Descendants;
    ConsistentIsSettled(env, g, inputs, g, Descendants(env, g, p), {});
  }

  /** A proper descendant spends an output of a descendant. */
  lemma {:induction false} SpendsBelow(env: Env, g: Graph, p: Hash, x: Hash, n: nat) returns (q: Hash, op: OutPoint)
    requires Reach(env, g, p, x, n) && n > 0
    ensures q in Descendants(env, g, p) && OutputOf(g, {q}, op) && Spends(env, g[x], op)
    decreases n
  {
    var c :| c in g && Child(env, g, p, c) && Reach(env, g, c, x, n - 1);
    if n == 1 {
      ItselfToo(env, g, p);
      var i: nat :| i < |g[x].ins| && RelIn(env, g[x], i) && g[x].ins[i].prev.hash == p &&
        g[x].ins[i].prev.index < |g[p].outs|;
      q, op := p, g[x].ins[i].prev;
    } else {
      q, op := SpendsBelow(env, g, c, x, n - 1);
      var m: nat :| Reach(env, g, c, q, m);
      assert Reach(env, g, p, q, m + 1);
    }
  }

  lemma ItselfToo(env: Env, g: Graph, p: Hash)
    requires p in g
    ensures p in Descendants(env, g, p)
  {
    assert Reach(env, g, p, p, 0);
  }

  /** Removing c with all its descendants deletes, outside hand, only entries whose spenders all go. */
  lemma EntrySurvives(env: Env, g: Graph, d: set<Hash>, roots: set<OutPoint>, h: Graph, hand: set<OutPoint>,
                      c: Hash, k: OutPoint, a: Hash, op: OutPoint, b: Hash)
    requires Sub(h, g) && Closed(env, g, d) && c in d && c in h && !Entangled(env, g, d, roots)
    requires k in hand && Doomed(g, d, roots, k) && Spends(env, h[c], k)
    requires a in h && a !in Descendants(env, h, c) && Spends(env, h[a], op) && Doomed(g, d, roots, op) && op !in hand
    requires b in Descendants(env, h, c)
    ensures !Names(h[b], op)
  {
    hide Entangled, Spends, Names, Child;
    if Names(h[b], op) {
      var n: nat :| Reach(env, h, c, b, n);
      if n == 0 {
        NotEntangled(env, g, d, roots, a, b, op, k);
      } else {
        var q, op' := SpendsBelow(env, h, c, b, n);
        var m: nat :| Reach(env, h, c, q, m);
        ReachMono(env, h, g, c, q, m);
        ReachClosed(env, g, d, c, q, m);
        assert OutputOf(g, d, op');
        if op == op' {
          SpenderIsChild(env, h, q, op.index, a);
          ReachChild(env, h, q, a);
          ReachTrans(env, h, c, q, a, m, 1);
        } else {
          NotEntangled(env, g, d, roots, a, b, op, op');
        }
      }
    }
  }

  lemma NotEntangled(env: Env, g: Graph, d: set<Hash>, roots: set<OutPoint>, a: Hash, b: Hash, op: OutPoint,
                     op': OutPoint)
    requires !Entangled(env, g, d, roots) && a in g && b in g && a != b
    requires Doomed(g, d, roots, op) && Doomed(g, d, roots, op')
    requires Spends(env, g[a], op) && Names(g[b], op) && Spends(env, g[b], op')
    ensures op == op'
  {
  }

  lemma ListedStep(env: Env, g: Graph, d: set<Hash>, roots: set<OutPoint>, h: Graph, inputs: map<OutPoint, seq<Hash>>,
                   hand: set<OutPoint>, c: Hash, k: OutPoint)
    requires Sub(h, g) && Closed(env, g, d) && c in d && c in h && !Entangled(env, g, d, roots)
    requires k in hand && Doomed(g, d, roots, k) && Spends(env, h[c], k) && Listed(env, g, d, roots, h, inputs, hand)
    ensures var r := Descendants(env, h, c);
      Listed(env, g, d, roots, Without(h, r), inputs - Points(h, r), hand)
  {
    hide Entangled, Spends, Doomed, Descendants;
    var r := Descendants(env, h, c);
    forall a <- Without(h, r), op | Spends(env, h[a], op) && Doomed(g, d, roots, op) && op !in hand
      ensures op !in Points(h, r)
    {
      forall b <- r | b in h ensures !Names(h[b], op) {
        EntrySurvives(env, g, d, roots, h, hand, c, k, a, op, b);
      }
    }
  }

  /** Nothing in hand is an output of p. */
  lemma HandIsAbove(env: Env, g: Graph, above: set<Hash>, hand: set<OutPoint>, p: Hash, i: nat)
    requires Acyclic(env, g) && p in g && i < |g[p].outs| && forall a <- above :: Under(env, g, a, p)
    requires forall op <- hand :: exists c <- above + {p} :: c in g && Spends(env, g[c], op)
    ensures OutPoint(p, i) !in hand
  {
    if OutPoint(p, i) in hand {
      var c :| c in above + {p} && c in g && Spends(env, g[c], OutPoint(p, i));
      SpenderIsChild(env, g, p, i, c);
      ReachChild(env, g, p, c);
      if c != p {
        var n: nat :| n > 0 && Reach(env, g, c, p, n);
        ReachTrans(env, g, c, p, c, n, 1);
      }
    }
  }

  // ---------- one call of RemoveConflict ----------

  /** While p is being removed from g, r is what is gone: descendants of p, closed under spending, with
      every spender of the first i outputs of p. */
  ghost predicate Removing(env: Env, g: Graph, p: Hash, r: set<Hash>, i: nat) {
    p in g && p !in r && Closed(env, g, r) && r <= Descendants(env, g, p) &&
    forall c <- g, j: nat | j < i :: Spends(env, g[c], OutPoint(p, j)) ==> c in r
  }

  /** The credits left while r is gone and the first i outputs of p are deleted. */
  ghost predicate CreditsLeft(g: Graph, before: set<OutPoint>, after: set<OutPoint>, r: set<Hash>, p: Hash, i: nat) {
    forall op :: op in after <==> op in before && !OutputOf(g, r, op) && !(op.hash == p && op.index < i)
  }

  /** What is gone while p is being removed from g: some descendants of p, but not p. */
  ghost predicate Gone(env: Env, g: Graph, p: Hash, r: set<Hash>) {
    p in g && p !in r && r <= Descendants(env, g, p)
  }

  lemma GoneStep(env: Env, g: Graph, p: Hash, r: set<Hash>, c: Hash, d: set<Hash>)
    requires Acyclic(env, g) && Gone(env, g, p, r) && Child(env, g, p, c) && c !in r
    requires d <= Descendants(env, Without(g, r), c)
    ensures Gone(env, g, p, r + d) && r !! d && Without(Without(g, r), d) == Without(g, r + d)
  {
    hide Acyclic, Child;
    NotRemoved(env, g, p, r, c);
    var h := Without(g, r);
    forall x <- d ensures x in Descendants(env, g, p) {
      var n: nat :| Reach(env, h, c, x, n);
      ReachMono(env, h, g, c, x, n);
      assert Reach(env, g, p, x, n + 1);
    }
  }

  lemma LookupNamed(env: Env, world: Graph, inputs: map<OutPoint, seq<Hash>>, k: OutPoint)
    requires Named(env, world, inputs)
    ensures forall h <- if k in inputs then inputs[k] else [] :: h in world && Spends(env, world[h], k)
  {
  }

  lemma NamedWithout(env: Env, world: Graph, inputs: map<OutPoint, seq<Hash>>, dead: set<OutPoint>)
    requires Named(env, world, inputs)
    ensures Named(env, world, inputs - dead)
  {
  }

  lemma RemovingStart(env: Env, g: Graph, p: Hash, credits: set<OutPoint>)
    requires p in g
    ensures Without(g, {}) == g && Removing(env, g, p, {}, 0) && CreditsLeft(g, credits, credits, {}, p, 0)
  {
  }

  lemma RemovingStep(env: Env, g: Graph, p: Hash, r: set<Hash>, i: nat, c: Hash)
    requires Acyclic(env, g) && Removing(env, g, p, r, i) && i < |g[p].outs|
    requires c in g && c !in r && Spends(env, g[c], OutPoint(p, i))
    ensures Child(env, g, p, c)
    ensures var d := Descendants(env, Without(g, r), c);
      c in d && d !! r && p !in r + d && Removing(env, g, p, r + d, i) && Without(Without(g, r), d) == Without(g, r + d)
  {
    hide Acyclic, Closed, Reach;
    SpenderIsChild(env, g, p, i, c);
    RemovedGrows(env, g, p, r, c);
    NotRemoved(env, g, p, r, c);
  }

  lemma RemovingNext(env: Env, g: Graph, p: Hash, r: set<Hash>, i: nat)
    requires Removing(env, g, p, r, i) && forall c <- g :: Spends(env, g[c], OutPoint(p, i)) ==> c in r
    ensures Removing(env, g, p, r, i + 1)
  {
  }

  lemma CreditsStep(g: Graph, before: set<OutPoint>, after: set<OutPoint>, after': set<OutPoint>,
                    r: set<Hash>, d: set<Hash>, p: Hash, i: nat)
    requires CreditsLeft(g, before, after, r, p, i) && r !! d
    requires forall op :: op in after' <==> op in after && !OutputOf(Without(g, r), d, op)
    ensures CreditsLeft(g, before, after', r + d, p, i)
  {
  }

  lemma CreditsNext(g: Graph, before: set<OutPoint>, after: set<OutPoint>, r: set<Hash>, p: Hash, i: nat)
    requires CreditsLeft(g, before, after, r, p, i)
    ensures CreditsLeft(g, before, after - {OutPoint(p, i)}, r, p, i + 1)
  {
  }

  lemma CreditsDone(g: Graph, before: set<OutPoint>, after: set<OutPoint>, r: set<Hash>, p: Hash)
    requires p in g && CreditsLeft(g, before, after, r, p, |g[p].outs|)
    ensures forall op :: op in after <==> op in before && !OutputOf(g, r + {p}, op)
  {
  }

  lemma CreditsAll(g: Graph, credits: set<OutPoint>, p: Hash)
    ensures CreditsLeft(g, credits, credits, {}, p, 0)
  {
  }

  lemma CreditsRest(g: Graph, before: set<OutPoint>, after: set<OutPoint>, r: set<Hash>, p: Hash)
    requires CreditsLeft(g, before, after, r, p, 0)
    ensures forall op ::
      op in after <==> op in before && !(op.hash in r && op.hash in g && op.index < |g[op.hash].outs|)
  {
  }

  /** What the index says of an outpoint that is not in hand. */
  lemma Lookup(env: Env, g: Graph, d: set<Hash>, roots: set<OutPoint>, h: Graph, inputs: map<OutPoint, seq<Hash>>,
               hand: set<OutPoint>, k: OutPoint)
    requires Listed(env, g, d, roots, h, inputs, hand) && Doomed(g, d, roots, k) && k !in hand
    ensures forall c <- h :: Spends(env, h[c], k) ==> c in if k in inputs then inputs[k] else []
  {
  }

  lemma DoomedOutput(g: Graph, d: set<Hash>, roots: set<OutPoint>, k: OutPoint)
    requires OutputOf(g, d, k)
    ensures Doomed(g, d, roots, k)
  {
  }

  lemma TrackedIsDoomed(env: Env, g: Graph, d: set<Hash>, rec: Tx, i: nat)
    requires RelIn(env, rec, i)
    ensures Doomed(g, d, Tracked(env, rec), rec.ins[i].prev)
  {
  }

  /** Taking an outpoint in hand, and putting it back when it has no spender left. */
  lemma ListedMore(env: Env, g: Graph, d: set<Hash>, roots: set<OutPoint>, h: Graph, inputs: map<OutPoint, seq<Hash>>,
                   hand: set<OutPoint>, k: OutPoint)
    requires Listed(env, g, d, roots, h, inputs, hand)
    ensures Listed(env, g, d, roots, h, inputs, hand + {k})
  {
  }

  lemma ListedAgain(env: Env, g: Graph, d: set<Hash>, roots: set<OutPoint>, h: Graph, inputs: map<OutPoint, seq<Hash>>,
                    hand: set<OutPoint>, k: OutPoint)
    requires Listed(env, g, d, roots, h, inputs, hand + {k}) && forall c <- h :: !Spends(env, h[c], k)
    ensures Listed(env, g, d, roots, h, inputs, hand)
  {
  }

  /** A spender of an output of p is led to from p. */
  lemma LedDown(env: Env, g: Graph, above: set<Hash>, d: set<Hash>, roots: set<OutPoint>, h: Graph,
                inputs: map<OutPoint, seq<Hash>>, hand: set<OutPoint>, p: Hash, i: nat, c: Hash)
    requires p in d && Closed(env, g, d) && !Entangled(env, g, d, roots) && Sub(h, g)
    requires Listed(env, g, d, roots, h, inputs, hand + {OutPoint(p, i)})
    requires forall op <- hand :: exists a <- above + {p} :: a in g && Spends(env, g[a], op)
    requires p in g && i < |g[p].outs| && c in h && Spends(env, h[c], OutPoint(p, i))
    ensures Led(env, g, above + {p}, d, roots, h, inputs, hand + {OutPoint(p, i)}, c)
  {
    hide Entangled, Listed, Spends;
    SpenderIsChild(env, g, p, i, c);
  }

  lemma SpenderIsChild(env: Env, g: Graph, p: Hash, i: nat, c: Hash)
    requires p in g && i < |g[p].outs| && c in g && Spends(env, g[c], OutPoint(p, i))
    ensures Child(env, g, p, c)
  {
  }

  lemma NotRemoved(env: Env, g: Graph, p: Hash, r: set<Hash>, c: Hash)
    requires Acyclic(env, g) && Child(env, g, p, c)
    ensures p !in Descendants(env, Without(g, r), c)
  {
    if p in Descendants(env, Without(g, r), c) {
      var n: nat :| Reach(env, Without(g, r), c, p, n);
      ReachMono(env, Without(g, r), g, c, p, n);
      assert Reach(env, g, p, p, n + 1);
      assert false;
    }
  }

  /** The current transaction is not among those whose removal led to it. */
  lemma NotAbove(env: Env, g0: Graph, g: Graph, above: set<Hash>, p: Hash)
    requires Acyclic(env, g0) && Sub(g, g0) && p in g
    requires forall a <- above :: Under(env, g0, a, p)
    ensures p !in above && Acyclic(env, g)
  {
    forall x <- g, n: nat | n > 0 ensures !Reach(env, g, x, x, n) {
      if Reach(env, g, x, x, n) {
        ReachMono(env, g, g0, x, x, n);
      }
    }
  }

  lemma BelowChild(env: Env, g0: Graph, g: Graph, above: set<Hash>, p: Hash, c: Hash)
    requires Sub(g, g0) && Child(env, g, p, c)
    requires forall a <- above :: Under(env, g0, a, p)
    ensures forall a <- above + {p} :: Under(env, g0, a, c)
  {
    assert Child(env, g0, p, c);
    ReachChild(env, g0, p, c);
    forall a <- above + {p} ensures Under(env, g0, a, c) {
      if a == p {
        assert 1 > 0 && Reach(env, g0, a, c, 1);
      } else {
        var n: nat :| n > 0 && Reach(env, g0, a, p, n);
        ReachTrans(env, g0, a, p, c, n, 1);
      }
    }
  }

  /** All spenders of all outputs of p being gone, r and p are its descendants. */
  lemma AllRemoved(env: Env, g: Graph, p: Hash, r: set<Hash>)
    requires p in g && Removing(env, g, p, r, |g[p].outs|)
    ensures Descendants(env, g, p) == r + {p}
  {
    forall c <- g | Child(env, g, p, c) ensures c in r {
      var i: nat :| i < |g[c].ins| && RelIn(env, g[c], i) && g[c].ins[i].prev.hash == p &&
                    g[c].ins[i].prev.index < |g[p].outs|;
      assert Spends(env, g[c], OutPoint(p, g[c].ins[i].prev.index));
    }
    DescendantsAre(env, g, p, r);
  }

  /** Dropping transactions and the index entries of all their inputs keeps the index exact. */
  lemma ExactWithout(env: Env, g: Graph, inputs: map<OutPoint, seq<Hash>>, r: set<Hash>)
    requires Consistent(env, g, inputs)
    ensures Consistent(env, g - r, inputs - Points(g, r))
  {
    var g', dead := g - r, Points(g, r);
    forall op <- inputs - dead ensures exists h <- g' :: inputs[op] == [h] && Spends(env, g'[h], op) {
      var h :| h in g && inputs[op] == [h] && Spends(env, g[h], op);
      var i: nat :| i < |g[h].ins| && g[h].ins[i].prev == op;
      assert h !in r;
    }
    forall h <- g', op | Spends(env, g'[h], op) ensures op in inputs && op !in dead && inputs[op] == [h] {
      var i: nat :| i < |g[h].ins| && g[h].ins[i].prev == op;
    }
  }

  lemma PointsAre(g: Graph, r: set<Hash>, op: OutPoint)
    ensures op in Points(g, r) <==> exists h <- r :: h in g && Names(g[h], op)
  {
    if h :| h in r && h in g && Names(g[h], op) {
      var i: nat :| i < |g[h].ins| && g[h].ins[i].prev == op;
    }
    if op in Points(g, r) {
      var h, i: nat :| h in r && h in g && i < |g[h].ins| && g[h].ins[i].prev == op;
      assert Names(g[h], op);
    }
  }

  lemma PointsUnion(g: Graph, r: set<Hash>, d: set<Hash>)
    requires r !! d
    ensures Points(g, r + d) == Points(g, r) + Points(Without(g, r), d)
  {
    hide Names, Points;
    forall op ensures op in Points(g, r + d) <==> op in Points(g, r) + Points(Without(g, r), d) {
      PointsAre(g, r + d, op);
      PointsAre(g, r, op);
      PointsAre(Without(g, r), d, op);
    }
  }

  lemma PointsOne(g: Graph, t: Tx)
    requires t.hash in g && g[t.hash] == t
    ensures Points(g, {t.hash}) == set i | 0 <= i < |t.ins| :: t.ins[i].prev
  {
  }

  /** Index entries deleted in two steps. */
  lemma PointsMore(g: Graph, inputs: map<OutPoint, seq<Hash>>, r: set<Hash>, d: set<Hash>)
    requires r !! d
    ensures inputs - Points(g, r) - Points(Without(g, r), d) == inputs - Points(g, r + d)
  {
    PointsUnion(g, r, d);
  }

  lemma NoPoints(g: Graph, inputs: map<OutPoint, seq<Hash>>)
    ensures inputs - Points(g, {}) == inputs
  {
    assert Points(g, {}) == {};
  }

  /** Append a spender to the index entry of an outpoint. */
  function PutUnminedInput(m: map<OutPoint, seq<Hash>>, k: OutPoint, h: Hash): map<OutPoint, seq<Hash>> {
    m[k := (if k in m then m[k] else []) + [h]]
  }

  /** The index after the first n inputs of t are put. */
  function PutInputs(env: Env, m: map<OutPoint, seq<Hash>>, t: Tx, n: nat): map<OutPoint, seq<Hash>>
    requires n <= |t.ins|
  {
    if n == 0 then m
    else
      var p := PutInputs(env, m, t, n - 1);
      if RelIn(env, t, n - 1) then PutUnminedInput(p, t.ins[n - 1].prev, t.hash) else p
  }

  lemma {:induction false} PutNamed(env: Env, world: Graph, m: map<OutPoint, seq<Hash>>, t: Tx, n: nat)
    requires n <= |t.ins| && t.hash in world && world[t.hash] == t && Named(env, world, m)
    ensures Named(env, world, PutInputs(env, m, t, n))
  {
    if n > 0 {
      PutNamed(env, world, m, t, n - 1);
      if RelIn(env, t, n - 1) {
        assert Spends(env, t, t.ins[n - 1].prev);
      }
    }
  }

  /** What becomes of the index entry of k when the first n inputs of t are put: if one of them spends k and paid a
      ready wallet, t is appended to it, and otherwise it stays as it is. */
  ghost predicate PutAt(env: Env, m: map<OutPoint, seq<Hash>>, t: Tx, n: nat, m': map<OutPoint, seq<Hash>>, k: OutPoint)
    requires n <= |t.ins|
  {
    var spent := exists i: nat | i < n :: t.ins[i].prev == k && Paid(env, t.ins[i].prevScript);
    var entry := if k in m then m[k] else [];
    if spent then
      k in m' && entry < m'[k] && forall j | |entry| <= j < |m'[k]| :: m'[k][j] == t.hash
    else (k in m' <==> k in m) && (k in m' ==> m'[k] == m[k])
  }

  /** A script that is looked up and owned by a ready wallet. */
  ghost predicate Paid(env: Env, script: Option<Script>) {
    script.Some? && script.value in env.owner && env.owner[script.value] in env.ready
  }

  lemma {:induction false} PutTracked(env: Env, m: map<OutPoint, seq<Hash>>, t: Tx, n: nat, k: OutPoint)
    requires n <= |t.ins| && !t.coinbase
    ensures PutAt(env, m, t, n, PutInputs(env, m, t, n), k)
  {
    if n > 0 {
      PutTracked(env, m, t, n - 1, k);
      assert RelIn(env, t, n - 1) <==> Paid(env, t.ins[n - 1].prevScript);
    }
  }

  /** Putting the inputs of a new transaction that competes with no other keeps the index exact. */
  lemma PutExact(env: Env, g: Graph, inputs: map<OutPoint, seq<Hash>>, t: Tx)
    requires Exact(env, g, inputs) && t.hash !in g && SingleSpender(g[t.hash := t])
    ensures Exact(env, g[t.hash := t], PutInputs(env, inputs, t, |t.ins|))
  {
    PutForm(env, g, inputs, t, |t.ins|);
    ExactWith(env, g, inputs, t, PutInputs(env, inputs, t, |t.ins|));
  }

  lemma {:induction false} PutForm(env: Env, g: Graph, inputs: map<OutPoint, seq<Hash>>, t: Tx, n: nat)
    requires Exact(env, g, inputs) && t.hash !in g && SingleSpender(g[t.hash := t]) && n <= |t.ins|
    ensures var p := PutInputs(env, inputs, t, n);
      p.Keys == inputs.Keys + (set j | 0 <= j < n && RelIn(env, t, j) :: t.ins[j].prev) &&
      (forall op <- inputs :: p[op] == inputs[op]) &&
      forall j: nat | j < n && RelIn(env, t, j) :: p[t.ins[j].prev] == [t.hash]
  {
    hide Exact, SingleSpender;
    if n > 0 {
      PutForm(env, g, inputs, t, n - 1);
      Untaken(env, g, inputs, t, n - 1);
      InputsApart(g[t.hash := t], t);
    }
  }

  lemma InputsApart(g: Graph, t: Tx)
    requires SingleSpender(g) && t.hash in g && g[t.hash] == t
    ensures forall i: nat, j: nat | i < j < |t.ins| :: t.ins[i].prev != t.ins[j].prev
  {
  }

  /** An outpoint of a new transaction that competes with no other is not in the index yet. */
  lemma Untaken(env: Env, g: Graph, inputs: map<OutPoint, seq<Hash>>, t: Tx, i: nat)
    requires Exact(env, g, inputs) && t.hash !in g && SingleSpender(g[t.hash := t]) && i < |t.ins|
    ensures t.ins[i].prev !in inputs
  {
    var g' := g[t.hash := t];
    forall h <- g, j: nat | j < |g[h].ins| ensures g[h].ins[j].prev != t.ins[i].prev {
      assert g'[h] == g[h] && g'[t.hash] == t;
    }
  }

  /** Adding a transaction and the index entries of its tracked inputs keeps the index exact. */
  lemma ExactWith(env: Env, g: Graph, inputs: map<OutPoint, seq<Hash>>, t: Tx, inputs': map<OutPoint, seq<Hash>>)
    requires Exact(env, g, inputs) && t.hash !in g && SingleSpender(g[t.hash := t])
    requires inputs'.Keys == inputs.Keys + set j | 0 <= j < |t.ins| && RelIn(env, t, j) :: t.ins[j].prev
    requires forall op <- inputs :: inputs'[op] == inputs[op]
    requires forall j: nat | j < |t.ins| && RelIn(env, t, j) :: inputs'[t.ins[j].prev] == [t.hash]
    ensures Exact(env, g[t.hash := t], inputs')
  {
    var g' := g[t.hash := t];
    forall op <- inputs' ensures exists h <- g' :: inputs'[op] == [h] && Spends(env, g'[h], op) {
      if op in inputs {
        var h :| h in g && inputs[op] == [h] && Spends(env, g[h], op);
        assert g'[h] == g[h];
      } else {
        assert Spends(env, g'[t.hash], op);
      }
    }
    forall h <- g', op | Spends(env, g'[h], op) ensures op in inputs' && inputs'[op] == [h] {
      if h != t.hash {
        assert Spends(env, g[h], op);
      }
    }
  }

  // ---------- mining a transaction ----------

  /** The script of an outpoint does not depend on who spends it; a coinbase spends no real outpoint. */
  ghost predicate Comparable(env: Env, g: Graph, rec: Tx) {
    (rec.hash in g ==> g[rec.hash] == rec) &&
    forall h <- g, i: nat, j: nat ::
      i < |g[h].ins| && j < |rec.ins| && g[h].ins[i].prev == rec.ins[j].prev ==>
        g[h].ins[i].prevScript == rec.ins[j].prevScript && !rec.coinbase
  }

  /** c is an unmined transaction that spends tracked input i of rec. */
  ghost predicate DoubleSpends(env: Env, g: Graph, rec: Tx, i: nat, c: Hash) {
    c in g && RelIn(env, rec, i) && Spends(env, g[c], rec.ins[i].prev)
  }

  /** The double spenders of the first n inputs of rec, and all their descendants. */
  ghost function Displaced(env: Env, g: Graph, rec: Tx, n: nat): set<Hash> {
    set x <- g | exists i: nat, c <- g :: i < n && DoubleSpends(env, g, rec, i, c) && x in Descendants(env, g, c)
  }

  /** The tracked inputs of rec. */
  ghost function Tracked(env: Env, rec: Tx): set<OutPoint> {
    set i | 0 <= i < |rec.ins| && RelIn(env, rec, i) :: rec.ins[i].prev
  }

  lemma DisplacedMonotone(env: Env, g: Graph, rec: Tx, i: nat, n: nat)
    requires i <= n
    ensures Displaced(env, g, rec, i) <= Displaced(env, g, rec, n)
  {
  }

  lemma DisplacedClosed(env: Env, g: Graph, rec: Tx, n: nat)
    ensures Closed(env, g, Displaced(env, g, rec, n))
  {
    var r := Displaced(env, g, rec, n);
    hide Descendants;
    forall x <- r, y <- g | Child(env, g, x, y) ensures y in r {
      var i: nat, c :| c in g && i < n && DoubleSpends(env, g, rec, i, c) && x in Descendants(env, g, c);
      DescendantsClosed(env, g, c);
    }
  }

  lemma DisplacedApart(env: Env, g: Graph, rec: Tx, n: nat)
    ensures Displaced(env, g, rec, n) <= g.Keys
  {
  }

  lemma PointsApart(g: Graph, p: Hash, r: set<Hash>)
    requires p !in r
    ensures Points(g - {p}, r) == Points(g, r)
  {
    assert forall h <- r :: (h in g - {p}) == (h in g);
    forall op ensures op in Points(g - {p}, r) <==> op in Points(g, r) {
      PointsAre(g - {p}, r, op);
      PointsAre(g, r, op);
    }
  }

  /** Descendants of a double spender, in what is left of g, are displaced. */
  lemma DisplacedHolds(env: Env, g: Graph, rec: Tx, i: nat, c: Hash, h: Graph, d: set<Hash>)
    requires DoubleSpends(env, g, rec, i, c) && Sub(h, g) && d <= Descendants(env, h, c)
    ensures d <= Displaced(env, g, rec, i + 1) && c in Displaced(env, g, rec, i + 1)
  {
    ItselfToo(env, g, c);
    forall x <- d ensures x in Displaced(env, g, rec, i + 1) {
      var n: nat :| Reach(env, h, c, x, n);
      ReachMono(env, h, g, c, x, n);
      assert x in Descendants(env, g, c);
    }
  }

  /** A closed set that holds the double spenders holds all that is displaced. */
  lemma AllDisplaced(env: Env, g: Graph, rec: Tx, n: nat, r: set<Hash>)
    requires Closed(env, g, r) && forall c <- g, i: nat | i < n && DoubleSpends(env, g, rec, i, c) :: c in r
    ensures Displaced(env, g, rec, n) <= r
  {
    hide DoubleSpends, Closed;
    forall x <- Displaced(env, g, rec, n) ensures x in r {
      var i: nat, c :| c in g && i < n && DoubleSpends(env, g, rec, i, c) && x in Descendants(env, g, c);
      var m: nat :| Reach(env, g, c, x, m);
      ReachClosed(env, g, r, c, x, m);
    }
  }

  /** With all double spenders gone, nothing left spends a tracked input of rec. */
  lemma NoSpender(env: Env, g: Graph, r: set<Hash>, rec: Tx)
    requires Displaced(env, g, rec, |rec.ins|) <= r
    ensures forall h <- g - r, i: nat | i < |rec.ins| && RelIn(env, rec, i) :: !Spends(env, g[h], rec.ins[i].prev)
  {
    forall h <- g - r, i: nat | i < |rec.ins| && RelIn(env, rec, i) ensures !Spends(env, g[h], rec.ins[i].prev) {
      ItselfToo(env, g, h);
      assert !DoubleSpends(env, g, rec, i, h);
    }
  }

  /** Then the index has no entry left for any input of rec. */
  lemma NoEntry(env: Env, g: Graph, r: set<Hash>, inputs: map<OutPoint, seq<Hash>>, rec: Tx)
    requires Comparable(env, g, rec) && Displaced(env, g, rec, |rec.ins|) <= r && Exact(env, g - r, inputs)
    ensures forall i: nat | i < |rec.ins| :: rec.ins[i].prev !in inputs
  {
    forall h <- g, i: nat | i < |rec.ins| && Spends(env, g[h], rec.ins[i].prev) ensures RelIn(env, rec, i) {
      var j: nat :| j < |g[h].ins| && RelIn(env, g[h], j) && g[h].ins[j].prev == rec.ins[i].prev;
    }
    NoSpender(env, g, r, rec);
  }

  lemma ClosedNone(env: Env, g: Graph)
    ensures Closed(env, g, {})
  {
  }

  /** Removing the descendants of c in what is left keeps the removed set closed. */
  lemma ClosedGrows(env: Env, g: Graph, r: set<Hash>, c: Hash)
    requires Closed(env, g, r)
    ensures Closed(env, g, r + Descendants(env, Without(g, r), c))
  {
    hide Descendants, Reach;
    var h, d := Without(g, r), Descendants(env, Without(g, r), c);
    DescendantsClosed(env, h, c);
    InGraph(env, h, c);
    forall x <- r + d, y <- g | Child(env, g, x, y) ensures y in r + d {
      if x in d && y !in r {
        assert Child(env, h, x, y);
      }
    }
  }

  lemma InGraph(env: Env, g: Graph, c: Hash)
    ensures Descendants(env, g, c) <= g.Keys
  {
  }

  lemma RemovedApart(env: Env, g: Graph, r: set<Hash>, c: Hash, d: set<Hash>)
    requires d <= Descendants(env, Without(g, r), c)
    ensures r !! d && Without(Without(g, r), d) == Without(g, r + d)
  {
    InGraph(env, Without(g, r), c);
  }

  lemma AcyclicSub(env: Env, g: Graph, h: Graph)
    requires Acyclic(env, g) && Sub(h, g)
    ensures Acyclic(env, h)
  {
    forall x <- h, n: nat | n > 0 ensures !Reach(env, h, x, x, n) {
      if Reach(env, h, x, x, n) {
        ReachMono(env, h, g, x, x, n);
      }
    }
  }

  lemma NoDouble(env: Env, g: Graph, rec: Tx, i: nat)
    requires !RelIn(env, rec, i)
    ensures forall c <- g :: !DoubleSpends(env, g, rec, i, c)
  {
  }

  /** Before rec is mined: the index names every spender of its tracked inputs and of what those and their
      descendants pay, and no two of those are entangled. */
  ghost predicate SettledFor(env: Env, g: Graph, inputs: map<OutPoint, seq<Hash>>, rec: Tx) {
    var d, roots := Displaced(env, g, rec, |rec.ins|), Tracked(env, rec);
    !Entangled(env, g, d, roots) && Listed(env, g, d, roots, g, inputs, {})
  }

  lemma ValidIsSettledFor(env: Env, g: Graph, inputs: map<OutPoint, seq<Hash>>, rec: Tx)
    requires Consistent(env, g, inputs)
    ensures SettledFor(env, g - {rec.hash}, inputs, rec)
  {
    hide Consistent, Entangled, Listed;
    var h := g - {rec.hash};
    ConsistentIsSettled(env, g, inputs, h, Displaced(env, h, rec, |rec.ins|), Tracked(env, rec));
  }

  /** The index stays exact when a transaction is mined. */
  lemma ExactMined(env: Env, g: Graph, inputs: map<OutPoint, seq<Hash>>, rec: Tx, gone: set<Hash>)
    requires Consistent(env, g, inputs) && Comparable(env, g, rec)
    requires gone == Displaced(env, g - {rec.hash}, rec, |rec.ins|)
    ensures Consistent(env, g - {rec.hash} - gone,
                       inputs - Points(g - {rec.hash}, gone) - set i | 0 <= i < |rec.ins| :: rec.ins[i].prev)
  {
    hide SingleSpender, Spends;
    var h, dead := g - {rec.hash}, set i | 0 <= i < |rec.ins| :: rec.ins[i].prev;
    if rec.hash in g {
      ExactWithout(env, g, inputs, {rec.hash} + gone);
      PointsOne(g, rec);
      assert h - gone == g - ({rec.hash} + gone);
      MinedPoints(g, inputs, rec, gone);
    } else {
      assert h == g;
      ExactWithout(env, g, inputs, gone);
      NoEntry(env, g, gone, inputs - Points(g, gone), rec);
      assert inputs - Points(g, gone) - dead == inputs - Points(g, gone);
    }
  }

  lemma MinedPoints(g: Graph, inputs: map<OutPoint, seq<Hash>>, rec: Tx, gone: set<Hash>)
    requires rec.hash in g && g[rec.hash] == rec && rec.hash !in gone
    ensures inputs - Points(g - {rec.hash}, gone) - (set i | 0 <= i < |rec.ins| :: rec.ins[i].prev) ==
            inputs - Points(g, {rec.hash} + gone)
  {
    PointsUnion(g, {rec.hash}, gone);
    PointsOne(g, rec);
  }

  // ---------- what removal does, step by step ----------

  datatype Unmined = Unmined(txs: Graph, inputs: map<OutPoint, seq<Hash>>, credits: set<OutPoint>)

  function SpendersOf(m: map<OutPoint, seq<Hash>>, k: OutPoint): seq<Hash> { if k in m then m[k] else [] }

  /** The buckets after t is removed, to a depth of fuel. */
  function RemoveTx(s: Unmined, t: Tx, fuel: nat): Unmined
    decreases fuel, 2, 0
  {
    var p := RemoveOutputs(s, t, |t.outs|, fuel);
    Unmined(p.txs - {t.hash}, p.inputs - (set i | 0 <= i < |t.ins| :: t.ins[i].prev), p.credits)
  }

  /** With the spenders and the credits of the first n outputs of t removed. */
  function RemoveOutputs(s: Unmined, t: Tx, n: nat, fuel: nat): Unmined
    decreases fuel, 1, n
  {
    if n == 0 then s
    else
      var p := RemoveOutputs(s, t, n - 1, fuel);
      var k := OutPoint(t.hash, n - 1);
      var sh := SpendersOf(p.inputs, k);
      var q := RemoveAll(p, sh, |sh|, fuel);
      q.(credits := q.credits - {k})
  }

  /** With the first m of these transactions removed, as far as they are still there. */
  function RemoveAll(s: Unmined, sh: seq<Hash>, m: nat, fuel: nat): Unmined
    requires m <= |sh|
    decreases fuel, 0, m
  {
    if m == 0 then s
    else
      var p := RemoveAll(s, sh, m - 1, fuel);
      if sh[m - 1] in p.txs && fuel > 0 then RemoveTx(p, p.txs[sh[m - 1]], fuel - 1) else p
  }

  lemma OutputsNone(s: Unmined, t: Tx, fuel: nat)
    ensures RemoveOutputs(s, t, 0, fuel) == s
  {
  }

  lemma OutputsNext(s: Unmined, t: Tx, i: nat, fuel: nat)
    ensures var p := RemoveOutputs(s, t, i, fuel);
      var sh := SpendersOf(p.inputs, OutPoint(t.hash, i));
      var q := RemoveAll(p, sh, |sh|, fuel);
      RemoveOutputs(s, t, i + 1, fuel) == q.(credits := q.credits - {OutPoint(t.hash, i)})
  {
  }

  lemma AllNone(s: Unmined, sh: seq<Hash>, fuel: nat)
    ensures RemoveAll(s, sh, 0, fuel) == s
  {
  }

  lemma AllNext(s: Unmined, sh: seq<Hash>, j: nat, fuel: nat)
    requires j < |sh|
    ensures var p := RemoveAll(s, sh, j, fuel);
      RemoveAll(s, sh, j + 1, fuel) ==
      if sh[j] in p.txs && fuel > 0 then RemoveTx(p, p.txs[sh[j]], fuel - 1) else p
  {
  }

  lemma TxIs(s: Unmined, t: Tx, fuel: nat)
    ensures var p := RemoveOutputs(s, t, |t.outs|, fuel);
      RemoveTx(s, t, fuel) ==
      Unmined(p.txs - {t.hash}, p.inputs - (set i | 0 <= i < |t.ins| :: t.ins[i].prev), p.credits)
  {
  }

  /** With the spenders of the first n tracked inputs of a mined transaction removed. */
  function RemoveDoubles(env: Env, s: Unmined, rec: Tx, n: nat, fuel: nat): Unmined
    requires n <= |rec.ins|
    decreases n
  {
    if n == 0 then s
    else
      var p := RemoveDoubles(env, s, rec, n - 1, fuel);
      if RelIn(env, rec, n - 1) then
        var sh := SpendersOf(p.inputs, rec.ins[n - 1].prev);
        RemoveAll(p, sh, |sh|, fuel)
      else p
  }

  function DoublesRemoved(env: Env, s: Unmined, rec: Tx, fuel: nat): Unmined {
    var p := RemoveDoubles(env, s, rec, |rec.ins|, fuel);
    p.(inputs := p.inputs - (set i | 0 <= i < |rec.ins| :: rec.ins[i].prev))
  }

  /** The buckets after rec is mined. */
  function Mined(env: Env, s: Unmined, rec: Tx, fuel: nat): Unmined {
    var left := set op <- s.credits | !(op.hash == rec.hash && op.index < |rec.outs|);
    DoublesRemoved(env, if rec.hash in s.txs then Unmined(s.txs - {rec.hash}, s.inputs, left) else s, rec, fuel)
  }

  /** How deep a removal can still go when `above` are already being removed. */
  ghost function Depth(g: Graph, above: set<Hash>): nat { |g.Keys - above| }

  lemma LessFuel(g: Graph, above: set<Hash>, h: Hash)
    requires h in g && h !in above
    ensures Depth(g, above) > 0 && Depth(g, above + {h}) == Depth(g, above) - 1
  {
    assert g.Keys - above == g.Keys - (above + {h}) + {h};
  }

  // ---------- the store ----------

  /** The unmined buckets. A hash determines a transaction: world holds all there are. */
  class UnminedStore {
    const env: Env
    ghost const world: Graph
    var unmined: Graph
    var inputs: map<OutPoint, seq<Hash>>
    var credits: set<OutPoint>

    constructor (env: Env, ghost world: Graph)
      requires Keyed(world)
      ensures this.env == env && this.world == world && unmined == map[] && inputs == map[] && credits == {}
      ensures Valid() && Sound()
    {
      this.env, this.world := env, world;
      unmined, inputs, credits := map[], map[], {};
    }

    /** The three buckets. */
    ghost function Buckets(): Unmined
      reads this
    {
      Unmined(unmined, inputs, credits)
    }

    /** What holds whatever transactions compete for an outpoint. */
    ghost predicate Sound()
      reads this
    {
      Keyed(world) && Sub(unmined, world) && Named(env, world, inputs)
    }

    /** Each outpoint has at most one unmined spender, and the index is exact. */
    ghost predicate Valid()
      reads this
    {
      Consistent(env, unmined, inputs)
    }

    /** Every unmined credit is an output of an unmined transaction. */
    ghost predicate Backed()
      reads this
    {
      forall op <- credits :: op.hash in unmined && op.index < |unmined[op.hash].outs|
    }

    /** A received transaction is stored, and appended to the index entries of its tracked inputs; if it competes
        with no other for an outpoint, the index stays exact. */
    method InsertMemPoolTx(rec: Tx) returns (ok: bool)
      requires Sound() && rec.hash in world && world[rec.hash] == rec
      modifies `unmined, `inputs
      ensures Sound() && ok == !rec.coinbase
      ensures unmined == if !ok || rec.hash in old(unmined) then old(unmined) else old(unmined)[rec.hash := rec]
      ensures inputs ==
        if !ok || rec.hash in old(unmined) then old(inputs) else PutInputs(env, old(inputs), rec, |rec.ins|)
      ensures ok && rec.hash !in old(unmined) ==>
        forall k :: PutAt(env, old(inputs), rec, |rec.ins|, inputs, k)
      ensures old(Valid()) && SingleSpender(unmined) ==> Valid()
    {
      hide Exact, SingleSpender, Named;
      if rec.coinbase {
        return false;
      }
      if rec.hash in unmined {
        return true;
      }
      unmined := unmined[rec.hash := rec];
      for i := 0 to |rec.ins|
        invariant unmined == old(unmined)[rec.hash := rec]
        invariant inputs == PutInputs(env, old(inputs), rec, i)
      {
        if RelIn(env, rec, i) {
          var k := rec.ins[i].prev;
          inputs := PutUnminedInput(inputs, k, rec.hash);
        }
      }
      PutNamed(env, world, old(inputs), rec, |rec.ins|);
      forall k ensures PutAt(env, old(inputs), rec, |rec.ins|, inputs, k) {
        PutTracked(env, old(inputs), rec, |rec.ins|, k);
      }
      if old(Valid()) && SingleSpender(unmined) {
        PutExact(env, old(unmined), old(inputs), rec);
      }
      ok := true;
    }

    /** A credit for each output that pays a ready wallet, unless one of them has a credit or an unspent entry. */
    method AddUnminedCredits(rec: Tx, unspent: map<UnspentKey, BlockId>) returns (ok: bool)
      modifies `credits
      ensures ok <==>
        forall i: nat | i < |rec.outs| && Paid(env, Some(rec.outs[i].script)) ::
          OutPoint(rec.hash, i) !in old(credits) && rec.outs[i].value <= env.maxAmount &&
          UnspentKey(env.owner[rec.outs[i].script], OutPoint(rec.hash, i)) !in unspent
      ensures ok ==> forall op ::
        op in credits <==>
        op in old(credits) ||
        (op.hash == rec.hash && op.index < |rec.outs| && Paid(env, Some(rec.outs[op.index].script)))
    {
      for i := 0 to |rec.outs|
        invariant forall j: nat | j < i && Paid(env, Some(rec.outs[j].script)) ::
          OutPoint(rec.hash, j) !in old(credits) && rec.outs[j].value <= env.maxAmount &&
          UnspentKey(env.owner[rec.outs[j].script], OutPoint(rec.hash, j)) !in unspent
        invariant forall op ::
          op in credits <==>
          op in old(credits) || (op.hash == rec.hash && op.index < i && Paid(env, Some(rec.outs[op.index].script)))
      {
        if RelOut(env, rec, i) {
          var k := OutPoint(rec.hash, i);
          var output := rec.outs[i];
          if k in credits || UnspentKey(env.owner[output.script], k) in unspent || output.value > env.maxAmount {
            return false;
          }
          credits := credits + {k};
        }
      }
      ok := true;
    }

    /** A received transaction and its credits are added in one database transaction, which an error takes back. */
    method ReceiveTx(rec: Tx, unspent: map<UnspentKey, BlockId>) returns (ok: bool)
      requires Sound() && rec.hash in world && world[rec.hash] == rec
      modifies this
      ensures Sound() && (old(Backed()) ==> Backed())
      ensures ok <==>
        !rec.coinbase && forall i: nat | i < |rec.outs| && Paid(env, Some(rec.outs[i].script)) ::
          OutPoint(rec.hash, i) !in old(credits) && rec.outs[i].value <= env.maxAmount &&
          UnspentKey(env.owner[rec.outs[i].script], OutPoint(rec.hash, i)) !in unspent
      ensures !ok ==> unmined == old(unmined) && inputs == old(inputs) && credits == old(credits)
      ensures ok ==> unmined == old(unmined)[rec.hash := rec]
      ensures ok && rec.hash !in old(unmined) ==>
        forall k :: PutAt(env, old(inputs), rec, |rec.ins|, inputs, k)
      ensures ok && rec.hash in old(unmined) ==> inputs == old(inputs)
      ensures ok ==> forall op ::
        op in credits <==>
        op in old(credits) ||
        (op.hash == rec.hash && op.index < |rec.outs| && Paid(env, Some(rec.outs[op.index].script)))
    {
      hide Paid, PutAt, Named, Exact, SingleSpender;
      var txs, index, coins := unmined, inputs, credits;
      ok := InsertMemPoolTx(rec);
      if ok {
        ok := AddUnminedCredits(rec, unspent);
      }
      if !ok {
        unmined, inputs, credits := txs, index, coins;
      }
    }

    /** Delete the index entry of every input, tracked or not. */
    method DeleteUnminedInputs(rec: Tx)
      modifies `inputs
      ensures inputs == old(inputs) - (set i | 0 <= i < |rec.ins| :: rec.ins[i].prev)
    {
      for i := 0 to |rec.ins|
        invariant inputs == old(inputs) - (set j | 0 <= j < i :: rec.ins[j].prev)
      {
        var k := rec.ins[i].prev;
        if k in inputs {
          inputs := inputs - {k};
        }
      }
    }

    /** Remove an unmined transaction with everything found to spend from it: it goes itself, and only descendants of
        it go with it, with their credits and index entries. If it is settled, or led to by the removal of one that
        is, all its descendants go. `above` are the transactions whose removal led here, `hand` the outpoints whose
        spenders they were removing, and `d` and `roots` what that removal is after. */
    method RemoveConflict(rec: Tx, ghost g0: Graph, ghost above: set<Hash>, ghost d: set<Hash>,
                          ghost roots: set<OutPoint>, ghost hand: set<OutPoint>)
      returns (ghost gone: set<Hash>)
      requires Sound() && rec.hash in unmined && unmined[rec.hash] == rec
      requires Acyclic(env, g0) && Sub(unmined, g0)
      requires above <= g0.Keys && forall a <- above :: Under(env, g0, a, rec.hash)
      modifies this
      ensures Sound() && unmined == old(unmined) - gone
      ensures rec.hash in gone && gone <= Descendants(env, old(unmined), rec.hash)
      ensures forall op ::
        op in credits <==>
        op in old(credits) && !(op.hash in gone && op.hash in old(unmined) && op.index < |old(unmined)[op.hash].outs|)
      ensures inputs == old(inputs) - Points(old(unmined), gone)
      ensures Led(env, g0, above, d, roots, old(unmined), old(inputs), hand, rec.hash) ==>
        gone == Descendants(env, old(unmined), rec.hash)
      ensures old(Valid()) ==> Valid()
      ensures old(Backed()) ==> Backed()
      ensures Buckets() == RemoveTx(old(Buckets()), rec, Depth(g0, above))
      decreases g0.Keys - above, 1
    {
      hide Acyclic, Closed, Descendants, Under, Removing, CreditsLeft, Spends, Child, Reach, Consistent,
           Named, RemoveTx, RemoveOutputs, RemoveAll, Entangled, Listed, Points, Doomed, Depth;
      ghost var s0, fuel := Buckets(), Depth(g0, above);
      ghost var led := Led(env, g0, above, d, roots, unmined, inputs, hand, rec.hash);
      ghost var g, old_credits, index := unmined, credits, inputs;
      ghost var r: set<Hash> := {};
      NotAbove(env, g0, g, above, rec.hash);
      assert Without(g, r) == g;
      RemovingStart(env, g, rec.hash, credits);
      LessFuel(g0, above, rec.hash);
      OutputsNone(s0, rec, fuel);
      NoPoints(g, index);
      for i := 0 to |rec.outs|
        invariant Buckets() == RemoveOutputs(s0, rec, i, fuel)
        invariant Sound() && Gone(env, g, rec.hash, r) && unmined == Without(g, r) && inputs == index - Points(g, r)
        invariant CreditsLeft(g, old_credits, credits, r, rec.hash, i)
        invariant led ==> Removing(env, g, rec.hash, r, i) && Listed(env, g0, d, roots, unmined, inputs, hand)
      {
        var k := OutPoint(rec.hash, i);
        var spenderHashes := if k in inputs then inputs[k] else [];
        LookupNamed(env, world, inputs, k);
        if led {
          HandIsAbove(env, g0, above, hand, rec.hash, i);
          DoomedOutput(g0, d, roots, k);
          Lookup(env, g0, d, roots, unmined, inputs, hand, k);
        }
        r := RemoveListed(rec, i, spenderHashes, g0, above, d, roots, hand, g, old_credits, index, r, led);
        if led {
          RemovingNext(env, g, rec.hash, r, i);
        }
        CreditsNext(g, old_credits, credits, r, rec.hash, i);
        OutputsNext(s0, rec, i, fuel);
        credits := credits - {k};
      }
      TxIs(s0, rec, fuel);
      if led {
        AllRemoved(env, g, rec.hash, r);
      }
      CreditsDone(g, old_credits, credits, r, rec.hash);
      NamedWithout(env, world, inputs, set i | 0 <= i < |rec.ins| :: rec.ins[i].prev);
      PointsOne(Without(g, r), rec);
      PointsMore(g, index, r, {rec.hash});
      DeleteUnminedInputs(rec);
      unmined := unmined - {rec.hash};
      gone := r + {rec.hash};
      ItselfToo(env, g, rec.hash);
      assert unmined == g - gone;
      if old(Valid()) {
        ExactWithout(env, g, index, gone);
      }
    }

    /** Remove the transactions that the index named for output i of rec, as far as they are still there. */
    method RemoveListed(rec: Tx, i: nat, spenderHashes: seq<Hash>, ghost g0: Graph, ghost above: set<Hash>,
                        ghost d: set<Hash>, ghost roots: set<OutPoint>, ghost hand: set<OutPoint>, ghost g: Graph,
                        ghost before: set<OutPoint>, ghost index: map<OutPoint, seq<Hash>>, ghost gone: set<Hash>,
                        ghost led: bool)
      returns (ghost r: set<Hash>)
      requires Sound() && rec.hash in g && g[rec.hash] == rec && i < |rec.outs| && rec.hash !in above
      requires Acyclic(env, g0) && Acyclic(env, g) && Sub(g, g0) && Sub(g, world)
      requires above <= g0.Keys && forall a <- above :: Under(env, g0, a, rec.hash)
      requires Gone(env, g, rec.hash, gone) && unmined == Without(g, gone) && inputs == index - Points(g, gone)
      requires CreditsLeft(g, before, credits, gone, rec.hash, i)
      requires forall h <- spenderHashes :: h in world && Spends(env, world[h], OutPoint(rec.hash, i))
      requires led ==>
        Led(env, g0, above, d, roots, unmined, inputs, hand, rec.hash) &&
        Removing(env, g, rec.hash, gone, i) && Doomed(g0, d, roots, OutPoint(rec.hash, i)) &&
        forall c <- unmined :: Spends(env, unmined[c], OutPoint(rec.hash, i)) ==> c in spenderHashes
      modifies this
      ensures Sound() && Gone(env, g, rec.hash, r) && unmined == Without(g, r) && inputs == index - Points(g, r)
      ensures CreditsLeft(g, before, credits, r, rec.hash, i)
      ensures led ==>
        Removing(env, g, rec.hash, r, i) && Listed(env, g0, d, roots, unmined, inputs, hand) &&
        forall c <- g :: Spends(env, g[c], OutPoint(rec.hash, i)) ==> c in r
      ensures Buckets() == RemoveAll(old(Buckets()), spenderHashes, |spenderHashes|, Depth(g0, above))
      decreases g0.Keys - above, 0
    {
      hide Acyclic, Closed, Descendants, Under, Removing, CreditsLeft, Spends, Child, Reach, Exact, SingleSpender,
           Named, RemoveTx, RemoveOutputs, RemoveAll, Entangled, Listed, Points, Doomed, Depth;
      ghost var p, fuel, k := Buckets(), Depth(g0, above), OutPoint(rec.hash, i);
      r := gone;
      LessFuel(g0, above, rec.hash);
      AllNone(p, spenderHashes, fuel);
      if led {
        ListedMore(env, g0, d, roots, unmined, inputs, hand, k);
      }
      for j := 0 to |spenderHashes|
        invariant Buckets() == RemoveAll(p, spenderHashes, j, fuel)
        invariant Sound() && Gone(env, g, rec.hash, r) && unmined == Without(g, r) && gone <= r
        invariant inputs == index - Points(g, r)
        invariant CreditsLeft(g, before, credits, r, rec.hash, i)
        invariant led ==> Removing(env, g, rec.hash, r, i) && Listed(env, g0, d, roots, unmined, inputs, hand + {k})
        invariant forall h <- spenderHashes[..j] :: h !in unmined
      {
        var spenderHash := spenderHashes[j];
        AllNext(p, spenderHashes, j, fuel);
        assert spenderHashes[..j + 1] == spenderHashes[..j] + [spenderHash];
        if spenderHash in unmined {
          assert spenderHash in spenderHashes;
          SpenderIsChild(env, g, rec.hash, i, spenderHash);
          if led {
            RemovingStep(env, g, rec.hash, r, i, spenderHash);
            LedDown(env, g0, above, d, roots, unmined, inputs, hand, rec.hash, i, spenderHash);
            ListedStep(env, g0, d, roots, unmined, inputs, hand + {k}, spenderHash, k);
          }
          BelowChild(env, g0, g, above, rec.hash, spenderHash);
          ghost var left, h := credits, unmined;
          ghost var more := RemoveConflict(unmined[spenderHash], g0, above + {rec.hash}, d, roots, hand + {k});
          GoneStep(env, g, rec.hash, r, spenderHash, more);
          CreditsStep(g, before, left, credits, r, more, rec.hash, i);
          PointsMore(g, index, r, more);
          r := r + more;
        }
      }
      assert spenderHashes[..|spenderHashes|] == spenderHashes;
      if led {
        ListedAgain(env, g0, d, roots, unmined, inputs, hand, k);
      }
    }

    /** What a mined transaction does to the unmined buckets: it leaves them itself, and only unmined transactions
        that spend one of its tracked inputs, and descendants of those, go with it. If these are settled, all of them
        go. The index stays exact if it was. */
    method RemoveMined(rec: Tx) returns (ghost gone: set<Hash>)
      requires Sound() && Acyclic(env, unmined) && rec.hash in world && world[rec.hash] == rec
      modifies this
      ensures Sound() && unmined == old(unmined) - {rec.hash} - gone
      ensures gone <= Displaced(env, old(unmined) - {rec.hash}, rec, |rec.ins|)
      ensures SettledFor(env, old(unmined) - {rec.hash}, old(inputs), rec) ==>
        gone == Displaced(env, old(unmined) - {rec.hash}, rec, |rec.ins|) &&
        forall h <- unmined, i: nat | i < |rec.ins| && RelIn(env, rec, i) :: !Spends(env, unmined[h], rec.ins[i].prev)
      ensures forall op ::
        op in credits <==>
        op in old(credits) &&
        !(op.hash in gone && op.hash in old(unmined) && op.index < |old(unmined)[op.hash].outs|) &&
        !(rec.hash in old(unmined) && op.hash == rec.hash && op.index < |rec.outs|)
      ensures inputs == old(inputs) - Points(old(unmined), gone) - set i | 0 <= i < |rec.ins| :: rec.ins[i].prev
      ensures old(Valid()) && Comparable(env, old(unmined), rec) ==>
        Valid() && SettledFor(env, old(unmined) - {rec.hash}, old(inputs), rec)
      ensures old(Backed()) ==> Backed()
      ensures Buckets() == Mined(env, old(Buckets()), rec, Depth(old(unmined) - {rec.hash}, {}) + 1)
    {
      hide Acyclic, Displaced, Spends, Consistent, Named, Comparable, SettledFor, DoublesRemoved, Points, Reach,
           Descendants, Child, RelIn, Closed, Depth;
      ghost var g, index := unmined, inputs;
      if rec.hash in unmined {
        credits := set op <- credits | !(op.hash == rec.hash && op.index < |rec.outs|);
        unmined := unmined - {rec.hash};
      }
      assert unmined == g - {rec.hash};
      ghost var h := unmined;
      AcyclicSub(env, g, h);
      gone := RemoveDoubleSpends(rec);
      DisplacedApart(env, h, rec, |rec.ins|);
      PointsApart(g, rec.hash, gone);
      if SettledFor(env, h, index, rec) {
        NoSpender(env, h, gone, rec);
      }
      if old(Valid()) && Comparable(env, g, rec) {
        ValidIsSettledFor(env, g, index, rec);
        ExactMined(env, g, index, rec, gone);
      }
    }

    /** Remove the unmined transactions that compete with a mined one for a tracked input. */
    method RemoveDoubleSpends(rec: Tx) returns (ghost gone: set<Hash>)
      requires Sound() && Acyclic(env, unmined) && rec.hash in world && world[rec.hash] == rec
      requires rec.hash !in unmined
      modifies this
      ensures Sound() && unmined == old(unmined) - gone
      ensures gone <= Displaced(env, old(unmined), rec, |rec.ins|)
      ensures inputs ==
        old(inputs) - Points(old(unmined), gone) - (set i | 0 <= i < |rec.ins| :: rec.ins[i].prev)
      ensures forall op ::
        op in credits <==>
        op in old(credits) && !(op.hash in gone && op.hash in old(unmined) && op.index < |old(unmined)[op.hash].outs|)
      ensures SettledFor(env, old(unmined), old(inputs), rec) ==>
        gone == Displaced(env, old(unmined), rec, |rec.ins|)
      ensures old(Backed()) ==> Backed()
      ensures Buckets() == DoublesRemoved(env, old(Buckets()), rec, Depth(old(unmined), {}) + 1)
    {
      hide Descendants, Acyclic, Reach, Child, Consistent, Displaced, Closed, Spends, Named, Entangled, Listed,
           RemoveAll, Points, DoubleSpends, RelIn, Tracked, Depth, CreditsLeft;
      ghost var g, index, s0, n := unmined, inputs, Buckets(), |rec.ins|;
      ghost var had := credits;
      ghost var settled := SettledFor(env, g, index, rec);
      gone := {};
      assert Without(g, {}) == g;
      NoPoints(g, index);
      ClosedNone(env, g);
      CreditsAll(g, credits, rec.hash);
      for i := 0 to |rec.ins|
        invariant Buckets() == RemoveDoubles(env, s0, rec, i, Depth(g, {}) + 1)
        invariant Sound() && gone <= Displaced(env, g, rec, n) && unmined == Without(g, gone)
        invariant inputs == index - Points(g, gone) && CreditsLeft(g, had, credits, gone, rec.hash, 0)
        invariant settled ==>
          Closed(env, g, gone) &&
          Listed(env, g, Displaced(env, g, rec, n), Tracked(env, rec), unmined, inputs, {})
        invariant settled ==> forall c <- g, j: nat | j < i && DoubleSpends(env, g, rec, j, c) :: c in gone
      {
        if RelIn(env, rec, i) {
          gone := RemoveSpenders(rec, g, i, gone, index, had, settled);
        } else {
          NoDouble(env, g, rec, i);
        }
      }
      if settled {
        AllDisplaced(env, g, rec, n, gone);
      }
      CreditsRest(g, had, credits, gone, rec.hash);
      NamedWithout(env, world, inputs, set i | 0 <= i < |rec.ins| :: rec.ins[i].prev);
      DeleteUnminedInputs(rec);
    }

    /** Remove the unmined transactions that spend input i of rec. */
    method RemoveSpenders(rec: Tx, ghost g: Graph, i: nat, ghost before: set<Hash>,
                          ghost index: map<OutPoint, seq<Hash>>, ghost had: set<OutPoint>, ghost settled: bool)
      returns (ghost gone: set<Hash>)
      requires Sound() && Acyclic(env, g) && Sub(g, world) && rec.hash in world && world[rec.hash] == rec
      requires i < |rec.ins| && RelIn(env, rec, i)
      requires before <= Displaced(env, g, rec, |rec.ins|) && unmined == Without(g, before)
      requires inputs == index - Points(g, before) && CreditsLeft(g, had, credits, before, rec.hash, 0)
      requires settled ==>
        Closed(env, g, before) && SettledFor(env, g, index, rec) &&
        Listed(env, g, Displaced(env, g, rec, |rec.ins|), Tracked(env, rec), unmined, inputs, {})
      modifies this
      ensures Sound() && before <= gone <= Displaced(env, g, rec, |rec.ins|) && unmined == Without(g, gone)
      ensures inputs == index - Points(g, gone) && CreditsLeft(g, had, credits, gone, rec.hash, 0)
      ensures settled ==>
        Closed(env, g, gone) &&
        Listed(env, g, Displaced(env, g, rec, |rec.ins|), Tracked(env, rec), unmined, inputs, {}) &&
        forall c <- g :: DoubleSpends(env, g, rec, i, c) ==> c in gone
      ensures Buckets() ==
        var sh := SpendersOf(old(inputs), rec.ins[i].prev); RemoveAll(old(Buckets()), sh, |sh|, Depth(g, {}) + 1)
    {
      hide Descendants, Acyclic, Reach, Child, Consistent, Displaced, Closed, Spends, Named, RemoveTx, RemoveAll,
           Entangled, Listed, Points, RelIn, Tracked, Depth, CreditsLeft;
      ghost var d, roots, s0, n := Displaced(env, g, rec, |rec.ins|), Tracked(env, rec), Buckets(), |rec.ins|;
      gone := before;
      var prevOut := rec.ins[i].prev;
      var spenderHashes := if prevOut in inputs then inputs[prevOut] else [];
      LookupNamed(env, world, inputs, prevOut);
      ghost var none: set<OutPoint> := {};
      assert none + {prevOut} == {prevOut};
      if settled {
        TrackedIsDoomed(env, g, d, rec, i);
        Lookup(env, g, d, roots, unmined, inputs, {}, prevOut);
        ListedMore(env, g, d, roots, unmined, inputs, {}, prevOut);
      }
      AllNone(s0, spenderHashes, Depth(g, {}) + 1);
      for j := 0 to |spenderHashes|
        invariant Buckets() == RemoveAll(s0, spenderHashes, j, Depth(g, {}) + 1)
        invariant Sound() && before <= gone <= d && unmined == Without(g, gone)
        invariant inputs == index - Points(g, gone) && CreditsLeft(g, had, credits, gone, rec.hash, 0)
        invariant settled ==> Closed(env, g, gone) && Listed(env, g, d, roots, unmined, inputs, {prevOut})
        invariant forall h <- spenderHashes[..j] :: h !in unmined
      {
        var doubleSpendHash := spenderHashes[j];
        AllNext(s0, spenderHashes, j, Depth(g, {}) + 1);
        assert spenderHashes[..j + 1] == spenderHashes[..j] + [doubleSpendHash];
        if doubleSpendHash in unmined {
          assert doubleSpendHash in spenderHashes;
          assert Sub(unmined, g);
          AcyclicSub(env, g, unmined);
          if settled {
            DisplacedClosed(env, g, rec, n);
            DisplacedHolds(env, g, rec, i, doubleSpendHash, g, {});
            DisplacedMonotone(env, g, rec, i + 1, n);
            ListedStep(env, g, d, roots, unmined, inputs, {prevOut}, doubleSpendHash, prevOut);
            ClosedGrows(env, g, gone, doubleSpendHash);
          }
          ghost var left := credits;
          ghost var more := RemoveConflict(unmined[doubleSpendHash], g, {}, d, roots, {prevOut});
          DisplacedHolds(env, g, rec, i, doubleSpendHash, Without(g, gone), more);
          DisplacedMonotone(env, g, rec, i + 1, n);
          RemovedApart(env, g, gone, doubleSpendHash, more);
          CreditsStep(g, had, left, credits, gone, more, rec.hash, 0);
          PointsMore(g, index, gone, more);
          gone := gone + more;
        }
      }
      assert spenderHashes[..|spenderHashes|] == spenderHashes;
      if settled {
        ListedAgain(env, g, d, roots, unmined, inputs, {}, prevOut);
      }
    }
  }

  // ---------- two spenders of one outpoint ----------

  const OWN: Env := Env(map[1 := 7], {7}, 100)
  const ROOT: Tx := Tx(1, false, [TxIn(OutPoint(0, 0), Some(1))], [TxOut(1, 1), TxOut(1, 1)])
  const PARENT: Tx := Tx(2, false, [TxIn(OutPoint(1, 1), Some(1))], [TxOut(1, 1)])
  const BOTH: Tx := Tx(3, false, [TxIn(OutPoint(1, 0), Some(1)), TxIn(OutPoint(2, 0), Some(1))], [])
  const ORPHAN: Tx := Tx(4, false, [TxIn(OutPoint(2, 0), Some(1))], [])
  const FOUR: Graph := map[1 := ROOT, 2 := PARENT, 3 := BOTH, 4 := ORPHAN]
  const FOUR_INPUTS: map<OutPoint, seq<Hash>> :=
    map[OutPoint(0, 0) := [1], OutPoint(1, 1) := [2], OutPoint(1, 0) := [3], OutPoint(2, 0) := [3, 4]]

  lemma PutOne(m: map<OutPoint, seq<Hash>>, t: Tx)
    requires |t.ins| == 1 && RelIn(OWN, t, 0)
    ensures PutInputs(OWN, m, t, 1) == PutUnminedInput(m, t.ins[0].prev, t.hash)
  {
    assert PutInputs(OWN, m, t, 0) == m;
  }

  lemma PutFour()
    ensures var m1 := PutInputs(OWN, map[], ROOT, 1);
      var m2 := PutInputs(OWN, m1, PARENT, 1);
      var m3 := PutInputs(OWN, m2, BOTH, 2);
      PutInputs(OWN, m3, ORPHAN, 1) == FOUR_INPUTS
  {
    PutOne(map[], ROOT);
    var m1 := PutInputs(OWN, map[], ROOT, 1);
    PutFresh(map[], OutPoint(0, 0), 1);
    assert m1 == map[OutPoint(0, 0) := [1]];
    PutOne(m1, PARENT);
    var m2 := PutInputs(OWN, m1, PARENT, 1);
    PutFresh(m1, OutPoint(1, 1), 2);
    assert m2 == m1[OutPoint(1, 1) := [2]];
    PutTwo(m2);
    PutFresh(m2, OutPoint(1, 0), 3);
    PutFresh(m2[OutPoint(1, 0) := [3]], OutPoint(2, 0), 3);
    var m3 := PutInputs(OWN, m2, BOTH, 2);
    assert m3 == m2[OutPoint(1, 0) := [3]][OutPoint(2, 0) := [3]];
    PutOne(m3, ORPHAN);
    assert [3] + [4] == [3, 4];
  }

  lemma PutFresh(m: map<OutPoint, seq<Hash>>, k: OutPoint, h: Hash)
    requires k !in m
    ensures PutUnminedInput(m, k, h) == m[k := [h]]
  {
    assert [] + [h] == [h];
  }

  lemma PutTwo(m: map<OutPoint, seq<Hash>>)
    ensures PutInputs(OWN, m, BOTH, 2) ==
            PutUnminedInput(PutUnminedInput(m, OutPoint(1, 0), 3), OutPoint(2, 0), 3)
  {
    assert RelIn(OWN, BOTH, 0) && RelIn(OWN, BOTH, 1);
    assert PutInputs(OWN, m, BOTH, 0) == m;
    assert PutInputs(OWN, m, BOTH, 1) == PutUnminedInput(m, OutPoint(1, 0), 3);
  }

  /** In a graph whose links go to larger hashes there is no cycle. */
  lemma {:induction false} Climbs(env: Env, g: Graph, x: Hash, y: Hash, n: nat)
    requires (forall p, c :: Child(env, g, p, c) ==> p < c) && Reach(env, g, x, y, n)
    ensures x + n <= y
    decreases n
  {
    if n > 0 {
      var c :| c in g && Child(env, g, x, c) && Reach(env, g, c, y, n - 1);
      Climbs(env, g, c, y, n - 1);
    }
  }

  lemma FourAcyclic()
    ensures Acyclic(OWN, FOUR)
  {
    forall p, c | Child(OWN, FOUR, p, c) ensures p < c {
      var i: nat :| i < |FOUR[c].ins| && RelIn(OWN, FOUR[c], i) && FOUR[c].ins[i].prev.hash == p;
      assert c == 1 || c == 2 || c == 3 || c == 4;
    }
    forall x <- FOUR, n: nat | n > 0 ensures !Reach(OWN, FOUR, x, x, n) {
      if Reach(OWN, FOUR, x, x, n) {
        Climbs(OWN, FOUR, x, x, n);
      }
    }
  }

  lemma OrphanDescends()
    ensures 4 in Descendants(OWN, FOUR, 1)
  {
    assert RelIn(OWN, PARENT, 0) && RelIn(OWN, ORPHAN, 0);
    assert Child(OWN, FOUR, 1, 2) && Child(OWN, FOUR, 2, 4);
    assert Reach(OWN, FOUR, 4, 4, 0);
    assert Reach(OWN, FOUR, 2, 4, 1);
    assert Reach(OWN, FOUR, 1, 4, 2);
  }

  lemma {:induction false} RemoveLeaf(s: Unmined, t: Tx, fuel: nat)
    requires forall i: nat | i < |t.outs| :: SpendersOf(s.inputs, OutPoint(t.hash, i)) == []
    ensures var r := RemoveTx(s, t, fuel);
      r.txs == s.txs - {t.hash} && r.inputs == s.inputs - (set i | 0 <= i < |t.ins| :: t.ins[i].prev)
  {
    hide RemoveOutputs;
    LeafOutputs(s, t, |t.outs|, fuel);
  }

  lemma {:induction false} LeafOutputs(s: Unmined, t: Tx, n: nat, fuel: nat)
    requires n <= |t.outs| && forall i: nat | i < |t.outs| :: SpendersOf(s.inputs, OutPoint(t.hash, i)) == []
    ensures var r := RemoveOutputs(s, t, n, fuel); r.txs == s.txs && r.inputs == s.inputs
    decreases n
  {
    hide RemoveAll;
    if n > 0 {
      LeafOutputs(s, t, n - 1, fuel);
      AllNone(RemoveOutputs(s, t, n - 1, fuel), [], fuel);
    } else {
      OutputsNone(s, t, fuel);
    }
  }

  lemma RemoveListedOne(s: Unmined, h: Hash, fuel: nat)
    requires h in s.txs && fuel > 0
    ensures RemoveAll(s, [h], 1, fuel) == RemoveTx(s, s.txs[h], fuel - 1)
  {
    hide RemoveTx;
    AllNone(s, [h], fuel);
    AllNext(s, [h], 0, fuel);
  }

  /** The first output of ROOT leads to BOTH, whose removal deletes the entry it shares with ORPHAN. */
  lemma AfterFirst(credits: set<OutPoint>, fuel: nat)
    requires fuel > 0
    ensures var p := RemoveOutputs(Unmined(FOUR, FOUR_INPUTS, credits), ROOT, 1, fuel);
      p.txs == map[1 := ROOT, 2 := PARENT, 4 := ORPHAN] && p.inputs == map[OutPoint(0, 0) := [1], OutPoint(1, 1) := [2]]
  {
    hide RemoveAll, RemoveOutputs, RemoveTx;
    var s := Unmined(FOUR, FOUR_INPUTS, credits);
    OutputsNone(s, ROOT, fuel);
    OutputsNext(s, ROOT, 0, fuel);
    RemoveListedOne(s, 3, fuel);
    RemoveLeaf(s, BOTH, fuel - 1);
    assert (set i | 0 <= i < |BOTH.ins| :: BOTH.ins[i].prev) == {OutPoint(1, 0), OutPoint(2, 0)} by {
      assert BOTH.ins[0].prev == OutPoint(1, 0) && BOTH.ins[1].prev == OutPoint(2, 0);
    }
  }

  /** The second leads to PARENT, for which the index has no spender any more. */
  lemma AfterRoot(credits: set<OutPoint>, fuel: nat)
    requires fuel > 0
    ensures RemoveTx(Unmined(FOUR, FOUR_INPUTS, credits), ROOT, fuel).txs == map[4 := ORPHAN]
  {
    hide RemoveAll, RemoveOutputs, RemoveTx;
    var s := Unmined(FOUR, FOUR_INPUTS, credits);
    AfterFirst(credits, fuel);
    var p := RemoveOutputs(s, ROOT, 1, fuel);
    OutputsNext(s, ROOT, 1, fuel);
    RemoveListedOne(p, 2, fuel);
    RemoveLeaf(p, PARENT, fuel - 1);
    TxIs(s, ROOT, fuel);
  }

  /** With two unmined spenders of one outpoint, removal can leave a descendant behind: PARENT spends ROOT, BOTH spends
      ROOT and PARENT, ORPHAN spends PARENT as well, and removing ROOT leaves ORPHAN. */
  method LeavesOrphan() returns (left: Graph)
    ensures left == map[4 := ORPHAN] && 4 in Descendants(OWN, FOUR, 1)
  {
    hide Descendants, Acyclic, RemoveTx, Exact, SingleSpender, Displaced, PutInputs;
    var store := new UnminedStore(OWN, FOUR);
    PutFour();
    var _ := store.InsertMemPoolTx(ROOT);
    var _ := store.InsertMemPoolTx(PARENT);
    var _ := store.InsertMemPoolTx(BOTH);
    var _ := store.InsertMemPoolTx(ORPHAN);
    assert store.unmined == FOUR && store.inputs == FOUR_INPUTS;
    FourAcyclic();
    OrphanDescends();
    AfterRoot(store.credits, Depth(FOUR, {}));
    ghost var gone := store.RemoveConflict(ROOT, FOUR, {}, {}, {}, {});
    left := store.unmined;
  }

  const FIRST: Tx := Tx(11, false, [TxIn(OutPoint(0, 0), Some(1)), TxIn(OutPoint(0, 1), Some(1))], [])
  const SECOND: Tx := Tx(12, false, [TxIn(OutPoint(0, 1), Some(1))], [])
  const RIVAL: Tx := Tx(13, false, [TxIn(OutPoint(0, 0), Some(1)), TxIn(OutPoint(0, 1), Some(1))], [])
  const THREE: Graph := map[11 := FIRST, 12 := SECOND, 13 := RIVAL]
  const PAIR: Graph := map[11 := FIRST, 12 := SECOND]
  const PAIR_INPUTS: map<OutPoint, seq<Hash>> := map[OutPoint(0, 0) := [11], OutPoint(0, 1) := [11, 12]]

  lemma PutPair()
    ensures PutInputs(OWN, PutInputs(OWN, map[], FIRST, 2), SECOND, 1) == PAIR_INPUTS
  {
    assert RelIn(OWN, FIRST, 0) && RelIn(OWN, FIRST, 1);
    var none: map<OutPoint, seq<Hash>> := map[];
    assert PutInputs(OWN, none, FIRST, 0) == none;
    PutFresh(none, OutPoint(0, 0), 11);
    var one := PutInputs(OWN, none, FIRST, 1);
    assert one == map[OutPoint(0, 0) := [11]];
    PutFresh(one, OutPoint(0, 1), 11);
    var two := PutInputs(OWN, none, FIRST, 2);
    assert two == one[OutPoint(0, 1) := [11]];
    PutOne(two, SECOND);
    assert [11] + [12] == [11, 12];
  }

  lemma PairAcyclic()
    ensures Acyclic(OWN, PAIR)
  {
    forall p, c ensures !Child(OWN, PAIR, p, c) { }
    forall x <- PAIR, n: nat | n > 0 ensures !Reach(OWN, PAIR, x, x, n) { }
  }

  /** The first input of RIVAL leads to FIRST, whose removal deletes the entry it shares with SECOND. */
  lemma AfterRival(credits: set<OutPoint>, fuel: nat)
    requires fuel > 0
    ensures Mined(OWN, Unmined(PAIR, PAIR_INPUTS, credits), RIVAL, fuel).txs == map[12 := SECOND]
  {
    hide RemoveAll, RemoveTx;
    var s := Unmined(PAIR, PAIR_INPUTS, credits);
    assert RelIn(OWN, RIVAL, 0) && RelIn(OWN, RIVAL, 1);
    assert RemoveDoubles(OWN, s, RIVAL, 0, fuel) == s;
    RemoveListedOne(s, 11, fuel);
    RemoveLeaf(s, FIRST, fuel - 1);
    var p := RemoveDoubles(OWN, s, RIVAL, 1, fuel);
    assert p == RemoveTx(s, FIRST, fuel - 1);
    assert FIRST.ins[0].prev == OutPoint(0, 0) && FIRST.ins[1].prev == OutPoint(0, 1);
    assert OutPoint(0, 1) !in p.inputs;
    AllNone(p, [], fuel);
    assert RemoveDoubles(OWN, s, RIVAL, 2, fuel) == p;
  }

  /** A double spender can survive mining: FIRST spends two outpoints, SECOND the second of them, and the mined RIVAL
      both. Removing FIRST deletes the entry that names SECOND. */
  method DoubleSpenderSurvives() returns (left: Graph)
    ensures left == map[12 := SECOND] && DoubleSpends(OWN, left, RIVAL, 1, 12)
  {
    hide Descendants, Acyclic, Mined, Consistent, Displaced, PutInputs, SettledFor, Depth, Points, Comparable;
    var store := new UnminedStore(OWN, THREE);
    PutPair();
    var _ := store.InsertMemPoolTx(FIRST);
    var _ := store.InsertMemPoolTx(SECOND);
    assert store.unmined == PAIR && store.inputs == PAIR_INPUTS;
    PairAcyclic();
    AfterRival(store.credits, Depth(PAIR - {13}, {}) + 1);
    ghost var _ := store.RemoveMined(RIVAL);
    left := store.unmined;
    assert RelIn(OWN, RIVAL, 1) && RelIn(OWN, SECOND, 0);
  }
}
