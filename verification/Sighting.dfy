/** Which inputs of a mined transaction filterTx looks at. It passes over an input unless the transaction it
    spends from comes no later in the same block, or has a credit in the database as it was when the current
    database transaction began. */
module Sighting {
  import opened Wrappers
  import opened Ledger
  import opened LedgerInvariant
  import opened LedgerInverse
  import opened LedgerChain

  /** The transactions that have a credit. */
  function CreditHashes(credits: map<CreditKey, Credit>): set<Hash> {
    set ck <- credits :: ck.op.hash
  }

  /** A relevant input that is passed over. */
  predicate Passed(env: Env, known: set<Hash>, t: Tx, i: nat) {
    RelIn(env, t, i) && t.ins[i].prev.hash !in known
  }

  /** The transaction without the scripts of the inputs passed over. */
  function Sight(env: Env, known: set<Hash>, t: Tx): Tx {
    t.(ins := seq(|t.ins|, i requires 0 <= i < |t.ins| =>
         if Passed(env, known, t, i) then t.ins[i].(prevScript := None) else t.ins[i]))
  }

  /** The transactions of a block as filterBlock sees them. */
  ghost function Sights(env: Env, known: set<Hash>, txs: seq<Tx>): (r: seq<Tx>)
    ensures |r| == |txs|
  {
    seq(|txs|, j requires 0 <= j < |txs| => Sight(env, known + HashSet(txs[..j + 1]), txs[j]))
  }

  lemma HashSetStep(txs: seq<Tx>, n: nat)
    requires n <= |txs|
    ensures HashSet(txs[..0]) == {}
    ensures n < |txs| ==> HashSet(txs[..n + 1]) == HashSet(txs[..n]) + {txs[n].hash}
  {
    if n < |txs| {
      assert txs[..n + 1] == txs[..n] + [txs[n]];
    }
  }

  lemma SightKeeps(env: Env, known: set<Hash>, t: Tx)
    ensures var t' := Sight(env, known, t);
      t'.hash == t.hash && t'.coinbase == t.coinbase && t'.outs == t.outs && Bare(t') == Bare(t) &&
      |t'.ins| == |t.ins| && (forall i: nat | RelIn(env, t', i) :: t'.ins[i] == t.ins[i]) &&
      (forall i: nat :: RelIn(env, t', i) <==> RelIn(env, t, i) && t.ins[i].prev.hash in known) &&
      forall i: nat :: RelOut(env, t', i) <==> RelOut(env, t, i)
  {
  }

  /** Lists with the same hashes in the same places. */
  lemma SameHashSet(txs: seq<Tx>, txs': seq<Tx>)
    requires |txs| == |txs'| && forall j | 0 <= j < |txs| :: txs[j].hash == txs'[j].hash
    ensures HashSet(txs) == HashSet(txs')
  {
    forall x | x in HashSet(txs) ensures x in HashSet(txs') {
      var j :| 0 <= j < |txs| && txs[j].hash == x;
      assert txs'[j] in txs';
    }
    forall x | x in HashSet(txs') ensures x in HashSet(txs) {
      var j :| 0 <= j < |txs'| && txs'[j].hash == x;
      assert txs[j] in txs;
    }
  }

  lemma SightsHashes(env: Env, known: set<Hash>, txs: seq<Tx>, n: nat)
    requires n <= |txs|
    ensures HashSet(Sights(env, known, txs)[..n]) == HashSet(txs[..n])
    ensures forall j | 0 <= j < n :: Sights(env, known, txs)[j].hash == txs[j].hash
  {
    hide HashSet, RelIn;
    SameHashSet(txs[..n], Sights(env, known, txs)[..n]);
  }

  /** What filterBlock sees of a block follows where the block does. */
  lemma SightsFollow(env: Env, known: set<Hash>, b: Block, s: set<Hash>, h: nat)
    ensures var b' := b.(txs := Sights(env, known, b.txs));
      HashSet(b'.txs) == HashSet(b.txs) && (Follows(b', s, h) <==> Follows(b, s, h))
  {
    hide HashSet, Sights;
    var txs, txs' := b.txs, Sights(env, known, b.txs);
    SightsHashes(env, known, txs, |txs|);
    assert txs[..|txs|] == txs && txs'[..|txs'|] == txs';
  }

  // ---------- a block, transaction by transaction ----------

  /** The first n transactions of a block, relevant or not. */
  function ConnectFirst(env: Env, l: Ledger, txs: seq<Tx>, blk: BlockId, n: nat): Option<Ledger>
    requires n <= |txs|
  {
    if n == 0 then Some(l)
    else
      match ConnectFirst(env, l, txs, blk, n - 1)
      case None => None
      case Some(m) => if Relevant(env, txs[n - 1]) then ConnectTx(env, m, txs[n - 1], blk) else Some(m)
  }

  lemma {:induction false} ConnectTxsExtend(env: Env, l: Ledger, rs: seq<Tx>, rs': seq<Tx>, blk: BlockId, n: nat)
    requires n <= |rs|
    ensures ConnectTxs(env, l, rs + rs', blk, n) == ConnectTxs(env, l, rs, blk, n)
  {
    hide ConnectTx;
    if n > 0 {
      ConnectTxsExtend(env, l, rs, rs', blk, n - 1);
    }
  }

  lemma {:induction false} ConnectFirstIs(env: Env, l: Ledger, txs: seq<Tx>, blk: BlockId, n: nat)
    requires n <= |txs|
    ensures var rs := RelevantTxs(env, txs, n);
      ConnectFirst(env, l, txs, blk, n) == ConnectTxs(env, l, rs, blk, |rs|)
  {
    hide ConnectTx, Relevant;
    if n > 0 {
      ConnectFirstIs(env, l, txs, blk, n - 1);
      var rs, t := RelevantTxs(env, txs, n - 1), txs[n - 1];
      if Relevant(env, t) {
        assert RelevantTxs(env, txs, n) == rs + [t];
        ConnectTxsExtend(env, l, rs, [t], blk, |rs|);
      } else {
        assert RelevantTxs(env, txs, n) == rs;
      }
    }
  }

  lemma {:induction false} ConnectFirstPrefix(env: Env, l: Ledger, txs: seq<Tx>, blk: BlockId, k: nat, n: nat)
    requires k <= n <= |txs| && ConnectFirst(env, l, txs, blk, n).Some?
    ensures ConnectFirst(env, l, txs, blk, k).Some?
    decreases n
  {
    if k < n {
      ConnectFirstPrefix(env, l, txs, blk, k, n - 1);
    }
  }

  // ---------- which transactions have credits ----------

  /** t pays a ready wallet. */
  predicate Pays(env: Env, t: Tx) {
    exists i | 0 <= i < |t.outs| :: RelOut(env, t, i)
  }

  ghost function Payers(env: Env, txs: seq<Tx>): set<Hash> {
    set t <- txs | Pays(env, t) :: t.hash
  }

  lemma {:induction false} SpendAllCredits(env: Env, l: Ledger, t: Tx, blk: BlockId, n: nat)
    requires n <= |t.ins| && SpendAll(env, l, t, blk, n).Some?
    ensures SpendAll(env, l, t, blk, n).value.b.credits.Keys == l.b.credits.Keys
  {
    if n > 0 {
      SpendAllCredits(env, l, t, blk, n - 1);
    }
  }

  lemma {:induction false} AddCreditsHashes(env: Env, l: Ledger, t: Tx, blk: BlockId, n: nat)
    requires n <= |t.outs| && AddCredits(env, l, t, blk, n).Some?
    ensures CreditHashes(AddCredits(env, l, t, blk, n).value.b.credits) ==
            CreditHashes(l.b.credits) + if exists i | 0 <= i < n :: RelOut(env, t, i) then {t.hash} else {}
  {
    if n > 0 {
      AddCreditsHashes(env, l, t, blk, n - 1);
      var m := AddCredits(env, l, t, blk, n - 1).value;
      if RelOut(env, t, n - 1) {
        OneMoreCredit(m.b.credits, OutKey(t, blk, n - 1), Credit(t.outs[n - 1].value, t.outs[n - 1].script, None));
      }
    }
  }

  lemma OneMoreCredit(credits: map<CreditKey, Credit>, ck: CreditKey, c: Credit)
    ensures CreditHashes(credits[ck := c]) == CreditHashes(credits) + {ck.op.hash}
  {
    var more := credits[ck := c];
    assert ck in more;
    forall x <- credits ensures x.op.hash in CreditHashes(more) {
      assert x in more;
    }
  }

  lemma SameKeys(credits: map<CreditKey, Credit>, credits': map<CreditKey, Credit>)
    requires credits.Keys == credits'.Keys
    ensures CreditHashes(credits) == CreditHashes(credits')
  {
    forall ck ensures ck in credits <==> ck in credits' {
      assert ck in credits.Keys <==> ck in credits'.Keys;
    }
  }

  lemma ConnectTxHashes(env: Env, l: Ledger, t: Tx, blk: BlockId)
    requires ConnectTx(env, l, t, blk).Some?
    ensures CreditHashes(ConnectTx(env, l, t, blk).value.b.credits) ==
            CreditHashes(l.b.credits) + if Pays(env, t) then {t.hash} else {}
  {
    hide CreditHashes;
    var m := InsertMinedTx(env, l, t, blk).value;
    if TxKey(t.hash, blk) !in l.txs {
      SpendAllCredits(env, Record(l, t, blk), t, blk, |t.ins|);
    }
    SameKeys(l.b.credits, m.b.credits);
    AddCreditsHashes(env, m, t, blk, |t.outs|);
  }

  lemma PayersStep(env: Env, txs: seq<Tx>, n: nat)
    requires n < |txs|
    ensures Payers(env, txs[..n + 1]) == Payers(env, txs[..n]) + if Pays(env, txs[n]) then {txs[n].hash} else {}
  {
    hide Pays;
    assert txs[..n + 1] == txs[..n] + [txs[n]];
  }

  /** Connecting transactions gives credits to exactly those that pay a ready wallet. */
  lemma {:induction false} ConnectFirstHashes(env: Env, l: Ledger, txs: seq<Tx>, blk: BlockId, n: nat)
    requires n <= |txs| && ConnectFirst(env, l, txs, blk, n).Some?
    ensures CreditHashes(ConnectFirst(env, l, txs, blk, n).value.b.credits) ==
            CreditHashes(l.b.credits) + Payers(env, txs[..n])
  {
    hide ConnectTx, CreditHashes;
    if n > 0 {
      ConnectFirstHashes(env, l, txs, blk, n - 1);
      PayersStep(env, txs, n - 1);
      if Relevant(env, txs[n - 1]) {
        ConnectTxHashes(env, ConnectFirst(env, l, txs, blk, n - 1).value, txs[n - 1], blk);
      }
    }
  }

  // ---------- what a block needs and leaves ----------

  /** The ledger in the middle of a block that follows, and that the next transaction is new to it. */
  lemma FirstGood(env: Env, l: Ledger, b: Block, s: set<Hash>, h: nat, n: nat)
    requires Good(env, l, s, h) && Follows(b, s, h) && n <= |b.txs|
    requires ConnectFirst(env, l, b.txs, b.Id(), n).Some?
    ensures var m := ConnectFirst(env, l, b.txs, b.Id(), n).value;
      Inv(env, m) && Funded(env, m) &&
      (n < |b.txs| ==> Fresh(m.b, b.txs[n].hash) && TxKey(b.txs[n].hash, b.Id()) !in m.txs)
  {
    hide ConnectTx, Inv, ConnectFirst, ConnectTxs;
    var rs := RelevantTxs(env, b.txs, n);
    ConnectFirstIs(env, l, b.txs, b.Id(), n);
    RelevantTxsDistinct(env, b.txs, n);
    assert HashSet(rs) !! s by {
      forall t <- rs ensures t.hash in HashSet(b.txs) {
        assert t in b.txs[..n];
      }
    }
    ConnectTxsForm(env, l, rs, b.Id(), s, h, |rs|);
    assert rs[..|rs|] == rs;
    if n < |b.txs| {
      NextUnseen(b.txs, rs, s, n);
    }
  }

  lemma NextUnseen(txs: seq<Tx>, rs: seq<Tx>, s: set<Hash>, n: nat)
    requires n < |txs| && DistinctHashes(txs) && HashSet(txs) !! s && forall t <- rs :: t in txs[..n]
    ensures txs[n].hash !in s + HashSet(rs)
  {
    assert txs[n].hash in HashSet(txs);
    forall t <- rs ensures t.hash != txs[n].hash {
      assert t in txs[..n];
    }
  }

  /** An input that is spent has its credit. */
  lemma {:induction false} SpendAllNeeds(env: Env, l: Ledger, t: Tx, blk: BlockId, n: nat, i: nat)
    requires i < n <= |t.ins| && RelIn(env, t, i) && SpendAll(env, l, t, blk, n).Some?
    ensures t.ins[i].prev.hash in CreditHashes(l.b.credits)
  {
    if i < n - 1 {
      SpendAllNeeds(env, l, t, blk, n - 1, i);
    } else {
      var m := SpendAll(env, l, t, blk, n - 1).value;
      SpendAllCredits(env, l, t, blk, n - 1);
      SameKeys(l.b.credits, m.b.credits);
      assert CreditKey(t.ins[i].prev, m.b.unspent[InKey(env, t, i)]) in m.b.credits;
    }
  }

  /** A block connects only if each relevant input spends from a transaction that had a credit before the block
      or comes earlier in it. */
  lemma BlockNeeds(env: Env, l: Ledger, b: Block, s: set<Hash>, h: nat, j: nat, i: nat)
    requires Good(env, l, s, h) && Follows(b, s, h) && ConnectBlock(env, l, b.txs, b.Id()).Some?
    requires j < |b.txs| && RelIn(env, b.txs[j], i)
    ensures b.txs[j].ins[i].prev.hash in CreditHashes(l.b.credits) + HashSet(b.txs[..j + 1])
  {
    hide SpendAll, AddCredits, Good, Follows, CreditHashes;
    var blk, t := b.Id(), b.txs[j];
    ConnectFirstIs(env, l, b.txs, blk, |b.txs|);
    ConnectFirstPrefix(env, l, b.txs, blk, j + 1, |b.txs|);
    FirstGood(env, l, b, s, h, j);
    var m := ConnectFirst(env, l, b.txs, blk, j).value;
    assert Relevant(env, t);
    SpendAllNeeds(env, Record(m, t, blk), t, blk, |t.ins|, i);
    ConnectFirstHashes(env, l, b.txs, blk, j);
    assert Payers(env, b.txs[..j]) <= HashSet(b.txs[..j + 1]) by {
      assert forall x <- b.txs[..j] :: x in b.txs[..j + 1];
    }
  }

  /** dk records a relevant input of one of the first n transactions of the block. */
  ghost predicate DebitOf(env: Env, b: Block, n: nat, dk: DebitKey)
    requires n <= |b.txs|
  {
    dk.block == b.Id() && exists j | 0 <= j < n :: b.txs[j].hash == dk.hash && RelIn(env, b.txs[j], dk.index)
  }

  lemma ConnectTxDebits(env: Env, l: Ledger, t: Tx, blk: BlockId, dk: DebitKey)
    requires Inv(env, l) && Funded(env, l) && Fresh(l.b, t.hash) && TxKey(t.hash, blk) !in l.txs
    requires ConnectTx(env, l, t, blk).Some?
    ensures dk in ConnectTx(env, l, t, blk).value.b.debits <==>
            dk in l.b.debits || (dk.block == blk && dk.hash == t.hash && RelIn(env, t, dk.index))
  {
    hide ConnectTx, SpentCredits, SpentUnspent, Inv, Fresh;
    var m := ConnectTxForm(env, l, t, blk);
    assert SpentDebits(env, l.b, m.b, t, blk, 0, |t.ins|);
  }

  lemma {:induction false} FirstDebits(env: Env, l: Ledger, b: Block, s: set<Hash>, h: nat, n: nat, dk: DebitKey)
    requires Good(env, l, s, h) && Follows(b, s, h) && n <= |b.txs|
    requires ConnectFirst(env, l, b.txs, b.Id(), n).Some?
    ensures dk in ConnectFirst(env, l, b.txs, b.Id(), n).value.b.debits <==>
            dk in l.b.debits || DebitOf(env, b, n, dk)
  {
    hide ConnectTx, Good, Follows;
    if n > 0 {
      FirstDebits(env, l, b, s, h, n - 1, dk);
      FirstGood(env, l, b, s, h, n - 1);
      if Relevant(env, b.txs[n - 1]) {
        ConnectTxDebits(env, ConnectFirst(env, l, b.txs, b.Id(), n - 1).value, b.txs[n - 1], b.Id(), dk);
      }
    }
  }

  /** The debits a block adds are those of its relevant inputs. */
  lemma BlockDebits(env: Env, l: Ledger, b: Block, s: set<Hash>, h: nat, dk: DebitKey)
    requires Good(env, l, s, h) && Follows(b, s, h) && ConnectBlock(env, l, b.txs, b.Id()).Some?
    ensures dk in ConnectBlock(env, l, b.txs, b.Id()).value.b.debits <==>
            dk in l.b.debits || DebitOf(env, b, |b.txs|, dk)
  {
    ConnectFirstIs(env, l, b.txs, b.Id(), |b.txs|);
    FirstDebits(env, l, b, s, h, |b.txs|, dk);
  }

  /** A block gives credits to exactly the transactions in it that pay a ready wallet. */
  lemma BlockHashes(env: Env, l: Ledger, known: set<Hash>, b: Block)
    requires ConnectBlock(env, l, Sights(env, known, b.txs), b.Id()).Some?
    ensures CreditHashes(ConnectBlock(env, l, Sights(env, known, b.txs), b.Id()).value.b.credits) ==
            CreditHashes(l.b.credits) + Payers(env, b.txs)
  {
    hide CreditHashes, ConnectTx, RelevantTxs;
    var txs := Sights(env, known, b.txs);
    ConnectFirstIs(env, l, txs, b.Id(), |txs|);
    ConnectFirstHashes(env, l, txs, b.Id(), |txs|);
    assert txs[..|txs|] == txs;
    SightsPay(env, known, b.txs);
  }

  lemma SightsPay(env: Env, known: set<Hash>, txs: seq<Tx>)
    ensures Payers(env, Sights(env, known, txs)) == Payers(env, txs)
  {
    var txs' := Sights(env, known, txs);
    forall j | 0 <= j < |txs| ensures txs'[j].hash == txs[j].hash && (Pays(env, txs'[j]) <==> Pays(env, txs[j])) {
      SightKeeps(env, known + HashSet(txs[..j + 1]), txs[j]);
    }
    hide Pays, Sight, Sights;
    SamePayers(env, txs, txs');
    SamePayers(env, txs', txs);
  }

  lemma SamePayers(env: Env, txs: seq<Tx>, txs': seq<Tx>)
    requires |txs| == |txs'|
    requires forall j | 0 <= j < |txs| :: txs'[j].hash == txs[j].hash && (Pays(env, txs'[j]) <==> Pays(env, txs[j]))
    ensures Payers(env, txs) <= Payers(env, txs')
  {
    hide Pays;
    forall x <- Payers(env, txs) ensures x in Payers(env, txs') {
      var j :| 0 <= j < |txs| && txs[j].hash == x && Pays(env, txs[j]);
      assert txs'[j] in txs';
    }
  }

  // ---------- two ways to look at a block ----------

  /** Input i of transaction j is passed over although what it spends from is among `credited`. */
  ghost predicate OverlookedAt(env: Env, known: set<Hash>, credited: set<Hash>, txs: seq<Tx>, j: nat, i: nat) {
    j < |txs| && Passed(env, known + HashSet(txs[..j + 1]), txs[j], i) && txs[j].ins[i].prev.hash in credited
  }

  ghost predicate Overlooked(env: Env, known: set<Hash>, credited: set<Hash>, txs: seq<Tx>) {
    exists j: nat, i: nat :: OverlookedAt(env, known, credited, txs, j, i)
  }

  /** If the block connects and nothing is overlooked, it looks as it does with the credits of the moment. */
  lemma SameSights(env: Env, l: Ledger, known: set<Hash>, b: Block, s: set<Hash>, h: nat)
    requires Good(env, l, s, h) && Follows(b, s, h)
    requires ConnectBlock(env, l, Sights(env, known, b.txs), b.Id()).Some?
    requires !Overlooked(env, known, CreditHashes(l.b.credits), b.txs)
    ensures Sights(env, known, b.txs) == Sights(env, CreditHashes(l.b.credits), b.txs)
  {
    hide Good, Follows, CreditHashes, ConnectBlock, HashSet, RelIn;
    var now := CreditHashes(l.b.credits);
    var b' := b.(txs := Sights(env, known, b.txs));
    SightsFollow(env, known, b, s, h);
    forall j: nat | j < |b.txs|
      ensures var cur := HashSet(b.txs[..j + 1]);
        Sight(env, known + cur, b.txs[j]) == Sight(env, now + cur, b.txs[j])
    {
      var cur, t := HashSet(b.txs[..j + 1]), b.txs[j];
      SightKeeps(env, known + cur, t);
      forall i: nat | i < |t.ins| && RelIn(env, t, i)
        ensures Passed(env, known + cur, t, i) <==> Passed(env, now + cur, t, i)
      {
        assert !OverlookedAt(env, known, now, b.txs, j, i);
        if !Passed(env, known + cur, t, i) {
          BlockNeeds(env, l, b', s, h, j, i);
          SightsHashes(env, known, b.txs, j + 1);
        }
      }
      SightSame(env, known + cur, now + cur, t);
    }
  }

  lemma SightSame(env: Env, known: set<Hash>, known': set<Hash>, t: Tx)
    requires forall i: nat | i < |t.ins| && RelIn(env, t, i) :: Passed(env, known, t, i) <==> Passed(env, known', t, i)
    ensures Sight(env, known, t) == Sight(env, known', t)
  {
    assert Sight(env, known, t).ins == Sight(env, known', t).ins;
  }

  /** If a block connects by its scripts alone, filterTx passes over nothing when it looks at the credits of the
      moment. */
  lemma NothingPassed(env: Env, l: Ledger, b: Block, s: set<Hash>, h: nat)
    requires Good(env, l, s, h) && Follows(b, s, h) && ConnectBlock(env, l, b.txs, b.Id()).Some?
    ensures Sights(env, CreditHashes(l.b.credits), b.txs) == b.txs
  {
    hide Good, Follows, CreditHashes, ConnectBlock, HashSet, RelIn;
    var now := CreditHashes(l.b.credits);
    forall j: nat | j < |b.txs| ensures Sight(env, now + HashSet(b.txs[..j + 1]), b.txs[j]) == b.txs[j] {
      var cur, t := HashSet(b.txs[..j + 1]), b.txs[j];
      forall i: nat | i < |t.ins| ensures !Passed(env, now + cur, t, i) {
        if RelIn(env, t, i) {
          BlockNeeds(env, l, b, s, h, j, i);
        }
      }
      assert Sight(env, now + cur, t).ins == t.ins;
    }
  }

  /** What is overlooked leaves no debit. */
  lemma NoDebitOf(env: Env, known: set<Hash>, b: Block, s: set<Hash>, h: nat, j: nat, i: nat)
    requires Follows(b, s, h) && j < |b.txs| && Passed(env, known + HashSet(b.txs[..j + 1]), b.txs[j], i)
    ensures !DebitOf(env, b.(txs := Sights(env, known, b.txs)), |b.txs|, DebitKey(b.txs[j].hash, b.Id(), i))
  {
    hide HashSet, RelIn;
    var txs' := Sights(env, known, b.txs);
    SightsHashes(env, known, b.txs, |b.txs|);
    SightKeeps(env, known + HashSet(b.txs[..j + 1]), b.txs[j]);
    forall k: nat | k < |b.txs| && txs'[k].hash == b.txs[j].hash ensures k == j { }
  }

  /** What is not passed over leaves a debit. */
  lemma HasDebitOf(env: Env, known: set<Hash>, b: Block, j: nat, i: nat)
    requires j < |b.txs| && RelIn(env, b.txs[j], i)
    requires b.txs[j].ins[i].prev.hash in known
    ensures DebitOf(env, b.(txs := Sights(env, known, b.txs)), |b.txs|, DebitKey(b.txs[j].hash, b.Id(), i))
  {
    hide HashSet, RelIn;
    var txs' := Sights(env, known, b.txs);
    SightKeeps(env, known + HashSet(b.txs[..j + 1]), b.txs[j]);
    assert txs'[j].hash == b.txs[j].hash && RelIn(env, txs'[j], i);
  }

  lemma UnseenDebit(env: Env, l: Ledger, b: Block, s: set<Hash>, h: nat, j: nat, i: nat)
    requires Good(env, l, s, h) && Follows(b, s, h) && j < |b.txs|
    ensures DebitKey(b.txs[j].hash, b.Id(), i) !in l.b.debits
  {
    assert b.txs[j].hash in HashSet(b.txs);
    assert Fresh(l.b, b.txs[j].hash);
  }

  /** An input overlooked has no debit afterwards; looking at the credits of the moment gives it one. */
  lemma OverlookedDebit(env: Env, l: Ledger, known: set<Hash>, b: Block, s: set<Hash>, h: nat) returns (dk: DebitKey)
    requires Good(env, l, s, h) && Follows(b, s, h)
    requires ConnectBlock(env, l, Sights(env, known, b.txs), b.Id()).Some?
    requires Overlooked(env, known, CreditHashes(l.b.credits), b.txs)
    ensures dk.block == b.Id()
    ensures dk !in ConnectBlock(env, l, Sights(env, known, b.txs), b.Id()).value.b.debits
    ensures var r := ConnectBlock(env, l, Sights(env, CreditHashes(l.b.credits), b.txs), b.Id());
      r.Some? ==> dk in r.value.b.debits
  {
    hide CreditHashes, ConnectBlock, RelIn, Good, Follows, Sights, DebitOf, HashSet;
    var now := CreditHashes(l.b.credits);
    var j: nat, i: nat :| OverlookedAt(env, known, now, b.txs, j, i);
    dk := DebitKey(b.txs[j].hash, b.Id(), i);
    SightsFollow(env, known, b, s, h);
    SightsFollow(env, now, b, s, h);
    UnseenDebit(env, l, b, s, h, j, i);
    NoDebitOf(env, known, b, s, h, j, i);
    BlockDebits(env, l, b.(txs := Sights(env, known, b.txs)), s, h, dk);
    HasDebitOf(env, now, b, j, i);
    var shown := b.(txs := Sights(env, now, b.txs));
    if ConnectBlock(env, l, shown.txs, b.Id()).Some? {
      BlockDebits(env, l, shown, s, h, dk);
    }
  }
}
