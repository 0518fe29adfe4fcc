/** Rollback undoes connect, bucket by bucket. */
module LedgerInverse {
  import opened Wrappers
  import opened Ledger
  import opened LedgerInvariant

  ghost predicate Touched(env: Env, t: Tx, lo: nat, hi: nat, i: nat) {
    lo <= i < hi && RelIn(env, t, i)
  }

  /** The credit that input i spends, looked up in b. */
  function SpentKey(env: Env, b: Buckets, t: Tx, i: nat): CreditKey
    requires RelIn(env, t, i) && InKey(env, t, i) in b.unspent
  {
    CreditKey(t.ins[i].prev, b.unspent[InKey(env, t, i)])
  }

  ghost predicate Spendable(env: Env, b: Buckets, t: Tx, lo: nat, hi: nat) {
    (forall i: nat | Touched(env, t, lo, hi, i) ::
       InKey(env, t, i) in b.unspent && SpentKey(env, b, t, i) in b.credits) &&
    (forall i: nat, j: nat | Touched(env, t, lo, hi, i) && Touched(env, t, lo, hi, j) && i != j ::
       t.ins[i].prev != t.ins[j].prev)
  }

  /** b' is b with exactly the relevant inputs lo <= i < hi of t spent. */
  ghost predicate Spent(env: Env, b: Buckets, b': Buckets, t: Tx, blk: BlockId, lo: nat, hi: nat) {
    Spendable(env, b, t, lo, hi) &&
    SpentCredits(env, b, b', t, blk, lo, hi) &&
    SpentDebits(env, b, b', t, blk, lo, hi) &&
    SpentUnspent(env, b, b', t, lo, hi)
  }

  ghost predicate SpentCredits(env: Env, b: Buckets, b': Buckets, t: Tx, blk: BlockId, lo: nat, hi: nat)
    requires Spendable(env, b, t, lo, hi)
  {
    b'.credits.Keys == b.credits.Keys &&
    (forall i: nat | Touched(env, t, lo, hi, i) ::
       b'.credits[SpentKey(env, b, t, i)] ==
       b.credits[SpentKey(env, b, t, i)].(spentBy := Some(DebitKey(t.hash, blk, i)))) &&
    (forall ck <- b.credits ::
       (forall i: nat | Touched(env, t, lo, hi, i) :: SpentKey(env, b, t, i) != ck) ==>
         b'.credits[ck] == b.credits[ck])
  }

  ghost predicate SpentDebits(env: Env, b: Buckets, b': Buckets, t: Tx, blk: BlockId, lo: nat, hi: nat)
    requires Spendable(env, b, t, lo, hi)
  {
    (forall dk :: dk in b'.debits <==>
       dk in b.debits || (dk.hash == t.hash && dk.block == blk && Touched(env, t, lo, hi, dk.index))) &&
    (forall dk <- b.debits :: dk in b'.debits && b'.debits[dk] == b.debits[dk]) &&
    (forall i: nat | Touched(env, t, lo, hi, i) ::
       DebitKey(t.hash, blk, i) in b'.debits &&
       b'.debits[DebitKey(t.hash, blk, i)] ==
       Debit(b.credits[SpentKey(env, b, t, i)].amount, SpentKey(env, b, t, i)))
  }

  ghost predicate SpentUnspent(env: Env, b: Buckets, b': Buckets, t: Tx, lo: nat, hi: nat) {
    (forall uk :: uk in b'.unspent <==>
       uk in b.unspent && (forall i: nat | Touched(env, t, lo, hi, i) :: InKey(env, t, i) != uk)) &&
    (forall uk <- b'.unspent :: uk in b.unspent && b'.unspent[uk] == b.unspent[uk])
  }

  lemma SpentNothing(env: Env, b: Buckets, b': Buckets, t: Tx, blk: BlockId, lo: nat, hi: nat)
    requires Spent(env, b, b', t, blk, lo, hi) && forall i: nat :: !Touched(env, t, lo, hi, i)
    ensures b' == b
  {
    assert b'.debits.Keys == b.debits.Keys;
    assert b'.unspent.Keys == b.unspent.Keys;
    assert b'.credits == b.credits && b'.debits == b.debits && b'.unspent == b.unspent;
  }

  /** An input whose unspent entry is still there spends an outpoint no earlier input spent. */
  lemma SpentApart(env: Env, b: Buckets, b': Buckets, t: Tx, blk: BlockId, n: nat, i: nat)
    requires Consistent(env, b) && Spent(env, b, b', t, blk, 0, n) && RelIn(env, t, n)
    requires InKey(env, t, n) in b'.unspent
    requires Touched(env, t, 0, n + 1, i) && i != n
    ensures Touched(env, t, 0, n, i) && t.ins[i].prev != t.ins[n].prev
  {
    assert Touched(env, t, 0, n, i);
  }

  /** The buckets after one Spend. */
  function SpendOne(b: Buckets, uk: UnspentKey, dk: DebitKey): Buckets
    requires uk in b.unspent && CreditKey(uk.op, b.unspent[uk]) in b.credits
  {
    var ck := CreditKey(uk.op, b.unspent[uk]);
    Buckets(b.credits[ck := b.credits[ck].(spentBy := Some(dk))],
            b.debits[dk := Debit(b.credits[ck].amount, ck)],
            b.unspent - {uk})
  }

  /** Spending one more input extends the closed form. */
  lemma SpentKeyLives(env: Env, b: Buckets, t: Tx, n: nat, b': Buckets)
    requires Consistent(env, b) && RelIn(env, t, n) && InKey(env, t, n) in b'.unspent &&
      SpentUnspent(env, b, b', t, 0, n)
    ensures InKey(env, t, n) in b.unspent && SpentKey(env, b, t, n) in b.credits
    ensures SpentKey(env, b', t, n) == SpentKey(env, b, t, n)
  {
  }

  /** The next input spends a coin that none before it spends. */
  lemma NextApart(env: Env, b: Buckets, b': Buckets, t: Tx, blk: BlockId, n: nat)
    requires Consistent(env, b) && Spent(env, b, b', t, blk, 0, n) && RelIn(env, t, n)
    requires InKey(env, t, n) in b'.unspent
    ensures forall i: nat | Touched(env, t, 0, n, i) :: t.ins[i].prev != t.ins[n].prev
  {
    hide Consistent, Spent;
    forall i: nat | Touched(env, t, 0, n, i) ensures t.ins[i].prev != t.ins[n].prev {
      SpentApart(env, b, b', t, blk, n, i);
    }
  }

  /** So its credit is as before, and one more input is spendable. */
  lemma NextUntouched(env: Env, b: Buckets, b': Buckets, t: Tx, blk: BlockId, n: nat)
    requires RelIn(env, t, n) && InKey(env, t, n) in b.unspent && SpentKey(env, b, t, n) in b.credits
    requires Spendable(env, b, t, 0, n) && SpentCredits(env, b, b', t, blk, 0, n)
    requires forall i: nat | Touched(env, t, 0, n, i) :: t.ins[i].prev != t.ins[n].prev
    ensures SpentKey(env, b, t, n) in b'.credits
    ensures b'.credits[SpentKey(env, b, t, n)] == b.credits[SpentKey(env, b, t, n)]
  {
    forall i: nat | Touched(env, t, 0, n, i) ensures SpentKey(env, b, t, i) != SpentKey(env, b, t, n) { }
  }

  lemma NextSpendable(env: Env, b: Buckets, t: Tx, n: nat)
    requires RelIn(env, t, n) && InKey(env, t, n) in b.unspent && SpentKey(env, b, t, n) in b.credits
    requires Spendable(env, b, t, 0, n)
    requires forall i: nat | Touched(env, t, 0, n, i) :: t.ins[i].prev != t.ins[n].prev
    ensures Spendable(env, b, t, 0, n + 1)
  {
    forall i: nat ensures Touched(env, t, 0, n + 1, i) <==> Touched(env, t, 0, n, i) || i == n { }
  }

  lemma SpentStepReady(env: Env, b: Buckets, b': Buckets, t: Tx, blk: BlockId, n: nat)
    requires Consistent(env, b) && Spent(env, b, b', t, blk, 0, n) && RelIn(env, t, n)
    requires InKey(env, t, n) in b'.unspent
    ensures InKey(env, t, n) in b.unspent && SpentKey(env, b', t, n) == SpentKey(env, b, t, n)
    ensures SpentKey(env, b', t, n) in b'.credits
    ensures b'.credits[SpentKey(env, b', t, n)] == b.credits[SpentKey(env, b', t, n)]
    ensures Spendable(env, b, t, 0, n + 1)
  {
    hide Spendable, SpentCredits, SpentDebits, SpentUnspent, Consistent, Touched;
    SpentKeyLives(env, b, t, n, b');
    NextApart(env, b, b', t, blk, n);
    NextUntouched(env, b, b', t, blk, n);
    NextSpendable(env, b, t, n);
  }

  lemma SpentStep(env: Env, b: Buckets, b': Buckets, t: Tx, blk: BlockId, n: nat)
    requires Consistent(env, b) && Fresh(b, t.hash)
    requires Spent(env, b, b', t, blk, 0, n) && RelIn(env, t, n)
    requires InKey(env, t, n) in b'.unspent
    ensures SpentKey(env, b', t, n) in b'.credits
    ensures Spent(env, b, SpendOne(b', InKey(env, t, n), DebitKey(t.hash, blk, n)), t, blk, 0, n + 1)
  {
    hide Spendable, SpentCredits, SpentDebits, SpentUnspent, Consistent, Fresh;
    SpentStepReady(env, b, b', t, blk, n);
    var b'' := SpendOne(b', InKey(env, t, n), DebitKey(t.hash, blk, n));
    SpentStepCredits(env, b, b', b'', t, blk, n);
    SpentStepDebits(env, b, b', b'', t, blk, n);
    SpentStepUnspent(env, b, b', b'', t, blk, n);
  }

  lemma SpentStepCredits(env: Env, b: Buckets, b': Buckets, b'': Buckets, t: Tx, blk: BlockId, n: nat)
    requires Spendable(env, b, t, 0, n) && Spendable(env, b, t, 0, n + 1) && RelIn(env, t, n)
    requires SpentCredits(env, b, b', t, blk, 0, n)
    requires InKey(env, t, n) in b.unspent
    requires var ck := SpentKey(env, b, t, n);
      ck in b'.credits && b''.credits == b'.credits[ck := b'.credits[ck].(spentBy := Some(DebitKey(t.hash, blk, n)))]
    ensures SpentCredits(env, b, b'', t, blk, 0, n + 1)
  {
    var ck := SpentKey(env, b, t, n);
    assert Touched(env, t, 0, n + 1, n);
    forall i: nat | Touched(env, t, 0, n, i) ensures SpentKey(env, b, t, i) != ck {
      assert Touched(env, t, 0, n + 1, i);
    }
    forall i: nat | Touched(env, t, 0, n + 1, i)
      ensures b''.credits[SpentKey(env, b, t, i)] ==
              b.credits[SpentKey(env, b, t, i)].(spentBy := Some(DebitKey(t.hash, blk, i)))
    {
      if i != n { assert Touched(env, t, 0, n, i); }
    }
    forall k <- b.credits | forall i: nat | Touched(env, t, 0, n + 1, i) :: SpentKey(env, b, t, i) != k
      ensures b''.credits[k] == b.credits[k]
    {
      forall i: nat | Touched(env, t, 0, n, i) ensures SpentKey(env, b, t, i) != k {
        assert Touched(env, t, 0, n + 1, i);
      }
    }
  }

  lemma SpentStepDebits(env: Env, b: Buckets, b': Buckets, b'': Buckets, t: Tx, blk: BlockId, n: nat)
    requires Spendable(env, b, t, 0, n) && Spendable(env, b, t, 0, n + 1) && RelIn(env, t, n)
    requires Fresh(b, t.hash) && SpentDebits(env, b, b', t, blk, 0, n)
    requires InKey(env, t, n) in b.unspent
    requires b''.debits == b'.debits[DebitKey(t.hash, blk, n) :=
      Debit(b.credits[SpentKey(env, b, t, n)].amount, SpentKey(env, b, t, n))]
    ensures SpentDebits(env, b, b'', t, blk, 0, n + 1)
  {
    forall i: nat ensures Touched(env, t, 0, n + 1, i) <==> Touched(env, t, 0, n, i) || i == n { }
  }

  lemma SpentStepUnspent(env: Env, b: Buckets, b': Buckets, b'': Buckets, t: Tx, blk: BlockId, n: nat)
    requires RelIn(env, t, n) && SpentUnspent(env, b, b', t, 0, n)
    requires b''.unspent == b'.unspent - {InKey(env, t, n)}
    ensures SpentUnspent(env, b, b'', t, 0, n + 1)
  {
    forall i: nat ensures Touched(env, t, 0, n + 1, i) <==> Touched(env, t, 0, n, i) || i == n { }
  }

  // ---------- undoing inputs ----------

  lemma TouchedSplit(env: Env, t: Tx, lo: nat, hi: nat)
    ensures forall i: nat :: Touched(env, t, lo + 1, hi, i) ==> Touched(env, t, lo, hi, i)
    ensures forall i: nat :: Touched(env, t, lo, hi, i) ==> Touched(env, t, lo + 1, hi, i) || i == lo
  {
  }

  lemma SpendableTail(env: Env, b: Buckets, t: Tx, lo: nat, hi: nat)
    requires Spendable(env, b, t, lo, hi)
    ensures Spendable(env, b, t, lo + 1, hi)
  {
    TouchedSplit(env, t, lo, hi);
  }

  /** The debit of a spent input names the credit it spent. */
  lemma DebitOfSpent(env: Env, b: Buckets, b': Buckets, t: Tx, blk: BlockId, lo: nat, hi: nat, i: nat)
    requires Spent(env, b, b', t, blk, lo, hi) && Touched(env, t, lo, hi, i)
    ensures var dk := DebitKey(t.hash, blk, i);
            dk in b'.debits && b'.debits[dk].credit == SpentKey(env, b, t, i) &&
            SpentKey(env, b, t, i) in b'.credits
  {
  }

  /** Undoing the first spent input shortens the closed form from below. */
  lemma UndoStep(env: Env, b: Buckets, b': Buckets, t: Tx, blk: BlockId, lo: nat, hi: nat, b'': Buckets)
    requires Consistent(env, b) && Fresh(b, t.hash)
    requires Spent(env, b, b', t, blk, lo, hi) && Touched(env, t, lo, hi, lo)
    requires var ck := SpentKey(env, b, t, lo);
      ck in b'.credits &&
      b'' == Buckets(b'.credits[ck := b'.credits[ck].(spentBy := None)],
                     b'.debits - {DebitKey(t.hash, blk, lo)},
                     b'.unspent[InKey(env, t, lo) := b.unspent[InKey(env, t, lo)]])
    ensures Spent(env, b, b'', t, blk, lo + 1, hi)
  {
    SpendableTail(env, b, t, lo, hi);
    UndoStepCredits(env, b, b', b'', t, blk, lo, hi);
    UndoStepDebits(env, b, b', b'', t, blk, lo, hi);
    UndoStepUnspent(env, b, b', b'', t, blk, lo, hi);
  }

  lemma SpentKeyUnspent(env: Env, b: Buckets, t: Tx, i: nat)
    requires Consistent(env, b) && RelIn(env, t, i) && InKey(env, t, i) in b.unspent
    ensures SpentKey(env, b, t, i) in b.credits && b.credits[SpentKey(env, b, t, i)].spentBy.None?
  {
  }

  lemma UndoStepCredits(env: Env, b: Buckets, b': Buckets, b'': Buckets, t: Tx, blk: BlockId, lo: nat, hi: nat)
    requires Consistent(env, b) && Touched(env, t, lo, hi, lo)
    requires Spendable(env, b, t, lo, hi) && Spendable(env, b, t, lo + 1, hi)
    requires SpentCredits(env, b, b', t, blk, lo, hi)
    requires var ck := SpentKey(env, b, t, lo);
      b''.credits == b'.credits[ck := b'.credits[ck].(spentBy := None)]
    ensures SpentCredits(env, b, b'', t, blk, lo + 1, hi)
  {
    SpentKeyUnspent(env, b, t, lo);
    UndoneFirst(env, b, b', t, blk, lo, hi);
    hide Consistent, Spendable, Touched, SpentKey;
    UndoStepTouched(env, b, b', b'', t, blk, lo, hi);
    UndoStepOthers(env, b, b', b'', t, blk, lo, hi);
  }

  lemma UndoStepTouched(env: Env, b: Buckets, b': Buckets, b'': Buckets, t: Tx, blk: BlockId, lo: nat, hi: nat)
    requires Touched(env, t, lo, hi, lo)
    requires Spendable(env, b, t, lo, hi) && Spendable(env, b, t, lo + 1, hi)
    requires SpentCredits(env, b, b', t, blk, lo, hi)
    requires var ck := SpentKey(env, b, t, lo); b''.credits == b'.credits[ck := b.credits[ck]]
    ensures forall i: nat | Touched(env, t, lo + 1, hi, i) ::
      SpentKey(env, b, t, i) in b''.credits &&
      b''.credits[SpentKey(env, b, t, i)] ==
      b.credits[SpentKey(env, b, t, i)].(spentBy := Some(DebitKey(t.hash, blk, i)))
  {
    forall i: nat | Touched(env, t, lo + 1, hi, i)
      ensures SpentKey(env, b, t, i) in b''.credits
      ensures b''.credits[SpentKey(env, b, t, i)] ==
              b.credits[SpentKey(env, b, t, i)].(spentBy := Some(DebitKey(t.hash, blk, i)))
    {
      SpentLater(env, b, b', t, blk, lo, hi, i);
    }
  }

  lemma UndoStepOthers(env: Env, b: Buckets, b': Buckets, b'': Buckets, t: Tx, blk: BlockId, lo: nat, hi: nat)
    requires Touched(env, t, lo, hi, lo)
    requires Spendable(env, b, t, lo, hi) && Spendable(env, b, t, lo + 1, hi)
    requires SpentCredits(env, b, b', t, blk, lo, hi)
    requires var ck := SpentKey(env, b, t, lo);
      ck in b.credits && b''.credits == b'.credits[ck := b.credits[ck]]
    ensures forall k <- b.credits ::
      (forall i: nat | Touched(env, t, lo + 1, hi, i) :: SpentKey(env, b, t, i) != k) ==>
        k in b''.credits && b''.credits[k] == b.credits[k]
  {
    forall k <- b.credits | forall i: nat | Touched(env, t, lo + 1, hi, i) :: SpentKey(env, b, t, i) != k
      ensures k in b''.credits && b''.credits[k] == b.credits[k]
    {
      if k != SpentKey(env, b, t, lo) {
        OtherKept(env, b, b', t, blk, lo, hi, k);
      }
    }
  }

  lemma UndoneFirst(env: Env, b: Buckets, b': Buckets, t: Tx, blk: BlockId, lo: nat, hi: nat)
    requires Touched(env, t, lo, hi, lo) && Spendable(env, b, t, lo, hi) && SpentCredits(env, b, b', t, blk, lo, hi)
    requires b.credits[SpentKey(env, b, t, lo)].spentBy.None?
    ensures b'.credits.Keys == b.credits.Keys
    ensures b'.credits[SpentKey(env, b, t, lo)].(spentBy := None) == b.credits[SpentKey(env, b, t, lo)]
  {
  }

  lemma SpentLater(env: Env, b: Buckets, b': Buckets, t: Tx, blk: BlockId, lo: nat, hi: nat, i: nat)
    requires Touched(env, t, lo, hi, lo) && Spendable(env, b, t, lo, hi) && SpentCredits(env, b, b', t, blk, lo, hi)
    requires Touched(env, t, lo + 1, hi, i)
    ensures InKey(env, t, i) in b.unspent && SpentKey(env, b, t, i) in b'.credits
    ensures SpentKey(env, b, t, i) != SpentKey(env, b, t, lo)
    ensures b'.credits[SpentKey(env, b, t, i)] ==
            b.credits[SpentKey(env, b, t, i)].(spentBy := Some(DebitKey(t.hash, blk, i)))
  {
    assert Touched(env, t, lo, hi, i);
  }

  lemma OtherKept(env: Env, b: Buckets, b': Buckets, t: Tx, blk: BlockId, lo: nat, hi: nat, k: CreditKey)
    requires Touched(env, t, lo, hi, lo) && Spendable(env, b, t, lo, hi) && SpentCredits(env, b, b', t, blk, lo, hi)
    requires k in b.credits && k != SpentKey(env, b, t, lo)
    requires forall i: nat | Touched(env, t, lo + 1, hi, i) ::
      InKey(env, t, i) in b.unspent && SpentKey(env, b, t, i) != k
    ensures b'.credits[k] == b.credits[k]
  {
    TouchedSplit(env, t, lo, hi);
  }

  lemma UndoStepDebits(env: Env, b: Buckets, b': Buckets, b'': Buckets, t: Tx, blk: BlockId, lo: nat, hi: nat)
    requires Fresh(b, t.hash) && Touched(env, t, lo, hi, lo)
    requires Spendable(env, b, t, lo, hi) && Spendable(env, b, t, lo + 1, hi)
    requires SpentDebits(env, b, b', t, blk, lo, hi)
    requires b''.debits == b'.debits - {DebitKey(t.hash, blk, lo)}
    ensures SpentDebits(env, b, b'', t, blk, lo + 1, hi)
  {
    forall i: nat ensures Touched(env, t, lo, hi, i) <==> Touched(env, t, lo + 1, hi, i) || i == lo { }
  }

  lemma UndoStepUnspent(env: Env, b: Buckets, b': Buckets, b'': Buckets, t: Tx, blk: BlockId, lo: nat, hi: nat)
    requires Touched(env, t, lo, hi, lo) && Spendable(env, b, t, lo, hi)
    requires SpentUnspent(env, b, b', t, lo, hi)
    requires b''.unspent == b'.unspent[InKey(env, t, lo) := b.unspent[InKey(env, t, lo)]]
    ensures SpentUnspent(env, b, b'', t, lo + 1, hi)
  {
    forall i: nat ensures Touched(env, t, lo, hi, i) <==> Touched(env, t, lo + 1, hi, i) || i == lo { }
    forall i: nat | Touched(env, t, lo + 1, hi, i) ensures InKey(env, t, i) != InKey(env, t, lo) {
      assert Touched(env, t, lo, hi, i);
    }
  }

  /** An input that was not spent leaves the closed form as it is. */
  lemma UndoSkip(env: Env, b: Buckets, b': Buckets, t: Tx, blk: BlockId, lo: nat, hi: nat)
    requires Spent(env, b, b', t, blk, lo, hi) && !Touched(env, t, lo, hi, lo)
    ensures Spent(env, b, b', t, blk, lo + 1, hi)
  {
    forall i: nat ensures Touched(env, t, lo, hi, i) <==> Touched(env, t, lo + 1, hi, i) { }
    hide Touched;
    assert Spendable(env, b, t, lo + 1, hi);
    hide Spendable;
    assert SpentCredits(env, b, b', t, blk, lo + 1, hi);
  }

  // ---------- the folds ----------

  /** Spending all relevant inputs of a transaction the ledger has not seen. */
  lemma {:induction false} SpendAllSpent(env: Env, l: Ledger, t: Tx, blk: BlockId, n: nat)
    requires Inv(env, l) && Fresh(l.b, t.hash) && n <= |t.ins|
    requires SpendAll(env, l, t, blk, n).Some?
    ensures var m := SpendAll(env, l, t, blk, n).value;
            Spent(env, l.b, m.b, t, blk, 0, n) && Inv(env, m) &&
            m.balances.Keys == l.balances.Keys && m.blocks == l.blocks && m.txs == l.txs
  {
    hide Consistent, Balanced, SpentCredits, SpentUnspent;
    SpentNone(env, l.b, t, blk);
    if n > 0 {
      SpendAllSpent(env, l, t, blk, n - 1);
      var m := SpendAll(env, l, t, blk, n - 1).value;
      if RelIn(env, t, n - 1) {
        SpendKeeps(env, m, t, blk, n - 1);
        SpentStep(env, l.b, m.b, t, blk, n - 1);
      } else {
        SpentIdle(env, l.b, m.b, t, blk, n - 1);
      }
    }
  }

  lemma SpentNone(env: Env, b: Buckets, t: Tx, blk: BlockId)
    ensures Spent(env, b, b, t, blk, 0, 0)
  {
  }

  /** An input that is not relevant changes nothing. */
  lemma SpentIdle(env: Env, b: Buckets, b': Buckets, t: Tx, blk: BlockId, n: nat)
    requires Spent(env, b, b', t, blk, 0, n) && !RelIn(env, t, n)
    ensures Spent(env, b, b', t, blk, 0, n + 1)
  {
    forall i: nat ensures Touched(env, t, 0, n + 1, i) <==> Touched(env, t, 0, n, i) { }
    assert Spendable(env, b, t, 0, n + 1);
  }

  predicate Issued(env: Env, t: Tx, lo: nat, hi: nat, op: OutPoint) {
    op.hash == t.hash && lo <= op.index < hi && RelOut(env, t, op.index)
  }

  /** c with the credits of the relevant outputs lo <= i < hi of t. */
  function OutCredits(env: Env, c: map<CreditKey, Credit>, t: Tx, blk: BlockId, lo: nat, hi: nat): map<CreditKey,
                      Credit>
    decreases hi - lo
  {
    if lo >= hi then c
    else
      var r := OutCredits(env, c, t, blk, lo + 1, hi);
      if RelOut(env, t, lo) then r[OutKey(t, blk, lo) := Credit(t.outs[lo].value, t.outs[lo].script, None)] else r
  }

  predicate IssuedTo(env: Env, t: Tx, lo: nat, hi: nat, uk: UnspentKey) {
    Issued(env, t, lo, hi, uk.op) && uk.wallet == env.owner[t.outs[uk.op.index].script]
  }

  /** u with the unspent entries of the relevant outputs lo <= i < hi of t. */
  function OutUnspent(env: Env, u: map<UnspentKey, BlockId>, t: Tx, blk: BlockId, lo: nat, hi: nat): map<UnspentKey,
                      BlockId>
    decreases hi - lo
  {
    if lo >= hi then u
    else
      var r := OutUnspent(env, u, t, blk, lo + 1, hi);
      if RelOut(env, t, lo) then r[UnspentKey(env.owner[t.outs[lo].script], OutPoint(t.hash, lo)) := blk] else r
  }

  lemma {:induction false} OutCreditsAre(env: Env, c: map<CreditKey, Credit>, t: Tx, blk: BlockId, lo: nat, hi: nat)
    ensures var r := OutCredits(env, c, t, blk, lo, hi);
      (forall ck :: ck in r <==> ck in c || (ck.block == blk && Issued(env, t, lo, hi, ck.op))) &&
      (forall ck <- r ::
         (if ck.block == blk && Issued(env, t, lo, hi, ck.op)
          then r[ck] == Credit(t.outs[ck.op.index].value, t.outs[ck.op.index].script, None) else r[ck] == c[ck]))
    decreases hi - lo
  {
    if lo < hi {
      OutCreditsAre(env, c, t, blk, lo + 1, hi);
    }
  }

  lemma {:induction false} OutUnspentAre(env: Env, u: map<UnspentKey, BlockId>, t: Tx, blk: BlockId, lo: nat, hi: nat)
    ensures var r := OutUnspent(env, u, t, blk, lo, hi);
      (forall uk :: uk in r <==> uk in u || IssuedTo(env, t, lo, hi, uk)) &&
      (forall uk <- r :: r[uk] == if IssuedTo(env, t, lo, hi, uk) then blk else u[uk])
    decreases hi - lo
  {
    if lo < hi {
      OutUnspentAre(env, u, t, blk, lo + 1, hi);
    }
  }

  /** b with the relevant outputs lo <= i < hi of t added. */
  function Overlay(env: Env, b: Buckets, t: Tx, blk: BlockId, lo: nat, hi: nat): Buckets {
    b.(credits := OutCredits(env, b.credits, t, blk, lo, hi),
       unspent := OutUnspent(env, b.unspent, t, blk, lo, hi))
  }

  /** No credit or unspent entry of t is there yet. */
  ghost predicate Unissued(b: Buckets, h: Hash) {
    (forall ck <- b.credits :: ck.op.hash != h) && (forall uk <- b.unspent :: uk.op.hash != h)
  }

  lemma {:induction false} CreditsGrow(env: Env, c: map<CreditKey, Credit>, t: Tx, blk: BlockId, lo: nat, hi: nat)
    requires lo <= hi
    ensures OutCredits(env, c, t, blk, lo, hi + 1) ==
      if !RelOut(env, t, hi) then OutCredits(env, c, t, blk, lo, hi) else
      OutCredits(env, c, t, blk, lo, hi)[OutKey(t, blk, hi) := Credit(t.outs[hi].value, t.outs[hi].script, None)]
    decreases hi - lo
  {
    if lo < hi {
      CreditsGrow(env, c, t, blk, lo + 1, hi);
      assert OutKey(t, blk, lo) != OutKey(t, blk, hi);
    }
  }

  lemma {:induction false} UnspentGrow(env: Env, u: map<UnspentKey, BlockId>, t: Tx, blk: BlockId, lo: nat, hi: nat)
    requires lo <= hi
    ensures OutUnspent(env, u, t, blk, lo, hi + 1) ==
      if !RelOut(env, t, hi) then OutUnspent(env, u, t, blk, lo, hi) else
      OutUnspent(env, u, t, blk, lo, hi)[UnspentKey(env.owner[t.outs[hi].script], OutPoint(t.hash, hi)) := blk]
    decreases hi - lo
  {
    if lo < hi {
      UnspentGrow(env, u, t, blk, lo + 1, hi);
      assert OutPoint(t.hash, lo) != OutPoint(t.hash, hi);
    }
  }

  lemma {:induction false} CreditsCommute(env: Env, c: map<CreditKey, Credit>, t: Tx, blk: BlockId, lo: nat, hi: nat,
                                          ck: CreditKey, x: Credit)
    requires ck.op.hash != t.hash
    ensures OutCredits(env, c[ck := x], t, blk, lo, hi) == OutCredits(env, c, t, blk, lo, hi)[ck := x]
    decreases hi - lo
  {
    if lo < hi {
      CreditsCommute(env, c, t, blk, lo + 1, hi, ck, x);
    }
  }

  lemma {:induction false} UnspentCommute(env: Env, u: map<UnspentKey, BlockId>, t: Tx, blk: BlockId, lo: nat, hi: nat,
                                          uk: UnspentKey, x: BlockId)
    requires uk.op.hash != t.hash
    ensures OutUnspent(env, u[uk := x], t, blk, lo, hi) == OutUnspent(env, u, t, blk, lo, hi)[uk := x]
    decreases hi - lo
  {
    if lo < hi {
      UnspentCommute(env, u, t, blk, lo + 1, hi, uk, x);
    }
  }

  /** Adding the credits of all relevant outputs. */
  lemma OverlayNothing(env: Env, b: Buckets, t: Tx, blk: BlockId)
    ensures Overlay(env, b, t, blk, 0, 0) == b
  {
  }

  lemma {:induction false} AddCreditsOverlay(env: Env, l: Ledger, t: Tx, blk: BlockId, n: nat)
    requires Inv(env, l) && Funded(env, l) && Unissued(l.b, t.hash) && n <= |t.outs|
    requires AddCredits(env, l, t, blk, n).Some?
    ensures var m := AddCredits(env, l, t, blk, n).value;
            m.b == Overlay(env, l.b, t, blk, 0, n) && Inv(env, m) &&
            m.balances.Keys == l.balances.Keys && m.blocks == l.blocks && m.txs == l.txs
  {
    hide Inv, OutCredits, OutUnspent;
    OverlayNothing(env, l.b, t, blk);
    if n > 0 {
      AddCreditsOverlay(env, l, t, blk, n - 1);
      CreditsGrow(env, l.b.credits, t, blk, 0, n - 1);
      UnspentGrow(env, l.b.unspent, t, blk, 0, n - 1);
      var m := AddCredits(env, l, t, blk, n - 1).value;
      if RelOut(env, t, n - 1) {
        OutCreditsAre(env, l.b.credits, t, blk, 0, n - 1);
        AddCreditKeeps(env, m, t, blk, n - 1);
      }
    }
  }

  /** Input k has a debit, of credit ck, whose unspent entry uk is missing. */
  ghost predicate Debited(env: Env, b: Buckets, t: Tx, blk: BlockId, k: nat, ck: CreditKey, uk: UnspentKey) {
    k < |t.ins| && t.ins[k].prev == ck.op &&
    DebitKey(t.hash, blk, k) in b.debits && b.debits[DebitKey(t.hash, blk, k)].credit == ck &&
    ck in b.credits && b.credits[ck].script in env.owner &&
    uk == UnspentKey(env.owner[b.credits[ck].script], ck.op) && uk !in b.unspent
  }

  /** What UndoIn does when the input has a debit of a credit owned by the wallet of uk. */
  lemma UndoInFound(env: Env, l: Ledger, t: Tx, blk: BlockId, k: nat, ck: CreditKey, uk: UnspentKey)
    requires Debited(env, l.b, t, blk, k, ck, uk) && Balanced(l) && uk.wallet in l.balances
    requires UndoIn(env, l, t, blk, k).Some?
    ensures var m := UndoIn(env, l, t, blk, k).value;
      m.b == Buckets(l.b.credits[ck := l.b.credits[ck].(spentBy := None)], l.b.debits - {DebitKey(t.hash, blk, k)},
                     l.b.unspent[uk := ck.block]) &&
      Balanced(m) && m.balances.Keys == l.balances.Keys && m.blocks == l.blocks && m.txs == l.txs
  {
    BalanceUp(l, UndoIn(env, l, t, blk, k).value, uk, l.b.credits[ck].amount);
  }

  /** What undoing the first spent input finds below the overlay of the transaction's own outputs,
      and the closed form it leads to. */
  lemma UndoInSetup(env: Env, b: Buckets, b': Buckets, l: Ledger, t: Tx, blk: BlockId, k: nat)
    returns (ck: CreditKey, uk: UnspentKey, b'': Buckets)
    requires Consistent(env, b) && Fresh(b, t.hash) && k < |t.ins|
    requires Spent(env, b, b', t, blk, k, |t.ins|) && Touched(env, t, k, |t.ins|, k)
    requires l.b == Overlay(env, b', t, blk, 0, |t.outs|)
    ensures Debited(env, l.b, t, blk, k, ck, uk) && uk in b.unspent && uk == InKey(env, t, k)
    ensures Overlay(env, b'', t, blk, 0, |t.outs|) ==
            Buckets(l.b.credits[ck := l.b.credits[ck].(spentBy := None)], l.b.debits - {DebitKey(t.hash, blk, k)},
                    l.b.unspent[uk := ck.block])
    ensures Spent(env, b, b'', t, blk, k + 1, |t.ins|)
  {
    var n := |t.ins|;
    DebitOfSpent(env, b, b', t, blk, k, n, k);
    ck, uk := SpentKey(env, b, t, k), InKey(env, t, k);
    var c := b'.credits[ck].(spentBy := None);
    b'' := Buckets(b'.credits[ck := c], b'.debits - {DebitKey(t.hash, blk, k)}, b'.unspent[uk := ck.block]);
    UndoStep(env, b, b', t, blk, k, n, b'');
    OutCreditsAre(env, b'.credits, t, blk, 0, |t.outs|);
    OutUnspentAre(env, b'.unspent, t, blk, 0, |t.outs|);
    assert l.b.credits[ck] == b'.credits[ck] && c == b.credits[ck];
    assert uk !in b'.unspent;
    CreditsCommute(env, b'.credits, t, blk, 0, |t.outs|, ck, c);
    UnspentCommute(env, b'.unspent, t, blk, 0, |t.outs|, uk, ck.block);
  }

  /** Undoing one input below the overlay of the transaction's own outputs. */
  lemma UndoInForm(env: Env, b: Buckets, b': Buckets, l: Ledger, t: Tx, blk: BlockId, k: nat)
    returns (b'': Buckets)
    requires Consistent(env, b) && Fresh(b, t.hash) && k < |t.ins|
    requires Spent(env, b, b', t, blk, k, |t.ins|)
    requires l.b == Overlay(env, b', t, blk, 0, |t.outs|) && Balanced(l)
    requires forall uk <- b.unspent :: uk.wallet in l.balances
    requires UndoIn(env, l, t, blk, k).Some?
    ensures var m := UndoIn(env, l, t, blk, k).value;
            m.b == Overlay(env, b'', t, blk, 0, |t.outs|) && Balanced(m) &&
            m.balances.Keys == l.balances.Keys && m.blocks == l.blocks && m.txs == l.txs
    ensures Spent(env, b, b'', t, blk, k + 1, |t.ins|)
  {
    if Touched(env, t, k, |t.ins|, k) {
      var ck, uk;
      ck, uk, b'' := UndoInSetup(env, b, b', l, t, blk, k);
      UndoInFound(env, l, t, blk, k, ck, uk);
    } else {
      b'' := b';
      assert DebitKey(t.hash, blk, k) !in l.b.debits;
      UndoSkip(env, b, b', t, blk, k, |t.ins|);
    }
  }

  lemma {:induction false} UndoInsForm(env: Env, b: Buckets, b': Buckets, l: Ledger, t: Tx, blk: BlockId, k: nat)
    returns (b'': Buckets)
    requires Consistent(env, b) && Fresh(b, t.hash) && k <= |t.ins|
    requires Spent(env, b, b', t, blk, 0, |t.ins|)
    requires l.b == Overlay(env, b', t, blk, 0, |t.outs|) && Balanced(l)
    requires forall uk <- b.unspent :: uk.wallet in l.balances
    requires UndoIns(env, l, t, blk, k).Some?
    ensures var m := UndoIns(env, l, t, blk, k).value;
            m.b == Overlay(env, b'', t, blk, 0, |t.outs|) && Balanced(m) &&
            m.balances.Keys == l.balances.Keys && m.blocks == l.blocks && m.txs == l.txs
    ensures Spent(env, b, b'', t, blk, k, |t.ins|)
  {
    hide Spent, Overlay, Consistent, Fresh, UndoIn, Balanced;
    if k == 0 {
      b'' := b';
    } else {
      var p := UndoInsForm(env, b, b', l, t, blk, k - 1);
      b'' := UndoInForm(env, b, p, UndoIns(env, l, t, blk, k - 1).value, t, blk, k - 1);
    }
  }

  lemma OverlayShrink(env: Env, b: Buckets, t: Tx, blk: BlockId, lo: nat, hi: nat)
    requires lo < hi && Unissued(b, t.hash)
    ensures var o, o' := Overlay(env, b, t, blk, lo, hi), Overlay(env, b, t, blk, lo + 1, hi);
      if !RelOut(env, t, lo) then o' == o else
      o'.debits == o.debits &&
      o'.credits == o.credits - {OutKey(t, blk, lo)} &&
      o'.unspent == o.unspent - {UnspentKey(env.owner[t.outs[lo].script], OutPoint(t.hash, lo))}
  {
    OutCreditsAre(env, b.credits, t, blk, lo + 1, hi);
    OutUnspentAre(env, b.unspent, t, blk, lo + 1, hi);
  }

  /** What UndoOut does to a coin that is still unspent: the coin is in the balance it is taken from. */
  lemma UndoOutFound(env: Env, l: Ledger, t: Tx, blk: BlockId, k: nat)
    requires RelOut(env, t, k) && Balanced(l)
    requires var ck := OutKey(t, blk, k);
             var uk := UnspentKey(env.owner[t.outs[k].script], ck.op);
             ck in l.b.credits && l.b.credits[ck].amount == t.outs[k].value &&
             uk in l.b.unspent && l.b.unspent[uk] == blk &&
             forall x <- l.b.unspent :: x.op == ck.op ==> x == uk
    ensures UndoOut(env, l, t, blk, k).Some?
    ensures var m := UndoOut(env, l, t, blk, k).value;
      m.b == Buckets(l.b.credits - {OutKey(t, blk, k)}, l.b.debits,
                     l.b.unspent - {UnspentKey(env.owner[t.outs[k].script], OutPoint(t.hash, k))}) &&
      Balanced(m) && m.balances.Keys == l.balances.Keys && m.blocks == l.blocks && m.txs == l.txs
  {
    var ck := OutKey(t, blk, k);
    var uk := UnspentKey(env.owner[t.outs[k].script], ck.op);
    TotalMonotone(l.b, Coins(l.b, uk.wallet), uk);
    BalanceDown(l, UndoOut(env, l, t, blk, k).value, uk, t.outs[k].value);
  }

  lemma UndoOutForm(env: Env, b: Buckets, l: Ledger, t: Tx, blk: BlockId, k: nat)
    requires Unissued(b, t.hash) && k < |t.outs|
    requires l.b == Overlay(env, b, t, blk, k, |t.outs|) && Balanced(l)
    ensures UndoOut(env, l, t, blk, k).Some?
    ensures var m := UndoOut(env, l, t, blk, k).value;
            m.b == Overlay(env, b, t, blk, k + 1, |t.outs|) && Balanced(m) &&
            m.balances.Keys == l.balances.Keys && m.blocks == l.blocks && m.txs == l.txs
  {
    if RelOut(env, t, k) {
      OutCreditsAre(env, b.credits, t, blk, k, |t.outs|);
      OutUnspentAre(env, b.unspent, t, blk, k, |t.outs|);
      UndoOutFound(env, l, t, blk, k);
    } else {
      OutCreditsAre(env, b.credits, t, blk, k, |t.outs|);
    }
    OverlayShrink(env, b, t, blk, k, |t.outs|);
  }

  /** Undoing the outputs always succeeds. */
  lemma {:induction false} UndoOutsForm(env: Env, b: Buckets, l: Ledger, t: Tx, blk: BlockId, k: nat)
    requires Unissued(b, t.hash) && k <= |t.outs|
    requires l.b == Overlay(env, b, t, blk, 0, |t.outs|) && Balanced(l)
    ensures UndoOuts(env, l, t, blk, k).Some?
    ensures var m := UndoOuts(env, l, t, blk, k).value;
            m.b == Overlay(env, b, t, blk, k, |t.outs|) && Balanced(m) &&
            m.balances.Keys == l.balances.Keys && m.blocks == l.blocks && m.txs == l.txs
  {
    if k > 0 {
      UndoOutsForm(env, b, l, t, blk, k - 1);
      UndoOutForm(env, b, UndoOuts(env, l, t, blk, k - 1).value, t, blk, k - 1);
    }
  }

  // ---------- one transaction ----------

  /** Undoing looks at nothing that the bare transaction does not have. */
  lemma {:induction false} UndoInsBare(env: Env, l: Ledger, t: Tx, blk: BlockId, n: nat)
    requires n <= |t.ins|
    ensures UndoIns(env, l, Bare(t), blk, n) == UndoIns(env, l, t, blk, n)
  {
    if n > 0 {
      UndoInsBare(env, l, t, blk, n - 1);
    }
  }

  lemma {:induction false} UndoOutsBare(env: Env, l: Ledger, t: Tx, blk: BlockId, n: nat)
    requires n <= |t.outs|
    ensures UndoOuts(env, l, Bare(t), blk, n) == UndoOuts(env, l, t, blk, n)
  {
    if n > 0 {
      UndoOutsBare(env, l, t, blk, n - 1);
    }
  }

  /** Undoing a recorded transaction, in terms of the transaction it was recorded from. */
  lemma UndoTxBare(env: Env, l: Ledger, t: Tx, blk: BlockId)
    requires TxKey(t.hash, blk) in l.txs && l.txs[TxKey(t.hash, blk)] == Bare(t)
    ensures var l0 := l.(txs := l.txs - {TxKey(t.hash, blk)});
      UndoTx(env, l, t.hash, blk) ==
      if t.coinbase then UndoOuts(env, l0, t, blk, |t.outs|)
      else
        match UndoIns(env, l0, t, blk, |t.ins|)
        case None => None
        case Some(m) => UndoOuts(env, m, t, blk, |t.outs|)
  {
    var l0 := l.(txs := l.txs - {TxKey(t.hash, blk)});
    UndoInsBare(env, l0, t, blk, |t.ins|);
    var m := UndoIns(env, l0, t, blk, |t.ins|);
    UndoOutsBare(env, if t.coinbase || m.None? then l0 else m.value, t, blk, |t.outs|);
  }

  /** What connecting an unseen transaction does, and that it keeps the invariant. */
  lemma ConnectTxForm(env: Env, l: Ledger, t: Tx, blk: BlockId) returns (m: Ledger)
    requires Inv(env, l) && Funded(env, l) && Fresh(l.b, t.hash) && TxKey(t.hash, blk) !in l.txs
    requires ConnectTx(env, l, t, blk).Some?
    ensures var l' := ConnectTx(env, l, t, blk).value;
      Spent(env, l.b, m.b, t, blk, 0, |t.ins|) && Unissued(m.b, t.hash) &&
      l'.b == Overlay(env, m.b, t, blk, 0, |t.outs|) &&
      Inv(env, l') && l'.balances.Keys == l.balances.Keys &&
      l'.blocks == Record(l, t, blk).blocks && l'.txs == l.txs[TxKey(t.hash, blk) := Bare(t)]
  {
    SpendAllSpent(env, Record(l, t, blk), t, blk, |t.ins|);
    m := InsertMinedTx(env, l, t, blk).value;
    AddCreditsOverlay(env, m, t, blk, |t.outs|);
  }

  /** Connecting a transaction brings in no hash but its own. */
  lemma ConnectTxFresh(env: Env, l: Ledger, t: Tx, blk: BlockId, h: Hash)
    requires Inv(env, l) && Funded(env, l) && Fresh(l.b, t.hash) && TxKey(t.hash, blk) !in l.txs
    requires ConnectTx(env, l, t, blk).Some?
    requires h != t.hash && Fresh(l.b, h)
    ensures Fresh(ConnectTx(env, l, t, blk).value.b, h)
  {
    var m := ConnectTxForm(env, l, t, blk);
    OutCreditsAre(env, m.b.credits, t, blk, 0, |t.outs|);
    OutUnspentAre(env, m.b.unspent, t, blk, 0, |t.outs|);
  }

  /** New unspent entries carry the height of the block. */
  lemma ConnectTxHeights(env: Env, l: Ledger, t: Tx, blk: BlockId)
    requires Inv(env, l) && Funded(env, l) && Fresh(l.b, t.hash) && TxKey(t.hash, blk) !in l.txs
    requires ConnectTx(env, l, t, blk).Some?
    requires forall uk <- l.b.unspent :: l.b.unspent[uk].height <= blk.height
    ensures var b := ConnectTx(env, l, t, blk).value.b; forall uk <- b.unspent :: b.unspent[uk].height <= blk.height
  {
    var m := ConnectTxForm(env, l, t, blk);
    OutUnspentAre(env, m.b.unspent, t, blk, 0, |t.outs|);
  }

  /** Two balanced ledgers with the same coins and the same wallets have the same balances. */
  lemma BalancesDetermined(l: Ledger, l': Ledger)
    requires Balanced(l) && Balanced(l') && l.b == l'.b && l.balances.Keys == l'.balances.Keys
    ensures l.balances == l'.balances
  {
  }

  lemma FreshUnissued(b: Buckets, h: Hash)
    requires Fresh(b, h)
    ensures Unissued(b, h)
  {
  }

  lemma OverlayNone(env: Env, b: Buckets, t: Tx, blk: BlockId, n: nat)
    ensures Overlay(env, b, t, blk, n, n) == b
  {
  }

  /** Rolling a transaction back right after connecting it restores coins, balances and records,
      whatever the block bucket holds. */
  lemma UndoConnectTx(env: Env, l: Ledger, t: Tx, blk: BlockId, l': Ledger)
    requires Inv(env, l) && Funded(env, l) && Fresh(l.b, t.hash) && TxKey(t.hash, blk) !in l.txs
    requires ConnectTx(env, l, t, blk).Some?
    requires l' == ConnectTx(env, l, t, blk).value.(blocks := l'.blocks)
    requires UndoTx(env, l', t.hash, blk).Some?
    ensures UndoTx(env, l', t.hash, blk).value == l.(blocks := l'.blocks)
  {
    hide ConnectTx, UndoTx, UndoIns, UndoOuts, Overlay, Consistent, Total, Coins, Spent;
    var m := ConnectTxForm(env, l, t, blk);
    var tk := TxKey(t.hash, blk);
    var l0 := l'.(txs := l'.txs - {tk});
    assert l0.txs == l.txs;
    UndoTxBare(env, l', t, blk);
    var p := l0;
    var b := m.b;
    if !t.coinbase {
      b := UndoInsForm(env, l.b, m.b, l0, t, blk, |t.ins|);
      p := UndoIns(env, l0, t, blk, |t.ins|).value;
      SpentNothing(env, l.b, b, t, blk, |t.ins|, |t.ins|);
    } else {
      SpentNothing(env, l.b, b, t, blk, 0, |t.ins|);
    }
    FreshUnissued(l.b, t.hash);
    UndoOutsForm(env, l.b, p, t, blk, |t.outs|);
    OverlayNone(env, l.b, t, blk, |t.outs|);
    BalancesDetermined(l, UndoTx(env, l', t.hash, blk).value);
  }
}
