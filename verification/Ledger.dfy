/** The mined buckets of the wallet database and what one connect or rollback step does to them.
    Bucket layouts follow masswallet/txmgr/type.go; a Go error is `None`, and the enclosing database
    transaction then leaves the old value in place. */
module Ledger {
  import opened Wrappers

  type Hash = nat
  type WalletId = nat
  type Script = nat

  datatype BlockId = BlockId(height: nat, hash: Hash)
  datatype OutPoint = OutPoint(hash: Hash, index: nat)

  /** An input with the script of the output it spends, if the wallet looks that output up. */
  datatype TxIn = TxIn(prev: OutPoint, prevScript: Option<Script>)
  datatype TxOut = TxOut(value: nat, script: Script)
  datatype Tx = Tx(hash: Hash, coinbase: bool, ins: seq<TxIn>, outs: seq<TxOut>)

  datatype CreditKey = CreditKey(op: OutPoint, block: BlockId)
  datatype DebitKey = DebitKey(hash: Hash, block: BlockId, index: nat)
  datatype UnspentKey = UnspentKey(wallet: WalletId, op: OutPoint)
  /** What filterTx notes about a relevant input or output. */
  datatype Rel = Rel(index: nat, wallet: WalletId)

  datatype TxKey = TxKey(hash: Hash, block: BlockId)

  datatype Credit = Credit(amount: nat, script: Script, spentBy: Option<DebitKey>)
  datatype Debit = Debit(amount: nat, credit: CreditKey)
  datatype BlockRecord = BlockRecord(hash: Hash, txs: seq<Hash>)

  /** The three buckets that describe coins. */
  datatype Buckets = Buckets(credits: map<CreditKey, Credit>,
                             debits: map<DebitKey, Debit>,
                             unspent: map<UnspentKey, BlockId>)

  /** All six mined buckets. A transaction record holds a file location in the source; here it holds
      the bare transaction found at that location. */
  datatype Ledger = Ledger(b: Buckets,
                           balances: map<WalletId, nat>,
                           blocks: map<nat, BlockRecord>,
                           txs: map<TxKey, Tx>)

  /** What stays fixed while the chain is followed: which wallet owns a script, which wallets are
      ready, and the largest amount the amount type holds. */
  datatype Env = Env(owner: map<Script, WalletId>, ready: set<WalletId>, maxAmount: nat)

  predicate Owned(env: Env, s: Script) {
    s in env.owner && env.owner[s] in env.ready
  }

  predicate RelIn(env: Env, t: Tx, i: nat) {
    i < |t.ins| && !t.coinbase && t.ins[i].prevScript.Some? && Owned(env, t.ins[i].prevScript.value)
  }

  predicate RelOut(env: Env, t: Tx, i: nat) {
    i < |t.outs| && Owned(env, t.outs[i].script)
  }

  predicate Relevant(env: Env, t: Tx) {
    (exists i | 0 <= i < |t.ins| :: RelIn(env, t, i)) || (exists i | 0 <= i < |t.outs| :: RelOut(env, t, i))
  }

  function Balance(m: map<WalletId, nat>, w: WalletId): nat {
    if w in m then m[w] else 0
  }

  function InKey(env: Env, t: Tx, i: nat): UnspentKey
    requires RelIn(env, t, i)
  {
    UnspentKey(env.owner[t.ins[i].prevScript.value], t.ins[i].prev)
  }

  function OutKey(t: Tx, blk: BlockId, i: nat): CreditKey {
    CreditKey(OutPoint(t.hash, i), blk)
  }

  // ---------- forward ----------

  function InRel(env: Env, t: Tx, i: nat): Rel
    requires RelIn(env, t, i)
  {
    Rel(i, env.owner[t.ins[i].prevScript.value])
  }

  function OutRel(env: Env, t: Tx, i: nat): Rel
    requires RelOut(env, t, i)
  {
    Rel(i, env.owner[t.outs[i].script])
  }

  /** One relevant input: mark the credit spent, record the debit, drop the unspent entry. */
  function SpendRel(l: Ledger, t: Tx, blk: BlockId, rel: Rel): Option<Ledger>
    requires rel.index < |t.ins|
  {
    var uk := UnspentKey(rel.wallet, t.ins[rel.index].prev);
    if uk !in l.b.unspent then None
    else
      var ck := CreditKey(uk.op, l.b.unspent[uk]);
      if ck !in l.b.credits || l.b.credits[ck].spentBy.Some? then None
      else
        var c := l.b.credits[ck];
        var dk := DebitKey(t.hash, blk, rel.index);
        if Balance(l.balances, uk.wallet) < c.amount then None
        else
          Some(l.(b := Buckets(l.b.credits[ck := c.(spentBy := Some(dk))],
                               l.b.debits[dk := Debit(c.amount, ck)],
                               l.b.unspent - {uk}),
                  balances := l.balances[uk.wallet := Balance(l.balances, uk.wallet) - c.amount]))
  }

  function Spend(env: Env, l: Ledger, t: Tx, blk: BlockId, i: nat): Option<Ledger>
    requires RelIn(env, t, i)
  {
    SpendRel(l, t, blk, InRel(env, t, i))
  }

  /** The first n inputs. */
  function SpendAll(env: Env, l: Ledger, t: Tx, blk: BlockId, n: nat): Option<Ledger>
    requires n <= |t.ins|
  {
    if n == 0 then Some(l)
    else
      match SpendAll(env, l, t, blk, n - 1)
      case None => None
      case Some(m) => if RelIn(env, t, n - 1) then Spend(env, m, t, blk, n - 1) else Some(m)
  }

  /** One relevant output: a new credit and its unspent entry. */
  function AddRel(env: Env, l: Ledger, t: Tx, blk: BlockId, rel: Rel): Option<Ledger>
    requires rel.index < |t.outs|
  {
    var ck := OutKey(t, blk, rel.index);
    var o := t.outs[rel.index];
    var w := rel.wallet;
    if ck in l.b.credits || Balance(l.balances, w) + o.value > env.maxAmount then None
    else
      Some(l.(b := l.b.(credits := l.b.credits[ck := Credit(o.value, o.script, None)],
                        unspent := l.b.unspent[UnspentKey(w, ck.op) := blk]),
              balances := l.balances[w := Balance(l.balances, w) + o.value]))
  }

  function AddCredit(env: Env, l: Ledger, t: Tx, blk: BlockId, i: nat): Option<Ledger>
    requires RelOut(env, t, i)
  {
    AddRel(env, l, t, blk, OutRel(env, t, i))
  }

  /** The first n outputs. */
  function AddCredits(env: Env, l: Ledger, t: Tx, blk: BlockId, n: nat): Option<Ledger>
    requires n <= |t.outs|
  {
    if n == 0 then Some(l)
    else
      match AddCredits(env, l, t, blk, n - 1)
      case None => None
      case Some(m) => if RelOut(env, t, n - 1) then AddCredit(env, m, t, blk, n - 1) else Some(m)
  }

  /** The transaction as the chain stores it, without scripts of other transactions. */
  function Bare(t: Tx): Tx {
    t.(ins := seq(|t.ins|, i requires 0 <= i < |t.ins| => TxIn(t.ins[i].prev, None)))
  }

  /** The transaction record, and the block record it is appended to. */
  function Record(l: Ledger, t: Tx, blk: BlockId): Ledger {
    var rec := if blk.height in l.blocks
               then l.blocks[blk.height].(txs := l.blocks[blk.height].txs + [t.hash])
               else BlockRecord(blk.hash, [t.hash]);
    l.(blocks := l.blocks[blk.height := rec], txs := l.txs[TxKey(t.hash, blk) := Bare(t)])
  }

  function InsertMinedTx(env: Env, l: Ledger, t: Tx, blk: BlockId): Option<Ledger> {
    if TxKey(t.hash, blk) in l.txs then Some(l)
    else SpendAll(env, Record(l, t, blk), t, blk, |t.ins|)
  }

  function ConnectTx(env: Env, l: Ledger, t: Tx, blk: BlockId): Option<Ledger> {
    match InsertMinedTx(env, l, t, blk)
    case None => None
    case Some(m) => AddCredits(env, m, t, blk, |t.outs|)
  }

  /** The first n of the relevant transactions of a block. */
  function ConnectTxs(env: Env, l: Ledger, rs: seq<Tx>, blk: BlockId, n: nat): Option<Ledger>
    requires n <= |rs|
  {
    if n == 0 then Some(l)
    else
      match ConnectTxs(env, l, rs, blk, n - 1)
      case None => None
      case Some(m) => ConnectTx(env, m, rs[n - 1], blk)
  }

  /** The relevant transactions among the first n of a block, in block order. */
  function RelevantTxs(env: Env, txs: seq<Tx>, n: nat): (rs: seq<Tx>)
    requires n <= |txs|
    ensures |rs| <= n
  {
    if n == 0 then []
    else RelevantTxs(env, txs, n - 1) + if Relevant(env, txs[n - 1]) then [txs[n - 1]] else []
  }

  function ConnectBlock(env: Env, l: Ledger, txs: seq<Tx>, blk: BlockId): Option<Ledger> {
    var rs := RelevantTxs(env, txs, |txs|);
    ConnectTxs(env, l, rs, blk, |rs|)
  }

  // ---------- backward ----------

  /** One input of a rolled-back transaction: if it is a debit, delete the debit, mark the credit
      unspent and put the unspent entry back. */
  function UndoIn(env: Env, l: Ledger, t: Tx, blk: BlockId, i: nat): Option<Ledger>
    requires i < |t.ins|
  {
    var dk := DebitKey(t.hash, blk, i);
    if dk !in l.b.debits then Some(l)
    else
      var ck := l.b.debits[dk].credit;
      if ck !in l.b.credits then None
      else
        var c := l.b.credits[ck].(spentBy := None);
        var credits, debits := l.b.credits[ck := c], l.b.debits - {dk};
        if c.script !in env.owner then Some(l.(b := Buckets(credits, debits, l.b.unspent)))
        else
          var w := env.owner[c.script];
          if Balance(l.balances, w) + c.amount > env.maxAmount then None
          else
            Some(l.(b := Buckets(credits, debits, l.b.unspent[UnspentKey(w, t.ins[i].prev) := ck.block]),
                    balances := l.balances[w := Balance(l.balances, w) + c.amount]))
  }

  function UndoIns(env: Env, l: Ledger, t: Tx, blk: BlockId, n: nat): Option<Ledger>
    requires n <= |t.ins|
  {
    if n == 0 then Some(l)
    else
      match UndoIns(env, l, t, blk, n - 1)
      case None => None
      case Some(m) => UndoIn(env, m, t, blk, n - 1)
  }

  /** One output of a rolled-back transaction: delete its credit and, if unspent, its entry. */
  function UndoOut(env: Env, l: Ledger, t: Tx, blk: BlockId, i: nat): Option<Ledger>
    requires i < |t.outs|
  {
    var ck := OutKey(t, blk, i);
    if ck !in l.b.credits then Some(l)
    else
      var credits := l.b.credits - {ck};
      var o := t.outs[i];
      if o.script !in env.owner then Some(l.(b := l.b.(credits := credits)))
      else
        var w := env.owner[o.script];
        var uk := UnspentKey(w, ck.op);
        if uk !in l.b.unspent then Some(l.(b := l.b.(credits := credits)))
        else if Balance(l.balances, w) < o.value then None
        else
          Some(l.(b := l.b.(credits := credits, unspent := l.b.unspent - {uk}),
                  balances := l.balances[w := Balance(l.balances, w) - o.value]))
  }

  function UndoOuts(env: Env, l: Ledger, t: Tx, blk: BlockId, n: nat): Option<Ledger>
    requires n <= |t.outs|
  {
    if n == 0 then Some(l)
    else
      match UndoOuts(env, l, t, blk, n - 1)
      case None => None
      case Some(m) => UndoOut(env, m, t, blk, n - 1)
  }

  /** One recorded transaction; a missing record is skipped. */
  function UndoTx(env: Env, l: Ledger, hash: Hash, blk: BlockId): Option<Ledger> {
    var tk := TxKey(hash, blk);
    if tk !in l.txs then Some(l)
    else
      var t := l.txs[tk].(hash := hash);
      var l0 := l.(txs := l.txs - {tk});
      if t.coinbase then UndoOuts(env, l0, t, blk, |t.outs|)
      else
        match UndoIns(env, l0, t, blk, |t.ins|)
        case None => None
        case Some(m) => UndoOuts(env, m, t, blk, |t.outs|)
  }

  /** The recorded transactions from the last one down to position k. */
  function UndoTxs(env: Env, l: Ledger, hashes: seq<Hash>, blk: BlockId, k: nat): Option<Ledger>
    requires k <= |hashes|
    decreases |hashes| - k
  {
    if k == |hashes| then Some(l)
    else
      match UndoTxs(env, l, hashes, blk, k + 1)
      case None => None
      case Some(m) => UndoTx(env, m, hashes[k], blk)
  }

  function UndoHeight(env: Env, l: Ledger, h: nat): Option<Ledger> {
    if h !in l.blocks then Some(l)
    else
      var rec := l.blocks[h];
      match UndoTxs(env, l, rec.txs, BlockId(h, rec.hash), 0)
      case None => None
      case Some(m) => Some(m.(blocks := m.blocks - {h}))
  }

  /** The heights `from`, `from - 1`, ..., `to`. */
  function RollbackTo(env: Env, l: Ledger, from: nat, to: nat): Option<Ledger>
    decreases from + 1 - to
  {
    if to > from then Some(l)
    else
      match RollbackTo(env, l, from, to + 1)
      case None => None
      case Some(m) => UndoHeight(env, m, to)
  }
}
