/** The balance recount over unspent entries, compared with the stored balance. */
module Recount {
  import opened Wrappers
  import opened Ledger
  import opened LedgerInvariant

  const U64: nat := 0x1_0000_0000_0000_0000

  /** Confirmations, in the source's unsigned 64-bit arithmetic. */
  function Confs(syncHeight: nat, height: nat): nat {
    (syncHeight - height + 1) % U64
  }

  /** The confirmations of a coin are the heights from its block to the synced one; a block one or more above the
      synced one wraps around to none or to very many. */
  lemma {:induction false} ConfsAreHeights(syncHeight: nat, height: nat, heights: set<nat>)
    requires syncHeight < U64 - 1 && height < U64
    requires forall h: nat :: h in heights <==> height <= h <= syncHeight
    ensures height <= syncHeight + 1 ==> Confs(syncHeight, height) == |heights|
    ensures height > syncHeight + 1 ==> Confs(syncHeight, height) == U64 - (height - syncHeight - 1)
    decreases |heights|
  {
    if height <= syncHeight {
      assert height in heights;
      ConfsAreHeights(syncHeight, height + 1, heights - {height});
    } else {
      assert heights == {};
    }
  }

  /** The sums a recount keeps, and the kinds of coins. */
  datatype Sum = Whole | Spendable | Staking | Binding
  type Kind = k: Sum | !k.Whole? witness Spendable

  datatype Detail = Detail(total: nat, spendable: nat, staking: nat, binding: nat) {
    function Of(s: Sum): nat {
      match s
      case Whole => total
      case Spendable => spendable
      case Staking => staking
      case Binding => binding
    }

    function Largest(): nat {
      var a := if total < spendable then spendable else total;
      var b := if staking < binding then binding else staking;
      if a < b then b else a
    }
  }

  const NOTHING: Detail := Detail(0, 0, 0, 0)

  function Plus(d: Detail, e: Detail): Detail {
    Detail(d.total + e.total, d.spendable + e.spendable, d.staking + e.staking, d.binding + e.binding)
  }

  /** What is asked for, which coins are mature and not spent by the mempool, and the kind of each coin. */
  datatype Query = Query(minConf: nat, syncHeight: nat, free: UnspentKey -> bool, kind: UnspentKey -> Kind,
                         maxAmount: nat) {
    /** What a coin of this amount adds to the sums. */
    function Share(uk: UnspentKey, amount: nat): Detail {
      Detail(amount,
             if free(uk) && kind(uk) == Spendable then amount else 0,
             if free(uk) && kind(uk) == Staking then amount else 0,
             if free(uk) && kind(uk) == Binding then amount else 0)
    }

    predicate Adds(uk: UnspentKey, s: Sum) { s == Whole || (free(uk) && kind(uk) == s) }
  }

  /** The unspent entry uk has a credit, paying the script, with enough confirmations. */
  predicate Counted(b: Buckets, uk: UnspentKey, script: Script, q: Query) {
    uk in b.unspent && CreditKey(uk.op, b.unspent[uk]) in b.credits &&
    b.credits[CreditKey(uk.op, b.unspent[uk])].script == script &&
    Confs(q.syncHeight, b.unspent[uk].height) >= q.minConf
  }

  /** The coins among s that count for a script and a sum. */
  ghost function CountedIn(b: Buckets, s: set<UnspentKey>, script: Script, q: Query, p: Sum): set<UnspentKey> {
    set uk <- s | Counted(b, uk, script, q) && q.Adds(uk, p)
  }

  /** The sums are those of the coins among s that count for the script. */
  ghost predicate DetailOf(d: Detail, b: Buckets, s: set<UnspentKey>, script: Script, q: Query) {
    forall p: Sum :: d.Of(p) == Total(b, CountedIn(b, s, script, q, p))
  }

  /** The coins of a wallet that pay a script with enough confirmations. */
  ghost function Confirmed(b: Buckets, wallet: WalletId, script: Script, minConf: nat, syncHeight: nat)
    : set<UnspentKey>
  {
    set uk <- b.unspent |
      uk.wallet == wallet && CreditKey(uk.op, b.unspent[uk]) in b.credits &&
      b.credits[CreditKey(uk.op, b.unspent[uk])].script == script &&
      (syncHeight - b.unspent[uk].height + 1) % U64 >= minConf
  }

  /** The four sums for a script: its confirmed coins, and those of them that are mature, not spent by the mempool,
      and of one kind. */
  ghost predicate Sums(d: Detail, b: Buckets, wallet: WalletId, script: Script, q: Query) {
    var coins := Confirmed(b, wallet, script, q.minConf, q.syncHeight);
    d.total == Total(b, coins) &&
    d.spendable == Total(b, set uk <- coins | q.free(uk) && q.kind(uk) == Spendable) &&
    d.staking == Total(b, set uk <- coins | q.free(uk) && q.kind(uk) == Staking) &&
    d.binding == Total(b, set uk <- coins | q.free(uk) && q.kind(uk) == Binding)
  }

  lemma DetailIs(d: Detail, b: Buckets, wallet: WalletId, script: Script, q: Query)
    requires DetailOf(d, b, Coins(b, wallet), script, q)
    ensures Sums(d, b, wallet, script, q)
  {
    hide Total;
    var s, coins := Coins(b, wallet), Confirmed(b, wallet, script, q.minConf, q.syncHeight);
    assert CountedIn(b, s, script, q, Whole) == coins;
    assert d.total == d.Of(Whole) && d.spendable == d.Of(Spendable);
    assert d.staking == d.Of(Staking) && d.binding == d.Of(Binding);
    assert CountedIn(b, s, script, q, Spendable) == set uk <- coins | q.free(uk) && q.kind(uk) == Spendable;
    assert CountedIn(b, s, script, q, Staking) == set uk <- coins | q.free(uk) && q.kind(uk) == Staking;
    assert CountedIn(b, s, script, q, Binding) == set uk <- coins | q.free(uk) && q.kind(uk) == Binding;
  }

  lemma CountOne(b: Buckets, s: set<UnspentKey>, uk: UnspentKey, script: Script, q: Query, p: Sum)
    requires uk !in s
    ensures Total(b, CountedIn(b, s + {uk}, script, q, p)) ==
            Total(b, CountedIn(b, s, script, q, p)) +
            if Counted(b, uk, script, q) && q.Adds(uk, p) then Worth(b, uk) else 0
  {
    var r, r' := CountedIn(b, s, script, q, p), CountedIn(b, s + {uk}, script, q, p);
    if Counted(b, uk, script, q) && q.Adds(uk, p) {
      assert r' - {uk} == r;
      TotalRemove(b, r', uk);
    } else {
      assert r' == r;
    }
  }

  lemma DetailOne(d: Detail, b: Buckets, s: set<UnspentKey>, uk: UnspentKey, script: Script, q: Query)
    requires uk !in s && DetailOf(d, b, s, script, q)
    ensures DetailOf(if Counted(b, uk, script, q) then Plus(d, q.Share(uk, Worth(b, uk))) else d, b, s + {uk}, script,
        q)
  {
    hide Total, Worth, CountedIn, Counted;
    var d' := if Counted(b, uk, script, q) then Plus(d, q.Share(uk, Worth(b, uk))) else d;
    forall p: Sum ensures d'.Of(p) == Total(b, CountedIn(b, s + {uk}, script, q, p)) {
      CountOne(b, s, uk, script, q, p);
    }
  }

  lemma DetailNone(b: Buckets, script: Script, q: Query)
    ensures DetailOf(NOTHING, b, {}, script, q)
  {
    forall p: Sum ensures CountedIn(b, {}, script, q, p) == {} { }
  }

  /** The coins of some sum counted so far exceed the range, so all of them do. */
  lemma TooMuchSoFar(d: Detail, b: Buckets, s: set<UnspentKey>, all: set<UnspentKey>, script: Script, q: Query)
    requires DetailOf(d, b, s, script, q) && s <= all && d.Largest() > q.maxAmount
    ensures Total(b, CountedIn(b, all, script, q, Whole)) > q.maxAmount
  {
    var p: Sum :| d.Of(p) > q.maxAmount by {
      assert d.Largest() == d.Of(Whole) || d.Largest() == d.Of(Spendable) ||
             d.Largest() == d.Of(Staking) || d.Largest() == d.Of(Binding);
    }
    TotalSubset(b, CountedIn(b, s, script, q, p), CountedIn(b, all, script, q, Whole));
  }

  /** One pass over the wallet's unspent entries, in any order. It fails exactly if the coins of some script
      exceed the range of an amount. */
  method ScriptAddressBalance(b: Buckets, wallet: WalletId, scripts: set<Script>, q: Query)
    returns (r: Option<map<Script, Detail>>)
    ensures r.Some? ==> r.value.Keys == scripts
    ensures r.Some? ==> forall s <- scripts :: Sums(r.value[s], b, wallet, s, q)
    ensures r.Some? ==> forall s <- scripts :: DetailOf(r.value[s], b, Coins(b, wallet), s, q)
    ensures r.None? <==> exists s <- scripts :: Total(b, CountedIn(b, Coins(b, wallet), s, q, Whole)) > q.maxAmount
  {
    hide Total, CountedIn, DetailOf, Sums;
    var ret := map s | s in scripts :: NOTHING;
    var iter := set uk <- b.unspent | uk.wallet == wallet;
    ghost var done: set<UnspentKey> := {};
    forall s <- scripts ensures DetailOf(NOTHING, b, {}, s, q) {
      DetailNone(b, s, q);
    }
    while iter != {}
      invariant done + iter == Coins(b, wallet) && done !! iter && ret.Keys == scripts
      invariant forall s <- scripts :: DetailOf(ret[s], b, done, s, q) && ret[s].Largest() <= q.maxAmount
      decreases iter
    {
      var uk :| uk in iter;
      ghost var before := done;
      iter, done := iter - {uk}, done + {uk};
      forall s <- scripts
        ensures DetailOf(if Counted(b, uk, s, q) then Plus(ret[s], q.Share(uk, Worth(b, uk))) else ret[s], b, done, s,
            q)
      {
        DetailOne(ret[s], b, before, uk, s, q);
      }
      var credKey := CreditKey(uk.op, b.unspent[uk]);
      if credKey !in b.credits {
        continue;
      }
      var cred := b.credits[credKey];
      if cred.amount == 0 {
        continue;
      }
      if cred.script !in ret {
        continue;
      }
      if Confs(q.syncHeight, b.unspent[uk].height) >= q.minConf {
        var balance := Plus(ret[cred.script], q.Share(uk, cred.amount));
        if balance.Largest() > q.maxAmount {
          TooMuchSoFar(balance, b, done, Coins(b, wallet), cred.script, q);
          return None;
        }
        ret := ret[cred.script := balance];
      }
    }
    assert done == Coins(b, wallet);
    forall s <- scripts ensures Total(b, CountedIn(b, Coins(b, wallet), s, q, Whole)) <= q.maxAmount {
      DetailTotal(ret[s], b, Coins(b, wallet), s, q);
    }
    forall s <- scripts ensures Sums(ret[s], b, wallet, s, q) {
      DetailIs(ret[s], b, wallet, s, q);
    }
    return Some(ret);
  }

  lemma DetailTotal(d: Detail, b: Buckets, s: set<UnspentKey>, script: Script, q: Query)
    requires DetailOf(d, b, s, script, q)
    ensures Total(b, CountedIn(b, s, script, q, Whole)) == d.total <= d.Largest()
  {
    assert d.Of(Whole) == d.total;
  }

  /** The coins among s that count for a sum, paying any of the scripts. */
  ghost function CountedAny(b: Buckets, s: set<UnspentKey>, scripts: set<Script>, q: Query, p: Sum): set<UnspentKey> {
    set uk <- s | (exists x <- scripts :: Counted(b, uk, x, q)) && q.Adds(uk, p)
  }

  lemma AnyOne(b: Buckets, s: set<UnspentKey>, scripts: set<Script>, x: Script, q: Query, p: Sum)
    requires x !in scripts
    ensures Total(b, CountedAny(b, s, scripts + {x}, q, p)) ==
            Total(b, CountedAny(b, s, scripts, q, p)) + Total(b, CountedIn(b, s, x, q, p))
  {
    TotalUnion(b, CountedAny(b, s, scripts, q, p), CountedIn(b, s, x, q, p));
    assert CountedAny(b, s, scripts + {x}, q, p) == CountedAny(b, s, scripts, q, p) + CountedIn(b, s, x, q, p);
  }

  ghost predicate WholeDetail(d: Detail, b: Buckets, s: set<UnspentKey>, scripts: set<Script>, q: Query) {
    forall p: Sum :: d.Of(p) == Total(b, CountedAny(b, s, scripts, q, p))
  }

  lemma WholeOne(d: Detail, e: Detail, b: Buckets, s: set<UnspentKey>, scripts: set<Script>, x: Script, q: Query)
    requires WholeDetail(d, b, s, scripts, q) && x !in scripts && DetailOf(e, b, s, x, q)
    ensures WholeDetail(Plus(d, e), b, s, scripts + {x}, q)
  {
    hide Total, CountedAny, CountedIn;
    forall p: Sum ensures Plus(d, e).Of(p) == Total(b, CountedAny(b, s, scripts + {x}, q, p)) {
      AnyOne(b, s, scripts, x, q, p);
      assert d.Of(p) == Total(b, CountedAny(b, s, scripts, q, p));
      assert e.Of(p) == Total(b, CountedIn(b, s, x, q, p));
    }
  }

  lemma WholeNone(b: Buckets, s: set<UnspentKey>, q: Query)
    ensures WholeDetail(NOTHING, b, s, {}, q)
  {
    forall p: Sum ensures CountedAny(b, s, {}, q, p) == {} { }
  }

  lemma WholeTooMuch(d: Detail, b: Buckets, s: set<UnspentKey>, some: set<Script>, scripts: set<Script>, q: Query)
    requires WholeDetail(d, b, s, some, q) && some <= scripts && d.Largest() > q.maxAmount
    ensures Total(b, CountedAny(b, s, scripts, q, Whole)) > q.maxAmount
  {
    var p: Sum :| d.Of(p) > q.maxAmount by {
      assert d.Largest() == d.Of(Whole) || d.Largest() == d.Of(Spendable) ||
             d.Largest() == d.Of(Staking) || d.Largest() == d.Of(Binding);
    }
    TotalSubset(b, CountedAny(b, s, some, q, p), CountedAny(b, s, scripts, q, Whole));
  }

  lemma OneTooMuch(b: Buckets, s: set<UnspentKey>, x: Script, scripts: set<Script>, q: Query)
    requires x in scripts && Total(b, CountedIn(b, s, x, q, Whole)) > q.maxAmount
    ensures Total(b, CountedAny(b, s, scripts, q, Whole)) > q.maxAmount
  {
    TotalSubset(b, CountedIn(b, s, x, q, Whole), CountedAny(b, s, scripts, q, Whole));
  }

  /** The sums of all scripts added up, in any order. */
  method WalletBalance(b: Buckets, wallet: WalletId, scripts: set<Script>, q: Query) returns (r: Option<Detail>)
    ensures r.Some? ==> WholeDetail(r.value, b, Coins(b, wallet), scripts, q)
    ensures r.None? <==> Total(b, CountedAny(b, Coins(b, wallet), scripts, q, Whole)) > q.maxAmount
  {
    hide Total, CountedIn, CountedAny, DetailOf, WholeDetail;
    var bal := ScriptAddressBalance(b, wallet, scripts, q);
    if bal.None? {
      ghost var x :| x in scripts && Total(b, CountedIn(b, Coins(b, wallet), x, q, Whole)) > q.maxAmount;
      OneTooMuch(b, Coins(b, wallet), x, scripts, q);
      return None;
    }
    var ret := NOTHING;
    var rest := scripts;
    ghost var done: set<Script> := {};
    WholeNone(b, Coins(b, wallet), q);
    while rest != {}
      invariant done + rest == scripts && done !! rest
      invariant WholeDetail(ret, b, Coins(b, wallet), done, q) && ret.Largest() <= q.maxAmount
      decreases rest
    {
      var s :| s in rest;
      WholeOne(ret, bal.value[s], b, Coins(b, wallet), done, s, q);
      rest, done := rest - {s}, done + {s};
      ret := Plus(ret, bal.value[s]);
      if ret.Largest() > q.maxAmount {
        WholeTooMuch(ret, b, Coins(b, wallet), done, scripts, q);
        return None;
      }
    }
    assert done == scripts;
    WholeTotal(ret, b, Coins(b, wallet), scripts, q);
    return Some(ret);
  }

  lemma WholeTotal(d: Detail, b: Buckets, s: set<UnspentKey>, scripts: set<Script>, q: Query)
    requires WholeDetail(d, b, s, scripts, q)
    ensures Total(b, CountedAny(b, s, scripts, q, Whole)) == d.total <= d.Largest()
  {
    assert d.Of(Whole) == d.total;
  }

  lemma Counts(env: Env, l: Ledger, wallet: WalletId, scripts: set<Script>, q: Query, uk: UnspentKey)
    requires Consistent(env, l.b) && uk in Coins(l.b, wallet)
    requires forall s <- env.owner :: env.owner[s] == wallet ==> s in scripts
    requires l.b.unspent[uk].height <= q.syncHeight < U64 - 1 && q.minConf <= 1
    ensures exists s <- scripts :: Counted(l.b, uk, s, q)
  {
    var s := l.b.credits[CreditKey(uk.op, l.b.unspent[uk])].script;
    assert s in scripts && Counted(l.b, uk, s, q);
  }

  /** With at most one confirmation asked for, all coins of a wallet count over its scripts, and they are worth its
      stored balance. */
  lemma RecountIsGross(env: Env, l: Ledger, wallet: WalletId, scripts: set<Script>, q: Query)
    requires Inv(env, l) && wallet in l.balances
    requires forall s <- env.owner :: env.owner[s] == wallet ==> s in scripts
    requires forall uk <- l.b.unspent :: l.b.unspent[uk].height <= q.syncHeight < U64 - 1
    requires q.minConf <= 1
    ensures Total(l.b, CountedAny(l.b, Coins(l.b, wallet), scripts, q, Whole)) == l.balances[wallet]
  {
    hide Total, Counted, Consistent;
    forall uk <- Coins(l.b, wallet) ensures exists s <- scripts :: Counted(l.b, uk, s, q) {
      Counts(env, l, wallet, scripts, q, uk);
    }
    assert CountedAny(l.b, Coins(l.b, wallet), scripts, q, Whole) == Coins(l.b, wallet);
  }

  /** The recounted total equals the stored balance on every ledger that satisfies the invariant, and the recount
      fails exactly if that balance is out of range. */
  method WalletBalanceIsGross(env: Env, l: Ledger, wallet: WalletId, scripts: set<Script>, q: Query)
    returns (r: Option<Detail>)
    requires Inv(env, l) && wallet in l.balances
    requires forall s <- env.owner :: env.owner[s] == wallet ==> s in scripts
    requires forall uk <- l.b.unspent :: l.b.unspent[uk].height <= q.syncHeight < U64 - 1
    requires q.minConf <= 1
    ensures r.Some? <==> l.balances[wallet] <= q.maxAmount
    ensures r.Some? ==> r.value.total == l.balances[wallet]
  {
    r := WalletBalance(l.b, wallet, scripts, q);
    RecountIsGross(env, l, wallet, scripts, q);
    if r.Some? {
      WholeTotal(r.value, l.b, Coins(l.b, wallet), scripts, q);
    }
  }

  /** With every coin mature and none spent by the mempool, the three kinds add up to the total. */
  lemma KindsAddUp(b: Buckets, s: set<UnspentKey>, scripts: set<Script>, q: Query)
    requires forall uk <- s :: q.free(uk)
    ensures Total(b, CountedAny(b, s, scripts, q, Whole)) ==
            Total(b, CountedAny(b, s, scripts, q, Spendable)) + Total(b, CountedAny(b, s, scripts, q, Staking)) +
            Total(b, CountedAny(b, s, scripts, q, Binding))
  {
    var sp, st, bi := CountedAny(b, s, scripts, q, Spendable), CountedAny(b, s, scripts, q, Staking),
                      CountedAny(b, s, scripts, q, Binding);
    TotalUnion(b, sp, st);
    TotalUnion(b, sp + st, bi);
    assert CountedAny(b, s, scripts, q, Whole) == sp + st + bi;
  }
}
