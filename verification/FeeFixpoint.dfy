/** Building a transaction whose fee covers its own size: coins are gathered for a target fee, and the target is
    raised to what the gathered size requires until it is enough. */
module FeeFixpoint {
  import opened Wrappers
  import opened Coins
  import opened CoinSelection

  /** The limits and fee rates of the network, and the request: relayFee gives the minimum relay fee of a
      size, outs are the amounts to pay, and coins are the eligible coins of the wallet. */
  datatype Request = Request(coins: seq<Coin>, outs: seq<nat>, payload: nat, userFee: nat,
                             k: nat, minRelay: nat, maxAmount: nat, relayFee: nat -> Option<nat>) {
    function BaseFee(): nat { if userFee == 0 then minRelay else userFee }

    function Paid(): nat { Total(outs) }

    /** The relay fee required of a transaction spending sel to n outputs. */
    function Required(sel: seq<Coin>, n: nat): Option<nat> { relayFee(SignedSize(sel, n) + payload) }

    /** The relay fee required of spending sel, with an output for a change that is not zero. */
    function RequiredWith(sel: seq<Coin>, change: nat): Option<nat> {
      Required(sel, |outs| + if change == 0 then 0 else 1)
    }
  }

  function Total(outs: seq<nat>): nat {
    if outs == [] then 0 else Total(outs[..|outs| - 1]) + outs[|outs| - 1]
  }

  function InputsSize(coins: seq<Coin>): nat {
    if coins == [] then 0
    else var c := coins[|coins| - 1];
         InputsSize(coins[..|coins| - 1]) + c.scriptLen + 73 * c.nRequired + 8 + 32 + 4
  }

  /** An upper bound on the size when signed; nothing is counted once a script is not a multi-signature. */
  function SignedSize(coins: seq<Coin>, outs: nat): nat {
    if exists i :: 0 <= i < |coins| && !coins[i].multisig then 0 else InputsSize(coins) + 63 * outs + 12
  }

  /** The size of a signed transaction: an input holds what it spends, its sequence, the redeem script and its
      signatures, an output its value and its script, and eight bytes of lock time and four of version follow. */
  ghost function SizeOf(coins: seq<Coin>, sigs: seq<seq<nat>>, scripts: seq<nat>): nat
    requires |sigs| == |coins|
  {
    Total(seq(|coins|, i requires 0 <= i < |coins| => 32 + 4 + 8 + coins[i].scriptLen + Total(sigs[i]))) +
    Total(seq(|scripts|, i requires 0 <= i < |scripts| => 8 + scripts[i])) + 8 + 4
  }

  ghost predicate Within(s: seq<nat>, bound: nat) { forall i | 0 <= i < |s| :: s[i] <= bound }

  ghost predicate Full(s: seq<nat>, size: nat) { forall i | 0 <= i < |s| :: s[i] == size }

  lemma {:induction false} TotalBound(s: seq<nat>, bound: nat)
    requires forall i | 0 <= i < |s| :: s[i] <= bound
    ensures Total(s) <= bound * |s|
    ensures (forall i | 0 <= i < |s| :: s[i] == bound) ==> Total(s) == bound * |s|
  {
    if s != [] {
      TotalBound(s[..|s| - 1], bound);
      assert bound * |s| == bound * (|s| - 1) + bound;
    }
  }

  lemma {:induction false} InputsBound(coins: seq<Coin>, sigs: seq<seq<nat>>, sizes: seq<nat>)
    requires |sigs| == |coins| == |sizes|
    requires forall i | 0 <= i < |coins| :: |sigs[i]| == coins[i].nRequired && Within(sigs[i], 73)
    requires forall i | 0 <= i < |coins| :: sizes[i] == 32 + 4 + 8 + coins[i].scriptLen + Total(sigs[i])
    ensures Total(sizes) <= InputsSize(coins)
    ensures (forall i | 0 <= i < |sigs| :: Full(sigs[i], 73)) ==> Total(sizes) == InputsSize(coins)
  {
    if coins != [] {
      var m := |coins| - 1;
      InputsBound(coins[..m], sigs[..m], sizes[..m]);
      TotalBound(sigs[m], 73);
    }
  }

  /** The estimate is the largest size the signed transaction can have: a signature takes 73 bytes at most and the
      script of an output 55, and with signatures and scripts that large the estimate is the size. */
  lemma EstimateIsLeastBound(coins: seq<Coin>, sigs: seq<seq<nat>>, scripts: seq<nat>)
    requires |sigs| == |coins| && forall c <- coins :: c.multisig
    requires forall i | 0 <= i < |coins| :: |sigs[i]| == coins[i].nRequired && Within(sigs[i], 73)
    requires Within(scripts, 55)
    ensures SizeOf(coins, sigs, scripts) <= SignedSize(coins, |scripts|)
    ensures (forall i | 0 <= i < |sigs| :: Full(sigs[i], 73)) && Full(scripts, 55) ==>
      SizeOf(coins, sigs, scripts) == SignedSize(coins, |scripts|)
  {
    InputsBound(coins, sigs,
                seq(|coins|, i requires 0 <= i < |coins| => 32 + 4 + 8 + coins[i].scriptLen + Total(sigs[i])));
    var outs := seq(|scripts|, i requires 0 <= i < |scripts| => 8 + scripts[i]);
    assert forall i | 0 <= i < |outs| :: outs[i] == 8 + scripts[i];
    TotalBound(outs, 63);
  }

  datatype Outcome = Failed | Insufficient | Overfull | Built(inputs: seq<Coin>, change: nat, fee: nat)

  /** sel covers an amount with no coin to spare. */
  ghost predicate Selects(q: Request, sel: seq<Coin>, amount: nat) {
    multiset(sel) <= multiset(q.coins) && (q.k >= 1 ==> |sel| <= q.k) && Sum(sel) >= amount && Minimal(sel, amount)
  }

  /** Room above the wanted amount: asked for when a selection without it leaves a change that is dust. */
  ghost predicate Room(q: Request, target: nat, adj: nat) {
    adj == 0 ||
    (adj == q.minRelay &&
     exists sel :: Selects(q, sel, q.Paid() + target) && 0 < Sum(sel) - q.Paid() - target < q.minRelay)
  }

  /** Coins and change for a target fee. */
  ghost predicate Gathered(q: Request, target: nat, sel: seq<Coin>, change: nat) {
    Sum(sel) == q.Paid() + target + change && (change == 0 || change >= q.minRelay) &&
    exists adj :: Room(q, target, adj) && Selects(q, sel, q.Paid() + target + adj)
  }

  /** The target after it was raised n times: the fee asked for at first, and then each time the fee that the coins
      gathered for the last target require, because it is larger. */
  ghost predicate Raised(q: Request, n: nat, fee: nat) {
    if n == 0 then fee == q.BaseFee()
    else exists target: nat, sel, change: nat ::
      Raised(q, n - 1, target) && Gathered(q, target, sel, change) &&
      q.RequiredWith(sel, change) == Some(fee) && target < fee
  }

  ghost predicate Justified(q: Request, fee: nat) {
    exists n: nat :: Raised(q, n, fee)
  }

  lemma {:induction false} RaisedIsMore(q: Request, n: nat, fee: nat)
    requires Raised(q, n, fee)
    ensures q.BaseFee() + n <= fee
  {
    hide Gathered;
    if n > 0 {
      var target: nat, sel, change: nat :| Raised(q, n - 1, target) && Gathered(q, target, sel, change) &&
        q.RequiredWith(sel, change) == Some(fee) && target < fee;
      RaisedIsMore(q, n - 1, target);
    }
  }

  /** A raised fee is the first one, or coins gathered for the first one require more. */
  lemma {:induction false} FirstRaise(q: Request, n: nat, fee: nat)
    requires Raised(q, n, fee)
    ensures fee == q.BaseFee() || Exceeded(q, q.BaseFee())
  {
    hide Gathered;
    if n > 0 {
      var target: nat, sel, change: nat :| Raised(q, n - 1, target) && Gathered(q, target, sel, change) &&
        q.RequiredWith(sel, change) == Some(fee) && target < fee;
      FirstRaise(q, n - 1, target);
    }
  }

  /** Coins that cover a fee require more than it. */
  ghost predicate Exceeded(q: Request, fee: nat) {
    exists sel, change: nat ::
      Gathered(q, fee, sel, change) &&
      var required := q.relayFee(SignedSize(sel, |q.outs| + if change == 0 then 0 else 1) + q.payload);
      required.Some? && required.value > fee
  }

  /** No transaction the wallet could build for this request requires more than this fee, and all such fees are
      defined. */
  ghost predicate Caps(q: Request, cap: nat) {
    q.userFee <= cap && (q.userFee == 0 ==> q.minRelay <= cap) &&
    forall sel, n: nat | multiset(sel) <= multiset(q.coins) && (q.k >= 1 ==> |sel| <= q.k) && n <= |q.outs| + 1 ::
      var required := q.relayFee(SignedSize(sel, n) + q.payload); required.Some? && required.value <= cap
  }

  /** At most k coins cover the amounts, such a fee, and a change that is not dust. */
  ghost predicate Affordable(q: Request) {
    Sum(q.coins) <= q.maxAmount && Total(q.outs) + q.userFee + q.minRelay > 0 &&
    exists cap: nat, s: multiset<Coin> ::
      Caps(q, cap) && s <= multiset(q.coins) && |s| <= q.k && Value(s) >= Total(q.outs) + cap + q.minRelay
  }

  lemma {:induction false} RaisedIsCapped(q: Request, n: nat, fee: nat, cap: nat)
    requires Raised(q, n, fee) && Caps(q, cap)
    ensures fee <= cap
  {
    hide Gathered, SignedSize;
    if n > 0 {
      var target: nat, sel, change: nat :| Raised(q, n - 1, target) && Gathered(q, target, sel, change) &&
        q.RequiredWith(sel, change) == Some(fee) && target < fee;
      GatheredIsSelected(q, target, sel, change);
    }
  }

  /** No justified fee exceeds the cap. */
  ghost predicate Capped(q: Request, cap: nat) { forall fee: nat | Justified(q, fee) :: fee <= cap }

  lemma CapsHold(q: Request, cap: nat)
    requires Caps(q, cap)
    ensures Capped(q, cap)
  {
    hide Caps, Raised;
    forall fee: nat | Justified(q, fee) ensures fee <= cap {
      var n: nat :| Raised(q, n, fee);
      RaisedIsCapped(q, n, fee, cap);
    }
  }

  lemma WithinReach(q: Request, cap: nat, s: multiset<Coin>)
    requires Capped(q, cap) && s <= multiset(q.coins) && |s| <= q.k && Value(s) >= q.Paid() + cap + q.minRelay
    ensures !OutOfReach(q) && !TooPoor(q)
    ensures forall fee: nat, adj | Justified(q, fee) && Room(q, fee, adj) :: q.Paid() + fee + adj <= Sum(q.coins)
  {
    hide Justified, Value, Sum, Selects, Total;
    ValueSub(s, multiset(q.coins));
    SumIsValue(q.coins);
    forall fee: nat, adj | Justified(q, fee) && Room(q, fee, adj)
      ensures q.Paid() + fee + adj <= Value(s) && !Uncovered(q, q.Paid() + fee + adj) { }
  }

  lemma FeesDefined(q: Request, cap: nat)
    requires Caps(q, cap)
    ensures forall target: nat, sel, change: nat | Gathered(q, target, sel, change) ::
      q.RequiredWith(sel, change).Some?
  {
    hide Gathered, SignedSize;
    forall target: nat, sel, change: nat | Gathered(q, target, sel, change) ensures q.RequiredWith(sel, change).Some? {
      GatheredIsSelected(q, target, sel, change);
    }
  }

  /** An affordable request is none of the three ways to fail. */
  lemma AffordableIsBuilt(q: Request)
    requires Affordable(q)
    ensures !OutOfReach(q) && !TooPoor(q) && !Failing(q)
  {
    hide Gathered, Justified, Caps, Capped, Room, OutOfReach, TooPoor, SignedSize, Value, Sum, Total;
    var cap: nat, s :| Caps(q, cap) && s <= multiset(q.coins) && |s| <= q.k &&
      Value(s) >= Total(q.outs) + cap + q.minRelay;
    CapsHold(q, cap);
    WithinReach(q, cap, s);
    FeesDefined(q, cap);
  }

  lemma GatheredIsSelected(q: Request, target: nat, sel: seq<Coin>, change: nat)
    requires Gathered(q, target, sel, change)
    ensures multiset(sel) <= multiset(q.coins) && (q.k >= 1 ==> |sel| <= q.k)
    ensures Sum(sel) == Total(q.outs) + change + target && (change == 0 || change >= q.minRelay)
  {
  }

  /** No choice of at most k coins covers the paid amount with some justified fee and room. */
  ghost predicate OutOfReach(q: Request) {
    exists fee, adj :: Justified(q, fee) && Room(q, fee, adj) && Uncovered(q, q.Paid() + fee + adj)
  }

  ghost predicate Uncovered(q: Request, amount: nat) {
    forall s: multiset<Coin> | s <= multiset(q.coins) && |s| <= q.k :: Value(s) < amount
  }

  /** All coins together do not cover the paid amount with some justified fee and room. */
  ghost predicate TooPoor(q: Request) {
    exists fee, adj :: Justified(q, fee) && Room(q, fee, adj) && Sum(q.coins) < q.Paid() + fee + adj
  }

  /** The amounts, or the coins, leave the range of an amount, the amount to find is zero, or no relay fee is
      defined for a transaction the wallet could build. */
  ghost predicate Failing(q: Request) {
    Sum(q.coins) > q.maxAmount || q.Paid() + q.BaseFee() == 0 ||
    (exists fee, adj :: Justified(q, fee) && Room(q, fee, adj) && q.Paid() + fee + adj > q.maxAmount) ||
    exists target: nat, sel, change: nat ::
      Justified(q, target) && Gathered(q, target, sel, change) && q.RequiredWith(sel, change) == None
  }

  lemma {:induction false} TotalPrefix(outs: seq<nat>, i: nat)
    requires i <= |outs|
    ensures Total(outs[..i]) <= Total(outs)
    decreases |outs|
  {
    if i < |outs| {
      TotalPrefix(outs[..|outs| - 1], i);
      assert outs[..|outs| - 1][..i] == outs[..i];
    } else {
      assert outs[..i] == outs;
    }
  }

  method SumOuts(outs: seq<nat>, maxAmount: nat) returns (r: Option<nat>)
    ensures r == if Total(outs) <= maxAmount then Some(Total(outs)) else None
  {
    var sum := 0;
    for i := 0 to |outs|
      invariant sum == Total(outs[..i]) <= maxAmount
    {
      assert outs[..i + 1][..i] == outs[..i];
      sum := sum + outs[i];
      if sum > maxAmount {
        TotalPrefix(outs, i + 1);
        return None;
      }
    }
    assert outs[..|outs|] == outs;
    return Some(sum);
  }

  method EstimateSignedSize(coins: seq<Coin>, outs: nat) returns (size: nat)
    ensures size == SignedSize(coins, outs)
  {
    size := 0;
    for i := 0 to |coins|
      invariant size == InputsSize(coins[..i]) && forall j :: 0 <= j < i ==> coins[j].multisig
    {
      if !coins[i].multisig {
        return 0;
      }
      assert coins[..i + 1][..i] == coins[..i];
      size := size + coins[i].scriptLen + 73 * coins[i].nRequired + 8 + 32 + 4;
    }
    assert coins[..|coins|] == coins;
    size := size + 63 * outs + 12;
  }

  lemma Short(q: Request, target: nat, adj: nat, r: Eligible)
    requires Justified(q, target) && Room(q, target, adj)
    requires Search(r, multiset(q.coins), q.Paid() + target + adj, q.k, q.maxAmount)
    requires r.Eligible? && r.found < q.Paid() + target + adj
    ensures r.overfull ==> OutOfReach(q) && |q.coins| >= q.k
    ensures !r.overfull ==> TooPoor(q) && |q.coins| < q.k
  {
    var amount := q.Paid() + target + adj;
    if r.overfull {
      forall s: multiset<Coin> | s <= multiset(q.coins) && |s| <= q.k ensures Value(s) < amount {
      }
      assert Uncovered(q, amount);
    } else {
      SumIsValue(r.selections);
      SumIsValue(q.coins);
    }
  }

  lemma Enough(q: Request, target: nat, adj: nat, r: Eligible, change: nat)
    requires Room(q, target, adj) && Search(r, multiset(q.coins), q.Paid() + target + adj, q.k, q.maxAmount)
    requires r.Eligible? && r.found >= q.Paid() + target + adj
    requires r.found == q.Paid() + target + change && (change == 0 || change >= q.minRelay)
    ensures Gathered(q, target, r.selections, change)
  {
  }

  lemma NoRoom(q: Request, target: nat)
    ensures Room(q, target, 0)
  {
  }

  lemma Dusty(q: Request, target: nat, adj: nat, r: Eligible)
    requires Search(r, multiset(q.coins), q.Paid() + target + adj, q.k, q.maxAmount) && Room(q, target, adj)
    requires r.Eligible? && r.found >= q.Paid() + target + adj && 0 < r.found - q.Paid() - target < q.minRelay
    ensures adj == 0 && Room(q, target, q.minRelay)
  {
    assert Selects(q, r.selections, q.Paid() + target);
  }

  lemma TooLarge(q: Request, target: nat, adj: nat)
    requires Justified(q, target) && Room(q, target, adj) && q.Paid() + target + adj > q.maxAmount
    ensures Failing(q)
  {
  }

  lemma Unfound(q: Request, target: nat, adj: nat, r: Eligible)
    requires Search(r, multiset(q.coins), q.Paid() + target + adj, q.k, q.maxAmount) && !r.Eligible?
    requires q.BaseFee() <= target
    ensures Failing(q)
  {
    SumIsValue(q.coins);
  }

  /** Find coins for the paid amount and the target fee, asking once more with room for a change that is not
      dust. */
  method Gather(q: Request, outAmounts: nat, target: nat) returns (r: Outcome)
    requires outAmounts == q.Paid() && Justified(q, target) && q.BaseFee() <= target
    ensures r.Built? ==> r.fee == target && Gathered(q, target, r.inputs, r.change)
    ensures r.Overfull? ==> OutOfReach(q) && |q.coins| >= q.k
    ensures r.Insufficient? ==> TooPoor(q) && |q.coins| < q.k
    ensures r.Failed? ==> Failing(q)
  {
    hide OutOfReach, TooPoor, Gathered, Failing, Justified, Room;
    NoRoom(q, target);
    var adj: nat := 0;
    while true
      invariant Room(q, target, adj)
      decreases if adj == 0 then 1 else 0
    {
      var want := target + outAmounts;
      var wantAdj := want + adj;
      if want > q.maxAmount || wantAdj > q.maxAmount {
        TooLarge(q, target, adj);
        return Failed;
      }
      var e := FindEligibleUtxos(wantAdj, q.coins, q.k, q.maxAmount);
      if !e.Eligible? {
        Unfound(q, target, adj, e);
        return Failed;
      }
      if e.found < wantAdj {
        Short(q, target, adj, e);
        return if e.overfull then Overfull else Insufficient;
      }
      var change := e.found - want;
      if change != 0 && change < q.minRelay {
        Dusty(q, target, adj, e);
        adj := q.minRelay;
        continue;
      }
      Enough(q, target, adj, e, change);
      return Built(e.selections, change, target);
    }
  }

  /** The fee pays for the size, the amounts balance, and the change is not dust. */
  ghost predicate Balanced(q: Request, inputs: seq<Coin>, change: nat, fee: nat) {
    Gathered(q, fee, inputs, change) && fee >= q.BaseFee() && Justified(q, fee) &&
    var required := q.RequiredWith(inputs, change);
    required.Some? && required.value <= fee
  }

  function Left(total: nat, target: nat): nat { if target <= total then total - target + 1 else 0 }

  lemma GatheredIsAfforded(q: Request, target: nat, sel: seq<Coin>, change: nat)
    requires Gathered(q, target, sel, change)
    ensures target <= Sum(q.coins)
  {
    SumIsValue(sel);
    SumIsValue(q.coins);
    ValueSub(multiset(sel), multiset(q.coins));
  }

  method AutoConstruct(q: Request) returns (r: Outcome)
    ensures r.Built? ==> Balanced(q, r.inputs, r.change, r.fee)
    ensures r.Built? ==> multiset(r.inputs) <= multiset(q.coins) && (q.k >= 1 ==> |r.inputs| <= q.k)
    ensures r.Built? ==>
      Sum(r.inputs) == Total(q.outs) + r.change + r.fee && (r.change == 0 || r.change >= q.minRelay)
    ensures r.Built? ==>
      var first := if q.userFee > 0 then q.userFee else q.minRelay;
      r.fee == first || (r.fee > first && Exceeded(q, first))
    ensures r.Built? ==>
      var required := q.relayFee(SignedSize(r.inputs, |q.outs| + if r.change == 0 then 0 else 1) + q.payload);
      required.Some? && required.value <= r.fee
    ensures Affordable(q) ==> r.Built?
    ensures r.Overfull? ==> OutOfReach(q) && |q.coins| >= q.k
    ensures r.Insufficient? ==> TooPoor(q) && |q.coins| < q.k
    ensures r.Failed? ==> Failing(q)
  {
    hide Gathered, OutOfReach, TooPoor, Failing, Justified, Affordable, Exceeded;
    if Affordable(q) {
      AffordableIsBuilt(q);
    }
    BaseIsJustified(q);
    var outAmounts := SumOuts(q.outs, q.maxAmount);
    if outAmounts.None? {
      TooLarge(q, q.BaseFee(), 0);
      return Failed;
    }
    var targetTxFee: nat := q.BaseFee();
    ghost var total := Sum(q.coins);
    while true
      invariant Justified(q, targetTxFee) && targetTxFee >= q.BaseFee()
      decreases Left(total, targetTxFee)
    {
      r := Gather(q, outAmounts.value, targetTxFee);
      if !r.Built? {
        return;
      }
      GatheredIsAfforded(q, targetTxFee, r.inputs, r.change);
      GatheredIsSelected(q, targetTxFee, r.inputs, r.change);
      var txOutLen: nat := |q.outs| + if r.change == 0 then 0 else 1;
      var size := EstimateSignedSize(r.inputs, txOutLen);
      var requiredFee := q.relayFee(size + q.payload);
      if requiredFee.None? {
        NoFee(q, targetTxFee, r.inputs, r.change);
        return Failed;
      }
      if targetTxFee >= requiredFee.value {
        JustifiedIsExceeded(q, targetTxFee);
        return;
      }
      RaisedOnce(q, targetTxFee, r.inputs, r.change, requiredFee.value);
      targetTxFee := requiredFee.value;
    }
  }

  lemma JustifiedIsExceeded(q: Request, fee: nat)
    requires Justified(q, fee)
    ensures fee == q.BaseFee() || Exceeded(q, q.BaseFee())
  {
    var n: nat :| Raised(q, n, fee);
    FirstRaise(q, n, fee);
  }

  lemma RaisedOnce(q: Request, target: nat, sel: seq<Coin>, change: nat, fee: nat)
    requires Justified(q, target) && Gathered(q, target, sel, change)
    requires q.RequiredWith(sel, change) == Some(fee) && target < fee
    ensures Justified(q, fee)
  {
    hide Gathered;
    var n: nat :| Raised(q, n, target);
    assert Raised(q, n + 1, fee);
  }

  lemma BaseIsJustified(q: Request)
    ensures Justified(q, q.BaseFee())
  {
    assert Raised(q, 0, q.BaseFee());
  }

  lemma NoFee(q: Request, target: nat, sel: seq<Coin>, change: nat)
    requires Justified(q, target) && Gathered(q, target, sel, change) && q.RequiredWith(sel, change) == None
    ensures Failing(q)
  {
  }
}
