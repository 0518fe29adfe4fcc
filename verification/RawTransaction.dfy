/** A transaction from chosen inputs: the fee is charged to the sender or split among recipients, and change is
    computed in two passes, since the change output itself costs a fee. */
module RawTransaction {
  import opened Wrappers
  import opened Coins
  import opened Ledger
  import FeeFixpoint

  type Address = nat

  ghost function MapTotal(m: map<Address, nat>): nat {
    if m == map[] then 0 else var a :| a in m; m[a] + MapTotal(m - {a})
  }

  lemma {:induction false} MapTotalRemove(m: map<Address, nat>, a: Address)
    requires a in m
    ensures MapTotal(m) == m[a] + MapTotal(m - {a})
    decreases |m|
  {
    var b :| b in m && MapTotal(m) == m[b] + MapTotal(m - {b});
    if a != b {
      MapTotalRemove(m - {b}, a);
      MapTotalRemove(m - {a}, b);
      assert m - {a} - {b} == m - {b} - {a};
    }
  }

  lemma MapTotalInsert(m: map<Address, nat>, a: Address, v: nat)
    requires a !in m
    ensures MapTotal(m[a := v]) == MapTotal(m) + v
  {
    MapTotalRemove(m[a := v], a);
    assert m[a := v] - {a} == m;
  }

  /** What each of n payers owes: the fee divided by n, rounded up. */
  function Share(fee: nat, n: nat): nat { if n == 0 then 0 else (fee + n - 1) / n }

  /** What is charged in all: the fee, or n shares of it. */
  function Charged(fee: nat, n: nat): nat { if n == 0 then fee else n * Share(fee, n) }

  /** The shares cover the fee, and charge less than one unit per payer too much. */
  lemma ShareIsFair(fee: nat, n: nat)
    ensures fee <= Charged(fee, n) < fee + (if n == 0 then 1 else n)
  {
    if n > 0 {
      var q, r := (fee + n - 1) / n, (fee + n - 1) % n;
      assert fee + n - 1 == n * q + r;
    }
  }

  /** The amounts after each payer's share is taken off. */
  ghost predicate Reduced(amounts: map<Address, nat>, payers: set<Address>, each: nat, reduced: map<Address, nat>) {
    reduced.Keys == amounts.Keys &&
    forall a <- amounts :: amounts[a] == reduced[a] + if a in payers then each else 0
  }

  lemma MapTotalEmpty()
    ensures MapTotal(map[]) == 0
  {
  }

  lemma ReducedWithout(amounts: map<Address, nat>, payers: set<Address>, each: nat, reduced: map<Address, nat>,
                       a: Address)
    requires Reduced(amounts, payers, each, reduced)
    ensures Reduced(amounts - {a}, payers - {a}, each, reduced - {a})
  {
    assert forall b <- amounts - {a} :: b in payers - {a} <==> b in payers;
  }

  lemma {:induction false} ReducedTotal(amounts: map<Address, nat>, payers: set<Address>, each: nat,
                                        reduced: map<Address, nat>)
    requires Reduced(amounts, payers, each, reduced) && payers <= amounts.Keys
    ensures MapTotal(amounts) == MapTotal(reduced) + |payers| * each
    decreases |amounts|
  {
    hide MapTotal;
    MapTotalEmpty();
    if amounts == map[] {
      assert reduced == map[];
      assert payers == {};
    } else {
      var a :| a in amounts;
      MapTotalRemove(amounts, a);
      MapTotalRemove(reduced, a);
      ReducedWithout(amounts, payers, each, reduced, a);
      ReducedTotal(amounts - {a}, payers - {a}, each, reduced - {a});
      OneMore(payers, a, each);
    }
  }

  lemma OneMore(payers: set<Address>, a: Address, each: nat)
    ensures |payers| * each == |payers - {a}| * each + if a in payers then each else 0
  {
    if a in payers {
      assert payers == payers - {a} + {a};
      assert |payers| == |payers - {a}| + 1;
    } else {
      assert payers - {a} == payers;
    }
  }

  /** Some of the entries of a map are worth no more than all of them. */
  lemma {:induction false} SomeTotal(part: map<Address, nat>, m: map<Address, nat>)
    requires part.Keys <= m.Keys && forall a <- part :: part[a] == m[a]
    ensures MapTotal(part) <= MapTotal(m)
    decreases |part|
  {
    hide MapTotal;
    MapTotalEmpty();
    if part != map[] {
      var a :| a in part;
      MapTotalRemove(part, a);
      MapTotalRemove(m, a);
      SomeTotal(part - {a}, m - {a});
    }
  }

  datatype Split = Stranger | OutOfRange | Split(amounts: map<Address, nat>, total: nat)

  /** The fee is paid by the sender if there are no payers, and taken off the payers' amounts otherwise. */
  ghost predicate Divided(amounts: map<Address, nat>, payers: set<Address>, fee: nat, r: Split) {
    r.Split? && Reduced(amounts, payers, Share(fee, |payers|), r.amounts) &&
    r.total == MapTotal(r.amounts) + Charged(fee, |payers|)
  }

  /** With payers, the outputs and the fee together are the amounts asked for. */
  lemma DividedTotal(amounts: map<Address, nat>, payers: set<Address>, fee: nat, r: Split)
    requires Divided(amounts, payers, fee, r) && payers <= amounts.Keys
    ensures r.total == MapTotal(amounts) + if payers == {} then fee else 0
  {
    ReducedTotal(amounts, payers, Share(fee, |payers|), r.amounts);
  }

  /** A payer's amount is less than its share, or the charge or the total leaves the range of an amount. */
  ghost predicate Undividable(amounts: map<Address, nat>, payers: set<Address>, fee: nat, maxAmount: nat) {
    (exists a <- payers :: a in amounts && amounts[a] < Share(fee, |payers|)) ||
    Charged(fee, |payers|) > maxAmount ||
    MapTotal(amounts) + (if payers == {} then fee else 0) > maxAmount
  }

  lemma PartTooLarge(amounts: map<Address, nat>, payers: set<Address>, fee: nat, part: map<Address, nat>,
                     maxAmount: nat)
    requires payers <= amounts.Keys && part.Keys <= amounts.Keys
    requires forall a <- part :: amounts[a] == part[a] + if a in payers then Share(fee, |payers|) else 0
    requires MapTotal(part) + Charged(fee, |payers|) > maxAmount
    ensures Undividable(amounts, payers, fee, maxAmount)
  {
    hide MapTotal, Share, Charged;
    if forall a <- payers :: amounts[a] >= Share(fee, |payers|) {
      var reduced := map a | a in amounts :: if a in payers then amounts[a] - Share(fee, |payers|) else amounts[a];
      SomeTotal(part, reduced);
      DividedTotal(amounts, payers, fee, Split(reduced, MapTotal(reduced) + Charged(fee, |payers|)));
    }
  }

  method SubtractFee(amounts: map<Address, nat>, payers: set<Address>, requiredFee: nat,
                     maxAmount: nat) returns (r: Split)
    ensures r.Stranger? <==> !(payers <= amounts.Keys)
    ensures r.Split? ==> Divided(amounts, payers, requiredFee, r)
    ensures r.OutOfRange? <==> payers <= amounts.Keys && Undividable(amounts, payers, requiredFee, maxAmount)
  {
    hide MapTotal, Share, Charged;
    if !(payers <= amounts.Keys) {
      return Stranger;
    }
    MapTotalEmpty();
    var each, total := Share(requiredFee, |payers|), Charged(requiredFee, |payers|);
    if each > maxAmount || total > maxAmount {
      ShareIsCharged(requiredFee, |payers|);
      return OutOfRange;
    }
    var newAmounts: map<Address, nat> := map[];
    var rest := amounts.Keys;
    while rest != {}
      invariant rest <= amounts.Keys && newAmounts.Keys == amounts.Keys - rest
      invariant forall a <- newAmounts :: amounts[a] == newAmounts[a] + if a in payers then each else 0
      invariant total == MapTotal(newAmounts) + Charged(requiredFee, |payers|) <= maxAmount
    {
      var a :| a in rest;
      rest := rest - {a};
      var newAmount := amounts[a];
      if a in payers {
        if newAmount < each {
          return OutOfRange;
        }
        newAmount := newAmount - each;
      }
      MapTotalInsert(newAmounts, a, newAmount);
      newAmounts := newAmounts[a := newAmount];
      total := total + newAmount;
      if total > maxAmount {
        PartTooLarge(amounts, payers, requiredFee, newAmounts, maxAmount);
        return OutOfRange;
      }
    }
    r := Split(newAmounts, total);
    DividedInBounds(amounts, payers, requiredFee, r, maxAmount);
  }

  lemma DividedInBounds(amounts: map<Address, nat>, payers: set<Address>, fee: nat, r: Split, maxAmount: nat)
    requires Divided(amounts, payers, fee, r) && payers <= amounts.Keys && r.total <= maxAmount
    ensures !Undividable(amounts, payers, fee, maxAmount)
  {
    hide MapTotal, Share, Charged;
    DividedTotal(amounts, payers, fee, r);
  }

  lemma ShareIsCharged(fee: nat, n: nat)
    ensures Share(fee, n) <= Charged(fee, n)
  {
    if n > 0 {
      hide Share;
      TimesAtLeastOnce(n, Share(fee, n));
    }
  }

  lemma TimesAtLeastOnce(n: nat, x: nat)
    requires n > 0
    ensures x <= n * x
  {
    assert n * x == (n - 1) * x + x;
  }

  /** The inputs chosen, the amount for each recipient, and the recipients the fee is taken off. The relay fee
      and the dust test are the network's. */
  datatype Order = Order(inputs: seq<Coin>, amounts: map<Address, nat>, payers: set<Address>,
                             maxAmount: nat, relayFee: nat -> Option<nat>, isDust: nat -> Option<bool>) {
    function Required(outs: nat): Option<nat> { relayFee(FeeFixpoint.SignedSize(inputs, outs)) }

    /** The change after paying the amounts, with the fee given, or a negative number. */
    ghost function Over(fee: nat): int { Sum(inputs) - MapTotal(amounts) - if payers == {} then fee else 0 }
  }

  datatype Error = InvalidAmount | UnknownPayer | NotEnoughInputs | DustChange | DustAmount | NoRelayFee
  datatype Reply = Refused(error: Error) | Created(outs: map<Address, nat>, change: nat, fee: nat)

  /** The outputs and the change exhaust the inputs up to the fee, which covers what the final number of outputs
      requires and exceeds it by less than one unit for each recipient sharing it; recipients who share it
      leave the change at inputs less amounts. */
  ghost predicate Conserves(q: Order, outs: map<Address, nat>, change: nat, fee: nat) {
    Sum(q.inputs) == MapTotal(outs) + change + fee &&
    (q.payers != {} ==> Sum(q.inputs) == MapTotal(q.amounts) + change) &&
    var required := q.Required(|q.amounts| + if change == 0 then 0 else 1);
    required.Some? && required.value <= fee < required.value + (if q.payers == {} then 1 else |q.payers|) &&
    Reduced(q.amounts, q.payers, Share(required.value, |q.payers|), outs)
  }

  /** No output is dust. */
  ghost predicate Clean(q: Order, outs: map<Address, nat>, change: nat) {
    (forall a <- outs :: q.isDust(outs[a]) == Some(false)) && (change > 0 ==> q.isDust(change) == Some(false))
  }

  /** The fee can be divided among payers who are all recipients. */
  ghost predicate Splits(q: Order, fee: nat) {
    q.payers <= q.amounts.Keys && !Undividable(q.amounts, q.payers, fee, q.maxAmount)
  }

  /** The inputs are in range and the fee without a change output is defined. */
  ghost predicate Started(q: Order) { Sum(q.inputs) <= q.maxAmount && q.Required(|q.amounts|).Some? }

  /** The first pass divides the fee. */
  ghost predicate First(q: Order) { Started(q) && Splits(q, q.Required(|q.amounts|).value) }

  /** The first pass leaves something over, so there is a second one, for one more output. */
  ghost predicate Second(q: Order) { First(q) && q.Over(q.Required(|q.amounts|).value) > 0 }

  /** The second pass divides its fee. */
  ghost predicate SecondSplits(q: Order) {
    Second(q) && q.Required(|q.amounts| + 1).Some? && Splits(q, q.Required(|q.amounts| + 1).value)
  }

  /** The inputs do not pay for the amounts without change, or leave a change that cannot pay for itself. */
  ghost predicate TooFew(q: Order) {
    (First(q) && q.Over(q.Required(|q.amounts|).value) < 0) ||
    (SecondSplits(q) && q.Over(q.Required(|q.amounts| + 1).value) <= 0)
  }

  /** A relay fee is not defined. */
  ghost predicate NoFee(q: Order) {
    Sum(q.inputs) <= q.maxAmount &&
    (q.Required(|q.amounts|).None? || (Second(q) && q.Required(|q.amounts| + 1).None?))
  }

  /** A sum leaves the range, or a recipient cannot pay its share. */
  ghost predicate OutOfBounds(q: Order) {
    Sum(q.inputs) > q.maxAmount ||
    (Started(q) && q.payers <= q.amounts.Keys &&
     Undividable(q.amounts, q.payers, q.Required(|q.amounts|).value, q.maxAmount)) ||
    (Second(q) && q.Required(|q.amounts| + 1).Some? && !SecondSplits(q))
  }

  /** The order can be met with this required fee and change: without change if the inputs pay exactly, otherwise
      with a change output that pays for itself. */
  ghost predicate Settles(q: Order, fee: nat, change: nat) {
    if change == 0 then First(q) && q.Required(|q.amounts|) == Some(fee) && q.Over(fee) == 0
    else SecondSplits(q) && q.Required(|q.amounts| + 1) == Some(fee) && q.Over(fee) == change
  }

  lemma SettlesOnce(q: Order, fee: nat, change: nat, fee': nat, change': nat)
    requires Settles(q, fee, change) && Settles(q, fee', change')
    ensures fee == fee' && change == change'
  {
    hide FeeFixpoint.SignedSize, Undividable;
  }

  lemma SettlesExcludes(q: Order, fee: nat, change: nat)
    requires Settles(q, fee, change)
    ensures Started(q) && q.payers <= q.amounts.Keys && !TooFew(q) && !NoFee(q) && !OutOfBounds(q)
  {
    hide FeeFixpoint.SignedSize, Undividable;
  }

  lemma TooMuch(q: Order)
    requires Sum(q.inputs) > q.maxAmount
    ensures OutOfBounds(q) && !Started(q) && !TooFew(q) && !NoFee(q)
  {
  }

  /** What each recipient gets once the fee is divided. */
  ghost function Owed(q: Order, fee: nat): map<Address, nat> {
    map a | a in q.amounts ::
      var each := if a in q.payers then Share(fee, |q.payers|) else 0;
      if q.amounts[a] >= each then q.amounts[a] - each else 0
  }

  lemma OwedIsDivided(q: Order, fee: nat, r: Split)
    requires Divided(q.amounts, q.payers, fee, r)
    ensures r.amounts == Owed(q, fee)
  {
    hide Share, Charged, MapTotal;
  }

  /** The dust test is defined for every output. */
  ghost predicate Testable(q: Order, outs: map<Address, nat>) { forall a <- outs :: q.isDust(outs[a]).Some? }

  /** Some output is dust. */
  ghost predicate Dusty(q: Order, outs: map<Address, nat>) { exists a <- outs :: q.isDust(outs[a]) == Some(true) }

  method TotalIn(inputs: seq<Coin>, maxAmount: nat) returns (r: Option<nat>)
    ensures r == if Sum(inputs) <= maxAmount then Some(Sum(inputs)) else None
  {
    var total := 0;
    for i := 0 to |inputs|
      invariant total == Sum(inputs[..i]) <= maxAmount
    {
      assert inputs[..i + 1][..i] == inputs[..i];
      total := total + inputs[i].amount;
      if total > maxAmount {
        SumPrefix(inputs, i + 1);
        return None;
      }
    }
    assert inputs[..|inputs|] == inputs;
    return Some(total);
  }

  /** The outputs are checked in any order, the change last. */
  method CheckDust(q: Order, outs: map<Address, nat>, change: nat) returns (r: Option<Error>)
    ensures r.None? <==> Clean(q, outs, change)
    ensures r == Some(DustChange) <==> Clean(q, outs, 0) && change > 0 && q.isDust(change) == Some(true)
    ensures r == Some(DustAmount) ==> Dusty(q, outs)
    ensures Testable(q, outs) && Dusty(q, outs) ==> r == Some(DustAmount)
    ensures r == Some(InvalidAmount) ==> !Testable(q, outs) || (change > 0 && q.isDust(change).None?)
    ensures r.Some? ==> r.value in {InvalidAmount, DustChange, DustAmount}
  {
    var rest := outs.Keys;
    while rest != {}
      invariant rest <= outs.Keys && forall a <- outs.Keys - rest :: q.isDust(outs[a]) == Some(false)
    {
      var a :| a in rest;
      rest := rest - {a};
      var dust := q.isDust(outs[a]);
      if dust.None? {
        return Some(InvalidAmount);
      }
      if dust.value {
        return Some(DustAmount);
      }
    }
    if change > 0 {
      var dust := q.isDust(change);
      if dust.None? {
        return Some(InvalidAmount);
      }
      if dust.value {
        return Some(DustChange);
      }
    }
    return None;
  }

  lemma PassConserves(q: Order, outs: map<Address, nat>, total: nat, change: nat, required: nat)
    requires q.payers <= q.amounts.Keys && Divided(q.amounts, q.payers, required, Split(outs, total))
    requires q.Required(|q.amounts| + if change == 0 then 0 else 1) == Some(required)
    requires Sum(q.inputs) == total + change
    ensures Conserves(q, outs, change, Charged(required, |q.payers|))
    ensures Charged(required, |q.payers|) == Sum(q.inputs) - MapTotal(outs) - change
  {
    hide MapTotal, Sum, FeeFixpoint.SignedSize;
    DividedTotal(q.amounts, q.payers, required, Split(outs, total));
    ShareIsFair(required, |q.payers|);
  }

  datatype Settlement = Failed(error: Error) | Settled(amounts: map<Address, nat>, total: nat, change: nat)

  /** Fee and change in two passes: the second one is made if the first leaves a change. */
  method TwoPasses(q: Order, totalIn: nat) returns (r: Settlement, ghost required: nat)
    requires totalIn == Sum(q.inputs) <= q.maxAmount
    ensures r == Failed(UnknownPayer) <==> Started(q) && !(q.payers <= q.amounts.Keys)
    ensures r == Failed(NoRelayFee) <==> NoFee(q)
    ensures r == Failed(NotEnoughInputs) <==> TooFew(q)
    ensures r == Failed(InvalidAmount) <==> OutOfBounds(q)
    ensures r.Settled? ==> Settles(q, required, r.change) && r.amounts == Owed(q, required)
    ensures r.Settled? ==> totalIn >= MapTotal(r.amounts) + r.change &&
                           Conserves(q, r.amounts, r.change, totalIn - MapTotal(r.amounts) - r.change)
    ensures r.Failed? ==> r.error in {UnknownPayer, NoRelayFee, NotEnoughInputs, InvalidAmount}
  {
    hide Conserves, MapTotal, Sum, FeeFixpoint.SignedSize, Share, Charged, Undividable, Reduced, Divided, Owed;
    required := 0;
    var fee := q.Required(|q.amounts|);
    if fee.None? {
      return Failed(NoRelayFee), 0;
    }
    var split := SubtractFee(q.amounts, q.payers, fee.value, q.maxAmount);
    if !split.Split? {
      return Failed(if split.Stranger? then UnknownPayer else InvalidAmount), 0;
    }
    DividedTotal(q.amounts, q.payers, fee.value, split);
    if totalIn < split.total {
      return Failed(NotEnoughInputs), 0;
    }
    var change: nat := totalIn - split.total;
    if change != 0 {
      fee := q.Required(|q.amounts| + 1);
      if fee.None? {
        return Failed(NoRelayFee), 0;
      }
      split := SubtractFee(q.amounts, q.payers, fee.value, q.maxAmount);
      if !split.Split? {
        return Failed(if split.Stranger? then UnknownPayer else InvalidAmount), 0;
      }
      DividedTotal(q.amounts, q.payers, fee.value, split);
      if totalIn <= split.total {
        return Failed(NotEnoughInputs), 0;
      }
      change := totalIn - split.total;
    }
    required := fee.value;
    PassConserves(q, split.amounts, split.total, change, required);
    OwedIsDivided(q, required, split);
    r := Settled(split.amounts, split.total, change);
  }

  // ---------- what is created, in terms of the order alone ----------

  /** A fee is charged to the sender, or each of the payers owes the least amount that covers it together. */
  ghost predicate Owes(payers: set<Address>, fee: nat, each: nat, charged: nat) {
    if payers == {} then each == 0 && charged == fee
    else charged == |payers| * each && fee <= charged < fee + |payers|
  }

  /** Every payer is a recipient and can pay what it owes of the fee, and all sums are in range. */
  ghost predicate CanPay(q: Order, fee: nat) {
    exists each: nat, charged: nat ::
      Owes(q.payers, fee, each, charged) && charged <= q.maxAmount &&
      (forall a <- q.payers :: a in q.amounts && q.amounts[a] >= each) &&
      MapTotal(q.amounts) + (if q.payers == {} then fee else 0) <= q.maxAmount
  }

  /** A transaction that meets the order: inputs equal outputs, change and fee; the fee is what the relay fee for that
      many outputs makes the sender or the payers owe; recipients who do not pay get their amount, and the others all
      the same less. Change is left only if without it something would be left over. */
  ghost predicate Meets(q: Order, outs: map<Address, nat>, change: nat, fee: nat) {
    Sum(q.inputs) == MapTotal(outs) + change + fee <= q.maxAmount &&
    var bare := q.relayFee(FeeFixpoint.SignedSize(q.inputs, |q.amounts|));
    var full := q.relayFee(FeeFixpoint.SignedSize(q.inputs, |q.amounts| + 1));
    bare.Some? && CanPay(q, bare.value) &&
    (change > 0 ==>
       full.Some? && CanPay(q, full.value) &&
       Sum(q.inputs) > MapTotal(q.amounts) + if q.payers == {} then bare.value else 0) &&
    outs.Keys == q.amounts.Keys &&
    exists each: nat ::
      Owes(q.payers, if change == 0 then bare.value else full.value, each, fee) && LessBy(q, outs, each)
  }

  /** Recipients who pay get that much less, the others their amount. */
  ghost predicate LessBy(q: Order, outs: map<Address, nat>, each: nat) {
    forall a <- q.amounts :: a in outs && q.amounts[a] == outs[a] + if a in q.payers then each else 0
  }

  /** No output of it is dust, nor its change if it has any. */
  ghost predicate NoDust(q: Order, outs: map<Address, nat>, change: nat) {
    (forall a <- outs :: q.isDust(outs[a]) == Some(false)) && (change == 0 || q.isDust(change) == Some(false))
  }

  lemma NoDustIsClean(q: Order, outs: map<Address, nat>, change: nat)
    ensures NoDust(q, outs, change) <==> Clean(q, outs, change)
  {
  }

  /** What is owed is the share. */
  lemma OwesShare(payers: set<Address>, fee: nat, each: nat, charged: nat)
    ensures Owes(payers, fee, each, charged) <==> each == Share(fee, |payers|) && charged == Charged(fee, |payers|)
  {
    ShareIsFair(fee, |payers|);
    StepUp(|payers|, each, Share(fee, |payers|));
    StepUp(|payers|, Share(fee, |payers|), each);
  }

  lemma StepUp(n: nat, a: nat, b: nat)
    ensures a < b ==> n * a + n <= n * b
  {
    if a < b {
      assert n * b == n * a + n * (b - a);
      TimesAtLeastOnce(b - a, n);
      assert n * (b - a) == (b - a) * n;
    }
  }

  lemma CanPaySplits(q: Order, fee: nat)
    ensures CanPay(q, fee) <==> Splits(q, fee)
  {
    hide Share, Charged, MapTotal, Owes;
    var each, charged := Share(fee, |q.payers|), Charged(fee, |q.payers|);
    OwesShare(q.payers, fee, each, charged);
    forall e: nat, c: nat | Owes(q.payers, fee, e, c) ensures e == each && c == charged {
      OwesShare(q.payers, fee, e, c);
    }
  }

  lemma SettlesMeets(q: Order, required: nat, change: nat, outs: map<Address, nat>, fee: nat)
    requires Settles(q, required, change) && Conserves(q, outs, change, fee)
    ensures Meets(q, outs, change, fee)
  {
    hide Share, Charged, MapTotal, Owes, Undividable, Sum, FeeFixpoint.SignedSize, CanPay;
    CanPaySplits(q, q.Required(|q.amounts|).value);
    if change > 0 {
      CanPaySplits(q, required);
    }
    ReducedTotal(q.amounts, q.payers, Share(required, |q.payers|), outs);
    ShareIsFair(required, |q.payers|);
    ChargedIs(q.payers, required);
    OwesShare(q.payers, required, Share(required, |q.payers|), fee);
    assert LessBy(q, outs, Share(required, |q.payers|));
  }

  lemma MeetsSettles(q: Order, outs: map<Address, nat>, change: nat, fee: nat)
    requires Meets(q, outs, change, fee)
    ensures exists required :: Settles(q, required, change) && outs == Owed(q, required)
  {
    hide Share, Charged, MapTotal, Owes, Undividable, Sum, FeeFixpoint.SignedSize, CanPay, Splits, LessBy, Owed;
    var required := q.Required(|q.amounts| + if change == 0 then 0 else 1).value;
    CanPaySplits(q, q.Required(|q.amounts|).value);
    CanPaySplits(q, required);
    var each: nat :| Owes(q.payers, required, each, fee) && LessBy(q, outs, each);
    PayersKnown(q, required);
    LessIsOwed(q, outs, required, each, fee);
    assert Settles(q, required, change);
  }

  lemma PayersKnown(q: Order, fee: nat)
    requires Splits(q, fee)
    ensures q.payers <= q.amounts.Keys
  {
  }

  lemma LessIsOwed(q: Order, outs: map<Address, nat>, required: nat, each: nat, fee: nat)
    requires Owes(q.payers, required, each, fee) && LessBy(q, outs, each) && outs.Keys == q.amounts.Keys
    requires q.payers <= q.amounts.Keys
    ensures outs == Owed(q, required)
    ensures MapTotal(q.amounts) == MapTotal(outs) + (if q.payers == {} then 0 else fee)
    ensures q.payers == {} ==> fee == required
  {
    hide Share, Charged, MapTotal;
    OwesShare(q.payers, required, each, fee);
    ReducedTotal(q.amounts, q.payers, each, outs);
    ChargedIs(q.payers, required);
  }

  lemma ChargedIs(payers: set<Address>, fee: nat)
    ensures Charged(fee, |payers|) == if payers == {} then fee else |payers| * Share(fee, |payers|)
  {
  }

  /** The inputs do not pay for the amounts, even without change. */
  ghost predicate Short(q: Order) {
    var bare := q.relayFee(FeeFixpoint.SignedSize(q.inputs, |q.amounts|));
    bare.Some? && CanPay(q, bare.value) &&
    Sum(q.inputs) < MapTotal(q.amounts) + if q.payers == {} then bare.value else 0
  }

  lemma Refusals(q: Order)
    ensures Sum(q.inputs) > q.maxAmount ==> OutOfBounds(q)
    ensures var bare := q.relayFee(FeeFixpoint.SignedSize(q.inputs, |q.amounts|));
      Sum(q.inputs) <= q.maxAmount ==>
        (bare.None? ==> NoFee(q)) &&
        (bare.Some? && !(q.payers <= q.amounts.Keys) ==> Started(q) && !(q.payers <= q.amounts.Keys)) &&
        (Short(q) ==> TooFew(q))
  {
    hide Share, Charged, MapTotal, Owes, Undividable, Sum, FeeFixpoint.SignedSize, CanPay, Splits;
    var bare := q.Required(|q.amounts|);
    if bare.Some? {
      CanPaySplits(q, bare.value);
    }
  }

  /** Created exactly if the order settles and leaves no dust, and each refusal for its own reason. */
  method CreateRawTransaction(q: Order) returns (r: Reply)
    ensures r.Created? ==> Meets(q, r.outs, r.change, r.fee) && NoDust(q, r.outs, r.change)
    ensures (exists outs, change, fee :: Meets(q, outs, change, fee) && NoDust(q, outs, change)) ==> r.Created?
    ensures Sum(q.inputs) > q.maxAmount ==> r == Refused(InvalidAmount)
    ensures var bare := q.relayFee(FeeFixpoint.SignedSize(q.inputs, |q.amounts|));
      Sum(q.inputs) <= q.maxAmount ==>
        (bare.None? ==> r == Refused(NoRelayFee)) &&
        (bare.Some? && !(q.payers <= q.amounts.Keys) ==> r == Refused(UnknownPayer)) &&
        (Short(q) ==> r == Refused(NotEnoughInputs))
    ensures r.Created? ==> Conserves(q, r.outs, r.change, r.fee) && Clean(q, r.outs, r.change)
    ensures r.Created? <==>
      exists fee, change :: Settles(q, fee, change) && Clean(q, Owed(q, fee), change)
    ensures r == Refused(NotEnoughInputs) <==> TooFew(q)
    ensures r == Refused(UnknownPayer) <==> Started(q) && !(q.payers <= q.amounts.Keys)
    ensures r == Refused(NoRelayFee) <==> NoFee(q)
    ensures OutOfBounds(q) ==> r == Refused(InvalidAmount)
    ensures r == Refused(InvalidAmount) && !OutOfBounds(q) ==>
      exists fee, change :: Settles(q, fee, change) &&
        (!Testable(q, Owed(q, fee)) || (change > 0 && q.isDust(change).None?))
    ensures r == Refused(DustChange) <==>
      exists fee, change :: Settles(q, fee, change) &&
        Clean(q, Owed(q, fee), 0) && change > 0 && q.isDust(change) == Some(true)
    ensures r == Refused(DustAmount) ==> exists fee, change :: Settles(q, fee, change) && Dusty(q, Owed(q, fee))
    ensures (exists fee, change :: Settles(q, fee, change) && Testable(q, Owed(q, fee)) && Dusty(q, Owed(q, fee))) ==>
      r == Refused(DustAmount)
  {
    hide *;
    forall fee, change | Settles(q, fee, change)
      ensures Started(q) && q.payers <= q.amounts.Keys && !TooFew(q) && !NoFee(q) && !OutOfBounds(q)
    {
      SettlesExcludes(q, fee, change);
    }
    Refusals(q);
    forall outs, change, fee | Meets(q, outs, change, fee) && NoDust(q, outs, change)
      ensures exists required :: Settles(q, required, change) && Clean(q, Owed(q, required), change)
    {
      MeetsSettles(q, outs, change, fee);
      NoDustIsClean(q, outs, change);
    }
    var totalIn := TotalIn(q.inputs, q.maxAmount);
    if totalIn.None? {
      TooMuch(q);
      return Refused(InvalidAmount);
    }
    var settled, required := TwoPasses(q, totalIn.value);
    if settled.Failed? {
      return Refused(settled.error);
    }
    forall fee, change | Settles(q, fee, change) ensures fee == required && change == settled.change {
      SettlesOnce(q, fee, change, required, settled.change);
    }
    var dust := CheckDust(q, settled.amounts, settled.change);
    if dust.Some? {
      return Refused(dust.value);
    }
    var totalOut := SumOutputs(settled.amounts, settled.change);
    SettlesMeets(q, required, settled.change, settled.amounts, totalIn.value - totalOut);
    NoDustIsClean(q, settled.amounts, settled.change);
    return Created(settled.amounts, settled.change, totalIn.value - totalOut);
  }

  method SumOutputs(outs: map<Address, nat>, change: nat) returns (total: nat)
    ensures total == MapTotal(outs) + change
  {
    hide MapTotal;
    MapTotalEmpty();
    total := 0;
    var rest := outs.Keys;
    ghost var done: map<Address, nat> := map[];
    while rest != {}
      invariant rest <= outs.Keys && done.Keys == outs.Keys - rest && forall a <- done :: done[a] == outs[a]
      invariant total == MapTotal(done)
    {
      var a :| a in rest;
      MapTotalInsert(done, a, outs[a]);
      rest, done := rest - {a}, done[a := outs[a]];
      total := total + outs[a];
    }
    assert done == outs;
    total := total + change;
  }

  predicate Named(inputs: seq<Coin>, op: OutPoint) { exists c <- inputs :: c.op == op }

  /** The value really spent: inputs that name one outpoint spend one coin. */
  ghost function Spent(inputs: seq<Coin>): nat {
    if inputs == [] then 0
    else var n := |inputs| - 1;
         Spent(inputs[..n]) + if Named(inputs[..n], inputs[n].op) then 0 else inputs[n].amount
  }

  /** No outpoint with a value is named twice. */
  ghost predicate NoneTwice(inputs: seq<Coin>) {
    forall i, j :: 0 <= i < j < |inputs| && inputs[i].op == inputs[j].op ==> inputs[j].amount == 0
  }

  /** The inputs are added up without looking for an outpoint named twice, so the transaction really balances
      exactly if none with a value is. */
  lemma {:induction false} SpentIsSum(inputs: seq<Coin>)
    ensures Spent(inputs) <= Sum(inputs)
    ensures Spent(inputs) == Sum(inputs) <==> NoneTwice(inputs)
  {
    if inputs != [] {
      var n := |inputs| - 1;
      SpentIsSum(inputs[..n]);
      if Named(inputs[..n], inputs[n].op) {
        var i :| 0 <= i < n && inputs[..n][i].op == inputs[n].op;
        assert inputs[i].op == inputs[n].op;
      } else {
        assert forall i :: 0 <= i < n ==> inputs[i] in inputs[..n];
      }
      assert NoneTwice(inputs) ==> NoneTwice(inputs[..n]);
    }
  }

  lemma RealBalance(q: Order, outs: map<Address, nat>, change: nat, fee: nat)
    requires Conserves(q, outs, change, fee)
    ensures Spent(q.inputs) == MapTotal(outs) + change + fee <==> NoneTwice(q.inputs)
  {
    SpentIsSum(q.inputs);
  }

  // ---------- two orders ----------

  /** A coin whose script has no length and needs no signature, so that an input takes 44 bytes. */
  function PlainCoin(amount: nat): Coin { Coin(OutPoint(0, 0), amount, true, 0, 0) }

  /** Pay 1000, at a fee of one unit for each byte, with no limit on dust. */
  function PayThousand(inputs: seq<Coin>): Order {
    Order(inputs, map[1 := 1000], {}, 1_000_000, size => Some(size), value => Some(false))
  }

  lemma PlainSum(c: nat, n: nat)
    requires 1 <= n <= 2
    ensures var inputs := seq(n, i => PlainCoin(c)); Sum(inputs) == n * c && FeeFixpoint.InputsSize(inputs) == 44 * n
  {
    var one, inputs := [PlainCoin(c)], seq(n, i => PlainCoin(c));
    SumAppend([], PlainCoin(c));
    assert [] + one == one && one[..0] == [];
    assert FeeFixpoint.InputsSize([]) == 0;
    if n == 1 {
      assert inputs == one;
    } else {
      assert inputs == one + one && inputs[..1] == one;
      SumAppend(one, PlainCoin(c));
    }
  }

  lemma PlainOrder(c: nat, n: nat)
    requires c <= 10_000 && 1 <= n <= 2
    ensures var q := PayThousand(seq(n, i => PlainCoin(c)));
      Sum(q.inputs) == n * c && MapTotal(q.amounts) == 1000 &&
      q.Required(1) == Some(44 * n + 75) && q.Required(2) == Some(44 * n + 138) &&
      Splits(q, 44 * n + 75) && Splits(q, 44 * n + 138) && |q.amounts| == 1
  {
    PlainSum(c, n);
    MapTotalEmpty();
    MapTotalInsert(map[], 1, 1000);
    assert map[][1 := 1000] == map[1 := 1000];
    hide MapTotal, Sum, FeeFixpoint.InputsSize;
  }

  /** Inputs that pay for the amounts and the fee with 30 units to spare are refused, because a change output
      would cost 63 more. */
  method SpareIsRefused() returns (q: Order, r: Reply)
    ensures var fee := q.Required(|q.amounts|);
      fee.Some? && Sum(q.inputs) == MapTotal(q.amounts) + fee.value + 30
    ensures r == Refused(NotEnoughInputs)
  {
    hide Splits, Sum, MapTotal, FeeFixpoint.SignedSize;
    PlainOrder(1149, 1);
    q := PayThousand(seq(1, i => PlainCoin(1149)));
    assert TooFew(q);
    r := CreateRawTransaction(q);
  }

  /** A coin of 1000 named twice pays for 2000, and the transaction created does not balance. */
  method NamedTwice() returns (q: Order, r: Reply)
    ensures r.Created? && Spent(q.inputs) < MapTotal(r.outs) + r.change + r.fee
  {
    hide Splits, Sum, MapTotal, FeeFixpoint.SignedSize, Conserves;
    PlainOrder(1000, 2);
    q := PayThousand(seq(2, i => PlainCoin(1000)));
    assert Settles(q, 226, 774);
    assert Clean(q, Owed(q, 226), 774);
    r := CreateRawTransaction(q);
    SpentIsSum(q.inputs);
    assert q.inputs[0] == q.inputs[1] == PlainCoin(1000);
    assert !NoneTwice(q.inputs);
    Balances(q, r.outs, r.change, r.fee);
  }

  lemma Balances(q: Order, outs: map<Address, nat>, change: nat, fee: nat)
    requires Conserves(q, outs, change, fee)
    ensures Sum(q.inputs) == MapTotal(outs) + change + fee
  {
  }
}
