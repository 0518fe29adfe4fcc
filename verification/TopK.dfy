/** The bounded heap of the largest coins not above the required amount, with the smallest coin above it
    kept apart as a guard. */
module TopK {
  import opened Wrappers
  import opened Coins

  function Parent(c: nat): nat
    requires c > 0
  {
    (c - 1) / 2
  }

  /** The heap order holds below every node from i on. */
  ghost predicate HeapFrom(b: seq<Coin>, i: nat) {
    forall c: nat | 0 < c < |b| && Parent(c) >= i :: b[Parent(c)].amount <= b[c].amount
  }

  ghost predicate Heap(b: seq<Coin>) { HeapFrom(b, 0) }

  lemma {:induction false} RootIsLeast(b: seq<Coin>, c: nat)
    requires Heap(b) && c < |b|
    ensures b[0].amount <= b[c].amount
  {
    if c > 0 {
      RootIsLeast(b, Parent(c));
    }
  }

  lemma RootIsLeastOfAll(b: seq<Coin>)
    requires Heap(b) && b != []
    ensures forall c <- multiset(b) :: b[0].amount <= c.amount
  {
    forall c <- multiset(b) ensures b[0].amount <= c.amount {
      var j: nat :| j < |b| && b[j] == c;
      RootIsLeast(b, j);
    }
  }

  lemma BelowRoot(b: seq<Coin>, c: Coin)
    requires Heap(b) && b != []
    ensures HeapFrom(b[0 := c], 1)
  {
  }

  lemma LeavesInOrder(b: seq<Coin>)
    ensures HeapFrom(b, |b| / 2)
  {
  }

  /** b holds the k largest coins of low, or all of them if there are fewer. */
  ghost predicate Largest(b: multiset<Coin>, low: multiset<Coin>, k: nat) {
    b <= low && |b| == (if |low| < k then |low| else k) &&
    forall x <- b, y <- low - b :: x.amount >= y.amount
  }

  lemma Apart(s: multiset<Coin>, b: multiset<Coin>)
    ensures var c := s * b;
      s == c + (s - c) && b == c + (b - c) && |s| == |c| + |s - c| && |b| == |c| + |b - c|
  {
    var c := s * b;
    assert s == c + (s - c) && b == c + (b - c);
  }

  /** No k coins of low are worth more than the k largest. */
  lemma LargestIsBest(b: multiset<Coin>, low: multiset<Coin>, k: nat, s: multiset<Coin>)
    requires Largest(b, low, k) && s <= low && |s| <= k
    ensures Value(s) <= Value(b)
  {
    var c := s * b;
    Apart(s, b);
    ValueUnion(c, s - c);
    ValueUnion(c, b - c);
    hide Value;
    if |low| < k {
      assert |low - b| == 0;
      assert low == b;
      ValueSub(s, b);
    } else {
      assert forall x <- s - c :: x in low - b;
      ValuePairs(s - c, b - c);
    }
  }

  lemma SwapKeeps(s: seq<Coin>, i: nat, j: nat)
    requires i < |s| && j < |s|
    ensures multiset(s[i := s[j]][j := s[i]]) == multiset(s)
  {
  }

  lemma ParentOf(c: nat, p: nat)
    requires c > 0
    ensures Parent(c) == p <==> c == 2 * p + 1 || c == 2 * p + 2
  {
  }

  /** The order holds from node i on except between node cur and its children, whose order with the
      parent of cur holds. */
  ghost predicate Sifting(b: seq<Coin>, i: nat, cur: nat) {
    i <= cur &&
    (forall c: nat | 0 < c < |b| && Parent(c) >= i && Parent(c) != cur :: b[Parent(c)].amount <= b[c].amount) &&
    (forall c: nat | 0 < c < |b| && Parent(c) == cur && cur > 0 && Parent(cur) >= i ::
       b[Parent(cur)].amount <= b[c].amount)
  }

  /** x is no larger than the children of node cur. */
  ghost predicate OverChildren(b: seq<Coin>, cur: nat, x: nat) {
    (2 * cur + 1 < |b| ==> x <= b[2 * cur + 1].amount) && (2 * cur + 2 < |b| ==> x <= b[2 * cur + 2].amount)
  }

  lemma ChildrenOf(b: seq<Coin>, cur: nat, x: nat)
    ensures OverChildren(b, cur, x) <==> forall c: nat | 0 < c < |b| && Parent(c) == cur :: x <= b[c].amount
  {
    forall c: nat | 0 < c < |b| ensures Parent(c) == cur <==> c == 2 * cur + 1 || c == 2 * cur + 2 {
      ParentOf(c, cur);
    }
    assert 2 * cur + 1 < |b| ==> Parent(2 * cur + 1) == cur;
    assert 2 * cur + 2 < |b| ==> Parent(2 * cur + 2) == cur;
  }

  lemma SiftStart(b: seq<Coin>, i: nat)
    requires HeapFrom(b, i + 1)
    ensures Sifting(b, i, i)
  {
  }

  /** Swapping node cur with its smaller child moves the exception down. */
  lemma SiftDown(b: seq<Coin>, i: nat, cur: nat, child: nat)
    requires Sifting(b, i, cur) && child < |b| && (child == 2 * cur + 1 || child == 2 * cur + 2)
    requires OverChildren(b, cur, b[child].amount) && b[cur].amount > b[child].amount
    ensures Sifting(b[cur := b[child]][child := b[cur]], i, child)
  {
    ParentOf(child, cur);
    ChildrenOf(b, cur, b[child].amount);
    var b' := b[cur := b[child]][child := b[cur]];
    forall c: nat | 0 < c < |b| && Parent(c) >= i && Parent(c) != child
      ensures b'[Parent(c)].amount <= b'[c].amount
    {
      if c == child {
      } else if Parent(c) == cur {
        assert b'[c] == b[c];
      } else if c == cur {
        assert b[Parent(cur)].amount <= b[child].amount;
      } else {
        assert b'[c] == b[c] && b'[Parent(c)] == b[Parent(c)];
      }
    }
  }

  lemma SiftDone(b: seq<Coin>, i: nat, cur: nat)
    requires Sifting(b, i, cur) && cur < |b| && OverChildren(b, cur, b[cur].amount)
    ensures HeapFrom(b, i)
  {
    ChildrenOf(b, cur, b[cur].amount);
  }

  lemma SiftNone(b: seq<Coin>, i: nat, cur: nat)
    requires Sifting(b, i, cur) && cur >= |b| / 2
    ensures HeapFrom(b, i)
  {
    ChildrenOf(b, cur, 0);
  }

  lemma LargestAdd(b: multiset<Coin>, low: multiset<Coin>, k: nat, c: Coin)
    requires Largest(b, low, k) && |b| < k
    ensures Largest(b + multiset{c}, low + multiset{c}, k)
  {
    assert |low - b| == |low| - |b|;
    assert low + multiset{c} - (b + multiset{c}) == low - b;
    assert low - b == multiset{};
  }

  lemma LargestReplace(b: multiset<Coin>, low: multiset<Coin>, k: nat, least: Coin, c: Coin)
    requires Largest(b, low, k) && |b| == k && least in b && c.amount > least.amount
    requires forall x <- b :: least.amount <= x.amount
    ensures Largest(b - multiset{least} + multiset{c}, low + multiset{c}, k)
  {
    var b' := b - multiset{least} + multiset{c};
    assert low + multiset{c} - b' == low - b + multiset{least};
  }

  lemma LargestSkip(b: multiset<Coin>, low: multiset<Coin>, k: nat, c: Coin)
    requires Largest(b, low, k) && |b| == k && forall x <- b :: c.amount <= x.amount
    ensures Largest(b, low + multiset{c}, k)
  {
    assert low + multiset{c} - b == low - b + multiset{c};
  }

  /** b holds the k largest coins of low, all of them within the required amount, in heap order once it
      is full. */
  ghost predicate BaseOf(b: seq<Coin>, low: multiset<Coin>, k: nat, amt: nat) {
    |b| <= k && Largest(multiset(b), low, k) && (|b| == k ==> Heap(b)) && Within(low, amt)
  }

  ghost predicate Within(low: multiset<Coin>, amt: nat) { forall c <- low :: c.amount <= amt }

  lemma WithinAdd(low: multiset<Coin>, amt: nat, c: Coin)
    requires Within(low, amt) && c.amount <= amt
    ensures Within(low + multiset{c}, amt)
  {
  }

  lemma BaseAdd(b: seq<Coin>, b': seq<Coin>, low: multiset<Coin>, k: nat, amt: nat, c: Coin)
    requires BaseOf(b, low, k, amt) && |b| < k && c.amount <= amt
    requires multiset(b') == multiset(b) + multiset{c} && |b'| == |b| + 1 && (|b'| == k ==> Heap(b'))
    ensures BaseOf(b', low + multiset{c}, k, amt)
  {
    hide Largest, Heap, Within;
    LargestAdd(multiset(b), low, k, c);
    WithinAdd(low, amt, c);
  }

  lemma BaseReplace(b: seq<Coin>, b': seq<Coin>, low: multiset<Coin>, k: nat, amt: nat, c: Coin)
    requires BaseOf(b, low, k, amt) && |b| == k > 0 && b[0].amount < c.amount <= amt
    requires multiset(b') == multiset(b) - multiset{b[0]} + multiset{c} && |b'| == k && Heap(b')
    ensures BaseOf(b', low + multiset{c}, k, amt)
  {
    hide Largest, Heap, Within;
    RootIsLeastOfAll(b);
    LargestReplace(multiset(b), low, k, b[0], c);
    WithinAdd(low, amt, c);
  }

  lemma BaseSkip(b: seq<Coin>, low: multiset<Coin>, k: nat, amt: nat, c: Coin)
    requires BaseOf(b, low, k, amt) && |b| == k && c.amount <= amt && (k > 0 ==> c.amount <= b[0].amount)
    ensures BaseOf(b, low + multiset{c}, k, amt)
  {
    hide Largest, Heap, Within;
    if k > 0 {
      RootIsLeastOfAll(b);
    }
    LargestSkip(multiset(b), low, k, c);
    WithinAdd(low, amt, c);
  }

  /** g is the smallest of the coins of high, all of them above the required amount. */
  ghost predicate GuardOf(g: Option<Coin>, high: multiset<Coin>, amt: nat) {
    (forall c <- high :: c.amount > amt) &&
    match g
    case None => high == multiset{}
    case Some(c) => c in high && forall d <- high :: c.amount <= d.amount
  }

  class TopKSelector {
    const k: nat
    const requireAmt: nat
    var base: seq<Coin>
    var guard: Option<Coin>
    ghost var low: multiset<Coin>
    ghost var high: multiset<Coin>

    ghost predicate BaseValid()
      reads `base, `low
    {
      BaseOf(base, low, k, requireAmt)
    }

    ghost predicate GuardValid()
      reads `guard, `high
    {
      GuardOf(guard, high, requireAmt)
    }

    ghost predicate Valid()
      reads this
    {
      BaseValid() && GuardValid()
    }

    constructor (k: nat, requireAmt: nat)
      ensures Valid() && this.k == k && this.requireAmt == requireAmt
      ensures low == multiset{} && high == multiset{}
    {
      this.k, this.requireAmt := k, requireAmt;
      base, guard := [], None;
      low, high := multiset{}, multiset{};
    }

    /** Sift the coin at node i down. */
    method Adjust(i: nat)
      requires |base| == k && HeapFrom(base, i + 1)
      modifies `base
      ensures |base| == k && HeapFrom(base, i) && multiset(base) == multiset(old(base))
    {
      hide Sifting, HeapFrom;
      var cur := i;
      var child := 2 * cur + 1;
      SiftStart(base, i);
      while cur < k / 2
        invariant child == 2 * cur + 1 && |base| == k && Sifting(base, i, cur)
        invariant multiset(base) == multiset(old(base))
        decreases k - cur
      {
        if child + 1 < k && base[child].amount > base[child + 1].amount {
          child := child + 1;
        }
        if base[cur].amount > base[child].amount {
          SwapKeeps(base, cur, child);
          SiftDown(base, i, cur, child);
          base := base[cur := base[child]][child := base[cur]];
          cur := child;
          child := 2 * cur + 1;
        } else {
          SiftDone(base, i, cur);
          return;
        }
      }
      SiftNone(base, i, cur);
    }

    method Submit(item: Coin)
      requires Valid()
      modifies this
      ensures Valid()
      ensures low == if item.amount > requireAmt then old(low) else old(low) + multiset{item}
      ensures high == if item.amount > requireAmt then old(high) + multiset{item} else old(high)
    {
      hide BaseOf;
      if item.amount > requireAmt {
        if guard.None? || item.amount < guard.value.amount {
          guard := Some(item);
        }
        high := high + multiset{item};
        return;
      }
      SubmitLow(item);
    }

    /** Append while there is room, and build the heap once there is none left. */
    method Append(item: Coin)
      requires |base| < k
      modifies `base
      ensures multiset(base) == old(multiset(base)) + multiset{item} && |base| == old(|base|) + 1
      ensures |base| == k ==> Heap(base)
    {
      base := base + [item];
      if |base| == k {
        LeavesInOrder(base);
        for i := k / 2 downto 0
          invariant |base| == k && HeapFrom(base, i)
          invariant multiset(base) == old(multiset(base)) + multiset{item}
        {
          Adjust(i);
        }
      }
    }

    /** Put a coin in place of the least one. */
    method ReplaceLeast(item: Coin)
      requires |base| == k > 0 && Heap(base)
      modifies `base
      ensures |base| == k && Heap(base)
      ensures multiset(base) == old(multiset(base)) - multiset{old(base[0])} + multiset{item}
    {
      BelowRoot(base, item);
      base := base[0 := item];
      Adjust(0);
    }

    method SubmitLow(item: Coin)
      requires BaseValid() && item.amount <= requireAmt
      modifies `base, `low
      ensures BaseValid() && low == old(low) + multiset{item}
    {
      hide HeapFrom, Largest, Heap, Within;
      ghost var was := base;
      if |base| < k {
        Append(item);
        BaseAdd(was, base, low, k, requireAmt, item);
      } else if k > 0 && item.amount > base[0].amount {
        ReplaceLeast(item);
        BaseReplace(was, base, low, k, requireAmt, item);
      } else {
        BaseSkip(base, low, k, requireAmt, item);
      }
      low := low + multiset{item};
    }

    method Items() returns (result: seq<Coin>)
      ensures result == base + if guard.Some? then [guard.value] else []
    {
      result := base;
      if guard.Some? {
        result := result + [guard.value];
      }
    }
  }
}
