/** Allocating addresses under the gap limit, and finding them again when a wallet is restored. */
module GapLimit {
  const MAX_UINT32: nat := 0xFFFF_FFFF
  const MAX_ADDRESSES: nat := 0x7FFF_FFFF

  type ScriptHash = nat
  type uint32 = n: nat | n <= MAX_UINT32

  /** Addition that stops at the largest value. */
  function SatAdd(a: uint32, b: uint32): uint32 { if a + b > MAX_UINT32 then MAX_UINT32 else a + b }

  /** The key chain of one branch, and which of its addresses have been used. */
  datatype Branch = Branch(derive: nat -> ScriptHash, used: set<ScriptHash>) {
    predicate Used(i: nat) { derive(i) in used }
  }

  /** Every index below n lies within the gap limit of the start or of a used index before it. */
  ghost predicate Dense(b: Branch, n: nat, gap: nat) {
    forall j: nat | gap <= j < n :: Reached(b, j, gap)
  }

  ghost predicate Reached(b: Branch, j: nat, gap: nat) { exists u: nat :: u < j && b.Used(u) && j - u <= gap }

  /** The rule for allocating n addresses after the first next ones. */
  ghost predicate Allowed(b: Branch, next: nat, n: nat, gap: nat) {
    n <= gap && (next == 0 || next + n <= gap || exists u: nat :: next + n - gap - 1 <= u < next && b.Used(u))
  }

  lemma AllowedKeepsDense(b: Branch, next: nat, n: nat, gap: nat)
    requires Dense(b, next, gap) && Allowed(b, next, n, gap)
    ensures Dense(b, next + n, gap)
  {
    if next != 0 && next + n > gap {
      var u :| next + n - gap - 1 <= u < next && b.Used(u);
      forall j: nat | gap <= j < next + n ensures Reached(b, j, gap) {
        if j >= next {
          assert u < j && j - u <= gap;
        }
      }
    }
  }

  /** The other half: if only issued addresses are used, whatever stays dense is allowed. */
  lemma DenseIsAllowed(b: Branch, next: nat, n: nat, gap: nat)
    requires n <= gap && Dense(b, next + n, gap) && forall u: nat | b.Used(u) :: u < next
    ensures Allowed(b, next, n, gap)
  {
    if next + n > gap && next > 0 {
      assert Reached(b, next + n - 1, gap);
    }
  }

  /** While only issued addresses are used, the rule allows exactly what keeps every index within the gap limit of
      the start or of a used index before it. */
  lemma AllowedIffDense(b: Branch, next: nat, n: nat, gap: nat)
    requires Dense(b, next, gap) && forall u: nat | b.Used(u) :: u < next
    ensures Allowed(b, next, n, gap) <==> n <= gap && Dense(b, next + n, gap)
  {
    if Allowed(b, next, n, gap) {
      AllowedKeepsDense(b, next, n, gap);
    } else if n <= gap && Dense(b, next + n, gap) {
      DenseIsAllowed(b, next, n, gap);
    }
  }

  lemma UseKeepsDense(b: Branch, b': Branch, n: nat, gap: nat)
    requires Dense(b, n, gap) && b'.derive == b.derive && b.used <= b'.used
    ensures Dense(b', n, gap)
  {
    forall j: nat | gap <= j < n ensures Reached(b', j, gap) {
      assert Reached(b, j, gap);
      var u: nat :| u < j && b.Used(u) && j - u <= gap;
      assert b'.Used(u);
    }
  }

  datatype Allocation = TooMany | OverGap | Allocated(addresses: seq<ScriptHash>)

  class AddrManager {
    const derive: nat -> ScriptHash
    var nextIndex: uint32
    var index: map<nat, ScriptHash>

    /** The index holds the address of every child below the next one. */
    ghost predicate Valid()
      reads this
    {
      nextIndex <= MAX_ADDRESSES && (forall i: nat :: i in index <==> i < nextIndex) &&
      forall i <- index :: index[i] == derive(i)
    }

    constructor (derive: nat -> ScriptHash)
      ensures Valid() && this.derive == derive && nextIndex == 0
    {
      this.derive, nextIndex, index := derive, 0, map[];
    }

    /** Whether one of the addresses from an index on is used. */
    method AnyUsed(from: nat, used: set<ScriptHash>) returns (pass: bool)
      requires Valid()
      ensures pass <==> exists u: nat :: from <= u < nextIndex && Branch(derive, used).Used(u)
    {
      pass := false;
      var i := from;
      while i < nextIndex
        invariant forall u: nat | from <= u < i && u < nextIndex :: !Branch(derive, used).Used(u)
      {
        if i in index && index[i] in used {
          assert Branch(derive, used).Used(i);
          return true;
        }
        i := i + 1;
      }
    }

    method NextAddresses(n: uint32, gap: uint32, used: set<ScriptHash>) returns (r: Allocation)
      requires Valid()
      modifies this
      ensures Valid()
      ensures r.TooMany? <==> n + old(nextIndex) > 0x7FFF_FFFF
      ensures r.OverGap? <==>
        !r.TooMany? &&
        (n > gap ||
         (old(nextIndex) != 0 && old(nextIndex) + n > gap &&
          forall u: nat | old(nextIndex) + n - gap - 1 <= u < old(nextIndex) :: derive(u) !in used))
      ensures
        old(Dense(Branch(derive, used), nextIndex, gap)) &&
        (forall u: nat | derive(u) in used :: u < old(nextIndex)) ==>
        (r.Allocated? <==>
         n + old(nextIndex) <= MAX_ADDRESSES && n <= gap && Dense(Branch(derive, used), old(nextIndex) + n, gap))
      ensures !r.Allocated? ==> nextIndex == old(nextIndex) && index == old(index)
      ensures r.Allocated? ==> nextIndex == old(nextIndex) + n && |r.addresses| == n
      ensures r.Allocated? ==> forall i :: 0 <= i < n ==> r.addresses[i] == derive(old(nextIndex) + i)
      ensures old(Dense(Branch(derive, used), nextIndex, gap)) ==> Dense(Branch(derive, used), nextIndex, gap)
    {
      ghost var b := Branch(derive, used);
      if Dense(b, nextIndex, gap) && forall u: nat | derive(u) in used :: u < nextIndex {
        assert forall u: nat | b.Used(u) :: u < nextIndex;
        AllowedIffDense(b, nextIndex, n, gap);
      }
      if n > MAX_ADDRESSES || n + nextIndex > MAX_ADDRESSES {
        return TooMany;
      }
      if n > gap {
        return OverGap;
      }
      if nextIndex != 0 && nextIndex + n > gap {
        var pass := AnyUsed(nextIndex + n - gap - 1, used);
        if !pass {
          forall u: nat | nextIndex + n - gap - 1 <= u < nextIndex ensures derive(u) !in used {
            assert !b.Used(u);
          }
          return OverGap;
        }
      }
      assert Allowed(b, nextIndex, n, gap);
      if Dense(b, nextIndex, gap) {
        AllowedKeepsDense(b, nextIndex, n, gap);
      }
      var addresses: seq<ScriptHash> := [];
      var next: nat := nextIndex;
      while |addresses| < n
        invariant |addresses| <= n && next == nextIndex + |addresses|
        invariant forall i :: 0 <= i < |addresses| ==> addresses[i] == derive(nextIndex + i)
      {
        addresses := addresses + [derive(next)];
        next := next + 1;
      }
      Record(addresses);
      return Allocated(addresses);
    }

    method Record(addresses: seq<ScriptHash>)
      requires Valid() && nextIndex + |addresses| <= MAX_ADDRESSES
      requires forall i :: 0 <= i < |addresses| ==> addresses[i] == derive(nextIndex + i)
      modifies this
      ensures Valid() && nextIndex == old(nextIndex) + |addresses|
    {
      ghost var first := nextIndex;
      for k := 0 to |addresses|
        invariant Valid() && nextIndex == first + k
      {
        index := index[nextIndex := addresses[k]];
        nextIndex := nextIndex + 1;
      }
    }
  }

  /** No address from n on, up to the gap limit and the largest child number, is used. */
  ghost predicate Unused(b: Branch, n: uint32, gap: uint32) {
    forall u: nat | n <= u < n + gap && u < MAX_UINT32 :: !b.Used(u)
  }

  /** n is the first point from childNum on that is followed by a gap of unused addresses. */
  ghost predicate FirstGap(b: Branch, childNum: uint32, gap: uint32, n: uint32) {
    childNum <= n && Unused(b, n, gap) && forall m: uint32 | childNum <= m < n :: !Unused(b, m, gap)
  }

  function Max(a: uint32, b: uint32): uint32 { if a < b then b else a }

  /** The discovery scan: addresses are derived until the gap limit after the last used one, and after
      the starting child number, is reached. */
  method Scan(derive: nat -> ScriptHash, used: set<ScriptHash>, childNum: uint32, gap: uint32)
    returns (nextIndex: uint32, kept: seq<ScriptHash>)
    ensures childNum == 0 ==> nextIndex == 0 && kept == []
    ensures childNum > 0 ==> FirstGap(Branch(derive, used), childNum, gap, nextIndex)
    ensures nextIndex == childNum || (nextIndex > 0 && Branch(derive, used).Used(nextIndex - 1))
    ensures |kept| == nextIndex && forall i :: 0 <= i < |kept| ==> kept[i] == derive(i)
  {
    if childNum == 0 {
      return 0, [];
    }
    ghost var b := Branch(derive, used);
    nextIndex := 0;
    var addressInfo: seq<ScriptHash> := [];
    var i: uint32 := 0;
    while i < SatAdd(nextIndex, gap) || i < SatAdd(childNum, gap)
      invariant |addressInfo| == i && forall j :: 0 <= j < i ==> addressInfo[j] == derive(j)
      invariant nextIndex <= i && forall u: nat | nextIndex <= u < i :: !b.Used(u)
      invariant nextIndex == 0 || b.Used(nextIndex - 1)
      invariant i <= SatAdd(Max(nextIndex, childNum), gap)
      invariant forall m: uint32 | childNum <= m < nextIndex :: !Unused(b, m, gap)
      decreases MAX_UINT32 - i
    {
      var script := derive(i);
      if script in used {
        assert b.Used(i);
        nextIndex := i + 1;
      }
      addressInfo := addressInfo + [script];
      i := i + 1;
    }
    if nextIndex < childNum {
      nextIndex := childNum;
    }
    kept := addressInfo[..nextIndex];
  }

  /** The scan with the same or a larger gap limit finds every used address of a wallet whose indices are
      dense, whatever the starting child number. */
  lemma {:induction false} ScanFindsUsed(b: Branch, n: nat, gap: uint32, scanGap: uint32, childNum: uint32,
                                         found: uint32, j: nat)
    requires Dense(b, n, gap) && gap <= scanGap && n <= MAX_ADDRESSES
    requires FirstGap(b, childNum, scanGap, found)
    requires j < n && b.Used(j)
    ensures j < found
    decreases j
  {
    if j >= gap {
      assert Reached(b, j, gap);
      var u: nat :| u < j && b.Used(u) && j - u <= gap;
      ScanFindsUsed(b, n, gap, scanGap, childNum, found, u);
    }
  }

  /** A run of one branch: addresses are allocated under the gap limit, and scripts come into use. */
  datatype Step = Issue(n: nat) | Use(script: ScriptHash)

  ghost predicate Run(derive: nat -> ScriptHash, gap: uint32, steps: seq<Step>, next: nat, used: set<ScriptHash>)
    decreases |steps|
  {
    if steps == [] then next == 0 && used == {}
    else
      var before := steps[..|steps| - 1];
      match steps[|steps| - 1]
      case Issue(n) =>
        n <= next <= MAX_ADDRESSES && Allowed(Branch(derive, used), next - n, n, gap) &&
          Run(derive, gap, before, next - n, used)
      case Use(script) =>
        script in used && (Run(derive, gap, before, next, used) || Run(derive, gap, before, next, used - {script}))
  }

  lemma {:induction false} RunIsDense(derive: nat -> ScriptHash, gap: uint32, steps: seq<Step>, next: nat,
                                      used: set<ScriptHash>)
    requires Run(derive, gap, steps, next, used)
    ensures Dense(Branch(derive, used), next, gap) && next <= MAX_ADDRESSES
    decreases |steps|
  {
    if steps != [] {
      var before := steps[..|steps| - 1];
      match steps[|steps| - 1]
      case Issue(n) =>
        RunIsDense(derive, gap, before, next - n, used);
        AllowedKeepsDense(Branch(derive, used), next - n, n, gap);
      case Use(script) =>
        if Run(derive, gap, before, next, used) {
          RunIsDense(derive, gap, before, next, used);
        } else {
          RunIsDense(derive, gap, before, next, used - {script});
          UseKeepsDense(Branch(derive, used - {script}), Branch(derive, used), next, gap);
        }
    }
  }

  /** Recovery finds every used address a wallet ever issued: after any run, restoring from a starting child
      number of at least 1 with the same gap limit goes past each of them. */
  lemma RecoveryIsComplete(derive: nat -> ScriptHash, gap: uint32, steps: seq<Step>, next: nat, used: set<ScriptHash>,
                           childNum: uint32, found: uint32)
    requires Run(derive, gap, steps, next, used) && FirstGap(Branch(derive, used), childNum, gap, found)
    ensures forall j: nat | j < next && Branch(derive, used).Used(j) :: j < found
  {
    var b := Branch(derive, used);
    RunIsDense(derive, gap, steps, next, used);
    forall j: nat | j < next && b.Used(j) ensures j < found {
      ScanFindsUsed(b, next, gap, gap, childNum, found, j);
    }
  }

  /** The limits fit exactly: with a scan limit one smaller, a wallet can be lost. Addresses 0 to gap - 1 are
      issued, 1 is used, two more are issued and the last is used. */
  lemma GapIsTight(gap: uint32)
    requires 2 <= gap < MAX_ADDRESSES - 2
    ensures
      var derive := (i: nat) => i;
      var steps := [Issue(gap), Use(1), Issue(2), Use(gap + 1)];
      Run(derive, gap, steps, gap + 2, {1, gap + 1}) &&
      FirstGap(Branch(derive, {1, gap + 1}), 1, gap - 1, 2) && Branch(derive, {1, gap + 1}).Used(gap + 1)
  {
    var derive := (i: nat) => i;
    var s1, s2, s3 := [Issue(gap)], [Issue(gap), Use(1)], [Issue(gap), Use(1), Issue(2)];
    var s4 := [Issue(gap), Use(1), Issue(2), Use(gap + 1)];
    assert s1[..0] == [] && s2[..1] == s1 && s3[..2] == s2 && s4[..3] == s3;
    assert Run(derive, gap, s1, gap, {});
    assert {1} - {1} == {};
    assert Run(derive, gap, s2, gap, {1});
    assert Branch(derive, {1}).Used(1);
    assert Run(derive, gap, s3, gap + 2, {1});
    assert {1, gap + 1} - {gap + 1} == {1};
    assert Run(derive, gap, s4, gap + 2, {1, gap + 1});
    var b := Branch(derive, {1, gap + 1});
    assert b.Used(1);
    assert !Unused(b, 1, gap - 1);
  }
}
