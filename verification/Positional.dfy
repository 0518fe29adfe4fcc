/** Positional numbers, as big integers are turned into bytes and words and back, and bit operations on them. */
module Positional {
  function Pow(b: nat, k: nat): nat { if k == 0 then 1 else b * Pow(b, k - 1) }

  lemma MulThree(a: nat, b: nat, c: nat)
    ensures a * (b * c) == (a * b) * c
  {
  }

  lemma {:induction false} PowAdd(b: nat, i: nat, j: nat)
    ensures Pow(b, i + j) == Pow(b, i) * Pow(b, j)
    decreases i
  {
    if i > 0 {
      PowAdd(b, i - 1, j);
      MulThree(b, Pow(b, i - 1), Pow(b, j));
    }
  }

  lemma {:induction false} PowPositive(b: nat, k: nat)
    requires b > 0
    ensures Pow(b, k) > 0
  {
    if k > 0 {
      PowPositive(b, k - 1);
    }
  }

  /** A power of a power of two. */
  lemma {:induction false} PowPow(b: nat, w: nat, k: nat)
    requires b == Pow(2, w)
    ensures Pow(b, k) == Pow(2, w * k)
  {
    if k > 0 {
      PowPow(b, w, k - 1);
      PowAdd(2, w, w * (k - 1));
      assert w * k == w + w * (k - 1);
    }
  }

  /** The number written with the given digits, most significant first. */
  function Val(ds: seq<nat>, b: nat): nat {
    if ds == [] then 0 else Val(ds[..|ds| - 1], b) * b + ds[|ds| - 1]
  }

  /** The last k digits of a number. */
  function Digits(n: nat, k: nat, b: nat): seq<nat>
    requires b > 0
    decreases k
  {
    if k == 0 then [] else Digits(n / b, k - 1, b) + [n % b]
  }

  ghost predicate Below(ds: seq<nat>, b: nat) { forall i :: 0 <= i < |ds| ==> ds[i] < b }

  lemma {:induction false} DigitsBelow(n: nat, k: nat, b: nat)
    requires b > 0
    ensures |Digits(n, k, b)| == k && Below(Digits(n, k, b), b)
    decreases k
  {
    if k > 0 {
      DigitsBelow(n / b, k - 1, b);
    }
  }

  lemma {:induction false} MulGap(b: nat, p: nat, q: nat)
    requires p < q
    ensures b * p + b <= b * q
    decreases q
  {
    if p + 1 < q {
      MulGap(b, p, q - 1);
    }
  }

  lemma MulSwap(a: nat, b: nat)
    ensures a * b == b * a
  {
  }

  lemma DivMod(n: nat, b: nat)
    requires b > 0
    ensures n == b * (n / b) + n % b && n % b < b
  {
  }

  lemma QuotientUnique(b: nat, p: nat, r: nat, q: nat, s: nat)
    requires b * p + r == b * q + s && r < b && s < b
    ensures p == q && r == s
  {
    if p < q {
      MulGap(b, p, q);
    } else if q < p {
      MulGap(b, q, p);
    }
  }

  lemma DivOf(q: nat, b: nat, r: nat)
    requires r < b
    ensures (q * b + r) / b == q && (q * b + r) % b == r
  {
    var n := q * b + r;
    DivMod(n, b);
    var c, m := n / b, n % b;
    assert b * c + m == b * q + r;
    QuotientUnique(b, c, m, q, r);
  }

  lemma DivBelow(n: nat, b: nat, p: nat)
    requires b > 0 && n < b * p
    ensures n / b < p
  {
    DivMod(n, b);
    var c := n / b;
    if c > p {
      MulGap(b, p, c);
    }
  }

  lemma {:induction false} ValDigits(n: nat, k: nat, b: nat)
    requires b > 0 && n < Pow(b, k)
    ensures Val(Digits(n, k, b), b) == n
    decreases k
  {
    if k > 0 {
      DivBelow(n, b, Pow(b, k - 1));
      ValDigits(n / b, k - 1, b);
      DivMod(n, b);
      ValAppend(Digits(n / b, k - 1, b), n % b, b);
    }
  }

  lemma ValAppend(ds: seq<nat>, d: nat, b: nat)
    ensures Val(ds + [d], b) == Val(ds, b) * b + d
  {
    assert (ds + [d])[..|ds|] == ds;
  }

  lemma {:induction false} DigitsVal(ds: seq<nat>, b: nat)
    requires b > 0 && Below(ds, b)
    ensures Digits(Val(ds, b), |ds|, b) == ds && Val(ds, b) < Pow(b, |ds|)
    decreases |ds|
  {
    if ds != [] {
      var k := |ds| - 1;
      var v := Val(ds[..k], b);
      DigitsVal(ds[..k], b);
      DigitsStep(v, ds[k], b, k);
      MulGap(b, v, Pow(b, k));
    }
  }

  lemma DigitsStep(v: nat, d: nat, b: nat, k: nat)
    requires d < b
    ensures Digits(v * b + d, k + 1, b) == Digits(v, k, b) + [d]
  {
    DivOf(v, b, d);
  }

  lemma ValUnique(ds: seq<nat>, es: seq<nat>, b: nat)
    requires b > 0 && |ds| == |es| && Val(ds, b) == Val(es, b)
    requires Below(ds, b) && Below(es, b)
    ensures ds == es
  {
    DigitsVal(ds, b);
    DigitsVal(es, b);
  }

  function BitAnd(x: nat, y: nat): nat {
    if x == 0 || y == 0 then 0
    else 2 * BitAnd(x / 2, y / 2) + if x % 2 == 1 && y % 2 == 1 then 1 else 0
  }

  function BitOr(x: nat, y: nat): nat {
    if x == 0 then y
    else if y == 0 then x
    else 2 * BitOr(x / 2, y / 2) + if x % 2 == 1 || y % 2 == 1 then 1 else 0
  }

  lemma {:induction false} AndNone(x: nat)
    ensures BitAnd(x, 0) == 0
  {
  }

  /** Masking with k ones keeps the last k bits. */
  lemma {:induction false} AndMask(x: nat, k: nat)
    ensures Pow(2, k) > 0 && BitAnd(x, Pow(2, k) - 1) == x % Pow(2, k)
    decreases k
  {
    PowPositive(2, k);
    if k > 0 {
      AndMask(x / 2, k - 1);
      var p := Pow(2, k - 1);
      assert (2 * p - 1) / 2 == p - 1 && (2 * p - 1) % 2 == 1;
      HalfMod(x, p);
    }
  }

  lemma HalfMod(x: nat, p: nat)
    requires p > 0
    ensures x % (2 * p) == 2 * ((x / 2) % p) + x % 2
  {
    DivMod(x / 2, p);
    var q, r := (x / 2) / p, (x / 2) % p;
    assert q * (2 * p) == 2 * (p * q);
    DivOf(q, 2 * p, 2 * r + x % 2);
  }

  lemma HalfDiv(x: nat, p: nat)
    requires p > 0
    ensures x / (2 * p) == (x / 2) / p == (x / p) / 2
  {
    DivMod(x, p);
    DivMod(x / 2, p);
    var c, s := x / p, x % p;
    var q := c / 2;
    var t := p * (c % 2) + s;
    assert x == q * (2 * p) + t by {
      assert p * c == q * (2 * p) + p * (c % 2);
    }
    DivOf(q, 2 * p, t);
    assert q * (2 * p) == 2 * (q * p);
    DivOf(q, p, t / 2);
  }

  /** Testing one bit. */
  lemma {:induction false} AndBit(x: nat, k: nat)
    ensures Pow(2, k) > 0 && (BitAnd(x, Pow(2, k)) > 0 <==> (x / Pow(2, k)) % 2 == 1)
    decreases k
  {
    PowPositive(2, k);
    if k == 0 {
      AndNone(x / 2);
    } else {
      AndBit(x / 2, k - 1);
      HalfDiv(x, Pow(2, k - 1));
    }
  }

  /** Setting bits below a shifted number adds them. */
  lemma {:induction false} OrShift(x: nat, k: nat, y: nat)
    requires y < Pow(2, k)
    ensures BitOr(x * Pow(2, k), y) == x * Pow(2, k) + y
    decreases k
  {
    if k > 0 {
      var p := Pow(2, k - 1);
      OrShift(x, k - 1, y / 2);
      Twice(x, p);
      OrStep(x * p, y);
    }
  }

  lemma Twice(x: nat, p: nat)
    ensures x * (2 * p) == 2 * (x * p)
  {
  }

  /** The bits of an even number and of another, one place down. */
  lemma OrStep(z: nat, y: nat)
    requires BitOr(z, y / 2) == z + y / 2
    ensures BitOr(2 * z, y) == 2 * z + y
  {
    assert 2 * z / 2 == z && 2 * z % 2 == 0;
  }

  // ---------- single bits ----------

  /** The bit of weight two to the k. */
  function Bit(n: nat, k: nat): nat { if k == 0 then n % 2 else Bit(n / 2, k - 1) }

  lemma HalfOf(q: nat, p: nat, r: nat)
    ensures (q * (2 * p) + r) / 2 == q * p + r / 2 && (q * (2 * p) + r) % 2 == r % 2
  {
    Twice(q, p);
  }

  /** The bits of a number below a place, and from it on. */
  lemma {:induction false} BitSplit(q: nat, w: nat, r: nat, k: nat)
    requires r < Pow(2, w)
    ensures Bit(q * Pow(2, w) + r, k) == if k < w then Bit(r, k) else Bit(q, k - w)
    decreases w
  {
    if w > 0 {
      HalfOf(q, Pow(2, w - 1), r);
      if k > 0 {
        BitSplit(q, w - 1, r / 2, k - 1);
      }
    }
  }

  lemma BitAfter(n: nat, w: nat, k: nat)
    ensures Pow(2, w) > 0 && Bit(n / Pow(2, w), k) == Bit(n, k + w)
  {
    hide Bit;
    PowPositive(2, w);
    DivMod(n, Pow(2, w));
    BitSplit(n / Pow(2, w), w, n % Pow(2, w), k + w);
    MulSwap(n / Pow(2, w), Pow(2, w));
  }

  lemma PlaceBefore(k: nat, w: nat)
    requires 0 < w <= k
    ensures (k - w) / w == k / w - 1 && (k - w) % w == k % w
  {
    DivMod(k, w);
    DivMod(k - w, w);
    QuotientUnique(w, (k - w) / w + 1, (k - w) % w, k / w, k % w);
  }

  /** The bits of a number written in digits of w bits are the bits of its digits. */
  lemma {:induction false} ValBit(ds: seq<nat>, w: nat, k: nat)
    requires w > 0 && Below(ds, Pow(2, w)) && k < w * |ds|
    ensures k / w < |ds| && Bit(Val(ds, Pow(2, w)), k) == Bit(ds[|ds| - 1 - k / w], k % w)
    decreases |ds|
  {
    hide Bit, Pow;
    var n := |ds| - 1;
    assert w * |ds| == w * n + w;
    BitSplit(Val(ds[..n], Pow(2, w)), w, ds[n], k);
    if k < w {
      assert k / w == 0 && k % w == k by {
        DivOf(0, w, k);
      }
    } else {
      PlaceBefore(k, w);
      ValBit(ds[..n], w, k - w);
    }
  }
}
