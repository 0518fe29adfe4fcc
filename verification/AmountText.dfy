/** Amounts as text: a decimal number of coins with at most eight digits after the point. */
module AmountText {
  import opened Wrappers
  import opened Positional

  const MAXWELL_PER_MASS: nat := 100_000_000
  const MAX_INT64: nat := 0x7FFF_FFFF_FFFF_FFFF

  /** The largest amount, a whole number of coins that fits a 64-bit integer. */
  type MaxMass = n: nat | n * MAXWELL_PER_MASS <= MAX_INT64

  function MaxAmount(maxMass: MaxMass): nat { maxMass * MAXWELL_PER_MASS }

  // ---- library string functions ----

  predicate IsDigit(c: char) { '0' <= c <= '9' }

  predicate AllDigits(s: string) { forall i :: 0 <= i < |s| ==> IsDigit(s[i]) }

  function Nums(s: string): seq<nat>
    requires AllDigits(s)
  {
    seq(|s|, i requires 0 <= i < |s| => s[i] as int - '0' as int)
  }

  /** The number a string of digits stands for; the empty string stands for zero. */
  function Dec(s: string): nat
    requires AllDigits(s)
  {
    Val(Nums(s), 10)
  }

  /** The decimal form of a number. */
  function Itoa(n: nat): string {
    if n < 10 then [('0' as int + n) as char] else Itoa(n / 10) + [('0' as int + n % 10) as char]
  }

  function Split(s: string): (r: seq<string>)
    ensures |r| >= 1
  {
    if s == "" then [""]
    else if s[0] == '.' then [""] + Split(s[1..])
    else var r := Split(s[1..]); [[s[0]] + r[0]] + r[1..]
  }

  function TrimLeft(s: string): string { if s != "" && s[0] == '0' then TrimLeft(s[1..]) else s }

  function TrimRight(s: string): string {
    if s != "" && s[|s| - 1] == '0' then TrimRight(s[..|s| - 1]) else s
  }

  function Zeros(n: nat): string { seq(n, i => '0') }

  /** A decimal integer with an optional sign, in the range of 64 bits. */
  function ParseInt(s: string): Option<int> {
    var negative := s != "" && s[0] == '-';
    var digits := if s != "" && (s[0] == '-' || s[0] == '+') then s[1..] else s;
    if digits == "" || !AllDigits(digits) then None
    else if negative then (if Dec(digits) <= MAX_INT64 + 1 then Some(0 - Dec(digits) as int) else None)
    else if Dec(digits) <= MAX_INT64 then Some(Dec(digits)) else None
  }

  // ---- the printer and the parser ----

  function AmountToString(m: int, maxMass: MaxMass): Option<string> {
    if m > MaxAmount(maxMass) || m < 0 then None
    else
      var s := Itoa(m + MAXWELL_PER_MASS);
      ItoaLength(m + MAXWELL_PER_MASS, 8);
      var sInt, sFrac := s[..|s| - 8], TrimRight(s[|s| - 8..]);
      var i := ParseInt(sInt);
      if i.None? || i.value < 1 then None
      else Some(Itoa(i.value - 1) + if |sFrac| > 0 then "." + sFrac else "")
  }

  function StringToAmount(s: string, maxMass: MaxMass): Option<nat> {
    var s1 := Split(s);
    if |s1| > 2 then None
    else
      var trimmed := TrimLeft(s1[0]);
      var sInt := if trimmed == "" then "0" else trimmed;
      var sFrac := if |s1| == 2 then TrimRight(s1[1]) else "";
      if |sFrac| > 8 then None
      else
        var i := ParseInt(sInt);
        var f := ParseInt(sFrac + Zeros(8 - |sFrac|));
        if i.None? || i.value < 0 || i.value > maxMass || f.None? || f.value < 0 then None
        else
          var u := MAXWELL_PER_MASS * i.value + f.value;
          if u > MaxAmount(maxMass) then None else Some(u)
  }

  // ---- digits ----

  lemma Powers()
    ensures Pow(10, 8) == MAXWELL_PER_MASS
  {
    assert Pow(10, 4) == 10_000;
  }

  lemma DecAppend(s: string, c: char)
    requires AllDigits(s) && IsDigit(c)
    ensures AllDigits(s + [c]) && Dec(s + [c]) == Dec(s) * 10 + (c as int - '0' as int)
  {
    assert Nums(s + [c]) == Nums(s) + [c as int - '0' as int];
    ValAppend(Nums(s), c as int - '0' as int, 10);
  }

  /** The number of a concatenation. */
  lemma {:induction false} DecConcat(s: string, t: string)
    requires AllDigits(s) && AllDigits(t)
    ensures AllDigits(s + t) && Dec(s + t) == Dec(s) * Pow(10, |t|) + Dec(t)
    decreases |t|
  {
    if t == "" {
      assert s + t == s;
    } else {
      var k := |t| - 1;
      DecConcat(s, t[..k]);
      DecAppend(s + t[..k], t[k]);
      DecAppend(t[..k], t[k]);
      assert s + t == s + t[..k] + [t[k]] && t == t[..k] + [t[k]];
      MulTen(Dec(s), Pow(10, k));
    }
  }

  lemma MulTen(v: nat, p: nat)
    ensures v * (10 * p) == v * p * 10
  {
  }

  lemma {:induction false} DecZeros(n: nat)
    ensures AllDigits(Zeros(n)) && Dec(Zeros(n)) == 0
  {
    if n > 0 {
      DecZeros(n - 1);
      DecAppend(Zeros(n - 1), '0');
      assert Zeros(n) == Zeros(n - 1) + ['0'];
    }
  }

  lemma DecBound(s: string)
    requires AllDigits(s)
    ensures Dec(s) < Pow(10, |s|)
  {
    DigitsVal(Nums(s), 10);
  }

  /** Strings of digits of one length with the same number are the same. */
  lemma DecUnique(s: string, t: string)
    requires AllDigits(s) && AllDigits(t) && |s| == |t| && Dec(s) == Dec(t)
    ensures s == t
  {
    ValUnique(Nums(s), Nums(t), 10);
    forall i | 0 <= i < |s| ensures s[i] == t[i] {
      assert Nums(s)[i] == Nums(t)[i];
    }
  }

  /** No leading zero, except for the number zero. */
  ghost predicate Plain(s: string) { s != "" && AllDigits(s) && (s[0] == '0' ==> s == "0") }

  lemma {:induction false} DecItoa(n: nat)
    ensures Plain(Itoa(n)) && Dec(Itoa(n)) == n && (n > 0 ==> Itoa(n)[0] != '0')
  {
    if n < 10 {
      DecAppend("", ('0' as int + n) as char);
      assert "" + Itoa(n) == Itoa(n);
    } else {
      DecItoa(n / 10);
      DecAppend(Itoa(n / 10), ('0' as int + n % 10) as char);
    }
  }

  /** A plain number is at least the power of ten of its length. */
  lemma {:induction false} PlainSize(s: string)
    requires AllDigits(s) && s != "" && s[0] != '0'
    ensures Dec(s) >= Pow(10, |s| - 1)
    decreases |s|
  {
    var k := |s| - 1;
    assert s == s[..k] + [s[k]];
    DecAppend(s[..k], s[k]);
    if k > 0 {
      PlainSize(s[..k]);
    } else {
      assert s[..k] == "";
    }
  }

  lemma ItoaLength(n: nat, k: nat)
    requires n >= Pow(10, k)
    ensures |Itoa(n)| > k
  {
    DecItoa(n);
    DecBound(Itoa(n));
    if |Itoa(n)| <= k {
      PowMonotone(|Itoa(n)|, k);
    }
  }

  lemma {:induction false} PowMonotone(i: nat, j: nat)
    requires i <= j
    ensures Pow(10, i) <= Pow(10, j)
    decreases j
  {
    if i < j {
      PowMonotone(i, j - 1);
    }
  }

  /** A plain string is the decimal form of its number. */
  lemma ItoaDec(s: string)
    requires Plain(s)
    ensures Itoa(Dec(s)) == s
  {
    var t := Itoa(Dec(s));
    DecItoa(Dec(s));
    DecBound(s);
    DecBound(t);
    if s == "0" {
      DecAppend("", '0');
      assert "" + "0" == "0";
    } else {
      PlainSize(s);
      PowPositive(10, |s| - 1);
      PlainSize(t);
      if |t| < |s| {
        PowMonotone(|t|, |s| - 1);
      } else if |s| < |t| {
        PowMonotone(|s|, |t| - 1);
      }
      DecUnique(s, t);
    }
  }

  // ---- trimming ----

  lemma {:induction false} TrimLeftDec(s: string)
    requires AllDigits(s)
    ensures AllDigits(TrimLeft(s)) && Dec(TrimLeft(s)) == Dec(s)
    ensures TrimLeft(s) != "" ==> TrimLeft(s)[0] != '0'
    decreases |s|
  {
    if s != "" && s[0] == '0' {
      TrimLeftDec(s[1..]);
      DecConcat("0", s[1..]);
      assert s == "0" + s[1..];
      DecZeros(1);
      assert Zeros(1) == "0";
    }
  }

  lemma {:induction false} TrimRightIs(s: string)
    ensures |TrimRight(s)| <= |s| && s == TrimRight(s) + Zeros(|s| - |TrimRight(s)|)
    ensures TrimRight(s) != "" ==> TrimRight(s)[|TrimRight(s)| - 1] != '0'
    decreases |s|
  {
    if s != "" && s[|s| - 1] == '0' {
      TrimRightIs(s[..|s| - 1]);
    }
  }

  lemma TrimRightDec(s: string)
    requires AllDigits(s)
    ensures AllDigits(TrimRight(s)) && |TrimRight(s)| <= |s|
    ensures Dec(s) == Dec(TrimRight(s)) * Pow(10, |s| - |TrimRight(s)|)
  {
    TrimRightIs(s);
    var t := TrimRight(s);
    assert t == s[..|t|];
    DecZeros(|s| - |t|);
    DecConcat(t, Zeros(|s| - |t|));
  }

  // ---- parsing is exact ----

  function IntPart(s: string): string { Split(s)[0] }

  function FracPart(s: string): string { if |Split(s)| == 2 then Split(s)[1] else "" }

  /** Digits with at most one point among them. */
  ghost predicate Numeral(s: string) { |Split(s)| <= 2 && AllDigits(IntPart(s)) && AllDigits(FracPart(s)) }

  /** The numeral stands for exactly v units: v / MAXWELL_PER_MASS is the number written. */
  ghost predicate Denotes(s: string, v: nat) {
    Numeral(s) && AllDigits(IntPart(s) + FracPart(s)) &&
    v * Pow(10, |FracPart(s)|) == Dec(IntPart(s) + FracPart(s)) * MAXWELL_PER_MASS
  }

  /** What the parser computes from a numeral with g for the fraction without trailing zeros. */
  function Amount(i: string, g: string): nat
    requires AllDigits(i) && AllDigits(g) && |g| <= 8
  {
    Dec(i) * MAXWELL_PER_MASS + Dec(g) * Pow(10, 8 - |g|)
  }

  lemma ParseDigits(s: string)
    requires AllDigits(s) && s != ""
    ensures ParseInt(s) == if Dec(s) <= MAX_INT64 then Some(Dec(s) as int) else None
  {
    assert IsDigit(s[0]);
  }

  lemma ParseInteger(i: string)
    requires AllDigits(i)
    ensures
      var t := TrimLeft(i);
      ParseInt(if t == "" then "0" else t) == if Dec(i) <= MAX_INT64 then Some(Dec(i) as int) else None
  {
    TrimLeftDec(i);
    var t := TrimLeft(i);
    DecZeros(1);
    assert Zeros(1) == "0";
    ParseDigits(if t == "" then "0" else t);
  }

  lemma ParseFraction(g: string)
    requires AllDigits(g) && |g| <= 8
    ensures ParseInt(g + Zeros(8 - |g|)) == Some(Dec(g) * Pow(10, 8 - |g|))
  {
    hide Pow, Dec, ParseInt;
    var z := 8 - |g|;
    DecZeros(z);
    DecConcat(g, Zeros(z));
    DecBound(g + Zeros(z));
    assert |g + Zeros(z)| == 8;
    Powers();
    ParseDigits(g + Zeros(z));
  }

  lemma ParseNumeral(s: string, maxMass: MaxMass)
    requires Numeral(s)
    ensures
      var g := TrimRight(FracPart(s));
      AllDigits(g) &&
      StringToAmount(s, maxMass) ==
        if |g| > 8 then None
        else if Amount(IntPart(s), g) <= MaxAmount(maxMass) then Some(Amount(IntPart(s), g)) else None
  {
    hide ParseInt, TrimLeft, TrimRight, AllDigits, Dec, Pow, Split;
    assert TrimRight("") == "" by {
      TrimRightIs("");
    }
    var g := TrimRight(FracPart(s));
    TrimRightDec(FracPart(s));
    ParseInteger(IntPart(s));
    if |g| <= 8 {
      ParseFraction(g);
    }
  }

  lemma MulCancel(a: nat, b: nat, p: nat)
    requires p > 0 && a * p == b * p
    ensures a == b
  {
    MulSwap(a, p);
    MulSwap(b, p);
    if a < b {
      MulGap(p, a, b);
    } else if b < a {
      MulGap(p, b, a);
    }
  }

  /** The amount of a numeral with few enough digits is the number written. */
  lemma AmountDenotes(s: string)
    requires Numeral(s) && |TrimRight(FracPart(s))| <= 8 && AllDigits(TrimRight(FracPart(s)))
    ensures Denotes(s, Amount(IntPart(s), TrimRight(FracPart(s))))
  {
    hide Split, Numeral, TrimRight, Pow, Dec, AllDigits;
    var i, f := IntPart(s), FracPart(s);
    assert AllDigits(i) && AllDigits(f) by { NumeralParts(s); }
    var g := TrimRight(f);
    TrimRightDec(f);
    DecConcat(i, f);
    Powers();
    PowAdd(10, 8 - |g|, |f|);
    PowAdd(10, |f| - |g|, 8);
    MulThree(Dec(g), Pow(10, 8 - |g|), Pow(10, |f|));
    MulThree(Dec(g), Pow(10, |f| - |g|), Pow(10, 8));
    Distribute(Dec(i), Dec(g) * Pow(10, 8 - |g|), Pow(10, |f|), Dec(f));
  }

  lemma NumeralParts(s: string)
    requires Numeral(s)
    ensures AllDigits(IntPart(s)) && AllDigits(FracPart(s))
  {
  }

  lemma Distribute(i: nat, x: nat, p: nat, d: nat)
    requires x * p == d * MAXWELL_PER_MASS
    ensures (i * MAXWELL_PER_MASS + x) * p == (i * p + d) * MAXWELL_PER_MASS
  {
    assert (i * MAXWELL_PER_MASS + x) * p == i * MAXWELL_PER_MASS * p + x * p;
  }

  /** A fraction with more than eight digits can be exact only if it ends in a zero. */
  lemma ExactEndsInZero(i: string, f: string, g: string, v: nat)
    requires AllDigits(i) && AllDigits(g) && 8 < |g| <= |f| && f == g + Zeros(|f| - |g|)
    requires AllDigits(i + f) && v * Pow(10, |f|) == Dec(i + f) * MAXWELL_PER_MASS
    ensures g[|g| - 1] == '0'
  {
    hide Pow, Dec, AllDigits;
    Powers();
    var z := |f| - |g|;
    JoinZeros(i, g, z);
    Cancels(v, |f| - 8, 8, Dec(i + f));
    Cancels(v, |g| - 8, z, Dec(i + g));
    EndsInZero(i + g, v, |g| - 8);
    assert (i + g)[|i + g| - 1] == g[|g| - 1];
  }

  lemma JoinZeros(i: string, g: string, z: nat)
    requires AllDigits(i) && AllDigits(g)
    ensures AllDigits(i + g) && AllDigits(i + (g + Zeros(z))) && Dec(i + (g + Zeros(z))) == Dec(i + g) * Pow(10, z)
  {
    hide Pow, Dec;
    DecConcat(i, g);
    DecZeros(z);
    DecConcat(i + g, Zeros(z));
    assert i + (g + Zeros(z)) == i + g + Zeros(z);
  }

  /** A common power of ten cancels. */
  lemma Cancels(v: nat, j: nat, k: nat, d: nat)
    requires v * Pow(10, j + k) == d * Pow(10, k)
    ensures v * Pow(10, j) == d
  {
    hide Pow;
    PowAdd(10, j, k);
    MulThree(v, Pow(10, j), Pow(10, k));
    PowPositive(10, k);
    MulCancel(v * Pow(10, j), d, Pow(10, k));
  }

  lemma EndsInZero(s: string, v: nat, k: nat)
    requires AllDigits(s) && s != "" && k > 0 && v * Pow(10, k) == Dec(s)
    ensures s[|s| - 1] == '0'
  {
    var n := |s| - 1;
    DecAppend(s[..n], s[n]);
    assert s == s[..n] + [s[n]];
    MulTen(v, Pow(10, k - 1));
    DivOf(v * Pow(10, k - 1), 10, 0);
    DivOf(Dec(s[..n]), 10, s[n] as int - '0' as int);
  }

  lemma DenotesOne(s: string, v: nat, u: nat)
    requires Denotes(s, v) && Denotes(s, u)
    ensures v == u
  {
    PowPositive(10, |FracPart(s)|);
    MulCancel(v, u, Pow(10, |FracPart(s)|));
  }

  lemma DenotesShort(s: string, v: nat)
    requires Denotes(s, v)
    ensures |TrimRight(FracPart(s))| <= 8
  {
    hide Split, Pow, Dec, TrimRight;
    var f := FracPart(s);
    TrimRightIs(f);
    TrimRightDec(f);
    if |TrimRight(f)| > 8 {
      ExactEndsInZero(IntPart(s), f, TrimRight(f), v);
    }
  }

  lemma {:induction false} TrimmedSign(s: string)
    requires AllDigits(TrimLeft(s))
    ensures AllDigits(s)
    decreases |s|
  {
    if s != "" && s[0] == '0' {
      TrimmedSign(s[1..]);
      assert forall i :: 1 <= i < |s| ==> s[i] == s[1..][i - 1];
    }
  }

  predicate NoSign(s: string) { forall i :: 0 <= i < |s| ==> s[i] != '+' && s[i] != '-' }

  lemma ParsedDigits(s: string)
    requires NoSign(s) && ParseInt(s).Some?
    ensures AllDigits(s)
  {
  }

  lemma {:induction false} SplitNoSign(s: string)
    requires NoSign(s)
    ensures forall i :: 0 <= i < |Split(s)| ==> NoSign(Split(s)[i])
    decreases |s|
  {
    if s != "" {
      SplitNoSign(s[1..]);
    }
  }

  lemma {:induction false} TrimLeftNoSign(s: string)
    requires NoSign(s)
    ensures NoSign(TrimLeft(s))
    decreases |s|
  {
    if s != "" && s[0] == '0' {
      TrimLeftNoSign(s[1..]);
    }
  }

  /** Without a sign, only numerals are accepted. */
  lemma AcceptedIsNumeral(s: string, maxMass: MaxMass)
    requires NoSign(s) && StringToAmount(s, maxMass).Some?
    ensures Numeral(s)
  {
    hide ParseInt, TrimLeft, TrimRight, Split;
    SplitNoSign(s);
    var i := Split(s)[0];
    var t := TrimLeft(i);
    TrimLeftNoSign(i);
    if t != "" {
      ParsedDigits(t);
    }
    TrimmedSign(i);
    if |Split(s)| == 2 {
      var f := Split(s)[1];
      TrimRightIs(f);
      var g := TrimRight(f);
      assert NoSign(g) by {
        assert forall k :: 0 <= k < |g| ==> g[k] == f[k];
      }
      var padded := g + Zeros(8 - |g|);
      ParsedDigits(padded);
      assert forall k :: 0 <= k < |g| ==> padded[k] == g[k];
      assert AllDigits(g);
      AppendZeros(g, |f| - |g|);
    }
  }

  lemma AppendZeros(g: string, n: nat)
    requires AllDigits(g)
    ensures AllDigits(g + Zeros(n))
  {
  }

  /** Parsing a string without a sign is exact or refuses: it gives v exactly if the string is a numeral for v
      units and v is in range. */
  lemma ParseIsExact(s: string, v: nat, maxMass: MaxMass)
    requires NoSign(s)
    ensures StringToAmount(s, maxMass) == Some(v) <==> Denotes(s, v) && v <= MaxAmount(maxMass)
  {
    hide Split, StringToAmount, Denotes, Numeral;
    if StringToAmount(s, maxMass) == Some(v) {
      AcceptedIsNumeral(s, maxMass);
      ParseNumeral(s, maxMass);
      AmountDenotes(s);
    }
    if Denotes(s, v) && v <= MaxAmount(maxMass) {
      DenotesNumeral(s, v);
      DenotesShort(s, v);
      ParseNumeral(s, maxMass);
      AmountDenotes(s);
      DenotesOne(s, v, Amount(IntPart(s), TrimRight(FracPart(s))));
    }
  }

  lemma DenotesNumeral(s: string, v: nat)
    requires Denotes(s, v)
    ensures Numeral(s)
  {
  }

  // ---- printing ----

  /** The last k digits of a decimal form, and the digits before them. */
  lemma CutItoa(n: nat, k: nat)
    requires n >= Pow(10, k)
    ensures Pow(10, k) > 0 && |Itoa(n)| > k
    ensures
      var t := Itoa(n);
      var a, b := t[..|t| - k], t[|t| - k..];
      AllDigits(a) && AllDigits(b) && Dec(a) == n / Pow(10, k) && Dec(b) == n % Pow(10, k)
  {
    hide Pow, Dec, Itoa;
    PowPositive(10, k);
    ItoaLength(n, k);
    DecItoa(n);
    var t := Itoa(n);
    var a, b := t[..|t| - k], t[|t| - k..];
    assert t == a + b;
    DecConcat(a, b);
    DecBound(b);
    DivOf(Dec(a), Pow(10, k), Dec(b));
  }

  /** The digits of the fraction of m units, all eight of them. */
  ghost predicate Fraction(b: string, m: nat) { |b| == 8 && AllDigits(b) && Dec(b) == m % MAXWELL_PER_MASS }

  function Written(i: string, g: string): string { i + if |g| > 0 then "." + g else "" }

  lemma Printed(m: nat, maxMass: MaxMass) returns (b: string)
    requires m <= MaxAmount(maxMass)
    ensures Fraction(b, m)
    ensures AmountToString(m, maxMass) == Some(Written(Itoa(m / MAXWELL_PER_MASS), TrimRight(b)))
  {
    hide Dec, Itoa, TrimRight, ParseInt;
    Powers();
    CutItoa(m + MAXWELL_PER_MASS, 8);
    var t := Itoa(m + MAXWELL_PER_MASS);
    ParseDigits(t[..|t| - 8]);
    b := t[|t| - 8..];
  }

  lemma {:induction false} SplitPlain(s: string)
    requires forall i :: 0 <= i < |s| ==> s[i] != '.'
    ensures Split(s) == [s]
    decreases |s|
  {
    if s != "" {
      SplitPlain(s[1..]);
      assert [s[0]] + s[1..] == s;
    }
  }

  lemma {:induction false} SplitPoint(i: string, g: string)
    requires (forall k :: 0 <= k < |i| ==> i[k] != '.') && forall k :: 0 <= k < |g| ==> g[k] != '.'
    ensures Split(i + "." + g) == [i, g]
    decreases |i|
  {
    var s := i + "." + g;
    if i == "" {
      assert s[1..] == g;
      SplitPlain(g);
    } else {
      assert s[1..] == i[1..] + "." + g;
      SplitPoint(i[1..], g);
      assert [i[0]] + i[1..] == i;
    }
  }

  lemma {:induction false} SplitBack(s: string)
    ensures |Split(s)| == 1 ==> s == Split(s)[0]
    ensures |Split(s)| == 2 ==> s == Split(s)[0] + "." + Split(s)[1]
    decreases |s|
  {
    if s != "" {
      SplitBack(s[1..]);
      assert s == [s[0]] + s[1..];
    }
  }

  /** A numeral in the form the printer uses. */
  ghost predicate Canonical(s: string) {
    Numeral(s) && Plain(IntPart(s)) &&
    (|Split(s)| == 2 ==> 1 <= |FracPart(s)| <= 8 && FracPart(s)[|FracPart(s)| - 1] != '0')
  }

  lemma WrittenParts(i: string, g: string)
    requires AllDigits(i) && AllDigits(g)
    ensures Numeral(Written(i, g)) && IntPart(Written(i, g)) == i && FracPart(Written(i, g)) == g
    ensures |Split(Written(i, g))| == if |g| > 0 then 2 else 1
  {
    if |g| > 0 {
      SplitPoint(i, g);
      assert i + ("." + g) == i + "." + g;
    } else {
      SplitPlain(i);
      assert i + "" == i;
    }
  }

  lemma TrimRightTwice(s: string)
    requires s == "" || s[|s| - 1] != '0'
    ensures TrimRight(s) == s
  {
  }

  /** Parsing what is printed gives the amount back, and what is printed is canonical. */
  lemma RoundTrip(m: nat, maxMass: MaxMass)
    requires m <= MaxAmount(maxMass)
    ensures AmountToString(m, maxMass).Some?
    ensures StringToAmount(AmountToString(m, maxMass).value, maxMass) == Some(m)
    ensures Canonical(AmountToString(m, maxMass).value)
  {
    hide Dec, Itoa, TrimRight, Split, StringToAmount, AmountToString, Pow, Numeral;
    var b := Printed(m, maxMass);
    var i, g := Itoa(m / MAXWELL_PER_MASS), TrimRight(b);
    DecItoa(m / MAXWELL_PER_MASS);
    TrimRightIs(b);
    TrimRightDec(b);
    TrimRightTwice(g);
    WrittenParts(i, g);
    ParseNumeral(Written(i, g), maxMass);
    DivMod(m, MAXWELL_PER_MASS);
  }

  /** Amounts outside the range are not printed. */
  lemma PrintsInRange(m: int, maxMass: MaxMass)
    ensures AmountToString(m, maxMass).Some? <==> 0 <= m <= MaxAmount(maxMass)
  {
    if 0 <= m <= MaxAmount(maxMass) {
      RoundTrip(m, maxMass);
    }
  }

  lemma {:induction false} TrimRightZeros(s: string, n: nat)
    requires s == "" || s[|s| - 1] != '0'
    ensures TrimRight(s + Zeros(n)) == s
    decreases n
  {
    if n == 0 {
      assert s + Zeros(0) == s;
    } else {
      var t := s + Zeros(n);
      assert t[..|t| - 1] == s + Zeros(n - 1);
      TrimRightZeros(s, n - 1);
    }
  }

  lemma CanonicalFraction(f: string, b: string, q: nat)
    requires AllDigits(f) && |f| <= 8 && (f == "" || f[|f| - 1] != '0')
    requires Fraction(b, q * MAXWELL_PER_MASS + Dec(f) * Pow(10, 8 - |f|))
    ensures TrimRight(b) == f
    ensures (q * MAXWELL_PER_MASS + Dec(f) * Pow(10, 8 - |f|)) / MAXWELL_PER_MASS == q
  {
    hide Dec, TrimRight, Pow;
    var z := 8 - |f|;
    var t := f + Zeros(z);
    DecZeros(z);
    DecConcat(f, Zeros(z));
    DecBound(t);
    Powers();
    DivOf(q, MAXWELL_PER_MASS, Dec(t));
    DecUnique(b, t);
    TrimRightZeros(f, z);
  }

  /** Printing a parsed amount gives the canonical form: it is the string itself exactly if that is canonical. */
  lemma PrintParse(s: string, v: nat, maxMass: MaxMass)
    requires StringToAmount(s, maxMass) == Some(v)
    ensures AmountToString(v, maxMass) == Some(s) <==> Canonical(s)
  {
    hide Dec, Itoa, TrimRight, Split, StringToAmount, AmountToString, Pow, Numeral;
    ParsedInRange(s, v, maxMass);
    RoundTrip(v, maxMass);
    if Canonical(s) {
      var i, f := IntPart(s), FracPart(s);
      NumeralParts(s);
      FracOfOne(s);
      ParseNumeral(s, maxMass);
      TrimRightTwice(f);
      ItoaDec(i);
      var b := Printed(v, maxMass);
      CanonicalFraction(f, b, Dec(i));
      SplitBack(s);
      assert i + ("." + f) == i + "." + f && i + "" == i;
    }
  }

  lemma FracOfOne(s: string)
    requires Numeral(s)
    ensures |Split(s)| == 1 || |Split(s)| == 2
    ensures |Split(s)| == 1 ==> FracPart(s) == ""
  {
  }

  lemma ParsedInRange(s: string, v: nat, maxMass: MaxMass)
    requires StringToAmount(s, maxMass) == Some(v)
    ensures v <= MaxAmount(maxMass)
  {
    hide ParseInt, Split, TrimLeft, TrimRight;
  }

  /** With a sign the parser is not exact: the fraction of ".+1" is read as a signed number with zeros put after
      it, a hundredth of a coin. */
  lemma SignIsNotExact(maxMass: MaxMass)
    requires maxMass > 0
    ensures !Numeral(".+1") && StringToAmount(".+1", maxMass) == Some(1_000_000)
  {
    var s := ".+1";
    SplitPlain("+1");
    assert s[1..] == "+1";
    assert Split(s) == ["", "+1"];
    TrimRightTwice("+1");
    var padded := "+1" + Zeros(6);
    var digits := "1" + Zeros(6);
    assert padded[1..] == digits;
    DecZeros(6);
    DecAppend("", '1');
    assert "" + "1" == "1";
    DecConcat("1", Zeros(6));
    assert Pow(10, 3) == 1000;
    assert Pow(10, 6) == 1_000_000;
    ParseInteger("");
  }

  lemma HalfFraction()
    ensures TrimRight("5") == "5" && ParseInt("5" + Zeros(7)) == Some(50_000_000)
  {
    TrimRightTwice("5");
    DecAppend("", '5');
    assert "" + "5" == "5";
    ParseFraction("5");
    assert Pow(10, 4) == 10_000;
  }

  lemma MinusZero()
    ensures Split("-0.5") == ["-0", "5"] && TrimLeft("-0") == "-0" && ParseInt("-0") == Some(0)
  {
    SplitPoint("-0", "5");
    assert "-0" + "." + "5" == "-0.5";
    DecZeros(1);
    assert Zeros(1) == "0" && "-0"[1..] == "0";
  }

  /** Nor before the point: a minus sign in front of a zero is dropped, so minus one half is read as one half. */
  lemma MinusIsDropped(maxMass: MaxMass)
    requires maxMass > 0
    ensures !Numeral("-0.5") && StringToAmount("-0.5", maxMass) == Some(50_000_000)
  {
    HalfFraction();
    MinusZero();
    hide ParseInt, Split, TrimLeft, TrimRight, Zeros;
    assert !IsDigit("-0"[0]) && |"5"| == 1;
  }

  // ---------- every accepted string ----------

  /** What follows a sign, or the string itself. */
  function Magnitude(t: string): string { if t != "" && (t[0] == '+' || t[0] == '-') then t[1..] else t }

  predicate AllZeros(t: string) { forall i :: 0 <= i < |t| ==> t[i] == '0' }

  /** The integer part without leading zeros reads as a number that is not negative: digits, or a sign and at
      least one digit, all of them zero after a minus sign. */
  ghost predicate IntReads(t: string) {
    AllDigits(Magnitude(t)) && (Magnitude(t) == "" ==> t == "") && (t != "" && t[0] == '-' ==> AllZeros(Magnitude(t)))
  }

  /** The fraction without trailing zeros reads as such a number once it is padded to eight characters: digits,
      a plus sign and digits, or a minus sign alone. */
  ghost predicate FracReads(g: string) {
    |g| <= 8 && AllDigits(Magnitude(g)) && (g != "" && g[0] == '-' ==> AllZeros(Magnitude(g)))
  }

  function Read(t: string, g: string): nat
    requires AllDigits(Magnitude(t)) && AllDigits(Magnitude(g)) && |g| <= 8
  {
    Dec(Magnitude(t)) * MAXWELL_PER_MASS + Dec(Magnitude(g)) * Pow(10, 8 - |g|)
  }

  /** The strings the parser accepts, by the form of their parts. */
  ghost predicate Accepted(s: string, maxMass: MaxMass) {
    var t, g := TrimLeft(IntPart(s)), TrimRight(FracPart(s));
    |Split(s)| <= 2 && IntReads(t) && FracReads(g) && Read(t, g) <= MaxAmount(maxMass)
  }

  lemma {:induction false} ZeroDec(t: string)
    requires AllDigits(t)
    ensures Dec(t) == 0 <==> AllZeros(t)
    decreases |t|
  {
    if t != "" {
      var k := |t| - 1;
      assert t == t[..k] + [t[k]];
      DecAppend(t[..k], t[k]);
      ZeroDec(t[..k]);
    }
  }

  /** A string parses to a number that is not negative exactly if its magnitude is a number in range, zero after
      a minus sign. */
  lemma ParseIs(p: string)
    requires p != ""
    ensures ParseInt(p).Some? && ParseInt(p).value >= 0 <==>
            Magnitude(p) != "" && AllDigits(Magnitude(p)) && Dec(Magnitude(p)) <= MAX_INT64 &&
            (p[0] == '-' ==> AllZeros(Magnitude(p)))
    ensures ParseInt(p).Some? && ParseInt(p).value >= 0 ==> ParseInt(p).value == Dec(Magnitude(p))
  {
    if AllDigits(Magnitude(p)) {
      ZeroDec(Magnitude(p));
    }
  }

  lemma ParseIntegerEvery(t: string)
    ensures var i := ParseInt(if t == "" then "0" else t);
      (i.Some? && i.value >= 0 <==> IntReads(t) && Dec(Magnitude(t)) <= MAX_INT64) &&
      (i.Some? && i.value >= 0 ==> i.value == Dec(Magnitude(t)))
  {
    DecZeros(1);
    assert Zeros(1) == "0";
    ParseIs(if t == "" then "0" else t);
  }

  lemma PaddedMagnitude(g: string)
    requires |g| <= 8
    ensures var p := g + Zeros(8 - |g|);
      |p| == 8 && 1 <= |Magnitude(p)| <= 8 && (p[0] == '-' <==> g != "" && g[0] == '-') &&
      Magnitude(p) == Magnitude(g) + Zeros(8 - |g|)
  {
    var p := g + Zeros(8 - |g|);
    assert g != "" ==> p[1..] == g[1..] + Zeros(8 - |g|);
  }

  lemma ParseFractionEvery(g: string)
    requires |g| <= 8
    ensures var f := ParseInt(g + Zeros(8 - |g|));
      (f.Some? && f.value >= 0 <==> FracReads(g)) &&
      (FracReads(g) ==> f.value == Dec(Magnitude(g)) * Pow(10, 8 - |g|) < MAXWELL_PER_MASS)
  {
    hide Dec, Pow, ParseInt, Magnitude;
    var z := 8 - |g|;
    var p := g + Zeros(z);
    PaddedMagnitude(g);
    ParseIs(p);
    DecZeros(z);
    if AllDigits(Magnitude(g)) {
      DecConcat(Magnitude(g), Zeros(z));
      DecBound(Magnitude(p));
      PowMonotone(|Magnitude(p)|, 8);
      Powers();
      ZerosApart(Magnitude(g), z);
    } else {
      NotDigits(Magnitude(g), z);
    }
  }

  lemma ZerosApart(t: string, z: nat)
    ensures AllZeros(t + Zeros(z)) <==> AllZeros(t)
  {
    assert forall i :: 0 <= i < |t| ==> (t + Zeros(z))[i] == t[i];
  }

  lemma NotDigits(t: string, z: nat)
    requires !AllDigits(t)
    ensures !AllDigits(t + Zeros(z))
  {
    assert forall i :: 0 <= i < |t| ==> (t + Zeros(z))[i] == t[i];
  }

  /** What the parser does on every string. */
  lemma ParseEvery(s: string, maxMass: MaxMass)
    ensures StringToAmount(s, maxMass) ==
      if Accepted(s, maxMass) then Some(Read(TrimLeft(IntPart(s)), TrimRight(FracPart(s)))) else None
  {
    hide ParseInt, TrimLeft, TrimRight, AllDigits, AllZeros, Dec, Pow, Split, Magnitude, IntReads, FracReads, Zeros;
    assert TrimRight("") == "" by {
      TrimRightIs("");
    }
    var t, g := TrimLeft(IntPart(s)), TrimRight(FracPart(s));
    ParseIntegerEvery(t);
    if |g| <= 8 {
      ParseFractionEvery(g);
    }
    FracReadsShort(g);
    IntReadsDigits(t);
  }

  lemma FracReadsShort(g: string)
    ensures FracReads(g) ==> |g| <= 8 && AllDigits(Magnitude(g))
  {
  }

  lemma IntReadsDigits(t: string)
    ensures IntReads(t) ==> AllDigits(Magnitude(t))
  {
  }

  /** A numeral holds no sign. */
  lemma NumeralHasNoSign(s: string)
    requires Numeral(s)
    ensures NoSign(s)
  {
    hide Split;
    SplitBack(s);
  }

  /** The parser is exact, or refuses, on exactly these strings: those without a sign, and those it refuses. Every
      other string is accepted although it is no numeral. */
  lemma ExactOrRefuses(s: string, maxMass: MaxMass)
    ensures (forall v: nat :: StringToAmount(s, maxMass) == Some(v) <==> Denotes(s, v) && v <= MaxAmount(maxMass)) <==>
            NoSign(s) || !Accepted(s, maxMass)
  {
    hide StringToAmount, Split, Numeral, Accepted, Read, NoSign;
    ParseEvery(s, maxMass);
    if NoSign(s) {
      forall v: nat ensures StringToAmount(s, maxMass) == Some(v) <==> Denotes(s, v) && v <= MaxAmount(maxMass) {
        ParseIsExact(s, v, maxMass);
      }
    } else {
      assert !Numeral(s) by {
        if Numeral(s) {
          NumeralHasNoSign(s);
        }
      }
      forall v: nat ensures !Denotes(s, v) {
      }
    }
  }
}
