/** Mnemonic sentences (BIP-39): an encoder and two independent decoders over big integers. */
module Mnemonic {
  import opened Wrappers
  import opened Positional
  import opened Sentence

  type byte = n: nat | n < 256

  /** The word list and the reverse lookup built from it; hash gives the first byte of the checksum hash. */
  datatype Code = Code(list: seq<string>, index: map<string, nat>, hash: seq<byte> -> byte) {
    ghost predicate Valid() {
      |list| == 2048 && (forall i :: 0 <= i < |list| ==> IsWord(list[i]) && list[i] in index && index[list[i]] == i) &&
      forall w <- index :: index[w] < 2048 && list[index[w]] == w
    }
  }

  ghost predicate Distinct(list: seq<string>) { forall i, j :: 0 <= i < j < |list| ==> list[i] != list[j] }

  method SetWordList(list: seq<string>) returns (index: map<string, nat>)
    requires Distinct(list)
    ensures forall i :: 0 <= i < |list| ==> list[i] in index && index[list[i]] == i
    ensures forall w <- index :: index[w] < |list| && list[index[w]] == w
  {
    index := map[];
    for i := 0 to |list|
      invariant forall j :: 0 <= j < i ==> list[j] in index && index[list[j]] == j
      invariant forall w <- index :: index[w] < i && list[index[w]] == w
    {
      index := index[list[i] := i];
    }
  }

  function FromBytes(bs: seq<byte>): nat { Val(bs, 256) }

  /** The bytes of a number without leading zeros. */
  function ToBytes(n: nat): seq<byte> { if n == 0 then [] else ToBytes(n / 256) + [n % 256] }

  function Pad(bs: seq<byte>, length: nat): seq<byte> {
    if |bs| >= length then bs else seq(length - |bs|, i => 0) + bs
  }

  predicate ValidSize(n: nat) { n * 8 % 32 == 0 && 128 <= n * 8 <= 256 }

  /** The number of checksum bits for an entropy of n bytes. */
  function CheckBits(n: nat): nat { n / 4 }

  /** The first bits of the hash. */
  function Check(c: Code, entropy: seq<byte>): nat
    requires CheckBits(|entropy|) <= 8
  {
    PowPositive(2, 8 - CheckBits(|entropy|));
    c.hash(entropy) / Pow(2, 8 - CheckBits(|entropy|))
  }

  /** The entropy followed by its checksum bits, as a number. */
  function Checksummed(c: Code, entropy: seq<byte>): nat
    requires CheckBits(|entropy|) <= 8
  {
    FromBytes(entropy) * Pow(2, CheckBits(|entropy|)) + Check(c, entropy)
  }

  /** The words that stand for a number, eleven bits each. */
  function Words(c: Code, n: nat, count: nat): seq<string>
    requires |c.list| == 2048
  {
    var ds := Digits(n, count, 2048);
    DigitsBelow(n, count, 2048);
    seq(|ds|, i requires 0 <= i < |ds| => c.list[ds[i]])
  }

  /** The sentence for an entropy, as the standard defines it. */
  function Encode(c: Code, entropy: seq<byte>): seq<string>
    requires |c.list| == 2048 && ValidSize(|entropy|)
  {
    Words(c, Checksummed(c, entropy), 3 * CheckBits(|entropy|))
  }

  ghost predicate Encodes(c: Code, entropy: seq<byte>, words: seq<string>)
    requires |c.list| == 2048
  {
    ValidSize(|entropy|) && Encode(c, entropy) == words
  }

  /** The entropy a sentence stands for, if it is the sentence of some entropy. */
  ghost function Decode(c: Code, words: seq<string>): Option<seq<byte>>
    requires |c.list| == 2048
  {
    if exists entropy :: Encodes(c, entropy, words) then
      var entropy :| Encodes(c, entropy, words); Some(entropy)
    else None
  }

  // ---- bytes ----

  lemma BytesBelow(bs: seq<byte>)
    ensures Below(bs, 256)
  {
  }

  lemma {:induction false} ToBytesVal(n: nat)
    ensures FromBytes(ToBytes(n)) == n
  {
    if n > 0 {
      ToBytesVal(n / 256);
      ValAppend(ToBytes(n / 256), n % 256, 256);
    }
  }

  lemma {:induction false} PadDigits(n: nat, k: nat)
    requires n < Pow(256, k)
    ensures Pad(ToBytes(n), k) == Digits(n, k, 256)
    decreases k
  {
    if k > 0 {
      DivBelow(n, 256, Pow(256, k - 1));
      PadDigits(n / 256, k - 1);
      PadStep(n, k);
    }
  }

  lemma PadStep(n: nat, k: nat)
    requires k > 0
    ensures Pad(ToBytes(n), k) == Pad(ToBytes(n / 256), k - 1) + [n % 256]
  {
    if n == 0 {
      assert ToBytes(n) == [] && ToBytes(n / 256) == [];
    } else {
      assert ToBytes(n) == ToBytes(n / 256) + [n % 256];
    }
  }

  // ---- sizes ----

  lemma Powers()
    ensures Pow(2, 8) == 256 && Pow(2, 11) == 2048 && Pow(2, 1) == 2
  {
    assert Pow(2, 4) == 16;
    assert Pow(2, 8) == 256;
  }

  /** 4m bytes and m bits make 3m words of eleven bits. */
  lemma WordsHold(m: nat)
    ensures Pow(2048, 3 * m) == Pow(256, 4 * m) * Pow(2, m)
  {
    Powers();
    PowPow(2048, 11, 3 * m);
    PowPow(256, 8, 4 * m);
    PowAdd(2, 8 * (4 * m), m);
    assert 11 * (3 * m) == 8 * (4 * m) + m;
  }

  lemma CheckSize(c: Code, entropy: seq<byte>)
    requires CheckBits(|entropy|) <= 8
    ensures Check(c, entropy) < Pow(2, CheckBits(|entropy|))
  {
    var m := CheckBits(|entropy|);
    Powers();
    PowAdd(2, 8 - m, m);
    PowPositive(2, 8 - m);
    DivBelow(c.hash(entropy), Pow(2, 8 - m), Pow(2, m));
  }

  lemma JoinBelow(v: nat, x: nat, p: nat, q: nat)
    requires v < p && x < q
    ensures v * q + x < p * q
  {
    MulGap(q, v, p);
  }

  lemma ChecksummedSize(c: Code, entropy: seq<byte>)
    requires ValidSize(|entropy|)
    ensures CheckBits(|entropy|) <= 8 && Checksummed(c, entropy) < Pow(2048, 3 * CheckBits(|entropy|))
    ensures Checksummed(c, entropy) / Pow(2, CheckBits(|entropy|)) == FromBytes(entropy)
    ensures Checksummed(c, entropy) % Pow(2, CheckBits(|entropy|)) == Check(c, entropy)
  {
    hide Pow, Check, Val, Digits;
    var m := CheckBits(|entropy|);
    CheckSize(c, entropy);
    BytesBelow(entropy);
    DigitsVal(entropy, 256);
    WordsHold(m);
    JoinBelow(FromBytes(entropy), Check(c, entropy), Pow(256, 4 * m), Pow(2, m));
    DivOf(FromBytes(entropy), Pow(2, m), Check(c, entropy));
  }

  // ---- words ----

  ghost predicate Known(c: Code, words: seq<string>) { forall i :: 0 <= i < |words| ==> words[i] in c.index }

  function Indices(c: Code, words: seq<string>): seq<nat>
    requires Known(c, words)
  {
    seq(|words|, i requires 0 <= i < |words| => c.index[words[i]])
  }

  lemma WordsKnown(c: Code, n: nat, k: nat)
    requires c.Valid()
    ensures |Words(c, n, k)| == k && Known(c, Words(c, n, k)) && Indices(c, Words(c, n, k)) == Digits(n, k, 2048)
    ensures forall i :: 0 <= i < k ==> IsWord(Words(c, n, k)[i])
  {
    DigitsBelow(n, k, 2048);
  }

  /** Words and numbers determine each other. */
  lemma IndicesGiveWords(c: Code, words: seq<string>)
    requires c.Valid() && Known(c, words)
    ensures Val(Indices(c, words), 2048) < Pow(2048, |words|)
    ensures Words(c, Val(Indices(c, words), 2048), |words|) == words
  {
    hide Pow, Val;
    DigitsVal(Indices(c, words), 2048);
  }

  lemma WordsGiveNumber(c: Code, n: nat, k: nat)
    requires c.Valid() && n < Pow(2048, k)
    ensures Known(c, Words(c, n, k)) && Val(Indices(c, Words(c, n, k)), 2048) == n
  {
    WordsKnown(c, n, k);
    ValDigits(n, k, 2048);
  }

  // ---- bits ----

  /** The bits of an entropy, and then of its hash. */
  ghost function BitAt(c: Code, entropy: seq<byte>, p: nat): nat
    requires p < 8 * |entropy| + 8
  {
    if p < 8 * |entropy| then Bit(entropy[p / 8], 7 - p % 8) else Bit(c.hash(entropy), 7 - (p - 8 * |entropy|))
  }

  lemma EntropyBits(c: Code, entropy: seq<byte>, m: nat, p: nat)
    requires |entropy| == 4 * m && 4 <= m <= 8 && p < 33 * m
    ensures Bit(Checksummed(c, entropy), 33 * m - 1 - p) == BitAt(c, entropy, p)
  {
    hide Pow, Bit, Val, Check;
    var k := 33 * m - 1 - p;
    CheckSize(c, entropy);
    BitSplit(FromBytes(entropy), m, Check(c, entropy), k);
    if p < 32 * m {
      BytesBelow(entropy);
      Powers();
      ValBit(entropy, 8, k - m);
    } else {
      CheckIs(c, entropy, m);
      BitAfter(c.hash(entropy), 8 - m, k);
    }
  }

  lemma CheckIs(c: Code, entropy: seq<byte>, m: nat)
    requires |entropy| == 4 * m && m <= 8
    ensures Pow(2, 8 - m) > 0 && Check(c, entropy) == c.hash(entropy) / Pow(2, 8 - m)
  {
    PowPositive(2, 8 - m);
  }

  /** The sentence, bit by bit: the words hold the bits of the entropy and then the first bits of its hash, eleven
      bits a word, from the left. */
  lemma EncodeBits(c: Code, entropy: seq<byte>, p: nat)
    requires c.Valid() && ValidSize(|entropy|) && p < 8 * |entropy| + |entropy| / 4
    ensures var words := Encode(c, entropy);
      |words| * 11 == 8 * |entropy| + |entropy| / 4 && words[p / 11] in c.index &&
      Bit(c.index[words[p / 11]], 10 - p % 11) ==
      if p < 8 * |entropy| then Bit(entropy[p / 8], 7 - p % 8) else Bit(c.hash(entropy), 7 - (p - 8 * |entropy|))
  {
    hide Pow, Bit, Val, Encode, Checksummed, Check;
    var words, m := Encode(c, entropy), CheckBits(|entropy|);
    EncodeSize(c, entropy);
    EntropyBits(c, entropy, m, p);
    IndicesBelow(c, words);
    Powers();
    ValBit(Indices(c, words), 11, 33 * m - 1 - p);
  }

  lemma IndicesBelow(c: Code, words: seq<string>)
    requires c.Valid() && Known(c, words)
    ensures Below(Indices(c, words), 2048)
  {
  }

  // ---- decoding ----

  lemma EncodeSize(c: Code, entropy: seq<byte>)
    requires c.Valid() && ValidSize(|entropy|)
    ensures |Encode(c, entropy)| == 3 * CheckBits(|entropy|) && |entropy| == 4 * CheckBits(|entropy|)
    ensures 4 <= CheckBits(|entropy|) <= 8
    ensures Known(c, Encode(c, entropy)) && Val(Indices(c, Encode(c, entropy)), 2048) == Checksummed(c, entropy)
    ensures forall i :: 0 <= i < |Encode(c, entropy)| ==> IsWord(Encode(c, entropy)[i])
  {
    hide Pow, Val, Checksummed, Words, Indices, Known;
    ChecksummedSize(c, entropy);
    var m := CheckBits(|entropy|);
    WordsKnown(c, Checksummed(c, entropy), 3 * m);
    WordsGiveNumber(c, Checksummed(c, entropy), 3 * m);
  }

  /** Different entropies have different sentences. */
  lemma EncodeInjective(c: Code, e: seq<byte>, f: seq<byte>)
    requires c.Valid() && ValidSize(|e|) && ValidSize(|f|) && Encode(c, e) == Encode(c, f)
    ensures e == f
  {
    hide Pow, Checksummed, Encode, Val, Known, Indices;
    EncodeSize(c, e);
    EncodeSize(c, f);
    ChecksummedSize(c, e);
    ChecksummedSize(c, f);
    BytesBelow(e);
    BytesBelow(f);
    ValUnique(e, f, 256);
  }

  /** Encoding what a sentence decodes to gives the same words. */
  lemma EncodeDecode(c: Code, words: seq<string>, entropy: seq<byte>)
    requires c.Valid() && Decode(c, words) == Some(entropy)
    ensures ValidSize(|entropy|) && Encode(c, entropy) == words
  {
  }

  /** Decoding the encoding of an entropy gives it back, leading zero bytes included. */
  lemma DecodeEncode(c: Code, entropy: seq<byte>)
    requires c.Valid() && ValidSize(|entropy|)
    ensures Decode(c, Fields(Join(Encode(c, entropy)))) == Some(entropy)
  {
    hide Encode, Fields, Join, Known, Indices;
    EncodeSize(c, entropy);
    FieldsJoin(Encode(c, entropy));
    var words := Encode(c, entropy);
    assert Encodes(c, entropy, words);
    var other := Decode(c, words).value;
    EncodeDecode(c, words, other);
    EncodeInjective(c, entropy, other);
  }

  lemma Undecodable(c: Code, words: seq<string>)
    requires c.Valid()
    requires !Known(c, words) || |words| % 3 != 0 || !(12 <= |words| <= 24)
    ensures Decode(c, words) == None
  {
    hide Encode, Indices, Known;
    forall e: seq<byte> | ValidSize(|e|) ensures Encode(c, e) != words {
      EncodeSize(c, e);
    }
  }

  lemma EncodeNumber(c: Code, words: seq<string>, m: nat, n: nat, e: seq<byte>)
    requires |c.list| == 2048 && 4 <= m <= 8 && |e| == 4 * m && Pow(2, m) > 0 && Words(c, n, 3 * m) == words
    requires FromBytes(e) == n / Pow(2, m) && Check(c, e) == n % Pow(2, m)
    ensures Encodes(c, e, words)
  {
    hide Pow, Val, Words;
    DivMod(n, Pow(2, m));
    assert CheckBits(|e|) == m;
    MulSwap(FromBytes(e), Pow(2, m));
  }

  lemma SameNumber(c: Code, words: seq<string>, m: nat, n: nat, e: seq<byte>, f: seq<byte>)
    requires c.Valid() && Known(c, words) && |words| == 3 * m && n == Val(Indices(c, words), 2048)
    requires |e| == 4 * m && Pow(2, m) > 0 && FromBytes(e) == n / Pow(2, m) && 4 <= m <= 8
    requires Encodes(c, f, words)
    ensures f == e && n % Pow(2, m) == Check(c, f)
  {
    hide Pow, Val, Checksummed, Encode, Known, Indices, Check;
    EncodeSize(c, f);
    ChecksummedSize(c, f);
    BytesBelow(e);
    BytesBelow(f);
    ValUnique(e, f, 256);
  }

  /** A sentence of known words decodes to the leading bits of its number if the rest are their checksum, and to
      nothing otherwise. */
  lemma DecodeNumber(c: Code, words: seq<string>, m: nat, n: nat, e: seq<byte>)
    requires c.Valid() && Known(c, words) && |words| == 3 * m && 4 <= m <= 8
    requires n == Val(Indices(c, words), 2048)
    requires Pow(2, m) > 0 && e == Digits(n / Pow(2, m), 4 * m, 256)
    ensures |e| == 4 * m && ValidSize(|e|) && FromBytes(e) == n / Pow(2, m)
    ensures Decode(c, words) == if n % Pow(2, m) == Check(c, e) then Some(e) else None
  {
    hide Pow, Val, Digits, Check, Known, Indices, Encode;
    IndicesGiveWords(c, words);
    WordsHold(m);
    MulSwap(Pow(256, 4 * m), Pow(2, m));
    DivBelow(n, Pow(2, m), Pow(256, 4 * m));
    ValDigits(n / Pow(2, m), 4 * m, 256);
    DigitsBelow(n / Pow(2, m), 4 * m, 256);
    forall f: seq<byte> | Encodes(c, f, words) ensures n % Pow(2, m) == Check(c, e) {
      SameNumber(c, words, m, n, e, f);
    }
    if n % Pow(2, m) == Check(c, e) {
      EncodeNumber(c, words, m, n, e);
      EncodeDecode(c, words, Decode(c, words).value);
      EncodeInjective(c, e, Decode(c, words).value);
    }
  }

  // ---- the encoder and the decoders ----

  lemma PowStep(k: nat)
    ensures Pow(2, k + 1) == 2 * Pow(2, k) && Pow(2, k) > 0
  {
    PowPositive(2, k);
  }

  /** One more bit of the hash, after i of them. */
  lemma NextBit(h: nat, i: nat)
    requires i < 8
    ensures Pow(2, 7 - i) > 0 && Pow(2, 8 - i) > 0
    ensures h / Pow(2, 7 - i) == 2 * (h / Pow(2, 8 - i)) + (if BitAnd(h, Pow(2, 7 - i)) > 0 then 1 else 0)
  {
    hide BitAnd, Pow;
    PowStep(7 - i);
    AndBit(h, 7 - i);
    HalfDiv(h, Pow(2, 7 - i));
  }

  lemma HashShort(h: nat)
    requires h < 256
    ensures Pow(2, 8) > 0 && h / Pow(2, 8) == 0
  {
    Powers();
  }

  lemma Doubled(v: nat, i: nat, x: nat, bit: nat)
    requires bit < 2
    ensures v * Pow(2, i + 1) + (2 * x + bit) == 2 * (v * Pow(2, i) + x) + bit
  {
    assert v * Pow(2, i + 1) == 2 * (v * Pow(2, i));
  }

  method AddChecksum(c: Code, data: seq<byte>) returns (r: seq<byte>)
    requires CheckBits(|data|) <= 8
    ensures r == ToBytes(Checksummed(c, data))
  {
    hide BitAnd, BitOr, Pow, Val, ToBytes;
    var firstChecksumByte := c.hash(data);
    var checksumBitLength := CheckBits(|data|);
    var dataBigInt := FromBytes(data);
    HashShort(firstChecksumByte);
    PowZero();
    for i := 0 to checksumBitLength
      invariant Pow(2, 8 - i) > 0
      invariant dataBigInt == FromBytes(data) * Pow(2, i) + firstChecksumByte / Pow(2, 8 - i)
    {
      NextBit(firstChecksumByte, i);
      ghost var bit := if BitAnd(firstChecksumByte, Pow(2, 7 - i)) > 0 then 1 else 0;
      Doubled(FromBytes(data), i, firstChecksumByte / Pow(2, 8 - i), bit);
      OrOne(dataBigInt);
      dataBigInt := dataBigInt * 2;
      if BitAnd(firstChecksumByte, Pow(2, 7 - i)) > 0 {
        dataBigInt := BitOr(dataBigInt, 1);
      }
    }
    return ToBytes(dataBigInt);
  }

  lemma PowZero()
    ensures Pow(2, 0) == 1
  {
  }

  lemma OrOne(x: nat)
    ensures BitOr(x * 2, 1) == x * 2 + 1
  {
    Powers();
    OrShift(x, 1, 1);
  }

  lemma And2047(x: nat)
    ensures BitAnd(x, 2047) == x % 2048
  {
    Powers();
    AndMask(x, 11);
  }

  lemma Or2048(x: nat, y: nat)
    requires y < 2048
    ensures BitOr(x * 2048, y) == x * 2048 + y
  {
    Powers();
    OrShift(x, 11, y);
  }

  /** The number in two bytes, most significant first. */
  function Uint16(bs: seq<byte>): nat
    requires |bs| == 2
  {
    (bs[0] as nat) * 256 + bs[1]
  }

  function PutUint16(n: nat): seq<byte>
    requires n < 65536
  {
    [n / 256, n % 256]
  }

  lemma LastDigit(n: nat, i: nat, b: nat)
    requires b > 0
    ensures Digits(n, i + 1, b) == Digits(n / b, i, b) + [n % b] && |Digits(n / b, i, b)| == i
  {
    DigitsBelow(n / b, i, b);
  }

  lemma TwoBytes(n: nat)
    requires n < 65536
    ensures |Pad(ToBytes(n), 2)| == 2 && Uint16(Pad(ToBytes(n), 2)) == n
    ensures FromBytes(PutUint16(n)) == n
  {
    hide Pow, Val, ToBytes, Pad, Digits;
    TwoDigits(n);
    PadDigits(n, 2);
    ValTwo(n / 256, n % 256);
  }

  lemma TwoDigits(n: nat)
    requires n < 65536
    ensures n < Pow(256, 2) && Digits(n, 2, 256) == [n / 256, n % 256]
  {
    LastDigit(n, 1, 256);
    LastDigit(n / 256, 0, 256);
    assert Pow(256, 1) == 256;
  }

  lemma ValTwo(a: nat, b: nat)
    ensures Val([a, b], 256) == a * 256 + b
  {
    assert [a, b] == [] + [a] + [b];
    ValAppend([] + [a], b, 256);
    ValAppend([], a, 256);
  }

  lemma EncodeIs(c: Code, entropy: seq<byte>, words: seq<string>)
    requires c.Valid() && ValidSize(|entropy|)
    requires words == Words(c, Checksummed(c, entropy), 3 * CheckBits(|entropy|))
    ensures words == Encode(c, entropy)
  {
  }

  method NewMnemonic(c: Code, entropy: seq<byte>) returns (r: Option<string>)
    requires c.Valid()
    ensures r.Some? <==> |entropy| in {16, 20, 24, 28, 32}
    ensures r.Some? ==> SingleSpaced(r.value) && Fields(r.value) == Encode(c, entropy)
    ensures r == if ValidSize(|entropy|) then Some(Join(Encode(c, entropy))) else None
  {
    hide BitAnd, Pow, Val, Check, ToBytes, Pad, Join, Digits, Uint16, Checksummed, Encode, Fields, SingleSpaced,
         Indices, Known;
    var sentenceLength := (|entropy| * 8 + |entropy| * 8 / 32) / 11;
    if !ValidSize(|entropy|) {
      return None;
    }
    SentenceLength(|entropy|);
    ghost var number := Checksummed(c, entropy);
    var checked := AddChecksum(c, entropy);
    ToBytesVal(number);
    var words := new string[sentenceLength](i => "");
    Chunk(c, FromBytes(checked), words);
    EncodeIs(c, entropy, words[..]);
    EncodeSize(c, entropy);
    FieldsJoin(words[..]);
    JoinIsSingleSpaced(words[..]);
    return Some(Join(words[..]));
  }

  lemma SentenceLength(n: nat)
    requires ValidSize(n)
    ensures (n * 8 + n * 8 / 32) / 11 == 3 * CheckBits(n)
  {
  }

  /** Break a number up into chunks of eleven bits, the last one first. */
  method Chunk(c: Code, n: nat, words: array<string>)
    requires c.Valid()
    modifies words
    ensures words[..] == Words(c, n, words.Length)
  {
    hide BitAnd, ToBytes, Pad, Digits, Uint16;
    var entropyInt := n;
    ghost var count := words.Length;
    ghost var ds := Digits(n, count, 2048);
    DigitsBelow(n, count, 2048);
    assert ds[..count] == ds;
    for i := words.Length downto 0
      invariant ds[..i] == Digits(entropyInt, i, 2048)
      invariant forall j :: i <= j < count ==> words[j] == c.list[ds[j]]
    {
      And2047(entropyInt);
      LastDigit(entropyInt, i, 2048);
      LastOf(ds, i, Digits(entropyInt / 2048, i, 2048), entropyInt % 2048);
      var word := BitAnd(entropyInt, 2047);
      entropyInt := entropyInt / 2048;
      TwoBytes(word);
      words[i] := c.list[Uint16(Pad(ToBytes(word), 2))];
    }
  }

  lemma LastOf(ds: seq<nat>, i: nat, init: seq<nat>, last: nat)
    requires i < |ds| && ds[..i + 1] == init + [last] && |init| == i
    ensures ds[..i] == init && ds[i] == last
  {
    assert ds[..i + 1][..i] == ds[..i];
    assert ds[..i + 1][i] == ds[i];
  }

  datatype Result = InvalidMnemonic | InvalidWord | ChecksumIncorrect | Decoded(bytes: seq<byte>)

  /** The masks and shifts that single out the checksum bits, by number of words. */
  function ChecksumMask(count: nat): nat
    requires count in {12, 15, 18, 21, 24}
  {
    if count == 12 then 15 else if count == 15 then 31 else if count == 18 then 63 else if count == 21 then 127 else 255
  }

  function ChecksumShift(count: nat): (r: nat)
    requires count in {12, 15, 18, 21}
    ensures r > 0
  {
    if count == 12 then 16 else if count == 15 then 8 else if count == 18 then 4 else 2
  }

  lemma MaskAndShift(m: nat)
    requires 4 <= m <= 8
    ensures ChecksumMask(3 * m) == Pow(2, m) - 1
    ensures m < 8 ==> ChecksumShift(3 * m) == Pow(2, 8 - m)
    ensures m == 8 ==> Pow(2, 8 - m) == 1
  {
    assert Pow(2, 2) == 4;
    assert Pow(2, 4) == 16;
    assert Pow(2, 6) == 64;
    assert Pow(2, 8) == 256;
  }

  lemma NextIndex(c: Code, words: seq<string>, i: nat)
    requires c.Valid() && i < |words| && Known(c, words[..i + 1])
    ensures Known(c, words[..i]) && c.index[words[i]] < 2048
    ensures Val(Indices(c, words[..i + 1]), 2048) == Val(Indices(c, words[..i]), 2048) * 2048 + c.index[words[i]]
  {
    assert forall j :: 0 <= j <= i ==> words[..i + 1][j] == words[j];
    assert forall j :: 0 <= j < i ==> words[..i][j] == words[j];
    assert Indices(c, words[..i + 1]) == Indices(c, words[..i]) + [c.index[words[i]]];
    ValAppend(Indices(c, words[..i]), c.index[words[i]], 2048);
  }

  lemma KnownNext(c: Code, words: seq<string>, i: nat)
    requires i < |words| && Known(c, words[..i])
    ensures words[i] in c.index <==> Known(c, words[..i + 1])
    ensures words[i] !in c.index ==> !Known(c, words)
  {
    assert forall j :: 0 <= j < i ==> words[..i][j] == words[j];
    assert forall j :: 0 <= j <= i ==> words[..i + 1][j] == words[j];
  }

  method EntropyFromMnemonic(c: Code, mnemonic: string) returns (r: Result)
    requires c.Valid()
    ensures Decode(c, Fields(mnemonic)) == if r.Decoded? then Some(r.bytes) else None
  {
    hide BitAnd, BitOr, Pow, Val, Fields, Known, Indices, ToBytes, Pad, Digits, Encode, PutUint16, ChecksumMask,
         ChecksumShift, Decode, IsWord, Uint16;
    var words := Fields(mnemonic);
    if |words| % 3 != 0 || |words| < 12 || |words| > 24 {
      Undecodable(c, words);
      return InvalidMnemonic;
    }
    var b := 0;
    NoWords(c, words);
    for i := 0 to |words|
      invariant Known(c, words[..i]) && b == Val(Indices(c, words[..i]), 2048)
    {
      KnownNext(c, words, i);
      if words[i] !in c.index {
        Undecodable(c, words);
        return InvalidWord;
      }
      NextIndex(c, words, i);
      var index := c.index[words[i]];
      TwoBytes(index);
      Or2048(b, index);
      b := BitOr(b * 2048, FromBytes(PutUint16(index)));
    }
    assert words[..|words|] == words;
    ghost var m := |words| / 3;
    MaskAndShift(m);
    AndMask(b, m);
    var checksumMask := ChecksumMask(|words|);
    var checksum := BitAnd(b, checksumMask);
    ghost var n := b;
    NumberFits(c, words, m, n);
    b := b / (checksumMask + 1);
    PadDigits(b, 4 * m);
    var entropy := Pad(ToBytes(b), |words| / 3 * 4);
    DecodeNumber(c, words, m, n, entropy);
    var entropyChecksum: nat := c.hash(entropy);
    if |words| != 24 {
      entropyChecksum := entropyChecksum / ChecksumShift(|words|);
    }
    if checksum != entropyChecksum {
      return ChecksumIncorrect;
    }
    return Decoded(entropy);
  }

  lemma NoWords(c: Code, words: seq<string>)
    ensures Known(c, words[..0]) && Val(Indices(c, words[..0]), 2048) == 0
  {
  }

  lemma NumberFits(c: Code, words: seq<string>, m: nat, n: nat)
    requires c.Valid() && Known(c, words) && |words| == 3 * m && n == Val(Indices(c, words), 2048)
    ensures Pow(2, m) > 0 && n / Pow(2, m) < Pow(256, 4 * m) && n < Pow(2, m) * Pow(256, 4 * m)
  {
    hide Pow, Val, Indices, Known;
    PowPositive(2, m);
    IndicesGiveWords(c, words);
    WordsHold(m);
    MulSwap(Pow(256, 4 * m), Pow(2, m));
    DivBelow(n, Pow(2, m), Pow(256, 4 * m));
  }

  /** The second decoder rebuilds the whole checksummed number from the leading bits and compares bytes. Without
      raw it returns the checksummed bytes. */
  method MnemonicToByteArray(c: Code, mnemonic: string, raw: bool) returns (r: Result)
    requires c.Valid()
    ensures r.Decoded? <==> Decode(c, Fields(mnemonic)).Some?
    ensures r.Decoded? && raw ==> Decode(c, Fields(mnemonic)) == Some(r.bytes)
    ensures r.Decoded? && !raw ==>
      var entropy := Decode(c, Fields(mnemonic)).value;
      CheckBits(|entropy|) <= 8 && |r.bytes| == |entropy| + 1 && FromBytes(r.bytes) == Checksummed(c, entropy)
  {
    hide Pow, Val, Fields, Known, Indices, ToBytes, Pad, Digits, Encode, Decode, TrimSpace, Checksummed;
    var words := Fields(TrimSpace(mnemonic));
    FieldsTrimSpace(mnemonic);
    var entropyBitSize := |words| * 11;
    var checksumBitSize := entropyBitSize % 32;
    var fullByteSize := (entropyBitSize - checksumBitSize) / 8 + 1;
    var checksumByteSize := fullByteSize - fullByteSize % 4;
    var valid := IsMnemonicValid(c, mnemonic);
    if !valid {
      Undecodable(c, words);
      return InvalidMnemonic;
    }
    var checksummed := Number(c, words);
    ghost var m := |words| / 3;
    Sizes(m);
    NumberFits(c, words, m, checksummed);
    var rawEntropy := checksummed / Pow(2, checksumBitSize);
    PadDigits(rawEntropy, 4 * m);
    var rawEntropyBytes := Pad(ToBytes(rawEntropy), checksumByteSize);
    DecodeNumber(c, words, m, checksummed, rawEntropyBytes);
    var checksummedBytes := Pad(ToBytes(checksummed), fullByteSize);
    var added := AddChecksum(c, rawEntropyBytes);
    SameBytes(c, m, checksummed, rawEntropyBytes);
    if checksummedBytes != Pad(added, fullByteSize) {
      return ChecksumIncorrect;
    }
    return Decoded(if raw then rawEntropyBytes else checksummedBytes);
  }

  lemma Sizes(m: nat)
    requires 4 <= m <= 8
    ensures
      var bits := 3 * m * 11;
      var full := (bits - bits % 32) / 8 + 1;
      bits % 32 == m && full == 4 * m + 1 && full - full % 4 == 4 * m
  {
  }

  /** The padded checksummed bytes agree exactly if the last bits are the checksum of the others. */
  lemma SameBytes(c: Code, m: nat, n: nat, e: seq<byte>)
    requires 4 <= m <= 8 && |e| == 4 * m && Pow(2, m) > 0 && n < Pow(2, m) * Pow(256, 4 * m)
    requires FromBytes(e) == n / Pow(2, m)
    ensures Pad(ToBytes(n), 4 * m + 1) == Pad(ToBytes(Checksummed(c, e)), 4 * m + 1) <==> n % Pow(2, m) == Check(c, e)
    ensures |Pad(ToBytes(n), 4 * m + 1)| == 4 * m + 1 && FromBytes(Pad(ToBytes(n), 4 * m + 1)) == n
    ensures n == Checksummed(c, e) <==> n % Pow(2, m) == Check(c, e)
  {
    hide Pow, Val, ToBytes, Pad, Digits, Checksummed;
    var k := 4 * m + 1;
    ChecksummedSize(c, e);
    OneMoreByte(m);
    MulGrow(Pow(2, m), 256, Pow(256, 4 * m));
    WordsHold(m);
    MulSwap(Pow(256, 4 * m), Pow(2, m));
    PadDigits(n, k);
    PadDigits(Checksummed(c, e), k);
    ValDigits(n, k, 256);
    ValDigits(Checksummed(c, e), k, 256);
    DigitsBelow(n, k, 256);
    DivMod(n, Pow(2, m));
    DivMod(Checksummed(c, e), Pow(2, m));
  }

  lemma OneMoreByte(m: nat)
    requires m <= 8
    ensures Pow(256, 4 * m + 1) == 256 * Pow(256, 4 * m) && Pow(2, m) <= 256
  {
    Powers();
    PowAdd(2, m, 8 - m);
    PowPositive(2, 8 - m);
    MulGrow(1, Pow(2, 8 - m), Pow(2, m));
    MulSwap(Pow(2, m), Pow(2, 8 - m));
  }

  lemma MulGrow(p: nat, q: nat, x: nat)
    requires p <= q
    ensures p * x <= q * x
  {
  }

  method IsMnemonicValid(c: Code, mnemonic: string) returns (valid: bool)
    ensures valid <==>
      Known(c, Fields(mnemonic)) && |Fields(mnemonic)| % 3 == 0 && 12 <= |Fields(mnemonic)| <= 24
  {
    var words := Fields(mnemonic);
    if |words| % 3 != 0 || |words| < 12 || |words| > 24 {
      return false;
    }
    for i := 0 to |words|
      invariant forall j :: 0 <= j < i ==> words[j] in c.index
    {
      if words[i] !in c.index {
        return false;
      }
    }
    return true;
  }

  method Number(c: Code, words: seq<string>) returns (n: nat)
    requires c.Valid() && Known(c, words)
    ensures n == Val(Indices(c, words), 2048)
  {
    hide Pow, Val, Indices;
    n := 0;
    NoWords(c, words);
    for i := 0 to |words|
      invariant Known(c, words[..i]) && n == Val(Indices(c, words[..i]), 2048)
    {
      KnownNext(c, words, i);
      NextIndex(c, words, i);
      n := n * 2048;
      n := n + c.index[words[i]];
    }
    assert words[..|words|] == words;
  }

  /** The two decoders accept the same sentences and return the same bytes. */
  method BothDecoders(c: Code, mnemonic: string) returns (first: Result, second: Result)
    requires c.Valid()
    ensures first.Decoded? <==> second.Decoded?
    ensures first.Decoded? ==> first == second
  {
    hide Decode, Fields;
    first := EntropyFromMnemonic(c, mnemonic);
    second := MnemonicToByteArray(c, mnemonic, true);
  }

  /** A sentence made from an entropy decodes to it. */
  method RoundTrip(c: Code, entropy: seq<byte>) returns (r: Result)
    requires c.Valid() && ValidSize(|entropy|)
    ensures r == Decoded(entropy)
  {
    hide Decode, Fields, Join, Encode;
    var sentence := NewMnemonic(c, entropy);
    DecodeEncode(c, entropy);
    r := EntropyFromMnemonic(c, sentence.value);
  }

  /** Encoding the entropy of an accepted sentence gives its words again, with single spaces between them: if they
      were single before, it gives the sentence itself, character by character. */
  method Reencode(c: Code, mnemonic: string) returns (first: Result, sentence: Option<string>)
    requires c.Valid()
    ensures first.Decoded? ==>
      sentence.Some? && SingleSpaced(sentence.value) && Fields(sentence.value) == Fields(mnemonic)
    ensures first.Decoded? && SingleSpaced(mnemonic) ==> sentence == Some(mnemonic)
    ensures !first.Decoded? ==> sentence == None
    ensures first.Decoded? <==> exists entropy :: Encodes(c, entropy, Fields(mnemonic))
  {
    hide Fields, Join, Encode, SingleSpaced;
    first := EntropyFromMnemonic(c, mnemonic);
    sentence := None;
    if first.Decoded? {
      EncodeDecode(c, Fields(mnemonic), first.bytes);
      sentence := NewMnemonic(c, first.bytes);
      if SingleSpaced(mnemonic) {
        JoinFields(mnemonic);
      }
    }
  }
}
