/** The transaction history: windows of blocks are read from the tip downward until enough transactions are
    found. */
module History {
  import opened Sequences

  const BLOCK_BATCH: nat := 500
  const TX_HISTORY_MAX: nat := 200

  /** The start positions of the related transactions in each block, by height. */
  type Related = map<nat, seq<nat>>

  function At(m: Related, h: nat): seq<nat> { if h in m then m[h] else [] }

  /** How many transactions m holds at heights lo to hi - 1. */
  function CountIn(m: Related, lo: nat, hi: nat): nat {
    if lo >= hi then 0 else CountIn(m, lo, hi - 1) + |At(m, hi - 1)|
  }

  lemma {:induction false} CountSplit(m: Related, lo: nat, mid: nat, hi: nat)
    requires lo <= mid <= hi
    ensures CountIn(m, lo, hi) == CountIn(m, lo, mid) + CountIn(m, mid, hi)
    decreases hi
  {
    if mid < hi {
      CountSplit(m, lo, mid, hi - 1);
    }
  }

  lemma {:induction false} CountSame(m: Related, n: Related, lo: nat, hi: nat)
    requires forall h | lo <= h < hi :: |At(m, h)| == |At(n, h)|
    ensures CountIn(m, lo, hi) == CountIn(n, lo, hi)
    decreases hi
  {
    if lo < hi {
      CountSame(m, n, lo, hi - 1);
    }
  }

  lemma CountNone(m: Related, lo: nat, hi: nat)
    requires forall h | lo <= h < hi :: At(m, h) == []
    ensures CountIn(m, lo, hi) == 0
  {
    CountSame(m, map[], lo, hi);
    NoneIn(lo, hi);
  }

  lemma {:induction false} NoneIn(lo: nat, hi: nat)
    ensures CountIn(map[], lo, hi) == 0
    decreases hi
  {
    if lo < hi {
      NoneIn(lo, hi - 1);
    }
  }

  /** s holds transactions of a block, none of them before one left out. */
  ghost predicate Latest(s: seq<nat>, all: seq<nat>) {
    multiset(s) <= multiset(all) && forall t <- multiset(s), u <- multiset(all) - multiset(s) :: t >= u
  }

  lemma LatestNone(all: seq<nat>)
    ensures Latest([], all)
  {
  }

  /** Everything above height c is selected, nothing below it, and the latest of height c. */
  ghost predicate Cut(sel: Related, all: Related, lo: nat, hi: nat, c: nat) {
    forall h | lo <= h < hi ::
      (h > c ==> At(sel, h) == At(all, h)) && (h < c ==> At(sel, h) == []) && (h == c ==>
        Latest(At(sel, h), At(all, h)))
  }

  /** A selection of min(n, total) transactions of heights 1 to best, each at least as recent as every
      one left out. */
  ghost predicate MostRecent(sel: Related, all: Related, best: nat, n: nat) {
    (forall h <- sel :: 1 <= h <= best && multiset(sel[h]) <= multiset(At(all, h))) &&
    CountIn(sel, 1, best + 1) == Min(n, CountIn(all, 1, best + 1)) &&
    forall h, g, t, u | 1 <= h <= best && 1 <= g <= best && t in multiset(At(sel, h)) &&
      u in multiset(At(all, g)) - multiset(At(sel, g)) :: Later(h, t, g, u)
  }

  predicate Later(h: nat, t: nat, g: nat, u: nat) { h > g || (h == g && t >= u) }

  function Min(a: nat, b: nat): nat { if a < b then a else b }

  lemma CutIsMostRecent(sel: Related, all: Related, best: nat, n: nat, c: nat)
    requires Cut(sel, all, 1, best + 1, c) && (forall h <- sel :: 1 <= h <= best)
    requires CountIn(sel, 1, best + 1) == Min(n, CountIn(all, 1, best + 1))
    ensures MostRecent(sel, all, best, n)
  {
    forall h, g, t, u | 1 <= h <= best && 1 <= g <= best && t in multiset(At(sel, h)) &&
      u in multiset(At(all, g)) - multiset(At(sel, g))
      ensures Later(h, t, g, u)
    {
      assert h >= c && g <= c;
    }
  }

  /** Heights in ascending order, one for each block with related transactions. */
  datatype Sorted = Sorted(heights: seq<nat>, data: Related)

  ghost predicate Ascending(s: seq<nat>) { forall i, j :: 0 <= i < j < |s| ==> s[i] < s[j] }

  ghost predicate Listed(heights: seq<nat>, data: Related) { forall h :: h in heights <==> h in data }

  /** What the chain database returns for a window. */
  ghost predicate Window(w: Sorted, chain: Related, lo: nat, hi: nat) {
    Ascending(w.heights) && Listed(w.heights, w.data) && (forall h <- w.data :: lo <= h < hi) &&
    forall h | lo <= h < hi :: At(w.data, h) == At(chain, h)
  }

  method FetchRelatedTx(chain: Related, lo: nat, hi: nat) returns (w: Sorted)
    requires lo <= hi
    ensures Window(w, chain, lo, hi)
  {
    var heights: seq<nat>, data: Related := [], map[];
    for h := lo to hi
      invariant Window(Sorted(heights, data), chain, lo, h)
    {
      assert forall i :: 0 <= i < |heights| ==> heights[i] in data;
      if h in chain {
        heights, data := heights + [h], data[h := chain[h]];
      }
    }
    return Sorted(heights, data);
  }

  ghost predicate Rising(s: seq<nat>) { forall i, j :: 0 <= i < j < |s| ==> s[i] <= s[j] }

  method SortByStart(s: seq<nat>) returns (r: seq<nat>)
    ensures multiset(r) == multiset(s) && Rising(r)
  {
    hide Rising;
    r := [];
    RisingNone();
    for n := 0 to |s|
      invariant multiset(r) == multiset(s[..n]) && Rising(r)
    {
      assert s[..n + 1] == s[..n] + [s[n]];
      r := Insert(r, s[n]);
    }
    assert s[..|s|] == s;
  }

  lemma RisingNone()
    ensures Rising([])
  {
  }

  method Insert(s: seq<nat>, t: nat) returns (r: seq<nat>)
    requires Rising(s)
    ensures multiset(r) == multiset(s) + multiset{t} && Rising(r)
  {
    var k := 0;
    while k < |s| && s[k] <= t
      invariant k <= |s| && forall i :: 0 <= i < k ==> s[i] <= t
    {
      k := k + 1;
    }
    r := s[..k] + [t] + s[k..];
    InsertedAll(s, t, k);
  }

  lemma SuffixIsLatest(r: seq<nat>, all: seq<nat>, k: nat)
    requires multiset(r) == multiset(all) && k <= |r| && Rising(r)
    ensures Latest(r[k..], all)
  {
    assert r == r[..k] + r[k..];
    assert multiset(all) - multiset(r[k..]) == multiset(r[..k]);
    forall t <- multiset(r[k..]), u <- multiset(r[..k]) ensures t >= u {
      var i :| 0 <= i < |r[k..]| && r[k..][i] == t;
      var j :| 0 <= j < k && r[..k][j] == u;
      assert r[j] <= r[k + i];
    }
  }

  /** The walk down a window has taken every height from cut on, and index i is the next one below. */
  ghost predicate Walked(w: Sorted, r: Sorted, i: int, count: nat, cut: nat, lo: nat, hi: nat) {
    -1 <= i < |w.heights| && lo <= cut <= hi &&
    (forall j :: 0 <= j <= i ==> w.heights[j] < cut) && (forall j :: i < j < |w.heights| ==> w.heights[j] >= cut) &&
    (forall h | lo <= h < hi :: At(r.data, h) == if h >= cut then At(w.data, h) else []) &&
    (forall h <- r.data :: h in w.data && h >= cut) && Listed(r.heights, r.data) &&
    count == CountIn(w.data, cut, hi)
  }

  /** Counting from the next height below: only its own transactions come on top. */
  lemma CountStep(w: Sorted, i: nat, cut: nat, lo: nat, hi: nat)
    requires Ascending(w.heights) && Listed(w.heights, w.data) && (forall h <- w.data :: lo <= h < hi)
    requires i < |w.heights| && cut <= hi && w.heights[i] < cut
    requires forall j :: i < j < |w.heights| ==> w.heights[j] >= cut
    ensures CountIn(w.data, w.heights[i], hi) == |w.data[w.heights[i]]| + CountIn(w.data, cut, hi)
    ensures forall h | w.heights[i] < h < cut :: h !in w.data
  {
    var c := w.heights[i];
    forall h <- w.data ensures h <= c || h >= cut {
      var j :| 0 <= j < |w.heights| && w.heights[j] == h;
    }
    CountSplit(w.data, c, c + 1, hi);
    CountSplit(w.data, c + 1, cut, hi);
    CountNone(w.data, c + 1, cut);
    assert CountIn(w.data, c, c) == 0;
  }

  /** The latest num transactions of a window. */
  ghost predicate Selected(w: Sorted, r: Sorted, lo: nat, hi: nat, num: nat, c: nat) {
    lo <= c < hi && Cut(r.data, w.data, lo, hi, c) && (forall h <- r.data :: lo <= h < hi) &&
    Listed(r.heights, r.data) && CountIn(r.data, lo, hi) == Min(num, CountIn(w.data, lo, hi))
  }

  function Push(r: Sorted, h: nat, txs: seq<nat>): Sorted { Sorted(r.heights + [h], r.data[h := txs]) }

  lemma WalkWhole(w: Sorted, r: Sorted, i: nat, count: nat, cut: nat, lo: nat, hi: nat)
    requires Window(w, w.data, lo, hi) && Walked(w, r, i, count, cut, lo, hi)
    ensures Walked(w, Push(r, w.heights[i], w.data[w.heights[i]]), i - 1, count + |w.data[w.heights[i]]|,
        w.heights[i], lo, hi)
  {
    CountStep(w, i, cut, lo, hi);
    var h := w.heights[i];
    assert forall g :: g in r.heights + [h] <==> g in r.heights || g == h;
    assert h in w.data;
  }

  lemma CountWalked(w: Sorted, r: Sorted, i: int, count: nat, cut: nat, lo: nat, hi: nat)
    requires Walked(w, r, i, count, cut, lo, hi)
    ensures CountIn(r.data, lo, hi) == count <= CountIn(w.data, lo, hi)
  {
    CountSplit(r.data, lo, cut, hi);
    CountSplit(w.data, lo, cut, hi);
    CountNone(r.data, lo, cut);
    CountSame(r.data, w.data, cut, hi);
  }

  lemma WalkedAll(w: Sorted, r: Sorted, count: nat, cut: nat, lo: nat, hi: nat, num: nat)
    requires Window(w, w.data, lo, hi) && Walked(w, r, -1, count, cut, lo, hi) && count <= num && lo < hi
    ensures Selected(w, r, lo, hi, num, lo)
  {
    forall h <- w.data ensures h >= cut {
      var j :| 0 <= j < |w.heights| && w.heights[j] == h;
    }
    CountWalked(w, r, -1, count, cut, lo, hi);
    CountSame(r.data, w.data, lo, hi);
  }

  lemma WalkPart(w: Sorted, r: Sorted, i: nat, count: nat, cut: nat, lo: nat, hi: nat, num: nat, part: seq<nat>)
    requires Window(w, w.data, lo, hi) && Walked(w, r, i, count, cut, lo, hi)
    requires count + |part| == num < count + |w.data[w.heights[i]]| && Latest(part, w.data[w.heights[i]])
    ensures Selected(w, Push(r, w.heights[i], part), lo, hi, num, w.heights[i])
  {
    CountStep(w, i, cut, lo, hi);
    var h := w.heights[i];
    var r' := Push(r, h, part);
    assert forall g :: g in r'.heights <==> g in r.heights || g == h;
    assert h in w.data;
    CountWalked(w, r, i, count, cut, lo, hi);
    CountPush(r.data, h, part, lo, hi);
    CountSplit(w.data, lo, h, hi);
  }

  lemma CountPush(m: Related, h: nat, txs: seq<nat>, lo: nat, hi: nat)
    requires lo <= h < hi && At(m, h) == []
    ensures CountIn(m[h := txs], lo, hi) == CountIn(m, lo, hi) + |txs|
  {
    var n := m[h := txs];
    CountSplit(m, lo, h, hi);
    CountSplit(n, lo, h, hi);
    CountSplit(m, h, h + 1, hi);
    CountSplit(n, h, h + 1, hi);
    CountSame(m, n, lo, h);
    CountSame(m, n, h + 1, hi);
    assert CountIn(m, h, h) == 0 && CountIn(n, h, h) == 0;
  }

  lemma WalkStop(w: Sorted, r: Sorted, i: nat, cut: nat, lo: nat, hi: nat, num: nat)
    requires Window(w, w.data, lo, hi) && Walked(w, r, i, num, cut, lo, hi)
    ensures Selected(w, r, lo, hi, num, w.heights[i])
  {
    CountStep(w, i, cut, lo, hi);
    CountWalked(w, r, i, num, cut, lo, hi);
    assert w.heights[i] in w.data;
  }

  lemma WalkStart(w: Sorted, lo: nat, hi: nat)
    requires Window(w, w.data, lo, hi) && lo <= hi
    ensures Walked(w, Sorted([], map[]), |w.heights| - 1, 0, hi, lo, hi)
  {
    assert forall j :: 0 <= j < |w.heights| ==> w.heights[j] in w.data;
  }

  method SelectRelatedTx(w: Sorted, num: nat, ghost lo: nat, ghost hi: nat) returns (r: Sorted)
    requires Window(w, w.data, lo, hi) && lo < hi
    ensures exists c :: Selected(w, r, lo, hi, num, c)
  {
    hide Walked, Selected;
    r := Sorted([], map[]);
    var count: nat := 0;
    ghost var cut: nat := hi;
    var i := |w.heights| - 1;
    WalkStart(w, lo, hi);
    while i >= 0
      invariant -1 <= i < |w.heights| && count <= num && Walked(w, r, i, count, cut, lo, hi)
      decreases i
    {
      var height := w.heights[i];
      assert height in w.data;
      if count + |w.data[height]| <= num {
        WalkWhole(w, r, i, count, cut, lo, hi);
        r := Push(r, height, w.data[height]);
        count, cut := count + |w.data[height]|, height;
      } else {
        var rest: nat := num - count;
        if rest == 0 {
          WalkStop(w, r, i, cut, lo, hi, num);
          return;
        }
        var sorted := SortByStart(w.data[height]);
        assert |multiset(sorted)| == |multiset(w.data[height])|;
        SuffixIsLatest(sorted, w.data[height], |sorted| - rest);
        WalkPart(w, r, i, count, cut, lo, hi, num, sorted[|sorted| - rest..]);
        r := Push(r, height, sorted[|sorted| - rest..]);
        return;
      }
      i := i - 1;
    }
    WalkedAll(w, r, count, cut, lo, hi, num);
  }

  /** The windows read so far are exactly the heights from end to best, all of whose transactions are taken. */
  ghost predicate Read(r: Sorted, chain: Related, best: nat, end: nat, count: nat) {
    1 <= end <= best + 1 && (forall h | end <= h <= best :: At(r.data, h) == At(chain, h)) &&
    (forall h <- r.data :: end <= h <= best) && Listed(r.heights, r.data) && count == CountIn(chain, end, best + 1)
  }

  function Append(r: Sorted, w: Sorted): Sorted { Sorted(r.heights + w.heights, r.data + w.data) }

  lemma ReadNone(chain: Related, best: nat)
    ensures Read(Sorted([], map[]), chain, best, best + 1, 0)
  {
  }

  lemma WindowOfItself(w: Sorted, chain: Related, lo: nat, hi: nat)
    requires Window(w, chain, lo, hi)
    ensures Window(w, w.data, lo, hi)
  {
  }

  lemma AppendIs(r: Sorted, w: Sorted, end: nat)
    requires Listed(r.heights, r.data) && Listed(w.heights, w.data)
    requires (forall h <- r.data :: h >= end) && forall h <- w.data :: h < end
    ensures Listed(Append(r, w).heights, Append(r, w).data)
    ensures forall h :: h in Append(r, w).data <==> h in r.data || h in w.data
    ensures forall h: nat :: At(Append(r, w).data, h) == if h >= end then At(r.data, h) else At(w.data, h)
  {
    assert forall h :: h in r.heights + w.heights <==> h in r.heights || h in w.heights;
    assert forall h :: h in r.data + w.data <==> h in r.data || h in w.data;
  }

  lemma ReadWhole(r: Sorted, w: Sorted, chain: Related, best: nat, start: nat, end: nat, count: nat)
    requires Read(r, chain, best, end, count) && 1 <= start <= end && Window(w, chain, start, end)
    ensures Read(Append(r, w), chain, best, start, count + CountIn(w.data, start, end))
  {
    hide Append, CountIn, Ascending, Listed;
    CountSplit(chain, start, end, best + 1);
    CountSame(w.data, chain, start, end);
    AppendIs(r, w, end);
  }

  lemma ReadAll(r: Sorted, chain: Related, best: nat, count: nat, n: nat)
    requires Read(r, chain, best, 1, count) && count <= n
    ensures MostRecent(r.data, chain, best, n) && Listed(r.heights, r.data)
  {
    CountSame(r.data, chain, 1, best + 1);
    CutIsMostRecent(r.data, chain, best, n, 0);
  }

  lemma ReadEnough(r: Sorted, chain: Related, best: nat, end: nat, n: nat)
    requires Read(r, chain, best, end, n)
    ensures MostRecent(r.data, chain, best, n) && Listed(r.heights, r.data)
  {
    hide CountIn, MostRecent, Listed, Latest;
    LatestNone(At(chain, end - 1));
    CountSplit(chain, 1, end, best + 1);
    CountSplit(r.data, 1, end, best + 1);
    CountNone(r.data, 1, end);
    CountSame(r.data, chain, end, best + 1);
    CutIsMostRecent(r.data, chain, best, n, end - 1);
  }

  lemma ReadPart(r: Sorted, w: Sorted, p: Sorted, chain: Related, best: nat, start: nat, end: nat, count: nat, n: nat,
                 c: nat)
    requires Read(r, chain, best, end, count) && 1 <= start < end && Window(w, chain, start, end)
    requires count <= n < count + CountIn(w.data, start, end) && Selected(w, p, start, end, n - count, c)
    ensures MostRecent(Append(r, p).data, chain, best, n) && Listed(Append(r, p).heights, Append(r, p).data)
  {
    hide Append, CountIn, Ascending, Listed, MostRecent, Latest;
    var a := Append(r, p);
    AppendIs(r, p, end);
    CountTwo(a.data, p.data, chain, w.data, best, start, end);
    CutIsMostRecent(a.data, chain, best, n, c);
  }

  lemma CountTwo(a: Related, p: Related, chain: Related, w: Related, best: nat, start: nat, end: nat)
    requires 1 <= start < end <= best + 1
    requires forall h | 1 <= h <= best ::
      At(a, h) == if h >= end then At(chain, h) else if h >= start then At(p, h) else []
    requires forall h | start <= h < end :: At(w, h) == At(chain, h)
    ensures CountIn(a, 1, best + 1) == CountIn(p, start, end) + CountIn(chain, end, best + 1)
    ensures CountIn(chain, 1, best + 1) >= CountIn(w, start, end) + CountIn(chain, end, best + 1)
  {
    hide CountIn;
    CountSplit(chain, 1, end, best + 1);
    CountSplit(chain, 1, start, end);
    CountSame(w, chain, start, end);
    CountSplit(a, 1, end, best + 1);
    CountSplit(a, 1, start, end);
    CountNone(a, 1, start);
    CountSame(a, p, start, end);
    CountSame(a, chain, end, best + 1);
  }

  method CountTxs(w: Sorted, ghost lo: nat, ghost hi: nat) returns (count: nat)
    requires Window(w, w.data, lo, hi) && lo <= hi
    ensures count == CountIn(w.data, lo, hi)
  {
    count := 0;
    ghost var cut: nat := lo;
    assert forall j :: 0 <= j < |w.heights| ==> w.heights[j] in w.data;
    for i := 0 to |w.heights|
      invariant lo <= cut <= hi && count == CountIn(w.data, lo, cut)
      invariant forall j :: 0 <= j < i ==> w.heights[j] < cut
      invariant forall j :: i <= j < |w.heights| ==> w.heights[j] >= cut
    {
      assert w.heights[i] in w.data;
      forall h <- w.data ensures h < cut || h >= w.heights[i] {
        var j :| 0 <= j < |w.heights| && w.heights[j] == h;
      }
      CountSplit(w.data, lo, cut, w.heights[i]);
      CountNone(w.data, cut, w.heights[i]);
      count := count + |w.data[w.heights[i]]|;
      cut := w.heights[i] + 1;
    }
    forall h <- w.data ensures h < cut {
      var j :| 0 <= j < |w.heights| && w.heights[j] == h;
    }
    CountSplit(w.data, lo, cut, hi);
    CountNone(w.data, cut, hi);
  }

  /** The window below the one that starts at the given height. */
  function NextWindow(start: nat): (nat, nat) {
    if start <= BLOCK_BATCH then (1, start) else (start - BLOCK_BATCH, start)
  }

  method GetTxHistory(chain: Related, best: nat, limit: nat) returns (r: Sorted)
    ensures MostRecent(r.data, chain, best, if limit == 0 then 200 else limit)
    ensures Listed(r.heights, r.data)
  {
    hide MostRecent, Read, Selected, Window, Listed;
    var wanted := if limit == 0 then TX_HISTORY_MAX else limit;
    var count: nat := 0;
    var start: nat := if best < BLOCK_BATCH then 1 else best - BLOCK_BATCH + 1;
    var end := best + 1;
    r := Sorted([], map[]);
    ReadNone(chain, best);
    while true
      invariant 1 <= start <= end && (start == end ==> start == 1)
      invariant count <= wanted && Read(r, chain, best, end, count)
      decreases start
    {
      var w := FetchRelatedTx(chain, start, end);
      WindowOfItself(w, chain, start, end);
      var countInBatch := CountTxs(w, start, end);
      if count + countInBatch <= wanted {
        ReadWhole(r, w, chain, best, start, end, count);
        r := Append(r, w);
        count := count + countInBatch;
      } else {
        var rest: nat := wanted - count;
        if rest == 0 {
          ReadEnough(r, chain, best, end, wanted);
        } else {
          var p := SelectRelatedTx(w, rest, start, end);
          ghost var c: nat :| Selected(w, p, start, end, rest, c);
          ReadPart(r, w, p, chain, best, start, end, count, wanted, c);
          r := Append(r, p);
        }
        return;
      }
      if start == 1 {
        break;
      }
      var next := NextWindow(start);
      start, end := next.0, next.1;
    }
    ReadAll(r, chain, best, count, wanted);
  }
}
