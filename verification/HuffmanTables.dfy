/** The decoder's two tables, filled by counting from the lengths of the codes
    (src/transport/huffman.rs), and when they are those of a canonical code. */
module HuffmanTables {
  import opened Huffman

  /** How many of the first `n` symbols have a code of length `l`. */
  function CountOf(table: seq<Entry>, l: nat, n: nat): (c: nat)
    requires n <= |table|
    ensures c <= n
  {
    if n == 0 then 0
    else CountOf(table, l, n - 1) + if table[n - 1].length == l then 1 else 0
  }

  ghost predicate Lengths(table: seq<Entry>, longest: nat) {
    forall s :: 0 <= s < |table| ==> 1 <= table[s].length <= longest
  }

  /** `count` holds the number of codes of every length up to the longest. */
  ghost predicate Counts(table: seq<Entry>, longest: nat, count: seq<nat>) {
    |count| == longest + 1 && forall l: nat :: l <= longest ==> count[l] == CountOf(table, l, |table|)
  }

  /** Where symbol `s` comes in the order of code length and, within one length, of symbols. */
  function Rank(table: seq<Entry>, count: seq<nat>, s: nat): nat
    requires s < |table| && table[s].length < |count|
  {
    Index(count, table[s].length) + CountOf(table, table[s].length, s)
  }

  lemma {:induction false} CountMonotone(table: seq<Entry>, l: nat, m: nat, n: nat)
    requires m <= n <= |table|
    ensures CountOf(table, l, m) <= CountOf(table, l, n)
    ensures m < n && table[m].length == l ==> CountOf(table, l, m) < CountOf(table, l, n)
    decreases n
  {
    if m < n {
      CountMonotone(table, l, m, n - 1);
    }
  }

  /** The counts of all lengths add up to the number of symbols. */
  lemma {:induction false} CountsAddUp(table: seq<Entry>, n: nat, count: seq<nat>)
    requires n <= |table|
    requires forall l: nat :: l < |count| ==> count[l] == CountOf(table, l, n)
    requires forall s :: 0 <= s < n ==> table[s].length < |count|
    ensures Index(count, |count|) == n
    decreases n
  {
    if n == 0 {
      ZeroIndex(count, |count|);
    } else {
      var l := table[n - 1].length;
      var fewer := count[l := CountOf(table, l, n - 1)];
      CountsAddUp(table, n - 1, fewer);
      BumpIndex(fewer, l, |count|);
      assert fewer[l := count[l]] == count;
    }
  }

  lemma {:induction false} ZeroIndex(count: seq<nat>, m: nat)
    requires m <= |count| && forall l :: 0 <= l < |count| ==> count[l] == 0
    ensures Index(count, m) == 0
  {
    if m > 0 {
      ZeroIndex(count, m - 1);
    }
  }

  lemma {:induction false} BumpIndex(count: seq<nat>, l: nat, m: nat)
    requires l < |count| && m <= |count|
    ensures Index(count[l := count[l] + 1], m) == Index(count, m) + if l < m then 1 else 0
  {
    if m > 0 {
      BumpIndex(count, l, m - 1);
    }
  }

  /** The ranks of symbols are distinct positions. */
  lemma RanksAreDistinct(table: seq<Entry>, longest: nat, count: seq<nat>, s: nat)
    requires s < |table| && Lengths(table, longest) && Counts(table, longest, count)
    ensures Index(count, table[s].length) <= Rank(table, count, s) < Index(count, table[s].length + 1)
    ensures Rank(table, count, s) < |table|
    ensures forall t: nat :: t < |table| && t != s ==> Rank(table, count, t) != Rank(table, count, s)
  {
    CountsAddUp(table, |table|, count);
    InBlock(table, longest, count, s);
    forall t: nat | t < |table| && t != s
      ensures Rank(table, count, t) != Rank(table, count, s)
    {
      InBlock(table, longest, count, t);
      var l, m := table[s].length, table[t].length;
      if l < m {
        IndexMonotone(count, l + 1, m);
      } else if m < l {
        IndexMonotone(count, m + 1, l);
      } else if s < t {
        CountMonotone(table, l, s, t);
      } else {
        CountMonotone(table, l, t, s);
      }
    }
  }

  lemma InBlock(table: seq<Entry>, longest: nat, count: seq<nat>, s: nat)
    requires s < |table| && Lengths(table, longest) && Counts(table, longest, count)
    ensures var l := table[s].length;
            && Index(count, l) <= Rank(table, count, s) < Index(count, l + 1)
            && Index(count, l + 1) == Index(count, l) + count[l]
            && Index(count, l + 1) <= Index(count, |count|)
  {
    var l := table[s].length;
    CountMonotone(table, l, s, |table|);
    IndexMonotone(count, l + 1, |count|);
  }

  /** `symbols` lists every symbol at its rank. */
  ghost predicate Ranked(table: seq<Entry>, count: seq<nat>, symbols: seq<nat>) {
    && |symbols| == |table|
    && forall s: nat :: s < |table| && table[s].length < |count| && Rank(table, count, s) < |symbols| ==>
         symbols[Rank(table, count, s)] == s
  }

  /** Count the codes of each length. */
  method CountLengths(table: seq<Entry>, longest: nat) returns (count: seq<nat>)
    requires Lengths(table, longest)
    ensures Counts(table, longest, count)
  {
    var counts := new nat[longest + 1](_ => 0);
    var symbol := 0;
    while symbol < |table|
      invariant 0 <= symbol <= |table|
      invariant forall l: nat :: l <= longest ==> counts[l] == CountOf(table, l, symbol)
    {
      counts[table[symbol].length] := counts[table[symbol].length] + 1;
      symbol := symbol + 1;
    }
    count := counts[..];
  }

  /** Where the symbols of each length start. */
  method StartOfLengths(count: seq<nat>) returns (next: array<nat>)
    requires |count| > 0
    ensures fresh(next) && next.Length == |count|
    ensures forall l: nat :: l < |count| ==> next[l] == Index(count, l)
  {
    hide Index;
    next := new nat[|count|](_ => 0);
    IndexZero(count);
    var length := 1;
    while length < |count|
      invariant 1 <= length <= |count|
      invariant forall l: nat :: l < length ==> next[l] == Index(count, l)
    {
      IndexNext(count, length);
      next[length] := next[length - 1] + count[length - 1];
      length := length + 1;
    }
  }

  lemma IndexZero(count: seq<nat>)
    ensures Index(count, 0) == 0
  {
  }

  lemma IndexNext(count: seq<nat>, l: nat)
    requires 0 < l <= |count|
    ensures Index(count, l) == Index(count, l - 1) + count[l - 1]
  {
  }

  /** Put every symbol at its rank. */
  method SortSymbols(table: seq<Entry>, longest: nat, count: seq<nat>) returns (symbols: seq<nat>)
    requires Lengths(table, longest) && Counts(table, longest, count)
    ensures Ranked(table, count, symbols)
  {
    hide CountOf, Rank, Index;
    var next := StartOfLengths(count);
    NoneCounted(table);
    var sorted := new nat[|table|](_ => 0);
    var symbol := 0;
    while symbol < |table|
      invariant 0 <= symbol <= |table|
      invariant forall l: nat :: l <= longest ==> next[l] == Index(count, l) + CountOf(table, l, symbol)
      invariant forall t: nat :: t < symbol ==> Rank(table, count, t) < |table| && sorted[Rank(table, count, t)] == t
    {
      var l := table[symbol].length;
      RanksAreDistinct(table, longest, count, symbol);
      RankIs(table, count, symbol);
      CountNext(table, symbol);
      sorted[next[l]] := symbol;
      next[l] := next[l] + 1;
      symbol := symbol + 1;
    }
    symbols := sorted[..];
  }

  lemma RankIs(table: seq<Entry>, count: seq<nat>, s: nat)
    requires s < |table| && table[s].length < |count|
    ensures Rank(table, count, s) == Index(count, table[s].length) + CountOf(table, table[s].length, s)
  {
  }

  lemma NoneCounted(table: seq<Entry>)
    ensures forall l: nat :: CountOf(table, l, 0) == 0
  {
  }

  lemma CountNext(table: seq<Entry>, s: nat)
    requires s < |table|
    ensures forall l: nat :: CountOf(table, l, s + 1) == CountOf(table, l, s) + if table[s].length == l then 1 else 0
  {
  }

  // ----- when the tables are canonical -----

  /** Within a length codes go up with their symbols, from where the shorter ones left off, shifted. */
  ghost predicate CodesFollow(table: seq<Entry>, count: seq<nat>) {
    forall s: nat :: s < |table| ==>
      table[s].length < |count| &&
      table[s].code == First(count, table[s].length) + CountOf(table, table[s].length, s)
  }

  lemma {:induction false} FindRank(table: seq<Entry>, l: nat, n: nat, r: nat) returns (s: nat)
    requires n <= |table| && r < CountOf(table, l, n)
    ensures s < n && table[s].length == l && CountOf(table, l, s) == r
    decreases n
  {
    if table[n - 1].length == l && r == CountOf(table, l, n - 1) {
      s := n - 1;
    } else {
      s := FindRank(table, l, n - 1, r);
    }
  }

  lemma {:induction false} FindBlock(count: seq<nat>, m: nat, p: nat) returns (l: nat)
    requires m <= |count| && p < Index(count, m)
    ensures l < m && Index(count, l) <= p < Index(count, l) + count[l]
    decreases m
  {
    if p < Index(count, m - 1) {
      l := FindBlock(count, m - 1, p);
    } else {
      l := m - 1;
    }
  }

  /** The tables counted from a complete code whose codes follow one another are canonical: deriving
      the codes from the lengths gives back every code of the table. */
  lemma TablesAreCanonical(table: seq<Entry>, longest: nat, count: seq<nat>, symbols: seq<nat>)
    requires Lengths(table, longest) && Counts(table, longest, count) && Ranked(table, count, symbols)
    requires Complete(count) && CodesFollow(table, count)
    ensures Canonical(table, count, symbols)
  {
    hide CountOf, Complete, First, Index;
    CountsAddUp(table, |table|, count);
    forall s: nat | s < |table|
      ensures InRange(table, count, s) && 0 <= PositionOf(table, count, s) < |symbols|
      ensures symbols[PositionOf(table, count, s)] == s
    {
      RanksAreDistinct(table, longest, count, s);
      InBlock(table, longest, count, s);
    }
    forall p | 0 <= p < |symbols|
      ensures symbols[p] < |table| && InRange(table, count, symbols[p])
      ensures PositionOf(table, count, symbols[p]) == p
    {
      var l := FindBlock(count, |count|, p);
      var s := FindRank(table, l, |table|, p - Index(count, l));
      assert Rank(table, count, s) == p;
      assert PositionOf(table, count, s) == p && InRange(table, count, s);
    }
  }

  // ----- checking a table by the order of its codes -----

  /** One step of the order: lengths never fall, symbols of one length rise, and each code is the one
      before plus one, shifted to its own length. */
  predicate Step(before: Entry, after: Entry, s: nat, t: nat) {
    && before.length <= after.length
    && (before.length == after.length ==> s < t)
    && after.code == (before.code + 1) * Pow2(after.length - before.length)
  }

  /** `order` lists all the symbols, by length and then by symbol, with codes as assigned in turn
      from zero to the last number of the longest length. */
  ghost predicate Orders(table: seq<Entry>, order: seq<nat>) {
    && |order| == |table| > 0
    && (forall p :: 0 <= p < |order| ==> order[p] < |table|)
    && (forall s: nat :: s < |table| ==> s in order)
    && (forall p, q :: 0 <= p < q < |order| && q == p + 1 ==>
          Step(table[order[p]], table[order[q]], order[p], order[q]))
    && table[order[0]].code == 0
    && table[order[|order| - 1]].code + 1 == Pow2(table[order[|order| - 1]].length)
  }

  lemma {:induction false} OrderRises(table: seq<Entry>, order: seq<nat>, p: nat, q: nat)
    requires Orders(table, order) && p <= q < |order|
    ensures table[order[p]].length <= table[order[q]].length
    ensures p < q && table[order[p]].length == table[order[q]].length ==> order[p] < order[q]
    decreases q
  {
    if p < q {
      OrderRises(table, order, p, q - 1);
      assert Step(table[order[q - 1]], table[order[q]], order[q - 1], order[q]);
    }
  }

  /** No symbol of length `l` from `m` to `n`. */
  lemma {:induction false} NoneBetween(table: seq<Entry>, l: nat, m: nat, n: nat)
    requires m <= n <= |table| && forall t :: m <= t < n ==> table[t].length != l
    ensures CountOf(table, l, m) == CountOf(table, l, n)
    decreases n
  {
    if m < n {
      NoneBetween(table, l, m, n - 1);
    }
  }

  /** Positions `lo..hi` are exactly those of length `l`. */
  ghost predicate Block(table: seq<Entry>, order: seq<nat>, l: nat, lo: nat, hi: nat) {
    && lo <= hi <= |order|
    && (forall p :: 0 <= p < |order| ==> order[p] < |table|)
    && (forall p :: 0 <= p < |order| ==> (lo <= p < hi <==> table[order[p]].length == l))
  }

  lemma {:induction false} RankInBlock(table: seq<Entry>, order: seq<nat>, l: nat, lo: nat, hi: nat, p: nat)
    requires Orders(table, order) && Block(table, order, l, lo, hi) && lo <= p < hi
    ensures CountOf(table, l, order[p]) == p - lo
    decreases p
  {
    var s := order[p];
    var from := if p == lo then 0 else order[p - 1] + 1;
    if p > lo {
      RankInBlock(table, order, l, lo, hi, p - 1);
      OrderRises(table, order, p - 1, p);
    }
    forall t | from <= t < s
      ensures table[t].length != l
    {
      if table[t].length == l {
        assert t in order;
        var q :| 0 <= q < |order| && order[q] == t;
        if q < p {
          OrderRises(table, order, q, p - 1);
        } else {
          OrderRises(table, order, p, q);
        }
      }
    }
    NoneBetween(table, l, from, s);
  }

  lemma CountInBlock(table: seq<Entry>, order: seq<nat>, l: nat, lo: nat, hi: nat)
    requires Orders(table, order) && Block(table, order, l, lo, hi)
    ensures CountOf(table, l, |table|) == hi - lo
  {
    var from := if lo == hi then 0 else order[hi - 1] + 1;
    if lo < hi {
      RankInBlock(table, order, l, lo, hi, hi - 1);
    }
    forall t | from <= t < |table|
      ensures table[t].length != l
    {
      if table[t].length == l {
        assert t in order;
        var q :| 0 <= q < |order| && order[q] == t;
        OrderRises(table, order, q, hi - 1);
      }
    }
    NoneBetween(table, l, from, |table|);
  }

  /** Where the codes of length `l` or more start. */
  ghost function Start(table: seq<Entry>, order: seq<nat>, l: nat, n: nat): (lo: nat)
    requires n <= |order| && forall p :: 0 <= p < |order| ==> order[p] < |table|
    ensures lo <= n
  {
    if n == 0 then 0
    else if table[order[n - 1]].length >= l then Start(table, order, l, n - 1)
    else n
  }

  lemma {:induction false} StartSplits(table: seq<Entry>, order: seq<nat>, l: nat, n: nat)
    requires Orders(table, order) && n <= |order|
    ensures forall p :: 0 <= p < n ==> (p < Start(table, order, l, n) <==> table[order[p]].length < l)
    decreases n
  {
    if n > 0 {
      StartSplits(table, order, l, n - 1);
      if table[order[n - 1]].length < l {
        forall p | 0 <= p < n
          ensures table[order[p]].length < l
        {
          OrderRises(table, order, p, n - 1);
        }
      }
    }
  }

  /** The lengths below `l` fill the positions before the codes of length `l` start. */
  lemma {:induction false} IndexIsStart(table: seq<Entry>, order: seq<nat>, longest: nat, count: seq<nat>, l: nat)
    requires Orders(table, order) && Counts(table, longest, count) && l <= longest + 1
    ensures Index(count, l) == Start(table, order, l, |order|)
    decreases l
  {
    StartSplits(table, order, l, |order|);
    if l == 0 {
      assert table[order[0]].length >= 0;
    } else {
      IndexIsStart(table, order, longest, count, l - 1);
      StartSplits(table, order, l - 1, |order|);
      var lo, hi := Start(table, order, l - 1, |order|), Start(table, order, l, |order|);
      if hi < |order| {
        assert table[order[hi]].length >= l;
      }
      assert Block(table, order, l - 1, lo, hi);
      CountInBlock(table, order, l - 1, lo, hi);
    }
  }

  /** Shifting by more lengths than one, when no code has a length between. */
  lemma {:induction false} FirstAcross(count: seq<nat>, a: nat, b: nat)
    requires a < b < |count| && forall l :: a < l < b ==> count[l] == 0
    ensures First(count, b) == (First(count, a) + count[a]) * Pow2(b - a)
    ensures Index(count, b) == Index(count, a) + count[a]
    decreases b
  {
    if b == a + 1 {
      assert Pow2(1) == 2 * Pow2(0);
    } else {
      FirstAcross(count, a, b - 1);
      assert Pow2(b - a) == 2 * Pow2(b - 1 - a);
      Double(First(count, a) + count[a], Pow2(b - 1 - a));
    }
  }

  lemma Double(x: nat, p: nat)
    ensures 2 * (x * p) == x * (2 * p)
  {
  }

  /** A position lies in the block of its symbol's length. */
  lemma PositionInBlock(table: seq<Entry>, order: seq<nat>, longest: nat, count: seq<nat>, p: nat)
    requires Orders(table, order) && Lengths(table, longest) && Counts(table, longest, count) && p < |order|
    ensures var l := table[order[p]].length;
            && Index(count, l) <= p < Index(count, l) + count[l]
            && CountOf(table, l, order[p]) == p - Index(count, l)
  {
    hide CountOf, Index, Start, Step;
    var l := table[order[p]].length;
    IndexIsStart(table, order, longest, count, l);
    IndexIsStart(table, order, longest, count, l + 1);
    StartSplits(table, order, l, |order|);
    StartSplits(table, order, l + 1, |order|);
    var lo, hi := Start(table, order, l, |order|), Start(table, order, l + 1, |order|);
    assert Block(table, order, l, lo, hi);
    RankInBlock(table, order, l, lo, hi, p);
    CountInBlock(table, order, l, lo, hi);
  }

  /** The code at each position of the order is the one its length and rank give. */
  lemma {:induction false} CodeAtPosition(table: seq<Entry>, order: seq<nat>, longest: nat, count: seq<nat>, p: nat)
    requires Orders(table, order) && Lengths(table, longest) && Counts(table, longest, count) && p < |order|
    ensures var l := table[order[p]].length;
            table[order[p]].code == First(count, l) + (p - Index(count, l))
    decreases p
  {
    hide CountOf, Start;
    PositionInBlock(table, order, longest, count, p);
    var l := table[order[p]].length;
    if p == 0 {
      FirstOfAll(count, l);
    } else {
      CodeAtPosition(table, order, longest, count, p - 1);
      PositionInBlock(table, order, longest, count, p - 1);
      assert Step(table[order[p - 1]], table[order[p]], order[p - 1], order[p]);
      var m := table[order[p - 1]].length;
      if m < l {
        NothingBetween(table, order, longest, count, p, m, l);
        FirstAcross(count, m, l);
      } else {
        assert Pow2(0) == 1;
      }
    }
  }

  lemma {:induction false} FirstOfAll(count: seq<nat>, l: nat)
    requires l <= |count| && Index(count, l) == 0
    ensures First(count, l) == 0
  {
    if l > 0 {
      FirstOfAll(count, l - 1);
    }
  }

  /** Two neighbours in the order: the first is the last of its length, and no code has a length
      between theirs. */
  lemma NothingBetween(table: seq<Entry>, order: seq<nat>, longest: nat, count: seq<nat>, p: nat, m: nat, l: nat)
    requires Orders(table, order) && Lengths(table, longest) && Counts(table, longest, count) && 0 < p < |order|
    requires m == table[order[p - 1]].length < l == table[order[p]].length
    ensures Index(count, m) + count[m] == p
    ensures forall k :: m < k < l ==> count[k] == 0
  {
    hide CountOf, Start, Step;
    IndexIsStart(table, order, longest, count, m + 1);
    StartSplits(table, order, m + 1, |order|);
    assert !(p < Start(table, order, m + 1, |order|)) && p - 1 < Start(table, order, m + 1, |order|);
    IndexNext(count, m + 1);
    forall k | m < k < l
      ensures count[k] == 0
    {
      IndexIsStart(table, order, longest, count, k);
      IndexIsStart(table, order, longest, count, k + 1);
      StartSplits(table, order, k, |order|);
      StartSplits(table, order, k + 1, |order|);
      assert Start(table, order, k, |order|) == p == Start(table, order, k + 1, |order|);
      IndexNext(count, k + 1);
    }
  }

  /** A table whose codes are assigned in turn, along an order of all its symbols, is complete and its
      codes follow one another. */
  lemma OrderedTableIsCanonical(table: seq<Entry>, order: seq<nat>, longest: nat, count: seq<nat>)
    requires Orders(table, order) && Lengths(table, longest) && Counts(table, longest, count)
    requires longest == table[order[|order| - 1]].length
    ensures Complete(count) && CodesFollow(table, count)
  {
    hide CountOf, Start, Step, Pow2;
    forall s: nat | s < |table|
      ensures table[s].length < |count|
      ensures table[s].code == First(count, table[s].length) + CountOf(table, table[s].length, s)
    {
      assert s in order;
      var p :| 0 <= p < |order| && order[p] == s;
      PositionInBlock(table, order, longest, count, p);
      CodeAtPosition(table, order, longest, count, p);
    }
    var last := |order| - 1;
    PositionInBlock(table, order, longest, count, last);
    CodeAtPosition(table, order, longest, count, last);
    CountsAddUp(table, |table|, count);
    IndexNext(count, longest + 1);
    NoEmptyCodes(table, |table|);
  }

  lemma {:induction false} NoEmptyCodes(table: seq<Entry>, n: nat)
    requires n <= |table| && forall s :: 0 <= s < |table| ==> table[s].length >= 1
    ensures CountOf(table, 0, n) == 0
  {
    if n > 0 {
      NoEmptyCodes(table, n - 1);
    }
  }

  /** The order lists every symbol at its rank, and nothing else does. */
  lemma OrderIsRanked(table: seq<Entry>, order: seq<nat>, longest: nat, count: seq<nat>)
    requires Orders(table, order) && Lengths(table, longest) && Counts(table, longest, count)
    ensures Ranked(table, count, order)
    ensures forall p :: 0 <= p < |order| ==>
              table[order[p]].length < |count| && Rank(table, count, order[p]) == p
  {
    hide CountOf, Index, Step;
    forall p | 0 <= p < |order|
      ensures table[order[p]].length < |count| && Rank(table, count, order[p]) == p
    {
      PositionInBlock(table, order, longest, count, p);
    }
    forall s: nat | s < |table|
      ensures table[s].length < |count| && Rank(table, count, s) < |order| && order[Rank(table, count, s)] == s
    {
      assert s in order;
      var p :| 0 <= p < |order| && order[p] == s;
    }
  }

  lemma RankedIsOrder(table: seq<Entry>, order: seq<nat>, longest: nat, count: seq<nat>, symbols: seq<nat>)
    requires Orders(table, order) && Lengths(table, longest) && Counts(table, longest, count)
    requires Ranked(table, count, symbols)
    ensures symbols == order
  {
    hide CountOf, Index, Step, Counts;
    OrderIsRanked(table, order, longest, count);
    forall p | 0 <= p < |order|
      ensures symbols[p] == order[p]
    {
      assert Rank(table, count, order[p]) == p;
    }
  }
}
