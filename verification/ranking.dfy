/**
 * The data `drawBarChart` derives: `[...globalData]` sorted in place by
 * `d3.descending` on the parsed quarterly total, its first ten rows, and the
 * upper end of the bar chart's y-domain.
 *
 * The spread copy holds references to the same row objects as `globalData`;
 * the model stands for each reference by the row's position in `globalData`,
 * so the identity of rows with equal contents is kept.
 */
module Ranking {
  import opened Values
  import opened Sequences

  const TopCount := 10

  function Min(a: int, b: int): int
  {
    if a < b then a else b
  }

  /** `+row[col]` for every row, in row order. */
  function Totals(globalData: seq<Row>, q: string): (keys: seq<Number>)
    ensures |keys| == |globalData|
    ensures forall i :: 0 <= i < |keys| ==> keys[i] == NumberAt(globalData[i], TotalColumn(q))
  {
    Map(globalData, d => NumberAt(d, TotalColumn(q)))
  }

  predicate AllNumbers(keys: seq<Number>)
  {
    forall i :: 0 <= i < |keys| ==> keys[i].Num?
  }

  /** `d3.descending(a, b)`: -1 when `a` is larger, 1 when `b` is, 0 when equal, NaN when either is NaN. */
  function Descending(a: Number, b: Number): (c: Number)
    ensures c.NaN? <==> a.NaN? || b.NaN?
    ensures c.Num? ==> -1 <= c.value <= 1
    ensures c.Num? ==> (c.value < 0 <==> a.value > b.value) && (c.value > 0 <==> a.value < b.value)
  {
    if a.NaN? || b.NaN? then NaN
    else if b.value < a.value then Num(-1)
    else if b.value > a.value then Num(1)
    else Num(0)
  }

  /** `Array.prototype.sort` reads a NaN comparator result as 0. */
  function SortCompare(v: Number): int
  {
    if v.NaN? then 0 else v.value
  }

  /**
   * Row `i` belongs before row `j` in a stable descending sort: its total is
   * larger, or equal and `i` comes first in `globalData`.
   */
  predicate Ahead(keys: seq<Number>, i: nat, j: nat)
  {
    i < |keys| && j < |keys| && keys[i].Num? && keys[j].Num? &&
    (keys[i].value > keys[j].value || (keys[i].value == keys[j].value && i < j))
  }

  /** Every row of `order` is ahead of every later one. */
  predicate Ranked(keys: seq<Number>, order: seq<nat>)
  {
    forall x, y :: 0 <= x < y < |order| ==> Ahead(keys, order[x], order[y])
  }

  /** The positions 0 .. n-1 in order: `[...globalData]` before the sort. */
  function Positions(n: nat): seq<nat>
  {
    seq(n, k => k)
  }

  /**
   * `copy.sort((a, b) => d3.descending(+a[col], +b[col]))` on the spread copy
   * `copy` of `globalData`, whose totals are `keys`, by straight insertion.
   * The result is a permutation; when every total parses it is the stable
   * descending order.
   */
  method SortByTotal(copy: array<nat>, keys: seq<Number>)
    requires copy.Length == |keys| && copy[..] == Positions(|keys|)
    modifies copy
    ensures multiset(copy[..]) == multiset(old(copy[..]))
    ensures forall k :: 0 <= k < copy.Length ==> copy[k] < copy.Length
    ensures AllNumbers(keys) ==> Ranked(keys, copy[..])
  {
    var n := copy.Length;
    var i := 0;
    while i < n
      invariant 0 <= i <= n
      invariant multiset(copy[..]) == multiset(old(copy[..]))
      invariant SortedUpTo(copy, keys, i)
    {
      Insert(copy, keys, i);
      i := i + 1;
    }
  }

  /**
   * The first `i` cells hold the positions 0 .. i-1, ranked when every total
   * parses; the other cells still hold their own positions.
   */
  ghost predicate SortedUpTo(copy: array<nat>, keys: seq<Number>, i: nat)
    reads copy
  {
    && i <= copy.Length == |keys|
    && (forall k :: i <= k < copy.Length ==> copy[k] == k)
    && (forall k :: 0 <= k < i ==> copy[k] < i)
    && (AllNumbers(keys) ==> forall x, y :: 0 <= x < y < i ==> Ahead(keys, copy[x], copy[y]))
  }

  /** One pass of insertion: row `i` moves left past every row with a smaller total. */
  method Insert(copy: array<nat>, keys: seq<Number>, i: nat)
    requires i < copy.Length && SortedUpTo(copy, keys, i)
    modifies copy
    ensures multiset(copy[..]) == multiset(old(copy[..]))
    ensures SortedUpTo(copy, keys, i + 1)
  {
    var n := copy.Length;
    var j := i;
    while 0 < j && SortCompare(Descending(keys[copy[j - 1]], keys[copy[j]])) > 0
      invariant 0 <= j <= i
      invariant multiset(copy[..]) == multiset(old(copy[..]))
      invariant forall k :: i < k < n ==> copy[k] == k
      invariant copy[j] == i
      invariant forall k :: 0 <= k <= i && k != j ==> copy[k] < i
      invariant AllNumbers(keys) ==>
                  forall x, y :: 0 <= x < y <= i && x != j && y != j ==> Ahead(keys, copy[x], copy[y])
      invariant AllNumbers(keys) ==> forall y :: j < y <= i ==> Ahead(keys, copy[j], copy[y])
    {
      Swap(copy, j);
      j := j - 1;
    }
    if AllNumbers(keys) {
      forall x | 0 <= x < j ensures Ahead(keys, copy[x], copy[j]) {
        if x < j - 1 {
          assert Ahead(keys, copy[x], copy[j - 1]);
        }
      }
    }
  }

  /** Exchanges the cells `j - 1` and `j`. */
  method Swap(copy: array<nat>, j: nat)
    requires 0 < j < copy.Length
    modifies copy
    ensures copy[j - 1] == old(copy[j]) && copy[j] == old(copy[j - 1])
    ensures forall k :: 0 <= k < copy.Length && k != j - 1 && k != j ==> copy[k] == old(copy[k])
    ensures multiset(copy[..]) == multiset(old(copy[..]))
  {
    copy[j - 1], copy[j] := copy[j], copy[j - 1];
  }

  /**
   * `[...globalData].sort(...).slice(0, 10)`: the rows of the bar chart and,
   * for each, its position in `globalData`. There are min(10, |globalData|)
   * of them, all different rows of `globalData`. When every total parses they
   * come in descending order of total, rows with equal totals in their input
   * order, and every row left out is ahead of none of them.
   */
  method BarChartData(globalData: seq<Row>, q: string) returns (data: seq<Row>, ranks: seq<nat>)
    ensures |data| == |ranks| == Min(TopCount, |globalData|)
    ensures forall k :: 0 <= k < |ranks| ==> ranks[k] < |globalData| && data[k] == globalData[ranks[k]]
    ensures forall x, y :: 0 <= x < y < |ranks| ==> ranks[x] != ranks[y]
    ensures AllNumbers(Totals(globalData, q)) ==> Ranked(Totals(globalData, q), ranks)
    ensures AllNumbers(Totals(globalData, q)) && ranks != [] ==>
              forall i :: 0 <= i < |globalData| && i !in ranks ==>
                Ahead(Totals(globalData, q), ranks[|ranks| - 1], i)
  {
    ranks := TopRanks(Totals(globalData, q));
    data := seq(|ranks|, k requires 0 <= k < |ranks| => globalData[ranks[k]]);
  }

  /**
   * The sort and the slice on the totals `keys` alone: the positions of the
   * first min(10, |keys|) rows of the sorted copy.
   */
  method TopRanks(keys: seq<Number>) returns (ranks: seq<nat>)
    ensures |ranks| == Min(TopCount, |keys|)
    ensures forall k :: 0 <= k < |ranks| ==> ranks[k] < |keys|
    ensures forall x, y :: 0 <= x < y < |ranks| ==> ranks[x] != ranks[y]
    ensures AllNumbers(keys) ==> Ranked(keys, ranks)
    ensures AllNumbers(keys) && ranks != [] ==>
              forall i :: 0 <= i < |keys| && i !in ranks ==> Ahead(keys, ranks[|ranks| - 1], i)
  {
    var n := |keys|;
    var copy := new nat[n](k => k);
    assert copy[..] == Positions(n);
    SortByTotal(copy, keys);
    ranks := copy[..Min(TopCount, n)];
    DistinctPositions(copy[..], n);
    if AllNumbers(keys) && ranks != [] {
      LeftOutBehind(keys, copy[..], |ranks|);
    }
  }

  /**
   * In a ranked permutation of the positions, every position outside the
   * first `m` comes after the `m`-th.
   */
  lemma LeftOutBehind(keys: seq<Number>, s: seq<nat>, m: nat)
    requires multiset(s) == multiset(Positions(|keys|)) && Ranked(keys, s)
    requires 0 < m <= |s|
    ensures forall i :: 0 <= i < |keys| && i !in s[..m] ==> Ahead(keys, s[m - 1], i)
  {
    forall i | 0 <= i < |keys| && i !in s[..m] ensures Ahead(keys, s[m - 1], i) {
      assert Positions(|keys|)[i] == i;
      assert i in multiset(s);
      var p :| 0 <= p < |s| && s[p] == i;
    }
  }

  /** A permutation of the positions 0 .. n-1 repeats none of them. */
  lemma DistinctPositions(s: seq<nat>, n: nat)
    requires multiset(s) == multiset(Positions(n))
    ensures forall x, y :: 0 <= x < y < |s| ==> s[x] != s[y]
  {
    forall x, y | 0 <= x < y < |s| ensures s[x] != s[y] {
      if s[x] == s[y] {
        var v := s[x];
        assert multiset(s)[v] >= 2 by {
          MultisetTwice(s, x, y);
        }
        PositionsOnce(n, v);
      }
    }
  }

  lemma {:induction false} MultisetTwice<T>(s: seq<T>, x: nat, y: nat)
    requires x < y < |s| && s[x] == s[y]
    ensures multiset(s)[s[x]] >= 2
  {
    assert s == s[..x] + [s[x]] + s[x + 1..y] + [s[y]] + s[y + 1..];
  }

  lemma {:induction false} PositionsOnce(n: nat, v: nat)
    ensures multiset(Positions(n))[v] <= 1
  {
    if n > 0 {
      assert Positions(n) == Positions(n - 1) + [n - 1];
      PositionsOnce(n - 1, v);
      if v == n - 1 {
        assert v !in Positions(n - 1);
      }
    }
  }

  /**
   * When every total parses, ranking by total is unique: two permutations of
   * the same rows that are both ranked are equal. So any stable sort, not only
   * insertion, yields the same bar chart.
   */
  lemma {:induction false} RankedUnique(keys: seq<Number>, s: seq<nat>, t: seq<nat>)
    requires AllNumbers(keys)
    requires multiset(s) == multiset(t)
    requires Ranked(keys, s) && Ranked(keys, t)
    ensures s == t
    decreases |s|
  {
    assert |s| == |multiset(s)| == |multiset(t)| == |t|;
    if s != [] {
      RankedHeads(keys, s, t);
      DropHead(s);
      DropHead(t);
      RankedTail(keys, s);
      RankedTail(keys, t);
      RankedUnique(keys, s[1..], t[1..]);
      assert s == [s[0]] + s[1..] && t == [t[0]] + t[1..];
    }
  }

  /** Two ranked orders of the same rows start with the same row. */
  lemma RankedHeads(keys: seq<Number>, s: seq<nat>, t: seq<nat>)
    requires multiset(s) == multiset(t) && s != []
    requires Ranked(keys, s) && Ranked(keys, t)
    ensures t != [] && s[0] == t[0]
  {
    assert s[0] in multiset(t) && t[0] in multiset(s);
    var k :| 0 <= k < |t| && t[k] == s[0];
    var m :| 0 <= m < |s| && s[m] == t[0];
  }

  lemma DropHead(s: seq<nat>)
    requires s != []
    ensures multiset(s[1..]) == multiset(s) - multiset{s[0]}
  {
    assert s == [s[0]] + s[1..];
    assert multiset(s) == multiset{s[0]} + multiset(s[1..]);
  }

  lemma RankedTail(keys: seq<Number>, s: seq<nat>)
    requires s != [] && Ranked(keys, s)
    ensures Ranked(keys, s[1..])
  {
    forall x, y | 0 <= x < y < |s| - 1 ensures Ahead(keys, s[1..][x], s[1..][y]) {
      assert s[1..][x] == s[x + 1] && s[1..][y] == s[y + 1];
    }
  }

  /**
   * `d3.max(values)`: the largest number among `values`, ignoring NaN, or
   * `undefined` (`None`) when there is none.
   */
  function MaxNumber(values: seq<Number>): (m: Option<int>)
    ensures m.None? <==> forall i :: 0 <= i < |values| ==> values[i].NaN?
    ensures m.Some? ==> (exists i :: 0 <= i < |values| && values[i] == Num(m.value)) &&
                        forall i :: 0 <= i < |values| && values[i].Num? ==> values[i].value <= m.value
  {
    if values == [] then None
    else
      var init := values[..|values| - 1];
      var last := values[|values| - 1];
      var before := MaxNumber(init);
      assert forall i :: 0 <= i < |init| ==> values[i] == init[i];
      if last.NaN? then before
      else if before.None? || before.value < last.value then Some(last.value)
      else before
  }

  /**
   * `d3.max(data, d => +d[col]) || 0`: the upper end of the y-domain, the
   * largest total among the bar chart rows, or 0 when none of them has a
   * numeric total.
   */
  function YDomainMax(data: seq<Row>, q: string): (top: int)
    ensures (exists k :: 0 <= k < |data| && NumberAt(data[k], TotalColumn(q)) == Num(top)) ||
            (top == 0 && forall k :: 0 <= k < |data| ==> NumberAt(data[k], TotalColumn(q)).NaN?)
    ensures forall k :: 0 <= k < |data| && NumberAt(data[k], TotalColumn(q)).Num? ==>
              NumberAt(data[k], TotalColumn(q)).value <= top
  {
    match MaxNumber(Totals(data, q))
    case None => 0
    case Some(m) => m
  }

  /**
   * On the ranked top rows the y-domain ends at the first row's total, or at
   * 0 when there are no rows.
   */
  lemma YDomainIsFirst(globalData: seq<Row>, q: string, ranks: seq<nat>)
    requires forall k :: 0 <= k < |ranks| ==> ranks[k] < |globalData|
    requires AllNumbers(Totals(globalData, q)) && Ranked(Totals(globalData, q), ranks)
    ensures var data := seq(|ranks|, k requires 0 <= k < |ranks| => globalData[ranks[k]]);
      YDomainMax(data, q) == if ranks == [] then 0 else Totals(globalData, q)[ranks[0]].value
  {
    var keys := Totals(globalData, q);
    var data := seq(|ranks|, k requires 0 <= k < |ranks| => globalData[ranks[k]]);
    if ranks != [] {
      var top := YDomainMax(data, q);
      assert NumberAt(data[0], TotalColumn(q)) == keys[ranks[0]];
      var k :| 0 <= k < |data| && NumberAt(data[k], TotalColumn(q)) == Num(top);
      if k > 0 {
        assert Ahead(keys, ranks[0], ranks[k]);
      }
    }
  }
}
