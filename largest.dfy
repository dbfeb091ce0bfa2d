/**
 * `DataFrame.nlargest(n, 'pop')` over the table's rows: the `n` rows of
 * greatest population, greatest first, earlier rows first among equals
 * (pandas' default `keep='first'`).
 */
module Largest {
  import opened Table

  /** Rows ordered by non-increasing population. */
  ghost predicate ByPopDesc(s: seq<Record>) {
    forall i, j :: 0 <= i < j < |s| ==> s[i].pop >= s[j].pop
  }

  /** A row heading a list ordered by population, with no smaller population than any of it, keeps the order. */
  lemma ConsByPop(h: Record, s: seq<Record>)
    requires ByPopDesc(s)
    requires forall y :: y in s ==> y.pop <= h.pop
    ensures ByPopDesc([h] + s)
  {
  }

  /** The head of a list ordered by population has no smaller population than any of it. */
  lemma HeadOutranks(t: seq<Record>)
    requires ByPopDesc(t)
    ensures t != [] ==> forall y :: y in t ==> y.pop <= t[0].pop
  {
    forall y | y in t ensures y.pop <= t[0].pop {
      var j :| 0 <= j < |t| && t[j] == y;
    }
  }

  /** The tail of a list ordered by population is ordered by population. */
  lemma TailByPop(t: seq<Record>)
    requires t != [] && ByPopDesc(t)
    ensures ByPopDesc(t[1..])
  {
    forall i, j | 0 <= i < j < |t| - 1 ensures t[1..][i].pop >= t[1..][j].pop {
      assert t[1..][i] == t[i + 1] && t[1..][j] == t[j + 1];
    }
  }

  /** `x` ahead of a list it outranks or ties with keeps the order. */
  lemma InsertAtHead(x: Record, t: seq<Record>)
    requires ByPopDesc(t)
    requires t == [] || t[0].pop <= x.pop
    ensures ByPopDesc([x] + t)
  {
    HeadOutranks(t);
    ConsByPop(x, t);
  }

  /** `x` inserted into the tail of a list whose head outranks it keeps the head first and the order. */
  lemma InsertBehindHead(x: Record, t: seq<Record>, rest: seq<Record>)
    requires t != [] && ByPopDesc(t) && x.pop < t[0].pop
    requires ByPopDesc(rest) && multiset(rest) == multiset(t[1..]) + multiset{x}
    ensures ByPopDesc([t[0]] + rest)
    ensures multiset([t[0]] + rest) == multiset(t) + multiset{x}
  {
    assert t == [t[0]] + t[1..];
    HeadOutranks(t);
    forall y | y in rest ensures y.pop <= t[0].pop {
      assert y in multiset(rest);
      assert y == x || y in t;
    }
    ConsByPop(t[0], rest);
  }

  /**
   * Places `x` in front of the first row of `t` whose population does not
   * exceed its own; since `x` precedes every row of `t` in the input, this
   * keeps equal populations in input order.
   */
  function InsertByPop(x: Record, t: seq<Record>): (r: seq<Record>)
    requires ByPopDesc(t)
    ensures multiset(r) == multiset(t) + multiset{x}
    ensures |r| == |t| + 1
    ensures ByPopDesc(r)
  {
    if t == [] || t[0].pop <= x.pop then
      InsertAtHead(x, t);
      [x] + t
    else
      TailByPop(t);
      var rest := InsertByPop(x, t[1..]);
      InsertBehindHead(x, t, rest);
      [t[0]] + rest
  }

  /** Stable sort by non-increasing population. */
  function SortByPop(s: seq<Record>): (r: seq<Record>)
    ensures multiset(r) == multiset(s)
    ensures |r| == |s|
    ensures ByPopDesc(r)
  {
    if s == [] then []
    else
      assert s == [s[0]] + s[1..];
      InsertByPop(s[0], SortByPop(s[1..]))
  }

  /** Cutting a list ordered by population leaves nothing behind that outranks what was kept. */
  lemma PrefixOutranksRest(sorted: seq<Record>, k: nat)
    requires k <= |sorted| && ByPopDesc(sorted)
    ensures ByPopDesc(sorted[..k])
    ensures multiset(sorted[..k]) <= multiset(sorted)
    ensures multiset(sorted) - multiset(sorted[..k]) == multiset(sorted[k..])
    ensures forall x, y :: x in multiset(sorted[k..]) && y in sorted[..k] ==> x.pop <= y.pop
  {
    assert sorted == sorted[..k] + sorted[k..];
    forall x, y | x in multiset(sorted[k..]) && y in sorted[..k] ensures x.pop <= y.pop {
      assert x in sorted[k..];
      var i :| k <= i < |sorted| && sorted[i] == x;
      var j :| 0 <= j < k && sorted[j] == y;
    }
  }

  /**
   * `nlargest(n, 'pop')`: `min(n, |s|)` rows of `s`, by non-increasing
   * population, and no row left out has a population above any row kept.
   */
  function NLargest(s: seq<Record>, n: nat): (r: seq<Record>)
    ensures |r| == if n < |s| then n else |s|
    ensures ByPopDesc(r)
    ensures multiset(r) <= multiset(s)
    ensures forall x :: x in r ==> x in s
    ensures forall x, y :: x in multiset(s) - multiset(r) && y in r ==> x.pop <= y.pop
  {
    var sorted := SortByPop(s);
    var k := if n < |s| then n else |s|;
    PrefixOutranksRest(sorted, k);
    var r := sorted[..k];
    assert forall x :: x in r ==> x in multiset(r);
    r
  }

  /** The rows more populous than `x`, as a mask. */
  function Outranks(x: Record): Record -> bool {
    (y: Record) => y.pop > x.pop
  }

  /** A sub-multiset is no larger. */
  lemma SubMultisetSize(a: multiset<Record>, b: multiset<Record>)
    requires a <= b
    ensures |a| <= |b|
  {
    assert b == a + (b - a);
  }

  /**
   * When no row left out of `r` outranks a row kept, a kept row `x` comes with
   * every row of `s` more populous than it, each with all its copies: `r` is
   * longer than those rows.
   */
  lemma OutrankedRowsKept(s: seq<Record>, r: seq<Record>, x: Record)
    requires multiset(r) <= multiset(s)
    requires forall a, b :: a in multiset(s) - multiset(r) && b in r ==> a.pop <= b.pop
    requires x in r
    ensures multiset(Filter(s, Outranks(x))) + multiset{x} <= multiset(r)
    ensures |Filter(s, Outranks(x))| < |r|
  {
    var above := multiset(Filter(s, Outranks(x)));
    FilterMultiset(s, Outranks(x));
    forall y ensures (above + multiset{x})[y] <= multiset(r)[y] {
      if y.pop > x.pop {
        assert y !in multiset(s) - multiset(r);
        assert above[y] == multiset(s)[y] && y != x;
      } else {
        assert above[y] == 0;
      }
    }
    SubMultisetSize(above + multiset{x}, multiset(r));
  }

  /** The rows of one population value, as a mask. */
  function PopIs(v: nat): Record -> bool {
    (x: Record) => x.pop == v
  }

  /** Inserting `x` puts it ahead of every row of `t` with the same population. */
  lemma {:induction false} InsertByPopStable(x: Record, t: seq<Record>, v: nat)
    requires ByPopDesc(t)
    ensures Filter(InsertByPop(x, t), PopIs(v)) == Filter([x], PopIs(v)) + Filter(t, PopIs(v))
  {
    if t == [] || t[0].pop <= x.pop {
      FilterAppend([x], t, PopIs(v));
    } else {
      TailByPop(t);
      var rest := InsertByPop(x, t[1..]);
      var keep := PopIs(v);
      var fx, f0 := Filter([x], keep), Filter([t[0]], keep);
      assert [x][1..] == [] && [t[0]][1..] == [];
      // `x` and `t[0]` differ in population, so at most one of them is of population `v`.
      assert fx == [] || f0 == [];
      calc {
        Filter(InsertByPop(x, t), keep);
        Filter([t[0]] + rest, keep);
        { FilterAppend([t[0]], rest, keep); }
        f0 + Filter(rest, keep);
        { InsertByPopStable(x, t[1..], v); }
        f0 + (fx + Filter(t[1..], keep));
        fx + (f0 + Filter(t[1..], keep));
        { FilterAppend([t[0]], t[1..], keep); assert t == [t[0]] + t[1..]; }
        fx + Filter(t, keep);
      }
    }
  }

  /** The sort is stable: the rows of each population value keep their input order. */
  lemma {:induction false} SortByPopStable(s: seq<Record>, v: nat)
    ensures Filter(SortByPop(s), PopIs(v)) == Filter(s, PopIs(v))
  {
    if s != [] {
      assert SortByPop(s) == InsertByPop(s[0], SortByPop(s[1..]));
      SortByPopStable(s[1..], v);
      InsertByPopStable(s[0], SortByPop(s[1..]), v);
      FilterAppend([s[0]], s[1..], PopIs(v));
      assert s == [s[0]] + s[1..];
    }
  }

  /**
   * Ties at the cut are settled as `keep='first'` does: of the rows sharing a
   * population value, those kept are the earliest ones of the input, in input order.
   */
  lemma NLargestKeepsFirst(s: seq<Record>, n: nat, v: nat)
    ensures var kept := Filter(NLargest(s, n), PopIs(v));
            var all := Filter(s, PopIs(v));
            |kept| <= |all| && kept == all[..|kept|]
  {
    var sorted := SortByPop(s);
    var k := if n < |s| then n else |s|;
    SortByPopStable(s, v);
    assert sorted == sorted[..k] + sorted[k..];
    FilterAppend(sorted[..k], sorted[k..], PopIs(v));
  }
}
