/**
 * `dff.groupby('continent')['pop'].sum().reset_index()`: one slice per
 * continent present in the rows, in ascending order of the continent name
 * (pandas sorts group keys), holding the total population of that
 * continent's rows.
 */
module GroupSum {
  import opened Table

  /** One row of the grouped frame: a continent and its summed population. */
  datatype Slice = Slice(continent: Continent, pop: nat)

  /** Code-point lexicographic order, the order Python compares `str` values in. */
  predicate Less(a: string, b: string) {
    if a == [] then b != []
    else if b == [] then false
    else a[0] < b[0] || (a[0] == b[0] && Less(a[1..], b[1..]))
  }

  lemma {:induction false} LessIrreflexive(a: string)
    ensures !Less(a, a)
  {
    if a != [] {
      LessIrreflexive(a[1..]);
    }
  }

  lemma {:induction false} LessTransitive(a: string, b: string, c: string)
    requires Less(a, b) && Less(b, c)
    ensures Less(a, c)
  {
    if a != [] && b != [] && c != [] && a[0] == b[0] == c[0] {
      LessTransitive(a[1..], b[1..], c[1..]);
    }
  }

  lemma {:induction false} LessTotal(a: string, b: string)
    requires a != b
    ensures Less(a, b) || Less(b, a)
  {
    if a != [] && b != [] && a[0] == b[0] {
      assert a == [a[0]] + a[1..] && b == [b[0]] + b[1..];
      LessTotal(a[1..], b[1..]);
    }
  }

  /** Names in strictly ascending order, hence pairwise distinct. */
  ghost predicate Ascending(ks: seq<string>) {
    forall i, j :: 0 <= i < j < |ks| ==> Less(ks[i], ks[j])
  }

  /** Names in ascending order are pairwise distinct. */
  lemma AscendingDistinct(ks: seq<string>)
    requires Ascending(ks)
    ensures forall i, j :: 0 <= i < j < |ks| ==> ks[i] != ks[j]
  {
    forall i, j | 0 <= i < j < |ks| ensures ks[i] != ks[j] {
      LessIrreflexive(ks[i]);
    }
  }

  /** Adds `k` to an ascending list of names, in its place, unless it is there already. */
  function AddKey(k: string, ks: seq<string>): (r: seq<string>)
    requires Ascending(ks)
    ensures Ascending(r)
    ensures forall c :: c in r <==> c == k || c in ks
  {
    if ks == [] then [k]
    else if k == ks[0] then ks
    else if Less(k, ks[0]) then
      assert forall c :: c in ks ==> c == ks[0] || Less(ks[0], c);
      forall c | c in ks ensures Less(k, c) {
        if c != ks[0] { LessTransitive(k, ks[0], c); }
      }
      [k] + ks
    else
      LessTotal(k, ks[0]);
      var rest := AddKey(k, ks[1..]);
      assert forall c :: c in rest ==> Less(ks[0], c);
      assert forall c :: c in ks <==> c == ks[0] || c in ks[1..];
      [ks[0]] + rest
  }

  /** The continents of the rows, ascending, each once: the group keys. */
  function GroupKeys(rows: seq<Record>): (r: seq<Continent>)
    ensures Ascending(r)
    ensures forall c :: c in r <==> exists x :: x in rows && x.continent == c
  {
    if rows == [] then []
    else
      var keys := AddKey(rows[0].continent, GroupKeys(rows[1..]));
      assert forall x :: x in rows <==> x == rows[0] || x in rows[1..];
      keys
  }

  /** Total population of the rows. */
  function TotalPop(rows: seq<Record>): nat {
    if rows == [] then 0 else rows[0].pop + TotalPop(rows[1..])
  }

  /** The rows of one continent, as a mask. */
  function OfContinent(c: Continent): Record -> bool {
    (x: Record) => x.continent == c
  }

  /** `sum()` of one group: the total population of the rows of continent `c`. */
  function GroupTotal(rows: seq<Record>, c: Continent): nat {
    TotalPop(Filter(rows, OfContinent(c)))
  }

  /** The population of the slices added up. */
  function SlicesPop(slices: seq<Slice>): nat {
    if slices == [] then 0 else slices[0].pop + SlicesPop(slices[1..])
  }

  /** The grouped frame: one slice per key, in key order. */
  function GroupByContinent(rows: seq<Record>): (r: seq<Slice>)
    ensures Ascending(Continents(r))
    ensures forall c :: c in Continents(r) <==> exists x :: x in rows && x.continent == c
    ensures forall i :: 0 <= i < |r| ==> r[i].pop == GroupTotal(rows, r[i].continent)
  {
    var keys := GroupKeys(rows);
    var r := seq(|keys|, i requires 0 <= i < |keys| => Slice(keys[i], GroupTotal(rows, keys[i])));
    assert Continents(r) == keys;
    r
  }

  /** The continent column of the grouped frame. */
  function Continents(slices: seq<Slice>): (r: seq<Continent>)
    ensures |r| == |slices|
    ensures forall i :: 0 <= i < |slices| ==> r[i] == slices[i].continent
  {
    if slices == [] then [] else [slices[0].continent] + Continents(slices[1..])
  }

  /** Grouping loses no population: the slices add up to the population of the rows. */
  lemma GroupByContinentKeepsTotal(rows: seq<Record>)
    ensures SlicesPop(GroupByContinent(rows)) == TotalPop(rows)
  {
    var keys := GroupKeys(rows);
    var r := GroupByContinent(rows);
    assert Continents(r) == keys;
    SlicesPopIsKeysPop(rows, r);
    KeysPopIsTotal(rows, keys);
  }

  /** The population of `rows` summed group by group over `keys`. */
  function KeysPop(rows: seq<Record>, keys: seq<Continent>): nat {
    if keys == [] then 0 else GroupTotal(rows, keys[0]) + KeysPop(rows, keys[1..])
  }

  lemma {:induction false} SlicesPopIsKeysPop(rows: seq<Record>, slices: seq<Slice>)
    requires forall i :: 0 <= i < |slices| ==> slices[i].pop == GroupTotal(rows, slices[i].continent)
    ensures SlicesPop(slices) == KeysPop(rows, Continents(slices))
  {
    if slices != [] {
      SlicesPopIsKeysPop(rows, slices[1..]);
      assert Continents(slices)[1..] == Continents(slices[1..]);
    }
  }

  /** What one row adds to the group totals over `keys`. */
  function RowShare(x: Record, keys: seq<Continent>): nat {
    if keys == [] then 0 else (if x.continent == keys[0] then x.pop else 0) + RowShare(x, keys[1..])
  }

  /** Over distinct keys that include its continent, a row adds its population exactly once. */
  lemma {:induction false} RowShareOnce(x: Record, keys: seq<Continent>)
    requires Ascending(keys)
    requires x.continent in keys
    ensures RowShare(x, keys) == x.pop
  {
    if x.continent == keys[0] {
      RowShareNone(x, keys[1..]);
    } else {
      RowShareOnce(x, keys[1..]);
    }
  }

  lemma {:induction false} RowShareNone(x: Record, keys: seq<Continent>)
    requires Ascending([x.continent] + keys)
    ensures RowShare(x, keys) == 0
  {
    if keys != [] {
      var ks := [x.continent] + keys;
      assert ks[0] == x.continent && ks[1] == keys[0];
      assert Less(ks[0], ks[1]);
      LessIrreflexive(x.continent);
      assert Ascending([x.continent] + keys[1..]) by {
        forall i, j | 0 <= i < j < |[x.continent] + keys[1..]|
          ensures Less(([x.continent] + keys[1..])[i], ([x.continent] + keys[1..])[j])
        {
          assert ([x.continent] + keys[1..])[j] == ([x.continent] + keys)[j + 1];
          assert ([x.continent] + keys[1..])[i] == ([x.continent] + keys)[if i == 0 then 0 else i + 1];
        }
      }
      RowShareNone(x, keys[1..]);
    }
  }

  /** Group totals over keys covering every continent of the rows add up to the population of the rows. */
  lemma {:induction false} KeysPopIsTotal(rows: seq<Record>, keys: seq<Continent>)
    requires Ascending(keys)
    requires forall x :: x in rows ==> x.continent in keys
    ensures KeysPop(rows, keys) == TotalPop(rows)
  {
    if rows != [] {
      KeysPopIsTotal(rows[1..], keys);
      KeysPopSplit(rows, keys);
      RowShareOnce(rows[0], keys);
    } else {
      KeysPopOfNothing(keys);
    }
  }

  lemma {:induction false} KeysPopOfNothing(keys: seq<Continent>)
    ensures KeysPop([], keys) == 0
  {
    if keys != [] {
      KeysPopOfNothing(keys[1..]);
    }
  }

  /** Peeling the first row off every group total. */
  lemma {:induction false} KeysPopSplit(rows: seq<Record>, keys: seq<Continent>)
    requires rows != []
    ensures KeysPop(rows, keys) == RowShare(rows[0], keys) + KeysPop(rows[1..], keys)
  {
    if keys != [] {
      KeysPopSplit(rows, keys[1..]);
      var keep := OfContinent(keys[0]);
      assert Filter(rows, keep) == (if keep(rows[0]) then [rows[0]] else []) + Filter(rows[1..], keep);
      TotalPopAppend(if keep(rows[0]) then [rows[0]] else [], Filter(rows[1..], keep));
    }
  }

  lemma {:induction false} TotalPopAppend(a: seq<Record>, b: seq<Record>)
    ensures TotalPop(a + b) == TotalPop(a) + TotalPop(b)
  {
    if a != [] {
      TotalPopAppend(a[1..], b);
      assert (a + b)[0] == a[0] && (a + b)[1..] == a[1..] + b;
    } else {
      assert a + b == b;
    }
  }
}
