/**
 * How the bubble and bar callbacks hand their highlight positions to the
 * drawing. With `color='continent'`, Plotly Express draws one trace per
 * continent, in order of first appearance, each holding that continent's rows
 * in frame order, and a trace's `selectedpoints` are positions within that
 * trace. The callbacks give every trace the positions computed over the whole
 * frame (dash/main.py:215-216 and 267-268).
 */
module Traces {
  import opened Table
  import opened GroupSum
  import opened Selection

  /** The position of the first row of continent `c`, or `|rows|` when no row has it. */
  function FirstIndex(rows: seq<Record>, c: Continent): (k: nat)
    ensures k <= |rows|
    ensures k < |rows| ==> rows[k].continent == c
    ensures forall m :: 0 <= m < k && m < |rows| ==> rows[m].continent != c
  {
    if rows == [] || rows[0].continent == c then 0 else 1 + FirstIndex(rows[1..], c)
  }

  /** Appending a row moves no first appearance, and makes one for a continent that had none. */
  lemma FirstIndexSnoc(rows: seq<Record>, x: Record, c: Continent)
    ensures FirstIndex(rows + [x], c)
         == if FirstIndex(rows, c) < |rows| then FirstIndex(rows, c)
            else if x.continent == c then |rows| else |rows| + 1
  {
    var s := rows + [x];
    var k, k' := FirstIndex(rows, c), FirstIndex(s, c);
    assert forall m :: 0 <= m < |rows| ==> s[m] == rows[m];
    if k < |rows| {
      assert s[k].continent == c;
    } else if x.continent == c {
      assert s[|rows|].continent == c;
    }
  }

  /** `r` lists continents of `rows`, each once, in order of first appearance. */
  ghost predicate InFirstAppearanceOrder(rows: seq<Record>, r: seq<Continent>) {
    && (forall i :: 0 <= i < |r| ==> FirstIndex(rows, r[i]) < |rows|)
    && (forall i, j :: 0 <= i < j < |r| ==> FirstIndex(rows, r[i]) < FirstIndex(rows, r[j]))
    && (forall i, j :: 0 <= i < j < |r| ==> r[i] != r[j])
  }

  /** A row adding no new continent keeps the order of first appearance. */
  lemma SnocSeen(init: seq<Record>, last: Record, front: seq<Continent>)
    requires InFirstAppearanceOrder(init, front)
    ensures InFirstAppearanceOrder(init + [last], front)
  {
    forall i | 0 <= i < |front| ensures FirstIndex(init + [last], front[i]) == FirstIndex(init, front[i]) {
      FirstIndexSnoc(init, last, front[i]);
    }
  }

  /** A row of a continent not seen before appends that continent last. */
  lemma SnocNew(init: seq<Record>, last: Record, front: seq<Continent>)
    requires InFirstAppearanceOrder(init, front)
    requires forall x :: x in init ==> x.continent != last.continent
    ensures InFirstAppearanceOrder(init + [last], front + [last.continent])
  {
    var c := last.continent;
    SnocSeen(init, last, front);
    FirstIndexSnoc(init, last, c);
    assert FirstIndex(init, c) == |init|;
    var r := front + [c];
    forall i | 0 <= i < |front| ensures r[i] != c {
      FirstIndexSnoc(init, last, front[i]);
    }
  }

  /**
   * The continents of the rows in order of first appearance, each once: one
   * trace each, in the order the traces are drawn.
   */
  function TraceContinents(rows: seq<Record>): (r: seq<Continent>)
    ensures forall c :: c in r <==> exists x :: x in rows && x.continent == c
    ensures forall i :: 0 <= i < |r| ==> FirstIndex(rows, r[i]) < |rows|
    ensures forall i, j :: 0 <= i < j < |r| ==> FirstIndex(rows, r[i]) < FirstIndex(rows, r[j])
    ensures forall i, j :: 0 <= i < j < |r| ==> r[i] != r[j]
  {
    if rows == [] then []
    else
      var init := rows[..|rows| - 1];
      var last := rows[|rows| - 1];
      var front := TraceContinents(init);
      assert rows == init + [last];
      assert forall x :: x in rows <==> x == last || x in init;
      if last.continent in front then
        SnocSeen(init, last, front);
        front
      else
        SnocNew(init, last, front);
        front + [last.continent]
  }

  /** The points of the trace of continent `c`, in frame order. */
  function TraceRows(rows: seq<Record>, c: Continent): seq<Record> {
    Filter(rows, OfContinent(c))
  }

  /** As written: every trace receives the positions computed over the whole frame. */
  function SelectedPointsAsWritten(rows: seq<Record>, highlights: seq<nat>): (r: seq<seq<nat>>)
    ensures |r| == |TraceContinents(rows)|
    ensures forall t :: 0 <= t < |r| ==> r[t] == highlights
  {
    seq(|TraceContinents(rows)|, _ => highlights)
  }

  /**
   * Corrected: each trace receives the positions, within the trace, of its
   * rows whose country is selected; a point is highlighted exactly when its
   * own country is selected.
   */
  function SelectedPointsPerTrace(rows: seq<Record>, selected: seq<Country>): (r: seq<seq<nat>>)
    ensures |r| == |TraceContinents(rows)|
    ensures forall t, j: nat :: 0 <= t < |r| ==>
              var points := TraceRows(rows, TraceContinents(rows)[t]);
              (j in r[t] <==> j < |points| && points[j].country in selected)
  {
    var keys := TraceContinents(rows);
    seq(|keys|, t requires 0 <= t < |keys| => Highlights(TraceRows(rows, keys[t]), selected))
  }

  /**
   * With one continent in the frame every trace holds every row, and the
   * positions as written are the right ones.
   */
  lemma OneContinentAgrees(rows: seq<Record>, selected: seq<Country>)
    requires rows != []
    requires forall x :: x in rows ==> x.continent == rows[0].continent
    ensures SelectedPointsAsWritten(rows, Highlights(rows, selected)) == SelectedPointsPerTrace(rows, selected)
  {
    var keys := TraceContinents(rows);
    var c := rows[0].continent;
    FilterKeepsAll(rows, OfContinent(c));
    forall t | 0 <= t < |keys| ensures TraceRows(rows, keys[t]) == rows {
      assert keys[t] in keys;
      assert keys[t] == c;
    }
  }

  /**
   * Two rows of different continents, the second one selected: over the whole
   * frame its position is 1, but it is point 0 of the second trace, so as
   * written it is not highlighted there; the corrected positions highlight it.
   */
  lemma AsWrittenMissesSelectedCountry()
    ensures var rows := [Record("China", "Asia", 2007, 1318683096), Record("France", "Europe", 2007, 61083916)];
            var asWritten := SelectedPointsAsWritten(rows, Highlights(rows, ["France"]));
            var perTrace := SelectedPointsPerTrace(rows, ["France"]);
            && TraceContinents(rows) == ["Asia", "Europe"]
            && TraceRows(rows, "Europe") == [rows[1]]
            && 0 !in asWritten[1]
            && perTrace[1] == [0]
  {
    var rows := [Record("China", "Asia", 2007, 1318683096), Record("France", "Europe", 2007, 61083916)];
    assert rows[..1] == [rows[0]];
    assert TraceContinents(rows[..1]) == ["Asia"];
    assert TraceContinents(rows) == ["Asia", "Europe"];
    assert Highlights(rows, ["France"]) == [1] by {
      assert rows[..1][..0] == [];
      assert Highlights(rows[..1], ["France"]) == [];
    }
    var europe := TraceRows(rows, "Europe");
    assert rows[1..] == [rows[1]] && rows[1..][1..] == [];
    assert europe == [rows[1]];
    assert Highlights(europe, ["France"]) == [0] by {
      assert europe[..0] == [];
    }
  }
}
