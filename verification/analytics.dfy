/**
 The data side of the "Refresh analytics" button (`update_analytics`): the
 ascending snapshot `SELECT date, mood, sentiment_score, symptoms FROM
 entries ORDER BY date`, the "no data" answer on an empty table, the
 per-mood counts (`value_counts`) and the sentiment series, one point per
 snapshot row in snapshot order (the plot's x axis is the row index).
 */
module Analytics {
  import opened Seqs
  import opened Store
  import opened Query

  /** A snapshot row: `SELECT date, mood, sentiment_score, symptoms`. */
  datatype Sample = Sample(date: string, mood: string, score: real, symptoms: string)

  function SampleOf(e: Entry): Sample {
    Sample(e.date, e.mood, e.score, e.symptoms)
  }

  function SampleDate(x: Sample): string { x.date }
  function SampleMood(x: Sample): string { x.mood }
  function SampleScore(x: Sample): real { x.score }
  function EntryMood(e: Entry): string { e.mood }

  /**
   `pd.to_datetime` on the whole date column: true when it converts every
   value, false when it raises. A foreign parser, taken as a parameter.
   */
  type DateParser = seq<string> -> bool

  datatype Analysis =
    | NoData               // the table is empty: "no data to analyse"
    | DatesUnparsable      // the date column did not parse: the refresh stops
    | Report(rows: seq<Sample>, moodCounts: map<string, nat>, series: seq<real>)

  /** The snapshot the analytics are computed from: every entry, oldest date first. */
  function Snapshot(s: Store): (rows: seq<Sample>)
    ensures multiset(rows) == multiset(MapSeq(SampleOf, s.entries))
    ensures forall i, j :: 0 <= i < j < |rows| ==> Text.LexLe(rows[i].date, rows[j].date)
  {
    var sorted := SortByDate(Ascending, s.entries);
    MapSeqPermutation(SampleOf, sorted, s.entries);
    MapSeq(SampleOf, sorted)
  }

  /** Sum of the values of a map. */
  ghost function SumValues<K>(m: map<K, nat>): nat
    decreases |m|
  {
    if m == map[] then 0
    else
      var k :| k in m;
      m[k] + SumValues(m - {k})
  }

  /** The sum does not depend on which key is taken out first. */
  lemma {:induction false} SumValuesRemove<K>(m: map<K, nat>, k: K)
    requires k in m
    ensures SumValues(m) == m[k] + SumValues(m - {k})
    decreases |m|
  {
    var j :| j in m && SumValues(m) == m[j] + SumValues(m - {j});
    if j != k {
      SumValuesRemove(m - {j}, k);
      SumValuesRemove(m - {k}, j);
      assert m - {j} - {k} == m - {k} - {j};
    }
  }

  /** `value_counts`: each label mapped to the number of times it occurs. */
  function Tally(xs: seq<string>): (m: map<string, nat>)
    ensures forall x :: x in m <==> x in xs
    ensures forall x :: x in m ==> m[x] == multiset(xs)[x]
    ensures SumValues(m) == |xs|
  {
    if xs == [] then map[]
    else
      var init := xs[..|xs| - 1];
      var x := xs[|xs| - 1];
      assert xs == init + [x];
      var m := Tally(init);
      var r := m[x := (if x in m then m[x] else 0) + 1];
      assert SumValues(r) == SumValues(m) + 1 by {
        SumValuesRemove(r, x);
        assert r - {x} == m - {x};
        if x in m {
          SumValuesRemove(m, x);
        } else {
          assert m - {x} == m;
        }
      }
      r
  }

  /** The data `update_analytics` computes before it draws. */
  function Analyze(s: Store, parses: DateParser): (r: Analysis)
    ensures r.NoData? <==> s.entries == []
    ensures r.DatesUnparsable? <==> s.entries != [] && !parses(MapSeq(SampleDate, Snapshot(s)))
    ensures r.Report? ==>
      && r.rows == Snapshot(s)
      && (forall m :: m in r.moodCounts <==> m in MapSeq(EntryMood, s.entries))
      && (forall m :: m in r.moodCounts ==> r.moodCounts[m] == multiset(MapSeq(EntryMood, s.entries))[m])
      && SumValues(r.moodCounts) == |s.entries|
      && |r.series| == |r.rows|
      && (forall i :: 0 <= i < |r.rows| ==> r.series[i] == r.rows[i].score)
  {
    var rows := Snapshot(s);
    if rows == [] then
      NoData
    else if !parses(MapSeq(SampleDate, rows)) then
      DatesUnparsable
    else
      var moods := MapSeq(SampleMood, rows);
      var sorted := SortByDate(Ascending, s.entries);
      assert moods == MapSeq(EntryMood, sorted);
      MapSeqPermutation(EntryMood, sorted, s.entries);
      assert multiset(moods) == multiset(MapSeq(EntryMood, s.entries));
      assert forall m :: m in moods <==> m in multiset(moods);
      assert forall m :: m in MapSeq(EntryMood, s.entries) <==> m in multiset(MapSeq(EntryMood, s.entries));
      Report(rows, Tally(moods), MapSeq(SampleScore, rows))
  }
}
