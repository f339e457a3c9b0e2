/**
 The journal as the window drives it: one store threaded through the four
 buttons (save, delete, history refresh, analytics refresh), and what holds
 across any sequence of them.
 */
module Journal {
  import opened Text
  import opened Seqs
  import opened Store
  import opened Query
  import opened Analytics

  datatype Op =
    | SaveOp(date: string, mood: string, rawNote: string, symptoms: string)
    | DeleteOp(date: string)
    | ListOp
    | AnalyzeOp

  datatype Output =
    | SavedEntry(entry: Entry)
    | SaveRejected(error: SaveError)
    | Deleted(count: nat)
    | Listed(rows: seq<Row>)
    | Analyzed(analysis: Analysis)

  /** One button press against the store; every operation is atomic. */
  function Step(s: Store, op: Op, score: Scorer, parses: DateParser): (r: (Store, Output))
    ensures op.ListOp? || op.AnalyzeOp? ==> r.0 == s
    ensures r.1.SaveRejected? ==> r.0 == s
    ensures r.1.SavedEntry? ==> r.1.entry.id == s.lastId + 1 == r.0.lastId
    ensures !r.1.SavedEntry? ==> r.0.lastId == s.lastId
    ensures forall e :: e in r.0.entries ==> e in s.entries || (r.1.SavedEntry? && e == r.1.entry)
    ensures op.DeleteOp? ==> r.1.Deleted? && |r.0.entries| + r.1.count == |s.entries|
    ensures Valid(s, score) ==> Valid(r.0, score)
  {
    match op
    case SaveOp(date, mood, rawNote, symptoms) =>
      var res := Save(s, date, mood, rawNote, symptoms, score);
      assert Valid(s, score) && res.Saved? ==> Valid(res.store, score) by {
        if Valid(s, score) {
          SaveKeepsValid(s, date, mood, rawNote, symptoms, score);
        }
      }
      if res.Saved? then (res.store, SavedEntry(res.entry)) else (s, SaveRejected(res.error))
    case DeleteOp(date) =>
      var s' := DeleteByDate(s, date);
      assert Valid(s, score) ==> Valid(s', score) by {
        if Valid(s, score) {
          DeleteKeepsValid(s, date, score);
        }
      }
      RemoveDateMembers(s.entries, date);
      (s', Deleted(CountDate(s.entries, date)))
    case ListOp => (s, Listed(ListEntries(s)))
    case AnalyzeOp => (s, Analyzed(Analyze(s, parses)))
  }

  /**
   A session: the operations in order, the final store and the ids assigned
   along the way. Ids are handed out in strictly increasing order, each one
   above every id assigned before the session, so no id is ever given twice,
   not even after the entry that carried it was deleted.
   */
  function Run(s: Store, ops: seq<Op>, score: Scorer, parses: DateParser): (r: (Store, seq<nat>))
    ensures r.0.lastId >= s.lastId
    ensures forall i, j :: 0 <= i < j < |r.1| ==> r.1[i] < r.1[j]
    ensures forall i :: 0 <= i < |r.1| ==> s.lastId < r.1[i] <= r.0.lastId
    ensures forall e :: e in r.0.entries ==> e in s.entries || e.id in r.1
    ensures Valid(s, score) ==> Valid(r.0, score)
    decreases |ops|
  {
    if ops == [] then (s, [])
    else
      var (s1, out) := Step(s, ops[0], score, parses);
      var (final, ids) := Run(s1, ops[1..], score, parses);
      var issued := if out.SavedEntry? then [out.entry.id] + ids else ids;
      (final, issued)
  }

  /** No id assigned during a session belongs to an entry present before it. */
  lemma IdsNeverReused(s: Store, ops: seq<Op>, score: Scorer, parses: DateParser)
    requires Valid(s, score)
    ensures var r := Run(s, ops, score, parses);
      forall e, i :: e in s.entries && 0 <= i < |r.1| ==> e.id != r.1[i]
  {
  }

  /** A saved entry shows up in the history listing exactly as entered, note stripped. */
  lemma SaveThenList(s: Store, date: string, mood: string, rawNote: string, symptoms: string, score: Scorer)
    requires mood != "" && s.lastId < MaxRowId
    ensures var r := Save(s, date, mood, rawNote, symptoms, score);
      && r.Saved?
      && multiset(ListEntries(r.store)) == multiset(ListEntries(s)) + multiset{Row(date, mood, symptoms, Strip(rawNote))}
  {
    var r := Save(s, date, mood, rawNote, symptoms, score);
    MapSeqAppend(RowOf, s.entries, [r.entry]);
  }

  /**
   A saved entry's score reaches the sentiment series unchanged: it is the
   analyser's value for the stripped note, at the entry's place in the snapshot.
   */
  lemma SaveThenAnalyze(s: Store, date: string, mood: string, rawNote: string, symptoms: string,
                        score: Scorer, parses: DateParser)
    requires mood != "" && s.lastId < MaxRowId
    ensures var r := Save(s, date, mood, rawNote, symptoms, score);
      var a := Analyze(r.store, parses);
      && r.Saved?
      && (a.Report? || a.DatesUnparsable?)
      && (a.Report? ==> exists i :: 0 <= i < |a.rows| && a.rows[i] == SampleOf(r.entry) && a.series[i] == score(Strip(rawNote)))
  {
    var r := Save(s, date, mood, rawNote, symptoms, score);
    var a := Analyze(r.store, parses);
    if a.Report? {
      var x := SampleOf(r.entry);
      var es := r.store.entries;
      assert es[|es| - 1] == r.entry;
      assert MapSeq(SampleOf, es)[|es| - 1] == x;
      assert x in multiset(MapSeq(SampleOf, es));
      assert x in multiset(a.rows);
      var i :| 0 <= i < |a.rows| && a.rows[i] == x;
      assert a.series[i] == score(Strip(rawNote));
    }
  }

  /** Deleting a date twice is deleting it once. */
  lemma DeleteIdempotent(s: Store, date: string)
    ensures DeleteByDate(DeleteByDate(s, date), date) == DeleteByDate(s, date)
  {
  }

  /** `value_counts` on the labels Good, Good, Bad. */
  lemma TallyExample()
    ensures Tally(["Good", "Good", "Bad"]) == map["Good" := 2, "Bad" := 1]
  {
  }

  /** The two entries of the series example, dated out of insertion order. */
  function ExampleEntries(): seq<Entry> {
    [Entry(1, "2024-01-02", "Good", "later", "", 0.5), Entry(2, "2024-01-01", "Bad", "earlier", "", -0.3)]
  }

  /** Saving 2024-01-02 then 2024-01-01 stores the example entries. */
  lemma ExampleStore(score: Scorer)
    requires score("later") == 0.5 && score("earlier") == -0.3
    ensures var s1 := Save(Empty, "2024-01-02", "Good", "later", "", score);
      var s2 := Save(s1.store, "2024-01-01", "Bad", "earlier", "", score);
      s2.Saved? && s2.store == Store(ExampleEntries(), 2)
  {
    StripKeeps("later");
    StripKeeps("earlier");
    var es := ExampleEntries();
    var s1 := Save(Empty, "2024-01-02", "Good", "later", "", score);
    assert s1.Saved? && s1.entry == es[0];
    var s2 := Save(s1.store, "2024-01-01", "Bad", "earlier", "", score);
    assert s2.Saved? && s2.entry == es[1];
  }

  /** Sorting the example entries by date puts the second one first. */
  lemma ExampleOrder()
    ensures SortByDate(Ascending, ExampleEntries()) == [ExampleEntries()[1], ExampleEntries()[0]]
  {
    var e1 := ExampleEntries()[0];
    var e2 := ExampleEntries()[1];
    assert !LexLe(e1.date, e2.date) by {
      assert e1.date == "2024-01-0" + "2" && e2.date == "2024-01-0" + "1";
      LexLeCommonPrefix("2024-01-0", "2", "1");
    }
    assert ExampleEntries()[1..] == [e2];
    assert SortByDate(Ascending, [e2]) == [e2];
    assert Insert(Ascending, e1, [e2]) == [e2] + Insert(Ascending, e1, []);
  }

  lemma ExampleSnapshot()
    ensures var es := ExampleEntries();
      Snapshot(Store(es, 2)) == [SampleOf(es[1]), SampleOf(es[0])]
  {
    ExampleOrder();
    var es := ExampleEntries();
    assert Snapshot(Store(es, 2)) == MapSeq(SampleOf, [es[1], es[0]]);
  }

  /**
   Entries dated 2024-01-02 then 2024-01-01 with scores 0.5 then -0.3 give
   the series -0.3, 0.5: it follows the dates, not the order of insertion.
   */
  lemma SeriesExample(parses: DateParser)
    requires parses(["2024-01-01", "2024-01-02"])
    ensures var a := Analyze(Store(ExampleEntries(), 2), parses);
      a.Report? && a.series == [-0.3, 0.5]
  {
    ExampleSnapshot();
    var es := ExampleEntries();
    var rows := Snapshot(Store(es, 2));
    assert MapSeq(SampleDate, rows) == ["2024-01-01", "2024-01-02"];
    var a := Analyze(Store(es, 2), parses);
    assert a.Report?;
    assert a.rows == rows;
    assert |a.series| == 2 && a.series[0] == -0.3 && a.series[1] == 0.5;
  }
}
