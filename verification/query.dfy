/**
 `SELECT … FROM entries ORDER BY date [DESC]`: the entries sorted on their
 TEXT date column, then projected to the selected columns, and the history
 listing built from it. SQL fixes no order among entries with equal dates,
 so nothing here says which of them comes first.
 */
module Query {
  import opened Text
  import opened Seqs
  import opened Store

  datatype Direction = Ascending | Descending

  /** `a` may come before `b` in an `ORDER BY date` in direction `dir`. */
  predicate Before(dir: Direction, a: string, b: string) {
    match dir
    case Ascending => LexLe(a, b)
    case Descending => LexLe(b, a)
  }

  lemma BeforeTotal(dir: Direction, a: string, b: string)
    ensures Before(dir, a, b) || Before(dir, b, a)
  {
    LexLeTotal(a, b);
  }

  lemma BeforeTransitive(dir: Direction, a: string, b: string, c: string)
    requires Before(dir, a, b) && Before(dir, b, c)
    ensures Before(dir, a, c)
  {
    match dir
    case Ascending => LexLeTransitive(a, b, c);
    case Descending => LexLeTransitive(c, b, a);
  }

  predicate SortedByDate(dir: Direction, es: seq<Entry>) {
    forall i, j :: 0 <= i < j < |es| ==> Before(dir, es[i].date, es[j].date)
  }

  /** Places `e` before the first entry it may precede. */
  function Insert(dir: Direction, e: Entry, es: seq<Entry>): (r: seq<Entry>)
    ensures multiset(r) == multiset(es) + multiset{e}
  {
    if es == [] then [e]
    else if Before(dir, e.date, es[0].date) then [e] + es
    else
      assert es == [es[0]] + es[1..];
      [es[0]] + Insert(dir, e, es[1..])
  }

  lemma {:induction false} InsertSorted(dir: Direction, e: Entry, es: seq<Entry>)
    requires SortedByDate(dir, es)
    ensures SortedByDate(dir, Insert(dir, e, es))
  {
    if es == [] {
    } else if Before(dir, e.date, es[0].date) {
      var r := [e] + es;
      forall j | 1 <= j < |r| ensures Before(dir, e.date, r[j].date) {
        if j > 1 {
          BeforeTransitive(dir, e.date, es[0].date, r[j].date);
        }
      }
      assert es == r[1..];
    } else {
      BeforeTotal(dir, e.date, es[0].date);
      var rest := es[1..];
      assert SortedByDate(dir, rest);
      InsertSorted(dir, e, rest);
      var tail := Insert(dir, e, rest);
      forall j | 0 <= j < |tail| ensures Before(dir, es[0].date, tail[j].date) {
        assert tail[j] in multiset(tail);
        assert tail[j] == e || tail[j] in multiset(rest);
      }
      var r := [es[0]] + tail;
      assert r == Insert(dir, e, es);
      forall i, j | 0 <= i < j < |r| ensures Before(dir, r[i].date, r[j].date) {
        if i > 0 {
          assert r[i] == tail[i - 1] && r[j] == tail[j - 1];
        }
      }
    }
  }

  /** The entries in `ORDER BY date` order for direction `dir`. */
  function SortByDate(dir: Direction, es: seq<Entry>): (r: seq<Entry>)
    ensures multiset(r) == multiset(es)
    ensures SortedByDate(dir, r)
  {
    if es == [] then []
    else
      assert es == [es[0]] + es[1..];
      var sorted := SortByDate(dir, es[1..]);
      InsertSorted(dir, es[0], sorted);
      Insert(dir, es[0], sorted)
  }

  /** A row of the history listing: `SELECT date, mood, symptoms, note`. */
  datatype Row = Row(date: string, mood: string, symptoms: string, note: string)

  function RowOf(e: Entry): Row {
    Row(e.date, e.mood, e.symptoms, e.note)
  }

  /**
   The history listing (`load_data`): every stored entry, projected to
   date, mood, symptoms and note, most recent date first.
   */
  function ListEntries(s: Store): (rows: seq<Row>)
    ensures multiset(rows) == multiset(MapSeq(RowOf, s.entries))
    ensures forall i, j :: 0 <= i < j < |rows| ==> LexLe(rows[j].date, rows[i].date)
  {
    var sorted := SortByDate(Descending, s.entries);
    MapSeqPermutation(RowOf, sorted, s.entries);
    MapSeq(RowOf, sorted)
  }

  /** A row is in the history listing exactly when some stored entry projects to it. */
  lemma ListedIff(s: Store, row: Row)
    ensures row in ListEntries(s) <==> exists e :: e in s.entries && RowOf(e) == row
  {
    var rows := ListEntries(s);
    var projected := MapSeq(RowOf, s.entries);
    assert row in rows <==> row in multiset(rows);
    assert row in projected <==> row in multiset(projected);
    if row in projected {
      var k :| 0 <= k < |projected| && projected[k] == row;
      assert s.entries[k] in s.entries;
    }
    if e :| e in s.entries && RowOf(e) == row {
      var k :| 0 <= k < |s.entries| && s.entries[k] == e;
      assert projected[k] == row;
    }
  }
}
