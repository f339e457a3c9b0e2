/**
 The `entries` table of the journal and its two writers: saving a new entry
 and deleting every entry recorded under a given date.

 The table is kept in insertion order together with the value SQLite keeps in
 `sqlite_sequence` for an `INTEGER PRIMARY KEY AUTOINCREMENT` column: the
 largest id ever handed out, which deletions never lower.
 */
module Store {
  import opened Text

  /** The sentiment analyser: a foreign computation, taken as a parameter. */
  type Scorer = string -> real

  /** One row of `entries`; `score` is the `sentiment_score` column. */
  datatype Entry = Entry(
    id: nat,
    date: string,
    mood: string,
    note: string,
    symptoms: string,
    score: real)

  /**
   The table in insertion order, and `lastId`, the largest id ever assigned
   (0 before the first insertion).
   */
  datatype Store = Store(entries: seq<Entry>, lastId: nat)

  /** The largest rowid SQLite can assign: 2^63 - 1. */
  const MaxRowId: nat := 0x7FFF_FFFF_FFFF_FFFF

  /** The table as `CREATE TABLE IF NOT EXISTS` leaves it on first start. */
  const Empty: Store := Store([], 0)

  datatype SaveError =
    | EmptyMood        // no mood was chosen: nothing is inserted
    | RowIdsExhausted  // AUTOINCREMENT reached 2^63 - 1: SQLite answers SQLITE_FULL

  datatype SaveResult =
    | Saved(store: Store, entry: Entry)
    | Rejected(error: SaveError)

  /** What every entry written by `Save` satisfies. */
  predicate WellFormedEntry(e: Entry, score: Scorer) {
    && e.mood != ""
    && NoEdgeSpace(e.note)
    && e.score == score(e.note)
  }

  /** Ids increase in insertion order, so no two entries share one. */
  predicate IdsIncreasing(es: seq<Entry>) {
    forall i, j :: 0 <= i < j < |es| ==> es[i].id < es[j].id
  }

  /**
   The table invariant: ids positive, never above the counter and increasing
   in insertion order; every entry as `Save` writes it.
   */
  predicate Valid(s: Store, score: Scorer) {
    && s.lastId <= MaxRowId
    && IdsIncreasing(s.entries)
    && (forall i :: 0 <= i < |s.entries| ==> 0 < s.entries[i].id <= s.lastId)
    && (forall i :: 0 <= i < |s.entries| ==> WellFormedEntry(s.entries[i], score))
  }

  lemma EmptyValid(score: Scorer)
    ensures Valid(Empty, score)
  {
  }

  /**
   The "Save" button: an empty mood is refused; otherwise the note is stripped,
   scored, and one row is inserted with the next AUTOINCREMENT id.
   */
  function Save(s: Store, date: string, mood: string, rawNote: string, symptoms: string, score: Scorer): (r: SaveResult)
    ensures mood == "" <==> r == Rejected(EmptyMood)
    ensures r == Rejected(RowIdsExhausted) <==> mood != "" && s.lastId >= MaxRowId
    ensures r.Saved? ==>
      && r.entry.date == date
      && r.entry.mood == mood
      && r.entry.symptoms == symptoms
      && r.entry.note == Strip(rawNote)
      && r.entry.score == score(Strip(rawNote))
    ensures r.Saved? ==>
      && r.store.entries == s.entries + [r.entry]
      && r.entry.id == s.lastId + 1
      && r.store.lastId == r.entry.id
  {
    if mood == "" then
      Rejected(EmptyMood)
    else if s.lastId >= MaxRowId then
      Rejected(RowIdsExhausted)
    else
      var note := Strip(rawNote);
      var e := Entry(s.lastId + 1, date, mood, note, symptoms, score(note));
      Saved(Store(s.entries + [e], e.id), e)
  }

  /**
   A save keeps the store valid, and the id it assigns is larger than every id
   still in the table (and than every id assigned before, which `lastId` bounds).
   */
  lemma SaveKeepsValid(s: Store, date: string, mood: string, rawNote: string, symptoms: string, score: Scorer)
    requires Valid(s, score)
    ensures var r := Save(s, date, mood, rawNote, symptoms, score);
      r.Saved? ==>
        && Valid(r.store, score)
        && r.entry.id > s.lastId
        && (forall e :: e in s.entries ==> e.id < r.entry.id)
  {
  }

  /** Number of entries recorded under `date`. */
  function CountDate(es: seq<Entry>, date: string): (n: nat)
    ensures n <= |es|
  {
    if es == [] then 0
    else (if es[0].date == date then 1 else 0) + CountDate(es[1..], date)
  }

  lemma {:induction false} CountDateZero(es: seq<Entry>, date: string)
    ensures CountDate(es, date) == 0 <==> forall e :: e in es ==> e.date != date
  {
    if es != [] {
      CountDateZero(es[1..], date);
      assert es == [es[0]] + es[1..];
    }
  }

  /** `DELETE FROM entries WHERE date = ?` on the entries, order kept. */
  function RemoveDate(es: seq<Entry>, date: string): (r: seq<Entry>)
    ensures |r| == |es| - CountDate(es, date)
  {
    if es == [] then []
    else if es[0].date == date then RemoveDate(es[1..], date)
    else [es[0]] + RemoveDate(es[1..], date)
  }

  /** What the deletion keeps, counted with multiplicity. */
  lemma {:induction false} RemoveDateCounts(es: seq<Entry>, date: string)
    ensures forall e :: multiset(RemoveDate(es, date))[e] == if e.date == date then 0 else multiset(es)[e]
  {
    if es != [] {
      RemoveDateCounts(es[1..], date);
      assert es == [es[0]] + es[1..];
    }
  }

  lemma {:induction false} RemoveDateMembers(es: seq<Entry>, date: string)
    ensures forall e :: e in RemoveDate(es, date) ==> e in es && e.date != date
  {
    if es != [] {
      RemoveDateMembers(es[1..], date);
    }
  }

  lemma {:induction false} RemoveDateKeepsOrder(es: seq<Entry>, date: string)
    requires IdsIncreasing(es)
    ensures IdsIncreasing(RemoveDate(es, date))
  {
    if es != [] {
      var tail := es[1..];
      assert IdsIncreasing(tail) by {
        forall i, j | 0 <= i < j < |tail| ensures tail[i].id < tail[j].id {
          assert tail[i] == es[i + 1] && tail[j] == es[j + 1];
        }
      }
      RemoveDateKeepsOrder(tail, date);
      var rest := RemoveDate(tail, date);
      if es[0].date != date {
        forall j | 0 <= j < |rest| ensures es[0].id < rest[j].id {
          RemoveDateMembers(tail, date);
          assert rest[j] in tail;
          var k :| 0 <= k < |tail| && tail[k] == rest[j];
          assert es[k + 1] == rest[j];
        }
        var r := [es[0]] + rest;
        forall i, j | 0 <= i < j < |r| ensures r[i].id < r[j].id {
          if i > 0 {
            assert r[i] == rest[i - 1] && r[j] == rest[j - 1];
          } else {
            assert r[j] == rest[j - 1];
          }
        }
      }
    }
  }

  /** Removing nothing keeps the sequence as it was. */
  lemma {:induction false} RemoveDateNothing(es: seq<Entry>, date: string)
    ensures CountDate(es, date) == 0 ==> RemoveDate(es, date) == es
  {
    if es != [] {
      RemoveDateNothing(es[1..], date);
    }
  }

  /**
   The "Delete" button after confirmation: every entry whose date equals the
   key goes, however many there are; every other entry stays, in order, and
   the AUTOINCREMENT counter is not lowered.
   */
  function DeleteByDate(s: Store, date: string): (r: Store)
    ensures forall e :: multiset(r.entries)[e] == if e.date == date then 0 else multiset(s.entries)[e]
    ensures |r.entries| == |s.entries| - CountDate(s.entries, date)
    ensures r.lastId == s.lastId
    ensures (forall e :: e in s.entries ==> e.date != date) ==> r == s
  {
    CountDateZero(s.entries, date);
    RemoveDateCounts(s.entries, date);
    RemoveDateNothing(s.entries, date);
    Store(RemoveDate(s.entries, date), s.lastId)
  }

  /** An entry survives the delete exactly when it was stored under another date. */
  lemma DeleteByDateMembers(s: Store, date: string)
    ensures forall e :: e in DeleteByDate(s, date).entries <==> e in s.entries && e.date != date
  {
    var r := DeleteByDate(s, date);
    assert forall e :: e in r.entries <==> multiset(r.entries)[e] > 0;
    assert forall e :: e in s.entries <==> multiset(s.entries)[e] > 0;
  }

  /** Deletion keeps the store valid. */
  lemma DeleteKeepsValid(s: Store, date: string, score: Scorer)
    requires Valid(s, score)
    ensures Valid(DeleteByDate(s, date), score)
  {
    var r := DeleteByDate(s, date);
    RemoveDateKeepsOrder(s.entries, date);
    RemoveDateMembers(s.entries, date);
    forall i | 0 <= i < |r.entries|
      ensures 0 < r.entries[i].id <= r.lastId && WellFormedEntry(r.entries[i], score)
    {
      assert r.entries[i] in s.entries;
    }
  }
}
