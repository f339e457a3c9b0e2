/**
 Deleting the entry selected in the history list (`delete_entry`). The key is
 read back from the Treeview row, and ttk converts every cell that reads as
 an integer into a Python `int` on the way back: a date typed as `007` comes
 back as `7`. SQLite then compares the TEXT column with the text of that
 integer, `'7'`, which is not the stored `'007'`.
 */
module Selection {
  import opened Text
  import opened Store
  import opened Query

  /**
   The most digits Python's `int()` reads from a string (CPython 3.11 and the
   security releases since 3.7.14); a longer digit string raises `ValueError`,
   which tkinter swallows, leaving the cell a string.
   */
  const MaxIntDigits: nat := 4300

  /** A Treeview cell that tkinter turns into a Python `int` on the way back. */
  predicate ReadsAsInt(cell: string) {
    IsNumeral(cell) && |cell| <= MaxIntDigits
  }

  /**
   The text SQLite compares with after a date cell made the round trip
   through the Treeview: a run of ASCII digits that `int()` accepts loses
   its leading zeros.
   */
  function TreeviewKey(cell: string): (key: string)
    ensures ReadsAsInt(cell) ==> IsNumeral(key) && NumeralValue(key) == NumeralValue(cell) && (|key| > 1 ==> key[0] != '0')
    ensures !ReadsAsInt(cell) ==> key == cell
  {
    if ReadsAsInt(cell) then
      DecimalRoundTrip(NumeralValue(cell));
      Decimal(NumeralValue(cell))
    else cell
  }

  /**
   `delete_entry` as written: the key is the converted first cell of the
   selected row. Python's sqlite3 binds an `int` as a 64-bit INTEGER, so a
   converted date whose value exceeds 2^63 - 1 raises `OverflowError`; the
   handler reports it and nothing is deleted.
   */
  function DeleteSelectedAsWritten(s: Store, selected: Row): (r: Store)
    ensures !ReadsAsInt(selected.date) ==> r == DeleteSelected(s, selected)
    ensures ReadsAsInt(selected.date) && NumeralValue(selected.date) > MaxRowId ==> r == s
    ensures ReadsAsInt(selected.date) && NumeralValue(selected.date) <= MaxRowId ==>
      forall e :: e in r.entries <==> e in s.entries && e.date != Decimal(NumeralValue(selected.date))
    ensures forall e :: e in r.entries ==> e in s.entries
    ensures r.lastId == s.lastId
  {
    var key := TreeviewKey(selected.date);
    DeleteByDateMembers(s, key);
    if ReadsAsInt(selected.date) && NumeralValue(selected.date) > MaxRowId then s
    else DeleteByDate(s, key)
  }

  /**
   `delete_entry` as intended: every entry sharing the selected row's date
   goes, the selected entry among them, and nothing else.
   */
  function DeleteSelected(s: Store, selected: Row): (r: Store)
    ensures selected in ListEntries(s) ==>
      && |r.entries| < |s.entries|
      && (forall e :: e in r.entries ==> e in s.entries && e.date != selected.date)
      && (forall e :: e in s.entries && e.date != selected.date ==> e in r.entries)
  {
    ListedIff(s, selected);
    CountDateZero(s.entries, selected.date);
    DeleteByDateMembers(s, selected.date);
    DeleteByDate(s, selected.date)
  }

  /** A digit-only date too long for `int()` stays text, and its entry is deleted. */
  lemma LongNumeralDeleted(e: Entry)
    requires IsNumeral(e.date) && |e.date| > MaxIntDigits
    ensures DeleteSelectedAsWritten(Store([e], e.id), RowOf(e)).entries == []
  {
    assert CountDate([e], e.date) == 1;
  }

  /** A date already without leading zeros survives the Treeview round trip. */
  lemma CanonicalNumeralKept(n: nat)
    ensures TreeviewKey(Decimal(n)) == Decimal(n)
  {
    DecimalRoundTrip(n);
  }

  /** Selecting the only entry, dated `007`, and deleting it removes nothing. */
  lemma LeadingZeroDateSurvives()
    ensures var s := Store([Entry(1, "007", "Good", "", "", 0.0)], 1);
      && ListEntries(s) == [Row("007", "Good", "", "")]
      && DeleteSelectedAsWritten(s, Row("007", "Good", "", "")) == s
      && DeleteSelected(s, Row("007", "Good", "", "")).entries == []
  {
  }

  /** With entries dated `7` and `007`, deleting the `007` row removes the `7` entry instead. */
  lemma WrongEntryDeleted()
    ensures var a := Entry(1, "7", "Bad", "", "", 0.0);
      var b := Entry(2, "007", "Good", "", "", 0.0);
      DeleteSelectedAsWritten(Store([a, b], 2), RowOf(b)) == Store([b], 2)
  {
    var a := Entry(1, "7", "Bad", "", "", 0.0);
    var b := Entry(2, "007", "Good", "", "", 0.0);
    assert TreeviewKey("007") == "7" by {
      assert IsNumeral("007");
      assert NumeralValue("007") == 7 by {
        assert "007"[..2] == "00" && "00"[..1] == "0" && "0"[..0] == "";
      }
      assert Decimal(7) == "7";
    }
    assert [a, b][1..] == [b];
    assert RemoveDate([a, b], "7") == RemoveDate([b], "7");
    assert RemoveDate([b], "7") == [b] + RemoveDate([], "7");
  }
}
