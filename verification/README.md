# PSIHOZ journal store — a Dafny model

PSIHOZ is a single-window Tkinter mood journal. Its only logic is the
`entries` table in SQLite and what the buttons do with it:

- **Save** checks that a mood was chosen. It strips the note, scores the stripped note with
  VADER's compound sentiment, and inserts one row.
- **History** lists every row in descending text order of `date`, which is newest first
  for the default date format.
- **Delete** removes every row whose `date` equals the selected row's date as the list
  reads it back (see Findings).
- **Analytics** reads the rows in ascending text order of `date` (oldest first for the
  default format). It says "no data" on an empty table; otherwise it counts entries per
  mood and plots the score of each row in that order.

This project models that behaviour as pure functions over an immutable store and proves
what the code promises about it. The store is the rows in insertion order plus the
`AUTOINCREMENT` counter (the largest id ever assigned).

| file | module | contents |
|---|---|---|
| `text.dfy` | `Text` | Python's `str.strip()`, SQLite's BINARY text order, decimal numerals |
| `seqs.dfy` | `Seqs` | column projection and its permutation lemma |
| `store.dfy` | `Store` | `Entry`, `Store`, the store invariant, `Save`, `DeleteByDate` |
| `query.dfy` | `Query` | `ORDER BY date [DESC]` as a sort, the history listing |
| `analytics.dfy` | `Analytics` | the ascending snapshot, `value_counts`, the sentiment series |
| `journal.dfy` | `Journal` | button presses as steps, sessions, round trips, worked examples |
| `selection.dfy` | `Selection` | deleting the selected history row (see Findings) |

Foreign computations are parameters, not definitions:

- The sentiment analyser is `score: string -> real`. It is uninterpreted, and nothing is
  assumed about its range.
- `pd.to_datetime` applied to the date column is `parses: seq<string> -> bool`.

The code is looser than its labels and names suggest, and the model follows the code:

- any non-empty string is a mood, not only the five radio-button labels;
- the score is not bounded to [-1, 1] (only an axis label says so);
- deletion is keyed by date, not by id;
- the series is ordered by the date text and plotted against the row index, not against
  parsed timestamps;
- the stored note is the stripped note, not the note as typed.

## Model

| member | source | states |
|---|---|---|
| `Text.Strip` | PSIHOZ.py:517 | the stored note is the typed note with the white space of Python's `str.isspace()` removed from both ends: it begins and ends with a non-space character, and only white space was cut on either side |
| `Text.StripUnique` | PSIHOZ.py:517 | that description fixes the result: any text made of white space, then a core with no white space at its edges, then white space, strips to exactly that core |
| `Text.StripKeeps` | PSIHOZ.py:517 | a note with no white space at either end is stored exactly as typed |
| `Text.StripIdempotent` | PSIHOZ.py:517 | stripping an already stripped note changes nothing, so a stored note is its own stripped form |
| `Text.StripAllSpace` | PSIHOZ.py:517 | a note strips to the empty note exactly when it is all white space |
| `Text.LexLeTotal` | PSIHOZ.py:109 | any two TEXT dates are comparable in SQLite's BINARY order |
| `Text.LexLeTransitive` | PSIHOZ.py:109 | SQLite's BINARY order on TEXT dates is transitive |
| `Text.LexLeAntisymmetric` | PSIHOZ.py:109 | two dates each ordered before the other are the same text |
| `Seqs.MapSeqPermutation` | PSIHOZ.py:550 | selecting columns from two orderings of the same rows gives two orderings of the same projected rows |
| `Store.Save` | PSIHOZ.py:513-532 | an empty mood is rejected and nothing is inserted; with the counter at 2^63-1 the insert fails (SQLITE_FULL); otherwise exactly one entry is appended, carrying the given date, mood and symptoms, the stripped note, the analyser's score of that stripped note, and id = counter + 1, and every earlier entry is kept as it was |
| `Store.EmptyValid` | PSIHOZ.py:104-116 | a fresh table has no entries and counter 0, and satisfies the table invariant |
| `Store.SaveKeepsValid` | PSIHOZ.py:106-115 | a save keeps the table invariant: ids positive, at most the counter, increasing in insertion order; every mood non-empty; every note stripped; every score the analyser's value of its note. The new id exceeds every id in the table |
| `Store.DeleteByDate` | PSIHOZ.py:572 | every entry with the key's date is removed, however many there are; every other entry stays with its multiplicity; the count drops by the number of matches; the counter is unchanged; a key matching nothing leaves the store identical |
| `Store.RemoveDateCounts` | PSIHOZ.py:572 | after the delete, each entry occurs zero times if it has the key's date, and as often as before otherwise |
| `Store.RemoveDateKeepsOrder` | PSIHOZ.py:572 | deletion keeps the surviving ids increasing in insertion order |
| `Store.DeleteByDateMembers` | PSIHOZ.py:572 | an entry is still stored after the delete exactly when it was stored before under another date |
| `Store.DeleteKeepsValid` | PSIHOZ.py:572 | a delete keeps the table invariant |
| `Query.InsertSorted` | PSIHOZ.py:550 | placing one entry into a date-ordered sequence keeps it date-ordered |
| `Query.SortByDate` | PSIHOZ.py:550 | `ORDER BY date` returns a permutation of the rows whose dates are ordered in the requested direction; nothing is said about ties |
| `Query.ListedIff` | PSIHOZ.py:548-559 | a row appears in the history listing exactly when some stored entry projects to it |
| `Query.ListEntries` | PSIHOZ.py:548-559 | the history listing is a permutation of the stored entries projected to (date, mood, symptoms, note), with non-increasing dates |
| `Analytics.Snapshot` | PSIHOZ.py:581-582 | the analytics snapshot is a permutation of the stored entries projected to (date, mood, score, symptoms), with non-decreasing dates |
| `Analytics.Tally` | PSIHOZ.py:594 | `value_counts` has a key for exactly the labels that occur; each key maps to the number of its occurrences; the counts sum to the number of labels |
| `Analytics.Analyze` | PSIHOZ.py:579-604 | "no data" exactly when the table is empty. A date column the parser rejects stops the refresh. Otherwise the mood counts cover exactly the stored moods, count each one correctly and sum to the number of entries, and the series has one point per snapshot row, in order, with the stored score unchanged |
| `Journal.Step` | PSIHOZ.py:513-604 | listing and analytics leave the store identical; a rejected save leaves it identical; only a successful save advances the counter, by one; no step creates an entry except the saved one; the model's delete output carries the number of rows removed (the program only shows a success message); every step keeps the invariant |
| `Journal.Run` | PSIHOZ.py:108 | over any sequence of button presses, assigned ids strictly increase; each lies above the counter at the start and at most the final counter; every surviving entry existed before or got one of those ids; the invariant holds throughout |
| `Journal.IdsNeverReused` | PSIHOZ.py:108 | no id assigned in a session belongs to an entry present before it, deleted or not |
| `Journal.SaveThenList` | PSIHOZ.py:513-559 | after a successful save the history listing holds exactly one more row: date, mood and symptoms as entered, and the stripped note |
| `Journal.SaveThenAnalyze` | PSIHOZ.py:524-604 | after a successful save the analytics are never "no data". When they are drawn, the new entry's row is in the snapshot, and at its position the series carries the analyser's score of the stripped note |
| `Journal.DeleteIdempotent` | PSIHOZ.py:572 | deleting a date twice is the same as deleting it once |
| `Journal.TallyExample` | PSIHOZ.py:594 | the labels Good, Good, Bad count as Good: 2, Bad: 1 |
| `Journal.ExampleStore` | PSIHOZ.py:513-532 | saving dates 2024-01-02 then 2024-01-01 stores ids 1 and 2 with the analyser's scores |
| `Journal.SeriesExample` | PSIHOZ.py:581-604 | with those two entries (scores 0.5 and -0.3) the series is -0.3, 0.5: it follows the dates, not insertion order |
| `Selection.TreeviewKey` | PSIHOZ.py:567 | a date cell read back from the Treeview comes back unchanged unless it is all ASCII digits and at most 4300 long (the most Python's `int()` reads); then it comes back as the canonical numeral of the same value, without leading zeros |
| `Selection.DeleteSelectedAsWritten` | PSIHOZ.py:561-577 | the delete as written: a date that is not all ASCII digits, or has more than 4300, is treated as text and deleted as intended; dates with a sign, white space, underscores or non-ASCII digits are not modelled (see Left out); a digit-only date of at most 4300 digits and value up to 2^63-1 deletes exactly the entries dated by its canonical numeral (leading zeros dropped); one of at most 4300 digits with a larger value raises `OverflowError` when bound, is caught, and leaves the store unchanged; no entry is ever added and the counter is unchanged |
| `Selection.DeleteSelected` | PSIHOZ.py:561-572 | deleting a listed row removes at least one entry, leaves no entry with that row's date, and keeps every entry with another date |
| `Selection.LongNumeralDeleted` | PSIHOZ.py:567-572 | a digit-only date longer than 4300 digits stays text through the Treeview, so deleting its row as written removes its entry |
| `Selection.CanonicalNumeralKept` | PSIHOZ.py:567 | a numeral without leading zeros survives the Treeview round trip |
| `Selection.LeadingZeroDateSurvives` | PSIHOZ.py:567-572 | with one entry dated `007`, deleting its listed row as written removes nothing |
| `Selection.WrongEntryDeleted` | PSIHOZ.py:567-572 | with entries dated `7` and `007`, deleting the `007` row as written removes the `7` entry and keeps the `007` one |

## Left out

- Window construction, styles, tabs, the emergency contacts, message boxes, the delete
  confirmation, clearing the form, `call_number` and `open_url`. They are presentation
  only. Delete is modelled from the confirmed action on.
- The VADER analyser and the lexicon download. The score is the parameter `score`, whose
  values are exact reals. Floating-point behaviour and the [-1, 1] range are not modelled.
- `pd.to_datetime`. It is the parameter `parses` on the whole date column, because the
  format it infers depends on the column. The parsed dates are not used for ordering.
- The matplotlib drawing and the order of the bars `value_counts` produces. The counts
  are modelled as a map.
- The SQLite connection, commit and durability, and the `except` branches of save and
  delete. Each operation is atomic. The failures modelled are the exhausted
  `AUTOINCREMENT` counter on save and the `OverflowError` of binding a too-large
  integer key on delete.
- The relative order of entries with equal dates. SQL leaves it unspecified, and the
  model states only sortedness and permutation.
- The date default (`%Y-%m-%d %H:%M`, the current clock time). The date is whatever
  the field holds, passed in as a string.
- The newline that Tk's text widget appends to the note. `strip()` removes it, and the
  model takes the widget's contents as the raw note.
- Selection.DeleteSelectedAsWritten: a date that Python's `int()` reads although it is not a
  plain run of ASCII digits (`+7`, ` 7`, `7 `, `1_0`, non-ASCII digits) is deleted here by
  its stored text. The program deletes by the integer's text instead (`'7'`, `'10'`), so
  it keeps that entry and removes any entry dated with the canonical numeral. This
  follows from the conversion limit of `Selection.TreeviewKey` below.
- Selection.TreeviewKey: models tkinter's integer conversion only for strings of ASCII
  digits. Python's `int()` also accepts a sign, surrounding white space, underscores
  between digits and non-ASCII decimal digits; those dates would misbehave the same way
  but are passed through unchanged here. The 4300-digit limit on `int()` is that of
  CPython 3.11 and later (and of the 3.7.14, 3.8.14, 3.9.14 and 3.10.7 security
  releases); on an older interpreter longer digit strings would be converted too.
- Deleting with no row selected (the "choose an entry" message). It is a dialog, not a
  store operation.

## Findings

| source | as written | input that shows it | evidently intended | confidence | as-written member | corrected member |
|---|---|---|---|---|---|---|
| PSIHOZ.py:567-577 | the delete key is read back from the Treeview, whose tkinter wrapper turns a cell that parses as an integer into `int`; SQLite then compares the TEXT date with that integer's text, and an integer beyond 64 bits cannot be bound at all | one entry dated `007`: deleting its row runs `DELETE … WHERE date = '7'` and removes nothing; with entries `7` and `007` it removes the `7` entry instead; a row dated `99999999999999999999` is converted to an integer above 2^63-1, binding it raises `OverflowError`, and nothing is deleted | delete the entries whose date is the selected row's date as stored | medium (not executed; follows tkinter's `_convert_stringval` and SQLite's text-affinity comparison rule) | `Selection.DeleteSelectedAsWritten` | `Selection.DeleteSelected` |
