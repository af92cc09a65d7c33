/**
 * The durable conversation archive (dashboard/store.py, `_save_items` and the
 * parts of `_save_task` that pick the run and read the messages back).
 *
 * A message list is saved again and again, whole or abbreviated, under the
 * same or a later run. Rows are keyed by run, identity and occurrence.
 */
module Archive {
  import opened Prelude

  /**
   * A message: an object with an optional run and identifier, or a plain value
   * of the first version, which cannot carry a run. An empty run stands for a
   * missing one.
   */
  datatype Item = Obj(run: string, id: Option<string>, body: string) | Text(raw: string)

  datatype Identity = ById(id: string) | ByContent(content: Item)

  datatype Base = Base(run: string, identity: Identity)

  datatype Row = Row(base: Base, occurrence: nat, payload: Item)

  // ---------------------------------------------------------------------
  // One message
  // ---------------------------------------------------------------------

  function Fill(item: Item, run: string): Item {
    if item.Obj? && run != "" then item.(run := run) else item
  }

  /** Digests of contents are taken to be distinct for distinct contents. */
  function IdentityOf(payload: Item): Identity {
    if payload.Obj? && payload.id.Some? then ById(payload.id.value) else ByContent(payload)
  }

  /** The runs of the plain messages with one text among the first `n` rows. */
  function TextRuns(rows: seq<Row>, n: nat, raw: string): seq<string>
    requires n <= |rows|
  {
    if n == 0 then []
    else TextRuns(rows, n - 1, raw) + if rows[n - 1].payload == Text(raw) then [rows[n - 1].base.run] else []
  }

  function CountText(values: seq<Item>, n: nat, raw: string): nat
    requires n <= |values|
  {
    if n == 0 then 0 else CountText(values, n - 1, raw) + if values[n - 1] == Text(raw) then 1 else 0
  }

  /** The archived run of the `k`-th plain message with one text, or else the run saved under. */
  function TextRun(rows: seq<Row>, run: string, raw: string, k: nat): string {
    var runs := TextRuns(rows, |rows|, raw);
    if k < |runs| then runs[k] else run
  }

  /** The run of the `i`-th message: its own, the archived one of an old plain message, or the run saved under. */
  function RunAt(rows: seq<Row>, run: string, values: seq<Item>, i: nat): string
    requires i < |values|
  {
    match values[i]
    case Obj(own, _, _) => if own != "" then own else run
    case Text(raw) => TextRun(rows, run, raw, CountText(values, i, raw))
  }

  /** A message as it is stored: the base of its key and its payload. */
  datatype Entry = Entry(base: Base, payload: Item)

  function EntryAt(rows: seq<Row>, run: string, values: seq<Item>, i: nat): Entry
    requires i < |values|
  {
    var payload := Fill(values[i], RunAt(rows, run, values, i));
    Entry(Base(RunAt(rows, run, values, i), IdentityOf(payload)), payload)
  }

  function Entries(rows: seq<Row>, run: string, values: seq<Item>): (entries: seq<Entry>)
    ensures |entries| == |values|
    ensures forall i :: 0 <= i < |values| ==> entries[i] == EntryAt(rows, run, values, i)
  {
    seq(|values|, i requires 0 <= i < |values| => EntryAt(rows, run, values, i))
  }

  /** How many of the first `n` entries have a base. */
  function CountEntries(entries: seq<Entry>, n: nat, base: Base): nat
    requires n <= |entries|
  {
    if n == 0 then 0 else CountEntries(entries, n - 1, base) + if entries[n - 1].base == base then 1 else 0
  }

  function RowAt(entries: seq<Entry>, i: nat): Row
    requires i < |entries|
  {
    Row(entries[i].base, CountEntries(entries, i, entries[i].base), entries[i].payload)
  }

  // ---------------------------------------------------------------------
  // The table
  // ---------------------------------------------------------------------

  predicate SameKey(a: Row, b: Row) {
    a.base == b.base && a.occurrence == b.occurrence
  }

  /** The position, from `i` on, of the row with the key of `row`, or the end. */
  function Position(rows: seq<Row>, i: nat, row: Row): (p: nat)
    requires i <= |rows|
    ensures i <= p <= |rows|
    ensures p < |rows| ==> SameKey(rows[p], row)
    ensures forall j :: i <= j < p ==> !SameKey(rows[j], row)
    decreases |rows| - i
  {
    if i == |rows| || SameKey(rows[i], row) then i else Position(rows, i + 1, row)
  }

  /** Insert a row, or update the payload of the row with its key. */
  function Put(rows: seq<Row>, row: Row): seq<Row> {
    var p := Position(rows, 0, row);
    if p < |rows| then rows[p := row] else rows + [row]
  }

  /** The table after the first `n` entries. */
  function SaveFirst(rows: seq<Row>, entries: seq<Entry>, n: nat): seq<Row>
    requires n <= |entries|
  {
    if n == 0 then rows else Put(SaveFirst(rows, entries, n - 1), RowAt(entries, n - 1))
  }

  function Save(rows: seq<Row>, run: string, values: seq<Item>): seq<Row> {
    SaveFirst(rows, Entries(rows, run, values), |values|)
  }

  function ReadBack(rows: seq<Row>): (items: seq<Item>)
    ensures |items| == |rows|
  {
    if rows == [] then [] else ReadBack(rows[..|rows| - 1]) + [rows[|rows| - 1].payload]
  }

  lemma {:induction false} ReadBackAt(rows: seq<Row>, i: nat)
    requires i < |rows|
    ensures ReadBack(rows)[i] == rows[i].payload
  {
    if i == |rows| - 1 {
    } else {
      ReadBackAt(rows[..|rows| - 1], i);
    }
  }

  lemma ReadBackSnoc(rows: seq<Row>, row: Row)
    ensures ReadBack(rows + [row]) == ReadBack(rows) + [row.payload]
  {
    assert (rows + [row])[..|rows|] == rows;
  }

  // ---------------------------------------------------------------------
  // The key invariant
  // ---------------------------------------------------------------------

  /** How many of the first `n` rows have a base. */
  function CountRows(rows: seq<Row>, n: nat, base: Base): nat
    requires n <= |rows|
  {
    if n == 0 then 0 else CountRows(rows, n - 1, base) + if rows[n - 1].base == base then 1 else 0
  }

  /** The occurrences of each base are 0, 1, 2, ... in row order. */
  ghost predicate Keyed(rows: seq<Row>) {
    forall i :: 0 <= i < |rows| ==> rows[i].occurrence == CountRows(rows, i, rows[i].base)
  }

  /** A payload carries the run and the identity of its key. */
  predicate Consistent(base: Base, payload: Item) {
    base.identity == IdentityOf(payload) && (payload.Obj? ==> payload.run == base.run)
  }

  ghost predicate Archived(rows: seq<Row>) {
    Keyed(rows) && forall i :: 0 <= i < |rows| ==> Consistent(rows[i].base, rows[i].payload)
  }

  lemma {:induction false} CountGrows(rows: seq<Row>, m: nat, n: nat, base: Base)
    requires m <= n <= |rows|
    ensures CountRows(rows, m, base) <= CountRows(rows, n, base)
    decreases n - m
  {
    if m == n {
    } else {
      CountGrows(rows, m, n - 1, base);
    }
  }

  /** Counts depend on the bases of the first rows only. */
  lemma {:induction false} CountAgrees(a: seq<Row>, b: seq<Row>, n: nat, base: Base)
    requires n <= |a| && n <= |b| && forall i :: 0 <= i < n ==> a[i].base == b[i].base
    ensures CountRows(a, n, base) == CountRows(b, n, base)
  {
    if n == 0 {
    } else {
      CountAgrees(a, b, n - 1, base);
    }
  }

  /** Below its count every occurrence of a base is there. */
  lemma {:induction false} OccurrenceExists(rows: seq<Row>, n: nat, base: Base, k: nat) returns (i: nat)
    requires Keyed(rows) && n <= |rows| && k < CountRows(rows, n, base)
    ensures i < n && rows[i].base == base && rows[i].occurrence == k
    decreases n
  {
    if rows[n - 1].base == base && k == CountRows(rows, n - 1, base) {
      i := n - 1;
    } else {
      i := OccurrenceExists(rows, n - 1, base, k);
    }
  }

  lemma OccurrenceIsBelow(rows: seq<Row>, i: nat)
    requires Keyed(rows) && i < |rows|
    ensures rows[i].occurrence < CountRows(rows, |rows|, rows[i].base)
  {
    CountGrows(rows, i + 1, |rows|, rows[i].base);
  }

  /** A row is found by its key exactly when its occurrence is below the count of its base. */
  lemma FoundIsBelow(rows: seq<Row>, row: Row)
    requires Keyed(rows)
    ensures Position(rows, 0, row) < |rows| <==> row.occurrence < CountRows(rows, |rows|, row.base)
  {
    var p := Position(rows, 0, row);
    if p < |rows| {
      OccurrenceIsBelow(rows, p);
    }
    if row.occurrence < CountRows(rows, |rows|, row.base) {
      var i := OccurrenceExists(rows, |rows|, row.base, row.occurrence);
      assert SameKey(rows[i], row);
    }
  }

  lemma KeysAreDistinct(rows: seq<Row>, i: nat)
    requires Keyed(rows) && i < |rows|
    ensures Position(rows, 0, rows[i]) == i
  {
    var p := Position(rows, 0, rows[i]);
    if p < i {
      CountGrows(rows, p + 1, i, rows[i].base);
    }
  }

  lemma UpdateKeepsKeyed(rows: seq<Row>, p: nat, row: Row)
    requires Keyed(rows) && p < |rows| && SameKey(rows[p], row)
    ensures Keyed(rows[p := row]) && forall b :: CountRows(rows[p := row], |rows|, b) == CountRows(rows, |rows|, b)
  {
    var after := rows[p := row];
    forall i | 0 <= i < |after| ensures after[i].occurrence == CountRows(after, i, after[i].base) {
      CountAgrees(after, rows, i, after[i].base);
    }
    forall b ensures CountRows(after, |rows|, b) == CountRows(rows, |rows|, b) {
      CountAgrees(after, rows, |rows|, b);
    }
  }

  lemma AppendAt(rows: seq<Row>, row: Row, i: nat)
    requires Keyed(rows) && row.occurrence == CountRows(rows, |rows|, row.base) && i <= |rows|
    ensures (rows + [row])[i].occurrence == CountRows(rows + [row], i, (rows + [row])[i].base)
  {
    var x := (rows + [row])[i];
    assert i < |rows| ==> x == rows[i];
    CountAgrees(rows + [row], rows, i, x.base);
  }

  lemma AppendKeepsKeyed(rows: seq<Row>, row: Row)
    requires Keyed(rows) && row.occurrence == CountRows(rows, |rows|, row.base)
    ensures Keyed(rows + [row])
  {
    var after := rows + [row];
    forall i | 0 <= i < |after| ensures after[i].occurrence == CountRows(after, i, after[i].base) {
      AppendAt(rows, row, i);
    }
  }

  lemma CountAfterAppend(rows: seq<Row>, row: Row, base: Base)
    ensures CountRows(rows + [row], |rows| + 1, base)
            == CountRows(rows, |rows|, base) + if row.base == base then 1 else 0
  {
    CountAgrees(rows + [row], rows, |rows|, base);
  }

  lemma PutKeepsKeyed(rows: seq<Row>, row: Row)
    requires Keyed(rows) && row.occurrence <= CountRows(rows, |rows|, row.base)
    ensures Keyed(Put(rows, row))
  {
    FoundIsBelow(rows, row);
    var p := Position(rows, 0, row);
    if p < |rows| {
      UpdateKeepsKeyed(rows, p, row);
    } else {
      AppendKeepsKeyed(rows, row);
    }
  }

  lemma PutCounts(rows: seq<Row>, row: Row, base: Base)
    requires Keyed(rows) && row.occurrence <= CountRows(rows, |rows|, row.base)
    ensures var after := Put(rows, row);
            CountRows(after, |after|, base)
            == CountRows(rows, |rows|, base)
               + if base == row.base && row.occurrence == CountRows(rows, |rows|, base) then 1 else 0
  {
    FoundIsBelow(rows, row);
    var p := Position(rows, 0, row);
    if p < |rows| {
      UpdateKeepsKeyed(rows, p, row);
    } else {
      CountAfterAppend(rows, row, base);
    }
  }

  // ---------------------------------------------------------------------
  // Every save keeps the archive
  // ---------------------------------------------------------------------

  /** The rows of `a` are the first rows of `b`, in the same order, with possibly newer payloads. */
  ghost predicate KeepsRows(a: seq<Row>, b: seq<Row>) {
    |a| <= |b| && forall i :: 0 <= i < |a| ==> SameKey(a[i], b[i])
  }

  lemma PutKeepsArchived(rows: seq<Row>, before: seq<Row>, row: Row)
    requires Archived(before) && KeepsRows(rows, before) && Consistent(row.base, row.payload)
    requires row.occurrence <= CountRows(before, |before|, row.base)
    ensures Archived(Put(before, row)) && KeepsRows(rows, Put(before, row))
  {
    PutKeepsKeyed(before, row);
  }

  lemma {:induction false} EntriesKeepRows(rows: seq<Row>, entries: seq<Entry>, n: nat)
    requires Archived(rows) && n <= |entries|
    requires forall i :: 0 <= i < n ==> Consistent(entries[i].base, entries[i].payload)
    ensures var after := SaveFirst(rows, entries, n);
            && Archived(after) && KeepsRows(rows, after)
            && forall b :: CountEntries(entries, n, b) <= CountRows(after, |after|, b)
  {
    if n == 0 {
    } else {
      EntriesKeepRows(rows, entries, n - 1);
      var before, row := SaveFirst(rows, entries, n - 1), RowAt(entries, n - 1);
      PutKeepsArchived(rows, before, row);
      var after := Put(before, row);
      forall b ensures CountEntries(entries, n, b) <= CountRows(after, |after|, b) {
        PutCounts(before, row, b);
      }
    }
  }

  /**
   * Whatever list is saved under whatever run, however abbreviated: no row is
   * removed or moved, and the archive stays keyed and consistent.
   */
  lemma SaveKeepsRows(rows: seq<Row>, run: string, values: seq<Item>)
    requires Archived(rows)
    ensures Archived(Save(rows, run, values)) && KeepsRows(rows, Save(rows, run, values))
  {
    EntriesKeepRows(rows, Entries(rows, run, values), |values|);
  }

  // ---------------------------------------------------------------------
  // Saving entries that begin with the archived ones
  // ---------------------------------------------------------------------

  /** The first entries are those of the archived rows. */
  ghost predicate Continues(rows: seq<Row>, entries: seq<Entry>) {
    && Keyed(rows) && |rows| <= |entries|
    && forall i :: 0 <= i < |rows| ==> entries[i] == Entry(rows[i].base, rows[i].payload)
  }

  lemma {:induction false} CountOfArchived(rows: seq<Row>, entries: seq<Entry>, n: nat, base: Base)
    requires Continues(rows, entries) && n <= |rows|
    ensures CountEntries(entries, n, base) == CountRows(rows, n, base)
  {
    if n == 0 {
    } else {
      CountOfArchived(rows, entries, n - 1, base);
    }
  }

  lemma PutArchived(rows: seq<Row>, entries: seq<Entry>, i: nat)
    requires Continues(rows, entries) && i < |rows|
    ensures Put(rows, RowAt(entries, i)) == rows
  {
    CountOfArchived(rows, entries, i, rows[i].base);
    KeysAreDistinct(rows, i);
  }

  lemma {:induction false} ArchivedIsFixed(rows: seq<Row>, entries: seq<Entry>, n: nat)
    requires Continues(rows, entries) && n <= |rows|
    ensures SaveFirst(rows, entries, n) == rows
  {
    if n == 0 {
    } else {
      ArchivedIsFixed(rows, entries, n - 1);
      PutArchived(rows, entries, n - 1);
    }
  }

  /** The rows of the new ones among the first `n` entries. */
  function NewRows(rows: seq<Row>, entries: seq<Entry>, n: nat): (added: seq<Row>)
    requires |rows| <= n <= |entries|
    ensures |added| == n - |rows|
  {
    if n == |rows| then [] else NewRows(rows, entries, n - 1) + [RowAt(entries, n - 1)]
  }

  lemma NewRowsNext(rows: seq<Row>, entries: seq<Entry>, n: nat)
    requires |rows| <= n < |entries|
    ensures rows + NewRows(rows, entries, n + 1) == rows + NewRows(rows, entries, n) + [RowAt(entries, n)]
  {
  }

  lemma {:induction false} CountOfNew(rows: seq<Row>, entries: seq<Entry>, n: nat, base: Base)
    requires Continues(rows, entries) && |rows| <= n <= |entries|
    ensures CountRows(rows + NewRows(rows, entries, n), n, base) == CountEntries(entries, n, base)
    decreases n
  {
    if n == |rows| {
      assert rows + [] == rows;
      CountOfArchived(rows, entries, |rows|, base);
    } else {
      CountOfNew(rows, entries, n - 1, base);
      NewRowsNext(rows, entries, n - 1);
      CountAfterAppend(rows + NewRows(rows, entries, n - 1), RowAt(entries, n - 1), base);
    }
  }

  lemma PutNext(rows: seq<Row>, row: Row)
    requires Keyed(rows) && row.occurrence == CountRows(rows, |rows|, row.base)
    ensures Put(rows, row) == rows + [row] && Keyed(rows + [row])
  {
    FoundIsBelow(rows, row);
    AppendKeepsKeyed(rows, row);
  }

  lemma {:induction false} NewRowsAreAppended(rows: seq<Row>, entries: seq<Entry>, n: nat)
    requires Continues(rows, entries) && |rows| <= n <= |entries|
    ensures SaveFirst(rows, entries, n) == rows + NewRows(rows, entries, n)
    ensures Keyed(rows + NewRows(rows, entries, n))
    decreases n
  {
    if n == |rows| {
      ArchivedIsFixed(rows, entries, |rows|);
      assert rows + [] == rows;
    } else {
      NewRowsAreAppended(rows, entries, n - 1);
      PutNewRow(rows, entries, n - 1);
    }
  }

  lemma PutNewRow(rows: seq<Row>, entries: seq<Entry>, n: nat)
    requires Continues(rows, entries) && |rows| <= n < |entries| && Keyed(rows + NewRows(rows, entries, n))
    ensures Put(rows + NewRows(rows, entries, n), RowAt(entries, n)) == rows + NewRows(rows, entries, n + 1)
    ensures Keyed(rows + NewRows(rows, entries, n + 1))
  {
    NewRowsNext(rows, entries, n);
    CountOfNew(rows, entries, n, entries[n].base);
    PutNext(rows + NewRows(rows, entries, n), RowAt(entries, n));
  }

  /** The payloads of the entries from `from` to `n`. */
  function Payloads(entries: seq<Entry>, from: nat, n: nat): (items: seq<Item>)
    requires from <= n <= |entries|
    ensures |items| == n - from && forall i :: 0 <= i < |items| ==> items[i] == entries[from + i].payload
  {
    if n == from then [] else Payloads(entries, from, n - 1) + [entries[n - 1].payload]
  }

  lemma {:induction false} NewRowsReadBack(rows: seq<Row>, entries: seq<Entry>, n: nat)
    requires |rows| <= n <= |entries|
    ensures ReadBack(rows + NewRows(rows, entries, n)) == ReadBack(rows) + Payloads(entries, |rows|, n)
    decreases n
  {
    if n == |rows| {
      assert rows + [] == rows;
    } else {
      NewRowsReadBack(rows, entries, n - 1);
      NewRowsNext(rows, entries, n - 1);
      ReadBackSnoc(rows + NewRows(rows, entries, n - 1), RowAt(entries, n - 1));
    }
  }

  // ---------------------------------------------------------------------
  // Continuing a conversation
  // ---------------------------------------------------------------------

  /** Every archived object carries a run. */
  ghost predicate Settled(rows: seq<Row>) {
    forall i :: 0 <= i < |rows| && rows[i].payload.Obj? ==> rows[i].payload.run != ""
  }

  /** A list that begins with the archived messages. */
  ghost predicate Begins(rows: seq<Row>, values: seq<Item>) {
    |rows| <= |values| && forall i :: 0 <= i < |rows| ==> values[i] == rows[i].payload
  }

  lemma ReadBackBegins(rows: seq<Row>, more: seq<Item>)
    ensures Begins(rows, ReadBack(rows) + more)
  {
    forall i | 0 <= i < |rows| ensures (ReadBack(rows) + more)[i] == rows[i].payload {
      ReadBackAt(rows, i);
    }
  }

  lemma {:induction false} TextRunsCount(rows: seq<Row>, values: seq<Item>, n: nat, raw: string)
    requires Begins(rows, values) && n <= |rows|
    ensures |TextRuns(rows, n, raw)| == CountText(values, n, raw)
  {
    if n == 0 {
    } else {
      TextRunsCount(rows, values, n - 1, raw);
    }
  }

  lemma {:induction false} TextRunsGrow(rows: seq<Row>, m: nat, n: nat, raw: string)
    requires m <= n <= |rows|
    ensures TextRuns(rows, m, raw) <= TextRuns(rows, n, raw)
    decreases n - m
  {
    if m == n {
    } else {
      TextRunsGrow(rows, m, n - 1, raw);
    }
  }

  /** An old plain message finds the run it was archived under. */
  lemma TextRunAt(rows: seq<Row>, run: string, values: seq<Item>, i: nat, raw: string)
    requires Begins(rows, values) && i < |rows| && rows[i].payload == Text(raw)
    ensures TextRun(rows, run, raw, CountText(values, i, raw)) == rows[i].base.run
  {
    TextRunsCount(rows, values, i, raw);
    TextRunsGrow(rows, i + 1, |rows|, raw);
    assert TextRuns(rows, i + 1, raw)[CountText(values, i, raw)] == rows[i].base.run;
  }

  /** A message that was read back keeps its base and its payload. */
  lemma EntryOfReadBack(rows: seq<Row>, run: string, values: seq<Item>, i: nat)
    requires Archived(rows) && Begins(rows, values) && (run == "" || Settled(rows)) && i < |rows|
    ensures EntryAt(rows, run, values, i) == Entry(rows[i].base, rows[i].payload)
  {
    assert Consistent(rows[i].base, rows[i].payload);
    if rows[i].payload.Text? {
      TextRunAt(rows, run, values, i, rows[i].payload.raw);
    }
  }

  lemma ReadBackContinues(rows: seq<Row>, run: string, values: seq<Item>)
    requires Archived(rows) && Begins(rows, values) && (run == "" || Settled(rows))
    ensures Continues(rows, Entries(rows, run, values))
  {
    forall i | 0 <= i < |rows|
      ensures Entries(rows, run, values)[i] == Entry(rows[i].base, rows[i].payload)
    {
      EntryOfReadBack(rows, run, values, i);
    }
  }

  /** A message with its run filled in, unless it has one. */
  function Filled(item: Item, run: string): Item {
    if item.Obj? && item.run == "" then item.(run := run) else item
  }

  function FillAll(items: seq<Item>, run: string): (filled: seq<Item>)
    ensures |filled| == |items| && forall i :: 0 <= i < |items| ==> filled[i] == Filled(items[i], run)
  {
    seq(|items|, i requires 0 <= i < |items| => Filled(items[i], run))
  }

  lemma {:induction false} CountTextGrows(values: seq<Item>, m: nat, n: nat, raw: string)
    requires m <= n <= |values|
    ensures CountText(values, m, raw) <= CountText(values, n, raw)
    decreases n - m
  {
    if m == n {
    } else {
      CountTextGrows(values, m, n - 1, raw);
    }
  }

  /** A new message is saved under the current run or its own. */
  lemma PayloadOfNew(rows: seq<Row>, run: string, values: seq<Item>, i: nat)
    requires Begins(rows, values) && |rows| <= i < |values|
    ensures EntryAt(rows, run, values, i).payload == Filled(values[i], run)
    ensures EntryAt(rows, run, values, i).base.run
            == if values[i].Obj? && values[i].run != "" then values[i].run else run
  {
    if values[i].Text? {
      CountTextGrows(values, |rows|, i, values[i].raw);
      TextRunsCount(rows, values, |rows|, values[i].raw);
    }
  }

  lemma PayloadsOfNew(rows: seq<Row>, run: string, values: seq<Item>)
    requires Begins(rows, values)
    ensures Payloads(Entries(rows, run, values), |rows|, |values|) == FillAll(values[|rows|..], run)
  {
    var a, b := Payloads(Entries(rows, run, values), |rows|, |values|), FillAll(values[|rows|..], run);
    forall i | 0 <= i < |a| ensures a[i] == b[i] {
      PayloadOfNew(rows, run, values, |rows| + i);
    }
  }

  /**
   * The continuation law: saving the archived messages followed by new ones
   * changes no row and appends one row for each new message, in order,
   * duplicates included, so that the conversation reads as before, followed by
   * the new messages.
   */
  lemma ContinuationReadsBack(rows: seq<Row>, run: string, more: seq<Item>)
    requires Archived(rows) && (run == "" || Settled(rows))
    ensures var after := Save(rows, run, ReadBack(rows) + more);
            && |after| == |rows| + |more| && rows <= after
            && ReadBack(after) == ReadBack(rows) + FillAll(more, run)
  {
    var values := ReadBack(rows) + more;
    var entries := Entries(rows, run, values);
    ReadBackBegins(rows, more);
    ReadBackContinues(rows, run, values);
    NewRowsAreAppended(rows, entries, |values|);
    NewRowsReadBack(rows, entries, |values|);
    PayloadsOfNew(rows, run, values);
    assert values[|rows|..] == more;
  }

  /** Saving any list into an empty archive reads back as that list, runs filled in. */
  lemma RoundTrip(run: string, values: seq<Item>)
    ensures ReadBack(Save([], run, values)) == FillAll(values, run)
  {
    ContinuationReadsBack([], run, values);
    assert ReadBack([]) + values == values && ReadBack([]) + FillAll(values, run) == FillAll(values, run);
  }

  // ---------------------------------------------------------------------
  // When the read-back list is a fixpoint
  // ---------------------------------------------------------------------

  /** The base an object without a run moves to: its rows keep it, and its own row is none of them. */
  lemma UnsettledAt(rows: seq<Row>, run: string, values: seq<Item>, i: nat, j: nat)
    requires Archived(rows) && Begins(rows, values) && i < |rows| && j < |rows| && run != ""
    requires rows[i].payload.Obj? && rows[i].payload.run == ""
    ensures var base := EntryAt(rows, run, values, i).base;
            (rows[j].base == base ==> EntryAt(rows, run, values, j).base == base) && rows[i].base != base
  {
    assert Consistent(rows[i].base, rows[i].payload);
    assert Consistent(rows[j].base, rows[j].payload);
  }

  lemma {:induction false} UnsettledMoves(rows: seq<Row>, entries: seq<Entry>, i: nat, n: nat, base: Base)
    requires i < |rows| <= |entries| && n <= |rows|
    requires entries[i].base == base != rows[i].base
    requires forall j :: 0 <= j < |rows| && rows[j].base == base ==> entries[j].base == base
    ensures CountEntries(entries, n, base) >= CountRows(rows, n, base) + if i < n then 1 else 0
  {
    if n == 0 {
    } else {
      UnsettledMoves(rows, entries, i, n - 1, base);
    }
  }

  /** The base an object without a run moves to gains a row. */
  lemma UnsettledAppends(rows: seq<Row>, run: string, values: seq<Item>, i: nat) returns (base: Base)
    requires Archived(rows) && Begins(rows, values) && |values| == |rows|
    requires i < |rows| && run != "" && rows[i].payload.Obj? && rows[i].payload.run == ""
    ensures var after := Save(rows, run, values); CountRows(after, |after|, base) > CountRows(rows, |rows|, base)
  {
    var entries := Entries(rows, run, values);
    base := entries[i].base;
    forall j | 0 <= j < |rows| ensures rows[j].base == base ==> entries[j].base == base {
      UnsettledAt(rows, run, values, i, j);
    }
    UnsettledAt(rows, run, values, i, i);
    UnsettledMoves(rows, entries, i, |rows|, base);
    EntriesKeepRows(rows, entries, |rows|);
  }

  /**
   * Saving the read-back list is a fixpoint exactly when nothing needs a run:
   * none is given, or every archived object has its own.
   */
  lemma FixpointIsExact(rows: seq<Row>, run: string)
    requires Archived(rows)
    ensures Save(rows, run, ReadBack(rows)) == rows <==> run == "" || Settled(rows)
  {
    if run == "" || Settled(rows) {
      ContinuationReadsBack(rows, run, []);
      assert ReadBack(rows) + [] == ReadBack(rows);
    } else {
      var i :| 0 <= i < |rows| && rows[i].payload.Obj? && rows[i].payload.run == "";
      ReadBackBegins(rows, []);
      assert ReadBack(rows) + [] == ReadBack(rows);
      var base := UnsettledAppends(rows, run, ReadBack(rows), i);
    }
  }
}
