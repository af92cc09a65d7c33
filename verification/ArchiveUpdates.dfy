/**
 * What a save writes (dashboard/store.py, `_save_items`), said without the
 * table operations that write it: which key each message gets, that its row
 * holds it afterwards, and that the rows no message names keep what they held.
 */
module ArchiveUpdates {
  import opened Prelude
  import opened Archive

  // ---------------------------------------------------------------------
  // The key of a message
  // ---------------------------------------------------------------------

  /** An object is keyed by its own run or the given one, and by its identifier or its content with the run. */
  lemma ObjectKey(rows: seq<Row>, run: string, values: seq<Item>, i: nat)
    requires i < |values| && values[i].Obj?
    ensures var e, own, id, body := EntryAt(rows, run, values, i), values[i].run, values[i].id, values[i].body;
            && e.base.run == (if own == "" then run else own)
            && e.payload == Obj(e.base.run, id, body)
            && (forall k :: id == Some(k) ==> e.base.identity == ById(k))
            && (id == None ==> e.base.identity == ByContent(Obj(e.base.run, None, body)))
  {
  }

  /** The number of plain messages with one text before a position. */
  ghost function PlainBefore(items: seq<Item>, n: nat, raw: string): nat
    requires n <= |items|
  {
    |set i | 0 <= i < n && items[i] == Text(raw)|
  }

  lemma PlainNext(items: seq<Item>, n: nat, raw: string)
    requires n < |items|
    ensures PlainBefore(items, n + 1, raw) == PlainBefore(items, n, raw) + if items[n] == Text(raw) then 1 else 0
  {
    var few, more := set i | 0 <= i < n && items[i] == Text(raw), set i | 0 <= i < n + 1 && items[i] == Text(raw);
    assert more == if items[n] == Text(raw) then few + {n} else few;
  }

  lemma {:induction false} CountTextIsPlain(values: seq<Item>, n: nat, raw: string)
    requires n <= |values|
    ensures CountText(values, n, raw) == PlainBefore(values, n, raw)
  {
    if n == 0 {
    } else {
      CountTextIsPlain(values, n - 1, raw);
      PlainNext(values, n - 1, raw);
    }
  }

  lemma {:induction false} TextRunsIsPlain(rows: seq<Row>, n: nat, raw: string)
    requires n <= |rows|
    ensures |TextRuns(rows, n, raw)| == PlainBefore(ReadBack(rows), n, raw)
  {
    if n == 0 {
    } else {
      TextRunsIsPlain(rows, n - 1, raw);
      PlainNext(ReadBack(rows), n - 1, raw);
      ReadBackAt(rows, n - 1);
    }
  }

  /** The plain message after `k` equal ones takes the run of the archived one after `k` equal ones. */
  lemma ArchivedRun(rows: seq<Row>, run: string, raw: string, p: nat)
    requires p < |rows| && rows[p].payload == Text(raw)
    ensures TextRun(rows, run, raw, PlainBefore(ReadBack(rows), p, raw)) == rows[p].base.run
  {
    TextRunsIsPlain(rows, p, raw);
    TextRunsGrow(rows, p + 1, |rows|, raw);
    TextRunsNext(rows, p, raw);
    LastOfPrefix(TextRuns(rows, p, raw), rows[p].base.run, TextRuns(rows, |rows|, raw));
  }

  lemma TextRunsNext(rows: seq<Row>, p: nat, raw: string)
    requires p < |rows| && rows[p].payload == Text(raw)
    ensures TextRuns(rows, p + 1, raw) == TextRuns(rows, p, raw) + [rows[p].base.run]
  {
  }

  lemma LastOfPrefix(init: seq<string>, last: string, whole: seq<string>)
    requires init + [last] <= whole
    ensures |init| < |whole| && whole[|init|] == last
  {
    assert (init + [last])[|init|] == last;
  }

  /** The run a plain message is keyed by when `k` equal ones come before it in its list. */
  ghost predicate PlainRun(rows: seq<Row>, run: string, raw: string, k: nat, own: string) {
    var items := ReadBack(rows);
    && (forall p :: 0 <= p < |rows| && items[p] == Text(raw) && PlainBefore(items, p, raw) == k ==>
          own == rows[p].base.run)
    && (PlainBefore(items, |rows|, raw) <= k ==> own == run)
  }

  lemma TextRunIsPlainRun(rows: seq<Row>, run: string, raw: string, k: nat)
    ensures PlainRun(rows, run, raw, k, TextRun(rows, run, raw, k))
  {
    var items := ReadBack(rows);
    TextRunsIsPlain(rows, |rows|, raw);
    forall p | 0 <= p < |rows| && items[p] == Text(raw) && PlainBefore(items, p, raw) == k
      ensures TextRun(rows, run, raw, k) == rows[p].base.run
    {
      ReadBackAt(rows, p);
      ArchivedRun(rows, run, raw, p);
    }
  }

  /**
   * A plain message is keyed by its content. The one that comes after as many
   * equal ones as an archived one does takes the run of that one, and a
   * further one is saved under the given run.
   */
  lemma TextKey(rows: seq<Row>, run: string, values: seq<Item>, i: nat, raw: string)
    requires i < |values| && values[i] == Text(raw)
    ensures var e := EntryAt(rows, run, values, i);
            && e.payload == Text(raw) && e.base.identity == ByContent(Text(raw))
            && PlainRun(rows, run, raw, PlainBefore(values, i, raw), e.base.run)
  {
    CountTextIsPlain(values, i, raw);
    TextRunIsPlainRun(rows, run, raw, PlainBefore(values, i, raw));
  }

  /** The positions of the earlier messages with the base of the `i`-th. */
  ghost function EqualBefore(entries: seq<Entry>, i: nat, base: Base): set<nat>
    requires i <= |entries|
  {
    set j: nat | j < i && entries[j].base == base
  }

  /** The occurrence of a message counts the earlier ones with its base. */
  lemma {:induction false} OccurrenceCounts(entries: seq<Entry>, i: nat, base: Base)
    requires i <= |entries|
    ensures CountEntries(entries, i, base) == |EqualBefore(entries, i, base)|
  {
    if i == 0 {
    } else {
      OccurrenceCounts(entries, i - 1, base);
      assert EqualBefore(entries, i, base)
          == EqualBefore(entries, i - 1, base) + if entries[i - 1].base == base then {i - 1} else {};
    }
  }

  // ---------------------------------------------------------------------
  // What a save writes
  // ---------------------------------------------------------------------

  /** The `i`-th message has the key of a row: its base, and as many earlier messages with it. */
  ghost predicate Names(entries: seq<Entry>, i: nat, row: Row)
    requires i < |entries|
  {
    entries[i].base == row.base && |EqualBefore(entries, i, row.base)| == row.occurrence
  }

  /** Every row that one of the first `n` messages names holds that message, and the others are as they were. */
  ghost predicate Updated(rows: seq<Row>, entries: seq<Entry>, n: nat, after: seq<Row>)
    requires n <= |entries|
  {
    && KeepsRows(rows, after)
    && (forall i, p :: 0 <= i < n && 0 <= p < |rows| && Names(entries, i, rows[p]) ==>
          after[p].payload == entries[i].payload)
    && (forall p :: 0 <= p < |rows| && (forall i :: 0 <= i < n ==> !Names(entries, i, rows[p])) ==>
          after[p] == rows[p])
  }

  /** The row of the `i`-th message. */
  ghost function RowFor(entries: seq<Entry>, i: nat): Row
    requires i < |entries|
  {
    Row(entries[i].base, |EqualBefore(entries, i, entries[i].base)|, entries[i].payload)
  }

  lemma RowAtIsRowFor(entries: seq<Entry>, i: nat)
    requires i < |entries|
    ensures RowAt(entries, i) == RowFor(entries, i)
  {
    OccurrenceCounts(entries, i, entries[i].base);
  }

  ghost predicate HasKey(rows: seq<Row>, row: Row) {
    exists p :: 0 <= p < |rows| && rows[p].base == row.base && rows[p].occurrence == row.occurrence
  }

  /** The rows of the messages that name no archived row, in order. */
  ghost function Unarchived(rows: seq<Row>, entries: seq<Entry>, n: nat): seq<Row>
    requires n <= |entries|
  {
    if n == 0 then []
    else
      var row := RowFor(entries, n - 1);
      Unarchived(rows, entries, n - 1) + if HasKey(rows, row) then [] else [row]
  }

  /** The table a save leaves: updated rows, followed by the rows of the messages that named none. */
  ghost predicate Written(rows: seq<Row>, entries: seq<Entry>, n: nat, after: seq<Row>)
    requires n <= |entries|
  {
    Updated(rows, entries, n, after) && after[|rows|..] == Unarchived(rows, entries, n)
  }

  /** No two messages name one row. */
  lemma NamesOnce(entries: seq<Entry>, i: nat, j: nat, row: Row)
    requires i < |entries| && j < |entries| && Names(entries, i, row) && Names(entries, j, row)
    ensures i == j
  {
    if i < j {
      FewerBefore(entries, i, j, row.base);
    } else if j < i {
      FewerBefore(entries, j, i, row.base);
    }
  }

  lemma FewerBefore(entries: seq<Entry>, i: nat, j: nat, base: Base)
    requires i < j <= |entries| && entries[i].base == base
    ensures |EqualBefore(entries, i, base)| < |EqualBefore(entries, j, base)|
  {
    var few, more := EqualBefore(entries, i, base), EqualBefore(entries, j, base);
    assert few + {i} <= more;
    SmallerSubset(few + {i}, more);
  }

  lemma {:induction false} SmallerSubset(a: set<nat>, b: set<nat>)
    requires a <= b
    ensures |a| <= |b|
  {
    if a == {} {
    } else {
      var x :| x in a;
      SmallerSubset(a - {x}, b - {x});
    }
  }

  lemma KeyIsUnique(rows: seq<Row>, p: nat, q: nat)
    requires Keyed(rows) && p < |rows| && q < |rows| && SameKey(rows[p], rows[q])
    ensures p == q
  {
    if p < q {
      CountGrows(rows, p + 1, q, rows[p].base);
    } else if q < p {
      CountGrows(rows, q + 1, p, rows[p].base);
    }
  }

  lemma {:induction false} UnarchivedIsNamed(rows: seq<Row>, entries: seq<Entry>, n: nat, row: Row) returns (i: nat)
    requires n <= |entries| && row in Unarchived(rows, entries, n)
    ensures i < n && row == RowFor(entries, i)
  {
    if n > 0 && row in Unarchived(rows, entries, n - 1) {
      i := UnarchivedIsNamed(rows, entries, n - 1, row);
    } else {
      i := n - 1;
    }
  }

  lemma {:induction false} UnarchivedHas(rows: seq<Row>, entries: seq<Entry>, n: nat, i: nat)
    requires i < n <= |entries| && !HasKey(rows, RowFor(entries, i))
    ensures RowFor(entries, i) in Unarchived(rows, entries, n)
  {
    if i == n - 1 {
    } else {
      UnarchivedHas(rows, entries, n - 1, i);
    }
  }

  /** A message that names an archived row updates it. */
  lemma UpdateNext(rows: seq<Row>, entries: seq<Entry>, n: nat, before: seq<Row>, p: nat)
    requires n < |entries| && Written(rows, entries, n, before) && Keyed(rows)
    requires p < |rows| && SameKey(rows[p], RowFor(entries, n))
    ensures Written(rows, entries, n + 1, before[p := RowFor(entries, n)])
  {
    var after := before[p := RowFor(entries, n)];
    assert Names(entries, n, rows[p]);
    forall i, q | 0 <= i < n + 1 && 0 <= q < |rows| && Names(entries, i, rows[q])
      ensures after[q].payload == entries[i].payload
    {
      if q == p {
        NamesOnce(entries, i, n, rows[p]);
      } else if i == n {
        KeyIsUnique(rows, p, q);
      }
    }
    assert after[|rows|..] == before[|rows|..];
  }

  /** A message that names no archived row is appended. */
  lemma AppendNext(rows: seq<Row>, entries: seq<Entry>, n: nat, before: seq<Row>)
    requires n < |entries| && Written(rows, entries, n, before) && !HasKey(rows, RowFor(entries, n))
    ensures Written(rows, entries, n + 1, before + [RowFor(entries, n)])
  {
    var after := before + [RowFor(entries, n)];
    forall i, q | 0 <= i < n + 1 && 0 <= q < |rows| && Names(entries, i, rows[q])
      ensures after[q].payload == entries[i].payload
    {
      assert i < n;
    }
    assert after[|rows|..] == before[|rows|..] + [RowFor(entries, n)];
  }

  lemma PutIsWritten(rows: seq<Row>, entries: seq<Entry>, n: nat, before: seq<Row>)
    requires n < |entries| && Written(rows, entries, n, before) && Keyed(rows)
    ensures Written(rows, entries, n + 1, Put(before, RowAt(entries, n)))
  {
    var row := RowFor(entries, n);
    RowAtIsRowFor(entries, n);
    var p := Position(before, 0, row);
    if p < |rows| {
      UpdateNext(rows, entries, n, before, p);
    } else {
      if p < |before| {
        assert before[p] == before[|rows|..][p - |rows|];
        var i := UnarchivedIsNamed(rows, entries, n, before[p]);
        NamesOnce(entries, i, n, row);
        assert false;
      }
      NotArchived(rows, before, row);
      AppendNext(rows, entries, n, before);
    }
  }

  lemma NotArchived(rows: seq<Row>, before: seq<Row>, row: Row)
    requires KeepsRows(rows, before) && Position(before, 0, row) == |before|
    ensures !HasKey(rows, row)
  {
    forall p | 0 <= p < |rows| ensures !(rows[p].base == row.base && rows[p].occurrence == row.occurrence) {
      assert SameKey(rows[p], before[p]) && !SameKey(before[p], row);
    }
  }

  lemma NothingWritten(rows: seq<Row>, entries: seq<Entry>)
    ensures Written(rows, entries, 0, rows)
  {
  }

  lemma {:induction false} SaveFirstIsWritten(rows: seq<Row>, entries: seq<Entry>, n: nat, after: seq<Row>)
    requires Keyed(rows) && n <= |entries| && after == SaveFirst(rows, entries, n)
    ensures Written(rows, entries, n, after)
  {
    if n == 0 {
      NothingWritten(rows, entries);
    } else {
      var before := SaveFirst(rows, entries, n - 1);
      SaveFirstIsWritten(rows, entries, n - 1, before);
      PutIsWritten(rows, entries, n - 1, before);
      SaveFirstNext(rows, entries, n);
    }
  }

  lemma SaveFirstNext(rows: seq<Row>, entries: seq<Entry>, n: nat)
    requires 0 < n <= |entries|
    ensures SaveFirst(rows, entries, n) == Put(SaveFirst(rows, entries, n - 1), RowAt(entries, n - 1))
  {
  }

  lemma EachIsWritten(rows: seq<Row>, entries: seq<Entry>, after: seq<Row>, i: nat)
    requires i < |entries| && Written(rows, entries, |entries|, after)
    ensures RowFor(entries, i) in after
  {
    var row := RowFor(entries, i);
    if HasKey(rows, row) {
      var p :| 0 <= p < |rows| && rows[p].base == row.base && rows[p].occurrence == row.occurrence;
      assert Names(entries, i, rows[p]);
      assert after[p] == row;
    } else {
      UnarchivedHas(rows, entries, |entries|, i);
      assert row in after[|rows|..];
    }
  }

  /**
   * After a save every message is in the row with its key, whether that row was
   * there or not; the archived rows that no message names are as they were; and
   * what is added is, in order, the messages that named no archived row.
   */
  lemma SaveWrites(rows: seq<Row>, run: string, values: seq<Item>)
    requires Keyed(rows)
    ensures Written(rows, Entries(rows, run, values), |values|, Save(rows, run, values))
    ensures forall i :: 0 <= i < |values| ==> RowFor(Entries(rows, run, values), i) in Save(rows, run, values)
  {
    var entries := Entries(rows, run, values);
    SaveFirstIsWritten(rows, entries, |values|, Save(rows, run, values));
    forall i | 0 <= i < |values| ensures RowFor(entries, i) in Save(rows, run, values) {
      EachIsWritten(rows, entries, Save(rows, run, values), i);
    }
  }

  /** This says all about the table after a save. */
  lemma WrittenIsUnique(rows: seq<Row>, entries: seq<Entry>, n: nat, a: seq<Row>, b: seq<Row>)
    requires n <= |entries| && Written(rows, entries, n, a) && Written(rows, entries, n, b)
    ensures a == b
  {
    forall p | 0 <= p < |rows| ensures a[p] == b[p] {
      assert SameKey(rows[p], a[p]) && SameKey(rows[p], b[p]);
      if i :| 0 <= i < n && Names(entries, i, rows[p]) {
      }
    }
    assert a == a[..|rows|] + a[|rows|..] && b == b[..|rows|] + b[|rows|..];
  }

  /** A message saved again under its run and identifier replaces what its row held, and nothing else. */
  lemma SaveReplaces(rows: seq<Row>, run: string, p: nat, own: string, id: string, body: string)
    requires Keyed(rows) && p < |rows| && rows[p].base == Base(own, ById(id)) && rows[p].occurrence == 0
    requires own != ""
    ensures Save(rows, run, [Obj(own, Some(id), body)]) == rows[p := rows[p].(payload := Obj(own, Some(id), body))]
  {
    var values := [Obj(own, Some(id), body)];
    var entries, after := Entries(rows, run, values), Save(rows, run, values);
    SaveFirstIsWritten(rows, entries, 1, after);
    assert RowFor(entries, 0) == rows[p].(payload := values[0]);
    assert Names(entries, 0, rows[p]) && HasKey(rows, RowFor(entries, 0));
    assert Unarchived(rows, entries, 1) == [];
    forall q | 0 <= q < |rows| && q != p ensures after[q] == rows[q] {
      if Names(entries, 0, rows[q]) {
        KeyIsUnique(rows, p, q);
      }
    }
  }

  lemma {:induction false} ReadBackUpdate(rows: seq<Row>, p: nat, row: Row)
    requires p < |rows|
    ensures ReadBack(rows[p := row]) == ReadBack(rows)[p := row.payload]
  {
    var a, b := ReadBack(rows[p := row]), ReadBack(rows)[p := row.payload];
    forall i | 0 <= i < |rows| ensures a[i] == b[i] {
      ReadBackAt(rows[p := row], i);
      ReadBackAt(rows, i);
    }
  }
}
