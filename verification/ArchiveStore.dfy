/**
 * The message table and the checkpoints of tasks in it (dashboard/store.py,
 * `_save_task` and `_save_items`).
 */
module ArchiveStore {
  import opened Prelude
  import opened Archive
  import ArchiveUpdates

  /** The rows of each task, in the order of their sequence numbers. */
  type Table = map<string, seq<Row>>

  /** What a checkpoint of a task says about its messages; an empty run stands for none. */
  datatype Task = Task(id: string, run: string, active: bool, messages: Option<seq<Item>>, hasChanges: bool)

  function RowsOf(table: Table, task: string): seq<Row> {
    if task in table then table[task] else []
  }

  /** Work without a run belongs to a legacy run of the task. */
  function RunFor(task: Task): string {
    if task.run == "" && (task.active || (task.messages.Some? && task.messages.value != []) || task.hasChanges)
    then "legacy-" + task.id
    else task.run
  }

  function SaveTask(table: Table, task: Task): Table {
    if task.messages.None? then table
    else table[task.id := Save(RowsOf(table, task.id), RunFor(task), task.messages.value)]
  }

  function SaveTasks(table: Table, tasks: seq<Task>): Table {
    if tasks == [] then table else SaveTask(SaveTasks(table, tasks[..|tasks| - 1]), tasks[|tasks| - 1])
  }

  // ---------------------------------------------------------------------
  // Every checkpoint keeps the table
  // ---------------------------------------------------------------------

  ghost predicate Sound(table: Table) {
    forall task :: task in table ==> Archived(table[task]) && Settled(table[task])
  }

  lemma {:induction false} EntriesKeepSettled(rows: seq<Row>, entries: seq<Entry>, n: nat)
    requires Settled(rows) && n <= |entries|
    requires forall i :: 0 <= i < n && entries[i].payload.Obj? ==> entries[i].payload.run != ""
    ensures Settled(SaveFirst(rows, entries, n))
  {
    if n == 0 {
    } else {
      EntriesKeepSettled(rows, entries, n - 1);
      PutKeepsSettled(SaveFirst(rows, entries, n - 1), RowAt(entries, n - 1));
    }
  }

  lemma PutKeepsSettled(rows: seq<Row>, row: Row)
    requires Settled(rows) && (row.payload.Obj? ==> row.payload.run != "")
    ensures Settled(Put(rows, row))
  {
  }

  lemma SaveKeepsSettled(rows: seq<Row>, run: string, values: seq<Item>)
    requires Settled(rows) && (run != "" || values == [])
    ensures Settled(Save(rows, run, values))
  {
    EntriesKeepSettled(rows, Entries(rows, run, values), |values|);
  }

  lemma EmptyIsArchived()
    ensures Archived([]) && Settled([])
  {
  }

  lemma SaveTaskKeepsSound(table: Table, task: Task)
    requires Sound(table)
    ensures Sound(SaveTask(table, task))
  {
    if task.messages.Some? {
      var rows := RowsOf(table, task.id);
      EmptyIsArchived();
      SaveKeepsRows(rows, RunFor(task), task.messages.value);
      SaveKeepsSettled(rows, RunFor(task), task.messages.value);
    }
  }

  /** Whatever checkpoints were saved, in whatever order and under whatever runs, the table is sound. */
  lemma {:induction false} CheckpointsKeepSound(table: Table, tasks: seq<Task>)
    requires Sound(table)
    ensures Sound(SaveTasks(table, tasks))
  {
    if tasks == [] {
    } else {
      CheckpointsKeepSound(table, tasks[..|tasks| - 1]);
      SaveTaskKeepsSound(SaveTasks(table, tasks[..|tasks| - 1]), tasks[|tasks| - 1]);
    }
  }

  /** No sequence of checkpoints, however abbreviated their lists, removes or moves a row. */
  lemma {:induction false} NothingIsLost(table: Table, tasks: seq<Task>, id: string)
    requires Sound(table)
    ensures KeepsRows(RowsOf(table, id), RowsOf(SaveTasks(table, tasks), id))
  {
    if tasks == [] {
    } else {
      var before, task := SaveTasks(table, tasks[..|tasks| - 1]), tasks[|tasks| - 1];
      NothingIsLost(table, tasks[..|tasks| - 1], id);
      CheckpointsKeepSound(table, tasks[..|tasks| - 1]);
      if task.id == id && task.messages.Some? {
        EmptyIsArchived();
        SaveKeepsRows(RowsOf(before, id), RunFor(task), task.messages.value);
        KeepsRowsChain(RowsOf(table, id), RowsOf(before, id), RowsOf(SaveTask(before, task), id));
      }
    }
  }

  lemma KeepsRowsChain(a: seq<Row>, b: seq<Row>, c: seq<Row>)
    requires KeepsRows(a, b) && KeepsRows(b, c)
    ensures KeepsRows(a, c)
  {
  }

  /**
   * A later checkpoint of the conversation that was read back, continued by
   * new messages under any run, changes no row of any task and appends exactly
   * the new messages.
   */
  lemma CheckpointContinues(table: Table, tasks: seq<Task>, task: Task, more: seq<Item>)
    requires Sound(table)
    requires var rows := RowsOf(SaveTasks(table, tasks), task.id); task.messages == Some(ReadBack(rows) + more)
    ensures var before, after := SaveTasks(table, tasks), SaveTask(SaveTasks(table, tasks), task);
            && RowsOf(before, task.id) <= RowsOf(after, task.id)
            && ReadBack(RowsOf(after, task.id)) == ReadBack(RowsOf(before, task.id)) + FillAll(more, RunFor(task))
            && (more == [] ==> RowsOf(after, task.id) == RowsOf(before, task.id))
            && forall id :: id != task.id ==> RowsOf(after, id) == RowsOf(before, id)
  {
    CheckpointsKeepSound(table, tasks);
    EmptyIsArchived();
    ContinuationReadsBack(RowsOf(SaveTasks(table, tasks), task.id), RunFor(task), more);
  }

  // ---------------------------------------------------------------------
  // What a checkpoint writes
  // ---------------------------------------------------------------------

  /** The run a checkpoint is saved under: its own, or the legacy run of the task if there is anything to save. */
  ghost predicate SavedUnder(task: Task, run: string) {
    && (task.run != "" ==> run == task.run)
    && (task.run == "" && (task.active || task.hasChanges) ==> run == "legacy-" + task.id)
    && (task.run == "" && task.messages.Some? && task.messages.value != [] ==> run == "legacy-" + task.id)
  }

  /**
   * The rows of a task after a checkpoint: every message is in the row with its
   * key, the rows that no message names are as they were, and nothing is added
   * but the messages that name no archived row.
   */
  ghost predicate Wrote(rows: seq<Row>, task: Task, run: string, after: seq<Row>) {
    && SavedUnder(task, run)
    && match task.messages
       case None => after == rows
       case Some(values) =>
         var entries := Entries(rows, run, values);
         && ArchiveUpdates.Written(rows, entries, |values|, after)
         && forall i :: 0 <= i < |values| ==> ArchiveUpdates.RowFor(entries, i) in after
  }

  /** A checkpoint writes its messages to the rows of its task and leaves all other tasks alone. */
  lemma CheckpointWrites(table: Table, task: Task)
    requires Sound(table)
    ensures Wrote(RowsOf(table, task.id), task, RunFor(task), RowsOf(SaveTask(table, task), task.id))
    ensures forall id :: id != task.id ==> RowsOf(SaveTask(table, task), id) == RowsOf(table, id)
  {
    EmptyIsArchived();
    if task.messages.Some? {
      ArchiveUpdates.SaveWrites(RowsOf(table, task.id), RunFor(task), task.messages.value);
    }
  }

  /**
   * A message that a later checkpoint saves again, under the run and identifier
   * it was archived with, reads as it was saved last, at its old place.
   */
  lemma CheckpointReplaces(table: Table, tasks: seq<Task>, task: Task, p: nat, own: string, id: string, body: string)
    requires Sound(table) && own != ""
    requires var rows := RowsOf(SaveTasks(table, tasks), task.id);
             p < |rows| && rows[p].base == Base(own, ById(id)) && rows[p].occurrence == 0
    requires task.messages == Some([Obj(own, Some(id), body)])
    ensures var before, after := SaveTasks(table, tasks), SaveTask(SaveTasks(table, tasks), task);
            ReadBack(RowsOf(after, task.id)) == ReadBack(RowsOf(before, task.id))[p := Obj(own, Some(id), body)]
  {
    var rows, item := RowsOf(SaveTasks(table, tasks), task.id), Obj(own, Some(id), body);
    CheckpointsKeepSound(table, tasks);
    ArchiveUpdates.SaveReplaces(rows, RunFor(task), p, own, id, body);
    ArchiveUpdates.ReadBackUpdate(rows, p, rows[p].(payload := item));
  }

  // ---------------------------------------------------------------------
  // The store
  // ---------------------------------------------------------------------

  function CountIn<K>(counts: map<K, nat>, k: K): nat {
    if k in counts then counts[k] else 0
  }

  function ListIn(lists: map<string, seq<string>>, k: string): seq<string> {
    if k in lists then lists[k] else []
  }

  /** The counts by base, or by text, of what was processed so far. */
  ghost predicate Tracks(counts: map<Base, nat>, entries: seq<Entry>, n: nat)
    requires n <= |entries|
  {
    forall base :: CountIn(counts, base) == CountEntries(entries, n, base)
  }

  ghost predicate TracksText(counts: map<string, nat>, values: seq<Item>, n: nat)
    requires n <= |values|
  {
    forall raw :: CountIn(counts, raw) == CountText(values, n, raw)
  }

  lemma BaseNext(counts: map<Base, nat>, entries: seq<Entry>, n: nat)
    requires n < |entries| && Tracks(counts, entries, n)
    ensures Tracks(counts[entries[n].base := CountIn(counts, entries[n].base) + 1], entries, n + 1)
  {
    var after := counts[entries[n].base := CountIn(counts, entries[n].base) + 1];
    forall base ensures CountIn(after, base) == CountEntries(entries, n + 1, base) {
      assert CountIn(counts, base) == CountEntries(entries, n, base);
    }
  }

  lemma TextNext(counts: map<string, nat>, values: seq<Item>, n: nat, raw: string)
    requires n < |values| && TracksText(counts, values, n) && values[n] == Text(raw)
    ensures TracksText(counts[raw := CountIn(counts, raw) + 1], values, n + 1)
  {
    var after := counts[raw := CountIn(counts, raw) + 1];
    forall other ensures CountIn(after, other) == CountText(values, n + 1, other) {
      assert CountIn(counts, other) == CountText(values, n, other);
    }
  }

  lemma ObjectNext(counts: map<string, nat>, values: seq<Item>, n: nat)
    requires n < |values| && TracksText(counts, values, n) && values[n].Obj?
    ensures TracksText(counts, values, n + 1)
  {
    forall other ensures CountIn(counts, other) == CountText(values, n + 1, other) {
      assert CountIn(counts, other) == CountText(values, n, other);
    }
  }

  /** The archived runs of every plain message of a list are known. */
  ghost predicate Knows(runs: map<string, seq<string>>, rows: seq<Row>, values: seq<Item>) {
    forall i :: 0 <= i < |values| && values[i].Text? ==>
      ListIn(runs, values[i].raw) == TextRuns(rows, |rows|, values[i].raw)
  }

  lemma PutTwice(table: Table, task: string, a: seq<Row>, b: seq<Row>)
    ensures table[task := a][task := b] == table[task := b]
  {
  }

  lemma NothingCounted(entries: seq<Entry>, values: seq<Item>)
    ensures Tracks(map[], entries, 0) && TracksText(map[], values, 0)
  {
  }

  class ChatStore {
    var table: Table

    constructor ()
      ensures table == map[] && Sound(table)
    {
      table := map[];
    }

    /** The runs of the archived plain messages by text, read only when some message is plain. */
    method LegacyRuns(rows: seq<Row>, values: seq<Item>) returns (runs: map<string, seq<string>>)
      ensures Knows(runs, rows, values)
    {
      runs := map[];
      if forall i :: 0 <= i < |values| ==> values[i].Obj? {
        return;
      }
      for i := 0 to |rows|
        invariant forall raw :: ListIn(runs, raw) == TextRuns(rows, i, raw)
      {
        if rows[i].payload.Text? {
          var raw := rows[i].payload.raw;
          runs := runs[raw := ListIn(runs, raw) + [rows[i].base.run]];
        }
      }
    }

    /** The run of the next message; an old plain one takes the next run archived for its text. */
    static method RunOf(item: Item, run: string, legacyRuns: map<string, seq<string>>, seen: map<string, nat>,
                        ghost rows: seq<Row>, ghost values: seq<Item>, ghost i: nat)
      returns (itemRun: string, seenNow: map<string, nat>)
      requires i < |values| && values[i] == item && TracksText(seen, values, i)
      requires Knows(legacyRuns, rows, values)
      ensures itemRun == RunAt(rows, run, values, i) && TracksText(seenNow, values, i + 1)
    {
      itemRun, seenNow := if item.Obj? && item.run != "" then item.run else run, seen;
      if item.Text? {
        var occurrence, saved := CountIn(seen, item.raw), ListIn(legacyRuns, item.raw);
        TextNext(seen, values, i, item.raw);
        seenNow := seen[item.raw := occurrence + 1];
        if occurrence < |saved| {
          itemRun := saved[occurrence];
        }
      } else {
        ObjectNext(seen, values, i);
      }
    }

    /** Upsert one message under its base and the next occurrence of it. */
    method Upsert(task: string, base: Base, payload: Item, occurrences: map<Base, nat>,
                  ghost rows: seq<Row>, ghost entries: seq<Entry>, ghost i: nat)
      returns (counts: map<Base, nat>)
      requires i < |entries| && entries[i] == Entry(base, payload) && Tracks(occurrences, entries, i)
      requires task in table && table[task] == SaveFirst(rows, entries, i)
      modifies this
      ensures table == old(table)[task := SaveFirst(rows, entries, i + 1)] && Tracks(counts, entries, i + 1)
    {
      var occurrence := CountIn(occurrences, base);
      BaseNext(occurrences, entries, i);
      counts := occurrences[base := occurrence + 1];
      table := table[task := Put(table[task], Row(base, occurrence, payload))];
    }

    /** Upsert a list of messages, one by one. */
    method SaveItems(task: string, run: string, values: seq<Item>)
      modifies this
      ensures table == old(table)[task := Save(RowsOf(old(table), task), run, values)]
    {
      var rows := RowsOf(table, task);
      ghost var entries := Entries(rows, run, values);
      var occurrences: map<Base, nat>, legacyOccurrences: map<string, nat> := map[], map[];
      var legacyRuns := LegacyRuns(rows, values);
      table := table[task := rows];
      NothingCounted(entries, values);
      for i := 0 to |values|
        invariant table == old(table)[task := SaveFirst(rows, entries, i)]
        invariant Tracks(occurrences, entries, i) && TracksText(legacyOccurrences, values, i)
      {
        var itemRun;
        itemRun, legacyOccurrences := RunOf(values[i], run, legacyRuns, legacyOccurrences, rows, values, i);
        var payload := Fill(values[i], itemRun);
        PutTwice(old(table), task, SaveFirst(rows, entries, i), SaveFirst(rows, entries, i + 1));
        occurrences := Upsert(task, Base(itemRun, IdentityOf(payload)), payload, occurrences, rows, entries, i);
      }
    }

    /** A checkpoint; the stored task shows the whole conversation. */
    method Checkpoint(task: Task) returns (messages: Option<seq<Item>>)
      requires Sound(table)
      modifies this
      ensures table == SaveTask(old(table), task) && Sound(table)
      ensures exists run :: Wrote(RowsOf(old(table), task.id), task, run, RowsOf(table, task.id))
      ensures forall id :: id != task.id ==> RowsOf(table, id) == RowsOf(old(table), id)
      ensures messages == if task.messages.Some? then Some(ReadBack(RowsOf(table, task.id))) else None
    {
      SaveTaskKeepsSound(table, task);
      CheckpointWrites(table, task);
      messages := None;
      if task.messages.Some? {
        SaveItems(task.id, RunFor(task), task.messages.value);
        messages := Some(ReadBack(table[task.id]));
      }
    }
  }
}
