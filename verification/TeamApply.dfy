/**
 * Applying staged edits to the project and rolling them back
 * (dashboard/experiment.py, the second half of `merge_copies`), while other
 * programs may edit the project at every moment.
 */
module TeamApply {
  import opened Prelude
  import opened TeamPlan
  import opened TeamMerge

  // ---------------------------------------------------------------------
  // Other programs
  // ---------------------------------------------------------------------

  /** What other programs do to the project at one moment. */
  type Patch = map<string, Option<Content>>

  /** The patches at every moment, and the moments at which reading or writing fails. */
  datatype World = World(patches: nat -> Patch, fails: nat -> bool)

  function PatchValue(value: Option<Content>, name: string, patch: Patch): Option<Content> {
    if name in patch then patch[name] else value
  }

  function Patched(files: Files, patch: Patch): (after: Files)
    ensures forall name :: Get(after, name) == PatchValue(Get(files, name), name, patch)
  {
    map name | name in files.Keys + patch.Keys && PatchValue(Get(files, name), name, patch).Some?
      :: PatchValue(Get(files, name), name, patch).value
  }

  /** What other programs make of the content at one path between two moments. */
  ghost function Later(value: Option<Content>, name: string, world: World, since: nat, until: nat): Option<Content>
    requires since <= until
    decreases until
  {
    if since == until then value
    else PatchValue(Later(value, name, world, since, until - 1), name, world.patches(until - 1))
  }

  lemma {:induction false} LaterChain(value: Option<Content>, name: string, world: World, a: nat, b: nat, c: nat)
    requires a <= b <= c
    ensures Later(Later(value, name, world, a, b), name, world, b, c) == Later(value, name, world, a, c)
    decreases c
  {
    if b == c {
    } else {
      LaterChain(value, name, world, a, b, c - 1);
    }
  }

  ghost predicate Untouched(name: string, world: World, since: nat, until: nat) {
    forall t: nat :: since <= t < until ==> name !in world.patches(t)
  }

  lemma {:induction false} UntouchedStays(value: Option<Content>, name: string, world: World, since: nat, until: nat)
    requires since <= until && Untouched(name, world, since, until)
    ensures Later(value, name, world, since, until) == value
    decreases until
  {
    if since == until {
    } else {
      UntouchedStays(value, name, world, since, until - 1);
    }
  }

  lemma LaterNext(value: Option<Content>, name: string, world: World, since: nat, until: nat)
    requires since <= until
    ensures Later(value, name, world, since, until + 1)
              == PatchValue(Later(value, name, world, since, until), name, world.patches(until))
  {
  }

  // ---------------------------------------------------------------------
  // What a merge leaves behind, path by path
  // ---------------------------------------------------------------------

  ghost predicate DistinctNames(edits: seq<Edit>) {
    forall i, j :: 0 <= i < j < |edits| ==> edits[i].name != edits[j].name
  }

  ghost predicate Outside(name: string, edits: seq<Edit>, n: nat)
    requires n <= |edits|
  {
    forall i :: 0 <= i < n ==> edits[i].name != name
  }

  /**
   * The first `n` edits were applied, one after each moment from `start` on:
   * each path holds what the edit wrote, and every other path what it held,
   * as far as nobody else changed it.
   */
  ghost predicate Applied(before: Files, after: Files, edits: seq<Edit>, n: nat, world: World, start: nat, now: nat)
    requires n <= |edits| && start + n <= now
  {
    && (forall i :: 0 <= i < n ==>
          Get(after, edits[i].name) == Later(edits[i].content, edits[i].name, world, start + i + 1, now))
    && forall name :: Outside(name, edits, n) ==> Get(after, name) == Later(Get(before, name), name, world, start, now)
  }

  /** What rolling back does at a path: the baseline returns unless somebody changed what the merge wrote. */
  function Restored(base: Files, e: Edit, current: Option<Content>): Option<Content> {
    if current == e.content then Get(base, e.name) else current
  }

  /** The moment at which the `i`-th of `n` edits is rolled back, last one first, from `start` on. */
  function RollbackTime(n: nat, i: nat, start: nat): nat
    requires i < n
  {
    start + (n - i)
  }

  /** Edits from `k` on, of `n`, were rolled back. */
  ghost predicate RolledBack(base: Files, before: Files, after: Files, edits: seq<Edit>, k: nat, n: nat,
                             world: World, start: nat, now: nat)
    requires k <= n <= |edits| && start + (n - k) <= now
  {
    && (forall i :: k <= i < n ==>
          Get(after, edits[i].name)
          == (var t := RollbackTime(n, i, start);
              Later(Restored(base, edits[i], Later(Get(before, edits[i].name), edits[i].name, world, start, t)),
                    edits[i].name, world, t, now)))
    && forall name :: (forall i :: k <= i < n ==> edits[i].name != name) ==>
         Get(after, name) == Later(Get(before, name), name, world, start, now)
  }

  lemma PutAt(files: Files, name: string, content: Option<Content>, other: string)
    ensures Get(Put(files, name, content), other) == if other == name then content else Get(files, other)
  {
  }

  lemma PutSame(files: Files, name: string)
    ensures Put(files, name, Get(files, name)) == files
  {
  }

  /** One more moment passes. */
  lemma AppliedTick(before: Files, after: Files, edits: seq<Edit>, n: nat, world: World, start: nat, now: nat)
    requires n <= |edits| && start + n <= now && Applied(before, after, edits, n, world, start, now)
    ensures Applied(before, Patched(after, world.patches(now)), edits, n, world, start, now + 1)
  {
    var next := Patched(after, world.patches(now));
    forall i | 0 <= i < n
      ensures Get(next, edits[i].name) == Later(edits[i].content, edits[i].name, world, start + i + 1, now + 1)
    {
      LaterNext(edits[i].content, edits[i].name, world, start + i + 1, now);
    }
    forall name | Outside(name, edits, n)
      ensures Get(next, name) == Later(Get(before, name), name, world, start, now + 1)
    {
      LaterNext(Get(before, name), name, world, start, now);
    }
  }

  /** One more edit is applied. */
  lemma AppliedNext(before: Files, after: Files, edits: seq<Edit>, n: nat, world: World, start: nat)
    requires n < |edits| && DistinctNames(edits) && Applied(before, after, edits, n, world, start, start + n + 1)
    ensures Applied(before, Put(after, edits[n].name, edits[n].content), edits, n + 1, world, start, start + n + 1)
  {
    var next := Put(after, edits[n].name, edits[n].content);
    forall i | 0 <= i < n + 1
      ensures Get(next, edits[i].name) == Later(edits[i].content, edits[i].name, world, start + i + 1, start + n + 1)
    {
      PutAt(after, edits[n].name, edits[n].content, edits[i].name);
    }
    forall name | Outside(name, edits, n + 1)
      ensures Get(next, name) == Later(Get(before, name), name, world, start, start + n + 1)
    {
      PutAt(after, edits[n].name, edits[n].content, name);
      assert edits[n].name != name;
      assert Outside(name, edits, n);
    }
  }

  lemma RolledBackTick(base: Files, before: Files, after: Files, edits: seq<Edit>, k: nat, n: nat, world: World,
                       start: nat, now: nat)
    requires k <= n <= |edits| && start + (n - k) <= now
    requires RolledBack(base, before, after, edits, k, n, world, start, now)
    ensures RolledBack(base, before, Patched(after, world.patches(now)), edits, k, n, world, start, now + 1)
  {
  }

  lemma RolledBackNext(base: Files, before: Files, after: Files, edits: seq<Edit>, k: nat, n: nat, world: World,
                       start: nat)
    requires k < n <= |edits| && DistinctNames(edits)
    requires RolledBack(base, before, after, edits, k + 1, n, world, start, start + (n - k))
    ensures RolledBack(base, before, Put(after, edits[k].name, Restored(base, edits[k], Get(after, edits[k].name))),
                       edits, k, n, world, start, start + (n - k))
  {
  }

  /** A moment passes, and one more edit is rolled back. */
  lemma UndoneNext(base: Files, before: Files, after: Files, edits: seq<Edit>, k: nat, n: nat, world: World,
                   start: nat, now: nat)
    requires k < n <= |edits| && DistinctNames(edits) && now == start + (n - k - 1)
    requires RolledBack(base, before, after, edits, k + 1, n, world, start, now)
    ensures var found := Patched(after, world.patches(now));
            var next := if Get(found, edits[k].name) == edits[k].content
                        then Put(found, edits[k].name, Get(base, edits[k].name))
                        else found;
            RolledBack(base, before, next, edits, k, n, world, start, now + 1)
  {
    var found := Patched(after, world.patches(now));
    RolledBackTick(base, before, after, edits, k + 1, n, world, start, now);
    RolledBackNext(base, before, found, edits, k, n, world, start);
    PutSame(found, edits[k].name);
  }

  /**
   * Why applying stopped after `n` edits: one moment later somebody had changed
   * the path of the next one, or reading or writing it failed.
   */
  ghost predicate StoppedBy(base: Files, before: Files, edits: seq<Edit>, n: nat, world: World, start: nat)
    requires n < |edits|
  {
    var name := edits[n].name;
    Later(Get(before, name), name, world, start, start + n + 1) != Get(base, name) || world.fails(start + n + 1)
  }

  // ---------------------------------------------------------------------
  // The outcome
  // ---------------------------------------------------------------------

  /** Each applied edit was checked: right before it the project held the baseline at its path. */
  ghost predicate Checked(base: Files, before: Files, edits: seq<Edit>, n: nat, world: World, start: nat)
    requires n <= |edits|
  {
    forall i :: 0 <= i < n ==>
      Later(Get(before, edits[i].name), edits[i].name, world, start, start + i + 1) == Get(base, edits[i].name)
  }

  /** An applied edit and its rollback at one path. */
  ghost function Undone(base: Files, edits: seq<Edit>, i: nat, n: nat, world: World, start: nat,
                        now: nat): Option<Content>
    requires i < n <= |edits| && start + 2 * n + 1 <= now
  {
    var t := RollbackTime(n, i, start + n + 1);
    Later(Restored(base, edits[i], Later(edits[i].content, edits[i].name, world, start + i + 1, t)),
          edits[i].name, world, t, now)
  }

  /**
   * The rollback law. A path the merge has written returns to the baseline,
   * which is what it held before the edit, unless its content was changed
   * since, and then the later content stays; every other path is as if the
   * merge had not run.
   */
  lemma RollbackLaw(base: Files, before: Files, middle: Files, after: Files, edits: seq<Edit>, n: nat, world: World,
                    start: nat)
    requires n <= |edits| && Applied(before, middle, edits, n, world, start, start + n + 1)
    requires RolledBack(base, middle, after, edits, 0, n, world, start + n + 1, start + 2 * n + 1)
    ensures forall i :: 0 <= i < n ==>
              Get(after, edits[i].name) == Undone(base, edits, i, n, world, start, start + 2 * n + 1)
    ensures forall name :: Outside(name, edits, n) ==>
              Get(after, name) == Later(Get(before, name), name, world, start, start + 2 * n + 1)
  {
    forall i | 0 <= i < n
      ensures Get(after, edits[i].name) == Undone(base, edits, i, n, world, start, start + 2 * n + 1)
    {
      var t := RollbackTime(n, i, start + n + 1);
      LaterChain(edits[i].content, edits[i].name, world, start + i + 1, start + n + 1, t);
    }
    forall name | Outside(name, edits, n)
      ensures Get(after, name) == Later(Get(before, name), name, world, start, start + 2 * n + 1)
    {
      LaterChain(Get(before, name), name, world, start, start + n + 1, start + 2 * n + 1);
    }
  }

  // ---------------------------------------------------------------------
  // What validation sees
  // ---------------------------------------------------------------------

  /** Only other programs changed the project. */
  ghost predicate Drifted(before: Files, after: Files, world: World, since: nat, until: nat)
    requires since <= until
  {
    forall name :: Get(after, name) == Later(Get(before, name), name, world, since, until)
  }

  /** A path as it was at some moment. */
  ghost predicate SeenAt(before: Files, seen: Files, name: string, world: World, since: nat, until: nat) {
    exists t: nat :: since <= t <= until && Get(seen, name) == Later(Get(before, name), name, world, since, t)
  }

  /** Each path as it was at some moment of its own. */
  ghost predicate SeenBetween(before: Files, seen: Files, world: World, since: nat, until: nat) {
    forall name :: SeenAt(before, seen, name, world, since, until)
  }

  lemma NothingDrifted(before: Files, world: World, now: nat)
    ensures Drifted(before, before, world, now, now) && SeenBetween(before, before, world, now, now)
  {
    forall name ensures SeenAt(before, before, name, world, now, now) {
      assert Get(before, name) == Later(Get(before, name), name, world, now, now);
    }
  }

  lemma DriftedTick(before: Files, after: Files, world: World, since: nat, now: nat)
    requires since <= now && Drifted(before, after, world, since, now)
    ensures Drifted(before, Patched(after, world.patches(now)), world, since, now + 1)
  {
  }

  lemma SeenNext(before: Files, view: Files, project: Files, name: string, world: World, since: nat, now: nat)
    requires since <= now && Drifted(before, project, world, since, now + 1)
    requires SeenBetween(before, view, world, since, now)
    ensures SeenBetween(before, Put(view, name, Get(project, name)), world, since, now + 1)
  {
    var seen, later := Put(view, name, Get(project, name)), now + 1;
    forall other ensures SeenAt(before, seen, other, world, since, later) {
      PutAt(view, name, Get(project, name), other);
      if other == name {
        assert Get(seen, other) == Later(Get(before, other), other, world, since, later);
      } else {
        assert SeenAt(before, view, other, world, since, now);
        var t: nat :| since <= t <= now && Get(view, other) == Later(Get(before, other), other, world, since, t);
        assert Get(seen, other) == Later(Get(before, other), other, world, since, t);
      }
    }
  }

  /** Nobody else touches the project. */
  ghost predicate Quiet(world: World) {
    forall t: nat :: world.patches(t) == map[]
  }

  lemma QuietStays(value: Option<Content>, name: string, world: World, since: nat, until: nat)
    requires Quiet(world) && since <= until
    ensures Later(value, name, world, since, until) == value
  {
    UntouchedStays(value, name, world, since, until);
  }

  lemma SameFiles(a: Files, b: Files)
    requires forall name :: Get(a, name) == Get(b, name)
    ensures a == b
  {
    forall name | name in a ensures name in b && a[name] == b[name] {
      assert Get(a, name) == Get(b, name);
    }
    forall name | name in b ensures name in a {
      assert Get(a, name) == Get(b, name);
    }
  }

  /** With nobody else at work, an interrupted merge leaves the project as it was. */
  lemma QuietRollback(base: Files, before: Files, middle: Files, after: Files, edits: seq<Edit>, n: nat,
                      world: World, start: nat)
    requires n <= |edits| && Applied(before, middle, edits, n, world, start, start + n + 1)
    requires RolledBack(base, middle, after, edits, 0, n, world, start + n + 1, start + 2 * n + 1)
    requires Checked(base, before, edits, n, world, start) && Quiet(world)
    ensures after == before
  {
    RollbackLaw(base, before, middle, after, edits, n, world, start);
    forall name ensures Get(after, name) == Get(before, name) {
      if i :| 0 <= i < n && edits[i].name == name {
        var t := RollbackTime(n, i, start + n + 1);
        QuietStays(edits[i].content, name, world, start + i + 1, t);
        QuietStays(Get(base, name), name, world, t, start + 2 * n + 1);
        QuietStays(Get(before, name), name, world, start, start + i + 1);
      } else {
        assert Outside(name, edits, n);
        QuietStays(Get(before, name), name, world, start, start + 2 * n + 1);
      }
    }
    SameFiles(after, before);
  }

  /** With nobody else at work, validation sees the project as it is. */
  lemma QuietValidation(before: Files, after: Files, seen: Files, world: World, since: nat, until: nat)
    requires Quiet(world) && since <= until
    requires Drifted(before, after, world, since, until) && SeenBetween(before, seen, world, since, until)
    ensures after == before && seen == before
  {
    forall name ensures Get(after, name) == Get(before, name) && Get(seen, name) == Get(before, name) {
      assert SeenAt(before, seen, name, world, since, until);
      var t: nat :| since <= t <= until && Get(seen, name) == Later(Get(before, name), name, world, since, t);
      QuietStays(Get(before, name), name, world, since, t);
      QuietStays(Get(before, name), name, world, since, until);
    }
    SameFiles(after, before);
    SameFiles(seen, before);
  }

  /** The merged project: each worker's changes where it made any, the project elsewhere. */
  ghost function MergedAt(before: Files, base: Files, a: Copy, b: Copy, name: string): Option<Content> {
    if Touched(base, a, name) then Get(a.files, name)
    else if Touched(base, b, name) then Get(b.files, name)
    else Get(before, name)
  }

  /** The project with each worker's changes in it. */
  ghost predicate Merged(base: Files, before: Files, after: Files, a: Copy, b: Copy) {
    forall name :: Get(after, name) == MergedAt(before, base, a, b, name)
  }

  /** The edits of a merge: exactly the changes of both copies, at different paths. */
  ghost predicate AreChanges(base: Files, a: Copy, b: Copy, edits: seq<Edit>) {
    DistinctNames(edits) && forall e :: e in edits <==> IsChange(base, a, e) || IsChange(base, b, e)
  }

  /**
   * With nobody else at work, every changed path holds its worker's content,
   * or is gone, and every other path is exactly as it was, in whatever order
   * the edits were found.
   */
  lemma QuietMerge(base: Files, before: Files, after: Files, a: Copy, b: Copy, edits: seq<Edit>, world: World,
                   start: nat)
    requires AreChanges(base, a, b, edits) && Quiet(world)
    requires Applied(before, after, edits, |edits|, world, start, start + |edits|)
    ensures Merged(base, before, after, a, b)
  {
    forall name ensures Get(after, name) == MergedAt(before, base, a, b, name) {
      if i :| 0 <= i < |edits| && edits[i].name == name {
        assert edits[i] in edits;
        QuietStays(edits[i].content, name, world, start + i + 1, start + |edits|);
        if Changed(base, a, name) {
          OneEditPerName(base, a, b, edits, edits[i], Edit(name, Get(a.files, name)));
        }
      } else {
        assert Outside(name, edits, |edits|);
        QuietStays(Get(before, name), name, world, start, start + |edits|);
        assert Edit(name, Get(a.files, name)) !in edits && Edit(name, Get(b.files, name)) !in edits;
      }
    }
  }

  lemma OneEditPerName(base: Files, a: Copy, b: Copy, edits: seq<Edit>, e: Edit, f: Edit)
    requires AreChanges(base, a, b, edits) && e in edits && e.name == f.name && IsChange(base, a, f)
    ensures e == f
  {
    var i :| 0 <= i < |edits| && edits[i] == e;
    assert f in edits;
    var j :| 0 <= j < |edits| && edits[j] == f;
  }

  ghost predicate NothingFails(world: World) {
    forall t: nat :: !world.fails(t)
  }

  /** With nobody else at work and nothing failing, no edit that may be merged stops the merge. */
  lemma QuietNeverStops(fold: Folding, base: Files, before: Files, a: Copy, b: Copy, edits: seq<Edit>, n: nat,
                        world: World, start: nat)
    requires AreChanges(base, a, b, edits) && Mergeable(fold, before, base, a, b) && n < |edits|
    requires Quiet(world) && NothingFails(world)
    ensures !StoppedBy(base, before, edits, n, world, start)
  {
    assert edits[n] in edits;
    QuietStays(Get(before, edits[n].name), edits[n].name, world, start, start + n + 1);
  }

  /** The merged project depends neither on the order of the workers nor on that of their paths. */
  lemma OrderDoesNotMatter(base: Files, before: Files, after: Files, after': Files, a: Copy, b: Copy,
                           edits: seq<Edit>, edits': seq<Edit>, world: World, start: nat)
    requires AreChanges(base, a, b, edits) && AreChanges(base, b, a, edits') && Quiet(world)
    requires Applied(before, after, edits, |edits|, world, start, start + |edits|)
    requires Applied(before, after', edits', |edits'|, world, start, start + |edits'|)
    ensures after == after'
  {
    QuietMerge(base, before, after, a, b, edits, world, start);
    QuietMerge(base, before, after', a, b, edits', world, start);
    SameFiles(after, after');
  }

  /**
   * A merge that was begun on the project `ready`: all edits were applied, or
   * the first `count` of them were and, from `middle` on, rolled back.
   */
  ghost predicate Finished(base: Files, ready: Files, middle: Files, after: Files, edits: seq<Edit>, count: nat,
                           world: World, begun: nat, now: nat)
  {
    && count <= |edits| && Checked(base, ready, edits, count, world, begun)
    && if count == |edits| then now == begun + |edits| && Applied(ready, after, edits, count, world, begun, now)
       else
         && StoppedBy(base, ready, edits, count, world, begun) && now == begun + 2 * count + 1
         && Applied(ready, middle, edits, count, world, begun, begun + count + 1)
         && RolledBack(base, middle, after, edits, 0, count, world, begun + count + 1, now)
  }

  /** What a merge that was begun leaves with nobody else at work. */
  lemma QuietOutcome(fold: Folding, base: Files, ready: Files, middle: Files, after: Files, a: Copy, b: Copy,
                     edits: seq<Edit>, count: nat, world: World, begun: nat, now: nat)
    requires AreChanges(base, a, b, edits) && Mergeable(fold, ready, base, a, b) && Quiet(world)
    requires Finished(base, ready, middle, after, edits, count, world, begun, now)
    ensures count == |edits| ==> Merged(base, ready, after, a, b)
    ensures count < |edits| ==> !NothingFails(world) && after == ready
  {
    if count == |edits| {
      QuietMerge(base, ready, after, a, b, edits, world, begun);
    } else {
      QuietRollback(base, ready, middle, after, edits, count, world, begun);
      if NothingFails(world) {
        QuietNeverStops(fold, base, ready, a, b, edits, count, world, begun);
      }
    }
  }

  lemma ChangesAreDistinct(fold: Folding, base: Files, a: Copy, b: Copy, edits: seq<Edit>)
    requires DistinctFolds(fold, edits) && forall e :: e in edits <==> IsChange(base, a, e) || IsChange(base, b, e)
    ensures AreChanges(base, a, b, edits)
  {
  }

  // ---------------------------------------------------------------------
  // The merge
  // ---------------------------------------------------------------------

  /** The contents kept for a rollback are those of the baseline. */
  ghost predicate Saved(base: Files, edits: seq<Edit>, saved: seq<Option<Content>>) {
    |saved| <= |edits| && forall i :: 0 <= i < |saved| ==> saved[i] == Get(base, edits[i].name)
  }

  class Workspace {
    const world: World
    var project: Files
    var now: nat

    constructor (world: World, project: Files)
      ensures this.world == world && this.project == project && now == 0
    {
      this.world, this.project, now := world, project, 0;
    }

    /** A moment in which other programs may edit the project. */
    method Wait()
      modifies this
      ensures project == Patched(old(project), world.patches(old(now))) && now == old(now) + 1
    {
      project := Patched(project, world.patches(now));
      now := now + 1;
    }

    /** Validation since a moment: the project is only others' work, and `seen` is what was looked at. */
    ghost predicate Watching(origin: Files, seen: Files, since: nat)
      reads this
    {
      since <= now && Drifted(origin, project, world, since, now) && SeenBetween(origin, seen, world, since, now)
    }

    /** Look at one path; other programs may have edited the project since the last look. */
    method Look(name: string, ghost view: Files, ghost origin: Files, ghost since: nat)
      returns (current: Option<Content>, ghost seen: Files)
      requires Watching(origin, view, since)
      modifies this
      ensures now == old(now) + 1 && Watching(origin, seen, since)
      ensures Get(seen, name) == current && SameElsewhere(view, seen, name)
    {
      DriftedTick(origin, project, world, since, now);
      Wait();
      current := Get(project, name);
      seen := Put(view, name, current);
      SeenNext(origin, view, project, name, world, since, now - 1);
    }

    /**
     * Validate one changed path, which is one of `rest`, after the edits
     * staged so far: what is wrong with it, if anything.
     */
    method Validate(fold: Folding, base: Files, copy: Copy, name: string, earlier: seq<Edit>, added: seq<Edit>,
                    folded: set<string>, ghost rest: set<string>, ghost view: Files, ghost first: Files,
                    ghost origin: Files, ghost since: nat)
      returns (error: Option<MergeError>, ghost seen: Files)
      requires Watching(origin, view, since)
      requires name in rest && Changed(base, copy, name)
      requires Staging(fold, base, copy, earlier, added, folded, rest, first, view)
      modifies this
      ensures Watching(origin, seen, since)
      ensures KeepsView(fold, earlier, first, seen)
      ensures error.Some? ==>
                error.value != Interrupted && !Clean(fold, seen, base, copy, earlier)
                && IsReason(fold, seen, base, copy, earlier, error.value)
      ensures error.None? ==>
                Staging(fold, base, copy, earlier, added + [Edit(name, Get(copy.files, name))],
                        folded + {Fold(fold, name)}, rest - {name}, first, seen)
    {
      seen := view;
      if !Owns(fold, name, copy.owned) {
        return Some(OutsideOwnership(name)), seen;
      }
      if Fold(fold, name) in folded {
        CollisionIsUnclean(fold, view, base, copy, earlier, added, rest, name);
        CollisionHasReason(fold, view, base, copy, earlier, added, rest, name);
        return Some(Collision(name)), seen;
      }
      var current;
      current, seen := Look(name, view, origin, since);
      KeepsViewElsewhere(fold, earlier, added, first, view, seen, name);
      if current != Get(base, name) {
        return Some(ProjectChanged(name)), seen;
      }
      FoundElsewhere(fold, view, seen, base, copy, earlier, added, rest, name);
      StagingNext(fold, base, copy, earlier, added, folded, rest, first, seen, name);
      error := None;
    }

    /**
     * Stage the edits of one copy, in whatever order its paths come. The first
     * edit that may not be merged ends the staging. `seen` is the project as
     * validation saw it, each path at its own moment.
     */
    method StageCopy(fold: Folding, base: Files, copy: Copy, earlier: seq<Edit>, taken: set<string>,
                     ghost view: Files, ghost origin: Files, ghost since: nat)
      returns (result: Result<seq<Edit>, MergeError>, folded: set<string>, ghost seen: Files)
      requires Remembers(fold, earlier, taken)
      requires Watching(origin, view, since)
      modifies this
      ensures Watching(origin, seen, since)
      ensures KeepsView(fold, earlier, view, seen)
      ensures result.Ok? <==> Clean(fold, seen, base, copy, earlier)
      ensures result.Err? ==>
                result.error != Interrupted && IsReason(fold, seen, base, copy, earlier, result.error)
      ensures result.Ok? ==>
                && Remembers(fold, earlier + result.value, folded)
                && forall e :: e in result.value <==> IsChange(base, copy, e)
    {
      var rest := base.Keys + copy.files.Keys;
      var added := [];
      folded, seen := taken, view;
      assert earlier + added == earlier;
      while rest != {}
        invariant Watching(origin, seen, since)
        invariant Staging(fold, base, copy, earlier, added, folded, rest, view, seen)
        decreases |rest|
      {
        var name :| name in rest;
        if Changed(base, copy, name) {
          var error;
          error, seen := Validate(fold, base, copy, name, earlier, added, folded, rest, seen, view, origin, since);
          if error.Some? {
            return Err(error.value), folded, seen;
          }
          folded := folded + {Fold(fold, name)};
          added := added + [Edit(name, Get(copy.files, name))];
        } else {
          StagedNext(base, copy, rest, added, name);
        }
        rest := rest - {name};
      }
      DistinctParts(fold, earlier, added);
      AllStagedIsClean(fold, seen, base, copy, earlier, added);
      result := Ok(added);
    }

    /**
     * Staging both copies succeeds exactly when the edits can be merged into
     * the project as validation saw it, and stages exactly these edits.
     */
    method Stage(fold: Folding, base: Files, a: Copy, b: Copy)
      returns (result: Result<seq<Edit>, MergeError>, ghost seen: Files)
      modifies this
      ensures now >= old(now)
      ensures Drifted(old(project), project, world, old(now), now)
      ensures SeenBetween(old(project), seen, world, old(now), now)
      ensures result.Ok? <==> Mergeable(fold, seen, base, a, b)
      ensures result.Err? ==> result.error != Interrupted && Explains(fold, seen, base, a, b, result.error)
      ensures result.Ok? ==> AreChanges(base, a, b, result.value)
    {
      ghost var origin, since := project, now;
      NothingDrifted(origin, world, since);
      var first, folded;
      first, folded, seen := StageCopy(fold, base, a, [], {}, origin, origin, since);
      FirstIsClean(fold, seen, base, a);
      if first.Err? {
        return first, seen;
      }
      assert [] + first.value == first.value;
      ghost var view := seen;
      var second;
      second, folded, seen := StageCopy(fold, base, b, first.value, folded, view, origin, since);
      StaysClean(fold, view, seen, base, a, first.value);
      SecondIsClean(fold, seen, base, a, b, first.value);
      if second.Err? {
        return second, seen;
      }
      ChangesAreDistinct(fold, base, a, b, first.value + second.value);
      result := Ok(first.value + second.value);
    }

    /** Check one path once more and write it. */
    method ApplyOne(base: Files, edits: seq<Edit>, i: nat, ghost before: Files, ghost start: nat)
      returns (saved: Option<Option<Content>>)
      requires i < |edits| && DistinctNames(edits) && now == start + i
      requires Applied(before, project, edits, i, world, start, now)
      modifies this
      ensures now == start + i + 1
      ensures saved.None? ==> Applied(before, project, edits, i, world, start, now)
      ensures saved.None? <==> StoppedBy(base, before, edits, i, world, start)
      ensures saved.Some? ==>
                && saved.value == Get(base, edits[i].name)
                && Later(Get(before, edits[i].name), edits[i].name, world, start, now) == Get(base, edits[i].name)
                && Applied(before, project, edits, i + 1, world, start, now)
    {
      AppliedTick(before, project, edits, i, world, start, now);
      Wait();
      var e := edits[i];
      assert Outside(e.name, edits, i);
      if Get(project, e.name) != Get(base, e.name) || world.fails(now) {
        return None;
      }
      saved := Some(Get(project, e.name));
      AppliedNext(before, project, edits, i, world, start);
      project := Put(project, e.name, e.content);
    }

    /** Apply staged edits one by one; the first that meets a changed path or a failure ends it. */
    method Apply(base: Files, edits: seq<Edit>) returns (saved: seq<Option<Content>>)
      requires DistinctNames(edits)
      modifies this
      ensures |saved| <= |edits| && now == old(now) + |saved| + if |saved| < |edits| then 1 else 0
      ensures Applied(old(project), project, edits, |saved|, world, old(now), now)
      ensures Checked(base, old(project), edits, |saved|, world, old(now))
      ensures |saved| < |edits| ==> StoppedBy(base, old(project), edits, |saved|, world, old(now))
      ensures Saved(base, edits, saved)
    {
      saved := ApplyEach(base, edits, project, now);
    }

    /** The same, on the project `before` at the moment `start`. */
    method ApplyEach(base: Files, edits: seq<Edit>, ghost before: Files, ghost start: nat)
      returns (saved: seq<Option<Content>>)
      requires DistinctNames(edits) && project == before && now == start
      modifies this
      ensures |saved| <= |edits| && now == start + |saved| + if |saved| < |edits| then 1 else 0
      ensures Applied(before, project, edits, |saved|, world, start, now)
      ensures Checked(base, before, edits, |saved|, world, start)
      ensures |saved| < |edits| ==> StoppedBy(base, before, edits, |saved|, world, start)
      ensures Saved(base, edits, saved)
    {
      saved := [];
      for i := 0 to |edits|
        invariant |saved| == i && now == start + i && Saved(base, edits, saved)
        invariant Applied(before, project, edits, i, world, start, now)
        invariant Checked(base, before, edits, i, world, start)
      {
        var one := ApplyOne(base, edits, i, before, start);
        if one.None? {
          return;
        }
        saved := saved + [one.value];
      }
    }

    /** Undo one edit, unless somebody changed the path since. */
    method UndoOne(base: Files, edits: seq<Edit>, k: nat, saved: Option<Content>, ghost before: Files, ghost n: nat,
                   ghost start: nat)
      requires k < n <= |edits| && DistinctNames(edits) && now == start + (n - k - 1)
      requires saved == Get(base, edits[k].name)
      requires RolledBack(base, before, project, edits, k + 1, n, world, start, now)
      modifies this
      ensures now == start + (n - k) && RolledBack(base, before, project, edits, k, n, world, start, now)
    {
      UndoneNext(base, before, project, edits, k, n, world, start, now);
      ghost var found := Patched(project, world.patches(now));
      ghost var next :=
        if Get(found, edits[k].name) == edits[k].content then Put(found, edits[k].name, saved) else found;
      Wait();
      Restore(edits[k].name, edits[k].content, saved);
      assert project == next;
    }

    /** Restore a path that still holds what was written. */
    method Restore(name: string, written: Option<Content>, saved: Option<Content>)
      modifies this`project
      ensures project == if Get(old(project), name) == written then Put(old(project), name, saved) else old(project)
    {
      if Get(project, name) == written {
        project := Put(project, name, saved);
      }
    }

    /** Undo the applied edits, last one first, but never a later edit of somebody else. */
    method Rollback(base: Files, edits: seq<Edit>, saved: seq<Option<Content>>)
      requires |saved| <= |edits| && DistinctNames(edits) && Saved(base, edits, saved)
      modifies this
      ensures now == old(now) + |saved|
      ensures RolledBack(base, old(project), project, edits, 0, |saved|, world, old(now), now)
    {
      var k: nat := |saved|;
      ghost var before, start := project, now;
      while k > 0
        invariant k <= |saved| && now == start + (|saved| - k)
        invariant RolledBack(base, before, project, edits, k, |saved|, world, start, now)
      {
        k := k - 1;
        UndoOne(base, edits, k, saved[k], before, |saved|, start);
      }
    }

    /** Apply staged edits, or roll them back. */
    method ApplyOrUndo(base: Files, edits: seq<Edit>) returns (done: bool, ghost count: nat, ghost middle: Files)
      requires DistinctNames(edits)
      modifies this
      ensures Finished(base, old(project), middle, project, edits, count, world, old(now), now)
      ensures done <==> count == |edits|
    {
      var saved := Apply(base, edits);
      count, middle, done := |saved|, project, |saved| == |edits|;
      if !done {
        Rollback(base, edits, saved);
      }
    }

    /**
     * Merge both copies. The project is validated path by path, `seen` being
     * what it held at each path when it was checked; a validation failure
     * leaves it to the other programs. A merge that was begun, on the project
     * `ready` at the moment `begun`, is completed or rolled back. With nobody
     * else at work and nothing failing, mergeable edits are merged.
     */
    method MergeCopies(fold: Folding, base: Files, a: Copy, b: Copy)
      returns (result: Result<seq<Edit>, MergeError>, ghost edits: seq<Edit>, ghost count: nat, ghost seen: Files,
               ghost ready: Files, ghost begun: nat, ghost middle: Files)
      modifies this
      ensures begun >= old(now) && Drifted(old(project), ready, world, old(now), begun)
      ensures SeenBetween(old(project), seen, world, old(now), begun)
      ensures (result.Err? && result.error != Interrupted) <==> !Mergeable(fold, seen, base, a, b)
      ensures result.Err? && result.error != Interrupted ==>
                project == ready && now == begun && Explains(fold, seen, base, a, b, result.error)
      ensures Mergeable(fold, seen, base, a, b) ==>
                && AreChanges(base, a, b, edits)
                && Finished(base, ready, middle, project, edits, count, world, begun, now)
      ensures result.Ok? ==> result.value == edits && count == |edits|
      ensures result == Err(Interrupted) ==> count < |edits|
      ensures Quiet(world) ==>
                && (result.Ok? ==> Merged(base, old(project), project, a, b))
                && (result.Err? ==> project == old(project))
                && (Mergeable(fold, old(project), base, a, b) && NothingFails(world) ==> result.Ok?)
    {
      var staged;
      staged, seen := Stage(fold, base, a, b);
      edits, count, ready, begun, middle := [], 0, project, now, project;
      if Quiet(world) {
        QuietValidation(old(project), ready, seen, world, old(now), begun);
      }
      if staged.Err? {
        result := staged;
        return;
      }
      edits := staged.value;
      var done;
      done, count, middle := ApplyOrUndo(base, staged.value);
      result := if done then Ok(staged.value) else Err(Interrupted);
      if Quiet(world) {
        QuietOutcome(fold, base, ready, middle, project, a, b, edits, count, world, begun, now);
      }
    }
  }
}
