/**
 * Merging the edits of two workers into the project
 * (dashboard/experiment.py, `prepare_copies` and `merge_copies`).
 *
 * A directory is a map from paths to contents. Digests are taken to be
 * distinct for distinct contents, so a manifest is the map itself.
 */
module TeamMerge {
  import opened Prelude
  import opened TeamPlan

  type Content = seq<bv8>

  type Files = map<string, Content>

  function Get(files: Files, name: string): Option<Content> {
    if name in files then Some(files[name]) else None
  }

  function Put(files: Files, name: string, content: Option<Content>): Files {
    if content.Some? then files[name := content.value] else files - {name}
  }

  // ---------------------------------------------------------------------
  // Validation
  // ---------------------------------------------------------------------

  /** One worker's copy as it is now, and the paths the worker owns. */
  datatype Copy = Copy(files: Files, owned: seq<string>)

  predicate Changed(base: Files, copy: Copy, name: string) {
    Get(base, name) != Get(copy.files, name)
  }

  /** An edit that may be merged: the worker owns the path and the project still has the baseline there. */
  predicate Allowed(fold: Folding, project: Files, base: Files, copy: Copy, name: string) {
    Owns(fold, name, copy.owned) && Get(project, name) == Get(base, name)
  }

  /** No two edits, of one worker or of both, touch the same path up to case. */
  ghost predicate Apart(fold: Folding, base: Files, a: Copy, b: Copy) {
    && (forall x, y :: Changed(base, a, x) && Changed(base, a, y) && Fold(fold, x) == Fold(fold, y) ==> x == y)
    && (forall x, y :: Changed(base, b, x) && Changed(base, b, y) && Fold(fold, x) == Fold(fold, y) ==> x == y)
    && (forall x, y :: Changed(base, a, x) && Changed(base, b, y) ==> Fold(fold, x) != Fold(fold, y))
  }

  ghost predicate Mergeable(fold: Folding, project: Files, base: Files, a: Copy, b: Copy) {
    && (forall name :: Changed(base, a, name) ==> Allowed(fold, project, base, a, name))
    && (forall name :: Changed(base, b, name) ==> Allowed(fold, project, base, b, name))
    && Apart(fold, base, a, b)
  }

  lemma MergeableIsSymmetric(fold: Folding, project: Files, base: Files, a: Copy, b: Copy)
    ensures Mergeable(fold, project, base, a, b) <==> Mergeable(fold, project, base, b, a)
  {
    assert Apart(fold, base, a, b) <==> Apart(fold, base, b, a);
  }

  /** For a validated plan only one worker's own edits can collide. */
  lemma DisjointOwnersDoNotCollide(fold: Folding, project: Files, base: Files, a: Copy, b: Copy, x: string, y: string)
    requires Lawful(fold) && AllNormalised(a.owned) && AllNormalised(b.owned) && !Overlapping(fold, a.owned, b.owned)
    requires Allowed(fold, project, base, a, x) && Allowed(fold, project, base, b, y)
    ensures Fold(fold, x) != Fold(fold, y)
  {
    OwnersAreDisjoint(fold, a.owned, b.owned);
    assert Fold(fold, x) == Fold(fold, y) ==> Owns(fold, y, a.owned);
  }

  datatype MergeError =
    | OutsideOwnership(name: string)
    | Collision(name: string)
    | ProjectChanged(name: string)
    | Interrupted

  /** A staged edit; a missing content deletes the path. */
  datatype Edit = Edit(name: string, content: Option<Content>)

  predicate IsChange(base: Files, copy: Copy, e: Edit) {
    Changed(base, copy, e.name) && e.content == Get(copy.files, e.name)
  }

  ghost predicate DistinctFolds(fold: Folding, edits: seq<Edit>) {
    forall i, j :: 0 <= i < j < |edits| ==> Fold(fold, edits[i].name) != Fold(fold, edits[j].name)
  }

  ghost predicate Taken(fold: Folding, edits: seq<Edit>, folded: string) {
    exists i :: 0 <= i < |edits| && Fold(fold, edits[i].name) == folded
  }

  /** All changes of a copy may be staged after the edits staged so far. */
  ghost predicate Clean(fold: Folding, project: Files, base: Files, copy: Copy, before: seq<Edit>) {
    && (forall name :: Changed(base, copy, name) ==>
          Allowed(fold, project, base, copy, name) && !Taken(fold, before, Fold(fold, name)))
    && forall x, y :: Changed(base, copy, x) && Changed(base, copy, y) && Fold(fold, x) == Fold(fold, y) ==> x == y
  }

  /** Part of a copy is staged: all of its changes but those among `rest`. */
  ghost predicate StagedSoFar(base: Files, copy: Copy, rest: set<string>, added: seq<Edit>) {
    && (forall e :: e in added ==> IsChange(base, copy, e) && e.name !in rest)
    && forall name :: Changed(base, copy, name) && name !in rest ==> Edit(name, Get(copy.files, name)) in added
  }

  /** The remembered folds are those of the staged edits, which are all different. */
  ghost predicate Remembers(fold: Folding, edits: seq<Edit>, folded: set<string>) {
    DistinctFolds(fold, edits) && forall f :: f in folded <==> Taken(fold, edits, f)
  }

  lemma RememberNext(fold: Folding, edits: seq<Edit>, folded: set<string>, e: Edit)
    requires Remembers(fold, edits, folded) && Fold(fold, e.name) !in folded
    ensures Remembers(fold, edits + [e], folded + {Fold(fold, e.name)})
  {
    var after := edits + [e];
    forall i, j | 0 <= i < j < |after| ensures Fold(fold, after[i].name) != Fold(fold, after[j].name) {
      assert Taken(fold, edits, Fold(fold, after[i].name));
    }
    forall f ensures f in folded + {Fold(fold, e.name)} <==> Taken(fold, after, f) {
      TakenNext(fold, edits, e, f);
    }
  }

  lemma TakenNext(fold: Folding, edits: seq<Edit>, e: Edit, f: string)
    ensures Taken(fold, edits + [e], f) <==> Taken(fold, edits, f) || Fold(fold, e.name) == f
  {
    var after := edits + [e];
    if Taken(fold, edits, f) {
      var i :| 0 <= i < |edits| && Fold(fold, edits[i].name) == f;
      assert after[i] == edits[i];
    }
    assert after[|edits|] == e;
  }

  lemma TakenSplits(fold: Folding, a: seq<Edit>, b: seq<Edit>, f: string)
    requires Taken(fold, a + b, f)
    ensures Taken(fold, a, f) || Taken(fold, b, f)
  {
    var i :| 0 <= i < |a + b| && Fold(fold, (a + b)[i].name) == f;
    if i >= |a| {
      assert b[i - |a|] == (a + b)[i];
    }
  }

  /** A fold that is taken already means that the copy is not clean. */
  lemma CollisionIsUnclean(fold: Folding, project: Files, base: Files, copy: Copy, before: seq<Edit>, added: seq<Edit>,
                           rest: set<string>, name: string)
    requires StagedSoFar(base, copy, rest, added) && name in rest && Changed(base, copy, name)
    requires Taken(fold, before + added, Fold(fold, name))
    ensures !Clean(fold, project, base, copy, before)
  {
    TakenSplits(fold, before, added, Fold(fold, name));
    if Taken(fold, added, Fold(fold, name)) {
      var i :| 0 <= i < |added| && Fold(fold, added[i].name) == Fold(fold, name);
      assert added[i] in added;
    }
  }

  lemma StagedNext(base: Files, copy: Copy, rest: set<string>, added: seq<Edit>, name: string)
    requires StagedSoFar(base, copy, rest, added)
    ensures Changed(base, copy, name) ==>
              StagedSoFar(base, copy, rest - {name}, added + [Edit(name, Get(copy.files, name))])
    ensures !Changed(base, copy, name) ==> StagedSoFar(base, copy, rest - {name}, added)
  {
  }

  /** What was found so far is clean: allowed and not taken before. */
  ghost predicate FoundClean(fold: Folding, project: Files, base: Files, copy: Copy, before: seq<Edit>,
                             added: seq<Edit>) {
    forall e :: e in added ==> Allowed(fold, project, base, copy, e.name) && !Taken(fold, before, Fold(fold, e.name))
  }

  /** Once everything is staged the copy was clean. */
  lemma AllStagedIsClean(fold: Folding, project: Files, base: Files, copy: Copy, before: seq<Edit>, added: seq<Edit>)
    requires StagedSoFar(base, copy, {}, added) && FoundClean(fold, project, base, copy, before, added)
    requires DistinctFolds(fold, added)
    ensures Clean(fold, project, base, copy, before)
    ensures forall e :: e in added <==> IsChange(base, copy, e)
  {
    forall name | Changed(base, copy, name)
      ensures Allowed(fold, project, base, copy, name) && !Taken(fold, before, Fold(fold, name))
    {
      assert Edit(name, Get(copy.files, name)) in added;
    }
    forall x, y | Changed(base, copy, x) && Changed(base, copy, y) && Fold(fold, x) == Fold(fold, y) ensures x == y {
      var i :| 0 <= i < |added| && added[i] == Edit(x, Get(copy.files, x));
      var j :| 0 <= j < |added| && added[j] == Edit(y, Get(copy.files, y));
    }
  }

  lemma DistinctParts(fold: Folding, a: seq<Edit>, b: seq<Edit>)
    requires DistinctFolds(fold, a + b)
    ensures DistinctFolds(fold, b)
  {
    forall i, j | 0 <= i < j < |b| ensures Fold(fold, b[i].name) != Fold(fold, b[j].name) {
      assert (a + b)[|a| + i] == b[i] && (a + b)[|a| + j] == b[j];
    }
  }

  lemma FoundNext(fold: Folding, project: Files, base: Files, copy: Copy, before: seq<Edit>, added: seq<Edit>, e: Edit)
    requires FoundClean(fold, project, base, copy, before, added) && Allowed(fold, project, base, copy, e.name)
    requires !Taken(fold, before + added, Fold(fold, e.name))
    ensures FoundClean(fold, project, base, copy, before, added + [e])
  {
    TakenStays(fold, before, added, Fold(fold, e.name));
  }

  lemma TakenStays(fold: Folding, a: seq<Edit>, b: seq<Edit>, f: string)
    ensures Taken(fold, a, f) ==> Taken(fold, a + b, f)
  {
    if Taken(fold, a, f) {
      var i :| 0 <= i < |a| && Fold(fold, a[i].name) == f;
      assert (a + b)[i] == a[i];
    }
  }

  /** What validation found at a path of an earlier edit does not matter for later ones, and stays. */
  ghost predicate KeepsView(fold: Folding, before: seq<Edit>, view: Files, seen: Files) {
    forall name :: Taken(fold, before, Fold(fold, name)) ==> Get(seen, name) == Get(view, name)
  }

  ghost predicate SameElsewhere(view: Files, seen: Files, name: string) {
    forall other :: other != name ==> Get(seen, other) == Get(view, other)
  }

  /** Looking at one more path changes nothing for the edits found so far. */
  lemma FoundElsewhere(fold: Folding, view: Files, seen: Files, base: Files, copy: Copy, before: seq<Edit>,
                       added: seq<Edit>, rest: set<string>, name: string)
    requires FoundClean(fold, view, base, copy, before, added) && SameElsewhere(view, seen, name)
    requires StagedSoFar(base, copy, rest, added) && name in rest
    ensures FoundClean(fold, seen, base, copy, before, added)
  {
  }

  lemma KeepsViewElsewhere(fold: Folding, before: seq<Edit>, added: seq<Edit>, first: Files, view: Files, seen: Files,
                           name: string)
    requires KeepsView(fold, before, first, view) && SameElsewhere(view, seen, name)
    requires !Taken(fold, before + added, Fold(fold, name))
    ensures KeepsView(fold, before, first, seen)
  {
    TakenStays(fold, before, added, Fold(fold, name));
  }

  /**
   * One copy is being staged after `earlier` edits: all of its changes but
   * those among `rest`, against the project as seen so far.
   */
  ghost predicate Staging(fold: Folding, base: Files, copy: Copy, earlier: seq<Edit>, added: seq<Edit>,
                          folded: set<string>, rest: set<string>, first: Files, seen: Files)
  {
    && StagedSoFar(base, copy, rest, added) && Remembers(fold, earlier + added, folded)
    && FoundClean(fold, seen, base, copy, earlier, added) && KeepsView(fold, earlier, first, seen)
  }

  lemma StagingNext(fold: Folding, base: Files, copy: Copy, earlier: seq<Edit>, added: seq<Edit>,
                    folded: set<string>, rest: set<string>, first: Files, seen: Files, name: string)
    requires Staging(fold, base, copy, earlier, added, folded, rest, first, seen)
    requires Changed(base, copy, name) && Allowed(fold, seen, base, copy, name) && Fold(fold, name) !in folded
    ensures Staging(fold, base, copy, earlier, added + [Edit(name, Get(copy.files, name))],
                    folded + {Fold(fold, name)}, rest - {name}, first, seen)
  {
    var e := Edit(name, Get(copy.files, name));
    StagedNext(base, copy, rest, added, name);
    RememberNext(fold, earlier + added, folded, e);
    FoundNext(fold, seen, base, copy, earlier, added, e);
    assert earlier + added + [e] == earlier + (added + [e]);
  }

  /** A copy all of whose changes are staged stays clean whatever is looked at later. */
  lemma StaysClean(fold: Folding, view: Files, seen: Files, base: Files, copy: Copy, edits: seq<Edit>)
    requires Clean(fold, view, base, copy, []) && KeepsView(fold, edits, view, seen)
    requires forall e :: e in edits <==> IsChange(base, copy, e)
    ensures Clean(fold, seen, base, copy, [])
  {
    forall name | Changed(base, copy, name) ensures Allowed(fold, seen, base, copy, name) {
      var e := Edit(name, Get(copy.files, name));
      assert e in edits;
      var i :| 0 <= i < |edits| && edits[i] == e;
      assert Taken(fold, edits, Fold(fold, name));
    }
  }

  lemma FirstIsClean(fold: Folding, project: Files, base: Files, a: Copy)
    ensures Clean(fold, project, base, a, []) <==>
              && (forall name :: Changed(base, a, name) ==> Allowed(fold, project, base, a, name))
              && forall x, y :: Changed(base, a, x) && Changed(base, a, y) && Fold(fold, x) == Fold(fold, y) ==> x == y
  {
  }

  lemma SecondIsClean(fold: Folding, project: Files, base: Files, a: Copy, b: Copy, first: seq<Edit>)
    requires Clean(fold, project, base, a, []) && forall e :: e in first <==> IsChange(base, a, e)
    ensures Clean(fold, project, base, b, first) <==> Mergeable(fold, project, base, a, b)
  {
    forall x, y | Changed(base, a, x) && Changed(base, b, y) && Fold(fold, x) == Fold(fold, y)
      ensures Taken(fold, first, Fold(fold, y))
    {
      assert Edit(x, Get(a.files, x)) in first;
      var i :| 0 <= i < |first| && first[i] == Edit(x, Get(a.files, x));
    }
    forall y | Changed(base, b, y) && Taken(fold, first, Fold(fold, y))
      ensures exists x :: Changed(base, a, x) && Fold(fold, x) == Fold(fold, y)
    {
      var i :| 0 <= i < |first| && Fold(fold, first[i].name) == Fold(fold, y);
      assert first[i] in first;
    }
  }

  /**
   * For a validated plan a merge fails only for a worker's own edits: outside
   * its paths, against a changed project, or at two paths that differ in case
   * only.
   */
  lemma ValidatedTeamsMerge(fold: Folding, project: Files, base: Files, a: Copy, b: Copy)
    requires Lawful(fold) && AllNormalised(a.owned) && AllNormalised(b.owned) && !Overlapping(fold, a.owned, b.owned)
    ensures Mergeable(fold, project, base, a, b) <==>
              Clean(fold, project, base, a, []) && Clean(fold, project, base, b, [])
  {
    if Clean(fold, project, base, a, []) && Clean(fold, project, base, b, []) {
      forall x, y | Changed(base, a, x) && Changed(base, b, y) ensures Fold(fold, x) != Fold(fold, y) {
        DisjointOwnersDoNotCollide(fold, project, base, a, b, x, y);
      }
    }
  }

  // ---------------------------------------------------------------------
  // What may be merged, and what may not
  // ---------------------------------------------------------------------

  /** A worker changed, created or deleted the file. */
  ghost predicate Touched(base: Files, copy: Copy, name: string) {
    || (name in base && name in copy.files && base[name] != copy.files[name])
    || (name in base && name !in copy.files)
    || (name !in base && name in copy.files)
  }

  /** The project still has what the workers started from. */
  ghost predicate AsInBaseline(project: Files, base: Files, name: string) {
    if name in base then name in project && project[name] == base[name] else name !in project
  }

  lemma TouchedIsChanged(base: Files, copy: Copy, name: string)
    ensures Changed(base, copy, name) <==> Touched(base, copy, name)
  {
  }

  lemma BaselineIsSame(project: Files, base: Files, name: string)
    ensures AsInBaseline(project, base, name) <==> Get(project, name) == Get(base, name)
  {
  }

  /** A worker touched only its own files, and the project has all of them as in the baseline. */
  ghost predicate TouchedOwn(fold: Folding, project: Files, base: Files, copy: Copy) {
    forall x :: Touched(base, copy, x) ==> Owns(fold, x, copy.owned) && AsInBaseline(project, base, x)
  }

  /** No two files that one worker touched are the same up to case. */
  ghost predicate TouchedOnce(fold: Folding, base: Files, copy: Copy) {
    forall x, y :: Touched(base, copy, x) && Touched(base, copy, y) && x != y ==> Fold(fold, x) != Fold(fold, y)
  }

  lemma TouchedOwnIsAllowed(fold: Folding, project: Files, base: Files, copy: Copy)
    ensures TouchedOwn(fold, project, base, copy) <==>
              forall x :: Changed(base, copy, x) ==> Allowed(fold, project, base, copy, x)
  {
    forall x ensures (Touched(base, copy, x) ==> Owns(fold, x, copy.owned) && AsInBaseline(project, base, x))
                     <==> (Changed(base, copy, x) ==> Allowed(fold, project, base, copy, x)) {
      TouchedIsChanged(base, copy, x);
      BaselineIsSame(project, base, x);
    }
  }

  lemma TouchedOnceIsApart(fold: Folding, base: Files, copy: Copy)
    ensures TouchedOnce(fold, base, copy) <==>
              forall x, y :: Changed(base, copy, x) && Changed(base, copy, y) && Fold(fold, x) == Fold(fold, y) ==>
                x == y
  {
    forall x ensures Changed(base, copy, x) <==> Touched(base, copy, x) {
      TouchedIsChanged(base, copy, x);
    }
  }

  /** No file that one worker touched is, up to case, one that the other touched. */
  ghost predicate TouchedApart(fold: Folding, base: Files, a: Copy, b: Copy) {
    forall x, y :: Touched(base, a, x) && Touched(base, b, y) ==> Fold(fold, x) != Fold(fold, y)
  }

  lemma TouchedApartIsApart(fold: Folding, base: Files, a: Copy, b: Copy)
    ensures TouchedApart(fold, base, a, b) <==>
              forall x, y :: Changed(base, a, x) && Changed(base, b, y) ==> Fold(fold, x) != Fold(fold, y)
  {
    forall x ensures Changed(base, a, x) <==> Touched(base, a, x) {
      TouchedIsChanged(base, a, x);
    }
    forall x ensures Changed(base, b, x) <==> Touched(base, b, x) {
      TouchedIsChanged(base, b, x);
    }
  }

  /**
   * Edits can be merged exactly when each worker touched only its own files,
   * all of them as in the baseline still, and no two touched files are the
   * same up to case, unless they are one file that one worker touched.
   */
  lemma MergeableExactly(fold: Folding, project: Files, base: Files, a: Copy, b: Copy)
    ensures Mergeable(fold, project, base, a, b) <==>
              && TouchedOwn(fold, project, base, a) && TouchedOwn(fold, project, base, b)
              && TouchedOnce(fold, base, a) && TouchedOnce(fold, base, b) && TouchedApart(fold, base, a, b)
  {
    TouchedOwnIsAllowed(fold, project, base, a);
    TouchedOwnIsAllowed(fold, project, base, b);
    TouchedOnceIsApart(fold, base, a);
    TouchedOnceIsApart(fold, base, b);
    TouchedApartIsApart(fold, base, a, b);
  }

  /** What is wrong with a change of one copy after the edits staged before. */
  ghost predicate IsReason(fold: Folding, seen: Files, base: Files, copy: Copy, before: seq<Edit>, error: MergeError) {
    match error
    case OutsideOwnership(name) => Touched(base, copy, name) && !Owns(fold, name, copy.owned)
    case Collision(name) =>
      && Touched(base, copy, name)
      && (Taken(fold, before, Fold(fold, name))
          || exists other :: other != name && Touched(base, copy, other) && Fold(fold, other) == Fold(fold, name))
    case ProjectChanged(name) => Touched(base, copy, name) && !AsInBaseline(seen, base, name)
    case Interrupted => false
  }

  lemma CollisionHasReason(fold: Folding, seen: Files, base: Files, copy: Copy, before: seq<Edit>, added: seq<Edit>,
                           rest: set<string>, name: string)
    requires StagedSoFar(base, copy, rest, added) && name in rest && Changed(base, copy, name)
    requires Taken(fold, before + added, Fold(fold, name))
    ensures IsReason(fold, seen, base, copy, before, Collision(name))
  {
    TakenSplits(fold, before, added, Fold(fold, name));
    if Taken(fold, added, Fold(fold, name)) {
      var i :| 0 <= i < |added| && Fold(fold, added[i].name) == Fold(fold, name);
      assert added[i] in added;
      assert Touched(base, copy, added[i].name);
    }
  }

  /** Why staging failed: for a change of the first copy, or of the second after those of the first. */
  ghost predicate Explains(fold: Folding, seen: Files, base: Files, a: Copy, b: Copy, error: MergeError) {
    || IsReason(fold, seen, base, a, [], error)
    || exists first :: (forall e :: e in first <==> IsChange(base, a, e))
                       && IsReason(fold, seen, base, b, first, error)
  }
}
