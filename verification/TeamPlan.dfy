/**
 * The plan of a two-worker team: which paths each worker owns
 * (dashboard/experiment.py, `validate_plan` and `owns`).
 */
module TeamPlan {
  import opened Prelude

  // ---------------------------------------------------------------------
  // Case folding
  // ---------------------------------------------------------------------

  /** How each character folds; some fold to several characters. */
  type Folding = char -> string

  /** Folding twice is folding once, and no other character folds to a separator. */
  ghost predicate Lawful(fold: Folding) {
    && fold('/') == "/"
    && (forall c :: fold(c) != "" && (c != '/' ==> '/' !in fold(c)))
    && (forall c, d :: d in fold(c) ==> fold(d) == [d])
  }

  function Fold(fold: Folding, s: string): string {
    if s == "" then "" else Fold(fold, s[..|s| - 1]) + fold(s[|s| - 1])
  }

  lemma {:induction false} FoldConcat(fold: Folding, a: string, b: string)
    ensures Fold(fold, a + b) == Fold(fold, a) + Fold(fold, b)
    decreases |b|
  {
    if b == "" {
      assert a + b == a;
    } else {
      assert (a + b)[..|a + b| - 1] == a + b[..|b| - 1];
      FoldConcat(fold, a, b[..|b| - 1]);
    }
  }

  /** Folding replaces each character, one by one. */
  lemma FoldIsCharacterwise(fold: Folding, s: string, c: char)
    ensures Fold(fold, "") == "" && Fold(fold, [c]) == fold(c)
    ensures Fold(fold, [c] + s) == fold(c) + Fold(fold, s)
  {
    assert [c][..0] == "" && "" + fold(c) == fold(c);
    assert Fold(fold, [c]) == Fold(fold, "") + fold(c);
    FoldConcat(fold, [c], s);
  }

  lemma {:induction false} FoldFixed(fold: Folding, s: string)
    requires forall d :: d in s ==> fold(d) == [d]
    ensures Fold(fold, s) == s
  {
    if s == "" {
    } else {
      var init, last := s[..|s| - 1], s[|s| - 1];
      assert forall d :: d in init ==> d in s;
      FoldFixed(fold, init);
      assert last in s && s == init + [last];
    }
  }

  lemma {:induction false} FoldTwice(fold: Folding, s: string)
    requires Lawful(fold)
    ensures Fold(fold, Fold(fold, s)) == Fold(fold, s)
  {
    if s == "" {
    } else {
      var init, last := s[..|s| - 1], s[|s| - 1];
      FoldTwice(fold, init);
      FoldConcat(fold, Fold(fold, init), fold(last));
      FoldFixed(fold, fold(last));
    }
  }

  // ---------------------------------------------------------------------
  // Paths
  // ---------------------------------------------------------------------

  /** The pieces between separators, empty ones included. */
  function Split(s: string): (pieces: seq<string>)
    ensures pieces != []
  {
    if s == "" then [""]
    else
      var before, last := Split(s[..|s| - 1]), s[|s| - 1];
      if last == '/' then before + [""] else before[..|before| - 1] + [before[|before| - 1] + [last]]
  }

  function Significant(pieces: seq<string>): seq<string> {
    if pieces == [] then []
    else
      var last := pieces[|pieces| - 1];
      Significant(pieces[..|pieces| - 1]) + if last == "" || last == "." then [] else [last]
  }

  /** The components of a relative path. */
  function Parts(s: string): seq<string> {
    Significant(Split(s))
  }

  function Join(parts: seq<string>): string {
    if parts == [] then ""
    else if |parts| == 1 then parts[0]
    else Join(parts[..|parts| - 1]) + "/" + parts[|parts| - 1]
  }

  function TrimSlashes(s: string): string {
    if s != "" && s[|s| - 1] == '/' then TrimSlashes(s[..|s| - 1]) else s
  }

  /** A component of a normalised path. */
  predicate IsPart(part: string) {
    part != "" && part != "." && '/' !in part
  }

  ghost predicate AllParts(parts: seq<string>) {
    forall i :: 0 <= i < |parts| ==> IsPart(parts[i])
  }

  lemma {:induction false} PiecesHaveNoSeparator(s: string)
    ensures forall i :: 0 <= i < |Split(s)| ==> '/' !in Split(s)[i]
  {
    if s == "" {
    } else {
      PiecesHaveNoSeparator(s[..|s| - 1]);
    }
  }

  lemma {:induction false} SignificantAreParts(pieces: seq<string>)
    requires forall i :: 0 <= i < |pieces| ==> '/' !in pieces[i]
    ensures AllParts(Significant(pieces))
  {
    if pieces == [] {
    } else {
      SignificantAreParts(pieces[..|pieces| - 1]);
    }
  }

  lemma PartsAreParts(s: string)
    ensures AllParts(Parts(s))
  {
    PiecesHaveNoSeparator(s);
    SignificantAreParts(Split(s));
  }

  lemma SplitSnoc(s: string, c: char)
    ensures Split(s + [c]) == if c == '/' then Split(s) + [""]
                              else Split(s)[..|Split(s)| - 1] + [Split(s)[|Split(s)| - 1] + [c]]
  {
    assert (s + [c])[..|s|] == s;
  }

  lemma {:induction false} SplitAfterSeparator(a: string, part: string)
    requires '/' !in part
    ensures Split(a + "/" + part) == Split(a) + [part]
    decreases |part|
  {
    if part == "" {
      SplitSnoc(a, '/');
      assert a + "/" + part == a + ['/'];
    } else {
      var init, last := part[..|part| - 1], part[|part| - 1];
      assert last in part && init + [last] == part;
      SplitAfterSeparator(a, init);
      SplitSnoc(a + "/" + init, last);
      assert a + "/" + part == a + "/" + init + [last];
      assert (Split(a) + [init])[..|Split(a)|] == Split(a);
    }
  }

  lemma {:induction false} SplitPart(part: string)
    requires '/' !in part
    ensures Split(part) == [part]
  {
    if part == "" {
    } else {
      var init, last := part[..|part| - 1], part[|part| - 1];
      assert last in part && init + [last] == part;
      SplitPart(init);
      SplitSnoc(init, last);
    }
  }

  /** Joining and splitting are inverse on components. */
  lemma {:induction false} SplitOfJoin(parts: seq<string>)
    requires parts != [] && AllParts(parts)
    ensures Split(Join(parts)) == parts
  {
    var init, last := parts[..|parts| - 1], parts[|parts| - 1];
    assert parts == init + [last] && IsPart(last);
    if |parts| == 1 {
      SplitPart(last);
    } else {
      assert AllParts(init);
      SplitOfJoin(init);
      SplitAfterSeparator(Join(init), last);
      JoinNext(parts);
    }
  }

  lemma JoinNext(parts: seq<string>)
    requires |parts| > 1
    ensures Join(parts) == Join(parts[..|parts| - 1]) + "/" + parts[|parts| - 1]
  {
  }

  lemma {:induction false} AllSignificant(parts: seq<string>)
    requires AllParts(parts)
    ensures Significant(parts) == parts
  {
    if parts == [] {
    } else {
      AllSignificant(parts[..|parts| - 1]);
    }
  }

  /** A normalised path neither begins nor ends with a separator. */
  lemma {:induction false} JoinEnds(parts: seq<string>)
    requires parts != [] && AllParts(parts)
    ensures Join(parts) != "" && Join(parts)[|Join(parts)| - 1] != '/' && Join(parts)[0] != '/'
  {
    if |parts| <= 1 {
    } else {
      JoinEnds(parts[..|parts| - 1]);
    }
  }

  // ---------------------------------------------------------------------
  // Ownership
  // ---------------------------------------------------------------------

  predicate StartsWith(s: string, prefix: string) {
    prefix <= s
  }

  /** Two folded paths are the same, or one is a directory above the other. */
  predicate Clash(a: string, b: string) {
    a == b || StartsWith(a, b + "/") || StartsWith(b, a + "/")
  }

  predicate Covers(name: string, path: string) {
    name == path || StartsWith(name, TrimSlashes(path) + "/")
  }

  /** A name belongs to a worker that owns it or a directory above it, up to case. */
  predicate Owns(fold: Folding, relative: string, paths: seq<string>) {
    var name := Fold(fold, relative);
    exists i :: 0 <= i < |paths| && Covers(name, Fold(fold, paths[i]))
  }

  predicate Overlapping(fold: Folding, mine: seq<string>, yours: seq<string>) {
    exists i, j :: 0 <= i < |mine| && 0 <= j < |yours| && Clash(Fold(fold, mine[i]), Fold(fold, yours[j]))
  }

  /** A path as a plan stores it. */
  ghost predicate Normalised(path: string) {
    exists parts :: parts != [] && AllParts(parts) && path == Join(parts)
  }

  ghost predicate AllNormalised(paths: seq<string>) {
    forall i :: 0 <= i < |paths| ==> Normalised(paths[i])
  }

  lemma FoldEnd(fold: Folding, path: string)
    requires Lawful(fold) && Normalised(path)
    ensures Fold(fold, path) != "" && TrimSlashes(Fold(fold, path)) == Fold(fold, path)
  {
    var parts :| parts != [] && AllParts(parts) && path == Join(parts);
    JoinEnds(parts);
    var last := fold(path[|path| - 1]);
    assert last[|last| - 1] in last;
  }

  /** Two prefixes of one path are comparable. */
  lemma CoversClash(name: string, p: string, q: string)
    requires Covers(name, p) && Covers(name, q) && TrimSlashes(p) == p && TrimSlashes(q) == q
    ensures Clash(p, q)
  {
    if name != p && name != q {
      assert name[..|p|] == p && name[..|q|] == q && name[|p|] == '/' && name[|q|] == '/';
      if |p| < |q| {
        assert q[..|p| + 1] == name[..|p| + 1] == p + "/";
      } else if |q| < |p| {
        assert p[..|q| + 1] == name[..|q| + 1] == q + "/";
      }
    }
  }

  /** Owned paths clash exactly when some path, of whatever depth and case, belongs to both workers. */
  lemma OwnersAreDisjoint(fold: Folding, mine: seq<string>, yours: seq<string>)
    requires Lawful(fold) && AllNormalised(mine) && AllNormalised(yours)
    ensures Overlapping(fold, mine, yours) <==> exists name :: Owns(fold, name, mine) && Owns(fold, name, yours)
  {
    if Overlapping(fold, mine, yours) {
      var i, j :| 0 <= i < |mine| && 0 <= j < |yours| && Clash(Fold(fold, mine[i]), Fold(fold, yours[j]));
      FoldEnd(fold, mine[i]);
      FoldEnd(fold, yours[j]);
      var name := if StartsWith(Fold(fold, yours[j]), Fold(fold, mine[i]) + "/") then yours[j] else mine[i];
      assert Owns(fold, name, mine) && Owns(fold, name, yours);
    }
    if name :| Owns(fold, name, mine) && Owns(fold, name, yours) {
      var i :| 0 <= i < |mine| && Covers(Fold(fold, name), Fold(fold, mine[i]));
      var j :| 0 <= j < |yours| && Covers(Fold(fold, name), Fold(fold, yours[j]));
      FoldEnd(fold, mine[i]);
      FoldEnd(fold, yours[j]);
      CoversClash(Fold(fold, name), Fold(fold, mine[i]), Fold(fold, yours[j]));
    }
  }

  // ---------------------------------------------------------------------
  // Validation
  // ---------------------------------------------------------------------

  const MAX_PATHS: nat := 1000

  datatype Worker = Worker(name: string, task: string, validation: string, ownedPaths: seq<string>)

  datatype Plan = Plan(summary: string, contract: string, workers: seq<Worker>)

  datatype PlanError = WrongTeam | NoContract | Undescribed | BadAssignment | BadPath | SharedPath

  /** What is blank, and which components must never be assigned. */
  datatype Rules = Rules(fold: Folding, blank: string -> bool, blocked: seq<string> -> bool)

  predicate IsPlainChar(c: char) {
    c != '*' && c != '?' && c != ':' && c != '\\' && c as int >= 32
  }

  function Normalise(rules: Rules, path: string): Option<string> {
    if path == "" || exists i :: 0 <= i < |path| && !IsPlainChar(path[i]) then None
    else
      var trimmed := TrimSlashes(path);
      var parts := Parts(trimmed);
      if (trimmed != "" && trimmed[0] == '/') || ".." in parts || parts == [] || rules.blocked(parts) then None
      else Some(Join(parts))
  }

  lemma NormaliseNormalises(rules: Rules, path: string)
    ensures Normalise(rules, path).Some? ==> Normalised(Normalise(rules, path).value)
  {
    PartsAreParts(TrimSlashes(path));
  }

  predicate Described(rules: Rules, w: Worker) {
    !rules.blank(w.name) && !rules.blank(w.task) && !rules.blank(w.validation)
  }

  predicate AllAccepted(rules: Rules, paths: seq<string>) {
    forall i :: 0 <= i < |paths| ==> Normalise(rules, paths[i]).Some?
  }

  predicate Assigned(rules: Rules, w: Worker) {
    |w.ownedPaths| <= MAX_PATHS && AllAccepted(rules, w.ownedPaths)
  }

  function NormaliseAll(rules: Rules, paths: seq<string>): (normalised: seq<string>)
    requires AllAccepted(rules, paths)
    ensures |normalised| == |paths|
    ensures forall i :: 0 <= i < |paths| ==> normalised[i] == Normalise(rules, paths[i]).value
  {
    seq(|paths|, i requires 0 <= i < |paths| => Normalise(rules, paths[i]).value)
  }

  predicate WellFormed(rules: Rules, plan: Plan) {
    && |plan.workers| == 2 && !rules.blank(plan.summary) && !rules.blank(plan.contract)
    && (forall i :: 0 <= i < 2 ==> Described(rules, plan.workers[i]) && Assigned(rules, plan.workers[i]))
  }

  /** The validated plan: only the paths change. */
  function Validated(rules: Rules, plan: Plan): Plan
    requires WellFormed(rules, plan)
  {
    var a, b := plan.workers[0], plan.workers[1];
    plan.(workers := [a.(ownedPaths := NormaliseAll(rules, a.ownedPaths)),
                       b.(ownedPaths := NormaliseAll(rules, b.ownedPaths))])
  }

  ghost predicate NormalisedSoFar(rules: Rules, paths: seq<string>, normalised: seq<string>) {
    |normalised| <= |paths| && forall j :: 0 <= j < |normalised| ==> Normalise(rules, paths[j]) == Some(normalised[j])
  }

  lemma NormalisedNext(rules: Rules, paths: seq<string>, normalised: seq<string>, next: string)
    requires NormalisedSoFar(rules, paths, normalised) && |normalised| < |paths|
    requires Normalise(rules, paths[|normalised|]) == Some(next)
    ensures NormalisedSoFar(rules, paths, normalised + [next])
  {
    var more := normalised + [next];
    forall j | 0 <= j < |more| ensures Normalise(rules, paths[j]) == Some(more[j]) {
      assert j < |normalised| ==> more[j] == normalised[j];
    }
  }

  lemma SameNormalised(rules: Rules, paths: seq<string>, normalised: seq<string>)
    requires NormalisedSoFar(rules, paths, normalised) && |normalised| == |paths|
    ensures AllAccepted(rules, paths) && normalised == NormaliseAll(rules, paths)
  {
  }

  method NormalisePaths(rules: Rules, paths: seq<string>) returns (result: Result<seq<string>, PlanError>)
    ensures result.Ok? <==> |paths| <= MAX_PATHS && AllAccepted(rules, paths)
    ensures result.Ok? ==> result.value == NormaliseAll(rules, paths)
    ensures result.Err? ==> !result.error.SharedPath?
  {
    if |paths| > MAX_PATHS {
      return Err(BadAssignment);
    }
    var normalised := [];
    for i := 0 to |paths|
      invariant NormalisedSoFar(rules, paths, normalised) && |normalised| == i
    {
      var path := Normalise(rules, paths[i]);
      if path.None? {
        return Err(BadPath);
      }
      NormalisedNext(rules, paths, normalised, path.value);
      normalised := normalised + [path.value];
    }
    SameNormalised(rules, paths, normalised);
    result := Ok(normalised);
  }

  /** Every pair of assignments; folding the first again for each second one changes nothing. */
  method FindClash(fold: Folding, mine: seq<string>, yours: seq<string>) returns (found: bool)
    requires Lawful(fold)
    ensures found <==> Overlapping(fold, mine, yours)
  {
    for i := 0 to |mine|
      invariant forall k, l :: 0 <= k < i && 0 <= l < |yours| ==> !Clash(Fold(fold, mine[k]), Fold(fold, yours[l]))
    {
      var a := mine[i];
      for j := 0 to |yours|
        invariant a == mine[i] || a == Fold(fold, mine[i])
        invariant forall l :: 0 <= l < j ==> !Clash(Fold(fold, mine[i]), Fold(fold, yours[l]))
      {
        FoldTwice(fold, mine[i]);
        a := Fold(fold, a);
        if Clash(a, Fold(fold, yours[j])) {
          return true;
        }
      }
    }
    found := false;
  }

  /** A plan is accepted exactly when it is well formed and no path belongs to both workers. */
  method ValidatePlan(rules: Rules, plan: Plan) returns (result: Result<Plan, PlanError>)
    requires Lawful(rules.fold)
    ensures result.Ok? <==>
              && WellFormed(rules, plan)
              && (var v := Validated(rules, plan);
                  !exists name :: Owns(rules.fold, name, v.workers[0].ownedPaths)
                                    && Owns(rules.fold, name, v.workers[1].ownedPaths))
    ensures result.Ok? ==> result.value == Validated(rules, plan)
    ensures result == Err(SharedPath) ==> WellFormed(rules, plan)
  {
    if |plan.workers| != 2 {
      return Err(WrongTeam);
    }
    if rules.blank(plan.summary) || rules.blank(plan.contract) {
      return Err(NoContract);
    }
    var workers: seq<Worker> := [];
    for i := 0 to 2
      invariant |workers| == i
      invariant forall j :: 0 <= j < i ==>
        && Described(rules, plan.workers[j]) && Assigned(rules, plan.workers[j])
        && workers[j] == plan.workers[j].(ownedPaths := NormaliseAll(rules, plan.workers[j].ownedPaths))
    {
      var worker := plan.workers[i];
      if rules.blank(worker.name) || rules.blank(worker.task) || rules.blank(worker.validation) {
        return Err(Undescribed);
      }
      var paths := NormalisePaths(rules, worker.ownedPaths);
      if paths.Err? {
        return Err(paths.error);
      }
      workers := workers + [worker.(ownedPaths := paths.value)];
    }
    ValidatedIsNormalised(rules, plan);
    assert workers == Validated(rules, plan).workers;
    OwnersAreDisjoint(rules.fold, workers[0].ownedPaths, workers[1].ownedPaths);
    var clash := FindClash(rules.fold, workers[0].ownedPaths, workers[1].ownedPaths);
    result := if clash then Err(SharedPath) else Ok(plan.(workers := workers));
  }

  lemma ValidatedIsNormalised(rules: Rules, plan: Plan)
    requires WellFormed(rules, plan)
    ensures forall i :: 0 <= i < 2 ==> AllNormalised(Validated(rules, plan).workers[i].ownedPaths)
  {
    forall i, j | 0 <= i < 2 && 0 <= j < |plan.workers[i].ownedPaths|
      ensures Normalised(NormaliseAll(rules, plan.workers[i].ownedPaths)[j])
    {
      NormaliseNormalises(rules, plan.workers[i].ownedPaths[j]);
    }
  }

  // ---------------------------------------------------------------------
  // Which paths are accepted
  // ---------------------------------------------------------------------

  /** Separators at the end do not change the components. */
  lemma {:induction false} TrimKeepsParts(s: string)
    ensures Parts(TrimSlashes(s)) == Parts(s)
  {
    if s == "" || s[|s| - 1] != '/' {
    } else {
      var init := s[..|s| - 1];
      TrimKeepsParts(init);
      assert (Split(init) + [""])[..|Split(init)|] == Split(init);
    }
  }

  /** A path of separators only has no components. */
  lemma {:induction false} TrimmedStart(s: string)
    ensures TrimSlashes(s) == "" ==> Parts(s) == []
    ensures TrimSlashes(s) != "" ==> s != "" && TrimSlashes(s)[0] == s[0]
  {
    if s == "" || s[|s| - 1] != '/' {
    } else {
      var init := s[..|s| - 1];
      TrimmedStart(init);
      assert (Split(init) + [""])[..|Split(init)|] == Split(init);
    }
  }

  /**
   * A path is accepted exactly when it is relative, has plain characters and
   * components, never climbs and names nothing blocked; its normal form has
   * the same components.
   */
  lemma AcceptedPaths(rules: Rules, path: string)
    ensures Normalise(rules, path).Some? <==>
              && path != "" && path[0] != '/'
              && (forall i :: 0 <= i < |path| ==> path[i] !in "*?:\\" && path[i] as int >= 32)
              && Parts(path) != [] && ".." !in Parts(path) && !rules.blocked(Parts(path))
    ensures Normalise(rules, path).Some? ==> Parts(Normalise(rules, path).value) == Parts(path)
  {
    TrimKeepsParts(path);
    TrimmedStart(path);
    if Normalise(rules, path).Some? {
      PartsAreParts(path);
      SplitOfJoin(Parts(path));
      AllSignificant(Parts(path));
    }
  }

  /** A validated plan says what the plan said, with every path in normal form. */
  lemma ValidatedKeepsPlan(rules: Rules, plan: Plan, i: nat)
    requires WellFormed(rules, plan) && i < 2
    ensures var w, v := plan.workers[i], Validated(rules, plan).workers[i];
            && Validated(rules, plan).summary == plan.summary && Validated(rules, plan).contract == plan.contract
            && |Validated(rules, plan).workers| == 2 && v == w.(ownedPaths := v.ownedPaths)
            && |v.ownedPaths| == |w.ownedPaths|
            && forall j :: 0 <= j < |w.ownedPaths| ==>
                 Normalised(v.ownedPaths[j]) && Parts(v.ownedPaths[j]) == Parts(w.ownedPaths[j])
  {
    var w := plan.workers[i];
    forall j | 0 <= j < |w.ownedPaths|
      ensures Normalised(Validated(rules, plan).workers[i].ownedPaths[j])
      ensures Parts(Validated(rules, plan).workers[i].ownedPaths[j]) == Parts(w.ownedPaths[j])
    {
      AcceptedPaths(rules, w.ownedPaths[j]);
      NormaliseNormalises(rules, w.ownedPaths[j]);
    }
  }

  // ---------------------------------------------------------------------
  // Validating again
  // ---------------------------------------------------------------------

  lemma {:induction false} JoinIsPlain(parts: seq<string>)
    requires forall i, j :: 0 <= i < |parts| && 0 <= j < |parts[i]| ==> IsPlainChar(parts[i][j])
    ensures forall i :: 0 <= i < |Join(parts)| ==> IsPlainChar(Join(parts)[i])
  {
    if |parts| <= 1 {
    } else {
      JoinIsPlain(parts[..|parts| - 1]);
    }
  }

  lemma {:induction false} PiecesArePlain(s: string)
    requires forall i :: 0 <= i < |s| ==> IsPlainChar(s[i])
    ensures forall i, j :: 0 <= i < |Split(s)| && 0 <= j < |Split(s)[i]| ==> IsPlainChar(Split(s)[i][j])
  {
    if s == "" {
    } else {
      PiecesArePlain(s[..|s| - 1]);
    }
  }

  lemma {:induction false} SignificantArePlain(pieces: seq<string>)
    requires forall i, j :: 0 <= i < |pieces| && 0 <= j < |pieces[i]| ==> IsPlainChar(pieces[i][j])
    ensures forall i, j :: 0 <= i < |Significant(pieces)| && 0 <= j < |Significant(pieces)[i]| ==>
              IsPlainChar(Significant(pieces)[i][j])
  {
    if pieces == [] {
    } else {
      SignificantArePlain(pieces[..|pieces| - 1]);
    }
  }

  lemma {:induction false} TrimIsPrefix(s: string)
    ensures TrimSlashes(s) <= s
  {
    if s == "" || s[|s| - 1] != '/' {
    } else {
      TrimIsPrefix(s[..|s| - 1]);
    }
  }

  /** A normalised path is its own normal form. */
  lemma NormaliseTwice(rules: Rules, path: string)
    requires Normalise(rules, path).Some?
    ensures Normalise(rules, Normalise(rules, path).value) == Normalise(rules, path)
  {
    var parts := Parts(TrimSlashes(path));
    PartsAreParts(TrimSlashes(path));
    TrimIsPrefix(path);
    PiecesArePlain(TrimSlashes(path));
    SignificantArePlain(Split(TrimSlashes(path)));
    JoinIsPlain(parts);
    JoinEnds(parts);
    SplitOfJoin(parts);
    AllSignificant(parts);
  }
}
