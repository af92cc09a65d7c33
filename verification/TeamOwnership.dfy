/**
 * What a worker owns (dashboard/experiment.py, `owns` and the last check of
 * `validate_plan`), component by component: ownership is tested on the text of
 * paths, and here shown to follow the directory tree.
 */
module TeamOwnership {
  import opened TeamPlan

  /** Components that are not empty and contain no separator. */
  ghost predicate AllPieces(parts: seq<string>) {
    forall i :: 0 <= i < |parts| ==> parts[i] != "" && '/' !in parts[i]
  }

  ghost function FoldAll(fold: Folding, parts: seq<string>): (folded: seq<string>)
    ensures |folded| == |parts| && forall i :: 0 <= i < |parts| ==> folded[i] == Fold(fold, parts[i])
  {
    seq(|parts|, i requires 0 <= i < |parts| => Fold(fold, parts[i]))
  }

  lemma {:induction false} FoldedPiece(fold: Folding, part: string)
    requires Lawful(fold) && '/' !in part
    ensures '/' !in Fold(fold, part) && (part != "" ==> Fold(fold, part) != "")
  {
    if part == "" {
    } else {
      var init, last := part[..|part| - 1], part[|part| - 1];
      assert last in part && part == init + [last];
      FoldedPiece(fold, init);
    }
  }

  lemma FoldedPieces(fold: Folding, parts: seq<string>)
    requires Lawful(fold) && AllPieces(parts)
    ensures AllPieces(FoldAll(fold, parts))
  {
    forall i | 0 <= i < |parts| ensures Fold(fold, parts[i]) != "" && '/' !in Fold(fold, parts[i]) {
      FoldedPiece(fold, parts[i]);
    }
  }

  /** Folding a path folds its components. */
  lemma {:induction false} FoldJoin(fold: Folding, parts: seq<string>)
    requires Lawful(fold)
    ensures Fold(fold, Join(parts)) == Join(FoldAll(fold, parts))
  {
    if |parts| <= 1 {
    } else {
      var init, last := parts[..|parts| - 1], parts[|parts| - 1];
      FoldJoin(fold, init);
      FoldSeparated(fold, Join(init), last);
      JoinNext(parts);
      JoinNext(FoldAll(fold, parts));
      assert FoldAll(fold, parts)[..|init|] == FoldAll(fold, init);
    }
  }

  lemma FoldSeparated(fold: Folding, a: string, b: string)
    requires Lawful(fold)
    ensures Fold(fold, a + "/" + b) == Fold(fold, a) + "/" + Fold(fold, b)
  {
    FoldConcat(fold, a + "/", b);
    FoldConcat(fold, a, "/");
    assert Fold(fold, "/") == "/" by { assert "/"[..0] == ""; }
  }

  /** Joining and splitting are inverse on components. */
  lemma {:induction false} SplitJoined(parts: seq<string>)
    requires parts != [] && AllPieces(parts)
    ensures Split(Join(parts)) == parts
  {
    var init, last := parts[..|parts| - 1], parts[|parts| - 1];
    assert parts == init + [last];
    if |parts| == 1 {
      SplitPart(last);
    } else {
      SplitJoined(init);
      SplitAfterSeparator(Join(init), last);
      JoinNext(parts);
    }
  }

  /** The pieces of a path after one more character. */
  ghost function Extended(pieces: seq<string>, c: char): seq<string>
    requires pieces != []
  {
    if c == '/' then pieces + [""] else pieces[..|pieces| - 1] + [pieces[|pieces| - 1] + [c]]
  }

  lemma ExtendedAfter(before: seq<string>, pieces: seq<string>, c: char)
    requires pieces != []
    ensures Extended(before + pieces, c) == before + Extended(pieces, c)
  {
    assert (before + pieces)[..|before + pieces| - 1] == before + pieces[..|pieces| - 1];
  }

  lemma LastOfJoined(a: string, b: string)
    requires b != ""
    ensures a + "/" + b == a + "/" + b[..|b| - 1] + [b[|b| - 1]] && b == b[..|b| - 1] + [b[|b| - 1]]
  {
  }

  lemma SplitExtends(s: string, c: char)
    ensures Split(s + [c]) == Extended(Split(s), c)
  {
    SplitSnoc(s, c);
  }

  lemma {:induction false} SplitAtSeparator(a: string, b: string, path: string)
    requires path == a + "/" + b
    ensures Split(path) == Split(a) + Split(b)
    decreases |b|
  {
    if b == "" {
      SplitAfterSeparator(a, "");
    } else {
      var init, last := b[..|b| - 1], b[|b| - 1];
      LastOfJoined(a, b);
      SplitAtSeparator(a, init, a + "/" + init);
      SplitExtends(a + "/" + init, last);
      SplitExtends(init, last);
      ExtendedAfter(Split(a), Split(init), last);
    }
  }

  lemma {:induction false} JoinConcat(a: seq<string>, b: seq<string>)
    requires a != [] && b != []
    ensures Join(a + b) == Join(a) + "/" + Join(b)
    decreases |b|
  {
    var init, last := b[..|b| - 1], b[|b| - 1];
    assert (a + b)[..|a + b| - 1] == a + init;
    if init == [] {
      assert a + init == a;
    } else {
      JoinConcat(a, init);
      assert Join(a) + "/" + Join(init) + "/" + last == Join(a) + "/" + (Join(init) + "/" + last);
    }
  }

  /** A path is the same as another, or above it, exactly when its components are a prefix. */
  lemma PrefixOfPath(ps: seq<string>, ns: seq<string>)
    requires ps != [] && ns != [] && AllPieces(ps) && AllPieces(ns)
    ensures Join(ps) == Join(ns) || Join(ps) + "/" <= Join(ns) <==> ps <= ns
  {
    SplitJoined(ps);
    SplitJoined(ns);
    if Join(ps) + "/" <= Join(ns) {
      var rest := Join(ns)[|Join(ps)| + 1..];
      assert Join(ns) == Join(ps) + "/" + rest;
      SplitAtSeparator(Join(ps), rest, Join(ns));
    }
    if ps <= ns && ps != ns {
      var rest := ns[|ps|..];
      assert ns == ps + rest;
      JoinConcat(ps, rest);
    }
  }

  /** A path and everything below it, up to case. */
  ghost predicate IsBelow(fold: Folding, parts: seq<string>, above: seq<string>) {
    FoldAll(fold, above) <= FoldAll(fold, parts)
  }

  lemma {:induction false} EndsPlainly(parts: seq<string>)
    requires parts != [] && AllPieces(parts)
    ensures Join(parts) != "" && TrimSlashes(Join(parts)) == Join(parts)
  {
    if |parts| == 1 {
      assert parts[0][|parts[0]| - 1] in parts[0];
    } else {
      var last := parts[|parts| - 1];
      assert last[|last| - 1] in last;
    }
  }

  lemma CoversIsBelow(fold: Folding, parts: seq<string>, above: seq<string>)
    requires Lawful(fold) && parts != [] && above != [] && AllPieces(parts) && AllPieces(above)
    ensures Covers(Fold(fold, Join(parts)), Fold(fold, Join(above))) <==> IsBelow(fold, parts, above)
  {
    FoldJoin(fold, parts);
    FoldJoin(fold, above);
    FoldedPieces(fold, parts);
    FoldedPieces(fold, above);
    EndsPlainly(FoldAll(fold, above));
    PrefixOfPath(FoldAll(fold, above), FoldAll(fold, parts));
  }

  ghost predicate AllPaths(lists: seq<seq<string>>) {
    forall i :: 0 <= i < |lists| ==> lists[i] != [] && AllPieces(lists[i])
  }

  ghost function JoinAll(lists: seq<seq<string>>): (paths: seq<string>)
    ensures |paths| == |lists| && forall i :: 0 <= i < |lists| ==> paths[i] == Join(lists[i])
  {
    seq(|lists|, i requires 0 <= i < |lists| => Join(lists[i]))
  }

  /**
   * A worker owns a file exactly when one of its paths, component by component
   * and up to case, is the file or a directory above it.
   */
  lemma OwnsWhatIsBelow(fold: Folding, parts: seq<string>, owned: seq<seq<string>>)
    requires Lawful(fold) && parts != [] && AllPieces(parts) && AllPaths(owned)
    ensures Owns(fold, Join(parts), JoinAll(owned)) <==>
              exists i :: 0 <= i < |owned| && IsBelow(fold, parts, owned[i])
  {
    forall i | 0 <= i < |owned|
      ensures Covers(Fold(fold, Join(parts)), Fold(fold, JoinAll(owned)[i])) <==> IsBelow(fold, parts, owned[i])
    {
      CoversIsBelow(fold, parts, owned[i]);
    }
  }

  /** Two assignments clash exactly when one of them is the other or a directory above it, up to case. */
  lemma ClashIsBelow(fold: Folding, a: seq<string>, b: seq<string>)
    requires Lawful(fold) && a != [] && b != [] && AllPieces(a) && AllPieces(b)
    ensures Clash(Fold(fold, Join(a)), Fold(fold, Join(b))) <==> IsBelow(fold, a, b) || IsBelow(fold, b, a)
  {
    CoversIsBelow(fold, a, b);
    CoversIsBelow(fold, b, a);
    FoldJoin(fold, a);
    FoldJoin(fold, b);
    FoldedPieces(fold, a);
    FoldedPieces(fold, b);
    EndsPlainly(FoldAll(fold, a));
    EndsPlainly(FoldAll(fold, b));
  }
}
