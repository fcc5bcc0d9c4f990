/** Which targets the rewriter leaves as they are when the document stays where it is: any target whatsoever, also one
    that no earlier pass has written. */
module DocUntouched {
  import opened Paths
  import opened DocLinks
  import opened DocRoutes
  import opened DocTidy
  import opened DocStability

  /** A leading "./" is only kept in front of an ordinary name. */
  predicate TidyPath(from: seq<string>, path: string) {
    if "./" <= path then !("." <= path[2..]) && Tidy(from, Split(path[2..])) else Tidy(from, Split(path))
  }

  lemma PathSteps(route: seq<string>, x: string)
    requires Climbing(route)
    ensures OrDot(Join(route)) == x <==> DotIfNone(route) == Split(x)
  {
    JoinSplit(x);
    SplitPieces(x);
    SameTextSameSteps(route, Split(x));
  }

  lemma PathLeads(source: string, path: string)
    requires Inside(source)
    ensures Meaning(Resolve(source, path)) == Fold(FolderOf(source), Split(path)) && Names(FolderOf(source))
  {
    ParentInside(source);
    InsideFolder(Parent(source));
    UnderMeans(Parent(source), path);
    NormalizeSpells(Under(Parent(source), path));
  }

  /** Writing the way to where a path leads gives that path again exactly when it is tidy. */
  lemma WrittenText(from: seq<string>, path: string)
    requires Names(from) && path != ""
    requires var place := Fold(from, Split(path)); (Names(place) || place == [".."]) && Climbing(Route(from, place))
    ensures var place := Fold(from, Split(path));
      Dotted("./" <= path, from, place) + OrDot(Join(Route(from, place))) == path <==> TidyPath(from, path)
  {
    var place := Fold(from, Split(path));
    var text := OrDot(Join(Route(from, place)));
    ClimbNoDotSlash(Route(from, place));
    RouteFirst(from, place);
    if "./" <= path {
      var x := path[2..];
      SplitDotted(x);
      assert path == "./" + x;
      FoldSkipsDot(from, Split(x));
      PathSteps(Route(from, place), x);
      TidyExactly(from, Split(x));
      KeepsDot(text, x);
    } else {
      PathSteps(Route(from, place), path);
      TidyExactly(from, Split(path));
      assert "" + text == text;
    }
  }

  lemma KeepsDot(text: string, x: string)
    requires !("./" <= text)
    ensures (if "." <= text then "" else "./") + text == "./" + x <==> !("." <= x) && text == x
  {
    assert "" + text == text && ("./" + x)[2..] == x && ("./" + text)[2..] == text;
    assert "./" <= "./" + x;
  }

  /** A path is rewritten to itself exactly when it is tidy and leads to a place that is not moved. */
  lemma WrittenAsItWas(cwd: seq<string>, moves: Moves, source: string, path: string)
    requires Inside(source) && GoodMoves(moves) && path != "" && !("../" <= Resolve(source, path))
    ensures RewritePath(cwd, moves, source, source, path) == path
       <==> TidyPath(FolderOf(source), path) && Stationary(cwd, moves, Resolve(source, path))
  {
    RewrittenPathDenotesMovedTarget(cwd, moves, source, source, path);
    if Stationary(cwd, moves, Resolve(source, path)) {
      PathLeads(source, path);
      SpelledRoute(cwd, moves, source, source, path);
      RewrittenText(cwd, moves, source, source, path);
      WrittenText(FolderOf(source), path);
    }
  }

  // ----- targets that are left as they are -----

  /** The target is not rewritten at all, or its path is tidy and leads to a place that is not moved. */
  predicate Untouched(cwd: seq<string>, moves: Moves, source: string, t: string) {
    var (path, _) := SplitFragment(t);
    Rewrites(source, t) ==> TidyPath(FolderOf(source), path) && Stationary(cwd, moves, Resolve(source, path))
  }

  lemma UntouchedExactly(cwd: seq<string>, moves: Moves, source: string, t: string)
    requires Inside(source) && GoodMoves(moves)
    ensures Apply(cwd, moves, source, source, t) == t <==> Untouched(cwd, moves, source, t)
  {
    var (path, fragment) := SplitFragment(t);
    SplitFragmentShape(t);
    if Rewrites(source, t) {
      WrittenAsItWas(cwd, moves, source, path);
      SameHead(path, RewritePath(cwd, moves, source, source, path), fragment);
    }
  }
}
