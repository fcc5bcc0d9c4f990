/** Where a rewritten link leads, told from the inputs of the rewriter: the folder of the new source, the place
    the link leads to after the move, and the names on the way down. */
module DocRoutes {
  import opened Paths
  import opened DocLinks

  // ----- the way from a folder to a place -----

  /** The names on the way down, below the common folder. */
  function Tail(from: seq<string>, to: seq<string>): seq<string> {
    to[CommonPrefix(from, to)..]
  }

  /** The way only goes down. */
  predicate Straight(from: seq<string>, to: seq<string>) {
    CommonPrefix(from, to) == |from|
  }

  predicate SomeHolds(segs: seq<string>, c: char) {
    exists x :: x in segs && c in x
  }

  predicate Scheme(x: string) {
    "mailto:" <= x || "data:" <= x
  }

  /** A separator in a name on the way down cuts the path short before the fragment. */
  predicate Hides(from: seq<string>, to: seq<string>, fragment: string) {
    SomeHolds(Tail(from, to), '#') || ('#' !in fragment && SomeHolds(Tail(from, to), '?'))
  }

  /** The new path starts with a name that reads as an external link; `dotted` when the old path starts with "./". */
  predicate ReadsExternal(from: seq<string>, to: seq<string>, dotted: bool) {
    var tail := Tail(from, to);
    !dotted && Straight(from, to) && tail != [] && (Scheme(tail[0]) || "#" <= tail[0])
  }

  function FolderOf(source: string): seq<string> {
    Meaning(Parent(source))
  }

  /** The segments of the place that a path of the old source leads to after the move. */
  function LandsAt(moves: Moves, oldSource: string, path: string): seq<string> {
    Meaning(Moved(moves, Resolve(oldSource, path)))
  }

  // ----- characters and beginnings of a joined way -----

  lemma {:induction false} JoinHolds(segs: seq<string>, c: char)
    requires c != '/'
    ensures c in Join(segs) <==> SomeHolds(segs, c)
  {
    if segs == [] {
    } else if |segs| == 1 {
      assert segs[0] in segs;
    } else {
      JoinHolds(segs[1..], c);
      assert segs == [segs[0]] + segs[1..];
      assert forall x :: x in segs <==> x == segs[0] || x in segs[1..];
      assert c in Join(segs) <==> c in segs[0] || c in Join(segs[1..]);
    }
  }

  lemma RouteHolds(from: seq<string>, to: seq<string>, c: char)
    requires c != '/' && c != '.'
    ensures c in OrDot(Join(Route(from, to))) <==> SomeHolds(Tail(from, to), c)
  {
    var ups, tail := Ups(|from| - CommonPrefix(from, to)), Tail(from, to);
    JoinHolds(ups + tail, c);
    UpsAreUp(|ups|);
    UpsAreUp(|from| - CommonPrefix(from, to));
    assert forall x :: x in ups + tail <==> x in ups || x in tail;
  }

  /** Does the way's text start with a dot? */
  predicate DotFirst(from: seq<string>, to: seq<string>) {
    var tail := Tail(from, to);
    !Straight(from, to) || tail == [] || "." <= tail[0]
  }

  /** The text of some names is the first name, and after it nothing or a slash and the next name. */
  lemma NamesText(segs: seq<string>) returns (suffix: string)
    requires segs != [] && forall x :: x in segs ==> x != "" && '/' !in x
    ensures Join(segs) == segs[0] + suffix && segs[0] != "" && '/' !in segs[0]
    ensures suffix == "" || (|suffix| >= 2 && suffix[0] == '/' && suffix[1] != '/')
  {
    assert segs[0] in segs;
    if |segs| == 1 {
      suffix := "";
    } else {
      var rest := segs[1..];
      assert rest[0] == segs[1] && segs[1] in segs;
      suffix := "/" + Join(rest);
      JoinNonEmpty(rest);
      assert suffix[1] == segs[1][0] && segs[1][0] in segs[1];
    }
  }

  lemma StraightRoute(from: seq<string>, to: seq<string>)
    requires Straight(from, to)
    ensures Route(from, to) == Tail(from, to)
  {
    assert Ups(0) + Tail(from, to) == Tail(from, to);
  }

  lemma RouteText(from: seq<string>, to: seq<string>) returns (suffix: string)
    requires Climbing(Route(from, to)) && Straight(from, to) && Tail(from, to) != []
    ensures OrDot(Join(Route(from, to))) == Tail(from, to)[0] + suffix
    ensures suffix == "" || (|suffix| >= 2 && suffix[0] == '/' && suffix[1] != '/')
    ensures Tail(from, to)[0] != "" && '/' !in Tail(from, to)[0]
  {
    StraightRoute(from, to);
    suffix := NamesText(Tail(from, to));
  }

  lemma RouteFirst(from: seq<string>, to: seq<string>)
    requires Climbing(Route(from, to))
    ensures var text := OrDot(Join(Route(from, to)));
      text != "" && text[0] != '/' && ("." <= text <==> DotFirst(from, to))
  {
    var route, tail := Route(from, to), Tail(from, to);
    var u := |from| - CommonPrefix(from, to);
    if u > 0 {
      assert route[0] == "..";
      JoinNonEmpty(route);
    } else if tail != [] {
      var suffix := RouteText(from, to);
      var text := OrDot(Join(route));
      assert text[0] == tail[0][0] && tail[0][0] in tail[0];
    } else {
      StraightRoute(from, to);
    }
  }

  // ----- the rewritten path -----

  /** Unless the link leaves the top, the rewritten path spells the way from the new folder to the moved place. */
  lemma SpelledRoute(cwd: seq<string>, moves: Moves, oldSource: string, newSource: string, path: string)
    requires Inside(newSource) && GoodMoves(moves) && !("../" <= Resolve(oldSource, path))
    requires !AboveTop(cwd, moves, Resolve(oldSource, path))
    ensures var from, to := FolderOf(newSource), LandsAt(moves, oldSource, path);
      && RelativeTo(cwd, moves, oldSource, newSource, path) == OrDot(Join(Route(from, to)))
      && Climbing(Route(from, to)) && Names(from) && (Names(to) || to == [".."])
  {
    var before := Resolve(oldSource, path);
    GuardMeans(oldSource, path);
    ParentInside(newSource);
    SpelledWay(cwd, Moved(moves, before), Parent(newSource));
  }

  lemma UpMeans()
    ensures Meaning("..") == [".."]
  {
    SplitName("..");
    assert [".."][1..] == [];
  }

  lemma SpelledWay(cwd: seq<string>, p: string, start: string)
    requires Inside(start) && (Inside(p) || (p == ".." && cwd != []))
    ensures RelPath(cwd, p, start) == OrDot(Join(Route(Meaning(start), Meaning(p))))
    ensures Climbing(Route(Meaning(start), Meaning(p))) && (Names(Meaning(p)) || Meaning(p) == [".."])
  {
    var from, to := Meaning(start), Meaning(p);
    if Inside(p) {
      RelPathSpellsRoute(cwd, p, start);
      RouteClimbs(from, to);
    } else {
      UpMeans();
      var n := RelPathUp(cwd, start);
      RouteAboveRoot(from);
      UpsClimb(n);
    }
  }

  lemma UpsClimb(n: nat)
    ensures Climbing(Ups(n))
  {
    UpsAreUp(n);
    assert forall k :: 0 <= k < n ==> Ups(n)[k] in Ups(n);
  }

  lemma RouteAboveRoot(from: seq<string>)
    requires Names(from)
    ensures CommonPrefix(from, [".."]) == 0 && Route(from, [".."]) == Ups(|from| + 1)
  {
    if from != [] {
      assert from[0] in from;
    }
    UpsSnoc(|from|);
    assert [".."][0..] == [".."];
  }

  /** The text of the rewritten path. */
  lemma RewrittenText(cwd: seq<string>, moves: Moves, oldSource: string, newSource: string, path: string)
    requires Inside(newSource) && GoodMoves(moves) && !("../" <= Resolve(oldSource, path))
    requires !AboveTop(cwd, moves, Resolve(oldSource, path))
    ensures var from, to := FolderOf(newSource), LandsAt(moves, oldSource, path);
      RewritePath(cwd, moves, oldSource, newSource, path) == Dotted("./" <= path, from, to) + OrDot(Join(Route(from, to)))
  {
    SpelledRoute(cwd, moves, oldSource, newSource, path);
    RouteFirst(FolderOf(newSource), LandsAt(moves, oldSource, path));
  }

  /** The leading "./" is kept when there is one and the way starts with an ordinary name. */
  function Dotted(dotted: bool, from: seq<string>, to: seq<string>): string {
    if dotted && !DotFirst(from, to) then "./" else ""
  }

  lemma RewrittenHolds(cwd: seq<string>, moves: Moves, oldSource: string, newSource: string, path: string, c: char)
    requires Inside(newSource) && GoodMoves(moves) && !("../" <= Resolve(oldSource, path))
    requires !AboveTop(cwd, moves, Resolve(oldSource, path)) && c != '/' && c != '.'
    ensures c in RewritePath(cwd, moves, oldSource, newSource, path)
       <==> SomeHolds(Tail(FolderOf(newSource), LandsAt(moves, oldSource, path)), c)
  {
    var from, to := FolderOf(newSource), LandsAt(moves, oldSource, path);
    RewrittenText(cwd, moves, oldSource, newSource, path);
    RouteHolds(from, to, c);
  }

  // ----- reading as external -----

  lemma PrefixOfHead(s: string, x: string, suffix: string)
    requires suffix == "" || suffix[0] !in s
    ensures s <= x + suffix <==> s <= x
  {
    var whole := x + suffix;
    assert forall k :: 0 <= k < |x| ==> whole[k] == x[k];
    if |s| > |x| && suffix != "" {
      assert whole[|x|] == suffix[0] && s[|x|] in s;
    }
  }

  lemma NoDoubleSlash(s: string, x: string, suffix: string)
    requires '/' !in x && '/' !in s
    requires suffix == "" || (suffix[0] !in s && (suffix[0] == '/' ==> |suffix| >= 2 && suffix[1] != '/'))
    ensures !(s + "//" <= x + suffix)
  {
    var whole, start := x + suffix, s + "//";
    assert start[|s|] == '/' && start[|s| + 1] == '/';
    if |x| > |s| {
      assert whole[|s|] == x[|s|] && x[|s|] in x;
    } else if |x| == |s| {
      assert suffix != "" ==> whole[|s|] == suffix[0];
      assert |suffix| >= 2 ==> whole[|s| + 1] == suffix[1];
    } else if suffix != "" {
      assert whole[|x|] == suffix[0] && start[|x|] == s[|x|] && s[|x|] in s;
    }
  }

  /** Which texts that start with a name and go on with a slash, a fragment or nothing read as external. */
  lemma NameExternal(x: string, suffix: string)
    requires x != "" && '/' !in x
    requires suffix == "" || suffix[0] == '#' || suffix[0] == '?' || (|suffix| >= 2 && suffix[0] == '/' && suffix[1] != '/')
    ensures External(x + suffix) <==> Scheme(x) || "#" <= x
  {
    var t := x + suffix;
    assert t[0] == x[0] && x[0] in x;
    NoDoubleSlash("http:", x, suffix);
    NoDoubleSlash("https:", x, suffix);
    assert "http:" + "//" == "http://" && "https:" + "//" == "https://";
    PrefixOfHead("mailto:", x, suffix);
    PrefixOfHead("data:", x, suffix);
  }

  lemma DotNotExternal(t: string)
    requires "." <= t
    ensures !External(t)
  {
    assert t[0] == '.';
    assert "http://"[0] == 'h' && "https://"[0] == 'h' && "mailto:"[0] == 'm' && "data:"[0] == 'd';
  }

  /** Whether a rewritten target reads as external. */
  lemma RewrittenExternal(from: seq<string>, to: seq<string>, dotted: bool, fragment: string)
    requires Climbing(Route(from, to)) && IsFragment(fragment)
    ensures External(Dotted(dotted, from, to) + OrDot(Join(Route(from, to))) + fragment) <==> ReadsExternal(from, to, dotted)
  {
    var text := OrDot(Join(Route(from, to)));
    var tail := Tail(from, to);
    RouteFirst(from, to);
    if DotFirst(from, to) || dotted {
      DotNotExternal(Dotted(dotted, from, to) + text + fragment);
    } else {
      var suffix := RouteText(from, to);
      assert Dotted(dotted, from, to) + text + fragment == tail[0] + (suffix + fragment);
      assert suffix != "" ==> (suffix + fragment)[0] == suffix[0] && (suffix + fragment)[1] == suffix[1];
      NameExternal(tail[0], suffix + fragment);
    }
  }

  // ----- the rewritten target -----

  /** The move keeps what the target leads to: the link does not leave the top, no name on the way down hides a
      separator, and the way does not start with a name that reads as an external link. */
  predicate Survives(cwd: seq<string>, moves: Moves, oldSource: string, newSource: string, t: string) {
    var (path, fragment) := SplitFragment(t);
    var from, to := FolderOf(newSource), LandsAt(moves, oldSource, path);
    && !AboveTop(cwd, moves, Resolve(oldSource, path))
    && !Hides(from, to, fragment)
    && !ReadsExternal(from, to, "./" <= path)
  }

  lemma UncutExactly(cwd: seq<string>, moves: Moves, oldSource: string, newSource: string, path: string, fragment: string)
    requires Inside(newSource) && GoodMoves(moves) && !("../" <= Resolve(oldSource, path))
    requires !AboveTop(cwd, moves, Resolve(oldSource, path))
    ensures Uncut(RewritePath(cwd, moves, oldSource, newSource, path), fragment)
       <==> !Hides(FolderOf(newSource), LandsAt(moves, oldSource, path), fragment)
  {
    RewrittenHolds(cwd, moves, oldSource, newSource, path, '#');
    RewrittenHolds(cwd, moves, oldSource, newSource, path, '?');
  }

  lemma ExternalExactly(cwd: seq<string>, moves: Moves, oldSource: string, newSource: string, path: string, fragment: string)
    requires Inside(newSource) && GoodMoves(moves) && !("../" <= Resolve(oldSource, path))
    requires !AboveTop(cwd, moves, Resolve(oldSource, path)) && IsFragment(fragment)
    ensures External(RewritePath(cwd, moves, oldSource, newSource, path) + fragment)
       <==> ReadsExternal(FolderOf(newSource), LandsAt(moves, oldSource, path), "./" <= path)
  {
    SpelledRoute(cwd, moves, oldSource, newSource, path);
    RewrittenText(cwd, moves, oldSource, newSource, path);
    RewrittenExternal(FolderOf(newSource), LandsAt(moves, oldSource, path), "./" <= path, fragment);
  }

  /** The rewritten target leads to the moved image of the old target, with the same fragment, exactly when
      the target survives the move. */
  lemma RewrittenTargetDenotes(cwd: seq<string>, moves: Moves, oldSource: string, newSource: string, t: string)
    requires Inside(newSource) && GoodMoves(moves) && Rewrites(oldSource, t)
    ensures var (path, fragment) := SplitFragment(t);
      var before := Resolve(oldSource, path);
      && MeaningOf(oldSource, t) == Place(before, fragment)
      && (MeaningOf(newSource, RewriteTarget(cwd, moves, oldSource, newSource, t).value) == Place(Moved(moves, before), fragment)
          <==> Survives(cwd, moves, oldSource, newSource, t))
  {
    var (path, fragment) := SplitFragment(t);
    var path' := RewritePath(cwd, moves, oldSource, newSource, path);
    var place := Moved(moves, Resolve(oldSource, path));
    RewrittenPathDenotesMovedTarget(cwd, moves, oldSource, newSource, path);
    RewrittenNotEmpty(cwd, moves, oldSource, newSource, path);
    SplitFragmentShape(t);
    PlaceIff(newSource, path', fragment, place);
    if !AboveTop(cwd, moves, Resolve(oldSource, path)) {
      UncutExactly(cwd, moves, oldSource, newSource, path, fragment);
      ExternalExactly(cwd, moves, oldSource, newSource, path, fragment);
    }
  }
}
