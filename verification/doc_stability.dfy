/** Rewriting again: exactly which rewritten targets a second pass over the moved document leaves alone. */
module DocStability {
  import opened Paths
  import opened DocLinks
  import opened DocRoutes
  import opened DocTidy

  // ----- where the second pass cuts the target -----

  /** The separator that cuts the new path: a hash if a name on the way down has one, else a question mark. */
  function Cutter(from: seq<string>, to: seq<string>): char {
    if SomeHolds(Tail(from, to), '#') then '#' else '?'
  }

  /** The names up to the first that holds the character, and of that one what is in front of it. */
  function CutNames(segs: seq<string>, c: char): (r: seq<string>)
    requires SomeHolds(segs, c)
    ensures 0 < |r| <= |segs|
  {
    if c in segs[0] then [segs[0][..IndexOf(segs[0], c)]]
    else
      assert segs == [segs[0]] + segs[1..];
      [segs[0]] + CutNames(segs[1..], c)
  }

  /** A cut path: the common folder, how far the new folder goes beyond it, the whole names on the way down
      before the cut, and the stump of the name that the cut falls in. */
  datatype Cut = Cut(base: seq<string>, more: seq<string>, front: seq<string>, stump: string)

  function CutAt(from: seq<string>, to: seq<string>, c: char): Cut
    requires SomeHolds(Tail(from, to), c)
  {
    var i, names := CommonPrefix(from, to), CutNames(Tail(from, to), c);
    Cut(from[..i], from[i..], names[..|names| - 1], names[|names| - 1])
  }

  /** The steps of the cut path, from the new folder. */
  function CutSteps(cut: Cut): seq<string> {
    Ups(|cut.more|) + cut.front + [cut.stump]
  }

  /** Where the cut path leads: from the last whole folder, the stump may stay, climb or go down. */
  function CutPlace(cut: Cut): seq<string> {
    Fold(cut.base + cut.front, [cut.stump])
  }

  /** The cut path is the way the rewriter itself would write: it does not end in a slash, a dot only stands
      alone, two dots only follow the climb, and the stump does not name the folder just climbed out of. */
  predicate Direct(cut: Cut) {
    if cut.stump == "" then false
    else if cut.stump == "." then cut.front == [] && cut.more == []
    else if cut.stump == ".." then cut.front == []
    else !(cut.front == [] && cut.more != [] && cut.more[0] == cut.stump)
  }

  /** The second pass leaves the target alone because it reads as external or has no path any more. */
  predicate LeftAlone(from: seq<string>, to: seq<string>, dotted: bool, cut: Cut) {
    || ReadsExternal(from, to, dotted)
    || (!dotted && cut.more == [] && cut.front == [] && cut.stump == "")
  }

  /** The place is not moved; the parent of the root does not count when the script runs at the top. */
  predicate Stationary(cwd: seq<string>, moves: Moves, p: string) {
    Moved(moves, p) == p && !AboveTop(cwd, moves, p)
  }

  predicate Unmoved(cwd: seq<string>, moves: Moves, place: seq<string>) {
    Stationary(cwd, moves, OrDot(Join(place)))
  }

  /** A second pass leaves the rewritten target as it is: no name on the way down hides a separator, or the
      target is left alone, or the cut path is direct and the place it leads to is not moved itself. */
  predicate StaysPut(cwd: seq<string>, moves: Moves, oldSource: string, newSource: string, t: string) {
    var (path, fragment) := SplitFragment(t);
    var from, to := FolderOf(newSource), LandsAt(moves, oldSource, path);
    if AboveTop(cwd, moves, Resolve(oldSource, path)) then Moved(moves, ".") == "."
    else Hides(from, to, fragment) ==>
      var cut := CutAt(from, to, Cutter(from, to));
      LeftAlone(from, to, "./" <= path, cut) || (Direct(cut) && Unmoved(cwd, moves, CutPlace(cut)))
  }

  // ----- the text of the cut path -----

  lemma IndexInFirst(x: string, rest: string, c: char)
    requires c in x
    ensures c in x + rest && IndexOf(x + rest, c) == IndexOf(x, c)
    ensures (x + rest)[..IndexOf(x, c)] == x[..IndexOf(x, c)]
  {
    var k := IndexOf(x, c);
    IndexOfIsFirst(x, c);
    assert (x + rest)[k] == c && (x + rest)[..k] == x[..k];
    IndexIs(x + rest, c, k);
  }

  lemma IndexBehind(x: string, rest: string, c: char)
    requires c !in x && c in rest
    ensures c in x + rest && IndexOf(x + rest, c) == |x| + IndexOf(rest, c)
    ensures (x + rest)[..|x| + IndexOf(rest, c)] == x + rest[..IndexOf(rest, c)]
  {
    var k := IndexOf(rest, c);
    IndexOfIsFirst(rest, c);
    assert (x + rest)[|x| + k] == c && (x + rest)[..|x| + k] == x + rest[..k];
    IndexIs(x + rest, c, |x| + k);
  }

  lemma JoinCons(x: string, rest: seq<string>)
    requires rest != []
    ensures Join([x] + rest) == (x + "/") + Join(rest)
  {
    assert ([x] + rest)[1..] == rest;
  }

  /** Cutting joined names at the first `c` cuts the name it falls in and keeps the names before. */
  lemma {:induction false} CutJoin(segs: seq<string>, c: char)
    requires SomeHolds(segs, c) && c != '/'
    ensures c in Join(segs) && Join(segs)[..IndexOf(Join(segs), c)] == Join(CutNames(segs, c))
  {
    JoinHolds(segs, c);
    if c in segs[0] {
      if |segs| > 1 {
        IndexInFirst(segs[0], "/" + Join(segs[1..]), c);
        assert Join(segs) == segs[0] + ("/" + Join(segs[1..]));
      }
    } else {
      var rest := segs[1..];
      assert segs == [segs[0]] + rest;
      CutJoin(rest, c);
      JoinCons(segs[0], rest);
      JoinCons(segs[0], CutNames(rest, c));
      IndexBehind(segs[0] + "/", Join(rest), c);
    }
  }

  lemma {:induction false} CutBehind(ups: seq<string>, tail: seq<string>, c: char)
    requires SomeHolds(tail, c) && forall k :: 0 <= k < |ups| ==> c !in ups[k]
    ensures SomeHolds(ups + tail, c) && CutNames(ups + tail, c) == ups + CutNames(tail, c)
  {
    var x :| x in tail && c in x;
    assert x in ups + tail;
    if ups == [] {
      assert ups + tail == tail;
    } else {
      CutBehind(ups[1..], tail, c);
      assert (ups + tail)[1..] == ups[1..] + tail && (ups + tail)[0] == ups[0];
      assert ups == [ups[0]] + ups[1..];
    }
  }

  /** Climbing steps hold no separator, so the way is cut where its names are. */
  lemma CutOfRoute(from: seq<string>, to: seq<string>, c: char)
    requires SomeHolds(Tail(from, to), c) && c != '.'
    ensures SomeHolds(Route(from, to), c) && CutNames(Route(from, to), c) == CutSteps(CutAt(from, to, c))
  {
    var u, names := |from| - CommonPrefix(from, to), CutNames(Tail(from, to), c);
    UpsAreUp(u);
    assert forall k :: 0 <= k < u ==> Ups(u)[k] in Ups(u);
    CutBehind(Ups(u), Tail(from, to), c);
    assert Ups(u) + names == Ups(u) + names[..|names| - 1] + [names[|names| - 1]];
  }

  /** The cut falls into the names, whether a leading "./" is kept or not. */
  lemma CutPath(from: seq<string>, to: seq<string>, dotted: bool, c: char)
    requires SomeHolds(Tail(from, to), c) && c != '.' && c != '/'
    ensures var path := Dotted(dotted, from, to) + OrDot(Join(Route(from, to)));
      c in path && path[..IndexOf(path, c)] == Dotted(dotted, from, to) + Join(CutSteps(CutAt(from, to, c)))
  {
    var route := Route(from, to);
    CutOfRoute(from, to, c);
    CutJoin(route, c);
    IndexBehind(Dotted(dotted, from, to), Join(route), c);
  }

  lemma SecondSplit(path: string, fragment: string, c: char)
    requires IsFragment(fragment) && c in path
    requires c == '#' || (c == '?' && '#' !in path && '#' !in fragment)
    ensures SplitFragment(path + fragment) == (path[..IndexOf(path, c)], path[IndexOf(path, c)..] + fragment)
  {
    IndexInFirst(path, fragment, c);
    var k := IndexOf(path, c);
    assert (path + fragment)[k..] == path[k..] + fragment;
  }

  // ----- the shape of a cut -----

  ghost predicate Shaped(cut: Cut) {
    && Names(cut.base) && Names(cut.more) && Names(cut.front) && NoSlash(cut.stump)
    && (cut.front != [] && cut.more != [] ==> cut.front[0] != cut.more[0])
  }

  lemma {:induction false} CutNamesShape(segs: seq<string>, c: char)
    requires SomeHolds(segs, c)
    ensures var names := CutNames(segs, c);
      var k := |names| - 1;
      names[..k] == segs[..k] && c in segs[k] && names[k] == segs[k][..IndexOf(segs[k], c)]
  {
    if c !in segs[0] {
      assert segs == [segs[0]] + segs[1..];
      CutNamesShape(segs[1..], c);
      var inner := CutNames(segs[1..], c);
      var k := |inner|;
      assert ([segs[0]] + inner)[..k] == [segs[0]] + inner[..k - 1];
      assert segs[..k] == [segs[0]] + segs[1..][..k - 1];
    }
  }

  lemma CutShape(from: seq<string>, to: seq<string>, c: char)
    requires Names(from) && Names(to) && SomeHolds(Tail(from, to), c)
    ensures var cut := CutAt(from, to, c); Shaped(cut) && cut.base + cut.more == from
    ensures var cut := CutAt(from, to, c); cut.more == [] <==> Straight(from, to)
    ensures var cut := CutAt(from, to, c);
      Tail(from, to) != [] && (if cut.front != [] then cut.front[0] == Tail(from, to)[0] else cut.stump <= Tail(from, to)[0])
  {
    var i, tail, cut := CommonPrefix(from, to), Tail(from, to), CutAt(from, to, c);
    CutNamesShape(tail, c);
    var k := |cut.front|;
    assert cut.front == tail[..k] && tail[k] in to;
    assert forall x :: x in cut.front ==> x in tail;
    assert forall x :: x in tail ==> x in to;
    assert forall x :: x in cut.base ==> x in from;
    assert forall x :: x in cut.more ==> x in from;
  }

  // ----- where the cut path leads -----

  lemma StepsHaveNoSlash(cut: Cut)
    requires Shaped(cut)
    ensures forall x :: x in CutSteps(cut) ==> NoSlash(x)
  {
    UpsAreUp(|cut.more|);
  }

  lemma NamesTogether(a: seq<string>, b: seq<string>)
    requires Names(a) && Names(b)
    ensures Names(a + b)
  {
  }

  /** The cut path leads from the new folder to the cut place. */
  lemma CutLeads(cut: Cut)
    requires Shaped(cut)
    ensures Fold(cut.base + cut.more, CutSteps(cut)) == CutPlace(cut)
  {
    var from, ups := cut.base + cut.more, Ups(|cut.more|);
    NamesTogether(cut.base, cut.more);
    FoldAppend(from, ups + cut.front, [cut.stump]);
    FoldAppend(from, ups, cut.front);
    FoldUps(from, |cut.more|);
    assert from[..|from| - |cut.more|] == cut.base;
    FoldNames(cut.base, cut.front);
  }

  /** One more step from a folder inside the root. */
  lemma OneStep(folder: seq<string>, x: string)
    requires Names(folder) && NoSlash(x)
    ensures var place := Fold(folder, [x]);
      if x == "" || x == "." then place == folder
      else if x != ".." then place == folder + [x] && Names(place)
      else if folder == [] then place == [".."]
      else place == folder[..|folder| - 1] && Names(place)
  {
    assert [x][1..] == [];
    if folder != [] { assert folder[|folder| - 1] in folder; }
  }

  lemma CutPlaceShape(cut: Cut)
    requires Shaped(cut)
    ensures var place := CutPlace(cut); (Names(place) || place == [".."]) && Climbing(place)
  {
    NamesTogether(cut.base, cut.front);
    OneStep(cut.base + cut.front, cut.stump);
    if Names(CutPlace(cut)) { NamesClimb(CutPlace(cut)); }
  }

  lemma SpelledPlace(place: seq<string>)
    requires (Names(place) || place == [".."]) && Climbing(place)
    ensures var p := OrDot(Join(place)); !("../" <= p) && Meaning(p) == place && (Inside(p) || p == "..")
  {
    SpelledMeaning(place);
    if Names(place) { FirstName(place); }
  }

  lemma DottedFolds(from: seq<string>, steps: seq<string>, dots: string)
    requires steps != [] && (forall x :: x in steps ==> NoSlash(x)) && (dots == "" || dots == "./")
    ensures Fold(from, Split(dots + Join(steps))) == Fold(from, steps)
  {
    SplitJoin(steps);
    if dots != "" {
      SplitCons(".", Join(steps));
      assert dots + Join(steps) == "." + "/" + Join(steps);
      FoldSkipsDot(from, steps);
    } else {
      assert dots + Join(steps) == Join(steps);
    }
  }

  /** What the cut path resolves to, and that the guard lets it pass. */
  lemma CutResolves(source: string, cut: Cut, dots: string)
    requires Inside(source) && Shaped(cut) && cut.base + cut.more == FolderOf(source) && (dots == "" || dots == "./")
    ensures var place := OrDot(Join(CutPlace(cut)));
      && Resolve(source, dots + Join(CutSteps(cut))) == place
      && !("../" <= place) && Meaning(place) == CutPlace(cut) && (Inside(place) || place == "..")
  {
    var path := dots + Join(CutSteps(cut));
    ParentInside(source);
    InsideFolder(Parent(source));
    UnderMeans(Parent(source), path);
    NormalizeSpells(Under(Parent(source), path));
    StepsHaveNoSlash(cut);
    DottedFolds(FolderOf(source), CutSteps(cut), dots);
    CutLeads(cut);
    CutPlaceShape(cut);
    SpelledPlace(CutPlace(cut));
  }

  // ----- the way to the cut place -----

  lemma LastName(front: seq<string>, stump: string)
    requires Names(front) && NoSlash(stump)
    ensures Names(front + [stump]) <==> Name(stump)
    ensures front + [stump] == ["."] <==> front == [] && stump == "."
    ensures (front + [stump])[0] == if front != [] then front[0] else stump
    ensures front != [] ==> (front + [stump])[0] != ".."
  {
    assert stump in front + [stump];
    assert front != [] ==> front[0] in front;
    assert |front + [stump]| == |front| + 1;
    assert (front + [stump])[|front|] == stump;
  }

  /** The cut steps are direct exactly when they are tidy. */
  lemma DirectIsTidy(cut: Cut)
    requires Shaped(cut)
    ensures Direct(cut) <==> Tidy(cut.base + cut.more, CutSteps(cut))
  {
    var down := cut.front + [cut.stump];
    LastName(cut.front, cut.stump);
    assert CutSteps(cut) == Ups(|cut.more|) + down;
    if cut.front == [] && cut.stump == ".." {
      assert down == [".."];
      TidyClimb(cut.base, cut.more);
    } else {
      TidyBelow(cut.base, cut.more, down);
    }
  }

  /** The cut steps are the rewriter's own way to the cut place exactly when they are direct. */
  lemma DirectIff(cut: Cut)
    requires Shaped(cut)
    ensures DotIfNone(Route(cut.base + cut.more, CutPlace(cut))) == CutSteps(cut) <==> Direct(cut)
  {
    NamesTogether(cut.base, cut.more);
    CutLeads(cut);
    CutPlaceShape(cut);
    TidyExactly(cut.base + cut.more, CutSteps(cut));
    DirectIsTidy(cut);
  }

  // ----- the second pass -----

  lemma StepsNoDotSlash(cut: Cut)
    requires Shaped(cut)
    ensures !("./" <= Join(CutSteps(cut)))
  {
    var steps := CutSteps(cut);
    StepsHaveNoSlash(cut);
    SplitJoin(steps);
    DotSlashSplits(Join(steps));
    if cut.more == [] && cut.front != [] {
      assert steps[0] == cut.front[0] && cut.front[0] in cut.front;
    }
  }

  /** A direct cut path that kept its "./" still starts with an ordinary name. */
  lemma StillDotted(from: seq<string>, to: seq<string>, c: char)
    requires Names(from) && Names(to) && SomeHolds(Tail(from, to), c)
    requires !DotFirst(from, to) && CutAt(from, to, c).stump != ""
    ensures !("." <= Join(CutSteps(CutAt(from, to, c))))
  {
    var cut := CutAt(from, to, c);
    var steps, tail := CutSteps(cut), Tail(from, to);
    CutShape(from, to, c);
    assert steps[0] == if cut.front != [] then cut.front[0] else cut.stump;
    assert tail[0] in to;
    JoinNonEmpty(steps);
    assert steps[0][0] == tail[0][0];
  }

  /** Writing the way to the cut place gives the cut path again exactly when the cut is direct. */
  lemma WrittenAgain(from: seq<string>, to: seq<string>, dotted: bool, c: char)
    requires Names(from) && Names(to) && SomeHolds(Tail(from, to), c)
    ensures var cut := CutAt(from, to, c);
      var path := Dotted(dotted, from, to) + Join(CutSteps(cut));
      Climbing(Route(from, CutPlace(cut)))
      && (Dotted("./" <= path, from, CutPlace(cut)) + OrDot(Join(Route(from, CutPlace(cut)))) == path <==> Direct(cut))
  {
    var cut := CutAt(from, to, c);
    var steps, place := CutSteps(cut), CutPlace(cut);
    var dots, text := Dotted(dotted, from, to), OrDot(Join(Route(from, place)));
    CutShape(from, to, c);
    WayClimbs(from, cut);
    DirectIff(cut);
    StepsHaveNoSlash(cut);
    SameTextSameSteps(Route(from, place), steps);
    ClimbNoDotSlash(Route(from, place));
    StepsNoDotSlash(cut);
    RouteFirst(from, place);
    if dots == "./" && Direct(cut) {
      StillDotted(from, to, c);
    }
    DotsCancel(dots, Join(steps), text);
  }

  lemma DotsCancel(dots: string, x: string, y: string)
    requires (dots == "" || dots == "./") && !("./" <= x) && !("./" <= y)
    requires dots == "./" && x == y ==> !("." <= x)
    ensures (if "./" <= dots + x && !("." <= y) then "./" else "") + y == dots + x <==> x == y
  {
    if dots == "" {
      assert dots + x == x && "" + y == y;
    } else {
      assert (dots + x)[2..] == x && ("./" + y)[2..] == y;
      assert "" + y == y && "./" <= dots + x;
    }
  }

  lemma WayClimbs(from: seq<string>, cut: Cut)
    requires Shaped(cut) && Names(from)
    ensures Climbing(Route(from, CutPlace(cut)))
  {
    CutPlaceShape(cut);
    if Names(CutPlace(cut)) {
      RouteClimbs(from, CutPlace(cut));
    } else {
      RouteAboveRoot(from);
      UpsClimb(|from| + 1);
    }
  }

  /** The second pass over a cut path gives that path again exactly when the cut is direct and its place unmoved. */
  lemma SecondPass(cwd: seq<string>, moves: Moves, source: string, to: seq<string>, dotted: bool, c: char)
    requires Inside(source) && GoodMoves(moves) && Names(to) && SomeHolds(Tail(FolderOf(source), to), c)
    ensures var from := FolderOf(source);
      var cut := CutAt(from, to, c);
      var path := Dotted(dotted, from, to) + Join(CutSteps(cut));
      && !("../" <= Resolve(source, path))
      && (RewritePath(cwd, moves, source, source, path) == path <==> Direct(cut) && Unmoved(cwd, moves, CutPlace(cut)))
  {
    var from := FolderOf(source);
    var cut := CutAt(from, to, c);
    var place := OrDot(Join(CutPlace(cut)));
    var path := Dotted(dotted, from, to) + Join(CutSteps(cut));
    ParentInside(source);
    CutShape(from, to, c);
    CutResolves(source, cut, Dotted(dotted, from, to));
    RewrittenPathDenotesMovedTarget(cwd, moves, source, source, path);
    if Unmoved(cwd, moves, CutPlace(cut)) {
      RewrittenText(cwd, moves, source, source, path);
      WrittenAgain(from, to, dotted, c);
    }
  }

  // ----- rewriting twice -----

  /** When a name hides a separator, the second pass reads the cut path and the rest as its fragment. */
  lemma CutTarget(from: seq<string>, to: seq<string>, dotted: bool, fragment: string)
    requires Climbing(Route(from, to)) && IsFragment(fragment) && Hides(from, to, fragment)
    ensures var path, c := Dotted(dotted, from, to) + OrDot(Join(Route(from, to))), Cutter(from, to);
      && c in path && SplitFragment(path + fragment) == (path[..IndexOf(path, c)], path[IndexOf(path, c)..] + fragment)
      && path[..IndexOf(path, c)] == Dotted(dotted, from, to) + Join(CutSteps(CutAt(from, to, c)))
  {
    var c := Cutter(from, to);
    var text := OrDot(Join(Route(from, to)));
    CutPath(from, to, dotted, c);
    RouteHolds(from, to, '#');
    SecondSplit(Dotted(dotted, from, to) + text, fragment, c);
  }

  lemma SameHead(pre: string, pre': string, rest: string)
    ensures pre' + rest == pre + rest <==> pre' == pre
  {
    if pre' + rest == pre + rest {
      assert |pre'| == |pre|;
      assert (pre' + rest)[..|pre'|] == pre' && (pre + rest)[..|pre|] == pre;
    }
  }

  /** No path is left before the cut exactly when it falls at the very start. */
  lemma NothingLeft(from: seq<string>, to: seq<string>, dotted: bool, c: char)
    requires Names(from) && Names(to) && SomeHolds(Tail(from, to), c) && c != '.'
    ensures var cut := CutAt(from, to, c);
      Dotted(dotted, from, to) + Join(CutSteps(cut)) == ""
      <==> !dotted && cut.more == [] && cut.front == [] && cut.stump == ""
  {
    var cut := CutAt(from, to, c);
    var steps := CutSteps(cut);
    CutShape(from, to, c);
    UpsAreUp(|cut.more|);
    if cut.more != [] || cut.front != [] || cut.stump != "" {
      assert cut.front != [] ==> cut.front[0] in cut.front;
      assert steps[0] == if cut.more != [] then ".." else if cut.front != [] then cut.front[0] else cut.stump;
      JoinNonEmpty(steps);
    } else {
      assert steps == [""];
      CutNamesShape(Tail(from, to), c);
      StartsWithCut(Tail(from, to)[0], c);
    }
  }

  lemma StartsWithCut(x: string, c: char)
    requires c in x && c != '.' && x[..IndexOf(x, c)] == ""
    ensures !("." <= x)
  {
    assert x[0] == c;
  }

  /** A target is left as it is exactly when it is not rewritten or its path is written as it was. */
  lemma LeftAsItIs(cwd: seq<string>, moves: Moves, source: string, pre: string, rest: string)
    requires SplitFragment(pre + rest) == (pre, rest)
    ensures Apply(cwd, moves, source, source, pre + rest) == pre + rest
       <==> External(pre + rest) || pre == "" || "../" <= Resolve(source, pre) || RewritePath(cwd, moves, source, source, pre) == pre
  {
    SameHead(pre, RewritePath(cwd, moves, source, source, pre), rest);
  }

  /** The second pass over a rewritten target with a hidden separator. */
  lemma HiddenStays(cwd: seq<string>, moves: Moves, source: string, to: seq<string>, dotted: bool, fragment: string)
    requires Inside(source) && GoodMoves(moves) && Names(to) && IsFragment(fragment)
    requires Climbing(Route(FolderOf(source), to)) && Hides(FolderOf(source), to, fragment)
    ensures var from := FolderOf(source);
      var t := Dotted(dotted, from, to) + OrDot(Join(Route(from, to))) + fragment;
      var cut := CutAt(from, to, Cutter(from, to));
      Apply(cwd, moves, source, source, t) == t
      <==> LeftAlone(from, to, dotted, cut) || (Direct(cut) && Unmoved(cwd, moves, CutPlace(cut)))
  {
    var from, c := FolderOf(source), Cutter(FolderOf(source), to);
    var path := Dotted(dotted, from, to) + OrDot(Join(Route(from, to)));
    ParentInside(source);
    CutTarget(from, to, dotted, fragment);
    RewrittenExternal(from, to, dotted, fragment);
    NothingLeft(from, to, dotted, c);
    SecondPass(cwd, moves, source, to, dotted, c);
    var k := IndexOf(path, c);
    TwoParts(path, fragment, k);
    LeftAsItIs(cwd, moves, source, path[..k], path[k..] + fragment);
  }

  lemma TwoParts(path: string, fragment: string, k: nat)
    requires k <= |path|
    ensures path[..k] + (path[k..] + fragment) == path + fragment
  {
  }

  /** A rewritten target is left as it is by a second pass at its new place exactly when it stays put. */
  lemma RewrittenIsStable(cwd: seq<string>, moves: Moves, oldSource: string, newSource: string, t: string)
    requires Inside(newSource) && GoodMoves(moves) && Settled(moves) && Rewrites(oldSource, t)
    ensures var t' := RewriteTarget(cwd, moves, oldSource, newSource, t).value;
      Apply(cwd, moves, newSource, newSource, t') == t' <==> StaysPut(cwd, moves, oldSource, newSource, t)
  {
    var (path, fragment) := SplitFragment(t);
    SplitFragmentShape(t);
    if AboveTop(cwd, moves, Resolve(oldSource, path)) {
      TopIsStable(cwd, moves, oldSource, newSource, path, fragment);
    } else {
      var from, to := FolderOf(newSource), LandsAt(moves, oldSource, path);
      SpelledRoute(cwd, moves, oldSource, newSource, path);
      RewrittenText(cwd, moves, oldSource, newSource, path);
      if Hides(from, to, fragment) {
        HidingIsInside(from, to, fragment);
        HiddenStays(cwd, moves, newSource, to, "./" <= path, fragment);
      } else {
        UncutExactly(cwd, moves, oldSource, newSource, path, fragment);
        UncutStays(cwd, moves, oldSource, newSource, path, fragment);
      }
    }
  }

  lemma HidingIsInside(from: seq<string>, to: seq<string>, fragment: string)
    requires (Names(to) || to == [".."]) && Names(from) && Hides(from, to, fragment)
    ensures Names(to)
  {
    if to == [".."] { RouteAboveRoot(from); }
  }

  lemma UncutStays(cwd: seq<string>, moves: Moves, oldSource: string, newSource: string, path: string, fragment: string)
    requires Inside(newSource) && GoodMoves(moves) && Settled(moves) && IsFragment(fragment)
    requires !("../" <= Resolve(oldSource, path)) && !AboveTop(cwd, moves, Resolve(oldSource, path))
    requires Uncut(RewritePath(cwd, moves, oldSource, newSource, path), fragment)
    ensures var t' := RewritePath(cwd, moves, oldSource, newSource, path) + fragment; Apply(cwd, moves, newSource, newSource, t') == t'
  {
    SplitsBack(RewritePath(cwd, moves, oldSource, newSource, path), fragment);
    RewrittenPathIsStable(cwd, moves, oldSource, newSource, path);
  }

  lemma UpsHold(n: nat, c: char)
    requires c != '.' && c != '/'
    ensures c !in OrDot(Join(Ups(n)))
  {
    UpsAreUp(n);
    JoinHolds(Ups(n), c);
  }

  /** At the top of the file system the link to the root's parent becomes a link to the root. */
  lemma TopIsStable(cwd: seq<string>, moves: Moves, oldSource: string, newSource: string, path: string, fragment: string)
    requires Inside(newSource) && GoodMoves(moves) && AboveTop(cwd, moves, Resolve(oldSource, path)) && IsFragment(fragment)
    ensures var t' := RewritePath(cwd, moves, oldSource, newSource, path) + fragment;
      Apply(cwd, moves, newSource, newSource, t') == t' <==> Moved(moves, ".") == "."
  {
    var start := Parent(newSource);
    var text := RewritePath(cwd, moves, oldSource, newSource, path);
    ParentInside(newSource);
    ParentOfRoot(cwd, start);
    var n := RelPathUp(cwd, start);
    assert text == OrDot(Join(Ups(n)));
    UpsHold(n, '#');
    UpsHold(n, '?');
    SplitsBack(text, fragment);
    DotNotExternal(text + fragment);
    LeftAsItIs(cwd, moves, newSource, text, fragment);
    TopAgain(cwd, moves, newSource, text, n);
  }

  lemma TopAgain(cwd: seq<string>, moves: Moves, source: string, text: string, n: nat)
    requires Inside(source) && Inside(Parent(source)) && GoodMoves(moves) && text == OrDot(Join(Ups(n))) && n == |FolderOf(source)|
    requires Resolve(source, text) == "."
    ensures RewritePath(cwd, moves, source, source, text) == text <==> Moved(moves, ".") == "."
  {
    UpsClimb(n);
    ClimbNoDotSlash(Ups(n));
    RewrittenPathDenotesMovedTarget(cwd, moves, source, source, text);
    if Moved(moves, ".") == "." {
      RootFrom(cwd, Parent(source), n);
    }
  }

  lemma RootFrom(cwd: seq<string>, start: string, n: nat)
    requires Inside(start) && n == |Meaning(start)|
    ensures RelPath(cwd, ".", start) == OrDot(Join(Ups(n)))
  {
    SpelledMeaning([]);
    RelPathSpellsRoute(cwd, ".", start);
    RouteUp([], Meaning(start));
    assert [] + Meaning(start) == Meaning(start);
  }

  /** With equal sources and a settled move map, rewriting twice equals rewriting once exactly when the target is
      not rewritten at all or stays put. */
  lemma RewritingIsIdempotent(cwd: seq<string>, moves: Moves, source: string, t: string)
    requires Inside(source) && GoodMoves(moves) && Settled(moves)
    ensures Apply(cwd, moves, source, source, Apply(cwd, moves, source, source, t)) == Apply(cwd, moves, source, source, t)
       <==> (Rewrites(source, t) ==> StaysPut(cwd, moves, source, source, t))
  {
    if Rewrites(source, t) {
      RewrittenIsStable(cwd, moves, source, source, t);
    }
  }

  // ----- a target that does not stay put -----

  lemma AtRoot(source: string, path: string, segs: seq<string>)
    requires Name(source) && Names(segs) && Meaning(path) == segs
    ensures Resolve(source, path) == OrDot(Join(segs))
  {
    OneName(source);
    DotMeans();
    UnderMeans(".", path);
    NormalizeSpells(Under(".", path));
  }

  lemma DotMeans()
    ensures Meaning(".") == [] && Inside(".")
  {
    SpelledMeaning([]);
  }

  /** From the root the way to a place inside it is the place itself. */
  lemma RelPathAtRoot(cwd: seq<string>, p: string)
    requires Inside(p)
    ensures RelPath(cwd, p, ".") == p
  {
    DotMeans();
    RelPathSpellsRoute(cwd, p, ".");
    assert Ups(0) + Meaning(p)[0..] == Meaning(p);
  }

  lemma SlashBehind(x: string)
    requires Name(x)
    ensures Meaning(x + "/") == [x]
  {
    SplitCons(x, "");
    assert x + "/" == x + "/" + "";
    assert Split("") == [""];
    assert [x, ""][1..] == [""] && [""][1..] == [];
    assert Fold([], [x, ""]) == Fold([x], [""]);
  }

  /** A bare name of the same folder, with nothing in it that a reader takes for a separator or a scheme. */
  predicate PlainName(x: string) {
    Name(x) && '#' !in x && '?' !in x && !Scheme(x)
  }

  lemma PlainIsRead(x: string)
    requires PlainName(x)
    ensures SplitFragment(x) == (x, "") && !External(x) && !("./" <= x) && !("./" <= x + "/")
  {
    NameExternal(x, "");
    assert x + "" == x;
    assert x[0] in x && (|x| > 1 ==> x[1] in x);
    var slashed := x + "/";
    assert slashed[0] == x[0] && (|x| > 1 ==> slashed[1] == x[1]);
    assert "./"[0] == '.' && "./"[1] == '/' && "#"[0] == '#';
    assert |x| == 1 && x[0] == '.' ==> x == ".";
  }

  lemma FirstPass(cwd: seq<string>, moves: Moves, source: string, a: string, place: string)
    requires Name(source) && PlainName(a) && a in moves && moves[a] == place && Inside(place)
    ensures Apply(cwd, moves, source, source, a) == place
  {
    OneName(source);
    OneName(a);
    PlainIsRead(a);
    AtRoot(source, a, [a]);
    RelPathAtRoot(cwd, place);
    InsidePassesGuard(a);
    assert place + "" == place;
  }

  lemma SlashSplits(x: string, h: string)
    requires PlainName(x) && "#" <= h
    ensures SplitFragment(x + "/" + h) == (x + "/", h) && !External(x + "/" + h)
  {
    var t := x + "/" + h;
    assert t[|x| + 1] == '#' && t[..|x| + 1] == x + "/" && t[|x| + 1..] == h;
    IndexIs(t, '#', |x| + 1);
    NameExternal(x, "/" + h);
    assert x + ("/" + h) == t;
  }

  lemma SlashIsDropped(cwd: seq<string>, moves: Moves, source: string, x: string, h: string)
    requires Name(source) && PlainName(x) && "#" <= h && x !in moves
    ensures Apply(cwd, moves, source, source, x + "/" + h) == x + h
  {
    OneName(source);
    OneName(x);
    PlainIsRead(x);
    SlashSplits(x, h);
    SlashBehind(x);
    AtRoot(source, x + "/", [x]);
    RelPathAtRoot(cwd, x);
    InsidePassesGuard(x);
  }

  lemma OneMoveSettles(a: string, place: string)
    requires a != place && Inside(place)
    ensures GoodMoves(map[a := place]) && Settled(map[a := place])
  {
  }

  lemma HashSpelled()
    ensures "x" + "/" + "#y" == "x/#y" && "x" + "#y" == "x#y"
  {
  }

  /** A file of the root moves into a folder, to a name that starts with a hash. The first pass leads to the moved
      file; the second takes the name for a fragment and drops the slash in front of it. */
  lemma RewritingTwiceDiffers(cwd: seq<string>)
    ensures var moves: Moves := map["a" := "x/#y"];
      && GoodMoves(moves) && Settled(moves) && Inside("s")
      && Apply(cwd, moves, "s", "s", "a") == "x/#y"
      && Apply(cwd, moves, "s", "s", Apply(cwd, moves, "s", "s", "a")) == "x#y"
  {
    var moves: Moves := map["a" := "x/#y"];
    OneName("s");
    TwoNames("x", "#y");
    HashSpelled();
    OneMoveSettles("a", "x/#y");
    FirstPass(cwd, moves, "s", "a", "x/#y");
    SlashIsDropped(cwd, moves, "s", "x", "#y");
  }
}
