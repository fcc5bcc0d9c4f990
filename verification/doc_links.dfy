/** Rewriting one link target for a file that moves together with the files it points to. */
module DocLinks {
  import opened Wrappers
  import opened Paths

  type Moves = map<string, string>

  function Moved(moves: Moves, p: string): string {
    if p in moves then moves[p] else p
  }

  /** Targets the rewriter leaves alone: fragments, rooted paths and URLs. */
  predicate External(t: string) {
    "#" <= t || "/" <= t || "http://" <= t || "https://" <= t || "mailto:" <= t || "data:" <= t
  }

  function IndexOf(s: string, c: char): (i: nat)
    requires c in s
    ensures i < |s| && s[i] == c
  {
    if s[0] == c then 0
    else
      assert s == [s[0]] + s[1..];
      1 + IndexOf(s[1..], c)
  }

  lemma {:induction false} IndexOfIsFirst(s: string, c: char)
    requires c in s
    ensures c !in s[..IndexOf(s, c)]
  {
    if s[0] != c {
      var rest := s[1..];
      assert s == [s[0]] + rest;
      IndexOfIsFirst(rest, c);
      assert s[..IndexOf(s, c)] == [s[0]] + rest[..IndexOf(rest, c)];
    }
  }

  /** The path and what follows it: from the first hash, or without any hash from the first question mark. */
  function SplitFragment(t: string): (string, string) {
    if '#' in t then (t[..IndexOf(t, '#')], t[IndexOf(t, '#')..])
    else if '?' in t then (t[..IndexOf(t, '?')], t[IndexOf(t, '?')..])
    else (t, "")
  }

  /** What a path in a link of `source` points to, as a normal path. */
  function Resolve(source: string, path: string): string {
    Normalize(Under(Parent(source), path))
  }

  function RelativeTo(cwd: seq<string>, moves: Moves, oldSource: string, newSource: string, path: string): string {
    RelPath(cwd, Moved(moves, Resolve(oldSource, path)), Parent(newSource))
  }

  /** The new path, with the leading dot kept if there was one and there is room for it. */
  function RewritePath(cwd: seq<string>, moves: Moves, oldSource: string, newSource: string, path: string): string {
    var rel := RelativeTo(cwd, moves, oldSource, newSource, path);
    if "./" <= path && !("." <= rel) then "./" + rel else rel
  }

  /** Which targets are rewritten at all: those with a path that stays below the root's parent. */
  predicate Rewrites(oldSource: string, t: string) {
    var (path, _) := SplitFragment(t);
    t != "" && !External(t) && path != "" && !("../" <= Resolve(oldSource, path))
  }

  /** None for a target that stays as it is. */
  function RewriteTarget(cwd: seq<string>, moves: Moves, oldSource: string, newSource: string, t: string): Option<string> {
    if !Rewrites(oldSource, t) then None
    else
      var (path, fragment) := SplitFragment(t);
      Some(RewritePath(cwd, moves, oldSource, newSource, path) + fragment)
  }

  /** What a reader of the target is led to. */
  datatype LinkMeaning = Verbatim(text: string) | Place(path: string, fragment: string)

  function MeaningOf(source: string, t: string): LinkMeaning {
    var (path, fragment) := SplitFragment(t);
    if t == "" || External(t) || path == "" then Verbatim(t) else Place(Resolve(source, path), fragment)
  }

  /** Move destinations are places inside the root. */
  ghost predicate GoodMoves(moves: Moves) {
    forall p :: p in moves ==> Inside(moves[p])
  }

  // ----- places -----

  lemma {:induction false} DropDotsNames(segs: seq<string>)
    requires Names(segs)
    ensures DropDots(segs) == segs
  {
    if segs != [] {
      assert segs[0] in segs;
      DropDotsNames(segs[1..]);
    }
  }

  /** The folder of a place inside the root is a place inside the root, without the last step; the root is its own. */
  lemma ParentInside(p: string)
    requires Inside(p)
    ensures Inside(Parent(p))
    ensures Meaning(Parent(p)) == if Meaning(p) == [] then [] else Meaning(p)[..|Meaning(p)| - 1]
  {
    var segs := Meaning(p);
    NamesClimb(segs);
    SpelledSplit(segs);
    if segs == [] {
      assert DropDots(["."]) == DropDots([]) by { assert ["."][1..] == []; }
      SpelledMeaning([]);
    } else {
      DropDotsNames(segs);
      var front := segs[..|segs| - 1];
      assert Names(front) by { forall x | x in front ensures Name(x) { assert x in segs; } }
      NamesClimb(front);
      SpelledMeaning(front);
    }
  }

  /** A resolved path that passes the guard is inside the root or is the root's own parent. */
  lemma GuardMeans(source: string, path: string)
    ensures var p := Resolve(source, path); "../" <= p <==> !Inside(p) && p != ".."
  {
    var p := Resolve(source, path);
    var segs := Meaning(Under(Parent(source), path));
    NormalizeSpells(Under(Parent(source), path));
    if segs != [] && segs[0] == ".." {
      assert !Names(segs) by { assert !Name(segs[0]); }
      if |segs| > 1 {
        assert p == ".." + "/" + Join(segs[1..]);
        assert "../" <= p;
      }
    } else {
      AllNames(segs);
      FirstName(segs);
    }
  }

  lemma AllNames(segs: seq<string>)
    requires Climbing(segs) && (segs == [] || segs[0] != "..")
    ensures Names(segs)
  {
    forall x | x in segs ensures Name(x) {
      var i :| 0 <= i < |segs| && segs[i] == x;
      assert segs[i] == ".." || Name(segs[i]);
    }
  }

  lemma SplitUp(text: string)
    requires text == ".." || "../" <= text
    ensures Split(text)[0] == ".."
  {
    if text == ".." {
      SplitName("..");
    } else {
      assert text == ".." + "/" + text[3..];
      SplitCons("..", text[3..]);
    }
  }

  /** Text spelled from names does not start with dot-dot-slash. */
  lemma FirstName(segs: seq<string>)
    requires Names(segs)
    ensures !("../" <= OrDot(Join(segs))) && OrDot(Join(segs)) != ".."
  {
    NamesClimb(segs);
    SpelledSplit(segs);
    if segs != [] {
      assert segs[0] in segs;
    }
    var text := OrDot(Join(segs));
    if text == ".." || "../" <= text {
      SplitUp(text);
    }
  }

  lemma InsidePassesGuard(p: string)
    requires Inside(p)
    ensures !("../" <= p)
  {
    FirstName(Meaning(p));
  }

  // ----- the rewritten path -----

  lemma RewrittenResolves(cwd: seq<string>, moves: Moves, oldSource: string, newSource: string, path: string)
    requires Inside(newSource) && Inside(Moved(moves, Resolve(oldSource, path)))
    ensures Resolve(newSource, RewritePath(cwd, moves, oldSource, newSource, path)) == Moved(moves, Resolve(oldSource, path))
  {
    ParentInside(newSource);
    RelPathRoundTrip(cwd, Moved(moves, Resolve(oldSource, path)), Parent(newSource));
  }

  lemma AbsUp(cwd: seq<string>)
    ensures AbsFold(cwd, Split("..")) == if cwd == [] then [] else cwd[..|cwd| - 1]
  {
    SplitName("..");
    assert [".."][1..] == [];
  }

  lemma RouteUp(base: seq<string>, more: seq<string>)
    ensures Route(base + more, base) == Ups(|more|)
  {
    assert base + [] == base;
    CommonPrefixShift(base, more, []);
    assert Ups(|more|) + base[|base|..] == Ups(|more|);
  }

  /** How far the relative path to the root's parent climbs. */
  lemma RelPathUp(cwd: seq<string>, start: string) returns (n: nat)
    requires Inside(start)
    ensures n == |Meaning(start)| + (if cwd == [] then 0 else 1)
    ensures RelPath(cwd, "..", start) == OrDot(Join(Ups(n)))
  {
    AbsUp(cwd);
    AbsOfInside(cwd, start);
    var from := Meaning(start);
    n := |from| + (if cwd == [] then 0 else 1);
    if cwd == [] {
      RouteUp([], from);
      assert [] + from == from;
    } else {
      var base, last := cwd[..|cwd| - 1], cwd[|cwd| - 1..];
      RouteUp(base, last + from);
      assert base + (last + from) == cwd + from;
    }
  }

  lemma SpelledUps(n: nat)
    ensures Split(OrDot(Join(Ups(n)))) == if n == 0 then ["."] else Ups(n)
    ensures "." <= OrDot(Join(Ups(n)))
  {
    UpsAreUp(n);
    assert forall k :: 0 <= k < n ==> Ups(n)[k] in Ups(n);
    SpelledSplit(Ups(n));
    if n > 0 {
      JoinNonEmpty(Ups(n));
    }
  }

  /** The one escape the guard lets through: a link to the parent of the root. Its rewritten form
      climbs one step above the root exactly when the script does not run at the very top. */
  lemma ParentOfRoot(cwd: seq<string>, start: string)
    requires Inside(start)
    ensures Normalize(Under(start, RelPath(cwd, "..", start))) == if cwd == [] then "." else ".."
    ensures "." <= RelPath(cwd, "..", start)
  {
    var from := Meaning(start);
    var n := RelPathUp(cwd, start);
    SpelledUps(n);
    InsideFolder(start);
    UnderMeans(start, RelPath(cwd, "..", start));
    FoldDot(from);
    if cwd == [] {
      ClimbOut(from, n);
    } else {
      ClimbAbove(from);
    }
    NormalizeSpells(Under(start, RelPath(cwd, "..", start)));
  }

  lemma ClimbOut(from: seq<string>, n: nat)
    requires Names(from) && n == |from|
    ensures Fold(from, Ups(n)) == []
  {
    FoldUps(from, n);
  }

  lemma ClimbAbove(from: seq<string>)
    requires Names(from)
    ensures Fold(from, Ups(|from| + 1)) == [".."]
  {
    UpsSnoc(|from|);
    FoldAppend(from, Ups(|from|), [".."]);
    FoldUps(from, |from|);
    assert [".."][1..] == [];
  }

  lemma {:induction false} UpsSnoc(n: nat)
    ensures Ups(n + 1) == Ups(n) + [".."]
  {
    if n > 0 {
      UpsSnoc(n - 1);
    }
  }

  /** A link to the parent of the root, from a script that runs at the top of the file system. */
  predicate AboveTop(cwd: seq<string>, moves: Moves, before: string) {
    before == ".." && before !in moves && cwd == []
  }

  /** For every old source, new place, good move map and path that is rewritten: resolving the rewritten
      path from the new parent gives exactly the moved image of what the old path resolved to, unless
      the old path leads to the parent of the root and the script runs at the top of the file system. */
  lemma RewrittenPathDenotesMovedTarget(cwd: seq<string>, moves: Moves, oldSource: string, newSource: string, path: string)
    requires Inside(newSource) && GoodMoves(moves) && !("../" <= Resolve(oldSource, path))
    ensures var before := Resolve(oldSource, path);
      Resolve(newSource, RewritePath(cwd, moves, oldSource, newSource, path)) == Moved(moves, before)
      <==> !AboveTop(cwd, moves, before)
  {
    var before := Resolve(oldSource, path);
    GuardMeans(oldSource, path);
    if Inside(Moved(moves, before)) {
      RewrittenResolves(cwd, moves, oldSource, newSource, path);
      FirstName(Meaning(Moved(moves, before)));
    } else {
      ParentInside(newSource);
      ParentOfRoot(cwd, Parent(newSource));
    }
  }

  // ----- the rewritten target -----

  /** The text of the new path does not hide a separator that would cut it short. */
  predicate Uncut(path: string, fragment: string) {
    '#' !in path && ('#' in fragment || '?' !in path)
  }

  lemma IndexIs(s: string, c: char, k: nat)
    requires k < |s| && s[k] == c && c !in s[..k]
    ensures IndexOf(s, c) == k
  {
    var i := IndexOf(s, c);
    IndexOfIsFirst(s, c);
    forall m | 0 <= m < k ensures s[m] != c { assert s[..k][m] in s[..k]; }
    forall m | 0 <= m < i ensures s[m] != c { assert s[..i][m] in s[..i]; }
  }

  /** A fragment as the splitter produces it. */
  predicate IsFragment(f: string) {
    f == "" || f[0] == '#' || (f[0] == '?' && '#' !in f)
  }

  lemma SplitFragmentShape(t: string)
    ensures var (path, fragment) := SplitFragment(t);
      t == path + fragment && IsFragment(fragment) && Uncut(path, fragment)
  {
    var (path, fragment) := SplitFragment(t);
    if '#' in t {
      IndexOfIsFirst(t, '#');
    } else if '?' in t {
      IndexOfIsFirst(t, '?');
      assert forall c :: c in fragment ==> c in t;
      assert forall c :: c in path ==> c in t;
    }
  }

  /** The parts come apart again exactly when the path hides no separator. */
  lemma SplitsBack(path: string, fragment: string)
    requires IsFragment(fragment)
    ensures SplitFragment(path + fragment) == (path, fragment) <==> Uncut(path, fragment)
  {
    var t := path + fragment;
    assert forall c :: c in t <==> c in path || c in fragment;
    SplitFragmentShape(t);
    if Uncut(path, fragment) {
      assert t[..|path|] == path && t[|path|..] == fragment;
      if fragment != "" {
        assert fragment[0] in fragment && t[|path|] == fragment[0];
        IndexIs(t, fragment[0], |path|);
      }
    }
  }

  /** A target made of a path and a fragment is read as a place with that fragment exactly when it does not
      read as an external link and the path hides no separator; the place is then the path's own. */
  lemma PlaceIff(source: string, path: string, fragment: string, place: string)
    requires path != "" && IsFragment(fragment)
    ensures MeaningOf(source, path + fragment) == Place(place, fragment)
            <==> !External(path + fragment) && Uncut(path, fragment) && place == Resolve(source, path)
  {
    SplitsBack(path, fragment);
    SplitFragmentShape(path + fragment);
    var (path2, fragment2) := SplitFragment(path + fragment);
    if fragment2 == fragment {
      assert |path2| == |path|;
      assert (path + fragment)[..|path|] == path && (path2 + fragment2)[..|path2|] == path2;
    }
  }

  lemma RewrittenNotEmpty(cwd: seq<string>, moves: Moves, oldSource: string, newSource: string, path: string)
    ensures RewritePath(cwd, moves, oldSource, newSource, path) != ""
  {
  }

  // ----- rewriting again -----

  function Apply(cwd: seq<string>, moves: Moves, oldSource: string, newSource: string, t: string): string {
    var r := RewriteTarget(cwd, moves, oldSource, newSource, t);
    if r.Some? then r.value else t
  }

  /** Moving twice is moving once. */
  ghost predicate Settled(moves: Moves) {
    forall p :: Moved(moves, Moved(moves, p)) == Moved(moves, p)
  }

  lemma RewrittenPathIsStable(cwd: seq<string>, moves: Moves, oldSource: string, newSource: string, path: string)
    requires Inside(newSource) && GoodMoves(moves) && Settled(moves)
    requires !("../" <= Resolve(oldSource, path)) && !AboveTop(cwd, moves, Resolve(oldSource, path))
    ensures var path' := RewritePath(cwd, moves, oldSource, newSource, path);
      RewritePath(cwd, moves, newSource, newSource, path') == path'
  {
    var before := Resolve(oldSource, path);
    var path' := RewritePath(cwd, moves, oldSource, newSource, path);
    RewrittenPathDenotesMovedTarget(cwd, moves, oldSource, newSource, path);
    assert Moved(moves, Moved(moves, before)) == Moved(moves, before);
    assert Resolve(newSource, path') == Moved(moves, before);
    assert RelativeTo(cwd, moves, newSource, newSource, path') == RelativeTo(cwd, moves, oldSource, newSource, path);
  }

  lemma OneName(x: string)
    requires Name(x)
    ensures Split(x) == [x] && Meaning(x) == [x] && Inside(x) && Parent(x) == "."
  {
    SplitName(x);
    FoldNames([], [x]);
    DropDotsNames([x]);
  }

  lemma TwoNames(x: string, y: string)
    requires Name(x) && Name(y)
    ensures var p := x + "/" + y; Split(p) == [x, y] && Meaning(p) == [x, y] && Inside(p) && Parent(p) == x
  {
    SplitCons(x, y);
    SplitName(y);
    FoldNames([], [x, y]);
    DropDotsNames([x, y]);
    assert [x, y][..1] == [x];
  }

  /** The rewriter does not escape names. A file that moves out of a folder `x` links back to its old
      neighbour `z` by the folder's bare name, so a hash in that name cuts the new target short. */
  lemma HashInFolderName(cwd: seq<string>, x: string, y: string, z: string)
    requires Name(x) && Name(y) && Name(z) && '#' in x && '#' !in z && '?' !in z && !External(z)
    ensures RewriteTarget(cwd, map[], x + "/" + y, y, z) == Some(x + "/" + z)
    ensures MeaningOf(x + "/" + y, z) == Place(x + "/" + z, "")
    ensures MeaningOf(y, x + "/" + z) != Place(x + "/" + z, "")
  {
    OneName(y);
    NeighbourResolves(x, y, z);
    NeighbourRewritten(cwd, x, y, z);
    var t := x + "/" + z;
    assert t[|x|] == '/';
    assert '#' in t && t[IndexOf(t, '#')..] != "";
    assert t + "" == t;
  }

  lemma NeighbourRewritten(cwd: seq<string>, x: string, y: string, z: string)
    requires Name(x) && Name(y) && Name(z)
    ensures RewritePath(cwd, map[], x + "/" + y, y, z) == x + "/" + z
    ensures !("../" <= Resolve(x + "/" + y, z))
  {
    OneName(y);
    TwoNames(x, z);
    NeighbourResolves(x, y, z);
    RelPathFromRoot(cwd, x, z);
    InsidePassesGuard(x + "/" + z);
    assert |z| >= 2 ==> z[1] in z;
  }

  lemma NeighbourResolves(x: string, y: string, z: string)
    requires Name(x) && Name(y) && Name(z)
    ensures Resolve(x + "/" + y, z) == x + "/" + z
  {
    TwoNames(x, y);
    TwoNames(x, z);
    assert x[|x| - 1] in x;
    NormalizeSpells(x + "/" + z);
  }

  lemma RelPathFromRoot(cwd: seq<string>, x: string, z: string)
    requires Name(x) && Name(z)
    ensures RelPath(cwd, x + "/" + z, ".") == x + "/" + z
  {
    TwoNames(x, z);
    SplitName(".");
    assert Meaning(".") == [] by { assert ["."][1..] == []; }
    RelPathSpellsRoute(cwd, x + "/" + z, ".");
    assert Ups(0) + [x, z][0..] == [x, z];
  }
}
