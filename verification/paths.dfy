/** Slash-separated relative paths as text and as segments: normalise, join, relpath. */
module Paths {

  predicate NoSlash(s: string) {
    '/' !in s
  }

  /** The pieces between slashes, never empty as a list. */
  function Split(s: string): (segs: seq<string>)
    ensures segs != []
  {
    if s == "" then [""]
    else
      var rest := Split(s[1..]);
      if s[0] == '/' then [""] + rest else [[s[0]] + rest[0]] + rest[1..]
  }

  function Join(segs: seq<string>): string {
    if segs == [] then ""
    else if |segs| == 1 then segs[0]
    else segs[0] + "/" + Join(segs[1..])
  }

  /** An ordinary name: not empty, not a dot or dot-dot, without a slash. */
  predicate Name(x: string) {
    x != "" && x != "." && x != ".." && NoSlash(x)
  }

  predicate Names(segs: seq<string>) {
    forall x :: x in segs ==> Name(x)
  }

  /** One component after another on a stack, as normpath does for a relative path. */
  function Fold(stack: seq<string>, segs: seq<string>): seq<string>
    decreases |segs|
  {
    if segs == [] then stack
    else
      var x := segs[0];
      var next :=
        if x == "" || x == "." then stack
        else if x != ".." || stack == [] || stack[|stack| - 1] == ".." then stack + [x]
        else stack[..|stack| - 1];
      Fold(next, segs[1..])
  }

  function OrDot(s: string): string {
    if s == "" then "." else s
  }

  function DropDots(segs: seq<string>): seq<string> {
    if segs == [] then []
    else
      var rest := DropDots(segs[1..]);
      if segs[0] == "" || segs[0] == "." then rest else [segs[0]] + rest
  }

  /** The text of a relative pure path: repeated slashes and dots are gone, dot-dots stay. */
  function AsPosix(p: string): string {
    OrDot(Join(DropDots(Split(p))))
  }

  function NormPath(p: string): string {
    OrDot(Join(Fold([], Split(p))))
  }

  function Normalize(p: string): string {
    NormPath(AsPosix(p))
  }

  /** What a relative path denotes, as segments below (or, with leading dot-dots, above) the root. */
  function Meaning(p: string): seq<string> {
    Fold([], Split(p))
  }

  /** The folder of a file, a dot for the root itself. */
  function Parent(p: string): string {
    var parts := DropDots(Split(p));
    if parts == [] then "." else OrDot(Join(parts[..|parts| - 1]))
  }

  /** posixpath.join for two relative paths. */
  function Under(folder: string, p: string): string {
    if folder == "" || folder[|folder| - 1] == '/' then folder + p else folder + "/" + p
  }

  function CommonPrefix(a: seq<string>, b: seq<string>): (n: nat)
    ensures n <= |a| && n <= |b| && a[..n] == b[..n]
    ensures n < |a| && n < |b| ==> a[n] != b[n]
  {
    if a == [] || b == [] || a[0] != b[0] then 0 else 1 + CommonPrefix(a[1..], b[1..])
  }

  function Ups(n: nat): seq<string> {
    if n == 0 then [] else [".."] + Ups(n - 1)
  }

  /** Components of an absolute path, given the working folder; dot-dots stop at the top. */
  function AbsFold(stack: seq<string>, segs: seq<string>): seq<string>
    decreases |segs|
  {
    if segs == [] then stack
    else
      var x := segs[0];
      var next :=
        if x == "" || x == "." then stack
        else if x != ".." then stack + [x]
        else if stack == [] then stack
        else stack[..|stack| - 1];
      AbsFold(next, segs[1..])
  }

  /** Up to where the two lists part, then down. */
  function Route(from: seq<string>, to: seq<string>): seq<string> {
    var i := CommonPrefix(from, to);
    Ups(|from| - i) + to[i..]
  }

  /** posixpath.relpath, for a process running in the folder `cwd`. */
  function RelPath(cwd: seq<string>, p: string, start: string): string {
    OrDot(Join(Route(AbsFold(cwd, Split(start)), AbsFold(cwd, Split(p)))))
  }

  // ----- text and segments -----

  lemma {:induction false} SplitPieces(s: string)
    ensures forall x :: x in Split(s) ==> NoSlash(x)
  {
    if s != "" {
      var rest := Split(s[1..]);
      SplitPieces(s[1..]);
      assert rest[0] in rest;
      forall x | x in Split(s) ensures NoSlash(x) {
        if s[0] == '/' {
          assert x == "" || x in rest;
        } else {
          assert x == [s[0]] + rest[0] || x in rest[1..];
        }
      }
    }
  }

  lemma {:induction false} SplitCons(x: string, rest: string)
    requires NoSlash(x)
    ensures Split(x + "/" + rest) == [x] + Split(rest)
  {
    var whole := x + "/" + rest;
    if x == "" {
      assert whole[1..] == rest;
    } else {
      assert whole[1..] == x[1..] + "/" + rest && whole[0] == x[0] && x[0] in x;
      SplitCons(x[1..], rest);
      assert ([x[1..]] + Split(rest))[1..] == Split(rest);
      assert [x[0]] + x[1..] == x;
    }
  }

  lemma {:induction false} SplitName(x: string)
    requires NoSlash(x)
    ensures Split(x) == [x]
  {
    if x != "" {
      assert x[0] in x;
      SplitName(x[1..]);
      assert [x[0]] + x[1..] == x;
    }
  }

  /** Splitting undoes joining. */
  lemma {:induction false} SplitJoin(segs: seq<string>)
    requires segs != [] && forall x :: x in segs ==> NoSlash(x)
    ensures Split(Join(segs)) == segs
  {
    if |segs| == 1 {
      SplitName(segs[0]);
    } else {
      SplitJoin(segs[1..]);
      SplitCons(segs[0], Join(segs[1..]));
    }
  }

  /** Joining undoes splitting. */
  lemma {:induction false} JoinSplit(s: string)
    ensures Join(Split(s)) == s
  {
    if s != "" {
      var rest := Split(s[1..]);
      JoinSplit(s[1..]);
      if s[0] == '/' {
        assert ([""] + rest)[1..] == rest;
      } else if |rest| > 1 {
        assert ([[s[0]] + rest[0]] + rest[1..])[1..] == rest[1..];
      }
    }
  }

  lemma {:induction false} SplitAppend(a: string, b: string)
    ensures Split(a + "/" + b) == Split(a) + Split(b)
  {
    var whole := a + "/" + b;
    if a == "" {
      assert whole[1..] == b;
    } else {
      assert whole[1..] == a[1..] + "/" + b;
      SplitAppend(a[1..], b);
    }
  }

  // ----- folding -----

  lemma {:induction false} FoldAppend(stack: seq<string>, a: seq<string>, b: seq<string>)
    ensures Fold(stack, a + b) == Fold(Fold(stack, a), b)
    decreases |a|
  {
    if a == [] {
      assert a + b == b;
    } else {
      assert (a + b)[1..] == a[1..] + b;
      var x := a[0];
      var next :=
        if x == "" || x == "." then stack
        else if x != ".." || stack == [] || stack[|stack| - 1] == ".." then stack + [x]
        else stack[..|stack| - 1];
      FoldAppend(next, a[1..], b);
    }
  }

  lemma {:induction false} FoldDropDots(stack: seq<string>, segs: seq<string>)
    ensures Fold(stack, DropDots(segs)) == Fold(stack, segs)
    decreases |segs|
  {
    if segs != [] {
      var x, rest := segs[0], DropDots(segs[1..]);
      if x == "" || x == "." {
        FoldDropDots(stack, segs[1..]);
      } else {
        assert ([x] + rest)[1..] == rest;
        FoldDropDots(if x != ".." || stack == [] || stack[|stack| - 1] == ".." then stack + [x] else stack[..|stack| - 1], segs[1..]);
      }
    }
  }

  /** Dot-dots first, then names: the shape of every folded stack. */
  predicate Climbing(segs: seq<string>) {
    && (forall x :: x in segs ==> x == ".." || Name(x))
    && (forall i, j :: 0 <= i < j < |segs| && segs[j] == ".." ==> segs[i] == "..")
  }

  lemma {:induction false} FoldShape(stack: seq<string>, segs: seq<string>)
    requires Climbing(stack) && forall x :: x in segs ==> NoSlash(x)
    ensures Climbing(Fold(stack, segs))
    decreases |segs|
  {
    if segs != [] {
      var x := segs[0];
      var next :=
        if x == "" || x == "." then stack
        else if x != ".." || stack == [] || stack[|stack| - 1] == ".." then stack + [x]
        else stack[..|stack| - 1];
      assert Climbing(next);
      FoldShape(next, segs[1..]);
    }
  }

  lemma {:induction false} FoldNames(stack: seq<string>, segs: seq<string>)
    requires Names(segs)
    ensures Fold(stack, segs) == stack + segs
    decreases |segs|
  {
    if segs != [] {
      assert segs[0] in segs;
      FoldNames(stack + [segs[0]], segs[1..]);
      assert stack + [segs[0]] + segs[1..] == stack + segs;
    }
  }

  lemma {:induction false} FoldUps(stack: seq<string>, n: nat)
    requires Names(stack) && n <= |stack|
    ensures Fold(stack, Ups(n)) == stack[..|stack| - n]
    decreases n
  {
    if n > 0 {
      assert stack[|stack| - 1] in stack;
      FoldUps(stack[..|stack| - 1], n - 1);
    }
  }

  lemma {:induction false} AbsFoldNames(stack: seq<string>, segs: seq<string>)
    requires Names(segs)
    ensures AbsFold(stack, segs) == stack + segs
    decreases |segs|
  {
    if segs != [] {
      assert segs[0] in segs;
      AbsFoldNames(stack + [segs[0]], segs[1..]);
      assert stack + [segs[0]] + segs[1..] == stack + segs;
    }
  }

  // ----- the text of a list of segments -----

  /** `p` is the text of `segs`; the empty list is written as a dot. */
  predicate Spells(p: string, segs: seq<string>) {
    p == OrDot(Join(segs))
  }

  lemma {:induction false} JoinNonEmpty(segs: seq<string>)
    requires segs != [] && segs[0] != ""
    ensures Join(segs) != "" && Join(segs)[0] == segs[0][0]
  {
  }

  lemma SpelledSplit(segs: seq<string>)
    requires Climbing(segs)
    ensures Split(OrDot(Join(segs))) == if segs == [] then ["."] else segs
  {
    if segs == [] {
      assert Split(".") == ["."] by { SplitName("."); }
    } else {
      assert segs[0] in segs;
      JoinNonEmpty(segs);
      SplitJoin(segs);
    }
  }

  lemma {:induction false} FoldClimbing(done: seq<string>, segs: seq<string>)
    requires Climbing(done + segs)
    ensures Fold(done, segs) == done + segs
    decreases |segs|
  {
    if segs == [] {
      assert done + segs == done;
    } else {
      assert (done + segs)[|done|] == segs[0];
      assert segs[0] in done + segs;
      if done != [] && segs[0] == ".." {
        assert (done + segs)[|done| - 1] == "..";
      }
      assert done + [segs[0]] + segs[1..] == done + segs;
      FoldClimbing(done + [segs[0]], segs[1..]);
    }
  }

  /** Text spelled from a folded stack means that stack, and is its own normal form. */
  lemma SpelledMeaning(segs: seq<string>)
    requires Climbing(segs)
    ensures Meaning(OrDot(Join(segs))) == segs
  {
    SpelledSplit(segs);
    if segs != [] {
      assert [] + segs == segs;
      FoldClimbing([], segs);
    }
  }

  lemma {:induction false} DropDotsSlashes(segs: seq<string>)
    requires forall x :: x in segs ==> NoSlash(x)
    ensures forall x :: x in DropDots(segs) ==> NoSlash(x) && x != "" && x != "."
  {
    if segs != [] {
      DropDotsSlashes(segs[1..]);
    }
  }

  /** Normalising keeps what a path denotes and writes it in the one way that spells it. */
  lemma NormalizeSpells(p: string)
    ensures Climbing(Meaning(p)) && Spells(Normalize(p), Meaning(p)) && Meaning(Normalize(p)) == Meaning(p)
  {
    var parts := DropDots(Split(p));
    SplitPieces(p);
    DropDotsSlashes(Split(p));
    FoldDropDots([], Split(p));
    if parts == [] {
      SplitName(".");
    } else {
      assert parts[0] in parts;
      JoinNonEmpty(parts);
      SplitJoin(parts);
    }
    FoldShape([], Split(p));
    assert Fold([], Split(AsPosix(p))) == Meaning(p);
    SpelledMeaning(Meaning(p));
  }

  /** Two paths normalise to the same text exactly when they denote the same place. */
  lemma NormalFormIsCanonical(p: string, q: string)
    ensures Normalize(p) == Normalize(q) <==> Meaning(p) == Meaning(q)
    ensures Normalize(Normalize(p)) == Normalize(p)
  {
    NormalizeSpells(p);
    NormalizeSpells(q);
    NormalizeSpells(Normalize(p));
  }

  /** Resolving a link below a folder folds the folder first and then the link. */
  lemma UnderMeans(folder: string, p: string)
    requires folder != "" && folder[|folder| - 1] != '/'
    ensures Meaning(Under(folder, p)) == Fold(Meaning(folder), Split(p))
  {
    SplitAppend(folder, p);
    FoldAppend([], Split(folder), Split(p));
  }

  // ----- relative paths -----

  /** A place inside the root, in the spelling the scripts use for files. */
  predicate Inside(p: string) {
    Names(Meaning(p)) && Spells(p, Meaning(p))
  }

  lemma NamesClimb(segs: seq<string>)
    requires Names(segs)
    ensures Climbing(segs)
  {
    assert ".." !in segs;
  }

  lemma AbsOfInside(cwd: seq<string>, p: string)
    requires Inside(p)
    ensures AbsFold(cwd, Split(p)) == cwd + Meaning(p)
  {
    NamesClimb(Meaning(p));
    SpelledSplit(Meaning(p));
    if Meaning(p) == [] {
      assert cwd + [] == cwd;
      assert ["."][1..] == [];
      assert AbsFold(cwd, ["."]) == AbsFold(cwd, []);
    } else {
      AbsFoldNames(cwd, Meaning(p));
    }
  }

  lemma {:induction false} CommonPrefixShift(c: seq<string>, a: seq<string>, b: seq<string>)
    ensures CommonPrefix(c + a, c + b) == |c| + CommonPrefix(a, b)
  {
    if c == [] {
      assert c + a == a && c + b == b;
    } else {
      assert (c + a)[1..] == c[1..] + a && (c + b)[1..] == c[1..] + b;
      CommonPrefixShift(c[1..], a, b);
    }
  }

  lemma {:induction false} UpsAreUp(n: nat)
    ensures |Ups(n)| == n && forall x :: x in Ups(n) ==> x == ".."
  {
    if n > 0 { UpsAreUp(n - 1); }
  }

  lemma RouteClimbs(from: seq<string>, to: seq<string>)
    requires Names(to)
    ensures Climbing(Route(from, to))
  {
    var i := CommonPrefix(from, to);
    UpsAreUp(|from| - i);
    var ups, rest := Ups(|from| - i), to[i..];
    forall x | x in rest ensures Name(x) { assert x in to; }
    assert forall k :: 0 <= k < |ups| ==> (ups + rest)[k] == ups[k] && ups[k] in ups;
    assert forall k :: |ups| <= k < |ups + rest| ==> (ups + rest)[k] == rest[k - |ups|] && rest[k - |ups|] in rest;
  }

  lemma RouteBelow(cwd: seq<string>, from: seq<string>, to: seq<string>)
    ensures Route(cwd + from, cwd + to) == Route(from, to)
  {
    CommonPrefixShift(cwd, from, to);
    var i := CommonPrefix(from, to);
    assert (cwd + to)[|cwd| + i..] == to[i..];
  }

  /** The relative path does not depend on the working folder and spells the route. */
  lemma RelPathSpellsRoute(cwd: seq<string>, p: string, start: string)
    requires Inside(p) && Inside(start)
    ensures RelPath(cwd, p, start) == OrDot(Join(Route(Meaning(start), Meaning(p))))
  {
    AbsOfInside(cwd, p);
    AbsOfInside(cwd, start);
    RouteBelow(cwd, Meaning(start), Meaning(p));
  }

  /** Walking the route from a folder arrives at the target. */
  lemma RouteArrives(from: seq<string>, to: seq<string>)
    requires Names(from) && Names(to)
    ensures Fold(from, Route(from, to)) == to
  {
    var i := CommonPrefix(from, to);
    FoldAppend(from, Ups(|from| - i), to[i..]);
    FoldUps(from, |from| - i);
    forall x | x in to[i..] ensures Name(x) { assert x in to; }
    FoldNames(from[..i], to[i..]);
    assert to[..i] + to[i..] == to;
  }

  lemma InsideFolder(p: string)
    requires Inside(p)
    ensures p != "" && p[|p| - 1] != '/'
  {
    var segs := Meaning(p);
    if segs != [] {
      assert forall x :: x in segs ==> NoSlash(x) && x != "";
      LastOfJoin(segs);
    }
  }

  lemma {:induction false} LastOfJoin(segs: seq<string>)
    requires segs != [] && forall x :: x in segs ==> NoSlash(x) && x != ""
    ensures Join(segs) != "" && Join(segs)[|Join(segs)| - 1] != '/'
  {
    if |segs| > 1 {
      assert forall x :: x in segs[1..] ==> x in segs;
      LastOfJoin(segs[1..]);
    } else {
      assert segs[0] in segs;
      assert segs[0][|segs[0]| - 1] in segs[0];
    }
  }

  /** Resolving the relative path from its start gives back exactly the target. */
  lemma RelPathRoundTrip(cwd: seq<string>, p: string, start: string)
    requires Inside(p) && Inside(start)
    ensures Normalize(Under(start, RelPath(cwd, p, start))) == p
    ensures Normalize(Under(start, "./" + RelPath(cwd, p, start))) == p
  {
    var r := RelPath(cwd, p, start);
    var route := Route(Meaning(start), Meaning(p));
    RelPathSpellsRoute(cwd, p, start);
    RouteClimbs(Meaning(start), Meaning(p));
    SpelledSplit(route);
    RouteArrives(Meaning(start), Meaning(p));
    InsideFolder(start);
    UnderMeans(start, r);
    UnderMeans(start, "./" + r);
    SplitCons(".", r);
    assert "./" + r == "." + "/" + r;
    FoldSkipsDot(Meaning(start), Split(r));
    FoldDot(Meaning(start));
    assert Fold(Meaning(start), Split(r)) == Meaning(p);
    NormalizeSpells(Under(start, r));
    NormalizeSpells(Under(start, "./" + r));
  }

  lemma FoldSkipsDot(stack: seq<string>, segs: seq<string>)
    ensures Fold(stack, ["."] + segs) == Fold(stack, segs)
  {
    assert (["."] + segs)[1..] == segs;
  }

  lemma FoldDot(stack: seq<string>)
    ensures Fold(stack, ["."]) == stack && Fold(stack, []) == stack
  {
    assert ["."][1..] == [];
  }
}
