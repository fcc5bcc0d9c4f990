/** Ways without a detour: exactly those that the rewriter writes itself. */
module DocTidy {
  import opened Paths
  import opened DocLinks
  import opened DocRoutes

  // ----- the text of a way -----

  function DotIfNone(segs: seq<string>): seq<string> {
    if segs == [] then ["."] else segs
  }

  lemma RouteApart(base: seq<string>, more: seq<string>, z: seq<string>)
    requires more == [] || z == [] || more[0] != z[0]
    ensures Route(base + more, base + z) == Ups(|more|) + z
  {
    RouteBelow(base, more, z);
    assert CommonPrefix(more, z) == 0 && z[0..] == z;
  }

  lemma SplitDotted(x: string)
    ensures Split("./" + x) == ["."] + Split(x)
  {
    SplitCons(".", x);
    assert "./" + x == "." + "/" + x;
  }

  lemma SpelledIs(route: seq<string>)
    requires Climbing(route)
    ensures Split(OrDot(Join(route))) == DotIfNone(route)
  {
    SpelledSplit(route);
  }

  lemma SameTextSameSteps(route: seq<string>, steps: seq<string>)
    requires Climbing(route) && steps != [] && forall x :: x in steps ==> NoSlash(x)
    ensures OrDot(Join(route)) == Join(steps) <==> DotIfNone(route) == steps
  {
    SpelledIs(route);
    SplitJoin(steps);
    if DotIfNone(route) == steps {
      JoinSplit(OrDot(Join(route)));
    }
  }

  /** Text of at least two segments, or of one that is not a dot, starts with "./" only if its first segment is a dot. */
  lemma DotSlashSplits(text: string)
    ensures "./" <= text ==> Split(text)[0] == "." && |Split(text)| > 1
  {
    var rest := if "./" <= text then text[2..] else "";
    SplitDotted(rest);
    assert "./" <= text ==> text == "./" + rest;
  }

  lemma ClimbNoDotSlash(route: seq<string>)
    requires Climbing(route)
    ensures !("./" <= OrDot(Join(route)))
  {
    DotSlashSplits(OrDot(Join(route)));
    SpelledIs(route);
    if route != [] { assert route[0] in route; }
  }

  // ----- tidy paths -----

  /** How many steps climb before anything else. */
  function Climbs(steps: seq<string>): (k: nat)
    ensures k <= |steps|
  {
    if steps == [] || steps[0] != ".." then 0 else 1 + Climbs(steps[1..])
  }

  /** Steps without a detour: a dot alone, or a climb followed by names that does not go back into the folder that was
      just climbed out of, or one step more than the climb to the root. */
  predicate Tidy(from: seq<string>, steps: seq<string>) {
    var k, down := Climbs(steps), steps[Climbs(steps)..];
    || steps == ["."]
    || (k == |from| + 1 && down == [])
    || (steps != [] && Names(down) && k <= |from| && (k > 0 && down != [] ==> down[0] != from[|from| - k]))
  }

  lemma {:induction false} ClimbsFirst(steps: seq<string>)
    ensures var k := Climbs(steps); steps == Ups(k) + steps[k..] && (k < |steps| ==> steps[k] != "..")
  {
    if steps == [] || steps[0] != ".." {
      assert steps == Ups(0) + steps[0..];
    } else {
      ClimbsFirst(steps[1..]);
      var k := Climbs(steps[1..]);
      assert steps == [".."] + steps[1..];
      assert [".."] + (Ups(k) + steps[1..][k..]) == ([".."] + Ups(k)) + steps[1 + k..];
    }
  }

  lemma {:induction false} ClimbsOf(n: nat, down: seq<string>)
    requires down != [] ==> down[0] != ".."
    ensures Climbs(Ups(n) + down) == n && (Ups(n) + down)[n..] == down
  {
    if n == 0 {
      assert Ups(0) + down == down;
    } else {
      ClimbsOf(n - 1, down);
      assert (Ups(n) + down)[1..] == Ups(n - 1) + down;
      UpsAreUp(n);
    }
  }

  /** Climbing out of `more` and going down is tidy exactly when it does not go back into it. */
  lemma TidyBelow(base: seq<string>, more: seq<string>, down: seq<string>)
    requires down != [] && down[0] != ".."
    ensures Tidy(base + more, Ups(|more|) + down)
       <==> (more == [] && down == ["."]) || (Names(down) && (more != [] ==> down[0] != more[0]))
  {
    var m, from := |more|, base + more;
    ClimbsOf(m, down);
    UpsAreUp(m);
    assert m > 0 ==> from[|from| - m] == more[0] && (Ups(m) + down)[0] == Ups(m)[0];
    assert m == 0 ==> Ups(m) + down == down;
  }

  lemma TidyClimb(base: seq<string>, more: seq<string>)
    ensures Tidy(base + more, Ups(|more|) + [".."])
  {
    UpsSnoc(|more|);
    ClimbsOf(|more| + 1, []);
    assert Ups(|more| + 1) + [] == Ups(|more| + 1);
  }

  /** A tidy way is the one that the rewriter writes to the place it leads to. */
  lemma TidyIsWritten(from: seq<string>, steps: seq<string>)
    requires Names(from) && Tidy(from, steps)
    ensures DotIfNone(Route(from, Fold(from, steps))) == steps
  {
    var k := Climbs(steps);
    var down := steps[k..];
    ClimbsFirst(steps);
    if steps == ["."] {
      FoldDot(from);
      RouteUp(from, []);
      assert from + [] == from;
    } else if k == |from| + 1 && down == [] {
      assert steps == Ups(|from| + 1);
      ClimbAbove(from);
      RouteAboveRoot(from);
    } else {
      var base, more := from[..|from| - k], from[|from| - k..];
      assert from == base + more;
      assert forall x :: x in base ==> x in from;
      FoldAppend(from, Ups(k), down);
      FoldUps(from, k);
      FoldNames(base, down);
      RouteApart(base, more, down);
    }
  }

  /** The way that the rewriter writes is tidy. */
  lemma WrittenIsTidy(from: seq<string>, place: seq<string>)
    requires Names(from) && (Names(place) || place == [".."])
    ensures Tidy(from, DotIfNone(Route(from, place)))
  {
    if place == [".."] {
      RouteAboveRoot(from);
      ClimbIsTidy(from);
    } else {
      WrittenBelow(from, place);
    }
  }

  lemma ClimbIsTidy(from: seq<string>)
    ensures Tidy(from, Ups(|from| + 1))
  {
    var steps := Ups(|from| + 1);
    ClimbsOf(|from| + 1, []);
    assert steps + [] == steps;
  }

  lemma WrittenBelow(from: seq<string>, place: seq<string>)
    requires Names(place)
    ensures Tidy(from, DotIfNone(Route(from, place)))
  {
    var i := CommonPrefix(from, place);
    var base, more, down := from[..i], from[i..], place[i..];
    assert Names(down) by { assert forall x :: x in down ==> x in place; }
    TidyWay(base, more, down);
    assert base + more == from && Route(from, place) == Ups(|more|) + down;
  }

  lemma TidyWay(base: seq<string>, more: seq<string>, down: seq<string>)
    requires Names(down) && (more != [] && down != [] ==> more[0] != down[0])
    ensures Tidy(base + more, DotIfNone(Ups(|more|) + down))
  {
    if down != [] {
      assert down[0] in down;
      TidyBelow(base, more, down);
    } else {
      ClimbsOf(|more|, []);
      UpsAreUp(|more|);
    }
  }

  lemma TidyExactly(from: seq<string>, steps: seq<string>)
    requires Names(from)
    requires var place := Fold(from, steps); Names(place) || place == [".."]
    ensures DotIfNone(Route(from, Fold(from, steps))) == steps <==> Tidy(from, steps)
  {
    WrittenIsTidy(from, Fold(from, steps));
    if Tidy(from, steps) { TidyIsWritten(from, steps); }
  }
}
