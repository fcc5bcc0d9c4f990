/** Rewriting a whole document: which links follow the move, and when a second pass changes nothing. */
module DocRewriting {
  import opened WhiteSpace
  import opened Paths
  import opened DocLinks
  import opened DocRoutes
  import opened DocStability
  import opened DocUntouched
  import opened DocText
  import opened DocPieces

  function RewriteRaw(cwd: seq<string>, moves: Moves, oldSource: string, newSource: string, raw: string): string {
    var parts := SplitRaw(raw);
    var r := RewriteTarget(cwd, moves, oldSource, newSource, parts.target);
    if r.None? then raw else parts.before + r.value + parts.after
  }

  function RewriteDocument(cwd: seq<string>, moves: Moves, oldSource: string, newSource: string, text: string): string {
    Substitute(text, raw => RewriteRaw(cwd, moves, oldSource, newSource, raw))
  }

  lemma RawIsParts(cwd: seq<string>, moves: Moves, oldSource: string, newSource: string, raw: string)
    requires raw != ""
    ensures var parts := SplitRaw(raw);
      parts.target != "" ==>
        RewriteRaw(cwd, moves, oldSource, newSource, raw) == parts.before + Apply(cwd, moves, oldSource, newSource, parts.target) + parts.after
  {
    SplitRawRoundTrip(raw);
  }

  // ----- what a rewritten target holds -----

  lemma TopTail(cwd: seq<string>, moves: Moves, oldSource: string, newSource: string, path: string)
    requires Inside(newSource) && AboveTop(cwd, moves, Resolve(oldSource, path))
    ensures Tail(FolderOf(newSource), LandsAt(moves, oldSource, path)) == [".."]
  {
    ParentInside(newSource);
    UpMeans();
    RouteAboveRoot(FolderOf(newSource));
  }

  lemma TopPath(cwd: seq<string>, moves: Moves, oldSource: string, newSource: string, path: string, n: nat)
    requires AboveTop(cwd, moves, Resolve(oldSource, path))
    requires RelPath(cwd, "..", Parent(newSource)) == OrDot(Join(Ups(n)))
    ensures RewritePath(cwd, moves, oldSource, newSource, path) == OrDot(Join(Ups(n)))
  {
    SpelledUps(n);
  }

  /** At the top of the file system the link to the parent of the root is a climb, and the way down has no name. */
  lemma TopText(cwd: seq<string>, moves: Moves, oldSource: string, newSource: string, path: string) returns (n: nat)
    requires Inside(newSource) && AboveTop(cwd, moves, Resolve(oldSource, path))
    ensures RewritePath(cwd, moves, oldSource, newSource, path) == OrDot(Join(Ups(n)))
    ensures Tail(FolderOf(newSource), LandsAt(moves, oldSource, path)) == [".."]
  {
    ParentInside(newSource);
    n := RelPathUp(cwd, Parent(newSource));
    TopPath(cwd, moves, oldSource, newSource, path, n);
    TopTail(cwd, moves, oldSource, newSource, path);
  }

  /** The characters of a rewritten target, apart from dots and slashes, are those of the names on the way down
      and of the fragment. */
  lemma TargetHolds(cwd: seq<string>, moves: Moves, oldSource: string, newSource: string, t: string, c: char)
    requires Inside(newSource) && GoodMoves(moves) && Rewrites(oldSource, t) && c != '.' && c != '/'
    ensures var (path, fragment) := SplitFragment(t);
      c in RewriteTarget(cwd, moves, oldSource, newSource, t).value
      <==> SomeHolds(Tail(FolderOf(newSource), LandsAt(moves, oldSource, path)), c) || c in fragment
  {
    var (path, fragment) := SplitFragment(t);
    if AboveTop(cwd, moves, Resolve(oldSource, path)) {
      var n := TopText(cwd, moves, oldSource, newSource, path);
      UpsHold(n, c);
    } else {
      RewrittenHolds(cwd, moves, oldSource, newSource, path, c);
    }
  }

  /** The new path starts with a name that starts with the character. */
  predicate OpensWith(from: seq<string>, to: seq<string>, dotted: bool, c: char) {
    var tail := Tail(from, to);
    !dotted && Straight(from, to) && tail != [] && [c] <= tail[0]
  }

  lemma TargetOpens(cwd: seq<string>, moves: Moves, oldSource: string, newSource: string, t: string, c: char)
    requires Inside(newSource) && GoodMoves(moves) && Rewrites(oldSource, t) && c != '.' && c != '/'
    ensures var (path, fragment) := SplitFragment(t);
      var t' := RewriteTarget(cwd, moves, oldSource, newSource, t).value;
      t' != "" && (t'[0] == c <==> OpensWith(FolderOf(newSource), LandsAt(moves, oldSource, path), "./" <= path, c))
  {
    var (path, fragment) := SplitFragment(t);
    var from, to := FolderOf(newSource), LandsAt(moves, oldSource, path);
    var path' := RewritePath(cwd, moves, oldSource, newSource, path);
    RewrittenNotEmpty(cwd, moves, oldSource, newSource, path);
    assert (path' + fragment)[0] == path'[0];
    if AboveTop(cwd, moves, Resolve(oldSource, path)) {
      var n := TopText(cwd, moves, oldSource, newSource, path);
      SpelledUps(n);
    } else {
      SpelledRoute(cwd, moves, oldSource, newSource, path);
      RewrittenText(cwd, moves, oldSource, newSource, path);
      PathOpens(from, to, "./" <= path, c);
    }
  }

  lemma PathOpens(from: seq<string>, to: seq<string>, dotted: bool, c: char)
    requires Climbing(Route(from, to)) && c != '.'
    ensures var path := Dotted(dotted, from, to) + OrDot(Join(Route(from, to)));
      path != "" && (path[0] == c <==> OpensWith(from, to, dotted, c))
  {
    var tail := Tail(from, to);
    RouteFirst(from, to);
    if !DotFirst(from, to) {
      var suffix := RouteText(from, to);
      assert (tail[0] + suffix)[0] == tail[0][0];
    }
  }

  // ----- the ends of a rewritten target -----

  predicate SpaceLast(s: string) {
    s != "" && Space(s[|s| - 1])
  }

  predicate SpaceFirst(s: string) {
    s != "" && Space(s[0])
  }

  /** The new path ends with a name, nothing follows it, and that name ends with white space. */
  predicate EndsSpaced(tail: seq<string>, fragment: string) {
    fragment == "" && tail != [] && SpaceLast(tail[|tail| - 1])
  }

  /** The new path starts with a name that starts with white space. */
  predicate StartsSpaced(from: seq<string>, to: seq<string>, dotted: bool) {
    var tail := Tail(from, to);
    !dotted && Straight(from, to) && tail != [] && SpaceFirst(tail[0])
  }

  lemma {:induction false} EndOfJoin(segs: seq<string>)
    requires segs != [] && segs[|segs| - 1] != ""
    ensures Join(segs) != "" && Join(segs)[|Join(segs)| - 1] == segs[|segs| - 1][|segs[|segs| - 1]| - 1]
  {
    if |segs| > 1 { EndOfJoin(segs[1..]); }
  }

  lemma UpsEnd(n: nat)
    ensures !SpaceLast(OrDot(Join(Ups(n))))
  {
    UpsAreUp(n);
    if n > 0 {
      assert Ups(n)[n - 1] in Ups(n);
      EndOfJoin(Ups(n));
    }
  }

  lemma RouteEnds(from: seq<string>, to: seq<string>)
    requires Climbing(Route(from, to))
    ensures OrDot(Join(Route(from, to))) != ""
    ensures SpaceLast(OrDot(Join(Route(from, to)))) <==> EndsSpaced(Tail(from, to), "")
  {
    var u, tail := |from| - CommonPrefix(from, to), Tail(from, to);
    if tail == [] {
      assert Route(from, to) == Ups(u);
      UpsEnd(u);
    } else {
      LastStep(from, to);
      NamesEnd(Ups(u), tail, tail[|tail| - 1]);
    }
  }

  lemma LastStep(from: seq<string>, to: seq<string>)
    requires Climbing(Route(from, to)) && Tail(from, to) != []
    ensures var tail := Tail(from, to); tail[|tail| - 1] != ""
  {
    var route := Route(from, to);
    assert route[|route| - 1] in route;
  }

  lemma NamesEnd(ups: seq<string>, tail: seq<string>, last: string)
    requires tail != [] && last == tail[|tail| - 1] && last != ""
    ensures SpaceLast(Join(ups + tail)) <==> SpaceLast(last)
  {
    EndOfJoin(ups + tail);
  }

  lemma EndsOfBoth(a: string, b: string)
    ensures SpaceLast(a + b) <==> if b != "" then SpaceLast(b) else SpaceLast(a)
    ensures SpaceFirst(a + b) <==> if a != "" then SpaceFirst(a) else SpaceFirst(b)
  {
    assert b != "" ==> (a + b)[|a + b| - 1] == b[|b| - 1];
    assert b == "" ==> a + b == a;
    assert a == "" ==> a + b == b;
  }

  lemma PathEnds(cwd: seq<string>, moves: Moves, oldSource: string, newSource: string, path: string)
    requires Inside(newSource) && GoodMoves(moves) && !("../" <= Resolve(oldSource, path))
    ensures SpaceLast(RewritePath(cwd, moves, oldSource, newSource, path))
       <==> EndsSpaced(Tail(FolderOf(newSource), LandsAt(moves, oldSource, path)), "")
  {
    if AboveTop(cwd, moves, Resolve(oldSource, path)) {
      PathEndsAtTop(cwd, moves, oldSource, newSource, path);
    } else {
      var from, to := FolderOf(newSource), LandsAt(moves, oldSource, path);
      SpelledRoute(cwd, moves, oldSource, newSource, path);
      RewrittenText(cwd, moves, oldSource, newSource, path);
      RouteEnds(from, to);
      EndsOfBoth(Dotted("./" <= path, from, to), OrDot(Join(Route(from, to))));
    }
  }

  lemma PathEndsAtTop(cwd: seq<string>, moves: Moves, oldSource: string, newSource: string, path: string)
    requires Inside(newSource) && AboveTop(cwd, moves, Resolve(oldSource, path))
    ensures !SpaceLast(RewritePath(cwd, moves, oldSource, newSource, path))
    ensures !EndsSpaced(Tail(FolderOf(newSource), LandsAt(moves, oldSource, path)), "")
  {
    var n := TopText(cwd, moves, oldSource, newSource, path);
    UpsEnd(n);
    assert [".."][0][1] == '.';
  }

  lemma RouteStarts(from: seq<string>, to: seq<string>, dotted: bool)
    requires Climbing(Route(from, to))
    ensures SpaceFirst(Dotted(dotted, from, to) + OrDot(Join(Route(from, to)))) <==> StartsSpaced(from, to, dotted)
  {
    var text, tail := OrDot(Join(Route(from, to))), Tail(from, to);
    RouteFirst(from, to);
    EndsOfBoth(Dotted(dotted, from, to), text);
    if !DotFirst(from, to) {
      var suffix := RouteText(from, to);
      EndsOfBoth(tail[0], suffix);
    }
  }

  lemma PathStarts(cwd: seq<string>, moves: Moves, oldSource: string, newSource: string, path: string)
    requires Inside(newSource) && GoodMoves(moves) && !("../" <= Resolve(oldSource, path))
    ensures SpaceFirst(RewritePath(cwd, moves, oldSource, newSource, path))
       <==> StartsSpaced(FolderOf(newSource), LandsAt(moves, oldSource, path), "./" <= path)
  {
    if AboveTop(cwd, moves, Resolve(oldSource, path)) {
      var n := TopText(cwd, moves, oldSource, newSource, path);
      SpelledUps(n);
    } else {
      SpelledRoute(cwd, moves, oldSource, newSource, path);
      RewrittenText(cwd, moves, oldSource, newSource, path);
      RouteStarts(FolderOf(newSource), LandsAt(moves, oldSource, path), "./" <= path);
    }
  }

  lemma TargetStarts(cwd: seq<string>, moves: Moves, oldSource: string, newSource: string, t: string)
    requires Inside(newSource) && GoodMoves(moves) && Rewrites(oldSource, t)
    ensures var (path, _) := SplitFragment(t);
      SpaceFirst(RewriteTarget(cwd, moves, oldSource, newSource, t).value)
      <==> StartsSpaced(FolderOf(newSource), LandsAt(moves, oldSource, path), "./" <= path)
  {
    var (path, fragment) := SplitFragment(t);
    RewrittenNotEmpty(cwd, moves, oldSource, newSource, path);
    PathStarts(cwd, moves, oldSource, newSource, path);
    EndsOfBoth(RewritePath(cwd, moves, oldSource, newSource, path), fragment);
  }

  lemma TargetEnds(cwd: seq<string>, moves: Moves, oldSource: string, newSource: string, t: string)
    requires Inside(newSource) && GoodMoves(moves) && Rewrites(oldSource, t)
    ensures RewriteTarget(cwd, moves, oldSource, newSource, t).value != ""
    ensures var (path, fragment) := SplitFragment(t);
      SpaceLast(RewriteTarget(cwd, moves, oldSource, newSource, t).value)
      <==> if fragment != "" then SpaceLast(fragment) else EndsSpaced(Tail(FolderOf(newSource), LandsAt(moves, oldSource, path)), "")
  {
    var (path, fragment) := SplitFragment(t);
    RewrittenNotEmpty(cwd, moves, oldSource, newSource, path);
    PathEnds(cwd, moves, oldSource, newSource, path);
    EndsOfBoth(RewritePath(cwd, moves, oldSource, newSource, path), fragment);
  }

  // ----- the wrapper -----

  ghost predicate SpaceFree(segs: seq<string>) {
    forall x :: x in segs ==> Unspaced(x)
  }

  /** The new target fits the wrapper of its link. In angle brackets no name on the way down closes them. Otherwise
      the target does not open a bracket that something behind it closes, and no name on the way down holds white
      space; or one holds a new line, and there is nothing in front of the target or behind it that it could lose. */
  ghost predicate Fits(moves: Moves, oldSource: string, newSource: string, raw: string) {
    var value := Strip(raw);
    var (path, fragment) := SplitFragment(SplitRaw(raw).target);
    var from, to, dotted := FolderOf(newSource), LandsAt(moves, oldSource, path), "./" <= path;
    var tail, behind := Tail(from, to), Behind(value);
    if Angled(value) then !SomeHolds(tail, '>')
    else
      && !(OpensWith(from, to, dotted, '<') && (SomeHolds(tail, '>') || '>' in fragment + behind))
      && (|| (SpaceFree(tail) && Unspaced(fragment))
          || (behind == "" && (SomeHolds(tail, '\n') || '\n' in fragment)
              && !StartsSpaced(from, to, dotted) && !EndsSpaced(tail, fragment)))
  }

  lemma RewrittenIsNotBlank(oldSource: string, raw: string)
    requires Rewrites(oldSource, SplitRaw(raw).target)
    ensures !Blank(raw)
  {
    SplitRawRoundTrip(raw);
  }

  lemma FragmentInTarget(t: string)
    ensures var fragment := SplitFragment(t).1;
      (forall c :: c in fragment ==> c in t) && (fragment != "" ==> SpaceLast(fragment) == SpaceLast(t))
  {
    var (path, fragment) := SplitFragment(t);
    SplitFragmentShape(t);
    EndsOfBoth(path, fragment);
    assert forall c :: c in fragment ==> c in path + fragment;
  }

  lemma AngledTarget(value: string, lead: string, trail: string)
    requires Angled(value)
    ensures '>' !in SplitValue(lead, value, trail).target
  {
    var end := IndexOf(value, '>');
    IndexOfIsFirst(value, '>');
    assert forall c :: c in value[1..end] ==> c in value[..end];
  }

  lemma BareTarget(value: string, lead: string, trail: string)
    requires SolidEnds(value) && !Angled(value)
    ensures !SpaceLast(SplitValue(lead, value, trail).target)
  {
    SolidSpec(value);
    var t := SplitValue(lead, value, trail).target;
    assert t != "" ==> t[|t| - 1] == value[|t| - 1];
  }

  /** The fragment of a link in angle brackets does not close them, and that of any other does not end with a space. */
  lemma FragmentShape(raw: string)
    requires !Blank(raw)
    ensures var fragment := SplitFragment(SplitRaw(raw).target).1;
      if Angled(Strip(raw)) then '>' !in fragment else !SpaceLast(fragment)
  {
    StripIsSolid(raw);
    FragmentInTarget(SplitRaw(raw).target);
    if Angled(Strip(raw)) {
      AngledTarget(Strip(raw), Lead(raw), Trail(raw));
    } else {
      BareTarget(Strip(raw), Lead(raw), Trail(raw));
    }
  }

  /** What the target holds, apart from dots and slashes. */
  ghost predicate HeldBy(text: string, segs: seq<string>, fragment: string) {
    forall c :: c != '.' && c != '/' ==> (c in text <==> SomeHolds(segs, c) || c in fragment)
  }

  lemma HeldSpaces(text: string, segs: seq<string>, fragment: string)
    requires HeldBy(text, segs, fragment)
    ensures Unspaced(text) <==> SpaceFree(segs) && Unspaced(fragment)
  {
    forall c | Space(c) ensures c in text <==> SomeHolds(segs, c) || c in fragment {
      assert c != '.' && c != '/';
    }
    if Unspaced(text) {
      forall x | x in segs ensures Unspaced(x) {
        forall c | c in x ensures !Space(c) { assert SomeHolds(segs, c); }
      }
    }
  }

  lemma HeldBracket(text: string, segs: seq<string>, fragment: string, opens: bool, behind: string)
    requires text != "" && HeldBy(text, segs, fragment) && (text[0] == '<' <==> opens)
    ensures Angled(text + behind) <==> opens && (SomeHolds(segs, '>') || '>' in fragment + behind)
  {
    assert (text + behind)[0] == text[0];
    assert '>' in text + behind <==> '>' in text || '>' in behind;
    assert '>' in fragment + behind <==> '>' in fragment || '>' in behind;
  }

  lemma TargetHeld(cwd: seq<string>, moves: Moves, oldSource: string, newSource: string, t: string)
    requires Inside(newSource) && GoodMoves(moves) && Rewrites(oldSource, t)
    ensures var (path, fragment) := SplitFragment(t);
      HeldBy(RewriteTarget(cwd, moves, oldSource, newSource, t).value, Tail(FolderOf(newSource), LandsAt(moves, oldSource, path)), fragment)
  {
    var (path, fragment) := SplitFragment(t);
    forall c | c != '.' && c != '/'
      ensures c in RewriteTarget(cwd, moves, oldSource, newSource, t).value
         <==> SomeHolds(Tail(FolderOf(newSource), LandsAt(moves, oldSource, path)), c) || c in fragment
    {
      TargetHolds(cwd, moves, oldSource, newSource, t, c);
    }
  }

  /** What a bare target must be like to be read back, told from the names and the fragment it is made of. */
  lemma BareFits(text: string, segs: seq<string>, fragment: string, opens: bool, starts: bool, ends: bool, behind: string)
    requires text != "" && HeldBy(text, segs, fragment) && (text[0] == '<' <==> opens)
    requires (SpaceFirst(text) <==> starts) && (SpaceLast(text) <==> ends)
    ensures !Angled(text + behind) && (Unspaced(text) || (behind == "" && SolidEnds(text) && '\n' in text))
       <==> && !(opens && (SomeHolds(segs, '>') || '>' in fragment + behind))
            && (|| (SpaceFree(segs) && Unspaced(fragment))
                || (behind == "" && (SomeHolds(segs, '\n') || '\n' in fragment) && !starts && !ends))
  {
    HeldSpaces(text, segs, fragment);
    HeldBracket(text, segs, fragment, opens, behind);
    assert '\n' in text <==> SomeHolds(segs, '\n') || '\n' in fragment;
  }

  lemma ReadsBackIfFits(cwd: seq<string>, moves: Moves, oldSource: string, newSource: string, raw: string)
    requires Inside(newSource) && GoodMoves(moves) && Rewrites(oldSource, SplitRaw(raw).target) && !Blank(raw)
    ensures ReadsBack(raw, RewriteTarget(cwd, moves, oldSource, newSource, SplitRaw(raw).target).value)
       <==> Fits(moves, oldSource, newSource, raw)
  {
    var t := SplitRaw(raw).target;
    FragmentShape(raw);
    TargetHeld(cwd, moves, oldSource, newSource, t);
    if !Angled(Strip(raw)) {
      var (path, fragment) := SplitFragment(t);
      var from, to := FolderOf(newSource), LandsAt(moves, oldSource, path);
      TargetStarts(cwd, moves, oldSource, newSource, t);
      TargetEnds(cwd, moves, oldSource, newSource, t);
      TargetOpens(cwd, moves, oldSource, newSource, t, '<');
      BareFits(RewriteTarget(cwd, moves, oldSource, newSource, t).value, Tail(from, to), fragment,
               OpensWith(from, to, "./" <= path, '<'), StartsSpaced(from, to, "./" <= path),
               EndsSpaced(Tail(from, to), fragment), Behind(Strip(raw)));
    }
  }

  /** A rewritten link is read with the old wrapper and title and the new target exactly when the new target fits. */
  lemma FitsExactly(cwd: seq<string>, moves: Moves, oldSource: string, newSource: string, raw: string)
    requires Inside(newSource) && GoodMoves(moves) && Rewrites(oldSource, SplitRaw(raw).target)
    ensures var parts := SplitRaw(raw);
      SplitRaw(RewriteRaw(cwd, moves, oldSource, newSource, raw))
        == parts.(target := RewriteTarget(cwd, moves, oldSource, newSource, parts.target).value)
      <==> Fits(moves, oldSource, newSource, raw)
  {
    var t := SplitRaw(raw).target;
    RewrittenIsNotBlank(oldSource, raw);
    TargetEnds(cwd, moves, oldSource, newSource, t);
    ReadsBackIfFits(cwd, moves, oldSource, newSource, raw);
    ReplacedTargetReadsBack(raw, RewriteTarget(cwd, moves, oldSource, newSource, t).value);
  }

  // ----- links follow the move -----

  /** The rewritten link, read at the new place, has the old wrapper and title and leads to the moved image of what
      the old one led to. */
  predicate FollowsMove(moves: Moves, oldSource: string, newSource: string, raw: string, raw': string) {
    var was, now := SplitRaw(raw), SplitRaw(raw');
    var (path, fragment) := SplitFragment(was.target);
    && now.before == was.before && now.after == was.after
    && MeaningOf(newSource, now.target) == Place(Moved(moves, Resolve(oldSource, path)), fragment)
  }

  lemma SameMiddle(a: string, x: string, y: string, b: string)
    ensures a + x + b == a + y + b <==> x == y
  {
    var s, t := a + x + b, a + y + b;
    if s == t {
      assert |x| == |y| && s[|a|..|a| + |x|] == x && t[|a|..|a| + |y|] == y;
    }
  }

  /** Between the old wrapper and title nothing but the new target can be read. */
  lemma OnlyTarget(raw: string, before: string, t: string, after: string)
    requires t != "" && raw == before + t + after
    requires SplitRaw(raw).before == before && SplitRaw(raw).after == after
    ensures SplitRaw(raw).target == t
  {
    SplitRawRoundTrip(raw);
    BlankParts(raw);
    assert |raw| == |before| + |t| + |after|;
    SameMiddle(before, SplitRaw(raw).target, t, after);
  }

  lemma BlankParts(raw: string)
    ensures Blank(raw) ==> SplitRaw(raw).before == raw
  {
    if Blank(raw) { BlankTrailing(raw); }
  }

  /** A rewritten link follows the move exactly when its new target fits the wrapper and survives the move. */
  lemma LinkFollows(cwd: seq<string>, moves: Moves, oldSource: string, newSource: string, raw: string)
    requires Inside(newSource) && GoodMoves(moves) && Rewrites(oldSource, SplitRaw(raw).target)
    ensures FollowsMove(moves, oldSource, newSource, raw, RewriteRaw(cwd, moves, oldSource, newSource, raw))
       <==> Fits(moves, oldSource, newSource, raw) && Survives(cwd, moves, oldSource, newSource, SplitRaw(raw).target)
  {
    var t := SplitRaw(raw).target;
    var t', raw' := RewriteTarget(cwd, moves, oldSource, newSource, t).value, RewriteRaw(cwd, moves, oldSource, newSource, raw);
    RewrittenTargetDenotes(cwd, moves, oldSource, newSource, t);
    FitsExactly(cwd, moves, oldSource, newSource, raw);
    TargetEnds(cwd, moves, oldSource, newSource, t);
    if SplitRaw(raw').before == SplitRaw(raw).before && SplitRaw(raw').after == SplitRaw(raw).after {
      OnlyTarget(raw', SplitRaw(raw).before, t', SplitRaw(raw).after);
    }
  }

  // ----- the document keeps its structure -----

  /** A name on the way down of the rewritten link ends the link with a closing parenthesis. */
  predicate ClosesEarly(moves: Moves, oldSource: string, newSource: string, raw: string) {
    var t := SplitRaw(raw).target;
    var (path, _) := SplitFragment(t);
    Rewrites(oldSource, t) && SomeHolds(Tail(FolderOf(newSource), LandsAt(moves, oldSource, path)), ')')
  }

  ghost predicate NoneClosesEarly(moves: Moves, oldSource: string, newSource: string, text: string) {
    forall p :: p in Pieces(text) && p.Link? ==> !ClosesEarly(moves, oldSource, newSource, p.raw)
  }

  lemma {:induction false} LinksAreSound(text: string, p: Piece)
    requires p in Pieces(text) && p.Link?
    ensures p.raw != "" && ')' !in p.raw
    decreases |text|
  {
    if LinkAhead(text) {
      var n := IndexOf(text[2..], ')');
      LinkText(text);
      if p != Link(text[2..][..n]) {
        LinksAreSound(text[n + 3..], p);
      }
    } else {
      LinksAreSound(text[1..], p);
    }
  }

  lemma PartsHold(p: Parts, c: char)
    ensures c in Whole(p) <==> c in p.before || c in p.target || c in p.after
  {
  }

  lemma RewrittenRawIsSound(cwd: seq<string>, moves: Moves, oldSource: string, newSource: string, raw: string)
    requires Inside(newSource) && GoodMoves(moves) && raw != "" && ')' !in raw
    ensures var raw' := RewriteRaw(cwd, moves, oldSource, newSource, raw);
      raw' != "" && (')' in raw' <==> ClosesEarly(moves, oldSource, newSource, raw))
  {
    var parts := SplitRaw(raw);
    var t := parts.target;
    if Rewrites(oldSource, t) {
      var (path, fragment) := SplitFragment(t);
      var t' := RewriteTarget(cwd, moves, oldSource, newSource, t).value;
      SplitRawRoundTrip(raw);
      SplitFragmentShape(t);
      PartsHold(parts, ')');
      PartsHold(parts.(target := t'), ')');
      assert ')' !in fragment by { assert forall c :: c in fragment ==> c in path + fragment; }
      TargetHolds(cwd, moves, oldSource, newSource, t, ')');
      TargetEnds(cwd, moves, oldSource, newSource, t);
    }
  }

  /** The moved document has the same characters and links in the same order, each link replaced, exactly when no
      rewritten link closes early. */
  lemma StructureKeptExactly(cwd: seq<string>, moves: Moves, oldSource: string, newSource: string, text: string)
    requires Inside(newSource) && GoodMoves(moves)
    ensures var f := raw => RewriteRaw(cwd, moves, oldSource, newSource, raw);
      Pieces(RewriteDocument(cwd, moves, oldSource, newSource, text)) == MapLinks(Pieces(text), f)
      <==> NoneClosesEarly(moves, oldSource, newSource, text)
  {
    var f := raw => RewriteRaw(cwd, moves, oldSource, newSource, raw);
    var after := Substitute(text, f);
    forall p | p in Pieces(text) && p.Link?
      ensures f(p.raw) != "" && (')' in f(p.raw) <==> ClosesEarly(moves, oldSource, newSource, p.raw))
    {
      LinksAreSound(text, p);
      RewrittenRawIsSound(cwd, moves, oldSource, newSource, p.raw);
    }
    if NoneClosesEarly(moves, oldSource, newSource, text) {
      SubstitutionKeepsStructure(text, f);
    } else if Pieces(after) == MapLinks(Pieces(text), f) {
      var p :| p in Pieces(text) && p.Link? && ClosesEarly(moves, oldSource, newSource, p.raw);
      MappedLinks(Pieces(text), f, f(p.raw));
      LinksAreSound(after, Link(f(p.raw)));
    }
  }

  /** If no rewritten link closes early, a link that is not rewritten stays as it is, and a rewritten one follows the
      move exactly when its new target fits its wrapper and survives. */
  lemma MovedDocumentKeepsItsLinks(cwd: seq<string>, moves: Moves, oldSource: string, newSource: string, text: string, i: nat)
    requires Inside(newSource) && GoodMoves(moves) && NoneClosesEarly(moves, oldSource, newSource, text) && i < |Pieces(text)|
    ensures var before, after := Pieces(text)[i], Pieces(RewriteDocument(cwd, moves, oldSource, newSource, text));
      && |after| == |Pieces(text)|
      && (before.Plain? || !Rewrites(oldSource, SplitRaw(before.raw).target) ==> after[i] == before)
      && (before.Link? ==> after[i].Link?)
      && (before.Link? && Rewrites(oldSource, SplitRaw(before.raw).target) ==>
            (FollowsMove(moves, oldSource, newSource, before.raw, after[i].raw)
             <==> Fits(moves, oldSource, newSource, before.raw)
                  && Survives(cwd, moves, oldSource, newSource, SplitRaw(before.raw).target)))
  {
    var f := raw => RewriteRaw(cwd, moves, oldSource, newSource, raw);
    StructureKeptExactly(cwd, moves, oldSource, newSource, text);
    MapLinksAt(Pieces(text), f, i);
    var p := Pieces(text)[i];
    if p.Link? && Rewrites(oldSource, SplitRaw(p.raw).target) {
      LinkFollows(cwd, moves, oldSource, newSource, p.raw);
    }
  }

  // ----- rewriting a document that stays where it is -----

  /** A link is left as it is exactly when its target is. */
  lemma RawUntouched(cwd: seq<string>, moves: Moves, source: string, raw: string)
    requires Inside(source) && GoodMoves(moves)
    ensures RewriteRaw(cwd, moves, source, source, raw) == raw <==> Untouched(cwd, moves, source, SplitRaw(raw).target)
  {
    var parts := SplitRaw(raw);
    UntouchedExactly(cwd, moves, source, parts.target);
    if Rewrites(source, parts.target) {
      SplitRawRoundTrip(raw);
      RewrittenIsNotBlank(source, raw);
      SameMiddle(parts.before, Apply(cwd, moves, source, source, parts.target), parts.target, parts.after);
    }
  }

  /** The rewriter leaves any document at all alone exactly when each of its links is untouched. */
  lemma DocumentIsUntouched(cwd: seq<string>, moves: Moves, source: string, text: string)
    requires Inside(source) && GoodMoves(moves)
    ensures RewriteDocument(cwd, moves, source, source, text) == text
       <==> forall p :: p in Pieces(text) && p.Link? ==> Untouched(cwd, moves, source, SplitRaw(p.raw).target)
  {
    var f := raw => RewriteRaw(cwd, moves, source, source, raw);
    FixedTextHasFixedLinks(text, f);
    forall p | p in Pieces(text) && p.Link?
      ensures f(p.raw) == p.raw <==> Untouched(cwd, moves, source, SplitRaw(p.raw).target)
    {
      RawUntouched(cwd, moves, source, p.raw);
    }
  }

  /** A second pass leaves the rewritten link alone: its new target fits and stays put, or what is read in its place is
      untouched. */
  ghost predicate LinkSettles(cwd: seq<string>, moves: Moves, source: string, raw: string) {
    var t := SplitRaw(raw).target;
    Rewrites(source, t) ==>
      if Fits(moves, source, source, raw) then StaysPut(cwd, moves, source, source, t)
      else Untouched(cwd, moves, source, SplitRaw(RewriteRaw(cwd, moves, source, source, raw)).target)
  }

  lemma LinkSettlesExactly(cwd: seq<string>, moves: Moves, source: string, raw: string)
    requires Inside(source) && GoodMoves(moves) && Settled(moves)
    ensures var once := RewriteRaw(cwd, moves, source, source, raw);
      RewriteRaw(cwd, moves, source, source, once) == once <==> LinkSettles(cwd, moves, source, raw)
  {
    var t, once := SplitRaw(raw).target, RewriteRaw(cwd, moves, source, source, raw);
    RawUntouched(cwd, moves, source, once);
    if Rewrites(source, t) && Fits(moves, source, source, raw) {
      FitsExactly(cwd, moves, source, source, raw);
      RewrittenIsStable(cwd, moves, source, source, t);
      UntouchedExactly(cwd, moves, source, SplitRaw(once).target);
    }
  }

  /** Running the rewriter a second time over a document that stays where it is changes nothing exactly when each link
      of the rewritten document is untouched; and, if no rewritten link closes early, exactly when each link of the
      document settles. */
  lemma DocumentIsIdempotent(cwd: seq<string>, moves: Moves, source: string, text: string)
    requires Inside(source) && GoodMoves(moves) && Settled(moves)
    ensures var once := RewriteDocument(cwd, moves, source, source, text);
      && (RewriteDocument(cwd, moves, source, source, once) == once
          <==> forall p :: p in Pieces(once) && p.Link? ==> Untouched(cwd, moves, source, SplitRaw(p.raw).target))
      && (NoneClosesEarly(moves, source, source, text) ==>
            (RewriteDocument(cwd, moves, source, source, once) == once
             <==> forall p :: p in Pieces(text) && p.Link? ==> LinkSettles(cwd, moves, source, p.raw)))
  {
    var f := raw => RewriteRaw(cwd, moves, source, source, raw);
    DocumentIsUntouched(cwd, moves, source, RewriteDocument(cwd, moves, source, source, text));
    if NoneClosesEarly(moves, source, source, text) {
      forall p | p in Pieces(text) && p.Link?
        ensures f(p.raw) != "" && ')' !in f(p.raw)
        ensures f(f(p.raw)) == f(p.raw) <==> LinkSettles(cwd, moves, source, p.raw)
      {
        LinksAreSound(text, p);
        RewrittenRawIsSound(cwd, moves, source, source, p.raw);
        LinkSettlesExactly(cwd, moves, source, p.raw);
      }
      SubstitutionIsIdempotent(text, f);
    }
  }
}
