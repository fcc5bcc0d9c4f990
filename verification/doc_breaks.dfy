/** Names that break a link: a file of the root moves to a name that the rewritten link cannot hold. */
module DocBreaks {
  import opened Paths
  import opened DocLinks
  import opened DocStability
  import opened DocText
  import opened DocPieces
  import opened DocRewriting

  /** A bare name that makes a link on its own. */
  predicate Linked(a: string) {
    PlainName(a) && Unspaced(a) && a[0] != '<' && ')' !in a
  }

  lemma WordAndTitle(x: string, title: string)
    requires x != "" && Unspaced(x) && Title(title) && !Angled(x + title)
    ensures SplitRaw(x + title) == Parts("", x, title)
  {
    FirstWord("", x, title, "");
    assert "" + x + (title + "") == x + title && title + "" == title && (x + title)[..|x|] == x;
  }

  lemma NothingBefore(x: string, y: string)
    ensures "" + x + y == x + y
  {
  }

  lemma NotAngled(x: string, title: string)
    requires x != "" && x[0] != '<'
    ensures !Angled(x + title)
  {
    assert (x + title)[0] == x[0];
  }

  /** A link to a neighbour that moves gets the path of its new place, and keeps its title. */
  lemma NeighbourMoves(cwd: seq<string>, source: string, a: string, title: string, place: string)
    requires Name(source) && Linked(a) && Title(title) && Inside(place) && place != a
    ensures RewriteRaw(cwd, map[a := place], source, source, a + title) == place + title
  {
    OneName(source);
    OneMoveSettles(a, place);
    FirstPass(cwd, map[a := place], source, a, place);
    NotAngled(a, title);
    WordAndTitle(a, title);
    RawIsParts(cwd, map[a := place], source, source, a + title);
    NothingBefore(place, title);
  }

  lemma WordIsTitle(y: string)
    requires y != "" && Unspaced(y)
    ensures Title(" " + y)
  {
    assert (" " + y)[|y|] == y[|y| - 1] && y[|y| - 1] in y;
  }

  /** A space in the new name ends the target; the rest is read as a title. */
  lemma SpaceCutsLink(cwd: seq<string>, source: string, a: string, x: string, y: string)
    requires Name(source) && Linked(a) && Inside(x + (" " + y)) && x + (" " + y) != a
    requires x != "" && Unspaced(x) && x[0] != '<' && y != "" && Unspaced(y)
    ensures RewriteRaw(cwd, map[a := x + (" " + y)], source, source, a) == x + (" " + y)
    ensures SplitRaw(x + (" " + y)) == Parts("", x, " " + y)
  {
    var title := " " + y;
    NeighbourMoves(cwd, source, a, "", x + title);
    assert a + "" == a && x + title + "" == x + title;
    WordIsTitle(y);
    NotAngled(x, title);
    WordAndTitle(x, title);
  }

  lemma LoneLink(a: string, f: string -> string)
    requires a != "" && ')' !in a
    ensures Substitute("](" + a + ")", f) == "](" + f(a) + ")"
  {
    LinkSubstituted(a, "", f);
    assert "](" + a + ")" + "" == "](" + a + ")" && ("](" + f(a) + ")") + "" == "](" + f(a) + ")";
  }

  /** A document that is one link. */
  lemma LoneLinkRewritten(cwd: seq<string>, moves: Moves, source: string, a: string)
    requires a != "" && ')' !in a
    ensures RewriteDocument(cwd, moves, source, source, "](" + a + ")") == "](" + RewriteRaw(cwd, moves, source, source, a) + ")"
  {
    LoneLink(a, raw => RewriteRaw(cwd, moves, source, source, raw));
  }

  lemma ClosedInside(x: string, y: string)
    requires x != "" && ')' !in x
    ensures Pieces("](" + (x + ")" + y) + ")") == [Link(x)] + Pieces(y + ")")
  {
    PiecesOfLink(x, y + ")");
    assert "](" + (x + ")" + y) + ")" == "](" + x + ")" + (y + ")");
  }

  /** A closing parenthesis in the new name ends the link, and what follows it is left over as text. */
  lemma ParenthesisEndsLink(cwd: seq<string>, source: string, a: string, x: string, y: string)
    requires Name(source) && Linked(a) && Inside(x + ")" + y) && x + ")" + y != a && x != "" && ')' !in x
    ensures RewriteDocument(cwd, map[a := x + ")" + y], source, source, "](" + a + ")") == "](" + (x + ")" + y) + ")"
    ensures Pieces("](" + (x + ")" + y) + ")") == [Link(x)] + Pieces(y + ")")
  {
    var place := x + ")" + y;
    NeighbourMoves(cwd, source, a, "", place);
    assert a + "" == a && place + "" == place;
    LoneLinkRewritten(cwd, map[a := place], source, a);
    ClosedInside(x, y);
  }

  // ----- a broken link that still leads to the right place -----

  lemma OutAndBack(x: string, place: string)
    requires Name(x + " ") && Name(place)
    ensures Meaning((x + " ") + "/" + (".." + "/" + place)) == [place]
  {
    SplitCons(x + " ", ".." + "/" + place);
    SplitCons("..", place);
    SplitName(place);
    assert [x + " "] + ([".."] + [place]) == [x + " ", "..", place];
    FoldAppend([], [x + " "], ["..", place]);
    FoldNames([], [x + " "]);
    FoldNames([], [place]);
    assert ["..", place][1..] == [place] && [x + " "][..0] == [];
  }

  /** The old title, which here starts with a step back out, closes a bracket that the new name opens. */
  lemma TitleTakenIn(inner: string)
    requires '>' !in inner
    ensures SplitRaw("<" + inner + ">") == Parts("<", inner, ">")
  {
    AngledReadsBack("", inner, "", "");
    assert "" + "<" + inner + (">" + "" + "") == "<" + inner + ">" && ">" + "" + "" == ">" && "" + "<" == "<";
  }

  lemma TitleShape(place: string)
    requires Unspaced(place)
    ensures Title(" /../" + place + ">")
  {
    var title := " /../" + place + ">";
    assert title[|title| - 1] == '>' && title[0] == ' ';
    forall i | 0 <= i < |title| ensures title[i] != '\n' {
      assert 5 <= i < |title| - 1 ==> title[i] == place[i - 5] && place[i - 5] in place;
    }
  }

  lemma TitleGroups(x: string, place: string)
    requires place == "<" + x
    ensures place + (" /../" + place + ">") == "<" + (x + " /../" + place) + ">"
    ensures (x + " ") + "/" + (".." + "/" + place) == x + " /../" + place
  {
  }

  lemma NoBracketIn(x: string, place: string)
    requires '>' !in x && place == "<" + x
    ensures '>' !in x + " /../" + place
  {
  }

  /** A rewritten link can lead to the right place and still be broken: the target that is read is the new name with the
      title behind it, which climbs back out again. */
  lemma TitleReadAsPath(cwd: seq<string>, source: string, a: string, x: string, place: string)
    requires Name(source) && Linked(a) && Unspaced(x) && '>' !in x && Name(x + " ")
    requires place == "<" + x && Name(place) && Unspaced(place) && place != a
    ensures RewriteRaw(cwd, map[a := place], source, source, a + (" /../" + place + ">")) == place + (" /../" + place + ">")
    ensures SplitRaw(place + (" /../" + place + ">")) == Parts("<", x + " /../" + place, ">")
    ensures Resolve(source, x + " /../" + place) == place
  {
    OneName(place);
    TitleShape(place);
    NeighbourMoves(cwd, source, a, " /../" + place + ">", place);
    TitleGroups(x, place);
    NoBracketIn(x, place);
    TitleTakenIn(x + " /../" + place);
    BackAgain(source, x, place);
  }

  lemma BackAgain(source: string, x: string, place: string)
    requires Name(source) && Name(x + " ") && Name(place)
    ensures Resolve(source, (x + " ") + "/" + (".." + "/" + place)) == place
  {
    OutAndBack(x, place);
    AtRoot(source, (x + " ") + "/" + (".." + "/" + place), [place]);
  }
}
