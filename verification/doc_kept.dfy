/** Which targets the rewriter never touches, told from their first characters and the place their path leads to. */
module DocKept {
  import opened Wrappers
  import opened Paths
  import opened DocLinks
  import opened DocText
  import opened DocPieces
  import opened DocRewriting

  /** An empty target, a rooted path or a link elsewhere, a target with nothing before its separator, or a way out of
      the root to any place but the root's own parent. */
  ghost predicate Kept(oldSource: string, t: string) {
    var place := Resolve(oldSource, SplitFragment(t).0);
    || t == ""
    || (exists p :: p in ["#", "/", "http://", "https://", "mailto:", "data:"] && p <= t)
    || (t[0] == '?' && '#' !in t)
    || (!Inside(place) && place != "..")
  }

  lemma PathIsEmpty(t: string)
    requires t != ""
    ensures SplitFragment(t).0 == "" <==> t[0] == '#' || (t[0] == '?' && '#' !in t)
  {
    var (path, fragment) := SplitFragment(t);
    SplitFragmentShape(t);
    if path == "" {
      assert t == fragment;
    } else {
      assert t[0] == path[0] && path[0] in path;
      assert forall c :: c in fragment ==> c in t;
    }
  }

  lemma ElsewhereMeans(t: string)
    ensures External(t) <==> exists p :: p in ["#", "/", "http://", "https://", "mailto:", "data:"] && p <= t
  {
    var prefixes := ["#", "/", "http://", "https://", "mailto:", "data:"];
    if External(t) {
      var k :=
        if "#" <= t then 0 else if "/" <= t then 1 else if "http://" <= t then 2
        else if "https://" <= t then 3 else if "mailto:" <= t then 4 else 5;
      assert prefixes[k] in prefixes && prefixes[k] <= t;
    }
  }

  /** For every move: a target is never rewritten exactly when it is kept. */
  lemma NeverRewrittenExactly(cwd: seq<string>, moves: Moves, oldSource: string, newSource: string, t: string)
    ensures RewriteTarget(cwd, moves, oldSource, newSource, t) == None <==> Kept(oldSource, t)
  {
    ElsewhereMeans(t);
    GuardMeans(oldSource, SplitFragment(t).0);
    if t != "" {
      PathIsEmpty(t);
      assert t[0] == '#' ==> "#" <= t;
    }
  }

  // ----- in a document -----

  lemma {:induction false} MapLinksParts(ps: seq<Piece>, f: string -> string, i: nat)
    requires i < |ps|
    ensures Unparse(MapLinks(ps, f)) == Unparse(MapLinks(ps[..i], f)) + Show(MapLinks([ps[i]], f)[0]) + Unparse(MapLinks(ps[i + 1..], f))
  {
    var before, at, behind := ps[..i], [ps[i]], ps[i + 1..];
    assert ps == before + (at + behind);
    MapAppend(before, at + behind, f);
    MapAppend(at, behind, f);
    UnparseAppend(MapLinks(before, f), MapLinks(at + behind, f));
    UnparseAppend(MapLinks(at, f), MapLinks(behind, f));
    OneShown(ps[i], f);
    ThreeTexts(Unparse(MapLinks(before, f)), Show(MapLinks(at, f)[0]), Unparse(MapLinks(behind, f)));
  }

  lemma OneShown(p: Piece, f: string -> string)
    ensures |MapLinks([p], f)| == 1 && Unparse(MapLinks([p], f)) == Show(MapLinks([p], f)[0])
  {
    var one := [p];
    assert one[1..] == [] && MapLinks(one[1..], f) == [];
    var shown := MapLinks(one, f);
    assert shown == [if p.Link? then Link(f(p.raw)) else p] + MapLinks(one[1..], f);
    assert shown[1..] == [] && Unparse(shown[1..]) == "";
  }

  lemma ThreeTexts(a: string, b: string, c: string)
    ensures a + (b + c) == a + b + c
  {
  }

  /** Wherever the document moves, a link with a kept target stands in it character for character as it did, between
      the rewritten text before and behind it. */
  lemma KeptLinkStands(cwd: seq<string>, moves: Moves, oldSource: string, newSource: string, text: string, i: nat)
    requires i < |Pieces(text)| && Pieces(text)[i].Link? && Kept(oldSource, SplitRaw(Pieces(text)[i].raw).target)
    ensures var f, ps := (raw: string) => RewriteRaw(cwd, moves, oldSource, newSource, raw), Pieces(text);
      RewriteDocument(cwd, moves, oldSource, newSource, text)
      == Unparse(MapLinks(ps[..i], f)) + ("](" + ps[i].raw + ")") + Unparse(MapLinks(ps[i + 1..], f))
    ensures Inside(newSource) && GoodMoves(moves) && NoneClosesEarly(moves, oldSource, newSource, text)
      ==> var after := Pieces(RewriteDocument(cwd, moves, oldSource, newSource, text)); |after| == |Pieces(text)| && after[i] == Pieces(text)[i]
  {
    var f, ps := (raw: string) => RewriteRaw(cwd, moves, oldSource, newSource, raw), Pieces(text);
    NeverRewrittenExactly(cwd, moves, oldSource, newSource, SplitRaw(ps[i].raw).target);
    assert f(ps[i].raw) == ps[i].raw;
    MapLinksParts(ps, f, i);
    OneShown(ps[i], f);
    assert MapLinks([ps[i]], f)[0] == ps[i];
    if Inside(newSource) && GoodMoves(moves) && NoneClosesEarly(moves, oldSource, newSource, text) {
      MovedDocumentKeepsItsLinks(cwd, moves, oldSource, newSource, text, i);
    }
  }

  /** A document with only such links is not changed by any move. */
  lemma KeptDocumentStands(cwd: seq<string>, moves: Moves, oldSource: string, newSource: string, text: string)
    requires forall p :: p in Pieces(text) && p.Link? ==> Kept(oldSource, SplitRaw(p.raw).target)
    ensures RewriteDocument(cwd, moves, oldSource, newSource, text) == text
  {
    var f := (raw: string) => RewriteRaw(cwd, moves, oldSource, newSource, raw);
    forall p | p in Pieces(text) && p.Link? ensures f(p.raw) == p.raw {
      NeverRewrittenExactly(cwd, moves, oldSource, newSource, SplitRaw(p.raw).target);
    }
    FixedTextHasFixedLinks(text, f);
  }
}
