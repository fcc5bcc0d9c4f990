/** A Markdown document as its inline links and the characters between them, and replacing every link of it. */
module DocPieces {
  import opened DocLinks

  datatype Piece = Plain(c: char) | Link(raw: string)

  /** A closing bracket, an opening parenthesis, at least one other character and a closing parenthesis. */
  predicate LinkAhead(text: string) {
    |text| >= 3 && text[0] == ']' && text[1] == '(' && text[2] != ')' && ')' in text[2..]
  }

  /** The document as the leftmost matches of the link pattern and the characters between them. */
  function Pieces(text: string): seq<Piece>
    decreases |text|
  {
    if text == "" then []
    else if LinkAhead(text) then
      var n := IndexOf(text[2..], ')');
      [Link(text[2..][..n])] + Pieces(text[n + 3..])
    else [Plain(text[0])] + Pieces(text[1..])
  }

  function Show(p: Piece): string {
    match p
    case Plain(c) => [c]
    case Link(raw) => "](" + raw + ")"
  }

  function Unparse(ps: seq<Piece>): string {
    if ps == [] then "" else Show(ps[0]) + Unparse(ps[1..])
  }

  function MapLinks(ps: seq<Piece>, f: string -> string): seq<Piece> {
    if ps == [] then []
    else [if ps[0].Link? then Link(f(ps[0].raw)) else ps[0]] + MapLinks(ps[1..], f)
  }

  /** Replacing every match, as a substitution over the document does. */
  function Substitute(text: string, f: string -> string): string {
    Unparse(MapLinks(Pieces(text), f))
  }

  lemma LinkText(text: string)
    requires LinkAhead(text)
    ensures var n := IndexOf(text[2..], ')');
      0 < n && text[2..][..n] != "" && ')' !in text[2..][..n] && text == "](" + text[2..][..n] + ")" + text[n + 3..]
  {
    var n := IndexOf(text[2..], ')');
    assert text[2..][0] == text[2];
    assert text == text[..2] + text[2..][..n] + [text[n + 2]] + text[n + 3..];
    assert text[..2] == "](";
    IndexOfIsFirst(text[2..], ')');
  }

  /** Taking a document apart loses nothing. */
  lemma {:induction false} UnparsePieces(text: string)
    ensures Unparse(Pieces(text)) == text
    decreases |text|
  {
    if text != "" {
      if LinkAhead(text) {
        var n := IndexOf(text[2..], ')');
        LinkText(text);
        UnparsePieces(text[n + 3..]);
      } else {
        UnparsePieces(text[1..]);
      }
    }
  }

  /** A replacement that keeps links readable as links. */
  ghost predicate KeepsLinks(ps: seq<Piece>, f: string -> string) {
    forall p :: p in ps && p.Link? ==> f(p.raw) != "" && ')' !in f(p.raw)
  }

  lemma LinkRead(raw: string, rest: string)
    requires raw != "" && ')' !in raw
    ensures var text := "](" + raw + ")" + rest;
      LinkAhead(text) && IndexOf(text[2..], ')') == |raw| && text[2..][..|raw|] == raw && text[|raw| + 3..] == rest
  {
    var text := "](" + raw + ")" + rest;
    assert text[2..] == raw + ")" + rest;
    assert text[2..][|raw|] == ')' && text[2..][..|raw|] == raw;
    assert raw[0] in raw && text[2] == raw[0];
    IndexIs(text[2..], ')', |raw|);
  }

  /** The substituted text starts like the original. */
  lemma SubstituteStart(text: string, f: string -> string)
    requires text != ""
    ensures Substitute(text, f) != "" && Substitute(text, f)[0] == text[0]
  {
  }

  lemma {:induction false} NothingToReplace(text: string, f: string -> string)
    requires ')' !in text
    ensures Substitute(text, f) == text
    decreases |text|
  {
    if text != "" {
      assert !LinkAhead(text) by { assert |text| >= 2 ==> forall c :: c in text[2..] ==> c in text; }
      NothingToReplace(text[1..], f);
      assert text == [text[0]] + text[1..];
    }
  }

  lemma SubstitutePlain(text: string, f: string -> string)
    requires text != "" && !LinkAhead(text)
    ensures Substitute(text, f) == [text[0]] + Substitute(text[1..], f)
  {
    var rest := Pieces(text[1..]);
    assert ([Plain(text[0])] + rest)[1..] == rest;
    assert ([Plain(text[0])] + MapLinks(rest, f))[1..] == MapLinks(rest, f);
  }

  /** A character that starts no link starts none after the rest has been substituted. */
  lemma StillPlain(text: string, f: string -> string)
    requires text != "" && !LinkAhead(text)
    ensures !LinkAhead([text[0]] + Substitute(text[1..], f))
  {
    var rest := text[1..];
    var after := Substitute(rest, f);
    if |text| >= 2 && text[0] == ']' && text[1] == '(' {
      SubstitutePlain(rest, f);
      if ')' !in text[2..] {
        assert rest[1..] == text[2..];
        NothingToReplace(text[2..], f);
        assert ([text[0]] + after)[2..] == text[2..];
      } else {
        assert text[2] == ')';
        SubstituteStart(rest[1..], f);
        assert ([text[0]] + after)[2] == ')';
      }
    } else if |text| >= 2 {
      SubstituteStart(rest, f);
    }
  }

  /** Substitution changes the links and nothing else: the result has the same pieces in the same
      order, each link replaced and every other character as it was. */
  lemma {:induction false} SubstitutionKeepsStructure(text: string, f: string -> string)
    requires KeepsLinks(Pieces(text), f)
    ensures Pieces(Substitute(text, f)) == MapLinks(Pieces(text), f)
    decreases |text|
  {
    if text != "" {
      var ps := Pieces(text);
      if LinkAhead(text) {
        var n := IndexOf(text[2..], ')');
        var raw, rest := text[2..][..n], text[n + 3..];
        assert ps == [Link(raw)] + Pieces(rest);
        assert Link(raw) in ps && forall p :: p in Pieces(rest) ==> p in ps;
        SubstitutionKeepsStructure(rest, f);
        assert ps[1..] == Pieces(rest);
        var mapped := MapLinks(Pieces(rest), f);
        assert ([Link(f(raw))] + mapped)[1..] == mapped;
        assert Substitute(text, f) == "](" + f(raw) + ")" + Substitute(rest, f);
        LinkRead(f(raw), Substitute(rest, f));
      } else {
        var rest := text[1..];
        assert ps == [Plain(text[0])] + Pieces(rest);
        assert ps[1..] == Pieces(rest);
        assert forall p :: p in Pieces(rest) ==> p in ps;
        SubstitutionKeepsStructure(rest, f);
        SubstitutePlain(text, f);
        StillPlain(text, f);
        assert ([text[0]] + Substitute(rest, f))[1..] == Substitute(rest, f);
      }
    }
  }

  // ----- documents that substitution leaves alone -----

  predicate Closed(text: string) {
    text != "" ==> text[|text| - 1] == ')'
  }

  lemma PiecesOfLink(raw: string, rest: string)
    requires raw != "" && ')' !in raw
    ensures Pieces("](" + raw + ")" + rest) == [Link(raw)] + Pieces(rest)
  {
    LinkRead(raw, rest);
  }

  lemma PiecesOfPlain(c: char, rest: string)
    requires !LinkAhead([c] + rest)
    ensures Pieces([c] + rest) == [Plain(c)] + Pieces(rest)
  {
    assert ([c] + rest)[1..] == rest;
  }

  lemma Regrouped<T>(a: seq<T>, b: seq<T>, c: seq<T>)
    ensures a + (b + c) == (a + b) + c
  {
  }

  /** A text that ends with a closing parenthesis is taken apart on its own, whatever follows it. */
  lemma {:induction false} PiecesAppend(w: string, y: string)
    requires Closed(w)
    ensures Pieces(w + y) == Pieces(w) + Pieces(y)
    decreases |w|
  {
    if w == "" {
      assert w + y == y;
    } else if LinkAhead(w) {
      LinkText(w);
      var n := IndexOf(w[2..], ')');
      var raw, rest := w[2..][..n], w[n + 3..];
      PiecesAppend(rest, y);
      PiecesOfLink(raw, rest);
      PiecesOfLink(raw, rest + y);
      Regrouped("](" + raw + ")", rest, y);
      Regrouped([Link(raw)], Pieces(rest), Pieces(y));
    } else {
      var rest := w[1..];
      assert w == [w[0]] + rest;
      Regrouped([w[0]], rest, y);
      NoLinkAcross(w, y);
      PiecesAppend(rest, y);
      PiecesOfPlain(w[0], rest);
      PiecesOfPlain(w[0], rest + y);
      Regrouped([Plain(w[0])], Pieces(rest), Pieces(y));
    }
  }

  lemma NoLinkAcross(w: string, y: string)
    requires w != "" && Closed(w) && !LinkAhead(w)
    ensures !LinkAhead(w + y)
  {
    assert |w| >= 3 ==> w[2..][|w| - 3] == ')';
  }

  lemma MapAppend(a: seq<Piece>, b: seq<Piece>, f: string -> string)
    ensures MapLinks(a + b, f) == MapLinks(a, f) + MapLinks(b, f)
  {
    if a == [] {
      assert a + b == b;
    } else {
      assert (a + b)[1..] == a[1..] + b;
      MapAppend(a[1..], b, f);
    }
  }

  lemma UnparseAppend(a: seq<Piece>, b: seq<Piece>)
    ensures Unparse(a + b) == Unparse(a) + Unparse(b)
  {
    if a == [] {
      assert a + b == b;
    } else {
      assert (a + b)[1..] == a[1..] + b;
      UnparseAppend(a[1..], b);
    }
  }

  lemma SubstituteAppend(w: string, y: string, f: string -> string)
    requires Closed(w)
    ensures Substitute(w + y, f) == Substitute(w, f) + Substitute(y, f)
  {
    PiecesAppend(w, y);
    MapAppend(Pieces(w), Pieces(y), f);
    UnparseAppend(MapLinks(Pieces(w), f), MapLinks(Pieces(y), f));
  }

  lemma LinkSubstituted(raw: string, rest: string, f: string -> string)
    requires raw != "" && ')' !in raw
    ensures Substitute("](" + raw + ")" + rest, f) == ("](" + f(raw) + ")") + Substitute(rest, f)
  {
    PiecesOfLink(raw, rest);
    MapAppend([Link(raw)], Pieces(rest), f);
    UnparseAppend([Link(f(raw))], MapLinks(Pieces(rest), f));
    OneLink(raw, f);
  }

  lemma OneLink(raw: string, f: string -> string)
    ensures MapLinks([Link(raw)], f) == [Link(f(raw))] && Unparse([Link(f(raw))]) == "](" + f(raw) + ")"
  {
    assert [Link(raw)][1..] == [] && [Link(f(raw))][1..] == [];
  }

  lemma ClosedJoin(a: string, y: string)
    requires Closed(y) && (y == "" ==> Closed(a))
    ensures Closed(a + y)
  {
  }

  lemma {:induction false} StaysClosed(w: string, f: string -> string)
    requires Closed(w)
    ensures Closed(Substitute(w, f)) && (w != "" ==> Substitute(w, f) != "")
    decreases |w|
  {
    if w != "" {
      if LinkAhead(w) {
        LinkText(w);
        var n := IndexOf(w[2..], ')');
        var raw, rest := w[2..][..n], w[n + 3..];
        StaysClosed(rest, f);
        LinkSubstituted(raw, rest, f);
        ClosedJoin("](" + f(raw) + ")", Substitute(rest, f));
      } else {
        StaysClosed(w[1..], f);
        SubstitutePlain(w, f);
        ClosedJoin([w[0]], Substitute(w[1..], f));
      }
    }
  }

  /** No text is its own substitution with a closed text in front: what stands behind it would have the same shape, and
      so on without end. */
  lemma {:induction false} NoHeadStart(w: string, x: string, f: string -> string)
    requires w != "" && Closed(w)
    ensures x != w + Substitute(x, f)
    decreases |x|
  {
    var y := Substitute(x, f);
    if |w| + |y| == |x| {
      NoHeadStart(Substitute(w, f), y, f) by { StaysClosed(w, f); }
      SubstituteAppend(w, y, f);
    }
  }

  lemma SameUpToClose(x: string, a: string, y: string, b: string)
    requires ')' !in x && ')' !in y && x + ")" + a == y + ")" + b
    ensures x == y && a == b
  {
    CutAtClose(x, a);
    CutAtClose(y, b);
  }

  lemma CutAtClose(x: string, a: string)
    requires ')' !in x
    ensures var s := x + ")" + a; ')' in s && IndexOf(s, ')') == |x| && s[..|x|] == x && s[|x| + 1..] == a
  {
    var s := x + ")" + a;
    assert s[|x|] == ')' && s[..|x|] == x;
    IndexIs(s, ')', |x|);
  }

  lemma AtFirstClose(x: string) returns (head: string, rest: string)
    requires ')' in x
    ensures ')' !in head && x == head + ")" + rest
  {
    var k := IndexOf(x, ')');
    IndexOfIsFirst(x, ')');
    head, rest := x[..k], x[k + 1..];
  }

  /** A first link that changes shows in the text, whatever happens behind it. */
  lemma ChangedLinkShows(raw: string, rest: string, f: string -> string)
    requires ')' !in raw && f(raw) + ")" + Substitute(rest, f) == raw + ")" + rest
    ensures f(raw) == raw
  {
    if ')' in f(raw) {
      var head, more := AtFirstClose(f(raw));
      Shifted(head, more, Substitute(rest, f));
      SameUpToClose(head, more + ")" + Substitute(rest, f), raw, rest);
      NoHeadStart(more + ")", rest, f);
    } else {
      SameUpToClose(f(raw), Substitute(rest, f), raw, rest);
    }
  }

  lemma Shifted(head: string, more: string, y: string)
    ensures (head + ")" + more) + ")" + y == head + ")" + ((more + ")") + y)
  {
  }

  /** The replacement leaves every link alone. */
  predicate AllFixed(ps: seq<Piece>, f: string -> string) {
    ps == [] || ((ps[0].Link? ==> f(ps[0].raw) == ps[0].raw) && AllFixed(ps[1..], f))
  }

  lemma {:induction false} AllFixedMeans(ps: seq<Piece>, f: string -> string)
    ensures AllFixed(ps, f) <==> forall p :: p in ps && p.Link? ==> f(p.raw) == p.raw
  {
    if ps != [] {
      AllFixedMeans(ps[1..], f);
      assert forall p :: p in ps <==> p == ps[0] || p in ps[1..];
    }
  }

  lemma FixedHead(p: Piece, ps: seq<Piece>, f: string -> string)
    ensures AllFixed([p] + ps, f) <==> (p.Link? ==> f(p.raw) == p.raw) && AllFixed(ps, f)
  {
    assert ([p] + ps)[1..] == ps;
  }

  lemma FixedLink(raw: string, rest: string, f: string -> string)
    requires raw != "" && ')' !in raw
    requires Substitute(rest, f) == rest <==> AllFixed(Pieces(rest), f)
    ensures var text := "](" + raw + ")" + rest; Substitute(text, f) == text <==> AllFixed(Pieces(text), f)
  {
    var y := Substitute(rest, f);
    PiecesOfLink(raw, rest);
    FixedHead(Link(raw), Pieces(rest), f);
    LinkSubstituted(raw, rest, f);
    LinkGroups(raw, rest);
    LinkGroups(f(raw), y);
    SameBehind("](", f(raw) + ")" + y, raw + ")" + rest);
    if f(raw) + ")" + y == raw + ")" + rest { ChangedLinkShows(raw, rest, f); }
    SameBehind(raw + ")", y, rest);
  }

  lemma LinkGroups(raw: string, y: string)
    ensures ("](" + raw + ")") + y == "](" + (raw + ")" + y)
  {
  }

  lemma {:induction false} FixedText(text: string, f: string -> string)
    ensures Substitute(text, f) == text <==> AllFixed(Pieces(text), f)
    decreases |text|
  {
    if text != "" {
      if LinkAhead(text) {
        var n := IndexOf(text[2..], ')');
        LinkText(text);
        FixedText(text[n + 3..], f);
        FixedLink(text[2..][..n], text[n + 3..], f);
      } else {
        var rest := text[1..];
        FixedText(rest, f);
        SubstitutePlain(text, f);
        assert text == [text[0]] + rest;
        PiecesOfPlain(text[0], rest);
        FixedHead(Plain(text[0]), Pieces(rest), f);
        SameBehind([text[0]], Substitute(rest, f), rest);
      }
    }
  }

  /** Substitution leaves a document alone exactly when it leaves every link of it alone, whatever the replacement puts
      in place of the others. */
  lemma FixedTextHasFixedLinks(text: string, f: string -> string)
    ensures Substitute(text, f) == text <==> forall p :: p in Pieces(text) && p.Link? ==> f(p.raw) == p.raw
  {
    FixedText(text, f);
    AllFixedMeans(Pieces(text), f);
  }

  lemma SameBehind(a: string, x: string, y: string)
    ensures a + x == a + y <==> x == y
  {
    assert (a + x)[|a|..] == x && (a + y)[|a|..] == y;
  }

  lemma {:induction false} MapLinksAt(ps: seq<Piece>, f: string -> string, i: nat)
    requires i < |ps|
    ensures |MapLinks(ps, f)| == |ps|
    ensures MapLinks(ps, f)[i] == if ps[i].Link? then Link(f(ps[i].raw)) else ps[i]
  {
    if i > 0 {
      MapLinksAt(ps[1..], f, i - 1);
    } else if |ps| > 1 {
      MapLinksAt(ps[1..], f, 0);
    }
  }

  /** The links of a list of pieces with its links replaced are the replaced links. */
  lemma {:induction false} MappedLinks(ps: seq<Piece>, f: string -> string, raw: string)
    ensures Link(raw) in MapLinks(ps, f) <==> exists p :: p in ps && p.Link? && f(p.raw) == raw
  {
    if ps != [] {
      var head := if ps[0].Link? then Link(f(ps[0].raw)) else ps[0];
      MappedLinks(ps[1..], f, raw);
      assert MapLinks(ps, f) == [head] + MapLinks(ps[1..], f);
      assert forall p :: p in ps <==> p == ps[0] || p in ps[1..];
    }
  }

  /** Substituting twice equals substituting once exactly when every single replacement settles at once. */
  lemma SubstitutionIsIdempotent(text: string, f: string -> string)
    requires KeepsLinks(Pieces(text), f)
    ensures Substitute(Substitute(text, f), f) == Substitute(text, f)
       <==> forall p :: p in Pieces(text) && p.Link? ==> f(f(p.raw)) == f(p.raw)
  {
    var once := Substitute(text, f);
    SubstitutionKeepsStructure(text, f);
    FixedTextHasFixedLinks(once, f);
    forall p | p in Pieces(text) && p.Link? ensures Link(f(p.raw)) in Pieces(once) {
      MappedLinks(Pieces(text), f, f(p.raw));
    }
    forall q | q in Pieces(once) && q.Link? ensures exists p :: p in Pieces(text) && p.Link? && f(p.raw) == q.raw {
      MappedLinks(Pieces(text), f, q.raw);
    }
  }
}
