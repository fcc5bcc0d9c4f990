/** The inside of an inline link: its wrapper, its target and its title, and which new targets are read back. */
module DocText {
  import opened WhiteSpace
  import opened DocLinks

  // ----- the inside of one link -----

  function Leading(s: string): (n: nat)
    ensures n <= |s|
  {
    if s == "" || !Space(s[0]) then 0 else 1 + Leading(s[1..])
  }

  function Trailing(s: string): (n: nat)
    ensures n <= |s|
  {
    if s == "" || !Space(s[|s| - 1]) then 0 else 1 + Trailing(s[..|s| - 1])
  }

  /** How many characters from the start on are not white space. */
  function Solid(s: string): (n: nat)
    ensures n <= |s|
  {
    if s == "" || Space(s[0]) then 0 else 1 + Solid(s[1..])
  }

  lemma {:induction false} LeadingSpec(s: string)
    ensures var n := Leading(s); (forall i :: 0 <= i < n ==> Space(s[i])) && (n < |s| ==> !Space(s[n]))
  {
    if s != "" && Space(s[0]) {
      var rest := s[1..];
      LeadingSpec(rest);
      assert forall i :: 1 <= i < |s| ==> s[i] == rest[i - 1];
    }
  }

  lemma {:induction false} TrailingSpec(s: string)
    ensures var n := Trailing(s); (forall i :: |s| - n <= i < |s| ==> Space(s[i])) && (n < |s| ==> !Space(s[|s| - n - 1]))
  {
    if s != "" && Space(s[|s| - 1]) {
      TrailingSpec(s[..|s| - 1]);
    }
  }

  lemma {:induction false} SolidSpec(s: string)
    ensures var n := Solid(s); (forall i :: 0 <= i < n ==> !Space(s[i])) && (n < |s| ==> Space(s[n]))
  {
    if s != "" && !Space(s[0]) {
      var rest := s[1..];
      SolidSpec(rest);
      assert forall i :: 1 <= i < |s| ==> s[i] == rest[i - 1];
    }
  }

  predicate Blank(s: string) {
    Leading(s) == |s|
  }

  function Lead(s: string): string {
    s[..Leading(s)]
  }

  function Trail(s: string): string {
    s[|s| - Trailing(s)..]
  }

  /** The text without surrounding white space. */
  function Strip(s: string): string {
    if Leading(s) + Trailing(s) >= |s| then "" else s[Leading(s)..|s| - Trailing(s)]
  }

  predicate Spaces(s: string) {
    forall i :: 0 <= i < |s| ==> Space(s[i])
  }

  predicate SolidEnds(s: string) {
    s != "" && !Space(s[0]) && !Space(s[|s| - 1])
  }

  lemma Surroundings(raw: string)
    ensures Spaces(Lead(raw)) && Spaces(Trail(raw))
  {
    LeadingSpec(raw);
    TrailingSpec(raw);
  }

  lemma StripBounds(s: string)
    requires !Blank(s)
    ensures Leading(s) < |s| - Trailing(s) && !Space(s[Leading(s)]) && !Space(s[|s| - Trailing(s) - 1])
  {
    LeadingSpec(s);
    TrailingSpec(s);
  }

  lemma SliceEnds(s: string, l: nat, r: nat)
    requires l < r <= |s| && !Space(s[l]) && !Space(s[r - 1])
    ensures SolidEnds(s[l..r])
  {
  }

  lemma StripIsSolid(s: string)
    requires !Blank(s)
    ensures SolidEnds(Strip(s))
  {
    StripBounds(s);
    SliceEnds(s, Leading(s), |s| - Trailing(s));
  }

  lemma ThreeParts(s: string, l: nat, r: nat)
    requires l < r <= |s|
    ensures s[..l] + s[l..r] + s[r..] == s
  {
  }

  lemma StripLosesSpaces(s: string)
    requires !Blank(s)
    ensures Lead(s) + Strip(s) + Trail(s) == s
  {
    StripBounds(s);
    ThreeParts(s, Leading(s), |s| - Trailing(s));
  }

  datatype Parts = Parts(before: string, target: string, after: string)

  /** The target of a link, with the wrapper before it and the title behind it. */
  function SplitRaw(raw: string): Parts {
    SplitValue(Lead(raw), Strip(raw), Trail(raw))
  }

  function Whole(p: Parts): string {
    p.before + p.target + p.after
  }

  /** The parts make up the link again, except that a link of nothing but white space is doubled; the
      rewriter never gets to use those parts because their target is empty. */
  lemma SplitRawRoundTrip(raw: string)
    ensures Whole(SplitRaw(raw)) == raw <==> raw == "" || !Blank(raw)
    ensures Blank(raw) ==> SplitRaw(raw).target == ""
  {
    if Blank(raw) {
      BlankTrailing(raw);
      assert Lead(raw) == raw && Trail(raw) == raw && Strip(raw) == "";
      assert |Whole(SplitRaw(raw))| == |raw| + |raw|;
    } else {
      StripLosesSpaces(raw);
      ValueParts(Lead(raw), Strip(raw), Trail(raw));
    }
  }

  /** What stands behind a bare target inside the stripped text: nothing when a new line follows, because then
      the whole text is the target. */
  function Behind(value: string): string {
    var k := Solid(value);
    if k == 0 || '\n' in value[k..] then "" else value[k..]
  }

  /** Splitting the stripped text, with the white space around it passed along. */
  function SplitValue(lead: string, value: string, trail: string): Parts {
    if Angled(value) then
      var end := IndexOf(value, '>');
      Parts(lead + "<", value[1..end], ">" + value[end + 1..] + trail)
    else
      Parts(lead, value[..|value| - |Behind(value)|], Behind(value) + trail)
  }

  predicate Angled(value: string) {
    value != "" && value[0] == '<' && '>' in value
  }

  lemma AngledParts(value: string, end: nat)
    requires 0 < end < |value| && value[0] == '<' && value[end] == '>'
    ensures "<" + value[1..end] + (">" + value[end + 1..]) == value
  {
  }

  lemma Regroup(lead: string, a: string, b: string, c: string, trail: string)
    ensures (lead + a) + b + (c + trail) == lead + (a + b + c) + trail
  {
  }

  lemma BehindTarget(value: string)
    ensures value[..|value| - |Behind(value)|] + Behind(value) == value
  {
  }

  lemma ValueParts(lead: string, value: string, trail: string)
    ensures Whole(SplitValue(lead, value, trail)) == lead + value + trail
  {
    if Angled(value) {
      var end := IndexOf(value, '>');
      AngledParts(value, end);
      Regroup(lead, "<", value[1..end], ">" + value[end + 1..], trail);
    } else {
      var target := value[..|value| - |Behind(value)|];
      BehindTarget(value);
      Regroup(lead, "", target, Behind(value), trail);
      assert lead + "" == lead && "" + target == target;
    }
  }

  lemma {:induction false} BlankTrailing(s: string)
    requires Blank(s)
    ensures Trailing(s) == |s|
  {
    LeadingSpec(s);
    TrailingSpec(s);
  }

  // ----- reading a rewritten link -----

  predicate Unspaced(s: string) {
    forall c :: c in s ==> !Space(c)
  }

  /** The new target in the old wrapper is read as that target again: in angle brackets it does not close them.
      Otherwise it opens none, and either it has no white space or all of the stripped text is the target again. */
  predicate ReadsBack(raw: string, t: string)
    requires !Blank(raw)
  {
    var value := Strip(raw);
    if Angled(value) then '>' !in t
    else
      && !Angled(t + Behind(value))
      && (Unspaced(t) || (Behind(value) == "" && SolidEnds(t) && '\n' in t))
  }

  lemma SolidIs(s: string, k: nat)
    requires k <= |s| && (forall i :: 0 <= i < k ==> !Space(s[i])) && (k < |s| ==> Space(s[k]))
    ensures Solid(s) == k
  {
    SolidSpec(s);
  }

  lemma LeadingIs(s: string, k: nat)
    requires k < |s| && (forall i :: 0 <= i < k ==> Space(s[i])) && !Space(s[k])
    ensures Leading(s) == k
  {
    LeadingSpec(s);
  }

  lemma TrailingIs(s: string, k: nat)
    requires k < |s| && (forall i :: |s| - k <= i < |s| ==> Space(s[i])) && !Space(s[|s| - k - 1])
    ensures Trailing(s) == k
  {
    TrailingSpec(s);
  }

  lemma StripAt(s: string, l: nat, r: nat)
    requires l < r <= |s| && !Space(s[l]) && !Space(s[r - 1])
    requires (forall i :: 0 <= i < l ==> Space(s[i])) && (forall i :: r <= i < |s| ==> Space(s[i]))
    ensures Lead(s) == s[..l] && Strip(s) == s[l..r] && Trail(s) == s[r..]
  {
    LeadingIs(s, l);
    TrailingIs(s, |s| - r);
  }

  lemma ThreeJoined(a: string, b: string, c: string)
    ensures var s := a + b + c; s[..|a|] == a && s[|a|..|a| + |b|] == b && s[|a| + |b|..] == c
    ensures var s := a + b + c; forall i :: 0 <= i < |a| ==> s[i] == a[i]
    ensures var s := a + b + c; forall i :: 0 <= i < |b| ==> s[|a| + i] == b[i]
    ensures var s := a + b + c; forall i :: |a| + |b| <= i < |s| ==> s[i] == c[i - |a| - |b|]
  {
  }

  /** White space around a solid-ended text is stripped off again. */
  lemma StripBack(lead: string, value: string, trail: string)
    requires Spaces(lead) && SolidEnds(value) && Spaces(trail)
    ensures SplitRaw(lead + value + trail) == SplitValue(lead, value, trail)
  {
    ThreeJoined(lead, value, trail);
    var s := lead + value + trail;
    assert s[|lead| + 0] == value[0] && s[|lead| + (|value| - 1)] == value[|value| - 1];
    StripAt(s, |lead|, |lead| + |value|);
  }

  lemma AngledText(lead: string, t: string, tail: string, trail: string)
    requires tail != "" ==> !Space(tail[|tail| - 1])
    ensures lead + "<" + t + (">" + tail + trail) == lead + ("<" + t + ">" + tail) + trail
    ensures SolidEnds("<" + t + ">" + tail)
  {
    var value := "<" + t + ">" + tail;
    assert value[|value| - 1] == if tail == "" then '>' else tail[|tail| - 1];
  }

  /** In angle brackets any new target is read back, exactly when it does not close the bracket. */
  lemma AngledReadsBack(lead: string, t: string, tail: string, trail: string)
    requires Spaces(lead) && Spaces(trail)
    requires tail != "" ==> !Space(tail[|tail| - 1])
    ensures SplitRaw(lead + "<" + t + (">" + tail + trail)) == Parts(lead + "<", t, ">" + tail + trail) <==> '>' !in t
  {
    AngledText(lead, t, tail, trail);
    StripBack(lead, "<" + t + ">" + tail, trail);
    if '>' !in t {
      FirstClose(t, tail);
    } else {
      EarlyClose(t, tail);
    }
  }

  lemma FirstClose(t: string, tail: string)
    requires '>' !in t
    ensures var value := "<" + t + ">" + tail;
      '>' in value && IndexOf(value, '>') == |t| + 1 && value[1..|t| + 1] == t && value[|t| + 2..] == tail
  {
    var value := "<" + t + ">" + tail;
    assert value[|t| + 1] == '>';
    assert value[..|t| + 1] == "<" + t;
    IndexIs(value, '>', |t| + 1);
  }

  lemma EarlyClose(t: string, tail: string)
    requires '>' in t
    ensures var value := "<" + t + ">" + tail; '>' in value && IndexOf(value, '>') < |t| + 1
  {
    var value := "<" + t + ">" + tail;
    var m :| 0 <= m < |t| && t[m] == '>';
    assert value[m + 1] == '>';
    var end := IndexOf(value, '>');
    IndexOfIsFirst(value, '>');
    forall i | 0 <= i < end ensures value[i] != '>' { assert value[..end][i] in value[..end]; }
  }

  lemma BareText(t: string, tail: string)
    requires tail != "" ==> !Space(tail[|tail| - 1])
    requires t != "" && Unspaced(t)
    ensures SolidEnds(t + tail)
  {
    var value := t + tail;
    assert t[0] in t && t[|t| - 1] in t;
    assert value[|value| - 1] == if tail == "" then t[|t| - 1] else tail[|tail| - 1];
  }

  lemma BareSolid(t: string, tail: string)
    requires tail != "" ==> Space(tail[0])
    requires Unspaced(t)
    ensures Solid(t + tail) == |t|
  {
    var value := t + tail;
    forall i | 0 <= i < |t| ensures !Space(value[i]) { assert value[i] == t[i] && t[i] in t; }
    SolidIs(value, |t|);
  }

  lemma BareConcat(lead: string, t: string, tail: string, trail: string)
    ensures lead + t + (tail + trail) == lead + (t + tail) + trail
    ensures (t + tail)[..|t|] == t && (t + tail)[|t|..] == tail
  {
  }

  /** A title as it stands behind a bare target. */
  predicate Title(tail: string) {
    tail != "" ==> Space(tail[0]) && !Space(tail[|tail| - 1]) && '\n' !in tail
  }

  /** A target without white space is the first word of the text that it starts. */
  lemma FirstWord(lead: string, t: string, tail: string, trail: string)
    requires Spaces(lead) && Spaces(trail) && Title(tail) && t != "" && Unspaced(t)
    ensures SplitRaw(lead + t + (tail + trail)) == SplitValue(lead, t + tail, trail)
    ensures Behind(t + tail) == tail
  {
    BareText(t, tail);
    BareSolid(t, tail);
    StripBack(lead, t + tail, trail);
    BareConcat(lead, t, tail, trail);
  }

  lemma NothingBehind(t: string)
    requires '\n' in t
    ensures Behind(t) == ""
  {
    SolidSpec(t);
    var word, rest := t[..Solid(t)], t[Solid(t)..];
    assert Unspaced(word);
    assert t == word + rest;
  }

  /** With a new line in it the target is all of the text, white space and all. */
  lemma WholeText(lead: string, t: string, trail: string)
    requires Spaces(lead) && Spaces(trail) && SolidEnds(t) && '\n' in t && !Angled(t)
    ensures SplitRaw(lead + t + trail) == Parts(lead, t, trail)
  {
    StripBack(lead, t, trail);
    NothingBehind(t);
    WholeSplit(lead, t, trail);
  }

  lemma WholeSplit(lead: string, t: string, trail: string)
    requires Behind(t) == "" && !Angled(t)
    ensures SplitValue(lead, t, trail) == Parts(lead, t, trail)
  {
  }

  lemma SpacesEnd(spaces: string, tail: string, trail: string)
    requires Spaces(spaces) && spaces == tail + trail && Title(tail)
    ensures tail == ""
  {
    assert spaces[..|tail|] == tail;
  }

  lemma NotBrackets(spaces: string, x: string)
    requires Spaces(spaces)
    ensures spaces != x + "<"
  {
    assert (x + "<")[|x|] == '<';
  }

  /** A target that stands alone between white space is not in brackets; it has no white space itself, or it is all of
      the text. */
  lemma BareValue(value: string, lead': string, trail': string, lead: string, t: string, tail: string, trail: string)
    requires SolidEnds(value) && Spaces(lead) && Spaces(trail') && Title(tail)
    requires SplitValue(lead', value, trail') == Parts(lead, t, tail + trail)
    ensures !Angled(value) && (Unspaced(t) || (tail == "" && t == value && '\n' in t))
  {
    NotBrackets(lead, lead');
    if !Unspaced(t) {
      WordOrText(value, t);
      assert "" + trail' == trail';
      SpacesEnd(trail', tail, trail);
    }
  }

  lemma RawValue(raw: string, t: string)
    requires SplitRaw(raw).target == t && t != ""
    ensures SolidEnds(Strip(raw)) && Spaces(Trail(raw)) && SplitRaw(raw) == SplitValue(Lead(raw), Strip(raw), Trail(raw))
  {
    SplitRawRoundTrip(raw);
    StripIsSolid(raw);
    Surroundings(raw);
  }

  lemma WordOpensNone(lead: string, t: string, tail: string, trail: string)
    requires Spaces(lead) && Spaces(trail) && Title(tail) && t != "" && Unspaced(t)
    requires SplitRaw(lead + t + (tail + trail)).before == lead
    ensures !Angled(t + tail)
  {
    FirstWord(lead, t, tail, trail);
    NotBrackets(lead, lead);
  }

  lemma BareReadFrom(raw: string, lead: string, t: string, tail: string, trail: string)
    requires Spaces(lead) && Title(tail) && t != ""
    requires SplitRaw(raw) == Parts(lead, t, tail + trail)
    ensures Unspaced(t) || (tail == "" && SolidEnds(t) && '\n' in t && !Angled(t))
  {
    RawValue(raw, t);
    BareValue(Strip(raw), Lead(raw), Trail(raw), lead, t, tail, trail);
  }

  /** A bare target that is read back has no white space, or is all of the text and holds a new line. */
  lemma BareRead(lead: string, t: string, tail: string, trail: string)
    requires Spaces(lead) && Spaces(trail) && Title(tail) && t != ""
    requires SplitRaw(lead + t + (tail + trail)) == Parts(lead, t, tail + trail)
    ensures !Angled(t + tail) && (Unspaced(t) || (tail == "" && SolidEnds(t) && '\n' in t))
  {
    BareReadFrom(lead + t + (tail + trail), lead, t, tail, trail);
    if Unspaced(t) {
      WordOpensNone(lead, t, tail, trail);
    } else {
      assert t + tail == t;
    }
  }

  /** What the split takes for the target is the first word or, with a new line behind that, all of the text. */
  lemma WordOrText(value: string, t: string)
    requires SolidEnds(value) && t == value[..|value| - |Behind(value)|] && !Unspaced(t)
    ensures Behind(value) == "" && t == value && '\n' in t
  {
    SolidSpec(value);
    var word, rest := value[..Solid(value)], value[Solid(value)..];
    assert Unspaced(word);
    assert word + rest == value;
    assert rest == "" ==> word == value;
  }

  lemma BareReadsBack(lead: string, t: string, tail: string, trail: string)
    requires Spaces(lead) && Spaces(trail) && Title(tail) && t != ""
    ensures SplitRaw(lead + t + (tail + trail)) == Parts(lead, t, tail + trail)
       <==> !Angled(t + tail) && (Unspaced(t) || (tail == "" && SolidEnds(t) && '\n' in t))
  {
    if SplitRaw(lead + t + (tail + trail)) == Parts(lead, t, tail + trail) {
      BareRead(lead, t, tail, trail);
    } else if !Angled(t + tail) && Unspaced(t) {
      FirstWord(lead, t, tail, trail);
      BareConcat(lead, t, tail, trail);
    } else if !Angled(t + tail) && tail == "" && SolidEnds(t) && '\n' in t {
      assert t + tail == t && tail + trail == trail;
      WholeText(lead, t, trail);
    }
  }

  lemma TitleBehind(value: string)
    requires SolidEnds(value)
    ensures Title(Behind(value))
  {
    SolidSpec(value);
    var tail := Behind(value);
    assert tail != "" ==> tail[|tail| - 1] == value[|value| - 1] && tail[0] == value[Solid(value)];
  }

  lemma AngledTail(value: string)
    requires SolidEnds(value) && Angled(value)
    ensures var tail := value[IndexOf(value, '>') + 1..]; tail != "" ==> !Space(tail[|tail| - 1])
  {
    var tail := value[IndexOf(value, '>') + 1..];
    assert tail != "" ==> tail[|tail| - 1] == value[|value| - 1];
  }

  lemma AngledReplaced(lead: string, value: string, trail: string, t: string)
    requires Spaces(lead) && SolidEnds(value) && Spaces(trail) && Angled(value)
    ensures var parts := SplitValue(lead, value, trail); SplitRaw(parts.before + t + parts.after) == parts.(target := t) <==> '>' !in t
  {
    AngledTail(value);
    AngledReadsBack(lead, t, value[IndexOf(value, '>') + 1..], trail);
  }

  lemma BareReplaced(lead: string, value: string, trail: string, t: string)
    requires Spaces(lead) && SolidEnds(value) && Spaces(trail) && !Angled(value) && t != ""
    ensures var parts := SplitValue(lead, value, trail);
      SplitRaw(parts.before + t + parts.after) == parts.(target := t)
      <==> !Angled(t + Behind(value)) && (Unspaced(t) || (Behind(value) == "" && SolidEnds(t) && '\n' in t))
  {
    TitleBehind(value);
    BareReadsBack(lead, t, Behind(value), trail);
  }

  /** A link with its target replaced is split into the same wrapper, the new target and the same title exactly when
      the new target is one that reads back. */
  lemma ReplacedTargetReadsBack(raw: string, t: string)
    requires !Blank(raw) && t != ""
    ensures var parts := SplitRaw(raw); SplitRaw(parts.before + t + parts.after) == parts.(target := t) <==> ReadsBack(raw, t)
  {
    StripIsSolid(raw);
    Surroundings(raw);
    if Angled(Strip(raw)) {
      AngledReplaced(Lead(raw), Strip(raw), Trail(raw), t);
    } else {
      BareReplaced(Lead(raw), Strip(raw), Trail(raw), t);
    }
  }
}
