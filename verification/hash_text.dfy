/** Text with a tail behind a hash sign, as event ids and seeded record ids have it. */
module HashText {

  function AfterLastHash(s: string): string {
    if s == "" || s[|s| - 1] == '#' then "" else AfterLastHash(s[..|s| - 1]) + [s[|s| - 1]]
  }

  /** A tail without a hash sign is found again behind the last one. */
  lemma {:induction false} HashFreeTail(x: string, a: string)
    requires '#' !in a
    ensures AfterLastHash(x + "#" + a) == a
    decreases |a|
  {
    if a == "" {
      assert x + "#" + a == x + "#";
    } else {
      var last := |a| - 1;
      HashFreeTail(x, a[..last]);
      assert (x + "#" + a)[..|x| + 1 + last] == x + "#" + a[..last];
      assert a == a[..last] + [a[last]];
    }
  }

  /** Both parts of such a text are determined by it. */
  lemma HashSeparates(x: string, a: string, y: string, b: string)
    requires '#' !in a && '#' !in b && x + "#" + a == y + "#" + b
    ensures x == y && a == b
  {
    HashFreeTail(x, a);
    HashFreeTail(y, b);
    assert (x + "#" + a)[..|x|] == x && (y + "#" + b)[..|x|] == y;
  }

  function AfterFirstHash(s: string): string {
    if s == "" then "" else if s[0] == '#' then s[1..] else AfterFirstHash(s[1..])
  }

  /** What follows a head without a hash sign is found again behind the first one. */
  lemma {:induction false} HashFreeHead(x: string, rest: string)
    requires '#' !in x
    ensures AfterFirstHash(x + "#" + rest) == rest
    decreases |x|
  {
    if x == "" {
      assert (x + "#" + rest)[1..] == rest;
    } else {
      assert x == [x[0]] + x[1..];
      HashFreeHead(x[1..], rest);
      assert (x + "#" + rest)[1..] == x[1..] + "#" + rest;
    }
  }
}
