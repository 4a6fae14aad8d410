/** Taking concatenated strings apart. */
module Texts {
  import opened Options

  lemma {:induction false} SplitOnce(p: string, q: string, x: string, y: string, c: char)
    requires c !in p && c !in q && p + [c] + x == q + [c] + y
    ensures p == q && x == y
  {
    var s := p + [c] + x;
    assert s[|p|] == c && s[|q|] == (q + [c] + y)[|q|] == c;
    assert forall k: nat :: k < |p| ==> s[k] == p[k] && s[k] != c;
    assert forall k: nat :: k < |q| ==> s[k] == q[k] && s[k] != c;
    assert p == s[..|p|] && q == s[..|q|];
    assert x == s[|p| + 1..] && y == s[|q| + 1..];
  }

  lemma {:induction false} SameAfter(head: string, x: string, y: string)
    requires head + x == head + y
    ensures x == y
  {
    assert x == (head + x)[|head|..] && y == (head + y)[|head|..];
  }

  /** A part that may be absent, behind a separator. */
  function Optional(part: Option<string>, c: char): string
  {
    if part.Some? then [c] + part.value else ""
  }

  lemma {:induction false} NoneInside(a: string, rest: string, b: string, c: char)
    requires c !in b
    ensures a + ([c] + rest) != b
  {
    assert (a + ([c] + rest))[|a|] == c;
  }

  lemma {:induction false} SplitOptional(p: string, q: string, x: Option<string>, y: Option<string>, c: char)
    requires c !in p && c !in q && p + Optional(x, c) == q + Optional(y, c)
    ensures p == q && x == y
  {
    assert p + "" == p && q + "" == q;
    if x.Some? && y.Some? {
      assert p + [c] + x.value == p + ([c] + x.value) && q + [c] + y.value == q + ([c] + y.value);
      SplitOnce(p, q, x.value, y.value, c);
    } else if x.Some? {
      NoneInside(p, x.value, q, c);
    } else if y.Some? {
      NoneInside(q, y.value, p, c);
    }
  }
}
