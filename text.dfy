/** Facts about splitting text at a separator, used to show that the
    rendered track and query texts determine the fields they were built from. */
module Text {

  /** Two texts that agree after the same prefix agree. */
  lemma PrefixCancel(p: string, a: string, b: string)
    requires p + a == p + b
    ensures a == b
  {
    assert a == (p + a)[|p|..];
    assert b == (p + b)[|p|..];
  }

  /** Two texts that agree before the same suffix agree. */
  lemma SuffixCancel(a: string, b: string, p: string)
    requires a + p == b + p
    ensures a == b
  {
    assert a == (a + p)[..|a|];
    assert b == (b + p)[..|b|];
  }

  /** Splitting at the first occurrence of `c` is unambiguous: if the part
      before `c` cannot itself contain `c`, both parts are determined. */
  lemma SplitAt(c: char, x: string, y: string, x2: string, y2: string)
    requires c !in x && c !in x2
    requires x + [c] + y == x2 + [c] + y2
    ensures x == x2 && y == y2
  {
    var s := x + [c] + y;
    SeparatorAt(c, x, y);
    SeparatorAt(c, x2, y2);
    if |x| < |x2| {
      assert false;
    } else if |x2| < |x| {
      assert false;
    }
    assert x == s[..|x|] && x2 == s[..|x2|];
    assert y == s[|x| + 1..] && y2 == s[|x2| + 1..];
  }

  lemma SeparatorAt(c: char, x: string, y: string)
    ensures (x + [c] + y)[|x|] == c
    ensures forall i :: 0 <= i < |x| ==> (x + [c] + y)[i] == x[i]
  {
  }
}
