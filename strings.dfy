/** String helpers shared by the formatter and the client: Python's str.split on one
    separator character and a substring test (str.find(...) != -1). */
module Strings {

  /** s.split(sep) for a one-character separator: the pieces between separators, in order. */
  function Split(s: string, sep: char): (r: seq<string>)
    ensures |r| >= 1
    ensures sep !in s ==> r == [s]
    decreases |s|
  {
    if s == [] then [""]
    else if s[0] == sep then [""] + Split(s[1..], sep)
    else
      var rest := Split(s[1..], sep);
      assert sep !in s ==> [s[0]] + s[1..] == s;
      [[s[0]] + rest[0]] + rest[1..]
  }

  /** Splitting `a + [sep] + b` cuts at the separator when `a` holds none. */
  lemma {:induction false} SplitJoin(a: string, sep: char, b: string)
    requires sep !in a
    ensures Split(a + [sep] + b, sep) == [a] + Split(b, sep)
    decreases |a|
  {
    if a == [] {
      assert a + [sep] + b == [sep] + b;
      assert ([sep] + b)[1..] == b;
    } else {
      var s := a + [sep] + b;
      assert s[0] == a[0] && s[0] != sep;
      assert s[1..] == a[1..] + [sep] + b;
      SplitJoin(a[1..], sep, b);
      assert [a[0]] + a[1..] == a;
    }
  }

  /** Three pieces joined by a separator none of them holds split back into the three. */
  lemma SplitThree(a: string, b: string, c: string, sep: char)
    requires sep !in a && sep !in b && sep !in c
    ensures Split(a + [sep] + b + [sep] + c, sep) == [a, b, c]
  {
    var bc := b + [sep] + c;
    assert a + [sep] + b + [sep] + c == a + [sep] + bc;
    SplitJoin(b, sep, c);
    assert Split(bc, sep) == [b, c];
    SplitJoin(a, sep, bc);
    assert Split(a + [sep] + bc, sep) == [a] + [b, c];
  }

  /** Four pieces joined by a separator none of them holds split back into the four. */
  lemma SplitFour(a: string, b: string, c: string, d: string, sep: char)
    requires sep !in a && sep !in b && sep !in c && sep !in d
    ensures Split(a + [sep] + b + [sep] + c + [sep] + d, sep) == [a, b, c, d]
  {
    var cd := c + [sep] + d;
    var bcd := b + [sep] + cd;
    assert a + [sep] + b + [sep] + c + [sep] + d == a + [sep] + bcd;
    SplitJoin(c, sep, d);
    assert Split(cd, sep) == [c, d];
    SplitJoin(b, sep, cd);
    assert Split(bcd, sep) == [b, c, d];
    SplitJoin(a, sep, bcd);
    assert Split(a + [sep] + bcd, sep) == [a] + [b, c, d];
  }

  /** t occurs in s at position i. */
  predicate OccursAt(s: string, t: string, i: int)
  {
    0 <= i && i + |t| <= |s| && s[i..i + |t|] == t
  }

  /** s.find(t) != -1 */
  predicate Contains(s: string, t: string)
  {
    exists i :: 0 <= i <= |s| && OccursAt(s, t, i)
  }
}
