/** The helpers of utils.py: the query-string value extractor and the bounded index prompt. */
module Utils {
  import opened Wrappers

  /** The regular-expression class \w for byte strings: ASCII letters, digits and '_'. */
  predicate IsWordChar(c: char)
  {
    'a' <= c <= 'z' || 'A' <= c <= 'Z' || '0' <= c <= '9' || c == '_'
  }

  /** The longest prefix of s made of word characters (what a greedy \w+ takes). */
  function WordRun(s: string): (r: string)
    ensures |r| <= |s| && r == s[..|r|]
    ensures forall i :: 0 <= i < |r| ==> IsWordChar(r[i])
    ensures |r| < |s| ==> !IsWordChar(s[|r|])
  {
    if s != [] && IsWordChar(s[0]) then [s[0]] + WordRun(s[1..]) else []
  }

  /** The pattern key(\w+) matches q starting at position i: key occurs there and at least
      one word character follows it. */
  predicate MatchAt(q: string, key: string, i: int)
  {
    0 <= i && i + |key| < |q| && q[i..i + |key|] == key && IsWordChar(q[i + |key|])
  }

  /** The leftmost position at or after `from` where MatchAt holds. */
  function FirstMatch(q: string, key: string, from: nat): (r: Option<nat>)
    requires from <= |q|
    ensures r.Some? ==> (from <= r.value && MatchAt(q, key, r.value)
      && forall j :: from <= j < r.value ==> !MatchAt(q, key, j))
    ensures r.None? ==> forall j :: from <= j < |q| ==> !MatchAt(q, key, j)
    decreases |q| - from
  {
    if from == |q| then None
    else if MatchAt(q, key, from) then Some(from)
    else FirstMatch(q, key, from + 1)
  }

  /** i is the leftmost match of attr(\w+) in q and value is the run of word characters it captures. */
  predicate LeftmostValue(q: string, attr: string, value: string, i: int)
  {
    0 <= i < |q| && MatchAt(q, attr + "=", i)
    && (forall j :: 0 <= j < i ==> !MatchAt(q, attr + "=", j))
    && value == WordRun(q[i + |attr| + 1..])
  }

  /** fromQueryString (utils.py:14-19): the word-character run after the leftmost "attr="
      that is followed by one, or "" when there is none or the query is missing (None). */
  function FromQueryString(query: Option<string>, attr: string): (r: string)
    ensures query.None? ==> r == ""
    ensures query.Some? ==>
      (r == "" <==> forall i :: 0 <= i < |query.value| ==> !MatchAt(query.value, attr + "=", i))
    ensures r != "" ==> exists i :: LeftmostValue(query.value, attr, r, i)
  {
    match query
    case None => ""
    case Some(q) =>
      match FirstMatch(q, attr + "=", 0)
      case None => ""
      case Some(i) =>
        assert LeftmostValue(q, attr, WordRun(q[i + |attr| + 1..]), i);
        WordRun(q[i + |attr| + 1..])
  }

  /** `attr=value` occurs in q at position i and no word character follows it. */
  predicate ValueAt(q: string, attr: string, value: string, i: int)
  {
    0 <= i && i + |attr| + 1 + |value| <= |q|
    && q[i..i + |attr| + 1 + |value|] == attr + "=" + value
    && (i + |attr| + 1 + |value| < |q| ==> !IsWordChar(q[i + |attr| + 1 + |value|]))
  }

  /** Where attr(\w+) matches, "attr=" and the captured run sit side by side in q. */
  lemma ValueAfterMatch(q: string, attr: string, i: int)
    requires MatchAt(q, attr + "=", i)
    ensures ValueAt(q, attr, WordRun(q[i + |attr| + 1..]), i)
  {
    var n := |attr| + 1;
    var tail := q[i + n..];
    var r := WordRun(tail);
    var j := i + n + |r|;
    assert q[i..j] == q[i..i + n] + q[i + n..j];
    assert q[i + n..j] == tail[..|r|];
    assert q[i..i + n] == attr + "=";
    assert j < |q| ==> q[j] == tail[|r|];
  }

  /** A non-empty value is a run of word characters, sits in the query right after "attr=",
      and is not followed by another word character. */
  lemma FromQueryStringShape(q: string, attr: string)
    requires FromQueryString(Some(q), attr) != ""
    ensures var r := FromQueryString(Some(q), attr);
      (forall k :: 0 <= k < |r| ==> IsWordChar(r[k]))
      && exists i :: ValueAt(q, attr, r, i)
  {
    var r := FromQueryString(Some(q), attr);
    var i :| LeftmostValue(q, attr, r, i);
    ValueAfterMatch(q, attr, i);
    assert ValueAt(q, attr, r, i);
  }

  /** An input the prompt accepts: a number between 0 and max (utils.py:27-28). None stands
      for a line that int() rejects. */
  predicate Accepts(input: Option<int>, max: int)
  {
    input.Some? && 0 <= input.value <= max
  }

  /** The n-th input is the first one the prompt accepts. */
  predicate FirstAccepted(inputs: seq<Option<int>>, max: int, n: int)
  {
    0 < n <= |inputs| && Accepts(inputs[n - 1], max)
    && forall j :: 0 <= j < n - 1 ==> !Accepts(inputs[j], max)
  }

  /** At most one input is the first accepted one. */
  lemma FirstAcceptedUnique(inputs: seq<Option<int>>, max: int, n: int)
    requires FirstAccepted(inputs, max, n)
    ensures forall m :: FirstAccepted(inputs, max, m) ==> m == n
  {
  }

  /** selectId (utils.py:21-34): read inputs until one is a number in [0, max] and return it.
      `consumed` is how many inputs were read; None means the inputs ran out first, where
      raw_input raises EOFError. */
  method SelectId(inputs: seq<Option<int>>, max: int) returns (id: Option<int>, consumed: nat)
    ensures consumed <= |inputs|
    ensures id.Some? ==> 0 < consumed && inputs[consumed - 1] == id && 0 <= id.value <= max
    ensures id.None? ==> consumed == |inputs|
    ensures forall j :: 0 <= j < consumed - (if id.Some? then 1 else 0) ==> !Accepts(inputs[j], max)
    ensures id.Some? ==> FirstAccepted(inputs, max, consumed)
    ensures max < 0 ==> id.None?
    ensures 0 <= max && inputs != [] && inputs[0] in {Some(0), Some(max)} ==> id == inputs[0]
  {
    var success := false;
    consumed := 0;
    id := None;
    while !success
      invariant consumed <= |inputs|
      invariant forall j :: 0 <= j < consumed - (if success then 1 else 0) ==> !Accepts(inputs[j], max)
      invariant success ==> 0 < consumed && inputs[consumed - 1] == id && Accepts(id, max)
      invariant !success ==> id.None?
      decreases |inputs| - consumed, if success then 0 else 1
    {
      if consumed == |inputs| {
        return;
      }
      var input := inputs[consumed];
      consumed := consumed + 1;
      if input.None? {
        continue;
      }
      if input.value > max || input.value < 0 {
        continue;
      }
      id := input;
      success := true;
    }
  }
}
