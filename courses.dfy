/** The course record of studicli.py: a dictionary from course id to display name, kept as
    a sequence of (id, name) pairs with unique ids in the fixed order in which the
    dictionary's keys() list them; the cache envelope it is persisted in; how it is filled
    from the course overview page; and the courselist action's line format and selection. */
module Courses {
  import opened Wrappers
  import opened Strings
  import Utils

  datatype Course = Course(id: string, name: string)

  /** Position k of the sequence is position k of courses.keys(). */
  type CourseList = seq<Course>

  /** The persisted cache record {"courses": ..., "user": ...} (studicli.py:83, 108). */
  datatype Envelope = Envelope(courses: CourseList, user: string)

  /** What loadCache returns for an empty cache file (studicli.py:83). */
  const EmptyEnvelope: Envelope := Envelope([], "")

  /** courses.get(id): the name stored under id. */
  function Lookup(cs: CourseList, id: string): Option<string>
  {
    if cs == [] then None
    else if cs[0].id == id then Some(cs[0].name)
    else Lookup(cs[1..], id)
  }

  /** No id occurs twice, as in a dictionary. */
  predicate UniqueIds(cs: CourseList)
  {
    cs == [] || (Lookup(cs[1..], cs[0].id).None? && UniqueIds(cs[1..]))
  }

  lemma LookupFound(cs: CourseList, k: nat)
    requires UniqueIds(cs) && k < |cs|
    ensures Lookup(cs, cs[k].id) == Some(cs[k].name)
  {
    if k > 0 {
      LookupFound(cs[1..], k - 1);
      assert cs[1..][k - 1] == cs[k];
    }
  }

  /** courses[id] = name: overwrite the entry of an existing id in place, or append a new one. */
  function Put(cs: CourseList, id: string, name: string): (r: CourseList)
    ensures |r| == if Lookup(cs, id).Some? then |cs| else |cs| + 1
    ensures forall k :: Lookup(r, k) == if k == id then Some(name) else Lookup(cs, k)
    ensures UniqueIds(cs) ==> UniqueIds(r)
    decreases |cs|
  {
    if cs == [] then [Course(id, name)]
    else if cs[0].id == id then [Course(id, name)] + cs[1..]
    else [cs[0]] + Put(cs[1..], id, name)
  }

  /** A course anchor of the overview page: its href and the text of its first font child
      (None when that text is missing). */
  datatype CourseLink = CourseLink(href: string, name: Option<string>)

  /** The href prefix that is stripped off to obtain the course id (studicli.py:104). */
  const LinkPrefix: string := "seminar_main.php?auswahl="

  /** Python's s.replace(p, ""): every occurrence of p removed, scanning left to right. */
  function RemoveAll(s: string, p: string): (r: string)
    requires p != []
    ensures |r| <= |s|
    decreases |s|
  {
    if |s| < |p| then s
    else if s[..|p|] == p then RemoveAll(s[|p|..], p)
    else [s[0]] + RemoveAll(s[1..], p)
  }

  lemma {:induction false} RemoveAllAbsent(s: string, p: string)
    requires p != []
    requires forall i :: 0 <= i <= |s| ==> !OccursAt(s, p, i)
    ensures RemoveAll(s, p) == s
    decreases |s|
  {
    if |s| >= |p| {
      assert !OccursAt(s, p, 0);
      forall i | 0 <= i <= |s[1..]| ensures !OccursAt(s[1..], p, i) {
        assert !OccursAt(s, p, i + 1);
        if i + |p| <= |s[1..]| {
          assert s[1..][i..i + |p|] == s[i + 1..i + 1 + |p|];
        }
      }
      RemoveAllAbsent(s[1..], p);
      assert [s[0]] + s[1..] == s;
    }
  }

  /** The course id of an anchor (studicli.py:104). */
  function CourseIdOf(href: string): string
  {
    RemoveAll(href, LinkPrefix)
  }

  /** An anchor to seminar_main.php?auswahl=<id> yields <id> itself, provided the id does not
      itself contain the prefix. */
  lemma CourseIdOfLink(id: string)
    requires forall i :: 0 <= i <= |id| ==> !OccursAt(id, LinkPrefix, i)
    ensures CourseIdOf(LinkPrefix + id) == id
  {
    var s := LinkPrefix + id;
    assert s[..|LinkPrefix|] == LinkPrefix;
    assert s[|LinkPrefix|..] == id;
    RemoveAllAbsent(id, LinkPrefix);
  }

  /** Whitespace as unicode.strip() removes it in Python 2.7: tab, newline, vertical tab, form
      feed, return, the separators 0x1c-0x1f, space, next line, no-break space, and the Unicode
      spaces and line/paragraph separators. For an ASCII name, which .text() may return as a
      byte string, this is the same set as str.strip() removes. */
  predicate IsSpace(c: char)
  {
    var n := c as int;
    (9 <= n <= 13) || (0x1c <= n <= 0x20) || n == 0x85 || n == 0xa0 || n == 0x1680
    || n == 0x180e || (0x2000 <= n <= 0x200a) || n == 0x2028 || n == 0x2029 || n == 0x202f
    || n == 0x205f || n == 0x3000
  }

  function StripLeft(s: string): (r: string)
    ensures |r| <= |s| && r == s[|s| - |r|..]
    ensures forall i :: 0 <= i < |s| - |r| ==> IsSpace(s[i])
    ensures r != [] ==> !IsSpace(r[0])
  {
    if s != [] && IsSpace(s[0]) then StripLeft(s[1..]) else s
  }

  function StripRight(s: string): (r: string)
    ensures |r| <= |s| && r == s[..|r|]
    ensures forall i :: |r| <= i < |s| ==> IsSpace(s[i])
    ensures r != [] ==> !IsSpace(r[|r| - 1])
  {
    if s != [] && IsSpace(s[|s| - 1]) then StripRight(s[..|s| - 1]) else s
  }

  /** Python's s.strip(): s without leading and trailing whitespace. */
  function Strip(s: string): (r: string)
    ensures |r| <= |s|
    ensures r != [] ==> !IsSpace(r[0]) && !IsSpace(r[|r| - 1])
    ensures (forall i :: 0 <= i < |s| ==> !IsSpace(s[i])) ==> r == s
  {
    StripRight(StripLeft(s))
  }

  /** What the dictionary holds under id after addCourse has run over `links`: the stripped
      name of the last anchor with a name and that id. */
  function LastName(links: seq<CourseLink>, id: string): Option<string>
  {
    if links == [] then None
    else
      var l := links[|links| - 1];
      if l.name.Some? && CourseIdOf(l.href) == id then Some(Strip(l.name.value))
      else LastName(links[..|links| - 1], id)
  }

  /** cs is what the course dictionary holds after addCourse ran over `links`. */
  ghost predicate CollectedFrom(cs: CourseList, links: seq<CourseLink>)
  {
    UniqueIds(cs) && forall id :: Lookup(cs, id) == LastName(links, id)
  }

  /** courseLinks.each(addCourse) (studicli.py:99-106): each anchor whose name is present
      stores its stripped name under its id; a repeated id overwrites the earlier name. */
  method CollectCourses(links: seq<CourseLink>) returns (cs: CourseList)
    ensures UniqueIds(cs)
    ensures forall id :: Lookup(cs, id) == LastName(links, id)
    ensures CollectedFrom(cs, links)
  {
    cs := [];
    for i := 0 to |links|
      invariant UniqueIds(cs)
      invariant forall id :: Lookup(cs, id) == LastName(links[..i], id)
    {
      assert links[..i + 1][..i] == links[..i];
      var link := links[i];
      if link.name.Some? {
        cs := Put(cs, CourseIdOf(link.href), Strip(link.name.value));
      }
    }
    assert links[..|links|] == links;
  }

  // ---- the courselist action's listing (studicli.py:163-169) ----

  predicate IsDigit(c: char)
  {
    '0' <= c <= '9'
  }

  /** str(n) for a non-negative integer. */
  function Decimal(n: nat): (r: string)
    ensures |r| >= 1
    ensures forall i :: 0 <= i < |r| ==> IsDigit(r[i])
  {
    if n < 10 then ["0123456789"[n]]
    else Decimal(n / 10) + ["0123456789"[n % 10]]
  }

  /** int(s) for a string of digits. */
  function DecimalValue(s: string): nat
    requires forall i :: 0 <= i < |s| ==> IsDigit(s[i])
  {
    if s == [] then 0
    else
      assert IsDigit(s[|s| - 1]);
      DecimalValue(s[..|s| - 1]) * 10 + (s[|s| - 1] as int - '0' as int)
  }

  lemma {:induction false} DecimalRoundTrip(n: nat)
    ensures DecimalValue(Decimal(n)) == n
  {
    var d := Decimal(n);
    if n >= 10 {
      assert d[..|d| - 1] == Decimal(n / 10);
      DecimalRoundTrip(n / 10);
    }
  }

  /** The longest prefix of s made of digits. */
  function DigitRun(s: string): (r: string)
    ensures |r| <= |s| && r == s[..|r|]
    ensures forall i :: 0 <= i < |r| ==> IsDigit(r[i])
    ensures |r| < |s| ==> !IsDigit(s[|r|])
  {
    if s != [] && IsDigit(s[0]) then [s[0]] + DigitRun(s[1..]) else []
  }

  lemma {:induction false} DigitRunStops(d: string, t: string)
    requires forall i :: 0 <= i < |d| ==> IsDigit(d[i])
    requires t != [] && !IsDigit(t[0])
    ensures DigitRun(d + t) == d
    decreases |d|
  {
    if d == [] {
      assert d + t == t;
    } else {
      assert (d + t)[1..] == d[1..] + t;
      DigitRunStops(d[1..], t);
      assert [d[0]] + d[1..] == d;
    }
  }

  /** One printed line of the course list: "[i]  name" when indexed, the bare name otherwise. */
  function CourseLine(i: nat, name: string, indexed: bool): string
  {
    if indexed then "[" + Decimal(i) + "]  " + name else name
  }

  /** The lines courselist prints, one per course in keys() order. */
  function CourseLines(cs: CourseList, indexed: bool): seq<string>
  {
    seq(|cs|, i requires 0 <= i < |cs| => CourseLine(i, cs[i].name, indexed))
  }

  /** Reads an indexed line back into its index and name. */
  function ParseCourseLine(line: string): Option<(nat, string)>
  {
    if line == [] || line[0] != '[' then None
    else
      var digits := DigitRun(line[1..]);
      var rest := line[1 + |digits|..];
      if digits == [] || |rest| < 3 || rest[..3] != "]  " then None
      else Some((DecimalValue(digits), rest[3..]))
  }

  /** Line i of the indexed listing names course i and its index, which is what the index
      later typed at the selection prompt refers to; the plain listing is the names alone. */
  lemma CourseLinesRoundTrip(cs: CourseList, i: nat)
    requires i < |cs|
    ensures |CourseLines(cs, true)| == |cs|
    ensures ParseCourseLine(CourseLines(cs, true)[i]) == Some((i, cs[i].name))
    ensures CourseLines(cs, false)[i] == cs[i].name
  {
    var line := CourseLines(cs, true)[i];
    var d := Decimal(i);
    assert line == "[" + d + "]  " + cs[i].name;
    assert line[1..] == d + ("]  " + cs[i].name);
    DigitRunStops(d, "]  " + cs[i].name);
    assert line[1 + |d|..] == "]  " + cs[i].name;
    DecimalRoundTrip(i);
  }

  // ---- the courselist action's selection (studicli.py:172-174) ----

  datatype SelectError = InputEnded | IndexError

  /** courselist(standalone=True) as written: the prompt accepts 0 .. len(courses), then
      keys()[courseId] is taken, which fails for the index len(courses). */
  method StandaloneCourseAsWritten(courses: CourseList, inputs: seq<Option<int>>)
      returns (r: Result<Course, SelectError>)
    ensures r == Failure(InputEnded) <==> forall j :: 0 <= j < |inputs| ==> !Utils.Accepts(inputs[j], |courses|)
    ensures r == Failure(IndexError) <==>
      exists n :: Utils.FirstAccepted(inputs, |courses|, n) && inputs[n - 1] == Some(|courses|)
    ensures r.Success? ==> exists n ::
      (Utils.FirstAccepted(inputs, |courses|, n) && inputs[n - 1].value < |courses|
       && r.value == courses[inputs[n - 1].value])
    ensures inputs != [] && inputs[0] == Some(|courses|) ==> r == Failure(IndexError)
  {
    var id, n := Utils.SelectId(inputs, |courses|);
    if id.None? {
      return Failure(InputEnded);
    }
    assert Utils.FirstAccepted(inputs, |courses|, n);
    Utils.FirstAcceptedUnique(inputs, |courses|, n);
    if id.value < |courses| {
      return Success(courses[id.value]);
    }
    return Failure(IndexError);
  }

  /** The n-th input is the first one the prompt bounded by len(courses) - 1 accepts, and c is
      the course it indexes. */
  predicate PicksFirst(courses: CourseList, inputs: seq<Option<int>>, n: int, c: Course)
  {
    Utils.FirstAccepted(inputs, |courses| - 1, n) && c == courses[inputs[n - 1].value]
  }

  /** The same selection with the bound the other actions use (len(courses) - 1): the course
      of the first accepted index is taken, every accepted index names a course, and the only
      failure left is running out of input. */
  method StandaloneCourse(courses: CourseList, inputs: seq<Option<int>>)
      returns (r: Result<Course, SelectError>)
    ensures r.Failure? ==> r.error == InputEnded
    ensures r.Failure? <==> forall j :: 0 <= j < |inputs| ==> !Utils.Accepts(inputs[j], |courses| - 1)
    ensures r.Success? ==> exists n :: PicksFirst(courses, inputs, n, r.value)
    ensures courses == [] ==> r == Failure(InputEnded)
  {
    var id, n := Utils.SelectId(inputs, |courses| - 1);
    if id.None? {
      return Failure(InputEnded);
    }
    assert PicksFirst(courses, inputs, n, courses[id.value]);
    return Success(courses[id.value]);
  }
}
