/** The parts of StudICLI's actions that decide something once the pages are scraped:
    timetable's weekday buckets, readposts' pairing of table cells, and writemessage's body
    loop and form string. Scraped values and terminal lines come in as parameters. */
module Actions {
  import opened Wrappers
  import opened Strings

  // ---- timetable (studicli.py:183-214) ----

  /** The three texts of one schedule cell: time and room, the event title, the teacher. */
  datatype Event = Event(timeAndRoom: string, title: string, teacher: string)

  /** A schedule cell and the number of its preceding siblings (len(course.prevAll())). */
  datatype Cell = Cell(event: Event, preceding: nat)

  datatype TimetableError = IndexError

  /** Python's xs[k] on a list of length n: a valid index, counted from the end when negative. */
  function PyIndex(k: int, n: nat): Option<nat>
  {
    if 0 <= k < n then Some(k) else if k < 0 && k + n >= 0 then Some(k + n) else None
  }

  /** The bucket days[len(prevAll) - 1] that a cell is appended to (studicli.py:199-200). */
  function DayOf(c: Cell): (r: Option<nat>)
    ensures r.Some? ==> r.value < 7
    ensures c.preceding == 0 ==> r == Some(6)
    ensures 1 <= c.preceding <= 7 ==> r == Some(c.preceding - 1)
    ensures c.preceding > 7 ==> r.None?
  {
    PyIndex(c.preceding - 1, 7)
  }

  /** The events of `cells` that land on day d, in document order. */
  function Bucket(cells: seq<Cell>, d: nat): seq<Event>
  {
    if cells == [] then []
    else
      var last := cells[|cells| - 1];
      Bucket(cells[..|cells| - 1], d) + (if DayOf(last) == Some(d) then [last.event] else [])
  }

  /** timetable's bucketing loop: seven lists, one per weekday; a cell with more than seven
      preceding siblings makes days[...] raise IndexError. */
  method Timetable(cells: seq<Cell>) returns (r: Result<seq<seq<Event>>, TimetableError>)
    ensures r.Failure? <==> exists i :: 0 <= i < |cells| && DayOf(cells[i]).None?
    ensures r.Success? ==> |r.value| == 7 && forall d :: 0 <= d < 7 ==> r.value[d] == Bucket(cells, d)
  {
    var days: seq<seq<Event>> := [[], [], [], [], [], [], []];
    for i := 0 to |cells|
      invariant |days| == 7
      invariant forall d :: 0 <= d < 7 ==> days[d] == Bucket(cells[..i], d)
      invariant forall j :: 0 <= j < i ==> DayOf(cells[j]).Some?
    {
      assert cells[..i + 1][..i] == cells[..i];
      var day := DayOf(cells[i]);
      if day.None? {
        return Failure(IndexError);
      }
      days := days[day.value := days[day.value] + [cells[i].event]];
    }
    assert cells[..|cells|] == cells;
    return Success(days);
  }

  /** Bucketing a concatenation buckets each part: entries of one day keep document order. */
  lemma {:induction false} BucketAppend(a: seq<Cell>, b: seq<Cell>, d: nat)
    ensures Bucket(a + b, d) == Bucket(a, d) + Bucket(b, d)
    decreases |b|
  {
    if b != [] {
      var b' := b[..|b| - 1];
      assert (a + b)[..|a + b| - 1] == a + b';
      assert (a + b)[|a + b| - 1] == b[|b| - 1];
      BucketAppend(a, b', d);
    } else {
      assert a + b == a;
    }
  }

  /** The number of entries over the days 0 .. k - 1. */
  function CountUpTo(cells: seq<Cell>, k: nat): nat
  {
    if k == 0 then 0 else CountUpTo(cells, k - 1) + |Bucket(cells, k - 1)|
  }

  lemma {:induction false} CountUpToStep(cells: seq<Cell>, c: Cell, k: nat)
    requires k <= 7 && DayOf(c).Some?
    ensures CountUpTo(cells + [c], k) == CountUpTo(cells, k) + (if DayOf(c).value < k then 1 else 0)
  {
    var s := cells + [c];
    assert s[..|s| - 1] == cells && s[|s| - 1] == c;
    if k > 0 {
      CountUpToStep(cells, c, k - 1);
    }
  }

  /** When no cell fails, every cell lands in exactly one of the seven days. */
  lemma {:induction false} TimetableCount(cells: seq<Cell>)
    requires forall i :: 0 <= i < |cells| ==> DayOf(cells[i]).Some?
    ensures CountUpTo(cells, 7) == |cells|
    decreases |cells|
  {
    if cells == [] {
      assert CountUpTo(cells, 7) == 0 by {
        forall k: nat | k <= 7 ensures CountUpTo(cells, k) == 0 {
          ZeroCount(k);
        }
      }
    } else {
      var init := cells[..|cells| - 1];
      TimetableCount(init);
      assert init + [cells[|cells| - 1]] == cells;
      CountUpToStep(init, cells[|cells| - 1], 7);
    }
  }

  lemma {:induction false} ZeroCount(k: nat)
    ensures CountUpTo([], k) == 0
  {
    if k > 0 {
      ZeroCount(k - 1);
    }
  }

  // ---- readposts (studicli.py:283-302) ----

  /** [x for x in range(lo, hi) if x % 2 == 0] */
  function EvenRange(lo: nat, hi: int): (r: seq<nat>)
    ensures forall x :: x in r <==> lo <= x < hi && x % 2 == 0
    ensures forall i, j :: 0 <= i < j < |r| ==> r[i] < r[j]
    ensures forall i :: 0 <= i < |r| ==> lo <= r[i]
    decreases hi - lo
  {
    if hi <= lo then []
    else (if lo % 2 == 0 then [lo] else []) + EvenRange(lo + 1, hi)
  }

  /** The cell indices readposts treats as thread headers: the even x with x < n - 2. */
  function PostHeads(n: nat): (r: seq<nat>)
    ensures forall x: nat :: x in r <==> x < n - 2 && x % 2 == 0
    ensures forall i :: 0 <= i < |r| ==> r[i] + 1 < n
  {
    var r := EvenRange(0, n - 2);
    assert forall i :: 0 <= i < |r| ==> r[i] in r;
    r
  }

  /** With an even number of cells the last complete pair (n - 2, n - 1) is never read. */
  lemma PostHeadsSkipLastPair(n: nat)
    requires n >= 2 && n % 2 == 0
    ensures n - 2 !in PostHeads(n)
    ensures forall x :: x in PostHeads(n) ==> x + 1 < n - 2
  {
  }

  /** The texts of one table cell: that of its h3 children ("" when none) and its own. */
  datatype PostCell = PostCell(heading: string, text: string)

  datatype PostEntry = ForumHeading(name: string) | ForumPost(head: string, body: string)

  /** What readposts shows for the pair starting at cell x. */
  function EntryAt(cells: seq<PostCell>, x: nat): PostEntry
    requires x + 1 < |cells|
  {
    if cells[x].heading != "" then ForumHeading(cells[x].heading)
    else ForumPost(cells[x].text, cells[x + 1].text)
  }

  /** readposts' loop over one course's forum export: a cell whose h3 text is non-empty is a
      forum heading, any other header cell is a post whose body is the next cell. */
  method ReadPosts(cells: seq<PostCell>) returns (entries: seq<PostEntry>)
    ensures |entries| == |PostHeads(|cells|)|
    ensures forall k :: 0 <= k < |entries| ==> entries[k] == EntryAt(cells, PostHeads(|cells|)[k])
  {
    var heads := PostHeads(|cells|);
    entries := [];
    for k := 0 to |heads|
      invariant |entries| == k
      invariant forall j :: 0 <= j < k ==> entries[j] == EntryAt(cells, heads[j])
    {
      var i := heads[k];
      assert i in heads;
      var forum := cells[i].heading;
      if forum != "" {
        entries := entries + [ForumHeading(forum)];
      } else {
        entries := entries + [ForumPost(cells[i].text, cells[i + 1].text)];
      }
    }
  }

  // ---- writemessage (studicli.py:341-376) ----

  /** The body accumulated from `lines`: each line followed by a newline. */
  function Joined(lines: seq<string>): string
  {
    if lines == [] then "" else Joined(lines[..|lines| - 1]) + lines[|lines| - 1] + "\n"
  }

  /** Lines k - 2 and k - 1 are both empty: the second of two consecutive empty lines is the
      k-th line read. */
  predicate EndsAt(lines: seq<string>, k: int)
  {
    2 <= k <= |lines| && lines[k - 2] == "" && lines[k - 1] == ""
  }

  /** writemessage's body loop (studicli.py:354-365): read lines until two consecutive empty
      ones, keeping every line read. Returns the body and the number of lines read; None when
      the input ends first (raw_input raises EOFError). */
  method ReadBody(lines: seq<string>) returns (r: Option<(string, nat)>)
    ensures r.Some? ==> EndsAt(lines, r.value.1) && r.value.0 == Joined(lines[..r.value.1])
    ensures r.Some? ==> forall k :: 0 <= k < r.value.1 ==> !EndsAt(lines, k)
    ensures r.None? <==> forall k :: 0 <= k <= |lines| ==> !EndsAt(lines, k)
  {
    var body := "";
    var emptyLines := 0;
    var i := 0;
    while emptyLines < 2
      invariant 0 <= i <= |lines|
      invariant body == Joined(lines[..i])
      invariant emptyLines == (if i >= 1 && lines[i - 1] == "" then (if i >= 2 && lines[i - 2] == "" then 2 else 1) else 0)
      invariant forall k :: 0 <= k < i ==> !EndsAt(lines, k)
      decreases |lines| - i, 2 - emptyLines
    {
      if i == |lines| {
        return None;
      }
      var line := lines[i];
      assert lines[..i + 1][..i] == lines[..i];
      i := i + 1;
      body := body + line + "\n";
      if |line| > 0 {
        emptyLines := 0;
      } else {
        emptyLines := emptyLines + 1;
      }
    }
    assert EndsAt(lines, i);
    return Some((body, i));
  }

  /** The body ends with the two newlines of the two empty lines that closed it; the
      discarded body.strip() (studicli.py:366) leaves them in place. */
  lemma BodyEndsWithBlankLines(lines: seq<string>, k: nat)
    requires EndsAt(lines, k)
    ensures var body := Joined(lines[..k]);
      |body| >= 2 && body[|body| - 2..] == "\n\n"
  {
    var pre := lines[..k];
    assert pre[..|pre| - 1] == lines[..k - 1];
    assert lines[..k - 1][..k - 2] == lines[..k - 2];
  }

  /** The form of the message request (studicli.py:367-370): subject, body and the insert
      coordinates, then, for a reply, "answerTo" and the hash with no '&' or '=' between. */
  function MessageForm(subject: string, body: string, answerTo: string): string
  {
    var args := "messagesubject=" + subject + "&" + "message=" + body + "&" + "cmd_insert.x=1" + "&" + "cmd_insert.y=1";
    if |answerTo| > 0 then args + "answerTo" + answerTo else args
  }

  /** Split on '&', the form has exactly four fields; the reply hash is glued onto the value
      of cmd_insert.y, so no field of its own carries it. */
  lemma MessageFormFields(subject: string, body: string, answerTo: string)
    requires '&' !in subject && '&' !in body && '&' !in answerTo
    ensures Split(MessageForm(subject, body, answerTo), '&') ==
      ["messagesubject=" + subject, "message=" + body, "cmd_insert.x=1",
       "cmd_insert.y=1" + (if answerTo == "" then "" else "answerTo" + answerTo)]
  {
    var tail: string := if answerTo == "" then "" else "answerTo" + answerTo;
    var f0 := "messagesubject=" + subject;
    var f1 := "message=" + body;
    var f2 := "cmd_insert.x=1";
    var f3 := "cmd_insert.y=1" + tail;
    assert '&' !in f0 && '&' !in f1 && '&' !in f2 && '&' !in f3;
    assert MessageForm(subject, body, answerTo) == f0 + "&" + f1 + "&" + f2 + "&" + f3;
    SplitFour(f0, f1, f2, f3, '&');
  }

  /** One request sent to the portal: a read() of a path with the empty body, or one with a
      form as body. Both go out as POST requests, since urllib2 treats even the empty body
      as data; the labels only tell the two calls apart. */
  datatype Request = Fetch(path: string) | Post(path: string, form: string)

  datatype WriteOutcome =
    | NotStarted                                  // a recipient was given: nothing is asked or sent
    | Aborted(requests: seq<Request>)             // input ended, or the reply page had no subject
    | Finished(requests: seq<Request>, delivered: bool)

  /** The freesearch request that looks up the recipient (studicli.py:350). */
  function RecipientSearch(recipient: string): Request
  {
    Post("sms_send.php", "&add_freesearch.x=5&add_freesearch.y=11&add_freesearch&freesearch[]=" + recipient)
  }

  /** The marker of a successful send in the response (studicli.py:373). */
  const SentMarker: string := "wurde verschickt!"

  /** The requests of a new message: the recipient search with the first line, then the
      message with the second line as subject and the following lines, up to and including
      two consecutive empty ones, as body. */
  ghost predicate NewMessageRequests(input: seq<string>, requests: seq<Request>)
    requires |input| >= 2
  {
    exists m :: EndsAt(input[2..], m)
      && (forall k :: 0 <= k < m ==> !EndsAt(input[2..], k))
      && requests == [RecipientSearch(input[0]),
                      Post("sms_send.php", MessageForm(input[1], Joined(input[2..][..m]), ""))]
  }

  /** The requests of a reply: the reply page of the message, then the message with the
      page's subject and the lines up to and including two consecutive empty ones as body. */
  ghost predicate ReplyRequests(answerTo: string, subject: string, input: seq<string>, requests: seq<Request>)
  {
    exists m :: EndsAt(input, m)
      && (forall k :: 0 <= k < m ==> !EndsAt(input, k))
      && requests == [Fetch("sms_send.php?cmd=write&answer_to=" + answerTo),
                      Post("sms_send.php", MessageForm(subject, Joined(input[..m]), answerTo))]
  }

  /** writemessage (studicli.py:341-376) with the terminal lines in `input`, the subject found
      on the reply page (None when the page has none: the body is still read, and the
      concatenation at studicli.py:367 then raises a TypeError) and the response body to the
      final POST. */
  method WriteMessage(recipient: string, answerTo: string, input: seq<string>,
                      replySubject: Option<string>, response: string) returns (r: WriteOutcome)
    ensures recipient != "" <==> r == NotStarted
    ensures recipient == "" && answerTo == "" && |input| < 2 ==> r == Aborted([])
    ensures recipient == "" && answerTo == "" && |input| >= 2 ==>
      (r.Finished? <==> exists k :: EndsAt(input[2..], k))
    ensures recipient == "" && answerTo != "" ==>
      (r.Finished? <==> replySubject.Some? && exists k :: EndsAt(input, k))
    ensures r.Finished? ==> recipient == "" && r.delivered == Contains(response, SentMarker)
    ensures r.Finished? && answerTo == "" ==> |input| >= 2 && NewMessageRequests(input, r.requests)
    ensures r.Finished? && answerTo != "" ==>
      replySubject.Some? && ReplyRequests(answerTo, replySubject.value, input, r.requests)
    ensures r.Aborted? && answerTo == "" && |input| >= 2 ==> r.requests == [RecipientSearch(input[0])]
    ensures r.Aborted? && answerTo != "" ==> r.requests == [Fetch("sms_send.php?cmd=write&answer_to=" + answerTo)]
  {
    if recipient != "" {
      return NotStarted;
    }
    var requests: seq<Request>;
    var subject: Option<string>;
    var lines: seq<string>;
    if |answerTo| == 0 {
      if |input| < 2 {
        return Aborted([]);
      }
      var who := input[0];
      subject := Some(input[1]);
      requests := [RecipientSearch(who)];
      lines := input[2..];
    } else {
      requests := [Fetch("sms_send.php?cmd=write&answer_to=" + answerTo)];
      subject := replySubject;
      lines := input;
    }
    var body := ReadBody(lines);
    if body.None? || subject.None? {
      return Aborted(requests);
    }
    var args := MessageForm(subject.value, body.value.0, answerTo);
    requests := requests + [Post("sms_send.php", args)];
    var n := body.value.1;
    if |answerTo| == 0 {
      assert NewMessageRequests(input, requests) by {
        assert EndsAt(input[2..], n);
      }
    } else {
      assert ReplyRequests(answerTo, subject.value, input, requests) by {
        assert EndsAt(input, n);
      }
    }
    return Finished(requests, Contains(response, SentMarker));
  }
}
