# StudICLI core in Dafny

StudICLI is a command-line client for the Stud.IP course portal of the University of
Passau. This project models the parts of the client that decide what happens, with the
portal's responses taken as given inputs:

- the terminal formatter `ASCIIOutput`: `trim`, `h1`, `h2`, `h3` and `hr`;
- the helpers `fromQueryString` and `selectId`;
- the client object's course cache: `__init__`, `loadCache`, `initCookies`, `loadCourses`
  and `login`;
- the listing and selection lines of `courselist`;
- the weekday bucketing of `timetable`;
- the cell pairing of `readposts`;
- the body loop, form and requests of `writemessage`;
- the top-level driver: the login-retry loop and the dispatch on `--action`.

Modules, one per concern:

- `Wrappers` holds `Option` and `Result`.
- `Strings` splits a string on a one-character separator and tests for a substring.
- `Ascii` is the formatter, on returned strings.
- `Utils` holds `fromQueryString`, as the leftmost greedy match of the pattern `attr=(\w+)`, and `selectId`, as a loop over the typed lines.
- `Courses` holds the course dictionary, its pickled envelope, the anchor scraper, the listing lines and the standalone selection.
- `Actions` holds `timetable`, `readposts` and `writemessage`.
- `Client` holds the `StudICLI` class, the login rule and the dispatch.

How the model stands in for things it cannot run:

- **Course dictionary.** Python's course dictionary becomes a sequence of `(id, name)`
  pairs with distinct ids, in insertion order. Assigning to an existing key keeps its
  position, as a dict does.
- **Files.** The two files `.courses.tmp` and `.cookies.lwp` become fields of the class:
  - the envelope `{courses, user}` pickled in the course file, `None` while the file is empty;
  - whether the cookie file is empty.
- **The portal.**
  - each answer of `isLoggedIn` is a parameter `checks(k)`, for the k-th call;
  - the login ticket of the k-th login is `tickets(k)`;
  - the anchors of the course overview page are given as a list of links;
  - lines typed at a prompt are sequences of strings;
  - a line that `int()` rejects is `None`.
- **Failures.** When input ends, Python raises `EOFError` and the model reports the end
  of input. An `IndexError` is reported as an error value.

Where the code and its description disagree, the model follows the code:

- **The last dispatch branch.** It tests `action in ["writemessage", "rm"]`
  (studicli.py:431). "rm" is taken by the branch before it, so `writemessage` runs for
  "writemessage" only, and "wm" reaches no branch at all (`Client.Dispatch`).
- **Repeated loading.** `loadCourses` never updates `self.cache`. So, when the cache was
  empty at start-up, every call reads the course overview page again and rewrites the
  file: it is not idempotent in page reads (`Client.LoadCoursesTwice`).
- **Closing empty lines.** The result of `body.strip()` is discarded (studicli.py:366),
  so the message body keeps the two closing empty lines (`Actions.BodyEndsWithBlankLines`).

## Model

| member | source | states |
|---|---|---|
| Ascii.Repeat | asciioutput.py:33 | `c * n` is n copies of c, and empty when n <= 0 |
| Ascii.LJust | asciioutput.py:34 | `s.ljust(n, c)` keeps s as its prefix, pads with c, and is max(\|s\|, n) long |
| Ascii.PrefixTo | asciioutput.py:24 | `s[:n]` is a prefix of s; a negative n counts from the end and clamps at the empty string |
| Ascii.Trim | asciioutput.py:21-28 | a string of at most width-8 characters is returned unchanged; a longer one becomes its first width-8 characters plus "...", exactly width-5 long |
| Ascii.TrimIdempotent | asciioutput.py:21-28 | trimming an already trimmed string changes nothing |
| Ascii.TrimNoNewline | asciioutput.py:21-28 | trim introduces no line break |
| Ascii.H1 | asciioutput.py:30-38 | h1 as the returned string: a '#' border, the trimmed text framed by "# " and "#" and padded with '/', and the border again; its shape is stated by Ascii.H1Layout |
| Ascii.H1Layout | asciioutput.py:30-38 | h1 splits into exactly three lines of `width` characters: a '#' border, "# " + trimmed text + '/' padding + "#", and the border again |
| Ascii.H1MiddleShape | asciioutput.py:34 | the middle line of h1 pads the trimmed text with width-3-\|t\| slashes and holds no line break |
| Ascii.H2 | asciioutput.py:40-49 | h2 as the returned string: a "+" dashes "+" border, the trimmed text framed by "\| " and " \|" and padded with spaces, and the border again; its shape is stated by Ascii.H2Layout |
| Ascii.H2Layout | asciioutput.py:40-49 | h2 splits into three `width`-long lines: "+" dashes "+", "\| " + trimmed text + space padding + " \|", and the border again |
| Ascii.H3 | asciioutput.py:51-57 | h3 trims the text together with its ":\n" suffix, so its length bound is the one of Ascii.Trim; what survives of the suffix is stated by Ascii.H3Suffix |
| Ascii.H3Suffix | asciioutput.py:51-57 | h3 ends in ":\n" exactly when the text plus ":\n" fits in width-8 characters, and is then text + ":\n"; otherwise the suffix is cut off by the trim |
| Ascii.Hr | asciioutput.py:67-73 | the rule is `width` dashes, and empty for a non-positive width |
| Utils.WordRun | utils.py:17 | the greedy `\w+`: the longest prefix of word characters, followed by a non-word character or the end |
| Utils.FirstMatch | utils.py:17 | the leftmost position at or after `from` where "attr=" is followed by a word character, and None only when there is no such position |
| Utils.FromQueryString | utils.py:14-19 | a missing query gives ""; the result is "" exactly when no "attr=" followed by a word character occurs; otherwise it is the word run captured at the leftmost such occurrence |
| Utils.ValueAfterMatch | utils.py:17 | at a match, the captured run starts right after "attr=" and is not followed by a word character |
| Utils.FirstAcceptedUnique | utils.py:21-34 | the first accepted line is unique, so the selection is determined by the typed lines |
| Utils.FromQueryStringShape | utils.py:14-19 | a non-empty result consists of word characters and sits in the query right after "attr=", up to a non-word character or the end |
| Utils.SelectId | utils.py:21-34 | the prompt returns the first typed line that parses and lies in 0..max, and the count of lines it consumed is that line's position (`FirstAccepted`); every earlier line was rejected; it runs out of input when none qualifies, always so when max < 0; 0 and max themselves are accepted |
| Courses.LookupFound | studicli.py:105 | in a dictionary with distinct ids, each entry is found under its own id |
| Courses.Put | studicli.py:105 | `courses[id] = name` maps id to name and leaves every other key's lookup unchanged; the size grows only for a new id; distinct ids stay distinct |
| Courses.RemoveAll | studicli.py:104 | `href.replace(prefix, "")` never lengthens the string (its other partner is Courses.RemoveAllAbsent) |
| Courses.CourseIdOf | studicli.py:104 | the course id is the anchor with every occurrence of the link prefix removed; Courses.CourseIdOfLink states what it gives for a course link |
| Courses.RemoveAllAbsent | studicli.py:104 | replace leaves a string without an occurrence of the prefix unchanged |
| Courses.CourseIdOfLink | studicli.py:104 | the anchor `seminar_main.php?auswahl=<id>` yields `<id>` when the id does not contain the prefix |
| Courses.StripLeft | studicli.py:105 | the left strip removes exactly the leading whitespace, which is the whitespace set of Python 2 `unicode.strip` |
| Courses.StripRight | studicli.py:105 | the right strip removes exactly the trailing whitespace |
| Courses.Strip | studicli.py:105 | the stripped name neither starts nor ends with whitespace, and a name without whitespace is unchanged |
| Courses.CollectCourses | studicli.py:97-106 | after addCourse has run over the anchors, each id maps to the stripped name of the last anchor that has a name and that id, with distinct ids |
| Courses.Decimal | studicli.py:167 | `str(i)` is a non-empty run of digits |
| Courses.DecimalRoundTrip | studicli.py:167 | reading `str(i)` back as a decimal number gives i |
| Courses.DigitRun | studicli.py:167 | a prefix of digits that is maximal: it is the whole string or followed by a non-digit |
| Courses.DigitRunStops | studicli.py:167 | the digit run of digits followed by a non-digit is those digits |
| Courses.CourseLine | studicli.py:167-169 | one printed line: "[i]  name" when indexed, the name alone otherwise; read back by Courses.CourseLinesRoundTrip |
| Courses.CourseLines | studicli.py:163-169 | the printed lines, one per course in keys() order; their meaning is stated by Courses.CourseLinesRoundTrip |
| Courses.CourseLinesRoundTrip | studicli.py:163-169 | there is one line per course; indexed line i reads back as index i and the name of course i; unindexed line i is the name alone |
| Courses.StandaloneCourseAsWritten | studicli.py:172-174 | as written, the prompt bound is len(courses): the first line accepted under that bound decides the outcome; it is an IndexError exactly when that line is len(courses), the end of input exactly when no line is accepted, and otherwise the course at that index |
| Courses.StandaloneCourse | studicli.py:172-174 | with the bound len(courses)-1, the result is the course named by the first accepted line, and the only failure left is the end of input, exactly when no line is accepted (always so with no courses) |
| Actions.DayOf | studicli.py:199-200 | the bucket is `len(prevAll()) - 1` as a Python index: 0 preceding cells go to bucket 6 (index -1), 1..7 to preceding-1, and more than 7 is an IndexError |
| Actions.Timetable | studicli.py:188-202 | the loop fails exactly when some cell has no valid day; otherwise it returns seven buckets, each holding the events of its day in document order |
| Actions.BucketAppend | studicli.py:200 | bucketing a concatenation concatenates the buckets, so the events of a day keep document order |
| Actions.CountUpToStep | studicli.py:200 | appending a cell adds one entry to the days below its day, and none to the others |
| Actions.TimetableCount | studicli.py:188-202 | when no cell fails, the seven buckets together hold every cell exactly once |
| Actions.ZeroCount | studicli.py:188 | seven empty day lists hold no entries |
| Actions.EvenRange | studicli.py:290 | the list comprehension holds the even numbers of the range, ascending |
| Actions.PostHeads | studicli.py:290 | the header positions are the even x < len(posts)-2, and each has a next cell |
| Actions.PostHeadsSkipLastPair | studicli.py:289-290 | for an even number of cells, the last header/body pair is never shown |
| Actions.ReadPosts | studicli.py:290-302 | one entry per header position: a forum heading when the cell's h3 text is non-empty, otherwise a post whose body is the next cell |
| Actions.ReadBody | studicli.py:354-365 | the loop stops right after the first two consecutive empty lines, keeping every line read, each followed by "\n"; it runs out of input exactly when no such pair exists |
| Actions.BodyEndsWithBlankLines | studicli.py:358-366 | the body ends with "\n\n", because the strip result is discarded |
| Actions.MessageForm | studicli.py:367-370 | the message form: subject, body and insert coordinates joined by '&', with "answerTo" and the hash appended for a reply; its fields are stated by Actions.MessageFormFields |
| Actions.MessageFormFields | studicli.py:367-370 | split on '&', the message form has four fields, and a reply hash is glued onto the value of cmd_insert.y |
| Actions.WriteMessage | studicli.py:341-376 | a given recipient sends nothing; a new message searches the recipient from the first line, takes the subject from the second line and the body up to two empty lines, and is sent exactly when the lines after the subject contain two consecutive empty lines; a reply first fetches the reply page, then reads the body, and is sent exactly when the page had a subject and the body was terminated (without a subject the concatenation at studicli.py:367 raises TypeError, so nothing more is sent); an aborted run has made only the recipient search or the reply-page fetch; delivery is reported exactly when the response contains "wurde verschickt!" |
| Client.Dispatch | studicli.py:413-432 | each branch runs exactly for its long or short action name (download/dl, timetable/tt, courselist/cl, readnews/rn, readposts/rp, readmessages/rm); writemessage runs exactly for "writemessage", since "rm" is taken before it; "wm" reaches no branch |
| Client.PromptPassword | studicli.py:399-400 | `while not passwd` as a function of --pass and the typed lines; its properties are stated by Client.PromptPasswordFacts and Client.PromptNonEmpty |
| Client.PromptPasswordFacts | studicli.py:399-400 | the prompt loop yields a non-empty password (--pass or the first non-empty typed line) and the remaining lines; it runs out only when all are empty |
| Client.Attempt | studicli.py:397-411 | the for loop from attempt i on, as a function of the prompts and the isLoggedIn answers; stated by Client.AttemptLogins, AttemptChecks, AttemptSequence and AttemptPasswords |
| Client.AttemptStep | studicli.py:398-411 | one attempt that obtained a password: Proceed on a yes, Exit after the third, else the next attempt with the password reset |
| Client.NonEmpty | studicli.py:399-400 | the non-empty lines, in order, each taken from the input: the passwords the prompt can hand out |
| Client.PromptNonEmpty | studicli.py:399-400 | the prompt hands out the first non-empty line and leaves the rest of the non-empty lines for later prompts; it runs out exactly when there is none |
| Client.NonEmptyAfterFirst | studicli.py:399-400 | the first non-empty line is --pass or typed, every later one typed |
| Client.ExtendsByCons | studicli.py:397-411 | extending the logins one at a time composes into extending them by the whole list |
| Client.AttemptSequence | studicli.py:397-411 | the logins of the loop are a prefix of the successive non-empty password lines, and all of them when the prompt ran out |
| Client.AttemptLogins | studicli.py:397-411 | attempts from i on make at most 3-i more logins; Exit follows exactly three logins |
| Client.AttemptChecks | studicli.py:397-411 | every check after a login failed, except the one that ended with Proceed |
| Client.AttemptPasswords | studicli.py:397-411 | every login uses a non-empty password; all after the first are freshly prompted, since the password is reset after a failure |
| Client.Authenticate | studicli.py:395-411 | the login phase: no login when the first isLoggedIn answer is yes, otherwise the for loop from attempt 0; its properties are stated by Client.AuthenticateRule |
| Client.AuthenticateRule | studicli.py:395-411 | there are at most three logins, and none when the session is alive; the action runs exactly when some check succeeded; three failed logins exit; later logins use prompted passwords; the logins are exactly the first non-empty lines of --pass and the typed lines, in order, and all of them when the prompt ran out |
| Client.LoginForm | studicli.py:143-144 | the login form, with nothing encoded; its fields are stated by Client.LoginFormFields |
| Client.LoginFormFields | studicli.py:143-144 | split on '&', the login form has the four fields username, password, userdomain and login_ticket |
| Client.LoginFormsSnoc | studicli.py:143-145 | each further login posts one more form, with the ticket read at its own position |
| Client.StudICLI.constructor | studicli.py:43-54 | see the three cases below |
| Client.StudICLI.LoadCache | studicli.py:67-83 | see the three cases below; the cache file itself is not rewritten |
| Client.StudICLI.InitCookies | studicli.py:57-65 | the session is restored exactly when the cookie file is non-empty |
| Client.StudICLI.LoadCourses | studicli.py:86-114 | non-empty cached courses are returned without a page read; otherwise the page is read once, the scraped courses are stored for this user and become self.courses |
| Client.StudICLI.Login | studicli.py:136-149 | posts one login form with the page's ticket, then behaves as loadCourses |
| Client.StudICLI.LoginStep | studicli.py:403 | one login inside the driver loop extends the posted forms and the course state by one login |
| Client.StudICLI.LoginRound | studicli.py:398-411 | one pass of the for loop follows `Attempt`: when it ends the loop its outcome is the rule's, otherwise the rule from the next attempt with the password reset gives the same outcome |
| Client.StudICLI.LoginAttempts | studicli.py:397-411 | the for loop computes the login rule of `Attempt`, posts one form per login, and leaves the course record as after that many logins |
| Client.StudICLI.Run | studicli.py:393-432 | the driver follows `Authenticate`; it dispatches the action only when the login phase proceeded, and leaves the forms and courses as the login rule says |
| Client.ReadPassword | studicli.py:399-400 | the prompt loop computes `PromptPassword` |
| Client.AlgorithmsLine | studicli.py:163-167 | the single cached course is listed as "[0]  Algorithms" |
| Client.CacheHitListing | studicli.py:393-420 | with a live session and a cache for the same user, courselist lists the cached course without reading the overview page |
| Client.UserSwitch | studicli.py:67-83 | a cache stored for another user yields no courses, truncates the cookie file, and so restores no session |
| Client.StoreThenLoad | studicli.py:67-114 | courses scraped and stored by one run are loaded unchanged, in order, by the next run of the same user |
| Client.LoadCoursesTwice | studicli.py:86-114 | without a usable cache, two loadCourses calls read the overview page twice |

The constructor and `Client.StudICLI.LoadCache` share three cases:

- an empty course file gives the default envelope and no courses;
- another user's envelope is kept with its courses cleared, and the cookie file is emptied;
- this user's envelope provides self.courses.

## Left out

- HTTP, cookies and HTML parsing are outside the model:
  - `req` and `read` are not modelled;
  - the cookie jar's contents are reduced to whether the file is empty;
  - pyquery selectors and `br2nl` are not modelled.
  - Their results are inputs: login tickets, isLoggedIn answers, the course overview
    anchors, the timetable cells, the forum cells, the reply page's subject, and the
    response of the send request.
- The same course overview anchors are used for every login of one run.
- A login page without a ticket (`attr` returning None, where the concatenation raises a
  TypeError) is not modelled: tickets are always strings.
- Printing is left out: the formatter's print paths, the timetable and readposts output,
  and the status messages. The headings are modelled on their returned strings (the
  `noOutput` path).
- `ASCIIOutput.text` and its TextWrapper are not modelled, nor is `calendar.day_name`.
- `pickle` is not modelled: the course file holds the envelope value itself.
- The `download`, `readnews` and `readmessages` actions are left out, along with the zip
  files `download` writes. They are dispatched but not modelled. The course prompts of
  `download` and `readnews` use the bound len(courses)-1 (studicli.py:222, 255), as
  `readposts` does (278) and as `Courses.StandaloneCourse` does; `readmessages` selects a
  message with the bound len(messages)-1 (studicli.py:325).
- `safeName` is imported from utils.py but not defined there, so it is not part of this
  model.
- The detail page that courselist(standalone=True) reads after the selection is left out.
- Utils.FromQueryString: `attr` is matched literally. Regular-expression metacharacters
  in it are not interpreted, and the optional `[&$#]*` suffix is not modelled because it
  cannot change the captured group. `\w` is the ASCII class, as for Python 2 byte strings.
- Utils.SelectId: the parsing done by `int()` is abstracted. A typed line is `Some(n)`
  when `int()` accepts it and `None` when it raises ValueError.
- `getpass` and `raw_input` are left out: typed lines are a sequence, and their end stands
  for EOFError. At the password prompt that end is the outcome `NoPassword`, and
  `sys.exit` after the third failed login is the outcome `Exit`. KeyboardInterrupt and
  the driver's `Abbruch` message are not modelled.
- Dictionary order is insertion order. Python 2 dicts have an unspecified `keys()`
  order; the model fixes one, so courselist's indices and the selection agree.
- The two kinds of request in `Actions.Request` only tell the calls apart: `Fetch` (an
  empty body) and `Post` both go out as POST requests, since urllib2 treats the empty
  string as data.
- Lengths count characters, not the bytes of a UTF-8 encoded Python 2 `str`.
- Actions.Timetable: only the bucketing is modelled. The `lineSize` list the loop also
  fills is not used anywhere, so it is left out.
- ArgumentParser validation is not modelled: the action string is taken as given, and
  `Client.Dispatch` returns None for anything outside the choices.

## Findings

| source | as written | input that shows it | evidently intended | confidence | as-written member | corrected member |
|---|---|---|---|---|---|---|
| studicli.py:173 | `selectId("Veranstaltungsdetails", len(self.courses))` accepts the index len(courses), and `keys()[courseId]` then raises IndexError | one course; the first typed line is 1 | the bound len(courses)-1, as at studicli.py:222, 255 and 278 | not executed | Courses.StandaloneCourseAsWritten | Courses.StandaloneCourse |
