/** The StudICLI client object (studicli.py:39-154) over abstract file state, and the
    top-level driver (studicli.py:393-432): the login-retry rule and action dispatch.
    HTTP exchanges are replaced by their outcomes, passed in as parameters: the answers of
    isLoggedIn, the login tickets and the anchors of the course overview page. */
module Client {
  import opened Wrappers
  import opened Strings
  import opened Courses

  // ---- dispatch (studicli.py:413-432) ----

  /** The action a run performs. readposts is always called without --all (studicli.py:426). */
  datatype Action =
    | Download(all: bool, onlyNew: bool)
    | Timetable
    | CourseListing
    | ReadNews(all: bool)
    | ReadPosts
    | ReadMessages(all: bool)
    | WriteMessage

  /** The values --action accepts (studicli.py:28). */
  const ActionChoices: seq<string> := ["tt", "timetable", "readposts", "rp", "readnews", "rn",
    "readmessages", "rm", "download", "dl", "courselist", "cl", "writemessage", "wm"]

  /** The if/elif chain of the driver. Its last branch tests ["writemessage", "rm"], so "rm"
      never gets there and "wm" matches no branch at all. */
  function Dispatch(action: string, all: bool, onlyNew: bool): (r: Option<Action>)
    ensures action in ActionChoices && action != "wm" ==> r.Some?
    ensures r.Some? ==> action in ActionChoices
    ensures action == "wm" ==> r.None?
    ensures action == "rm" ==> r == Some(ReadMessages(all))
    ensures r == Some(Download(all, onlyNew)) <==> action in ["download", "dl"]
    ensures r == Some(Timetable) <==> action in ["timetable", "tt"]
    ensures r == Some(CourseListing) <==> action in ["courselist", "cl"]
    ensures r == Some(ReadNews(all)) <==> action in ["readnews", "rn"]
    ensures r == Some(ReadPosts) <==> action in ["readposts", "rp"]
    ensures r == Some(ReadMessages(all)) <==> action in ["readmessages", "rm"]
    ensures r == Some(WriteMessage) <==> action == "writemessage"
  {
    if action in ["download", "dl"] then Some(Download(all, onlyNew))
    else if action in ["timetable", "tt"] then Some(Timetable)
    else if action in ["courselist", "cl"] then Some(CourseListing)
    else if action in ["readnews", "rn"] then Some(ReadNews(all))
    else if action in ["readposts", "rp"] then Some(ReadPosts)
    else if action in ["readmessages", "rm"] then Some(ReadMessages(all))
    else if action in ["writemessage", "rm"] then Some(WriteMessage)
    else None
  }

  // ---- the login rule (studicli.py:395-411) ----

  datatype AuthStatus =
    | Proceed      // a session exists: the action is dispatched
    | Exit         // the third login failed: sys.exit()
    | NoPassword   // the password prompt ran out of input (getpass raises EOFError)

  /** How the login phase ended and the passwords passed to login(), in order. */
  datatype Auth = Auth(status: AuthStatus, logins: seq<string>)

  /** `while not passwd: passwd = getpass(...)`: the password to use and the prompts left.
      An empty string stands for both a missing and an empty --pass. */
  function PromptPassword(passwd: string, prompts: seq<string>): Option<(string, seq<string>)>
    decreases |prompts|
  {
    if passwd != "" then Some((passwd, prompts))
    else if prompts == [] then None
    else PromptPassword(prompts[0], prompts[1..])
  }

  /** The prompt yields a non-empty password, --pass itself when that is non-empty and
      otherwise the first non-empty line, together with the lines after it; it runs out only
      when --pass and every line are empty. */
  lemma {:induction false} PromptPasswordFacts(passwd: string, prompts: seq<string>)
    ensures var r := PromptPassword(passwd, prompts);
      (r.Some? ==> r.value.0 != "" && (r.value.0 == passwd || r.value.0 in prompts))
      && (r.Some? ==> |r.value.1| <= |prompts| && r.value.1 == prompts[|prompts| - |r.value.1|..])
      && (passwd != "" ==> r == Some((passwd, prompts)))
      && (passwd == "" && prompts != [] ==> r == PromptPassword(prompts[0], prompts[1..]))
      && (r.None? <==> passwd == "" && forall k :: 0 <= k < |prompts| ==> prompts[k] == "")
    decreases |prompts|
  {
    if passwd == "" && prompts != [] {
      PromptPasswordFacts(prompts[0], prompts[1..]);
      var r := PromptPassword(prompts[0], prompts[1..]);
      if r.Some? {
        assert prompts[1..][|prompts| - 1 - |r.value.1|..] == prompts[|prompts| - |r.value.1|..];
      }
      assert forall k :: 0 <= k < |prompts| - 1 ==> prompts[1..][k] == prompts[k + 1];
    }
  }

  /** The for loop from attempt i on (i in range(0, 3)); attempt i is judged by the
      (i + 1)-th isLoggedIn answer, checks(i + 1). */
  function Attempt(i: nat, passwd: string, prompts: seq<string>, checks: nat -> bool,
                   logins: seq<string>): Auth
    requires i < 3
    decreases 3 - i
  {
    var password := PromptPassword(passwd, prompts);
    if password.None? then Auth(NoPassword, logins)
    else
      var next := logins + [password.value.0];
      if checks(i + 1) then Auth(Proceed, next)
      else if i >= 2 then Auth(Exit, next)
      else Attempt(i + 1, "", password.value.1, checks, next)
  }

  /** One attempt that obtained password p, with the lines `rest` left over. */
  lemma AttemptStep(i: nat, passwd: string, prompts: seq<string>, checks: nat -> bool,
                    logins: seq<string>, p: string, rest: seq<string>)
    requires i < 3 && PromptPassword(passwd, prompts) == Some((p, rest))
    ensures checks(i + 1) ==> Attempt(i, passwd, prompts, checks, logins) == Auth(Proceed, logins + [p])
    ensures !checks(i + 1) && i >= 2 ==> Attempt(i, passwd, prompts, checks, logins) == Auth(Exit, logins + [p])
    ensures !checks(i + 1) && i < 2 ==>
      Attempt(i, passwd, prompts, checks, logins) == Attempt(i + 1, "", rest, checks, logins + [p])
  {
  }

  /** The login phase: nothing happens when the first isLoggedIn answer, checks(0), is yes. */
  function Authenticate(passwd: string, prompts: seq<string>, checks: nat -> bool): Auth
  {
    if checks(0) then Auth(Proceed, []) else Attempt(0, passwd, prompts, checks, [])
  }

  /** Attempts from i on add at most 3 - i logins to those already made. */
  lemma {:induction false} AttemptLogins(i: nat, passwd: string, prompts: seq<string>,
                                         checks: nat -> bool, logins: seq<string>)
    requires i < 3 && |logins| == i
    ensures var r := Attempt(i, passwd, prompts, checks, logins);
      i <= |r.logins| <= 3 && r.logins[..i] == logins
      && (r.status == Proceed ==> |r.logins| > i)
      && (r.status == Exit ==> |r.logins| == 3)
      && (r.status == NoPassword ==> |r.logins| < 3)
    decreases 3 - i
  {
    var password := PromptPassword(passwd, prompts);
    if password.Some? && !checks(i + 1) && i < 2 {
      var next := logins + [password.value.0];
      AttemptLogins(i + 1, "", password.value.1, checks, next);
      var r := Attempt(i + 1, "", password.value.1, checks, next);
      assert r.logins[..i + 1][..i] == r.logins[..i];
      assert next[..i] == logins;
    }
  }

  /** Every check after a login of attempts i on failed, except the one that ended a Proceed. */
  lemma {:induction false} AttemptChecks(i: nat, passwd: string, prompts: seq<string>,
                                         checks: nat -> bool, logins: seq<string>)
    requires i < 3 && |logins| == i
    ensures var r := Attempt(i, passwd, prompts, checks, logins);
      (r.status == Proceed ==> checks(|r.logins|))
      && (forall k :: i < k <= |r.logins| && (k < |r.logins| || r.status != Proceed) ==> !checks(k))
    decreases 3 - i
  {
    var r := Attempt(i, passwd, prompts, checks, logins);
    var password := PromptPassword(passwd, prompts);
    if password.None? {
      assert r == Auth(NoPassword, logins);
    } else if checks(i + 1) {
      assert r == Auth(Proceed, logins + [password.value.0]);
    } else if i >= 2 {
      assert r == Auth(Exit, logins + [password.value.0]);
    } else {
      var next := logins + [password.value.0];
      assert r == Attempt(i + 1, "", password.value.1, checks, next);
      AttemptChecks(i + 1, "", password.value.1, checks, next);
      AttemptLogins(i + 1, "", password.value.1, checks, next);
    }
  }

  /** The non-empty lines of xs, in order: the passwords the prompt loop can hand out. */
  function NonEmpty(xs: seq<string>): (r: seq<string>)
    ensures |r| <= |xs|
    ensures forall k :: 0 <= k < |r| ==> r[k] != "" && r[k] in xs
  {
    if xs == [] then [] else (if xs[0] != "" then [xs[0]] else []) + NonEmpty(xs[1..])
  }

  /** The prompt loop hands out the first non-empty one of passwd and the typed lines, and
      the non-empty lines after it remain for later prompts. */
  lemma {:induction false} PromptNonEmpty(passwd: string, prompts: seq<string>)
    ensures var r := PromptPassword(passwd, prompts);
      (r.None? ==> NonEmpty([passwd] + prompts) == [])
      && (r.Some? ==> NonEmpty([passwd] + prompts) == [r.value.0] + NonEmpty(r.value.1))
    decreases |prompts|
  {
    var xs := [passwd] + prompts;
    assert xs[1..] == prompts;
    if passwd == "" && prompts != [] {
      PromptNonEmpty(prompts[0], prompts[1..]);
      assert [prompts[0]] + prompts[1..] == prompts;
    }
  }

  /** The first non-empty entry is passwd or a typed line, every later one a typed line. */
  lemma NonEmptyAfterFirst(passwd: string, prompts: seq<string>)
    ensures var ne := NonEmpty([passwd] + prompts);
      (ne != [] ==> ne[0] == passwd || ne[0] in prompts)
      && (forall j :: 1 <= j < |ne| ==> ne[j] in prompts)
  {
    var xs := [passwd] + prompts;
    assert xs[1..] == prompts;
    var ne := NonEmpty(xs);
    if passwd != "" {
      assert ne == [passwd] + NonEmpty(prompts);
    } else {
      assert ne == NonEmpty(prompts);
    }
  }

  /** The logins of r extend `logins` by a prefix of `lines`, and by all of them when the
      prompt ran out. */
  predicate ExtendsBy(r: Auth, logins: seq<string>, lines: seq<string>)
  {
    |logins| <= |r.logins| && |r.logins| - |logins| <= |lines|
    && r.logins == logins + lines[..|r.logins| - |logins|]
    && (r.status == NoPassword ==> r.logins == logins + lines)
  }

  /** Extending logins + [p] by lines extends logins by [p] + lines. */
  lemma ExtendsByCons(r: Auth, logins: seq<string>, p: string, lines: seq<string>)
    requires ExtendsBy(r, logins + [p], lines)
    ensures ExtendsBy(r, logins, [p] + lines)
  {
    var m := |r.logins| - |logins| - 1;
    assert ([p] + lines)[..m + 1] == [p] + lines[..m];
    assert (logins + [p]) + lines[..m] == logins + ([p] + lines[..m]);
    assert (logins + [p]) + lines == logins + ([p] + lines);
  }

  /** The logins of attempts i on are the successive non-empty entries of passwd and the
      typed lines: the password is reset after each failure, so no line is used twice; when
      the prompt runs out, every one of them has been used. */
  lemma {:induction false} AttemptSequence(i: nat, passwd: string, prompts: seq<string>,
                                           checks: nat -> bool, logins: seq<string>)
    requires i < 3 && |logins| == i
    ensures ExtendsBy(Attempt(i, passwd, prompts, checks, logins), logins, NonEmpty([passwd] + prompts))
    decreases 3 - i
  {
    var r := Attempt(i, passwd, prompts, checks, logins);
    PromptNonEmpty(passwd, prompts);
    var password := PromptPassword(passwd, prompts);
    if password.None? {
      assert r == Auth(NoPassword, logins);
      assert logins + [] == logins;
    } else {
      var p, rest := password.value.0, password.value.1;
      var next := logins + [p];
      if checks(i + 1) || i >= 2 {
        assert r.logins == next && r.status != NoPassword;
        assert ([p] + NonEmpty(rest))[..1] == [p];
      } else {
        assert r == Attempt(i + 1, "", rest, checks, next);
        AttemptSequence(i + 1, "", rest, checks, next);
        assert NonEmpty([""] + rest) == NonEmpty(rest) by {
          assert ([""] + rest)[1..] == rest;
        }
        ExtendsByCons(r, logins, p, NonEmpty(rest));
      }
    }
  }

  /** The passwords of attempts i on are non-empty; the first is passwd or a prompted line,
      all later ones prompted lines. */
  lemma AttemptPasswords(i: nat, passwd: string, prompts: seq<string>,
                         checks: nat -> bool, logins: seq<string>)
    requires i < 3 && |logins| == i
    ensures var r := Attempt(i, passwd, prompts, checks, logins);
      (forall k :: i <= k < |r.logins| ==> r.logins[k] != "")
      && (i < |r.logins| ==> r.logins[i] == passwd || r.logins[i] in prompts)
      && (forall k :: i < k < |r.logins| ==> r.logins[k] in prompts)
  {
    var r := Attempt(i, passwd, prompts, checks, logins);
    var ne := NonEmpty([passwd] + prompts);
    AttemptSequence(i, passwd, prompts, checks, logins);
    NonEmptyAfterFirst(passwd, prompts);
    var tail := ne[..|r.logins| - i];
    assert r.logins == logins + tail;
    forall k | i <= k < |r.logins|
      ensures r.logins[k] == ne[k - i]
    {
      assert r.logins[k] == tail[k - i];
    }
  }

  /** The driver's login rule: at most three login() calls; each uses a non-empty password,
      and every one after the first a freshly prompted one (the password is reset after each
      failure); the action runs exactly when the initial check or some check after a login
      succeeded; and three failed logins end the run. */
  lemma AuthenticateRule(passwd: string, prompts: seq<string>, checks: nat -> bool)
    ensures var r := Authenticate(passwd, prompts, checks);
      |r.logins| <= 3
      && (checks(0) ==> r == Auth(Proceed, []))
      && (r.status == Proceed <==> checks(0) || exists k :: 1 <= k <= |r.logins| && checks(k))
      && (r.status == Exit <==> !checks(0) && |r.logins| == 3 && !checks(1) && !checks(2) && !checks(3))
      && (forall k :: 0 <= k < |r.logins| ==> r.logins[k] != "")
      && (forall k :: 1 <= k < |r.logins| ==> r.logins[k] in prompts)
      && |r.logins| <= |NonEmpty([passwd] + prompts)|
      && r.logins == NonEmpty([passwd] + prompts)[..|r.logins|]
      && (r.status == NoPassword ==> r.logins == NonEmpty([passwd] + prompts))
  {
    var r := Authenticate(passwd, prompts, checks);
    if !checks(0) {
      AttemptLogins(0, passwd, prompts, checks, []);
      AttemptChecks(0, passwd, prompts, checks, []);
      AttemptPasswords(0, passwd, prompts, checks, []);
      AttemptSequence(0, passwd, prompts, checks, []);
      if r.status == Proceed {
        assert checks(|r.logins|);
      }
    }
  }

  /** The login form posted to index.php (studicli.py:143-144); nothing in it is encoded. */
  function LoginForm(user: string, passwd: string, domain: string, ticket: string): string
  {
    "username=" + user + "&" + "password=" + passwd + "&" + "userdomain=" + domain + "&" + "login_ticket=" + ticket
  }

  /** With no '&' in the credentials the form splits into its four key=value fields. */
  lemma LoginFormFields(user: string, passwd: string, domain: string, ticket: string)
    requires '&' !in user && '&' !in passwd && '&' !in domain && '&' !in ticket
    ensures Split(LoginForm(user, passwd, domain, ticket), '&') ==
      ["username=" + user, "password=" + passwd, "userdomain=" + domain, "login_ticket=" + ticket]
  {
    var f0 := "username=" + user;
    var f1 := "password=" + passwd;
    var f2 := "userdomain=" + domain;
    var f3 := "login_ticket=" + ticket;
    assert '&' !in f0 && '&' !in f1 && '&' !in f2 && '&' !in f3;
    assert LoginForm(user, passwd, domain, ticket) == f0 + "&" + f1 + "&" + f2 + "&" + f3;
    SplitFour(f0, f1, f2, f3, '&');
  }

  /** The forms posted by the login() calls, the k-th with the k-th ticket. */
  function LoginForms(user: string, domain: string, logins: seq<string>, tickets: nat -> string): seq<string>
  {
    if logins == [] then []
    else
      var n := |logins| - 1;
      LoginForms(user, domain, logins[..n], tickets) + [LoginForm(user, logins[n], domain, tickets(n))]
  }

  /** One more login appends its form, posted with the ticket of its own position. */
  lemma LoginFormsSnoc(user: string, domain: string, logins: seq<string>, p: string, tickets: nat -> string)
    ensures LoginForms(user, domain, logins + [p], tickets)
         == LoginForms(user, domain, logins, tickets) + [LoginForm(user, p, domain, tickets(|logins|))]
  {
    assert (logins + [p])[..|logins|] == logins;
  }

  class StudICLI {
    const user: string
    /** self.courses */
    var courses: CourseList
    /** self.cache: the envelope loadCache returned */
    var cache: Envelope
    /** .cookies.lwp, only as empty or not */
    var cookieFileEmpty: bool
    /** whether initCookies loaded the cookie jar from the file */
    var sessionRestored: bool
    /** .courses.tmp as the envelope pickled in it, None while the file is empty */
    var courseFile: Option<Envelope>
    /** how often the course overview page meine_seminare.php was read */
    var courseListReads: nat
    /** the login forms posted to index.php, in order */
    var loginForms: seq<string>

    /** The cached courses are trusted only for the user they were stored for, and then they
        are the courses in use. */
    ghost predicate Valid()
      reads this
    {
      UniqueIds(courses) && UniqueIds(cache.courses)
      && (courseFile.Some? ==> UniqueIds(courseFile.value.courses))
      && (cache.courses != [] ==> cache.user == user && courses == cache.courses)
    }

    /** __init__ (studicli.py:43-54): touch both files, start without courses, then
        loadCache and initCookies. */
    constructor (user: string, cookieFileEmpty: bool, courseFile: Option<Envelope>)
      requires courseFile.Some? ==> UniqueIds(courseFile.value.courses)
      ensures Valid()
      ensures this.user == user && this.courseFile == courseFile
      ensures courseListReads == 0 && loginForms == []
      ensures courseFile.None? ==>
        cache == EmptyEnvelope && courses == [] && this.cookieFileEmpty == cookieFileEmpty
      ensures courseFile.Some? && courseFile.value.user != user ==>
        cache == Envelope([], courseFile.value.user) && courses == [] && this.cookieFileEmpty
      ensures courseFile.Some? && courseFile.value.user == user ==>
        cache == courseFile.value && courses == courseFile.value.courses
        && this.cookieFileEmpty == cookieFileEmpty
      ensures sessionRestored == !this.cookieFileEmpty
    {
      this.user := user;
      this.cookieFileEmpty := cookieFileEmpty;
      this.courseFile := courseFile;
      courses := [];
      cache := EmptyEnvelope;
      sessionRestored := false;
      courseListReads := 0;
      loginForms := [];
      new;
      cache := LoadCache();
      InitCookies();
    }

    /** loadCache (studicli.py:67-83): an empty cache file gives the default envelope; an
        envelope of another user truncates the cookie file and is returned with its courses
        cleared; an envelope of this user provides self.courses. The cache file itself is
        not rewritten. */
    method LoadCache() returns (data: Envelope)
      modifies this`courses, this`cookieFileEmpty
      ensures courseFile.None? ==>
        data == EmptyEnvelope && courses == old(courses) && cookieFileEmpty == old(cookieFileEmpty)
      ensures courseFile.Some? && courseFile.value.user != user ==>
        data == Envelope([], courseFile.value.user) && courses == old(courses) && cookieFileEmpty
      ensures courseFile.Some? && courseFile.value.user == user ==>
        data == courseFile.value && courses == courseFile.value.courses
        && cookieFileEmpty == old(cookieFileEmpty)
    {
      if courseFile.Some? {
        var stored := courseFile.value;
        if user != stored.user {
          cookieFileEmpty := true;
          stored := stored.(courses := []);
        } else {
          courses := stored.courses;
        }
        return stored;
      }
      return EmptyEnvelope;
    }

    /** initCookies (studicli.py:57-65): the jar is loaded only from a non-empty file. */
    method InitCookies()
      modifies this`sessionRestored
      ensures sessionRestored == !cookieFileEmpty
    {
      sessionRestored := !cookieFileEmpty;
    }

    /** loadCourses (studicli.py:86-114): non-empty cached courses are returned without
        reading a page; otherwise the overview page is read, its anchors collected, the
        envelope {courses, user} written to the cache file and self.courses replaced.
        self.cache is left as it is, so the next call reads the page again. */
    method LoadCourses(links: seq<CourseLink>) returns (result: CourseList)
      requires Valid()
      modifies this`courses, this`courseFile, this`courseListReads
      ensures Valid()
      ensures cache.courses != [] ==>
        result == cache.courses && courses == old(courses) && courseFile == old(courseFile)
        && courseListReads == old(courseListReads)
      ensures cache.courses == [] ==>
        CollectedFrom(result, links) && courses == result && courseFile == Some(Envelope(result, user))
        && courseListReads == old(courseListReads) + 1
    {
      result := [];
      var stored := cache.courses;
      if |stored| > 0 {
        result := stored;
      }
      if |result| == 0 {
        courseListReads := courseListReads + 1;
        result := CollectCourses(links);
        courseFile := Some(Envelope(result, user));
        courses := result;
      }
    }

    /** login (studicli.py:136-149): post the form with the page's ticket, then loadCourses.
        Success is not checked here; the driver asks isLoggedIn afterwards. */
    method Login(passwd: string, domain: string, ticket: string, links: seq<CourseLink>)
      requires Valid()
      modifies this`courses, this`courseFile, this`courseListReads, this`loginForms
      ensures Valid()
      ensures loginForms == old(loginForms) + [LoginForm(user, passwd, domain, ticket)]
      ensures cache.courses != [] ==>
        courses == old(courses) && courseFile == old(courseFile) && courseListReads == old(courseListReads)
      ensures cache.courses == [] ==>
        CollectedFrom(courses, links) && courseFile == Some(Envelope(courses, user))
        && courseListReads == old(courseListReads) + 1
    {
      loginForms := loginForms + [LoginForm(user, passwd, domain, ticket)];
      var _ := LoadCourses(links);
    }

    /** The state of the course record after n login() calls of this run, which started
        from courses0, courseFile0 and reads0: unchanged while no login happened or the
        cache was trusted, otherwise scraped from `links` and stored for this user, with
        one read of the overview page per login. */
    ghost predicate CoursesAfterLogins(n: nat, links: seq<CourseLink>, courses0: CourseList,
                                       courseFile0: Option<Envelope>, reads0: nat)
      reads this
    {
      if n == 0 || cache.courses != [] then
        courses == courses0 && courseFile == courseFile0 && courseListReads == reads0
      else
        CollectedFrom(courses, links) && courseFile == Some(Envelope(courses, user))
        && courseListReads == reads0 + n
    }

    /** The object after the logins `logins` of this run, which started from the forms
        forms0 and the course record courses0, courseFile0, reads0. */
    ghost predicate AfterLogins(logins: seq<string>, domain: string, tickets: nat -> string,
                                links: seq<CourseLink>, forms0: seq<string>, courses0: CourseList,
                                courseFile0: Option<Envelope>, reads0: nat)
      reads this
    {
      Valid() && loginForms == forms0 + LoginForms(user, domain, logins, tickets)
      && CoursesAfterLogins(|logins|, links, courses0, courseFile0, reads0)
    }

    /** One login() inside the driver loop, as the (|logins| + 1)-th login of the run. */
    method LoginStep(logins: seq<string>, pw: string, domain: string, tickets: nat -> string,
                     links: seq<CourseLink>, ghost forms0: seq<string>, ghost courses0: CourseList,
                     ghost courseFile0: Option<Envelope>, ghost reads0: nat)
      requires AfterLogins(logins, domain, tickets, links, forms0, courses0, courseFile0, reads0)
      modifies this`courses, this`courseFile, this`courseListReads, this`loginForms
      ensures AfterLogins(logins + [pw], domain, tickets, links, forms0, courses0, courseFile0, reads0)
    {
      Login(pw, domain, tickets(|logins|), links);
      LoginFormsSnoc(user, domain, logins, pw, tickets);
    }

    /** One pass of the for loop of the driver (studicli.py:398-411), as attempt i + 1 with
        `logins` behind it: prompt while the password is empty, log in, then stop on a yes
        from isLoggedIn or after the third attempt, else reset the password. `done` tells
        whether the loop ends here and `auth` is then its outcome. */
    method LoginRound(i: nat, pw: string, rest: seq<string>, logins: seq<string>,
                      checks: nat -> bool, domain: string, tickets: nat -> string,
                      links: seq<CourseLink>, ghost forms0: seq<string>, ghost courses0: CourseList,
                      ghost courseFile0: Option<Envelope>, ghost reads0: nat)
        returns (done: bool, auth: Auth, pw': string, rest': seq<string>, logins': seq<string>)
      requires i < 3 && |logins| == i
      requires AfterLogins(logins, domain, tickets, links, forms0, courses0, courseFile0, reads0)
      modifies this`courses, this`courseFile, this`courseListReads, this`loginForms
      ensures AfterLogins(logins', domain, tickets, links, forms0, courses0, courseFile0, reads0)
      ensures done ==> auth == Attempt(i, pw, rest, checks, logins) && auth.logins == logins'
      ensures !done ==> |logins'| == i + 1 && i + 1 < 3
                        && Attempt(i, pw, rest, checks, logins) == Attempt(i + 1, pw', rest', checks, logins')
    {
      var password := ReadPassword(pw, rest);
      if password.None? {
        return true, Auth(NoPassword, logins), pw, rest, logins;
      }
      var p := password.value.0;
      AttemptStep(i, pw, rest, checks, logins, p, password.value.1);
      LoginStep(logins, p, domain, tickets, links, forms0, courses0, courseFile0, reads0);
      logins' := logins + [p];
      rest' := password.value.1;
      pw' := "";
      done := checks(i + 1) || i + 1 >= 3;
      auth := Auth(if checks(i + 1) then Proceed else Exit, logins');
    }

    /** The for loop of the driver (studicli.py:397-411), entered when the first isLoggedIn
        answer was no: prompt for a password while it is empty, log in, stop on a yes from
        isLoggedIn, else reset the password and exit after the third attempt. */
    method LoginAttempts(passwd: string, domain: string, prompts: seq<string>, checks: nat -> bool,
                         tickets: nat -> string, links: seq<CourseLink>)
        returns (auth: Auth)
      requires Valid()
      modifies this`courses, this`courseFile, this`courseListReads, this`loginForms
      ensures Valid()
      ensures auth == Attempt(0, passwd, prompts, checks, [])
      ensures loginForms == old(loginForms) + LoginForms(user, domain, auth.logins, tickets)
      ensures CoursesAfterLogins(|auth.logins|, links, old(courses), old(courseFile), old(courseListReads))
    {
      var pw := passwd;
      var rest := prompts;
      var logins: seq<string> := [];
      var done := false;
      ghost var goal := Attempt(0, passwd, prompts, checks, []);
      ghost var forms0, courses0, courseFile0, reads0 := loginForms, courses, courseFile, courseListReads;
      auth := Auth(Proceed, []);
      while !done
        invariant |logins| <= 3
        invariant AfterLogins(logins, domain, tickets, links, forms0, courses0, courseFile0, reads0)
        invariant done ==> auth == goal && auth.logins == logins
        invariant !done ==> |logins| < 3 && goal == Attempt(|logins|, pw, rest, checks, logins)
        decreases 3 - |logins|, if done then 0 else 1
      {
        done, auth, pw, rest, logins :=
          LoginRound(|logins|, pw, rest, logins, checks, domain, tickets, links,
                     forms0, courses0, courseFile0, reads0);
      }
    }

    /** The driver (studicli.py:393-432): checks(k) is the answer of the k-th isLoggedIn
        call, tickets(k) the ticket on the login page of the k-th login, `prompts` the lines
        typed at the password prompt. Returns how the login phase ended and the dispatched
        action (None when the run ends before, or nothing matches). */
    method Run(passwd: string, domain: string, prompts: seq<string>, checks: nat -> bool,
               tickets: nat -> string, links: seq<CourseLink>, action: string, all: bool,
               onlyNew: bool)
        returns (auth: Auth, act: Option<Action>)
      requires Valid()
      modifies this`courses, this`courseFile, this`courseListReads, this`loginForms
      ensures Valid()
      ensures auth == Authenticate(passwd, prompts, checks)
      ensures act == if auth.status == Proceed then Dispatch(action, all, onlyNew) else None
      ensures loginForms == old(loginForms) + LoginForms(user, domain, auth.logins, tickets)
      ensures CoursesAfterLogins(|auth.logins|, links, old(courses), old(courseFile), old(courseListReads))
    {
      auth := Auth(Proceed, []);
      if !checks(0) {
        auth := LoginAttempts(passwd, domain, prompts, checks, tickets, links);
      }
      act := if auth.status == Proceed then Dispatch(action, all, onlyNew) else None;
    }
  }

  /** `while not passwd: passwd = getpass(...)` (studicli.py:399-400) over the typed lines. */
  method ReadPassword(passwd: string, prompts: seq<string>) returns (r: Option<(string, seq<string>)>)
    ensures r == PromptPassword(passwd, prompts)
  {
    var pw, rest := passwd, prompts;
    while pw == ""
      invariant PromptPassword(pw, rest) == PromptPassword(passwd, prompts)
      decreases |rest|
    {
      if rest == [] {
        return None;
      }
      pw, rest := rest[0], rest[1..];
    }
    return Some((pw, rest));
  }

  // ---- runs of the client that exercise the cache ----

  /** The listing of the single cached course. */
  lemma AlgorithmsLine()
    ensures CourseLines([Course("123", "Algorithms")], true) == ["[0]  Algorithms"]
  {
    var lines := CourseLines([Course("123", "Algorithms")], true);
    assert Decimal(0) == "0";
    assert |lines| == 1 && lines[0] == CourseLine(0, "Algorithms", true);
    assert lines[0] == "[0]  Algorithms";
  }

  /** A cache file holding {"123": "Algorithms"} for alice and a live session: courselist
      lists "[0]  Algorithms" without reading the overview page. */
  method CacheHitListing() returns (lines: seq<string>, pageReads: nat, act: Option<Action>)
    ensures lines == ["[0]  Algorithms"] && pageReads == 0 && act == Some(CourseListing)
  {
    var cli := new StudICLI("alice", false, Some(Envelope([Course("123", "Algorithms")], "alice")));
    assert cli.courses == [Course("123", "Algorithms")] && cli.courseListReads == 0;
    var auth;
    auth, act := cli.Run("", "stud", [], k => true, k => "", [], "courselist", false, false);
    assert auth == Auth(Proceed, []);
    assert cli.courses == [Course("123", "Algorithms")];
    assert act == Some(CourseListing);
    lines := CourseLines(cli.courses, true);
    AlgorithmsLine();
    pageReads := cli.courseListReads;
  }

  /** A cache stored for one user and loaded for another yields no courses, truncates the
      cookie file and so starts without a restored session. */
  method UserSwitch(stored: string, current: string, cs: CourseList)
      returns (courses: CourseList, cookiesCleared: bool, restored: bool)
    requires stored != current && UniqueIds(cs)
    ensures courses == [] && cookiesCleared && !restored
  {
    var cli := new StudICLI(current, false, Some(Envelope(cs, stored)));
    courses, cookiesCleared, restored := cli.courses, cli.cookieFileEmpty, cli.sessionRestored;
  }

  /** Courses scraped and stored in one run are loaded unchanged, in the same order, by the
      next run of the same user. */
  method StoreThenLoad(user: string, links: seq<CourseLink>) returns (stored: CourseList, loaded: CourseList)
    ensures CollectedFrom(stored, links) && loaded == stored
  {
    var first := new StudICLI(user, true, None);
    stored := first.LoadCourses(links);
    var second := new StudICLI(user, false, first.courseFile);
    loaded := second.courses;
  }

  /** Without a usable cache every loadCourses call reads the overview page again. */
  method LoadCoursesTwice(user: string, links: seq<CourseLink>) returns (pageReads: nat)
    ensures pageReads == 2
  {
    var cli := new StudICLI(user, true, None);
    var _ := cli.LoadCourses(links);
    var _ := cli.LoadCourses(links);
    pageReads := cli.courseListReads;
  }
}
