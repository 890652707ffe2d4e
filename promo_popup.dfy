/**
 * The promotional popup: the cookie that remembers a popup was shown, the
 * e-mail check of the newsletter form, the rules for whether a popup may
 * show, the show-once / close state of each popup, and the manager that
 * keeps at most one popup open.
 */
module PromoPopups {
  import opened Optional
  import opened Text

  // ---------------------------------------------------------------------
  // Cookies

  /** The cookie jar as `document.cookie` lists it: name/value pairs in
      order. */
  type Jar = seq<(string, string)>

  /** A name or value that the jar can hold and hand back: no `;`, and for a
      name also no `=`, no leading space and not empty. */
  predicate CookieName(k: string) {
    k != "" && k[0] != ' ' && ';' !in k && '=' !in k
  }

  predicate WellFormed(jar: Jar) {
    forall i :: 0 <= i < |jar| ==> CookieName(jar[i].0) && ';' !in jar[i].1
  }

  /** The segments of `document.cookie`: `k=v`, every one after the first
      preceded by a space. */
  function Segments(jar: Jar): (segs: seq<string>)
    ensures |segs| == |jar|
  {
    seq(|jar|, i requires 0 <= i < |jar| => (if i > 0 then " " else "") + jar[i].0 + "=" + jar[i].1)
  }

  /** `document.cookie`: the segments joined by `;`. */
  function Render(jar: Jar): string {
    Join(Segments(jar), ';')
  }

  /** `setCookie`: the cookie of that name gets the value, in place when it
      exists, at the end otherwise (its expiry is not modelled). */
  function SetCookie(jar: Jar, name: string, value: string): (r: Jar)
    ensures |r| == if exists i :: 0 <= i < |jar| && jar[i].0 == name then |jar| else |jar| + 1
  {
    if jar == [] then [(name, value)]
    else if jar[0].0 == name then [(name, value)] + jar[1..]
    else [jar[0]] + SetCookie(jar[1..], name, value)
  }

  /** The value of the first cookie with that name. */
  function ValueOf(jar: Jar, name: string): Option<string> {
    if jar == [] then None else if jar[0].0 == name then Some(jar[0].1) else ValueOf(jar[1..], name)
  }

  /** After `setCookie` the name looks up to the new value, and the jar
      stays well formed. */
  lemma {:induction false} SetCookieValue(jar: Jar, name: string, value: string)
    requires WellFormed(jar) && CookieName(name) && ';' !in value
    ensures ValueOf(SetCookie(jar, name, value), name) == Some(value)
    ensures WellFormed(SetCookie(jar, name, value))
  {
    if jar != [] && jar[0].0 != name {
      SetCookieValue(jar[1..], name, value);
    }
  }

  /** The leading spaces `getCookie` strips from a segment. */
  function StripSpaces(c: string): (r: string)
    ensures |r| <= |c| && r == c[|c| - |r|..]
    ensures r == [] || r[0] != ' '
  {
    if c != [] && c[0] == ' ' then StripSpaces(c[1..]) else c
  }

  /** The value after `nameEQ` in the first segment that starts with it once
      its leading spaces are gone. */
  function Lookup(segments: seq<string>, nameEQ: string): Option<string> {
    if segments == [] then None
    else
      var c := StripSpaces(segments[0]);
      if StartsWith(c, nameEQ) then Some(c[|nameEQ|..]) else Lookup(segments[1..], nameEQ)
  }

  /** `getCookie`: scans the `;`-separated segments, strips the leading
      spaces of each and returns what follows `name=` in the first that
      starts with it; `None` is `null`. */
  method GetCookie(cookie: string, name: string) returns (r: Option<string>)
    ensures r == Lookup(Split(cookie, ';'), name + "=")
  {
    var nameEQ := name + "=";
    var ca := Split(cookie, ';');
    r := FindSegment(ca, nameEQ);
  }

  /** The `for` loop of `getCookie` over the segments. */
  method FindSegment(ca: seq<string>, nameEQ: string) returns (r: Option<string>)
    ensures r == Lookup(ca, nameEQ)
  {
    for i := 0 to |ca|
      invariant Lookup(ca, nameEQ) == Lookup(ca[i..], nameEQ)
    {
      var c := StripLeadingSpaces(ca[i]);
      assert ca[i..][1..] == ca[i + 1..];
      if StartsWith(c, nameEQ) {
        return Some(c[|nameEQ|..]);
      }
    }
    assert ca[|ca|..] == [];
    return None;
  }

  /** The inner loop of `getCookie`: drops one leading space at a time. */
  method StripLeadingSpaces(segment: string) returns (c: string)
    ensures c == StripSpaces(segment)
  {
    c := segment;
    while |c| > 0 && c[0] == ' '
      invariant StripSpaces(c) == StripSpaces(segment)
    {
      c := c[1..];
    }
  }

  /** A segment `k=v` starts with `name=` exactly when `k` is the name, for
      names without `=`. */
  lemma StartsWithName(k: string, v: string, name: string)
    requires '=' !in k && '=' !in name
    ensures StartsWith(k + "=" + v, name + "=") <==> k == name
    ensures k == name ==> (k + "=" + v)[|name + "="|..] == v
  {
    var s := k + "=" + v;
    var p := name + "=";
    if StartsWith(s, p) {
      assert s[|k|] == '=';
      assert s[|name|] == s[..|p|][|name|] == p[|name|] == '=';
      assert |k| < |p| ==> p[|k|] == s[..|p|][|k|] == s[|k|];
      assert |k| == |name|;
      assert k == s[..|k|] == p[..|name|] == name;
    }
    if k == name {
      assert s[..|p|] == p;
    }
  }

  /** Reading back what the jar renders: `getCookie` finds the value of the
      first cookie with that name, and `null` when there is none. */
  lemma {:induction false} LookupRendered(jar: Jar, name: string)
    requires WellFormed(jar) && CookieName(name)
    ensures Lookup(Segments(jar), name + "=") == ValueOf(jar, name)
  {
    if jar != [] {
      var seg := jar[0].0 + "=" + jar[0].1;
      assert Segments(jar)[0] == "" + seg;
      assert "" + seg == seg;
      assert StripSpaces(seg) == seg;
      StartsWithName(jar[0].0, jar[0].1, name);
      if jar[0].0 != name {
        LookupRendered(jar[1..], name);
        SegmentsTail(jar);
        LookupLeadingSpace(Segments(jar[1..]), Segments(jar)[1..], name + "=");
      }
    }
  }

  /** Dropping the first cookie: the remaining segments are the tail's, each
      after the first of them with one more leading space. */
  lemma SegmentsTail(jar: Jar)
    requires jar != []
    ensures |Segments(jar)[1..]| == |Segments(jar[1..])|
    ensures forall i :: 0 <= i < |Segments(jar[1..])| ==>
      StripSpaces(Segments(jar)[1..][i]) == StripSpaces(Segments(jar[1..])[i])
  {
    var a, b := Segments(jar)[1..], Segments(jar[1..]);
    forall i | 0 <= i < |b| ensures StripSpaces(a[i]) == StripSpaces(b[i]) {
      var kv := jar[i + 1].0 + "=" + jar[i + 1].1;
      assert a[i] == " " + kv;
      assert (" " + kv)[1..] == kv;
      if i > 0 {
        assert b[i] == " " + kv;
      } else {
        assert b[i] == "" + kv;
        assert "" + kv == kv;
      }
    }
  }

  /** Segments that agree once stripped look up alike. */
  lemma {:induction false} LookupLeadingSpace(xs: seq<string>, ys: seq<string>, nameEQ: string)
    requires |xs| == |ys|
    requires forall i :: 0 <= i < |xs| ==> StripSpaces(xs[i]) == StripSpaces(ys[i])
    ensures Lookup(xs, nameEQ) == Lookup(ys, nameEQ)
  {
    if xs != [] {
      LookupLeadingSpace(xs[1..], ys[1..], nameEQ);
    }
  }

  /** `getCookie` on `document.cookie` returns the value of the named
      cookie, or `null` when there is none. */
  lemma GetCookieOfJar(jar: Jar, name: string)
    requires WellFormed(jar) && CookieName(name)
    ensures jar != [] ==> Lookup(Split(Render(jar), ';'), name + "=") == ValueOf(jar, name)
    ensures jar == [] ==> Lookup(Split(Render(jar), ';'), name + "=") == None
  {
    if jar != [] {
      var segs := Segments(jar);
      forall k | 0 <= k < |segs| ensures ';' !in segs[k] {
        assert segs[k] == (if k > 0 then " " else "") + jar[k].0 + "=" + jar[k].1;
      }
      SplitJoin(segs, ';');
      LookupRendered(jar, name);
    } else {
      assert Split("", ';') == [""];
    }
  }

  // ---------------------------------------------------------------------
  // The newsletter address

  /** No white space and no `@`: what `[^\s@]` matches. */
  predicate PlainChars(s: string) {
    forall i :: 0 <= i < |s| ==> !IsSpace(s[i]) && s[i] != '@'
  }

  /** The shape `^[^\s@]+@[^\s@]+\.[^\s@]+$` describes: a local part, `@`,
      and a domain made of two parts around a `.`, none of them empty. */
  predicate EmailShape(s: string) {
    exists at, dot :: 0 < at && at + 1 < dot && dot + 1 < |s| && s[at] == '@' && s[dot] == '.' &&
      PlainChars(s[..at]) && PlainChars(s[at + 1..dot]) && PlainChars(s[dot + 1..])
  }

  /** `validateEmail`: one `@` after a non-empty local part, no white space,
      and a `.` in the domain that is neither its first nor its last
      character. */
  function ValidateEmail(s: string): bool {
    var at := IndexOfChar(s, '@');
    0 < at < |s| && PlainChars(s[..at]) && ValidDomain(s[at + 1..])
  }

  /** The part after the `@`: no white space or `@`, and a `.` after its
      first character that is not its last. */
  predicate ValidDomain(domain: string) {
    PlainChars(domain) && |domain| >= 1 && 1 + IndexOfChar(domain[1..], '.') < |domain| - 1
  }

  /** A slice inside a plain suffix is plain. */
  lemma PlainSlice(s: string, lo: nat, i: nat, j: nat)
    requires lo <= i <= j <= |s| && PlainChars(s[lo..])
    ensures PlainChars(s[i..j])
    ensures j == |s| ==> PlainChars(s[i..])
  {
    forall k | 0 <= k < j - i ensures !IsSpace(s[i..j][k]) && s[i..j][k] != '@' {
      assert s[i..j][k] == s[lo..][i - lo + k];
    }
    if j == |s| {
      assert s[i..] == s[i..j];
    }
  }

  /** Plain characters on both sides of a plain character make a plain string. */
  lemma PlainAround(s: string, d: nat)
    requires d < |s| && !IsSpace(s[d]) && s[d] != '@'
    requires PlainChars(s[..d]) && PlainChars(s[d + 1..])
    ensures PlainChars(s)
  {
    forall i | 0 <= i < |s| ensures !IsSpace(s[i]) && s[i] != '@' {
      if i < d {
        assert s[i] == s[..d][i];
      } else if i > d {
        assert s[i] == s[d + 1..][i - d - 1];
      }
    }
  }

  /** Everything the e-mail pattern accepts has the shape. */
  lemma ValidatedHasShape(s: string)
    requires ValidateEmail(s)
    ensures EmailShape(s)
  {
    var at := IndexOfChar(s, '@');
    var j := IndexOfChar(s[at + 1..][1..], '.');
    var dot := at + 2 + j;
    assert s[at + 1..][1..][j] == s[dot];
    PlainSlice(s, at + 1, at + 1, dot);
    PlainSlice(s, at + 1, dot + 1, |s|);
  }

  /** A plain string holds no `@`. */
  lemma PlainHasNoAt(s: string)
    requires PlainChars(s)
    ensures '@' !in s
  {
    forall i | 0 <= i < |s| ensures s[i] != '@' { }
  }

  /** Two non-empty plain parts around a `.` make a valid domain. */
  lemma DomainOfParts(left: string, right: string)
    requires |left| >= 1 && |right| >= 1 && PlainChars(left) && PlainChars(right)
    ensures ValidDomain(left + "." + right)
  {
    var domain := left + "." + right;
    var k := |left|;
    assert domain[..k] == left && domain[k + 1..] == right;
    PlainAround(domain, k);
    assert domain[1..][k - 1] == '.';
    IndexOfCharAtMost(domain[1..], '.', k - 1);
  }

  /** A string split at `a` and `d` as the shape describes is accepted. */
  lemma SplitShapeIsValidated(s: string, a: nat, d: nat)
    requires 0 < a && a + 1 < d && d + 1 < |s| && s[a] == '@' && s[d] == '.'
    requires PlainChars(s[..a]) && PlainChars(s[a + 1..d]) && PlainChars(s[d + 1..])
    ensures ValidateEmail(s)
  {
    PlainHasNoAt(s[..a]);
    IndexOfCharAt(s, '@', a);
    DomainOfParts(s[a + 1..d], s[d + 1..]);
    assert s[a + 1..] == s[a + 1..d] + "." + s[d + 1..];
  }

  /** Everything of the shape is accepted. */
  lemma ShapeIsValidated(s: string)
    requires EmailShape(s)
    ensures ValidateEmail(s)
  {
    var a, d :| 0 < a && a + 1 < d && d + 1 < |s| && s[a] == '@' && s[d] == '.' &&
      PlainChars(s[..a]) && PlainChars(s[a + 1..d]) && PlainChars(s[d + 1..]);
    SplitShapeIsValidated(s, a, d);
  }

  /** The e-mail pattern accepts exactly the strings of the shape. */
  lemma ValidateEmailIff(s: string)
    ensures ValidateEmail(s) <==> EmailShape(s)
  {
    if ValidateEmail(s) {
      ValidatedHasShape(s);
    }
    if EmailShape(s) {
      ShapeIsValidated(s);
    }
  }

  /** What a submission of the newsletter form ends in. */
  datatype SubmitOutcome = NoForm | InvalidEmail | Subscribed(email: string) | SubscriptionFailed(email: string)

  // ---------------------------------------------------------------------
  // The popup

  /** The scroll trigger's test `scrollTop / docHeight * 100 >= percentage`
      without division (a zero height gives `Infinity` for a positive
      offset and `NaN` otherwise; a negative height flips the
      comparison). */
  predicate ScrolledFar(scrollTop: nat, docHeight: int, percentage: int) {
    if docHeight > 0 then scrollTop * 100 >= percentage * docHeight
    else if docHeight == 0 then scrollTop > 0
    else scrollTop * 100 <= percentage * docHeight
  }

  /** The page the popups live in: its cookies, whether the body is locked
      against scrolling, and the events dispatched on it. */
  class Page {
    var cookies: Jar
    var bodyLocked: bool
    var openedEvents: seq<string>
    var closedEvents: seq<string>

    constructor (cookies: Jar)
      ensures this.cookies == cookies && !bodyLocked && openedEvents == [] && closedEvents == []
    {
      this.cookies := cookies;
      bodyLocked := false;
      openedEvents := [];
      closedEvents := [];
    }
  }

  class PromoPopup {
    const page: Page
    const sectionId: string
    const delay: int
    const trigger: string
    const scrollPercentage: int
    const exitIntent: bool
    const showOnce: bool
    const cookieDuration: int
    const hideOnMobile: bool
    const cookieName: string
    /** Whether the newsletter form has its e-mail input and submit
        button. */
    const hasForm: bool

    var isOpen: bool
    var hasShown: bool
    var scrollTriggered: bool
    var exitTriggered: bool
    /** Whether `init` set up the trigger. */
    var armed: bool
    /** The message shown under the e-mail input: `(isError, text)`. */
    var formMessage: Option<(bool, string)>
    /** Whether a close is scheduled after a successful subscription. */
    var closePending: bool

    /** Open implies shown. */
    ghost predicate Valid()
      reads this
    {
      isOpen ==> hasShown
    }

    /** The element's constructor: the settings with their defaults, the
        cookie name from the section, closed, and `init` (the trigger is
        set up when the popup may show at this width). */
    constructor (page: Page, sectionId: string, delay: Option<int>, trigger: string,
                 scrollPercentage: Option<int>, exitIntent: string, showOnce: string,
                 cookieDuration: Option<int>, hideMobile: string, hasForm: bool, viewportWidth: int)
      ensures Valid()
      ensures this.page == page && this.sectionId == sectionId
      ensures this.delay == IntOr(delay, 5) && this.scrollPercentage == IntOr(scrollPercentage, 50)
      ensures this.cookieDuration == IntOr(cookieDuration, 7)
      ensures this.trigger == if trigger != "" then trigger else "time"
      ensures this.showOnce == (showOnce == "true") && this.hideOnMobile == (hideMobile == "true")
      ensures cookieName == "promo-popup-" + sectionId
      ensures !isOpen && !hasShown && !scrollTriggered && !exitTriggered
      ensures armed == (ShouldShow(Lookup(Split(Render(page.cookies), ';'), cookieName + "="), viewportWidth) &&
                        this.trigger in {"time", "scroll", "exit"})
    {
      this.page := page;
      this.sectionId := sectionId;
      this.delay := IntOr(delay, 5);
      this.trigger := if trigger != "" then trigger else "time";
      this.scrollPercentage := IntOr(scrollPercentage, 50);
      this.exitIntent := exitIntent == "true";
      this.showOnce := showOnce == "true";
      this.cookieDuration := IntOr(cookieDuration, 7);
      this.hideOnMobile := hideMobile == "true";
      this.cookieName := "promo-popup-" + sectionId;
      this.hasForm := hasForm;
      isOpen := false;
      hasShown := false;
      scrollTriggered := false;
      exitTriggered := false;
      armed := false;
      formMessage := None;
      closePending := false;
      new;
      var cookie := GetCookie(Render(page.cookies), cookieName);
      if ShouldShow(cookie, viewportWidth) {
        armed := this.trigger in {"time", "scroll", "exit"};
      }
    }

    /** `shouldShow`, given what `getCookie` returned and the window width:
        not when show-once is on and the cookie has a (non-empty) value, not
        when hidden on mobile at 749 pixels or less. */
    predicate ShouldShow(cookie: Option<string>, viewportWidth: int)
    {
      !(showOnce && cookie.Some? && cookie.value != "") && !(hideOnMobile && viewportWidth <= 749)
    }

    /** `show`: only the first call has an effect; it opens the popup, locks
        the body, dispatches the opened event and, with show-once on, writes
        the cookie. */
    method Show()
      requires Valid()
      modifies this`hasShown, this`isOpen, page`bodyLocked, page`openedEvents, page`cookies
      ensures Valid()
      ensures old(hasShown) ==> (isOpen == old(isOpen) && hasShown &&
        page.cookies == old(page.cookies) && page.openedEvents == old(page.openedEvents) &&
        page.bodyLocked == old(page.bodyLocked))
      ensures !old(hasShown) ==> (isOpen && hasShown && page.bodyLocked &&
        page.openedEvents == old(page.openedEvents) + [sectionId] &&
        page.cookies == (if showOnce then SetCookie(old(page.cookies), cookieName, "shown") else old(page.cookies)))
      ensures page.closedEvents == old(page.closedEvents)
    {
      if hasShown {
        return;
      }
      hasShown := true;
      isOpen := true;
      page.bodyLocked := true;
      page.openedEvents := page.openedEvents + [sectionId];
      if showOnce {
        page.cookies := SetCookie(page.cookies, cookieName, "shown");
      }
    }

    /** `close`: a no-op unless open; otherwise closed, the body unlocked
        and the closed event dispatched. */
    method Close()
      modifies this`isOpen, page`bodyLocked, page`closedEvents
      ensures !isOpen
      ensures !old(isOpen) ==> page.bodyLocked == old(page.bodyLocked) && page.closedEvents == old(page.closedEvents)
      ensures old(isOpen) ==> !page.bodyLocked && page.closedEvents == old(page.closedEvents) + [sectionId]
    {
      if !isOpen {
        return;
      }
      isOpen := false;
      page.bodyLocked := false;
      page.closedEvents := page.closedEvents + [sectionId];
    }

    /** What the first `show` leaves, from the opened events and cookies
        before it: open and shown over a locked body, the opened event
        dispatched and, with show-once on, the cookie written. */
    ghost predicate ShownOver(events: seq<string>, cookies: Jar)
      reads this`isOpen, this`hasShown, page`bodyLocked, page`openedEvents, page`cookies
    {
      && isOpen && hasShown && page.bodyLocked
      && page.openedEvents == events + [sectionId]
      && page.cookies == (if showOnce then SetCookie(cookies, cookieName, "shown") else cookies)
    }

    /** The popup and the page as given: nothing was shown. */
    ghost predicate Untouched(open: bool, shown: bool, locked: bool, events: seq<string>, cookies: Jar)
      reads this`isOpen, this`hasShown, page`bodyLocked, page`openedEvents, page`cookies
    {
      && isOpen == open && hasShown == shown && page.bodyLocked == locked
      && page.openedEvents == events && page.cookies == cookies
    }

    /** The time trigger firing after the delay: shows the popup unless it
        has shown already. */
    method TimeElapsed()
      requires Valid()
      modifies this`hasShown, this`isOpen, page`bodyLocked, page`openedEvents, page`cookies
      ensures Valid()
      ensures armed && trigger == "time" && !old(hasShown) ==>
        ShownOver(old(page.openedEvents), old(page.cookies))
      ensures !(armed && trigger == "time" && !old(hasShown)) ==>
        Untouched(old(isOpen), old(hasShown), old(page.bodyLocked), old(page.openedEvents), old(page.cookies))
    {
      if armed && trigger == "time" && !hasShown {
        Show();
      }
    }

    /** The (debounced) scroll handler: shows once when scrolled far
        enough. */
    method Scrolled(scrollTop: nat, docHeight: int)
      requires Valid()
      modifies this`hasShown, this`isOpen, this`scrollTriggered, page`bodyLocked, page`openedEvents, page`cookies
      ensures Valid()
      ensures var fires := armed && trigger == "scroll" && !old(scrollTriggered) && !old(hasShown) &&
          ScrolledFar(scrollTop, docHeight, scrollPercentage);
        (fires ==> scrollTriggered && ShownOver(old(page.openedEvents), old(page.cookies))) &&
        (!fires ==>
          scrollTriggered == old(scrollTriggered) &&
          Untouched(old(isOpen), old(hasShown), old(page.bodyLocked), old(page.openedEvents), old(page.cookies)))
    {
      if !armed || trigger != "scroll" {
        return;
      }
      if scrollTriggered || hasShown {
        return;
      }
      if ScrolledFar(scrollTop, docHeight, scrollPercentage) {
        scrollTriggered := true;
        Show();
      }
    }

    /** The mouse-leave handler: shows once when the mouse leaves through
        the top edge. */
    method MouseLeft(clientY: int)
      requires Valid()
      modifies this`hasShown, this`isOpen, this`exitTriggered, page`bodyLocked, page`openedEvents, page`cookies
      ensures Valid()
      ensures var fires := armed && trigger == "exit" && !old(exitTriggered) && !old(hasShown) && clientY <= 0;
        (fires ==> exitTriggered && ShownOver(old(page.openedEvents), old(page.cookies))) &&
        (!fires ==>
          exitTriggered == old(exitTriggered) &&
          Untouched(old(isOpen), old(hasShown), old(page.bodyLocked), old(page.openedEvents), old(page.cookies)))
    {
      if !armed || trigger != "exit" {
        return;
      }
      if exitTriggered || hasShown {
        return;
      }
      if clientY <= 0 {
        exitTriggered := true;
        Show();
      }
    }

    /** `handleNewsletterSubmit` with the request's result as a parameter:
        the address is trimmed and checked first; only a valid one is sent;
        success shows the thanks and schedules a close. */
    method HandleNewsletterSubmit(input: string, responseOk: bool) returns (outcome: SubmitOutcome)
      modifies this`formMessage, this`closePending
      ensures !hasForm ==> outcome == NoForm && formMessage == old(formMessage) && closePending == old(closePending)
      ensures hasForm && !ValidateEmail(Trim(input)) ==>
        outcome == InvalidEmail && formMessage == Some((true, "Please enter a valid email address")) &&
        closePending == old(closePending)
      ensures hasForm && ValidateEmail(Trim(input)) && responseOk ==>
        outcome == Subscribed(Trim(input)) && formMessage == Some((false, "Thank you for subscribing!")) &&
        closePending
      ensures hasForm && ValidateEmail(Trim(input)) && !responseOk ==>
        outcome == SubscriptionFailed(Trim(input)) &&
        formMessage == Some((true, "Subscription failed. Please try again.")) && closePending == old(closePending)
    {
      if !hasForm {
        return NoForm;
      }
      var email := Trim(input);
      if !ValidateEmail(email) {
        formMessage := Some((true, "Please enter a valid email address"));
        return InvalidEmail;
      }
      if responseOk {
        formMessage := Some((false, "Thank you for subscribing!"));
        closePending := true;
        outcome := Subscribed(email);
      } else {
        formMessage := Some((true, "Subscription failed. Please try again."));
        outcome := SubscriptionFailed(email);
      }
    }
  }

  /** Once a show-once popup has shown, the cookie it wrote keeps it from
      showing again on a later page with the same cookies. */
  lemma ShownOnceStaysHidden(jar: Jar, sectionId: string)
    requires WellFormed(jar) && CookieName("promo-popup-" + sectionId)
    ensures var after := SetCookie(jar, "promo-popup-" + sectionId, "shown");
      Lookup(Split(Render(after), ';'), "promo-popup-" + sectionId + "=") == Some("shown")
  {
    var name := "promo-popup-" + sectionId;
    SetCookieValue(jar, name, "shown");
    var after := SetCookie(jar, name, "shown");
    assert after != [];
    GetCookieOfJar(after, name);
  }

  /** The manager of all popups on the page. */
  class PromoPopupManager {
    const page: Page
    var instances: seq<PromoPopup>

    /** The instances form a `Set`: no popup is listed twice. */
    ghost predicate Valid()
      reads this, instances
    {
      && (forall i :: 0 <= i < |instances| ==> instances[i].page == page && instances[i].Valid())
      && (forall i, j :: 0 <= i < j < |instances| ==> instances[i] != instances[j])
    }

    constructor (page: Page, instances: seq<PromoPopup>)
      ensures this.page == page && this.instances == instances
    {
      this.page := page;
      this.instances := instances;
    }

    /** `handlePopupOpened`: every other open popup is closed, so the only
        open popups left belong to that section; those stay as they were.
        Each close unlocks the body, so the body ends up unlocked whenever
        another popup was open, and one closed event is dispatched per
        closed popup, in instance order. Nothing else about the popups
        changes. */
    method HandlePopupOpened(sectionId: string)
      requires Valid()
      modifies (set i | 0 <= i < |instances| :: instances[i])`isOpen, page`bodyLocked, page`closedEvents
      ensures Valid()
      ensures forall i :: 0 <= i < |instances| ==>
        instances[i].isOpen == (old(instances[i].isOpen) && instances[i].sectionId == sectionId)
      ensures forall i :: 0 <= i < |instances| ==> instances[i].hasShown == old(instances[i].hasShown)
      ensures page.bodyLocked == (old(page.bodyLocked) && ClosedBy(old(OpenSections()), sectionId) == [])
      ensures page.closedEvents == old(page.closedEvents) + ClosedBy(old(OpenSections()), sectionId)
    {
      ghost var before := OpenSections();
      for k := 0 to |instances|
        invariant ClosedUpTo(k, sectionId, before, old(page.closedEvents), old(page.bodyLocked))
      {
        CloseStep(k, sectionId, before, old(page.closedEvents), old(page.bodyLocked));
      }
      assert before[..|instances|] == before;
    }

    /** The state after the `forEach` of `handlePopupOpened` has visited
        the first `k` instances, from the open sections `before` and the
        page's closed events and body lock before the loop. */
    ghost predicate ClosedUpTo(k: nat, sectionId: string, before: seq<Option<string>>,
                               events: seq<string>, locked: bool)
      reads this, instances, page
    {
      && k <= |instances| == |before|
      && (forall i :: 0 <= i < |instances| ==>
            instances[i].isOpen == (before[i].Some? && (k <= i || instances[i].sectionId == sectionId)))
      && page.closedEvents == events + ClosedBy(before[..k], sectionId)
      && page.bodyLocked == (locked && ClosedBy(before[..k], sectionId) == [])
    }

    /** One iteration of the `forEach` of `handlePopupOpened`. */
    method CloseStep(k: nat, sectionId: string, ghost before: seq<Option<string>>,
                     ghost events: seq<string>, ghost locked: bool)
      requires Valid() && k < |instances|
      requires ClosedUpTo(k, sectionId, before, events, locked)
      requires forall i :: 0 <= i < |before| ==> before[i].Some? ==> before[i].value == instances[i].sectionId
      modifies {instances[k]}`isOpen, page`bodyLocked, page`closedEvents
      ensures ClosedUpTo(k + 1, sectionId, before, events, locked)
    {
      ClosedByStep(before, k, sectionId);
      CloseIfOther(k, sectionId);
    }

    /** The body of the `forEach` in `handlePopupOpened`, on the `k`-th
        instance: closes it when it is open and belongs to another
        section; the other instances are untouched. */
    method CloseIfOther(k: nat, sectionId: string)
      requires k < |instances| && instances[k].page == page
      requires forall i :: 0 <= i < |instances| && i != k ==> instances[i] != instances[k]
      modifies {instances[k]}`isOpen, page`bodyLocked, page`closedEvents
      ensures instances[k].isOpen == (old(instances[k].isOpen) && instances[k].sectionId == sectionId)
      ensures forall i :: 0 <= i < |instances| && i != k ==> instances[i].isOpen == old(instances[i].isOpen)
      ensures old(instances[k].isOpen) && instances[k].sectionId != sectionId ==>
        !page.bodyLocked && page.closedEvents == old(page.closedEvents) + [instances[k].sectionId]
      ensures !(old(instances[k].isOpen) && instances[k].sectionId != sectionId) ==>
        page.bodyLocked == old(page.bodyLocked) && page.closedEvents == old(page.closedEvents)
    {
      var p := instances[k];
      if p.sectionId != sectionId && p.isOpen {
        p.Close();
      }
    }

    /** For each instance, its section when it is open and nothing
        otherwise. */
    function OpenSections(): (r: seq<Option<string>>)
      reads this, instances
      ensures |r| == |instances|
      ensures forall i :: 0 <= i < |r| ==> (r[i].Some? <==> instances[i].isOpen) && (r[i].Some? ==> r[i].value == instances[i].sectionId)
    {
      seq(|instances|, i reads this, instances requires 0 <= i < |instances| =>
        if instances[i].isOpen then Some(instances[i].sectionId) else None)
    }

    /** Opening a popup as the page does: `show` dispatches the opened
        event, whose listener is `handlePopupOpened`. When another section's
        popup was open, the new popup ends up open over an unlocked body. */
    method OpenPopup(p: PromoPopup)
      requires Valid() && p in instances
      modifies set i | 0 <= i < |instances| :: instances[i], page
      ensures Valid()
      ensures !old(p.hasShown) ==> p.isOpen && p.hasShown
      ensures !old(p.hasShown) && OtherOpen(old(OpenSections()), p.sectionId) ==> !page.bodyLocked
    {
      var wasShown := p.hasShown;
      ghost var before := OpenSections();
      p.Show();
      if !wasShown {
        if OtherOpen(before, p.sectionId) {
          var j :| 0 <= j < |before| && before[j].Some? && before[j].value != p.sectionId;
          assert OpenSections()[j] == before[j];
        }
        HandlePopupOpened(p.sectionId);
      }
    }

    /** Opening a popup with the body kept locked for it: the others are
        closed as before, then the lock is put back. */
    method OpenPopupKeepingLock(p: PromoPopup)
      requires Valid() && p in instances
      modifies set i | 0 <= i < |instances| :: instances[i], page
      ensures Valid()
      ensures !old(p.hasShown) ==> p.isOpen && p.hasShown && page.bodyLocked
      ensures !old(p.hasShown) ==> forall i :: 0 <= i < |instances| && instances[i].isOpen ==> instances[i].sectionId == p.sectionId
    {
      var wasShown := p.hasShown;
      p.Show();
      if !wasShown {
        HandlePopupOpened(p.sectionId);
        page.bodyLocked := true;
      }
    }
  }

  /** The sections of the open popups other than `sectionId`, in order:
      the closed events `handlePopupOpened` dispatches. */
  function ClosedBy(open: seq<Option<string>>, sectionId: string): (r: seq<string>)
    ensures |r| <= |open|
    ensures forall k :: 0 <= k < |r| ==> r[k] != sectionId
    ensures r == [] <==> !OtherOpen(open, sectionId)
  {
    if open == [] then []
    else
      var last := open[|open| - 1];
      ClosedBy(open[..|open| - 1], sectionId) + (if last.Some? && last.value != sectionId then [last.value] else [])
  }

  /** `ClosedBy` over one more entry. */
  lemma ClosedByStep(open: seq<Option<string>>, k: nat, sectionId: string)
    requires k < |open|
    ensures ClosedBy(open[..k + 1], sectionId) ==
      ClosedBy(open[..k], sectionId) + (if open[k].Some? && open[k].value != sectionId then [open[k].value] else [])
  {
    assert open[..k + 1][..k] == open[..k];
  }

  /** Some entry is the section of an open popup other than `sectionId`. */
  predicate OtherOpen(open: seq<Option<string>>, sectionId: string) {
    exists i :: 0 <= i < |open| && open[i].Some? && open[i].value != sectionId
  }
}
