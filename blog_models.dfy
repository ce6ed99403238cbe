/**
 * The backend's data models: the blog post and contact message records with
 * their default field values, and the field constraints of the contact form
 * body (`ContactMessageCreate`), which the web framework checks before a
 * route runs and reports with status 422.
 */
module BlogModels {
  import opened Wrappers

  const DefaultAuthor: string := "G.J. Rahul"
  /** The status every new contact message gets. */
  const NewStatus: string := "new"

  /** Seconds since the epoch; rendering a timestamp as ISO text is not modelled. */
  type Timestamp = int

  /** `BlogPost`: `id` comes from a fresh UUID the caller supplies. */
  datatype BlogPost = BlogPost(id: string, title: string, excerpt: string, content: string,
                               publishDate: string, readTime: string, category: string, url: string,
                               author: string, featuredImage: Option<string>)

  /** A BlogPost built from its required fields; `content`, `author` and `featuredImage` take their defaults. */
  function NewBlogPost(id: string, title: string, excerpt: string, publishDate: string,
                       readTime: string, category: string, url: string): (p: BlogPost)
    ensures p.content == "" && p.author == DefaultAuthor && p.featuredImage == None
    ensures p.id == id && p.title == title && p.excerpt == excerpt && p.publishDate == publishDate
    ensures p.readTime == readTime && p.category == category && p.url == url
  {
    BlogPost(id, title, excerpt, "", publishDate, readTime, category, url, DefaultAuthor, None)
  }

  datatype BlogPostsResponse = BlogPostsResponse(posts: seq<BlogPost>, totalPosts: int, lastFetched: string,
                                                 isFallback: Option<bool>)

  /** A BlogPostsResponse built from its required fields; `isFallback` defaults to False. */
  function NewBlogPostsResponse(posts: seq<BlogPost>, totalPosts: int, lastFetched: string): (r: BlogPostsResponse)
    ensures r.isFallback == Some(false)
    ensures r.posts == posts && r.totalPosts == totalPosts && r.lastFetched == lastFetched
  {
    BlogPostsResponse(posts, totalPosts, lastFetched, Some(false))
  }

  /** `ContactMessage`: `id` is a fresh UUID, `submittedAt` the current time, both supplied by the caller. */
  datatype ContactMessage = ContactMessage(id: string, name: string, email: string, message: string,
                                           submittedAt: Timestamp, status: string)

  /** A ContactMessage built from its required fields; `status` defaults to "new". */
  function NewContactMessage(id: string, name: string, email: string, message: string, submittedAt: Timestamp): (m: ContactMessage)
    ensures m.status == NewStatus
    ensures m.id == id && m.name == name && m.email == email && m.message == message && m.submittedAt == submittedAt
  {
    ContactMessage(id, name, email, message, submittedAt, NewStatus)
  }

  // The contact form body

  /** A validated contact form body. */
  datatype ContactMessageCreate = ContactMessageCreate(name: string, email: string, message: string)

  /** The body as received: a field the client left out is None. */
  datatype RawContact = RawContact(name: Option<string>, email: Option<string>, message: Option<string>)

  datatype FieldError =
    | Missing(field: string)
    | TooShort(field: string, minLength: nat)
    | TooLong(field: string, maxLength: nat)
    | PatternMismatch(field: string)

  const NameMax: nat := 100
  const MessageMax: nat := 1000

  /** The length constraint `min_length=1, max_length=max` on one field. */
  function CheckLength(field: string, v: string, max: nat): (errs: seq<FieldError>)
    ensures errs == [] <==> 1 <= |v| <= max
    ensures |errs| <= 1
  {
    if |v| < 1 then [TooShort(field, 1)]
    else if |v| > max then [TooLong(field, max)]
    else []
  }

  function CheckEmail(v: string): (errs: seq<FieldError>)
    ensures errs == [] <==> EmailPattern(v)
    ensures |errs| <= 1
  {
    EmailEquivalence(v);
    if IsValidEmail(v) then [] else [PatternMismatch("email")]
  }

  /** The errors of one required field: Missing when absent, otherwise what `check` reports. */
  function FieldErrors(field: string, v: Option<string>, check: string -> seq<FieldError>): (errs: seq<FieldError>)
    ensures v.None? ==> errs == [Missing(field)]
    ensures v.Some? ==> errs == check(v.value)
  {
    match v
    case None => [Missing(field)]
    case Some(s) => check(s)
  }

  function NameErrors(raw: RawContact): seq<FieldError> {
    FieldErrors("name", raw.name, s => CheckLength("name", s, NameMax))
  }

  function EmailErrors(raw: RawContact): seq<FieldError> {
    FieldErrors("email", raw.email, CheckEmail)
  }

  function MessageErrors(raw: RawContact): seq<FieldError> {
    FieldErrors("message", raw.message, s => CheckLength("message", s, MessageMax))
  }

  /** Validation of the whole body: every field is checked and every failing field is reported. */
  function ValidateContact(raw: RawContact): (r: Result<ContactMessageCreate, seq<FieldError>>)
    ensures r.Ok? <==>
      && raw.name.Some? && 1 <= |raw.name.value| <= NameMax
      && raw.email.Some? && EmailPattern(raw.email.value)
      && raw.message.Some? && 1 <= |raw.message.value| <= MessageMax
    ensures r.Ok? ==> r.value == ContactMessageCreate(raw.name.value, raw.email.value, raw.message.value)
    ensures r.Err? ==> r.error != [] && r.error == NameErrors(raw) + EmailErrors(raw) + MessageErrors(raw)
  {
    var errs := NameErrors(raw) + EmailErrors(raw) + MessageErrors(raw);
    if errs == [] then Ok(ContactMessageCreate(raw.name.value, raw.email.value, raw.message.value))
    else Err(errs)
  }

  // The email pattern: local-part characters, `@`, domain characters, a `.` and two or more letters

  predicate IsLetter(c: char) {
    'a' <= c <= 'z' || 'A' <= c <= 'Z'
  }

  predicate IsAlnum(c: char) {
    IsLetter(c) || '0' <= c <= '9'
  }

  /** `[a-zA-Z0-9._%+-]` */
  predicate LocalChar(c: char) {
    IsAlnum(c) || c == '.' || c == '_' || c == '%' || c == '+' || c == '-'
  }

  /** `[a-zA-Z0-9.-]` */
  predicate DomainChar(c: char) {
    IsAlnum(c) || c == '.' || c == '-'
  }

  predicate AllLocal(s: string) {
    forall i :: 0 <= i < |s| ==> LocalChar(s[i])
  }

  predicate AllDomain(s: string) {
    forall i :: 0 <= i < |s| ==> DomainChar(s[i])
  }

  predicate AllLetters(s: string) {
    forall i :: 0 <= i < |s| ==> IsLetter(s[i])
  }

  /** The text matches the pattern: a local part, `@`, a domain prefix, `.`, and at least two letters. */
  ghost predicate EmailPattern(s: string) {
    exists at, dot :: 0 < at && at + 1 < dot && dot + 2 < |s| && s[at] == '@' && s[dot] == '.'
      && AllLocal(s[..at]) && AllDomain(s[at + 1..dot]) && AllLetters(s[dot + 1..])
  }

  /** The first index of `c` in `s`. */
  function IndexOf(s: string, c: char): (r: Option<nat>)
    ensures r.None? ==> forall i :: 0 <= i < |s| ==> s[i] != c
    ensures r.Some? ==> r.value < |s| && s[r.value] == c && forall i :: 0 <= i < r.value ==> s[i] != c
  {
    if s == [] then None
    else if s[0] == c then Some(0)
    else match IndexOf(s[1..], c)
      case None => None
      case Some(k) => Some(k + 1)
  }

  /** The last index of `c` in `s`. */
  function LastIndexOf(s: string, c: char): (r: Option<nat>)
    ensures r.None? ==> forall i :: 0 <= i < |s| ==> s[i] != c
    ensures r.Some? ==> r.value < |s| && s[r.value] == c && forall i :: r.value < i < |s| ==> s[i] != c
  {
    if s == [] then None
    else if s[|s| - 1] == c then Some(|s| - 1)
    else LastIndexOf(s[..|s| - 1], c)
  }

  /**
   * A scan for the pattern: the local part ends at the first `@`; the letters
   * after the last `.` of the domain end the text.
   */
  predicate IsValidEmail(s: string) {
    match IndexOf(s, '@')
    case None => false
    case Some(at) =>
      var local, domain := s[..at], s[at + 1..];
      && |local| >= 1 && AllLocal(local) && AllDomain(domain)
      && match LastIndexOf(domain, '.')
         case None => false
         case Some(dot) => dot >= 1 && |domain| - dot - 1 >= 2 && AllLetters(domain[dot + 1..])
  }

  /** The scan accepts exactly the texts that match the pattern. */
  lemma EmailEquivalence(s: string)
    ensures IsValidEmail(s) <==> EmailPattern(s)
  {
    if IsValidEmail(s) {
      var at := IndexOf(s, '@').value;
      var domain := s[at + 1..];
      var d := LastIndexOf(domain, '.').value;
      var dot := at + 1 + d;
      assert s[dot] == domain[d];
      assert s[at + 1..dot] == domain[..d];
      assert s[dot + 1..] == domain[d + 1..];
      assert AllDomain(s[at + 1..dot]) by {
        forall i | 0 <= i < d ensures DomainChar(domain[..d][i]) {
          assert domain[..d][i] == domain[i];
        }
      }
    }
    if EmailPattern(s) {
      var at, dot :| 0 < at && at + 1 < dot && dot + 2 < |s| && s[at] == '@' && s[dot] == '.'
        && AllLocal(s[..at]) && AllDomain(s[at + 1..dot]) && AllLetters(s[dot + 1..]);
      EmailPatternScan(s, at, dot);
    }
  }

  lemma EmailPatternScan(s: string, at: nat, dot: nat)
    requires 0 < at && at + 1 < dot && dot + 2 < |s| && s[at] == '@' && s[dot] == '.'
    requires AllLocal(s[..at]) && AllDomain(s[at + 1..dot]) && AllLetters(s[dot + 1..])
    ensures IsValidEmail(s)
  {
    var domain := s[at + 1..];
    var d := dot - at - 1;
    assert domain[..d] == s[at + 1..dot] && domain[d + 1..] == s[dot + 1..] && domain[d] == '.';
    FirstAt(s, at);
    LastDot(domain, d);
    DomainAll(domain, d);
  }

  /** No local-part character is `@`, so the first `@` ends the local part. */
  lemma FirstAt(s: string, at: nat)
    requires at < |s| && s[at] == '@' && AllLocal(s[..at])
    ensures IndexOf(s, '@') == Some(at)
  {
    forall i | 0 <= i < at ensures s[i] != '@' {
      assert s[..at][i] == s[i];
    }
  }

  /** No letter is `.`, so a `.` followed only by letters is the last one. */
  lemma LastDot(domain: string, d: nat)
    requires d < |domain| && domain[d] == '.' && AllLetters(domain[d + 1..])
    ensures LastIndexOf(domain, '.') == Some(d)
  {
    forall i | d < i < |domain| ensures domain[i] != '.' {
      assert domain[i] == domain[d + 1..][i - d - 1];
    }
  }

  /** Domain characters, a `.` and letters are all domain characters. */
  lemma DomainAll(domain: string, d: nat)
    requires d < |domain| && domain[d] == '.' && AllDomain(domain[..d]) && AllLetters(domain[d + 1..])
    ensures AllDomain(domain)
  {
    forall i | 0 <= i < |domain| ensures DomainChar(domain[i]) {
      if i < d {
        assert domain[i] == domain[..d][i];
      } else if i > d {
        assert domain[i] == domain[d + 1..][i - d - 1];
      }
    }
  }

  /** An accepted email holds exactly one `@`: neither character class contains it. */
  lemma ValidEmailOneAt(s: string)
    requires EmailPattern(s)
    ensures exists at :: 0 <= at < |s| && s[at] == '@' && forall i :: 0 <= i < |s| && s[i] == '@' ==> i == at
  {
    var at, dot :| 0 < at && at + 1 < dot && dot + 2 < |s| && s[at] == '@' && s[dot] == '.'
      && AllLocal(s[..at]) && AllDomain(s[at + 1..dot]) && AllLetters(s[dot + 1..]);
    forall i | 0 <= i < |s| && i != at ensures s[i] != '@' {
      if i < at {
        assert s[..at][i] == s[i];
        assert LocalChar(s[..at][i]);
      } else if i < dot {
        assert s[at + 1..dot][i - at - 1] == s[i];
        assert DomainChar(s[at + 1..dot][i - at - 1]);
      } else if i > dot {
        assert s[dot + 1..][i - dot - 1] == s[i];
        assert IsLetter(s[dot + 1..][i - dot - 1]);
      }
    }
  }

  const InvalidEmailExample: string := "invalid-email"

  /** A text without `@` is never an email; "invalid-email" is rejected. */
  lemma NoAtRejected(s: string)
    requires forall i :: 0 <= i < |s| ==> s[i] != '@'
    ensures !EmailPattern(s)
    ensures forall name, message :: ValidateContact(RawContact(name, Some(s), message)).Err?
  {
    EmailEquivalence(s);
  }

  lemma InvalidEmailRejected()
    ensures !EmailPattern(InvalidEmailExample)
  {
    var s := InvalidEmailExample;
    assert forall i :: 0 <= i < |s| ==> s[i] != '@';
    NoAtRejected(s);
  }

  /** An empty name or message is too short, and a missing field is reported as missing. */
  lemma RequiredFieldsRejected(raw: RawContact)
    ensures raw.name == Some("") ==> ValidateContact(raw).Err? && TooShort("name", 1) in ValidateContact(raw).error
    ensures raw.message == Some("") ==> ValidateContact(raw).Err? && TooShort("message", 1) in ValidateContact(raw).error
    ensures raw.name.None? ==> ValidateContact(raw).Err? && Missing("name") in ValidateContact(raw).error
    ensures raw.email.None? ==> ValidateContact(raw).Err? && Missing("email") in ValidateContact(raw).error
    ensures raw.message.None? ==> ValidateContact(raw).Err? && Missing("message") in ValidateContact(raw).error
  {
    var errs := NameErrors(raw) + EmailErrors(raw) + MessageErrors(raw);
    assert forall e :: e in NameErrors(raw) ==> e in errs;
    assert forall e :: e in EmailErrors(raw) ==> e in errs;
    assert forall e :: e in MessageErrors(raw) ==> e in errs;
  }
}
