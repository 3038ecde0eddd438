/**
 * The access gate and the page routes: which pages need a signed-in session, which
 * are for anonymous visitors only, where each kind of visitor is redirected, and the
 * case-insensitive whitelist of subject pages.
 */
module Routes {
  import opened Common

  /** The subjects that have a quiz page. */
  const SUBJECTS: set<string> := {"mnst", "mc", "cd", "cns", "ml"}

  /** `req.session.userId` is truthy: present and not the empty string. */
  predicate SignedIn(session: Option<string>): (r: bool)
    ensures r ==> session.Some?
    ensures session == Some("") ==> !r
    ensures forall u :: u != "" && session == Some(u) ==> r
  {
    session.Some? && session.value != ""
  }

  /** The pages served by GET routes. */
  datatype Page = Root | Home | RegisterForm | LoginForm | View | SubjectPage(subject: string)

  /** Pages behind the login gate. */
  predicate IsProtected(page: Page)
  {
    page.View? || page.SubjectPage?
  }

  /** Pages that a signed-in visitor is sent away from. */
  predicate IsAnonymousOnly(page: Page)
  {
    page.Home? || page.RegisterForm? || page.LoginForm?
  }

  /** The login gate in front of a protected handler: without a session user the
      handler does not run and the visitor is sent to the login page; otherwise the
      handler runs for the session's user id. */
  function RequireAuth<T>(session: Option<string>, handler: string -> Reply<T>): (r: Reply<T>)
    ensures !SignedIn(session) ==> r == Redirect("/login")
    ensures SignedIn(session) ==> r == handler(session.value)
  {
    if !SignedIn(session) then Redirect("/login") else handler(session.value)
  }

  /** An anonymous-only page: a signed-in visitor is sent to the dashboard. */
  function AnonymousOnly(session: Option<string>, view: string): (r: Reply<()>)
    ensures SignedIn(session) ==> r == Redirect("/view")
    ensures !SignedIn(session) ==> r == File(view)
  {
    if SignedIn(session) then Redirect("/view") else File(view)
  }

  /** An ASCII upper-case letter to lower case; every other character unchanged. */
  function LowerChar(c: char): char
  {
    if 'A' <= c <= 'Z' then (c as int + ('a' as int - 'A' as int)) as char else c
  }

  /** `String.prototype.toLowerCase`, restricted to ASCII letters. */
  function ToLower(s: string): (r: string)
    ensures |r| == |s|
    ensures forall i :: 0 <= i < |s| ==> r[i] == LowerChar(s[i])
  {
    if s == [] then [] else [LowerChar(s[0])] + ToLower(s[1..])
  }

  /** The outcome of looking a subject up in the whitelist. */
  datatype Subject = Found(name: string) | NotFound

  /** The subject route's check: the lower-cased name is looked up in the whitelist. */
  function LookupSubject(raw: string): (r: Subject)
    ensures r.Found? ==> r.name in SUBJECTS
    ensures r.Found? <==> ToLower(raw) in SUBJECTS
    ensures r.Found? ==> r.name == ToLower(raw)
  {
    var subject := ToLower(raw);
    if subject in SUBJECTS then Found(subject) else NotFound
  }

  /** The view file that belongs to each page (the root has none). */
  function ViewFile(page: Page): string
  {
    match page
    case Root => ""
    case Home => "views/home.html"
    case RegisterForm => "views/register.html"
    case LoginForm => "views/login.html"
    case View => "views/view.html"
    case SubjectPage(raw) => "views/subjects/" + ToLower(raw) + ".html"
  }

  /** The GET page routes. */
  function Serve(page: Page, session: Option<string>): (r: Reply<()>)
    ensures IsProtected(page) && !SignedIn(session) ==> r == Redirect("/login")
    ensures IsAnonymousOnly(page) && SignedIn(session) ==> r == Redirect("/view")
    ensures IsAnonymousOnly(page) && !SignedIn(session) ==> r == File(ViewFile(page))
    ensures page == View && SignedIn(session) ==> r == File("views/view.html")
    ensures page == Root ==> r == Redirect(if SignedIn(session) then "/view" else "/home")
    ensures r.File? ==> (SignedIn(session) <==> IsProtected(page)) && r.view == ViewFile(page)
    ensures page.SubjectPage? && SignedIn(session) ==>
      (r.File? <==> ToLower(page.subject) in SUBJECTS) &&
      (!r.File? ==> r == Error(404, "Subject not found"))
    ensures !r.Error? ==> r.Redirect? || r.File?
  {
    match page
    case Root => Redirect(if SignedIn(session) then "/view" else "/home")
    case Home => AnonymousOnly(session, "views/home.html")
    case RegisterForm => AnonymousOnly(session, "views/register.html")
    case LoginForm => AnonymousOnly(session, "views/login.html")
    case View => RequireAuth(session, _ => File("views/view.html"))
    case SubjectPage(raw) =>
      RequireAuth(session, _ =>
        match LookupSubject(raw)
        case Found(subject) => File("views/subjects/" + subject + ".html")
        case NotFound => Error(404, "Subject not found"))
  }

  // ---------------------------------------------------------------------------

  /** Lower-casing twice is lower-casing once. */
  lemma {:induction false} ToLowerIdempotent(s: string)
    ensures ToLower(ToLower(s)) == ToLower(s)
  {
    if s != [] {
      ToLowerIdempotent(s[1..]);
      assert ToLower(s)[1..] == ToLower(s[1..]);
    }
  }

  /** Two names that differ only in ASCII case get the same subject page (or the same 404). */
  lemma SubjectCaseInsensitive(raw: string, other: string, session: Option<string>)
    requires ToLower(raw) == ToLower(other)
    ensures LookupSubject(raw) == LookupSubject(other)
    ensures Serve(SubjectPage(raw), session) == Serve(SubjectPage(other), session)
  {
  }

  /** In particular a name and its lower-cased form are served alike. */
  lemma SubjectLowerCaseSame(raw: string, session: Option<string>)
    ensures LookupSubject(raw) == LookupSubject(ToLower(raw))
    ensures Serve(SubjectPage(raw), session) == Serve(SubjectPage(ToLower(raw)), session)
  {
    ToLowerIdempotent(raw);
  }

  /** The examples: "ML" finds the ml page, "xyz" is not a subject. */
  lemma SubjectExamples(session: Option<string>)
    requires SignedIn(session)
    ensures Serve(SubjectPage("ML"), session) == File("views/subjects/ml.html")
    ensures Serve(SubjectPage("ML"), session) == Serve(SubjectPage("ml"), session)
    ensures Serve(SubjectPage("xyz"), session) == Error(404, "Subject not found")
  {
    assert ToLower("ML") == "ml";
    assert ToLower("xyz") == "xyz";
  }
}
