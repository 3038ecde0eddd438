/**
 * The server's state and its handlers: the user directory, the assessment log and
 * the session of the current visitor, with registration, login, logout, the
 * profile endpoint, quiz submission and the owner-scoped history queries.
 *
 * Password hashing is not interpreted: a portal is built from a `hash` function of
 * a password and a salt (the salt stands for the randomness of each call) and a
 * `verify` function, and all it relies on is that a password verifies against
 * every hash made from it.
 */
module Server {
  import opened Common
  import opened Scoring
  import opened Routes
  import opened Store

  /** The JSON body a successful submission answers with. */
  datatype Receipt = Receipt(assessmentId: nat, score: nat, totalQuestions: nat, percentage: nat)

  class Portal {
    /** `bcrypt.hash(password, 10)` with the salt that call would draw. */
    const hash: (string, string) -> string
    /** `bcrypt.compare(password, hash)`. */
    const verify: (string, string) -> bool

    var users: seq<User>
    var assessments: seq<Assessment>
    /** `req.session.userId` of the current visitor's session. */
    var session: Option<string>

    ghost predicate Valid()
      reads this
    {
      && UniqueKeys(users)
      && (forall i :: 0 <= i < |assessments| ==> assessments[i].id == i)
      && (forall password, salt :: verify(password, hash(password, salt)))
    }

    constructor (hash: (string, string) -> string, verify: (string, string) -> bool)
      requires forall password, salt :: verify(password, hash(password, salt))
      ensures Valid()
      ensures this.hash == hash && this.verify == verify
      ensures users == [] && assessments == [] && session == None
    {
      this.hash := hash;
      this.verify := verify;
      users := [];
      assessments := [];
      session := None;
    }

    /** POST /register: refuses an id or email already taken, otherwise stores the
        new user with the hash of the password and redirects to the login page. */
    method Register(id: string, name: string, email: string, password: string, salt: string) returns (r: Reply<()>)
      requires Valid()
      modifies this
      ensures Valid()
      ensures (exists u :: u in old(users) && (u.userId == id || u.email == email)) ==>
        r == Error(400, "User already exists") && users == old(users)
      ensures (forall u :: u in old(users) ==> u.userId != id && u.email != email) ==>
        r == Redirect("/login") && users == old(users) + [User(id, name, email, hash(password, salt))]
      ensures assessments == old(assessments) && session == old(session)
    {
      if FindUserByIdOrEmail(users, id, email).Some? {
        return Error(400, "User already exists");
      }
      var user := User(id, name, email, hash(password, salt));
      AppendKeepsUnique(users, user);
      users := users + [user];
      r := Redirect("/login");
    }

    /** POST /login: signs the visitor in when a user with that id exists and the
        password verifies against its stored hash. */
    method Login(id: string, password: string) returns (r: Reply<()>)
      requires Valid()
      modifies this`session
      ensures Valid()
      ensures (exists u :: u in users && u.userId == id && verify(password, u.password)) ==>
        r == Redirect("/view") && session == Some(id)
      ensures !(exists u :: u in users && u.userId == id && verify(password, u.password)) ==>
        r == Error(401, "Invalid credentials") && session == old(session)
    {
      var found := FindUser(users, id);
      if found.Some? && verify(password, found.value.password) {
        session := Some(found.value.userId);
        return Redirect("/view");
      }
      FindUserUnique(users, id);
      r := Error(401, "Invalid credentials");
    }

    /** GET /logout: destroys the session and goes to the home page. */
    method Logout() returns (r: Reply<()>)
      requires Valid()
      modifies this`session
      ensures Valid()
      ensures session == None && !SignedIn(session)
      ensures r == Redirect("/home")
    {
      session := None;
      r := Redirect("/home");
    }

    /** GET /api/user: the signed-in user's profile without the password hash; a
        session whose user no longer exists is destroyed. */
    method CurrentUser() returns (r: Reply<Profile>)
      requires Valid()
      modifies this`session
      ensures Valid()
      ensures !SignedIn(old(session)) ==> r == Redirect("/login") && session == old(session)
      ensures SignedIn(old(session)) && (exists u :: u in users && u.userId == old(session).value) ==>
        session == old(session) && r.Json? &&
        exists u :: u in users && u.userId == old(session).value && r.body == Profile(u.userId, u.name, u.email)
      ensures SignedIn(old(session)) && (forall u :: u in users ==> u.userId != old(session).value) ==>
        session == None && r == Error(404, "User not found")
    {
      if !SignedIn(session) {
        return Redirect("/login");
      }
      var found := FindUser(users, session.value);
      if found.None? {
        session := None;
        return Error(404, "User not found");
      }
      var u := found.value;
      r := Json(Profile(u.userId, u.name, u.email));
    }

    /** POST /api/assessment: grades the submission, stores it under the session's
        user with the given submission time, and answers with the score. An empty
        question list makes the percentage not a number, which the store refuses. */
    method Submit(subject: string, questions: seq<Question>, answers: seq<Value>, now: int) returns (r: Reply<Receipt>)
      requires Valid()
      modifies this`assessments
      ensures Valid()
      ensures !SignedIn(session) ==> r == Redirect("/login") && assessments == old(assessments)
      ensures SignedIn(session) && |questions| == 0 ==>
        r == Error(500, "Failed to save assessment") && assessments == old(assessments)
      ensures SignedIn(session) && |questions| > 0 ==>
        var score := |Matches(questions, answers)|;
        var percentage := Percentage(score, |questions|);
        && r == Json(Receipt(|old(assessments)|, score, |questions|, percentage))
        && assessments == old(assessments) + [Assessment(|old(assessments)|, session.value, subject,
             Details(questions, answers), score, |questions|, percentage, now)]
    {
      if !SignedIn(session) {
        return Redirect("/login");
      }
      var score, details := Grade(questions, answers);
      if |questions| == 0 {
        return Error(500, "Failed to save assessment");
      }
      var percentage := Percentage(score, |questions|);
      var id := |assessments|;
      assessments := assessments + [Assessment(id, session.value, subject, details, score, |questions|, percentage, now)];
      r := Json(Receipt(id, score, |questions|, percentage));
    }

    /** GET /api/assessments: summaries of exactly the signed-in user's records, newest first. */
    function ListAssessments(): (r: Reply<seq<Summary>>)
      reads this
      ensures !SignedIn(session) ==> r == Redirect("/login")
      ensures SignedIn(session) ==> r.Json?
      ensures r.Json? ==> forall i, j :: 0 <= i < j < |r.body| ==> r.body[i].submittedAt >= r.body[j].submittedAt
      ensures r.Json? ==> forall s :: s in r.body ==>
        exists a :: a in assessments && a.userId == session.value && Summarize(a) == s
      ensures r.Json? ==> forall a :: a in assessments && a.userId == session.value ==> Summarize(a) in r.body
      ensures r.Json? ==> |r.body| == |OwnedBy(assessments, session.value)|
    {
      var log := assessments;
      RequireAuth(session, owner => Json(History(log, owner)))
    }

    /** GET /api/assessments/:id: the record with that id, only if the signed-in user owns it. */
    function GetAssessment(id: nat): (r: Reply<Assessment>)
      reads this
      ensures !SignedIn(session) ==> r == Redirect("/login")
      ensures SignedIn(session) ==>
        (r.Json? <==> exists a :: a in assessments && a.id == id && a.userId == session.value)
      ensures SignedIn(session) && !r.Json? ==> r == Error(404, "Assessment not found")
      ensures r.Json? ==> r.body in assessments && r.body.id == id && r.body.userId == session.value
    {
      var log := assessments;
      RequireAuth(session, owner =>
        match FindOwned(log, id, owner)
        case Some(a) => Json(a)
        case None => Error(404, "Assessment not found"))
    }
  }

  /** A visit: registering, a refused second registration with the same id, login,
      one submission, the history, and logout, after which the API is closed again. */
  method Visit(hash: (string, string) -> string, verify: (string, string) -> bool)
    requires forall password, salt :: verify(password, hash(password, salt))
  {
    var portal := new Portal(hash, verify);
    var r := portal.Register("u1", "Ann", "ann@example.org", "secret", "salt-1");
    assert r == Redirect("/login");
    ghost var ann := portal.users[0];
    assert ann.userId == "u1" && ann in portal.users;
    r := portal.Register("u1", "Bob", "bob@example.org", "other", "salt-2");
    assert r == Error(400, "User already exists");

    r := portal.Login("u1", "secret");
    assert r == Redirect("/view");
    WorkedExample();
    var submitted := portal.Submit("ml", [Question(Text("A")), Question(Text("B"))], [Text("A"), Text("C")], 1000);
    assert submitted == Json(Receipt(0, 1, 2, 50));
    assert portal.GetAssessment(0).Json?;
    assert Summary(0, "ml", 1, 2, 50, 1000) in portal.ListAssessments().body;

    r := portal.Logout();
    assert portal.ListAssessments() == Redirect("/login");
    assert portal.GetAssessment(0) == Redirect("/login");
  }
}
