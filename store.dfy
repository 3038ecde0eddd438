/**
 * The records kept by the document store and the queries the handlers run on them,
 * as pure functions over the stored sequences: lookups of a user by id or email,
 * the owner-scoped lookup of one assessment, and the owner's history newest first.
 */
module Store {
  import opened Common
  import opened Scoring

  /** A registered user; `password` holds the password hash, never the password. */
  datatype User = User(userId: string, name: string, email: string, password: string)

  /** A user as the profile endpoint returns it, without the password hash (the store id is not modelled). */
  datatype Profile = Profile(userId: string, name: string, email: string)

  /** A graded quiz attempt. `id` is the store's record id. */
  datatype Assessment = Assessment(
    id: nat,
    userId: string,
    subject: string,
    answers: seq<AnswerDetail>,
    score: nat,
    totalQuestions: nat,
    percentage: nat,
    submittedAt: int)

  /** An assessment as the history listing returns it: no owner and no per-question detail. */
  datatype Summary = Summary(id: nat, subject: string, score: nat, totalQuestions: nat, percentage: nat, submittedAt: int)

  // ---------------------------------------------------------------------------
  // The user directory.

  /** `findOne({ userId: id })`: the first user with that id, if any. */
  function FindUser(users: seq<User>, id: string): (r: Option<User>)
    ensures r.Some? ==> r.value in users && r.value.userId == id
    ensures r.None? <==> forall u :: u in users ==> u.userId != id
  {
    if users == [] then None
    else if users[0].userId == id then Some(users[0])
    else FindUser(users[1..], id)
  }

  /** `findOne({ $or: [{ userId: id }, { email }] })`: the first user sharing the id or the email. */
  function FindUserByIdOrEmail(users: seq<User>, id: string, email: string): (r: Option<User>)
    ensures r.Some? ==> r.value in users && (r.value.userId == id || r.value.email == email)
    ensures r.None? <==> forall u :: u in users ==> u.userId != id && u.email != email
  {
    if users == [] then None
    else if users[0].userId == id || users[0].email == email then Some(users[0])
    else FindUserByIdOrEmail(users[1..], id, email)
  }

  /** No two users share an id or an email. */
  ghost predicate UniqueKeys(users: seq<User>)
  {
    forall i, j :: 0 <= i < j < |users| ==> users[i].userId != users[j].userId && users[i].email != users[j].email
  }

  /** A user that passes the duplicate check keeps ids and emails unique. */
  lemma AppendKeepsUnique(users: seq<User>, user: User)
    requires UniqueKeys(users)
    requires FindUserByIdOrEmail(users, user.userId, user.email).None?
    ensures UniqueKeys(users + [user])
  {
    var all := users + [user];
    forall i, j | 0 <= i < j < |all|
      ensures all[i].userId != all[j].userId && all[i].email != all[j].email
    {
      if j == |users| {
        assert all[i] in users;
      }
    }
  }

  /** With unique ids, the user found for an id is the only one with it. */
  lemma FindUserUnique(users: seq<User>, id: string)
    requires UniqueKeys(users)
    ensures forall u :: u in users && u.userId == id ==> FindUser(users, id) == Some(u)
  {
    forall u | u in users && u.userId == id ensures FindUser(users, id) == Some(u) {
      var found := FindUser(users, id).value;
      var i :| 0 <= i < |users| && users[i] == u;
      var k :| 0 <= k < |users| && users[k] == found;
      assert users[k].userId == users[i].userId;
      assert !(i < k) && !(k < i);
    }
  }

  // ---------------------------------------------------------------------------
  // The assessment log.

  /** `find({ userId: owner })`: the owner's records, each as often as it is stored. */
  function OwnedBy(log: seq<Assessment>, owner: string): (r: seq<Assessment>)
    ensures forall a :: a in r ==> a.userId == owner
    ensures forall a :: multiset(r)[a] == if a.userId == owner then multiset(log)[a] else 0
  {
    if log == [] then []
    else
      var rest := OwnedBy(log[1..], owner);
      assert log == [log[0]] + log[1..];
      if log[0].userId == owner then [log[0]] + rest else rest
  }

  /** Ordered by `submittedAt`, newest first: no record is newer than the one before it. */
  ghost predicate NewestFirst(xs: seq<Assessment>)
  {
    forall i :: 0 < i < |xs| ==> xs[i - 1].submittedAt >= xs[i].submittedAt
  }

  /** A newest-first sequence is ordered between any two positions, not only adjacent ones. */
  lemma {:induction false} NewestFirstPairwise(xs: seq<Assessment>, i: nat, j: nat)
    requires NewestFirst(xs)
    requires i <= j < |xs|
    ensures xs[i].submittedAt >= xs[j].submittedAt
  {
    if i < j {
      NewestFirstPairwise(xs, i, j - 1);
    }
  }

  /** Places one record into a newest-first sequence, after those not older than it. */
  function Insert(x: Assessment, xs: seq<Assessment>): (r: seq<Assessment>)
    requires NewestFirst(xs)
    ensures NewestFirst(r)
    ensures multiset(r) == multiset(xs) + multiset{x}
    ensures |r| == |xs| + 1
    ensures r[0] == x || (xs != [] && r[0] == xs[0])
  {
    if xs == [] then [x]
    else if xs[0].submittedAt < x.submittedAt then [x] + xs
    else
      var rest := Insert(x, xs[1..]);
      assert xs == [xs[0]] + xs[1..];
      assert |xs| > 1 ==> xs[0].submittedAt >= xs[1].submittedAt;
      [xs[0]] + rest
  }

  /** `sort({ submittedAt: -1 })`: the same records, newest first. */
  function SortNewestFirst(xs: seq<Assessment>): (r: seq<Assessment>)
    ensures NewestFirst(r)
    ensures multiset(r) == multiset(xs)
  {
    if xs == [] then []
    else
      assert xs == [xs[0]] + xs[1..];
      Insert(xs[0], SortNewestFirst(xs[1..]))
  }

  /** `select('subject score totalQuestions percentage submittedAt')`, with the record id. */
  function Summarize(a: Assessment): (s: Summary)
    ensures s.id == a.id && s.subject == a.subject && s.submittedAt == a.submittedAt
    ensures s.score == a.score && s.totalQuestions == a.totalQuestions && s.percentage == a.percentage
  {
    Summary(a.id, a.subject, a.score, a.totalQuestions, a.percentage, a.submittedAt)
  }

  function Summaries(xs: seq<Assessment>): seq<Summary>
  {
    seq(|xs|, i requires 0 <= i < |xs| => Summarize(xs[i]))
  }

  /** Sequences with the same multiset have the same length and the same elements. */
  lemma SameMultiset(xs: seq<Assessment>, ys: seq<Assessment>)
    requires multiset(xs) == multiset(ys)
    ensures |xs| == |ys|
    ensures forall a :: a in xs <==> a in ys
  {
    assert |multiset(xs)| == |multiset(ys)|;
    forall a ensures a in xs <==> a in ys {
      assert a in xs <==> a in multiset(xs);
      assert a in ys <==> a in multiset(ys);
    }
  }

  /** The summaries of `xs` are those of its elements, in order. */
  lemma SummariesElements(xs: seq<Assessment>)
    ensures forall i, j :: 0 <= i < j < |xs| ==> xs[i].submittedAt >= xs[j].submittedAt ==>
      Summaries(xs)[i].submittedAt >= Summaries(xs)[j].submittedAt
    ensures forall s :: s in Summaries(xs) ==> exists a :: a in xs && Summarize(a) == s
    ensures forall a :: a in xs ==> Summarize(a) in Summaries(xs)
  {
    var r := Summaries(xs);
    forall a | a in xs ensures Summarize(a) in r {
      var i :| 0 <= i < |xs| && xs[i] == a;
      assert r[i] == Summarize(a);
    }
  }

  /** The owner's assessment history: one summary per owned record, newest first. */
  function History(log: seq<Assessment>, owner: string): (r: seq<Summary>)
    ensures forall i, j :: 0 <= i < j < |r| ==> r[i].submittedAt >= r[j].submittedAt
    ensures forall s :: s in r ==> exists a :: a in log && a.userId == owner && Summarize(a) == s
    ensures forall a :: a in log && a.userId == owner ==> Summarize(a) in r
    ensures |r| == |OwnedBy(log, owner)|
  {
    var owned := OwnedBy(log, owner);
    var sorted := SortNewestFirst(owned);
    SameMultiset(sorted, owned);
    SummariesElements(sorted);
    forall a | a in log && a.userId == owner ensures a in owned {
      assert multiset(owned)[a] > 0;
    }
    forall i, j | 0 <= i < j < |sorted| ensures sorted[i].submittedAt >= sorted[j].submittedAt {
      NewestFirstPairwise(sorted, i, j);
    }
    Summaries(sorted)
  }

  /** `findOne({ _id: id, userId: owner })`: the record with that id, if the owner owns it. */
  function FindOwned(log: seq<Assessment>, id: nat, owner: string): (r: Option<Assessment>)
    ensures r.Some? ==> r.value in log && r.value.id == id && r.value.userId == owner
    ensures r.None? <==> forall a :: a in log ==> a.id != id || a.userId != owner
  {
    if log == [] then None
    else if log[0].id == id && log[0].userId == owner then Some(log[0])
    else FindOwned(log[1..], id, owner)
  }

  /** A record is never returned to a session of another user, even when the id exists. */
  lemma OtherOwnerNotFound(log: seq<Assessment>, i: nat, owner: string)
    requires i < |log| && log[i].userId != owner
    requires forall k :: 0 <= k < |log| && k != i ==> log[k].id != log[i].id
    ensures FindOwned(log, log[i].id, owner).None?
  {
  }
}
