/**
  The decision logic of the REST handlers (server/routes.ts).

  Each handler is a function from the store, the caller's user id when the request
  carries an authenticated session (`None` otherwise) and the request's inputs to
  the reply and, for the two mutating routes, the store afterwards.
 */
module Routes {
  import opened Wrappers
  import opened Seqs
  import opened Schema
  import opened Text
  import opened Tables
  import opened Storage

  /** A reply: a JSON body with its status code, or `{ message }` with its status code. */
  datatype Reply<T> = Json(code: int, value: T) | Error(code: int, message: string)

  // ----- List routes: no authentication, the store's answer passed through -----

  /** GET /api/homeworks: every homework, in insertion order. */
  function ListHomeworks(s: MemStorage): (r: Reply<seq<Homework>>)
    ensures r == Json(200, s.homeworks.rows)
  {
    Json(200, GetHomeworks(s, None))
  }

  /** GET /api/textbooks?classGrade=&subject=: both query parameters go to the store unchanged. */
  function ListTextbooks(s: MemStorage, classGrade: Option<string>, subject: Option<string>): (r: Reply<seq<Textbook>>)
    ensures r.Json? && r.code == 200
    ensures r.value == GetTextbooks(s, classGrade, subject)
    ensures IsSubseq(r.value, s.textbooks.rows)
    ensures forall t :: t in r.value <==>
      (t in s.textbooks.rows &&
       (Given(classGrade) ==> t.data.classGrade == classGrade.value) &&
       (Given(subject) ==> t.data.subject == subject.value))
  {
    Json(200, GetTextbooks(s, classGrade, subject))
  }

  /** GET /api/live-classes: every live class, in insertion order. */
  function ListLiveClasses(s: MemStorage): (r: Reply<seq<LiveClass>>)
    ensures r == Json(200, s.liveClasses.rows)
  {
    Json(200, GetLiveClasses(s))
  }

  /** GET /api/notices: every notice, in insertion order. */
  function ListNotices(s: MemStorage): (r: Reply<seq<Notice>>)
    ensures r == Json(200, s.notices.rows)
  {
    Json(200, GetNotices(s))
  }

  /** GET /api/circulars?category=: the category goes to the store unchanged. */
  function ListCirculars(s: MemStorage, category: Option<string>): (r: Reply<seq<Circular>>)
    ensures r.Json? && r.code == 200
    ensures r.value == GetCirculars(s, category)
    ensures IsSubseq(r.value, s.circulars.rows)
    ensures IsWildcard(category) ==> r.value == s.circulars.rows
    ensures !IsWildcard(category) ==>
      forall c :: c in r.value <==> c in s.circulars.rows && c.data.category == category
  {
    Json(200, GetCirculars(s, category))
  }

  // ----- GET-by-id routes -----

  /**
    The shared shape of the five GET-by-id routes: `parseInt` the path parameter,
    look it up, answer 404 with the route's message when nothing is found. A
    parameter with no digits parses to `NaN`, which no row has.
   */
  function ById<P>(t: Table<P>, idParam: string, notFound: string): (r: Reply<Entity<P>>)
    ensures r.code == 200 || r == Error(404, notFound)
    ensures r.Json? <==> r.code == 200
    ensures r.Json? <==> ParseInt(idParam).Some? && Get(t, ParseInt(idParam).value).Some?
    ensures r.Json? ==> r.value in t.rows && Some(r.value.id as int) == ParseInt(idParam)
    ensures Valid(t) ==>
      (r.Json? <==> ParseInt(idParam).Some? && 1 <= ParseInt(idParam).value < t.nextId)
  {
    match ParseInt(idParam)
    case None => Error(404, notFound)
    case Some(id) =>
      match Get(t, id)
      case None => Error(404, notFound)
      case Some(e) => Json(200, e)
  }

  /** GET /api/homeworks/:id. */
  function GetHomeworkRoute(s: MemStorage, idParam: string): (r: Reply<Homework>)
    ensures r.Error? <==> ParseInt(idParam).None? || GetHomeworkById(s, ParseInt(idParam).value).None?
    ensures r.Error? ==> r == Error(404, "Homework not found")
    ensures r.Json? ==> r.code == 200 && Some(r.value) == GetHomeworkById(s, ParseInt(idParam).value)
  {
    ById(s.homeworks, idParam, "Homework not found")
  }

  /** GET /api/textbooks/:id. */
  function GetTextbookRoute(s: MemStorage, idParam: string): (r: Reply<Textbook>)
    ensures r.Error? <==> ParseInt(idParam).None? || GetTextbookById(s, ParseInt(idParam).value).None?
    ensures r.Error? ==> r == Error(404, "Textbook not found")
    ensures r.Json? ==> r.code == 200 && Some(r.value) == GetTextbookById(s, ParseInt(idParam).value)
  {
    ById(s.textbooks, idParam, "Textbook not found")
  }

  /** GET /api/live-classes/:id. */
  function GetLiveClassRoute(s: MemStorage, idParam: string): (r: Reply<LiveClass>)
    ensures r.Error? <==> ParseInt(idParam).None? || GetLiveClassById(s, ParseInt(idParam).value).None?
    ensures r.Error? ==> r == Error(404, "Live class not found")
    ensures r.Json? ==> r.code == 200 && Some(r.value) == GetLiveClassById(s, ParseInt(idParam).value)
  {
    ById(s.liveClasses, idParam, "Live class not found")
  }

  /** GET /api/notices/:id. */
  function GetNoticeRoute(s: MemStorage, idParam: string): (r: Reply<Notice>)
    ensures r.Error? <==> ParseInt(idParam).None? || GetNoticeById(s, ParseInt(idParam).value).None?
    ensures r.Error? ==> r == Error(404, "Notice not found")
    ensures r.Json? ==> r.code == 200 && Some(r.value) == GetNoticeById(s, ParseInt(idParam).value)
  {
    ById(s.notices, idParam, "Notice not found")
  }

  /** GET /api/circulars/:id. */
  function GetCircularRoute(s: MemStorage, idParam: string): (r: Reply<Circular>)
    ensures r.Error? <==> ParseInt(idParam).None? || GetCircularById(s, ParseInt(idParam).value).None?
    ensures r.Error? ==> r == Error(404, "Circular not found")
    ensures r.Json? ==> r.code == 200 && Some(r.value) == GetCircularById(s, ParseInt(idParam).value)
  {
    ById(s.circulars, idParam, "Circular not found")
  }

  // ----- PATCH /api/homeworks/:id/status -----

  /** `status` is truthy and one of "pending" and "completed"; `None` also stands for a non-string value. */
  predicate AcceptedStatus(status: Option<string>) {
    status.Some? && (status.value == "pending" || status.value == "completed")
  }

  /**
    A missing or unlisted status is refused with 400 before any lookup. Otherwise
    an unknown id (including one that parses to `NaN`) gives 404, and a known id
    gives 200 with the record whose status was replaced. Only a 200 changes the store.
   */
  function PatchHomeworkStatus(s: MemStorage, idParam: string, status: Option<string>): (r: (Reply<Homework>, MemStorage))
    ensures !AcceptedStatus(status) ==> r == (Error(400, "Invalid status"), s)
    ensures AcceptedStatus(status) && (ParseInt(idParam).None? || GetHomeworkById(s, ParseInt(idParam).value).None?) ==>
      r == (Error(404, "Homework not found"), s)
    ensures Invariant(s) ==> Invariant(r.1)
    ensures Invariant(s) && AcceptedStatus(status) && ParseInt(idParam).Some? &&
            1 <= ParseInt(idParam).value < s.homeworks.nextId ==>
      var k := ParseInt(idParam).value - 1;
      var after := Entity(s.homeworks.rows[k].id, s.homeworks.rows[k].data.(status := status));
      r.0 == Json(200, after) &&
      r.1 == s.(homeworks := s.homeworks.(rows := s.homeworks.rows[k := after]))
  {
    if !AcceptedStatus(status) then (Error(400, "Invalid status"), s)
    else
      match ParseInt(idParam)
      case None => (Error(404, "Homework not found"), s)
      case Some(id) =>
        var (updated, s') := UpdateHomeworkStatus(s, id, status.value);
        match updated
        case None => (Error(404, "Homework not found"), s')
        case Some(h) => (Json(200, h), s')
  }

  // ----- Complaints: authenticated routes -----

  /**
    GET /api/complaints: 401 without a session; otherwise what `getComplaints`
    answers for the caller's id: their own complaints and the public ones.
   */
  function ListComplaints(s: MemStorage, caller: Option<int>): (r: Reply<seq<Complaint>>)
    ensures caller.None? <==> r == Error(401, "Unauthorized")
    ensures caller.Some? ==> r.Json? && r.code == 200
    ensures caller.Some? ==> r.value == GetComplaints(s, caller) && IsSubseq(r.value, s.complaints.rows)
    ensures caller.Some? && caller.value != 0 ==>
      forall c :: c in r.value <==>
        (c in s.complaints.rows && (c.data.userId == caller || c.data.isAnonymous == Some(false)))
  {
    if caller.None? then Error(401, "Unauthorized")
    else Json(200, GetComplaints(s, caller))
  }

  /** The JSON body of POST /api/complaints, restricted to the keys the insert schema picks. */
  datatype ComplaintBody = ComplaintBody(
    userId: Option<int>,
    subject: Option<string>,
    message: Option<string>,
    date: Option<Timestamp>,
    status: Option<string>,
    isAnonymous: Option<bool>)

  /**
    `{ ...req.body, userId: req.body.isAnonymous ? undefined : userId, date: new Date() }`:
    the server decides the author and the date, whatever the body said.
   */
  function Draft(body: ComplaintBody, callerId: int, now: Timestamp): (d: ComplaintBody)
    ensures d.userId == if body.isAnonymous == Some(true) then None else Some(callerId)
    ensures d.date == Some(now)
    ensures d.subject == body.subject && d.message == body.message
    ensures d.status == body.status && d.isAnonymous == body.isAnonymous
  {
    body.(userId := if body.isAnonymous == Some(true) then None else Some(callerId), date := Some(now))
  }

  /**
    `insertComplaintSchema.parse`: the columns that are `notNull` without a default
    (subject, message, date) must be present, and `valid` stands for everything
    else the schema checks. Omitted defaulted fields stay omitted.
   */
  function Parse(d: ComplaintBody, valid: InsertComplaint -> bool): (r: Option<InsertComplaint>)
    ensures r.Some? <==> d.subject.Some? && d.message.Some? && d.date.Some? &&
                         valid(InsertComplaint(d.userId, d.subject.value, d.message.value, d.date.value, d.status, d.isAnonymous))
    ensures r.Some? ==> valid(r.value) && r.value.userId == d.userId &&
                        Some(r.value.subject) == d.subject && Some(r.value.message) == d.message &&
                        Some(r.value.date) == d.date && r.value.status == d.status &&
                        r.value.isAnonymous == d.isAnonymous
  {
    if d.subject.Some? && d.message.Some? && d.date.Some? then
      var p := InsertComplaint(d.userId, d.subject.value, d.message.value, d.date.value, d.status, d.isAnonymous);
      if valid(p) then Some(p) else None
    else None
  }

  /**
    POST /api/complaints: 401 without a session, 400 when the draft fails
    validation, 201 with the stored record otherwise. Exactly one complaint is
    added on 201 and none otherwise; the stored author is absent for an anonymous
    complaint and the caller otherwise, and the date is the server's.
   */
  function PostComplaint(s: MemStorage, caller: Option<int>, body: ComplaintBody, now: Timestamp,
                         valid: InsertComplaint -> bool): (r: (Reply<Complaint>, MemStorage))
    ensures caller.None? ==> r == (Error(401, "Unauthorized"), s)
    ensures r.0.code == 201 || r.0.code == 400 || r.0.code == 401
    ensures r.0.code != 201 ==> r.1 == s
    ensures caller.Some? ==> (r.0.code == 201 <==> Parse(Draft(body, caller.value, now), valid).Some?)
    ensures caller.Some? && r.0.code != 201 ==> r.0 == Error(400, "Invalid complaint data")
    ensures r.0.code == 201 ==>
      r.0.Json? && r.0.value.id == s.complaints.nextId &&
      r.1 == s.(complaints := Table(s.complaints.rows + [r.0.value], s.complaints.nextId + 1))
    ensures r.0.code == 201 ==>
      var c := r.0.value.data;
      c.userId == (if body.isAnonymous == Some(true) then None else caller) &&
      c.date == now && Some(c.subject) == body.subject && Some(c.message) == body.message &&
      c.status == body.status && c.isAnonymous == body.isAnonymous && valid(c)
    ensures Invariant(s) ==> Invariant(r.1)
  {
    if caller.None? then (Error(401, "Unauthorized"), s)
    else
      match Parse(Draft(body, caller.value, now), valid)
      case None => (Error(400, "Invalid complaint data"), s)
      case Some(p) =>
        var (c, s') := CreateComplaint(s, p);
        (Json(201, c), s')
  }

  // ----- Properties across routes -----

  /** Without a session the complaint list is refused whatever the store holds. */
  lemma ListComplaintsIgnoresStoreWhenUnauthenticated(s1: MemStorage, s2: MemStorage)
    ensures ListComplaints(s1, None) == ListComplaints(s2, None)
    ensures ListComplaints(s1, None).code == 401
  {
  }

  /** A stored complaint with no author that is flagged anonymous is in no signed-in user's list. */
  lemma AnonymousComplaintNeverListed(s: MemStorage, c: Complaint, viewer: int)
    requires c.data.userId.None? && c.data.isAnonymous == Some(true)
    requires viewer != 0
    ensures c !in ListComplaints(s, Some(viewer)).value
  {
  }

  /**
    A complaint posted anonymously is stored without an author, so it never shows
    up in the complaint list of any signed-in user, its own author included, in
    the store right after the post or in any later store that still holds it.
   */
  lemma AnonymousPostHidden(s: MemStorage, author: int, body: ComplaintBody, now: Timestamp,
                            valid: InsertComplaint -> bool, later: MemStorage, viewer: int)
    requires body.isAnonymous == Some(true)
    requires PostComplaint(s, Some(author), body, now, valid).0.code == 201
    requires PostComplaint(s, Some(author), body, now, valid).0.value in later.complaints.rows
    requires viewer != 0
    ensures PostComplaint(s, Some(author), body, now, valid).0.value.data.userId == None
    ensures PostComplaint(s, Some(author), body, now, valid).0.value !in ListComplaints(later, Some(viewer)).value
  {
    AnonymousComplaintNeverListed(later, PostComplaint(s, Some(author), body, now, valid).0.value, viewer);
  }
}
