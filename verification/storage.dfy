/**
  `MemStorage` (server/storage.ts): seven independent tables, their create / get /
  list operations, the three filtered queries, the homework status update, and the
  demo data the constructor seeds.

  Every operation is a pure function from the store to its answer and, for the
  mutating ones, the store afterwards.
 */
module Storage {
  import opened Wrappers
  import opened Schema
  import opened Seqs
  import opened Tables

  datatype MemStorage = MemStorage(
    users: Table<InsertUser>,
    homeworks: Table<InsertHomework>,
    textbooks: Table<InsertTextbook>,
    liveClasses: Table<InsertLiveClass>,
    notices: Table<InsertNotice>,
    circulars: Table<InsertCircular>,
    complaints: Table<InsertComplaint>)

  /** Every table keeps its id invariant. */
  predicate Invariant(s: MemStorage) {
    Valid(s.users) && Valid(s.homeworks) && Valid(s.textbooks) && Valid(s.liveClasses) &&
    Valid(s.notices) && Valid(s.circulars) && Valid(s.complaints)
  }

  /** JavaScript truthiness of an optional string argument: present and non-empty. */
  predicate Given(f: Option<string>) {
    f.Some? && f.value != ""
  }

  /** `if (cond) xs = xs.filter(p)`. */
  function FilterIf<T>(xs: seq<T>, cond: bool, p: T -> bool): seq<T> {
    if cond then Filter(xs, p) else xs
  }

  // ----- Users -----

  function GetUser(s: MemStorage, id: int): Option<User> {
    Get(s.users, id)
  }

  function NameIs(name: string): User -> bool {
    (u: User) => u.data.username == name
  }

  /** `Array.from(userMap.values()).find(u => u.username === username)`: the earliest user with that name. */
  function GetUserByUsername(s: MemStorage, name: string): (r: Option<User>)
    ensures r.Some? <==> exists i :: 0 <= i < |s.users.rows| && s.users.rows[i].data.username == name
    ensures r.Some? ==> exists i :: 0 <= i < |s.users.rows| && s.users.rows[i] == r.value &&
                                    r.value.data.username == name &&
                                    forall j :: 0 <= j < i ==> s.users.rows[j].data.username != name
  {
    First(s.users.rows, NameIs(name))
  }

  /** A new user gets the current user counter as id; no other table changes. Duplicates are not rejected. */
  function CreateUser(s: MemStorage, p: InsertUser): (r: (User, MemStorage))
    ensures r.0 == Entity(s.users.nextId, p)
    ensures r.1 == s.(users := Table(s.users.rows + [r.0], s.users.nextId + 1))
    ensures Invariant(s) ==> Invariant(r.1)
  {
    var (u, t) := Insert(s.users, p);
    (u, s.(users := t))
  }

  // ----- Homeworks -----

  /**
    The `userId` argument is accepted and ignored. Under the invariant the answer
    holds one record per id issued, in id order, each the one the by-id lookup returns.
   */
  function GetHomeworks(s: MemStorage, userId: Option<int>): (r: seq<Homework>)
    ensures Valid(s.homeworks) ==> |r| == s.homeworks.nextId - 1
    ensures Valid(s.homeworks) ==>
      forall i :: 0 <= i < |r| ==> r[i].id == i + 1 && GetHomeworkById(s, i + 1) == Some(r[i])
  {
    s.homeworks.rows
  }

  function GetHomeworkById(s: MemStorage, id: int): Option<Homework> {
    Get(s.homeworks, id)
  }

  function CreateHomework(s: MemStorage, p: InsertHomework): (r: (Homework, MemStorage))
    ensures r.0 == Entity(s.homeworks.nextId, p)
    ensures r.1 == s.(homeworks := Table(s.homeworks.rows + [r.0], s.homeworks.nextId + 1))
    ensures Invariant(s) ==> Invariant(r.1)
  {
    var (h, t) := Insert(s.homeworks, p);
    (h, s.(homeworks := t))
  }

  /**
    An unknown id answers `undefined` and leaves the store alone. A known id gets
    its `status` replaced; the record keeps its id, its other fields and its place,
    and nothing else in the store changes. The status is not checked here.
   */
  function UpdateHomeworkStatus(s: MemStorage, id: int, status: string): (r: (Option<Homework>, MemStorage))
    ensures (forall i :: 0 <= i < |s.homeworks.rows| ==> s.homeworks.rows[i].id != id) ==> r == (None, s)
    ensures Invariant(s) ==> Invariant(r.1)
    ensures Invariant(s) && 1 <= id < s.homeworks.nextId ==>
      var before := s.homeworks.rows[id - 1];
      var after := Entity(before.id, before.data.(status := Some(status)));
      r.0 == Some(after) &&
      r.1 == s.(homeworks := s.homeworks.(rows := s.homeworks.rows[id - 1 := after]))
  {
    match Get(s.homeworks, id)
    case None => (None, s)
    case Some(h) =>
      var data := h.data.(status := Some(status));
      var t := Replace(s.homeworks, id, data);
      assert Invariant(s) ==> t.rows == s.homeworks.rows[id - 1 := Entity(h.id, data)];
      (Some(Entity(h.id, data)), s.(homeworks := t))
  }

  /** Setting the same status twice is the same as setting it once. */
  lemma UpdateHomeworkStatusIdempotent(s: MemStorage, id: int, status: string)
    requires Invariant(s)
    ensures var (h1, s1) := UpdateHomeworkStatus(s, id, status);
            UpdateHomeworkStatus(s1, id, status) == (h1, s1)
  {
    var (h1, s1) := UpdateHomeworkStatus(s, id, status);
    if 1 <= id < s.homeworks.nextId {
      var k := id - 1;
      assert s1.homeworks.rows[k] == h1.value;
      assert s1.homeworks.rows[k := h1.value] == s1.homeworks.rows;
    }
  }

  // ----- Textbooks -----

  function GradeIs(grade: string): Textbook -> bool {
    (t: Textbook) => t.data.classGrade == grade
  }

  function SubjectIs(subject: string): Textbook -> bool {
    (t: Textbook) => t.data.subject == subject
  }

  /** The meaning of the textbook query in one pass: every non-empty filter given must match exactly. */
  function TextbookMatches(classGrade: Option<string>, subject: Option<string>): Textbook -> bool {
    (t: Textbook) => (!Given(classGrade) || t.data.classGrade == classGrade.value) &&
                     (!Given(subject) || t.data.subject == subject.value)
  }

  /** The class-grade filter, then the subject filter, each applied only when given. */
  function GetTextbooks(s: MemStorage, classGrade: Option<string>, subject: Option<string>): (r: seq<Textbook>)
    ensures r == Filter(s.textbooks.rows, TextbookMatches(classGrade, subject))
    ensures IsSubseq(r, s.textbooks.rows)
  {
    var all := s.textbooks.rows;
    TextbookQueryIsOnePass(all, classGrade, subject);
    FilterIsSubseq(all, TextbookMatches(classGrade, subject));
    FilterIf(FilterIf(all, Given(classGrade), GradeIs(classGrade.GetOr(""))),
             Given(subject), SubjectIs(subject.GetOr("")))
  }

  lemma TextbookQueryIsOnePass(all: seq<Textbook>, classGrade: Option<string>, subject: Option<string>)
    ensures FilterIf(FilterIf(all, Given(classGrade), GradeIs(classGrade.GetOr(""))),
                     Given(subject), SubjectIs(subject.GetOr("")))
         == Filter(all, TextbookMatches(classGrade, subject))
  {
    var m := TextbookMatches(classGrade, subject);
    var g := GradeIs(classGrade.GetOr(""));
    var b := SubjectIs(subject.GetOr(""));
    if Given(classGrade) && Given(subject) {
      FilterFilter(all, g, b, m);
    } else if Given(classGrade) {
      FilterFilter(all, g, _ => true, m);
      FilterKeepsAll(Filter(all, g), _ => true);
    } else if Given(subject) {
      FilterFilter(all, _ => true, b, m);
      FilterKeepsAll(all, _ => true);
    } else {
      FilterKeepsAll(all, m);
    }
  }

  /** Applying the subject filter first would give the same answer. */
  lemma TextbookFiltersCommute(s: MemStorage, classGrade: Option<string>, subject: Option<string>)
    ensures GetTextbooks(s, classGrade, subject)
         == FilterIf(FilterIf(s.textbooks.rows, Given(subject), SubjectIs(subject.GetOr(""))),
                     Given(classGrade), GradeIs(classGrade.GetOr("")))
  {
    var all := s.textbooks.rows;
    var g := GradeIs(classGrade.GetOr(""));
    var b := SubjectIs(subject.GetOr(""));
    if Given(classGrade) && Given(subject) {
      FilterCommutes(all, g, b);
    }
  }

  function GetTextbookById(s: MemStorage, id: int): Option<Textbook> {
    Get(s.textbooks, id)
  }

  function CreateTextbook(s: MemStorage, p: InsertTextbook): (r: (Textbook, MemStorage))
    ensures r.0 == Entity(s.textbooks.nextId, p)
    ensures r.1 == s.(textbooks := Table(s.textbooks.rows + [r.0], s.textbooks.nextId + 1))
    ensures Invariant(s) ==> Invariant(r.1)
  {
    var (b, t) := Insert(s.textbooks, p);
    (b, s.(textbooks := t))
  }

  // ----- Live classes -----

  /** Every live class: under the invariant, one per id issued, in id order, each what the by-id lookup returns. */
  function GetLiveClasses(s: MemStorage): (r: seq<LiveClass>)
    ensures Valid(s.liveClasses) ==> |r| == s.liveClasses.nextId - 1
    ensures Valid(s.liveClasses) ==>
      forall i :: 0 <= i < |r| ==> r[i].id == i + 1 && GetLiveClassById(s, i + 1) == Some(r[i])
  {
    s.liveClasses.rows
  }

  function GetLiveClassById(s: MemStorage, id: int): Option<LiveClass> {
    Get(s.liveClasses, id)
  }

  function CreateLiveClass(s: MemStorage, p: InsertLiveClass): (r: (LiveClass, MemStorage))
    ensures r.0 == Entity(s.liveClasses.nextId, p)
    ensures r.1 == s.(liveClasses := Table(s.liveClasses.rows + [r.0], s.liveClasses.nextId + 1))
    ensures Invariant(s) ==> Invariant(r.1)
  {
    var (l, t) := Insert(s.liveClasses, p);
    (l, s.(liveClasses := t))
  }

  // ----- Notices -----

  /** Every notice: under the invariant, one per id issued, in id order, each what the by-id lookup returns. */
  function GetNotices(s: MemStorage): (r: seq<Notice>)
    ensures Valid(s.notices) ==> |r| == s.notices.nextId - 1
    ensures Valid(s.notices) ==>
      forall i :: 0 <= i < |r| ==> r[i].id == i + 1 && GetNoticeById(s, i + 1) == Some(r[i])
  {
    s.notices.rows
  }

  function GetNoticeById(s: MemStorage, id: int): Option<Notice> {
    Get(s.notices, id)
  }

  function CreateNotice(s: MemStorage, p: InsertNotice): (r: (Notice, MemStorage))
    ensures r.0 == Entity(s.notices.nextId, p)
    ensures r.1 == s.(notices := Table(s.notices.rows + [r.0], s.notices.nextId + 1))
    ensures Invariant(s) ==> Invariant(r.1)
  {
    var (n, t) := Insert(s.notices, p);
    (n, s.(notices := t))
  }

  // ----- Circulars -----

  /** An absent, empty or "all" category imposes no constraint. */
  predicate IsWildcard(category: Option<string>) {
    !Given(category) || category.value == "all"
  }

  function CategoryIs(category: string): Circular -> bool {
    (c: Circular) => c.data.category == Some(category)
  }

  /** Every circular for a wildcard category; otherwise exactly those in that category, in stored order. */
  function GetCirculars(s: MemStorage, category: Option<string>): (r: seq<Circular>)
    ensures IsWildcard(category) ==> r == s.circulars.rows
    ensures !IsWildcard(category) ==>
      forall c :: c in r <==> c in s.circulars.rows && c.data.category == category
    ensures IsSubseq(r, s.circulars.rows)
  {
    var all := s.circulars.rows;
    FilterIsSubseq(all, CategoryIs(category.GetOr("")));
    SubseqOfSelf(all);
    FilterIf(all, !IsWildcard(category), CategoryIs(category.GetOr("")))
  }

  /** A category no circular carries gives the empty list, not an error. */
  lemma UnusedCategoryGivesNothing(s: MemStorage, category: string)
    requires category != "" && category != "all"
    requires forall c :: c in s.circulars.rows ==> c.data.category != Some(category)
    ensures GetCirculars(s, Some(category)) == []
  {
    FilterKeepsNone(s.circulars.rows, CategoryIs(category));
  }

  function GetCircularById(s: MemStorage, id: int): Option<Circular> {
    Get(s.circulars, id)
  }

  function CreateCircular(s: MemStorage, p: InsertCircular): (r: (Circular, MemStorage))
    ensures r.0 == Entity(s.circulars.nextId, p)
    ensures r.1 == s.(circulars := Table(s.circulars.rows + [r.0], s.circulars.nextId + 1))
    ensures Invariant(s) ==> Invariant(r.1)
  {
    var (c, t) := Insert(s.circulars, p);
    (c, s.(circulars := t))
  }

  // ----- Complaints -----

  /** The caller's own complaints and every complaint whose `isAnonymous` is exactly `false`. */
  function VisibleTo(userId: int): Complaint -> bool {
    (c: Complaint) => c.data.userId == Some(userId) || c.data.isAnonymous == Some(false)
  }

  /**
    Without a (truthy) user id: every complaint. With user id `u`: exactly the
    complaints filed under `u` or explicitly not anonymous; a missing
    `isAnonymous` flag does not make a complaint public.
   */
  function GetComplaints(s: MemStorage, userId: Option<int>): (r: seq<Complaint>)
    ensures userId.None? || userId.value == 0 ==> r == s.complaints.rows
    ensures userId.Some? && userId.value != 0 ==>
      forall c :: c in r <==>
        (c in s.complaints.rows && (c.data.userId == userId || c.data.isAnonymous == Some(false)))
    ensures IsSubseq(r, s.complaints.rows)
  {
    var all := s.complaints.rows;
    var filtered := userId.Some? && userId.value != 0;
    FilterIsSubseq(all, VisibleTo(userId.GetOr(0)));
    SubseqOfSelf(all);
    FilterIf(all, filtered, VisibleTo(userId.GetOr(0)))
  }

  function GetComplaintById(s: MemStorage, id: int): Option<Complaint> {
    Get(s.complaints, id)
  }

  function CreateComplaint(s: MemStorage, p: InsertComplaint): (r: (Complaint, MemStorage))
    ensures r.0 == Entity(s.complaints.nextId, p)
    ensures r.1 == s.(complaints := Table(s.complaints.rows + [r.0], s.complaints.nextId + 1))
    ensures Invariant(s) ==> Invariant(r.1)
  {
    var (c, t) := Insert(s.complaints, p);
    (c, s.(complaints := t))
  }

  // ----- Properties relating several calls -----

  /**
    A created record is the last one every list returns afterwards, after all the
    earlier ones in their old order; `getHomeworks` answers the same whatever user
    id it is given.
   */
  lemma ListsAfterCreate(s: MemStorage, h: InsertHomework, l: InsertLiveClass, n: InsertNotice,
                         u1: Option<int>, u2: Option<int>)
    requires Invariant(s)
    ensures GetHomeworks(CreateHomework(s, h).1, u1) == GetHomeworks(s, u2) + [CreateHomework(s, h).0]
    ensures GetLiveClasses(CreateLiveClass(s, l).1) == GetLiveClasses(s) + [CreateLiveClass(s, l).0]
    ensures GetNotices(CreateNotice(s, n).1) == GetNotices(s) + [CreateNotice(s, n).0]
    ensures CreateHomework(s, h).0.id == |GetHomeworks(s, u2)| + 1
  {
  }

  /**
    The store does not apply the declared column defaults: a homework created
    without a status is stored without one, not as "pending".
   */
  lemma CreateKeepsOmittedStatus(s: MemStorage, p: InsertHomework)
    requires p.status.None?
    ensures CreateHomework(s, p).0.data.status == None
    ensures CreateHomework(s, p).0.data.status != Some(DefaultHomeworkStatus)
  {
  }

  /**
    `username` is declared unique, but the store accepts a second user with a taken
    name; that user is then shadowed: lookup by name still finds the earlier one.
   */
  lemma DuplicateUsernameShadowed(s: MemStorage, p: InsertUser)
    requires Invariant(s)
    requires GetUserByUsername(s, p.username).Some?
    ensures var (u, s') := CreateUser(s, p);
            |s'.users.rows| == |s.users.rows| + 1 &&
            GetUserByUsername(s', p.username) == GetUserByUsername(s, p.username) &&
            GetUserByUsername(s', p.username) != Some(u)
  {
    var (u, s') := CreateUser(s, p);
    FirstAppend(s.users.rows, [u], NameIs(p.username));
    var found := GetUserByUsername(s, p.username).value;
    assert found in s.users.rows;
    IdsStrictlyIncreasing(s.users);
  }

  // ----- Demo data -----

  /**
    The clock readings the seed takes, left abstract: `daysFromNow(k)` is
    `new Date().setDate(getDate() + k)` and `todayAt(h, m)` is `today.setHours(h, m, 0)`.
   */
  datatype SeedClock = SeedClock(daysFromNow: int -> Timestamp, todayAt: (int, int) -> Timestamp)

  function SeedTextbooks(): (r: seq<InsertTextbook>)
    ensures |r| == 4
    ensures forall i :: 0 <= i < |r| ==> r[i].classGrade == "10"
  {
    [ InsertTextbook("NCERT Mathematics", "Mathematics", Some("Class 10 Mathematics textbook for Term 1"),
                     Some("https://images.unsplash.com/photo-1635070041078-e363dbe005cb?ixlib=rb-4.0.3"),
                     "/textbooks/math-10-term1.pdf", "10", Some("Term 1")),
      InsertTextbook("NCERT Mathematics", "Mathematics", Some("Class 10 Mathematics textbook for Term 2"),
                     Some("https://images.unsplash.com/photo-1596495577886-d920f1fb7238?ixlib=rb-4.0.3"),
                     "/textbooks/math-10-term2.pdf", "10", Some("Term 2")),
      InsertTextbook("NCERT Science", "Science", Some("Class 10 Physics textbook"),
                     Some("https://images.unsplash.com/photo-1532094349884-543bc11b234d?ixlib=rb-4.0.3"),
                     "/textbooks/science-10-physics.pdf", "10", Some("Physics")),
      InsertTextbook("NCERT Science", "Science", Some("Class 10 Chemistry textbook"),
                     Some("https://images.unsplash.com/photo-1603126857599-f6e157fa2fe6?ixlib=rb-4.0.3"),
                     "/textbooks/science-10-chemistry.pdf", "10", Some("Chemistry")) ]
  }

  function SeedHomeworks(clock: SeedClock): (r: seq<InsertHomework>)
    ensures |r| == 3
  {
    [ InsertHomework("Mathematics", "Complete exercises 5.1 to 5.3 from textbook",
                     clock.daysFromNow(1), clock.daysFromNow(-1), Some("pending")),
      InsertHomework("Science", "Prepare a chart on types of chemical reactions",
                     clock.daysFromNow(2), clock.daysFromNow(-2), Some("pending")),
      InsertHomework("English", "Write an essay on \"My Favorite Book\"",
                     clock.daysFromNow(-1), clock.daysFromNow(-5), Some("completed")) ]
  }

  /**
    All three classes share one `Date` object as their `date`, and each later
    `setHours` call moves it, so every `date` ends up reading 17:00.
   */
  function SeedLiveClasses(clock: SeedClock): (r: seq<InsertLiveClass>)
    ensures |r| == 3
  {
    var date := clock.todayAt(17, 0);
    [ InsertLiveClass("Mathematics", "Ms. Sharma", date, clock.todayAt(11, 30), clock.todayAt(12, 30),
                      "https://zoom.us/j/1234567890", Some("live")),
      InsertLiveClass("Science", "Mr. Patel", date, clock.todayAt(13, 30), clock.todayAt(14, 30),
                      "https://zoom.us/j/0987654321", Some("upcoming")),
      InsertLiveClass("English", "Ms. Roy", date, clock.todayAt(16, 0), clock.todayAt(17, 0),
                      "https://zoom.us/j/5678901234", Some("upcoming")) ]
  }

  const SportsDayNotice := "Annual sports day will be held on 15th March. All students must register by 10th March for various events. Parents are cordially invited to attend the event."
  const ExhibitionNotice := "Inter-school science exhibition will be held on 20th February. Interested students should register with their science teachers by 15th February."
  const ExamNotice := "Final term examinations will begin from 10th March. Detailed schedule has been shared in the circulars section. All students are requested to prepare accordingly."

  function SeedNotices(clock: SeedClock): (r: seq<InsertNotice>)
    ensures |r| == 3
  {
    [ InsertNotice("Annual Sports Day", SportsDayNotice, clock.daysFromNow(-2),
                   Some("https://images.unsplash.com/photo-1509062522246-3755977927d7?ixlib=rb-4.0.3"), Some(true)),
      InsertNotice("Science Exhibition", ExhibitionNotice, clock.daysFromNow(-6), Some(""), Some(false)),
      InsertNotice("Term Examination Schedule", ExamNotice, clock.daysFromNow(-9),
                   Some("https://images.unsplash.com/photo-1427504494785-3a9ca7044f45?ixlib=rb-4.0.3"), Some(false)) ]
  }

  function SeedCirculars(clock: SeedClock): (r: seq<InsertCircular>)
    ensures |r| == 3
  {
    [ InsertCircular("Annual Examination Schedule", "Final examination schedule for all classes",
                     clock.daysFromNow(-2), Some("exams"), "/circulars/exam-schedule.pdf", Some(true)),
      InsertCircular("Annual Sports Day Notice", "Details about annual sports day event and registration",
                     clock.daysFromNow(-9), Some("events"), "/circulars/sports-day.pdf", Some(false)),
      InsertCircular("Holiday Notice - Republic Day", "School will remain closed on 26th January",
                     clock.daysFromNow(-15), Some("holidays"), "/circulars/republic-day.pdf", Some(false)) ]
  }

  function SeedComplaints(clock: SeedClock): (r: seq<InsertComplaint>)
    ensures |r| == 2
  {
    [ InsertComplaint(Some(1), "Classroom Cleanliness",
                      "The classrooms need better cleaning services. Dust accumulates on desks daily.",
                      clock.daysFromNow(-4), Some("pending"), Some(false)),
      InsertComplaint(Some(1), "Library Access Hours",
                      "Request to extend library hours after school for students who stay for extracurricular activities.",
                      clock.daysFromNow(-20), Some("addressed"), Some(false)) ]
  }

  /** The demo rows of one table: `ps` created one after another into a fresh table. */
  function Seeded<P>(ps: seq<P>): (t: Table<P>)
    ensures Valid(t) && |t.rows| == |ps| && t.nextId == |ps| + 1
    ensures forall i :: 0 <= i < |ps| ==> t.rows[i] == Entity(i + 1, ps[i])
  {
    InsertAll(EmptyTable(), ps)
  }

  /** `new MemStorage()`: empty tables with counters at 1, then the demo data created in order. */
  function NewStorage(clock: SeedClock): (s: MemStorage)
    ensures Invariant(s)
  {
    MemStorage(
      EmptyTable(),
      Seeded(SeedHomeworks(clock)),
      Seeded(SeedTextbooks()),
      Seeded(SeedLiveClasses(clock)),
      Seeded(SeedNotices(clock)),
      Seeded(SeedCirculars(clock)),
      Seeded(SeedComplaints(clock)))
  }

  /**
    After construction: no users, 4 textbooks, 3 homeworks,
    3 live classes, 3 notices, 3 circulars and 2 complaints, with every counter one
    past its table's last id.
   */
  lemma SeedContents(clock: SeedClock)
    ensures var s := NewStorage(clock);
      |s.users.rows| == 0 && s.users.nextId == 1 &&
      |s.textbooks.rows| == 4 && s.textbooks.nextId == 5 &&
      |s.homeworks.rows| == 3 && s.homeworks.nextId == 4 &&
      |s.liveClasses.rows| == 3 && s.liveClasses.nextId == 4 &&
      |s.notices.rows| == 3 && s.notices.nextId == 4 &&
      |s.circulars.rows| == 3 && s.circulars.nextId == 4 &&
      |s.complaints.rows| == 2 && s.complaints.nextId == 3
  {
  }

  /** Every seeded textbook is for class "10". */
  lemma SeedTextbooksClassTen(clock: SeedClock)
    ensures forall t :: t in NewStorage(clock).textbooks.rows ==> t.data.classGrade == "10"
  {
    SeededGrades(SeedTextbooks(), "10");
  }

  lemma SeededGrades(ps: seq<InsertTextbook>, grade: string)
    requires forall i :: 0 <= i < |ps| ==> ps[i].classGrade == grade
    ensures forall b :: b in Seeded(ps).rows ==> b.data.classGrade == grade
  {
    var t := Seeded(ps);
    forall b | b in t.rows
      ensures b.data.classGrade == grade
    {
      var i :| 0 <= i < |t.rows| && t.rows[i] == b;
      assert t.rows[i] == Entity(i + 1, ps[i]);
    }
  }


}
