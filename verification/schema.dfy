/**
  Record shapes of the seven tables (shared/schema.ts).

  Every table is modelled by its insert shape: the table's columns without `id`.
  A stored record is an `Entity` pairing the id the store assigned with the insert
  payload, exactly the `{ ...insert, id }` the in-memory store builds.

  A column that is nullable, or that is `notNull` but carries a declared default,
  may be omitted from an insert payload, so it is an `Option` here. The in-memory
  store copies payloads as given and never applies the declared defaults, so such
  a field can still be absent in a stored record; `WithDefaults` below states what
  the declarations alone would fill in.
 */
module Schema {
  import opened Wrappers

  /**
    A point in time in milliseconds, counted in local time (the epoch reading plus
    the zone offset), so that whole days end at local midnight.
   */
  type Timestamp = int

  /** A stored row: the assigned id and the insert payload. */
  datatype Entity<P> = Entity(id: nat, data: P)

  /** `username` is declared unique at the schema level; `profileImage` is nullable. */
  datatype InsertUser = InsertUser(
    username: string,
    password: string,
    fullName: string,
    classGrade: string,
    rollNumber: string,
    schoolCode: string,
    profileImage: Option<string>)

  /** `status` defaults to "pending". */
  datatype InsertHomework = InsertHomework(
    subject: string,
    description: string,
    dueDate: Timestamp,
    assignedDate: Timestamp,
    status: Option<string>)

  /** `description`, `imageUrl` and `term` are nullable. */
  datatype InsertTextbook = InsertTextbook(
    title: string,
    subject: string,
    description: Option<string>,
    imageUrl: Option<string>,
    filePath: string,
    classGrade: string,
    term: Option<string>)

  /** `status` defaults to "upcoming". */
  datatype InsertLiveClass = InsertLiveClass(
    subject: string,
    teacher: string,
    date: Timestamp,
    startTime: Timestamp,
    endTime: Timestamp,
    meetingLink: string,
    status: Option<string>)

  /** `imageUrl` is nullable; `isNew` is a nullable boolean defaulting to true. */
  datatype InsertNotice = InsertNotice(
    title: string,
    content: string,
    date: Timestamp,
    imageUrl: Option<string>,
    isNew: Option<bool>)

  /** `category` defaults to "general"; `isNew` is a nullable boolean defaulting to true. */
  datatype InsertCircular = InsertCircular(
    title: string,
    description: string,
    date: Timestamp,
    category: Option<string>,
    filePath: string,
    isNew: Option<bool>)

  /**
    `userId` is the only reference from one table to another, and it is nullable;
    `status` defaults to "pending"; `isAnonymous` is a nullable boolean defaulting to false.
   */
  datatype InsertComplaint = InsertComplaint(
    userId: Option<int>,
    subject: string,
    message: string,
    date: Timestamp,
    status: Option<string>,
    isAnonymous: Option<bool>)

  type User = Entity<InsertUser>
  type Homework = Entity<InsertHomework>
  type Textbook = Entity<InsertTextbook>
  type LiveClass = Entity<InsertLiveClass>
  type Notice = Entity<InsertNotice>
  type Circular = Entity<InsertCircular>
  type Complaint = Entity<InsertComplaint>

  const DefaultHomeworkStatus := "pending"
  const DefaultLiveClassStatus := "upcoming"
  const DefaultCircularCategory := "general"
  const DefaultIsNew := true
  const DefaultComplaintStatus := "pending"
  const DefaultIsAnonymous := false

  /** The declared defaults, as a database would fill them into an insert payload. */
  datatype Payload =
    | HomeworkPayload(homework: InsertHomework)
    | LiveClassPayload(liveClass: InsertLiveClass)
    | NoticePayload(notice: InsertNotice)
    | CircularPayload(circular: InsertCircular)
    | ComplaintPayload(complaint: InsertComplaint)

  /** Every defaulted field is present; every field the payload gave is kept. */
  predicate Completes(p: Payload, r: Payload) {
    match (p, r)
    case (HomeworkPayload(a), HomeworkPayload(b)) =>
      b.status.Some? && (a.status.Some? ==> b == a) && b == a.(status := b.status)
    case (LiveClassPayload(a), LiveClassPayload(b)) =>
      b.status.Some? && (a.status.Some? ==> b == a) && b == a.(status := b.status)
    case (NoticePayload(a), NoticePayload(b)) =>
      b.isNew.Some? && (a.isNew.Some? ==> b == a) && b == a.(isNew := b.isNew)
    case (CircularPayload(a), CircularPayload(b)) =>
      b.category.Some? && b.isNew.Some? &&
      (a.category.Some? ==> b.category == a.category) &&
      (a.isNew.Some? ==> b.isNew == a.isNew) &&
      b == a.(category := b.category, isNew := b.isNew)
    case (ComplaintPayload(a), ComplaintPayload(b)) =>
      b.status.Some? && b.isAnonymous.Some? &&
      (a.status.Some? ==> b.status == a.status) &&
      (a.isAnonymous.Some? ==> b.isAnonymous == a.isAnonymous) &&
      b == a.(status := b.status, isAnonymous := b.isAnonymous)
    case _ => false
  }

  /** The payload with every omitted defaulted column set to its declared default. */
  function WithDefaults(p: Payload): (r: Payload)
    ensures Completes(p, r)
    ensures p.HomeworkPayload? && p.homework.status.None? ==> r.homework.status == Some(DefaultHomeworkStatus)
    ensures p.LiveClassPayload? && p.liveClass.status.None? ==> r.liveClass.status == Some(DefaultLiveClassStatus)
    ensures p.NoticePayload? && p.notice.isNew.None? ==> r.notice.isNew == Some(DefaultIsNew)
    ensures p.CircularPayload? && p.circular.category.None? ==> r.circular.category == Some(DefaultCircularCategory)
    ensures p.CircularPayload? && p.circular.isNew.None? ==> r.circular.isNew == Some(DefaultIsNew)
    ensures p.ComplaintPayload? && p.complaint.status.None? ==> r.complaint.status == Some(DefaultComplaintStatus)
    ensures p.ComplaintPayload? && p.complaint.isAnonymous.None? ==> r.complaint.isAnonymous == Some(DefaultIsAnonymous)
  {
    match p
    case HomeworkPayload(h) =>
      HomeworkPayload(h.(status := Some(h.status.GetOr(DefaultHomeworkStatus))))
    case LiveClassPayload(l) =>
      LiveClassPayload(l.(status := Some(l.status.GetOr(DefaultLiveClassStatus))))
    case NoticePayload(n) =>
      NoticePayload(n.(isNew := Some(n.isNew.GetOr(DefaultIsNew))))
    case CircularPayload(c) =>
      CircularPayload(c.(category := Some(c.category.GetOr(DefaultCircularCategory)),
                         isNew := Some(c.isNew.GetOr(DefaultIsNew))))
    case ComplaintPayload(c) =>
      ComplaintPayload(c.(status := Some(c.status.GetOr(DefaultComplaintStatus)),
                          isAnonymous := Some(c.isAnonymous.GetOr(DefaultIsAnonymous))))
  }

  /** Applying the defaults a second time changes nothing. */
  lemma WithDefaultsIdempotent(p: Payload)
    ensures WithDefaults(WithDefaults(p)) == WithDefaults(p)
  {
  }
}
