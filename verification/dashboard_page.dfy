/**
  The derivations of the dashboard (client/src/pages/dashboard-page.tsx): the
  feature-card badges, the next upcoming class and the latest-notices previews.

  Each fetched list is `None` until its query has answered.
 */
module DashboardPage {
  import opened Wrappers
  import opened Schema
  import opened Seqs
  import opened Text

  // ----- Homework badge -----

  function IsPending(): Homework -> bool {
    (h: Homework) => h.data.status == Some("pending")
  }

  /** `homeworks?.filter(hw => hw.status === "pending") || []`. */
  function PendingHomeworks(hws: Option<seq<Homework>>): (r: seq<Homework>)
    ensures hws.None? ==> r == []
    ensures forall h :: h in r <==> hws.Some? && h in hws.value && h.data.status == Some("pending")
    ensures hws.Some? ==> IsSubseq(r, hws.value)
  {
    match hws
    case None => []
    case Some(all) =>
      FilterIsSubseq(all, IsPending());
      Filter(all, IsPending())
  }

  /** `"<n> pending"` when there is at least one pending homework, no badge otherwise. */
  function HomeworkBadge(hws: Option<seq<Homework>>): (r: Option<string>)
    ensures r.Some? <==> exists h :: h in PendingHomeworks(hws)
    ensures r.Some? ==> ParseInt(r.value) == Some(|PendingHomeworks(hws)|)
  {
    var n := |PendingHomeworks(hws)|;
    if n > 0 then
      ParseIntLeadingNat(n, " pending");
      Some(NatToString(n) + " pending")
    else None
  }

  /** A homework created as pending adds one to the pending count; any other leaves it. */
  lemma {:induction false} PendingCountAfterAppend(hws: seq<Homework>, h: Homework)
    ensures |PendingHomeworks(Some(hws + [h]))| ==
            |PendingHomeworks(Some(hws))| + (if h.data.status == Some("pending") then 1 else 0)
  {
    FilterSnoc(hws, h, IsPending());
  }

  // ----- Textbooks badge -----

  /**
    `"<homeworks?.length || 0> books"`: the card counts the fetched homeworks, not
    the textbooks, and its number is 0 until the homeworks have loaded.
   */
  function TextbooksBadge(hws: Option<seq<Homework>>): (r: string)
    ensures ParseInt(r) == Some(if hws.None? then 0 else |hws.value|)
  {
    var n := if hws.None? then 0 else |hws.value|;
    ParseIntLeadingNat(n, " books");
    NatToString(n) + " books"
  }

  // ----- Live classes badge -----

  function IsUpcoming(): LiveClass -> bool {
    (c: LiveClass) => c.data.status == Some("upcoming")
  }

  /** `liveClasses?.find(cls => cls.status === "upcoming")`: the first upcoming class in list order. */
  function UpcomingClass(lcs: Option<seq<LiveClass>>): (r: Option<LiveClass>)
    ensures r.Some? <==> lcs.Some? && exists i :: 0 <= i < |lcs.value| && lcs.value[i].data.status == Some("upcoming")
    ensures r.Some? ==> r.value.data.status == Some("upcoming")
    ensures r.Some? ==> exists i :: 0 <= i < |lcs.value| && lcs.value[i] == r.value &&
                                    forall j :: 0 <= j < i ==> lcs.value[j].data.status != Some("upcoming")
  {
    match lcs
    case None => None
    case Some(all) => First(all, IsUpcoming())
  }

  /** The card's badge for the chosen class: "Live Now" for a live one, "In 30 mins" otherwise. */
  function LiveBadge(upcoming: Option<LiveClass>): (r: Option<string>)
    ensures r.None? <==> upcoming.None?
    ensures r.Some? ==> (r.value == "Live Now" <==> upcoming.value.data.status == Some("live"))
    ensures r.Some? ==> r.value == "Live Now" || r.value == "In 30 mins"
  {
    match upcoming
    case None => None
    case Some(c) => Some(if c.data.status == Some("live") then "Live Now" else "In 30 mins")
  }

  /**
    The class the badge is about was chosen for being upcoming, so the badge never
    says "Live Now": it says "In 30 mins" exactly when some class is upcoming.
   */
  lemma LiveBadgeNeverLiveNow(lcs: Option<seq<LiveClass>>)
    ensures LiveBadge(UpcomingClass(lcs)) != Some("Live Now")
    ensures LiveBadge(UpcomingClass(lcs)) == Some("In 30 mins") <==>
            lcs.Some? && exists i :: 0 <= i < |lcs.value| && lcs.value[i].data.status == Some("upcoming")
  {
  }

  // ----- Notice and circular badges -----

  function IsNewNotice(): Notice -> bool {
    (n: Notice) => n.data.isNew == Some(true)
  }

  function IsNewCircular(): Circular -> bool {
    (c: Circular) => c.data.isNew == Some(true)
  }

  /** `notices?.filter(notice => notice.isNew) || []`: a missing flag is falsy. */
  function NewNotices(ns: Option<seq<Notice>>): (r: seq<Notice>)
    ensures ns.None? ==> r == []
    ensures forall n :: n in r <==> ns.Some? && n in ns.value && n.data.isNew == Some(true)
    ensures ns.Some? ==> IsSubseq(r, ns.value)
  {
    match ns
    case None => []
    case Some(all) =>
      FilterIsSubseq(all, IsNewNotice());
      Filter(all, IsNewNotice())
  }

  /** `circulars?.filter(circular => circular.isNew) || []`. */
  function NewCirculars(cs: Option<seq<Circular>>): (r: seq<Circular>)
    ensures cs.None? ==> r == []
    ensures forall c :: c in r <==> cs.Some? && c in cs.value && c.data.isNew == Some(true)
    ensures cs.Some? ==> IsSubseq(r, cs.value)
  {
    match cs
    case None => []
    case Some(all) =>
      FilterIsSubseq(all, IsNewCircular());
      Filter(all, IsNewCircular())
  }

  /** One more notice raises the "<n> new" count by one exactly when it is flagged new. */
  lemma {:induction false} NewNoticeCountAfterAppend(ns: seq<Notice>, n: Notice)
    ensures |NewNotices(Some(ns + [n]))| ==
            |NewNotices(Some(ns))| + (if n.data.isNew == Some(true) then 1 else 0)
  {
    FilterSnoc(ns, n, IsNewNotice());
  }

  /** One more circular raises the "<n> new" count by one exactly when it is flagged new. */
  lemma {:induction false} NewCircularCountAfterAppend(cs: seq<Circular>, c: Circular)
    ensures |NewCirculars(Some(cs + [c]))| ==
            |NewCirculars(Some(cs))| + (if c.data.isNew == Some(true) then 1 else 0)
  {
    FilterSnoc(cs, c, IsNewCircular());
  }

  /** `"<n> new"` for a positive count, no badge for zero. */
  function NewBadge(count: nat): (r: Option<string>)
    ensures r.Some? <==> count > 0
    ensures r.Some? ==> ParseInt(r.value) == Some(count)
  {
    if count > 0 then
      ParseIntLeadingNat(count, " new");
      Some(NatToString(count) + " new")
    else None
  }

  /** The notice card has a badge exactly when some fetched notice is flagged new. */
  lemma NoticeBadgeIffSomeNew(ns: Option<seq<Notice>>)
    ensures NewBadge(|NewNotices(ns)|).Some? <==>
            ns.Some? && exists i :: 0 <= i < |ns.value| && ns.value[i].data.isNew == Some(true)
  {
    var flagged := NewNotices(ns);
    if ns.Some? && exists i :: 0 <= i < |ns.value| && ns.value[i].data.isNew == Some(true) {
      var i :| 0 <= i < |ns.value| && ns.value[i].data.isNew == Some(true);
      assert ns.value[i] in flagged;
      assert |flagged| > 0;
    } else if |flagged| > 0 {
      assert flagged[0] in flagged;
    }
  }

  // ----- Latest notices -----

  /** One entry of "Latest Notices": the notice it links to, its title and its excerpt. */
  datatype NoticePreview = NoticePreview(id: nat, title: string, excerpt: string)

  function Min(a: int, b: int): int {
    if a <= b then a else b
  }

  /** `content.slice(0, 100)` followed by "...", whatever the length of the content. */
  function Excerpt(content: string): (r: string)
    ensures |r| == Min(|content|, 100) + 3
    ensures r[..|r| - 3] == content[..Min(|content|, 100)] && r[|r| - 3..] == "..."
  {
    content[..Min(|content|, 100)] + "..."
  }

  /** A notice of at most 100 characters is shown in full, still followed by "...". */
  lemma ShortNoticeShownWhole(content: string)
    requires |content| <= 100
    ensures Excerpt(content) == content + "..."
  {
    assert content[..|content|] == content;
  }

  /** `notices.slice(0, 2)`, each turned into its preview; nothing before the notices load. */
  function LatestNotices(ns: Option<seq<Notice>>): (r: seq<NoticePreview>)
    ensures ns.None? ==> r == []
    ensures ns.Some? ==> |r| == Min(|ns.value|, 2)
    ensures forall i :: 0 <= i < |r| ==>
      r[i] == NoticePreview(ns.value[i].id, ns.value[i].data.title, Excerpt(ns.value[i].data.content))
  {
    match ns
    case None => []
    case Some(all) =>
      var first := all[..Min(|all|, 2)];
      seq(|first|, i requires 0 <= i < |first| =>
        NoticePreview(first[i].id, first[i].data.title, Excerpt(first[i].data.content)))
  }

  /** The previews are the first notices in order, and there are never more than two. */
  lemma LatestNoticesArePrefix(ns: seq<Notice>)
    ensures |LatestNotices(Some(ns))| <= 2
    ensures forall i :: 0 <= i < |LatestNotices(Some(ns))| ==> LatestNotices(Some(ns))[i].id == ns[i].id
    ensures |ns| >= 2 ==> |LatestNotices(Some(ns))| == 2
  {
  }

  // ----- The whole page -----

  /** The header avatar: the profile image when it is a non-empty string, the name's first letter otherwise. */
  datatype Avatar = Photo(url: string) | Initial(letter: string)

  datatype Dashboard = Dashboard(
    greeting: string,
    avatar: Avatar,
    homeworkBadge: Option<string>,
    textbooksBadge: string,
    liveBadge: Option<string>,
    noticeBadge: Option<string>,
    circularBadge: Option<string>,
    latestNotices: seq<NoticePreview>)

  /** The dashboard renders nothing without a signed-in user, and the cards otherwise. */
  function DashboardView(user: Option<User>, hws: Option<seq<Homework>>, lcs: Option<seq<LiveClass>>,
                         ns: Option<seq<Notice>>, cs: Option<seq<Circular>>): (r: Option<Dashboard>)
    ensures r.None? <==> user.None?
    ensures r.Some? ==> r.value.greeting == "Hi, " + user.value.data.fullName + "!"
    ensures r.Some? ==> (r.value.avatar.Photo? <==> user.value.data.profileImage.Some? && user.value.data.profileImage.value != "")
    ensures r.Some? ==> r.value.liveBadge != Some("Live Now")
    ensures r.Some? ==> (r.value.homeworkBadge.Some? <==> exists h :: h in PendingHomeworks(hws))
    ensures r.Some? ==> (r.value.noticeBadge.Some? <==> exists n :: n in NewNotices(ns))
    ensures r.Some? ==> (r.value.circularBadge.Some? <==> exists c :: c in NewCirculars(cs))
    ensures r.Some? ==> |r.value.latestNotices| <= 2
  {
    match user
    case None => None
    case Some(u) =>
      LiveBadgeNeverLiveNow(lcs);
      var name := u.data.fullName;
      var avatar := match u.data.profileImage
                    case Some(url) => if url != "" then Photo(url) else Initial(name[..Min(|name|, 1)])
                    case None => Initial(name[..Min(|name|, 1)]);
      Some(Dashboard(
        "Hi, " + name + "!",
        avatar,
        HomeworkBadge(hws),
        TextbooksBadge(hws),
        LiveBadge(UpcomingClass(lcs)),
        NewBadge(|NewNotices(ns)|),
        NewBadge(|NewCirculars(cs)|),
        LatestNotices(ns)))
  }
}
