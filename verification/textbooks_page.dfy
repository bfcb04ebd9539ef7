/**
  The derivations of the textbooks page (client/src/pages/textbooks-page.tsx): the
  search over title and subject, and the grouping of the matches by subject.

  `toLowerCase` is the parameter `lower`; `includes` is `Text.Includes`.
 */
module TextbooksPage {
  import opened Wrappers
  import opened Schema
  import opened Seqs
  import opened Text
  import opened Storage

  // ----- Search -----

  /** The search callback: the lower-cased query occurs in the lower-cased title or subject. */
  function MatchesQuery(query: string, lower: string -> string): Textbook -> bool {
    (t: Textbook) => Includes(lower(t.data.title), lower(query)) || Includes(lower(t.data.subject), lower(query))
  }

  /** `filteredTextbooks`: the books whose title or subject contains the query, ignoring case, in fetched order. */
  function SearchTextbooks(books: seq<Textbook>, query: string, lower: string -> string): (r: seq<Textbook>)
    ensures IsSubseq(r, books)
    ensures forall t :: t in r <==>
      t in books && (Includes(lower(t.data.title), lower(query)) || Includes(lower(t.data.subject), lower(query)))
  {
    FilterIsSubseq(books, MatchesQuery(query, lower));
    Filter(books, MatchesQuery(query, lower))
  }

  /** The empty query (the page's initial state) keeps every book, provided lower-casing keeps "" empty. */
  lemma EmptyQueryKeepsAll(books: seq<Textbook>, lower: string -> string)
    requires lower([]) == []
    ensures SearchTextbooks(books, [], lower) == books
  {
    forall t | t in books
      ensures MatchesQuery([], lower)(t)
    {
      IncludesEmpty(lower(t.data.title));
    }
    FilterKeepsAll(books, MatchesQuery([], lower));
  }

  // ----- Grouping by subject -----

  /** One section of the page: a subject and its books. */
  datatype Group = Group(subject: string, books: seq<Textbook>)

  /** The distinct subjects of `books`, in order of first occurrence. */
  function Subjects(books: seq<Textbook>): seq<string>
    decreases |books|
  {
    if |books| == 0 then []
    else
      var before := Subjects(books[..|books| - 1]);
      var s := books[|books| - 1].data.subject;
      if s in before then before else before + [s]
  }

  /** The reference grouping: one group per distinct subject, holding that subject's books in order. */
  function Grouped(books: seq<Textbook>): (r: seq<Group>)
    ensures |r| == |Subjects(books)|
    ensures forall k :: 0 <= k < |r| ==> r[k].subject == Subjects(books)[k]
    ensures forall k :: 0 <= k < |r| ==> r[k].books == Filter(books, SubjectIs(Subjects(books)[k]))
  {
    var keys := Subjects(books);
    seq(|keys|, k requires 0 <= k < |keys| => Group(keys[k], Filter(books, SubjectIs(keys[k]))))
  }

  /** A subject is a key exactly when some book has it. */
  lemma {:induction false} SubjectsComplete(books: seq<Textbook>)
    ensures forall i :: 0 <= i < |books| ==> books[i].data.subject in Subjects(books)
    ensures forall s :: s in Subjects(books) ==> exists i :: 0 <= i < |books| && books[i].data.subject == s
    decreases |books|
  {
    if |books| > 0 {
      var init := books[..|books| - 1];
      SubjectsComplete(init);
      forall i | 0 <= i < |books| - 1
        ensures books[i].data.subject in Subjects(books)
      {
        assert books[i] == init[i];
      }
      forall s | s in Subjects(books)
        ensures exists i :: 0 <= i < |books| && books[i].data.subject == s
      {
        if s in Subjects(init) {
          var i :| 0 <= i < |init| && init[i].data.subject == s;
          assert books[i] == init[i];
        }
      }
    }
  }

  /** Keys are never repeated. */
  lemma {:induction false} SubjectsDistinct(books: seq<Textbook>)
    ensures forall i, j :: 0 <= i < j < |Subjects(books)| ==> Subjects(books)[i] != Subjects(books)[j]
    decreases |books|
  {
    if |books| > 0 {
      SubjectsDistinct(books[..|books| - 1]);
    }
  }

  /** Appending a book adds its subject at the end when it is new, and changes no key otherwise. */
  lemma SubjectsSnoc(xs: seq<Textbook>, b: Textbook)
    ensures Subjects(xs + [b]) == if b.data.subject in Subjects(xs) then Subjects(xs) else Subjects(xs) + [b.data.subject]
  {
    var ys := xs + [b];
    assert ys[..|ys| - 1] == xs;
    assert ys[|ys| - 1] == b;
  }

  /** A book with a subject already seen joins that subject's group; nothing else changes. */
  lemma GroupedSnocExisting(xs: seq<Textbook>, b: Textbook, k: nat)
    requires k < |Subjects(xs)| && Subjects(xs)[k] == b.data.subject
    ensures Grouped(xs + [b]) == Grouped(xs)[k := Group(b.data.subject, Grouped(xs)[k].books + [b])]
  {
    var ys := xs + [b];
    var keys := Subjects(xs);
    SubjectsSnoc(xs, b);
    assert Subjects(ys) == keys;
    SubjectsDistinct(xs);
    var g0 := Grouped(xs);
    var g1 := Grouped(ys);
    var want := g0[k := Group(b.data.subject, g0[k].books + [b])];
    forall j | 0 <= j < |keys|
      ensures g1[j] == want[j]
    {
      FilterSnoc(xs, b, SubjectIs(keys[j]));
      assert j != k ==> keys[j] != keys[k];
    }
    assert |g1| == |want|;
  }

  /** A book with a new subject opens a new group at the end, holding just that book. */
  lemma GroupedSnocNew(xs: seq<Textbook>, b: Textbook)
    requires b.data.subject !in Subjects(xs)
    ensures Grouped(xs + [b]) == Grouped(xs) + [Group(b.data.subject, [b])]
  {
    var ys := xs + [b];
    var keys := Subjects(xs);
    SubjectsSnoc(xs, b);
    assert Subjects(ys) == keys + [b.data.subject];
    var g0 := Grouped(xs);
    var g1 := Grouped(ys);
    var want := g0 + [Group(b.data.subject, [b])];
    forall j | 0 <= j < |keys|
      ensures g1[j] == want[j]
    {
      FilterSnoc(xs, b, SubjectIs(keys[j]));
      assert keys[j] in keys;
    }
    SubjectsComplete(xs);
    FilterKeepsNone(xs, SubjectIs(b.data.subject));
    FilterSnoc(xs, b, SubjectIs(b.data.subject));
    assert g1[|keys|] == want[|keys|];
    assert |g1| == |want|;
  }

  /**
    The grouping partitions the books: every group is non-empty and holds exactly
    the books of its subject in their original order, subjects are not repeated,
    and each book lies in exactly one group.
   */
  lemma GroupedPartitions(books: seq<Textbook>)
    ensures forall k :: 0 <= k < |Grouped(books)| ==>
      |Grouped(books)[k].books| > 0 && IsSubseq(Grouped(books)[k].books, books) &&
      forall t :: t in Grouped(books)[k].books <==> t in books && t.data.subject == Grouped(books)[k].subject
    ensures forall i, j :: 0 <= i < j < |Grouped(books)| ==> Grouped(books)[i].subject != Grouped(books)[j].subject
    ensures forall t :: t in books ==> exists k :: 0 <= k < |Grouped(books)| && t in Grouped(books)[k].books
    ensures |Grouped(books)| == 0 <==> |books| == 0
  {
    var g := Grouped(books);
    var keys := Subjects(books);
    SubjectsComplete(books);
    SubjectsDistinct(books);
    forall k | 0 <= k < |g|
      ensures |g[k].books| > 0 && IsSubseq(g[k].books, books)
    {
      FilterIsSubseq(books, SubjectIs(keys[k]));
      assert keys[k] in keys;
      var i :| 0 <= i < |books| && books[i].data.subject == keys[k];
      assert books[i] in g[k].books;
    }
    forall t | t in books
      ensures exists k :: 0 <= k < |g| && t in g[k].books
    {
      assert t.data.subject in keys;
      var k :| 0 <= k < |keys| && keys[k] == t.data.subject;
      assert t in g[k].books;
    }
    if |books| > 0 {
      assert books[0].data.subject in keys;
    }
  }

  /**
    `filteredTextbooks.reduce(...)`: walk the books once, appending each to its
    subject's group and opening a group when the subject is new.
   */
  method GroupBySubject(books: seq<Textbook>) returns (groups: seq<Group>)
    ensures groups == Grouped(books)
    ensures forall k :: 0 <= k < |groups| ==>
      |groups[k].books| > 0 && forall t :: t in groups[k].books <==> t in books && t.data.subject == groups[k].subject
    ensures forall t :: t in books ==> exists k :: 0 <= k < |groups| && t in groups[k].books
    ensures |groups| == 0 <==> |books| == 0
  {
    groups := [];
    var i := 0;
    while i < |books|
      invariant 0 <= i <= |books|
      invariant groups == Grouped(books[..i])
    {
      var b := books[i];
      var k := 0;
      while k < |groups| && groups[k].subject != b.data.subject
        invariant 0 <= k <= |groups|
        invariant forall j :: 0 <= j < k ==> groups[j].subject != b.data.subject
      {
        k := k + 1;
      }
      assert books[..i + 1] == books[..i] + [b];
      if k == |groups| {
        GroupedSnocNew(books[..i], b);
        groups := groups + [Group(b.data.subject, [b])];
      } else {
        GroupedSnocExisting(books[..i], b, k);
        groups := groups[k := Group(b.data.subject, groups[k].books + [b])];
      }
      i := i + 1;
    }
    assert books[..|books|] == books;
    GroupedPartitions(books);
  }

  /**
    What the page shows once the textbooks have loaded: the groups of the search
    results, or "No textbooks found" (`None`) when there is no group.
   */
  method TextbooksView(books: seq<Textbook>, query: string, lower: string -> string) returns (shown: Option<seq<Group>>)
    ensures shown.None? <==> |SearchTextbooks(books, query, lower)| == 0
    ensures shown.Some? ==> shown.value == Grouped(SearchTextbooks(books, query, lower))
  {
    var groups := GroupBySubject(SearchTextbooks(books, query, lower));
    shown := if |groups| > 0 then Some(groups) else None;
  }
}
