/**
  The list filter of the circulars page (client/src/pages/circulars-page.tsx):
  a case-insensitive search of the title combined with the selected category tab.
 */
module CircularsPage {
  import opened Wrappers
  import opened Schema
  import opened Seqs
  import opened Text
  import opened Storage
  import opened Routes

  /** The filter callback: the title contains the query, and the tab is "all" or the circular's category. */
  function MatchesCircular(query: string, category: string, lower: string -> string): Circular -> bool {
    (c: Circular) => Includes(lower(c.data.title), lower(query)) &&
                     (category == "all" || c.data.category == Some(category))
  }

  /** `filteredCirculars`: the fetched circulars passing the search and the tab, in fetched order. */
  function FilterCirculars(cs: seq<Circular>, query: string, category: string, lower: string -> string): (r: seq<Circular>)
    ensures IsSubseq(r, cs)
    ensures forall c :: c in r <==>
      c in cs && Includes(lower(c.data.title), lower(query)) && (category == "all" || c.data.category == Some(category))
  {
    FilterIsSubseq(cs, MatchesCircular(query, category, lower));
    Filter(cs, MatchesCircular(query, category, lower))
  }

  /** The page opens with an empty query on the "all" tab, which shows every circular. */
  lemma InitialStateKeepsAll(cs: seq<Circular>, lower: string -> string)
    requires lower([]) == []
    ensures FilterCirculars(cs, [], "all", lower) == cs
  {
    forall c | c in cs
      ensures MatchesCircular([], "all", lower)(c)
    {
      IncludesEmpty(lower(c.data.title));
    }
    FilterKeepsAll(cs, MatchesCircular([], "all", lower));
  }

  /** Only the title is searched: whatever the descriptions say, each circular is kept or dropped as before. */
  lemma DescriptionIgnored(cs: seq<Circular>, query: string, category: string, lower: string -> string,
                           descriptions: seq<string>)
    requires |descriptions| == |cs|
    ensures var rewritten := seq(|cs|, i requires 0 <= i < |cs| =>
                                    cs[i].(data := cs[i].data.(description := descriptions[i])));
            forall i :: 0 <= i < |cs| ==>
              (cs[i] in FilterCirculars(cs, query, category, lower) <==>
               rewritten[i] in FilterCirculars(rewritten, query, category, lower))
  {
  }

  /**
    The page fetches without a category, so the server returns every circular and
    the page's list is a subsequence of the store's.
   */
  lemma PageShowsStoredCirculars(s: MemStorage, query: string, category: string, lower: string -> string)
    ensures ListCirculars(s, None) == Json(200, s.circulars.rows)
    ensures IsSubseq(FilterCirculars(ListCirculars(s, None).value, query, category, lower), s.circulars.rows)
  {
  }

  /**
    With an empty search, a category tab shows exactly what the server would
    answer to `?category=` with that category: client and server agree.
   */
  lemma TabAgreesWithServerFilter(s: MemStorage, category: string, lower: string -> string)
    requires lower([]) == []
    requires category != "" && category != "all"
    ensures FilterCirculars(s.circulars.rows, [], category, lower) == GetCirculars(s, Some(category))
  {
    forall c | c in s.circulars.rows
      ensures MatchesCircular([], category, lower)(c) == CategoryIs(category)(c)
    {
      IncludesEmpty(lower(c.data.title));
    }
    FilterExt(s.circulars.rows, MatchesCircular([], category, lower), CategoryIs(category));
  }
}
