/** The Articles page: the category list built when the articles load, the category filter
    with its newest-first ordering, and the staggered card grid. */
module Articles {
  import opened Wrappers
  import opened Seqs
  import opened ArticleData
  import Reveal

  /** The filter value that admits every article. */
  const All := "all"

  // ---------------------------------------------------------------------------------------
  // Category list

  /** `data.filter(article => article.category).map(article => article.category?.name)` */
  function CategoryNames(s: seq<Article>): (r: seq<string>)
    ensures forall c :: c in r <==> exists a :: a in s && a.category == Some(c)
  {
    if |s| == 0 then []
    else
      assert forall a :: a in s <==> a == s[0] || a in s[1..];
      (if s[0].category.Some? then [s[0].category.value] else []) + CategoryNames(s[1..])
  }

  /** Names follow the articles: one more article adds its category name at the end, or
      nothing when it has no category. */
  lemma {:induction false} CategoryNamesSnoc(s: seq<Article>, a: Article)
    ensures CategoryNames(s + [a]) ==
      CategoryNames(s) + (if a.category.Some? then [a.category.value] else [])
  {
    if |s| > 0 {
      assert (s + [a])[1..] == s[1..] + [a];
      CategoryNamesSnoc(s[1..], a);
    } else {
      assert [a][1..] == [];
    }
  }

  /** The category buttons: each category name of the articles exactly once. Articles without
      a category contribute nothing. */
  function Categories(s: seq<Article>): (r: seq<string>)
    ensures forall c :: c in r <==> exists a :: a in s && a.category == Some(c)
    ensures NoDuplicates(r)
  {
    Distinct(CategoryNames(s))
  }

  /** The buttons come in the order in which their names first occur among the articles. */
  lemma CategoriesInFirstAppearanceOrder(s: seq<Article>)
    ensures forall i, j :: 0 <= i < j < |Categories(s)| ==>
      FirstIndex(CategoryNames(s), Categories(s)[i]) < FirstIndex(CategoryNames(s), Categories(s)[j])
  {
    DistinctFirstAppearance(CategoryNames(s));
  }

  /** The filter bar is rendered exactly when some article has a category. */
  lemma FilterBarShownIff(s: seq<Article>)
    ensures |Categories(s)| > 0 <==> exists a :: a in s && a.category.Some?
  {
    if a :| a in s && a.category.Some? {
      assert a.category.value in Categories(s);
    }
    if |Categories(s)| > 0 {
      assert Categories(s)[0] in Categories(s);
    }
  }

  // ---------------------------------------------------------------------------------------
  // Newest-first ordering: the comparator `b.publishedAt - a.publishedAt` under a stable sort

  ghost predicate NewestFirstOrder(s: seq<Article>) {
    forall i, j :: 0 <= i < j < |s| ==> s[i].publishedAt >= s[j].publishedAt
  }

  /** Where a stable sort places `x`, coming after every article of the sorted `r`: behind
      each article that is at least as recent. */
  function Insert(r: seq<Article>, x: Article): (q: seq<Article>)
    ensures |q| == |r| + 1
  {
    if |r| == 0 || r[|r| - 1].publishedAt >= x.publishedAt then r + [x]
    else Insert(r[..|r| - 1], x) + [r[|r| - 1]]
  }

  /** The stable newest-first sort of `s`. */
  function NewestFirst(s: seq<Article>): (r: seq<Article>)
    ensures |r| == |s|
  {
    if |s| == 0 then [] else Insert(NewestFirst(s[..|s| - 1]), s[|s| - 1])
  }

  /** Inserting adds `x` and loses nothing. */
  lemma {:induction false} InsertPermutes(r: seq<Article>, x: Article)
    ensures multiset(Insert(r, x)) == multiset(r) + multiset{x}
  {
    if |r| > 0 && r[|r| - 1].publishedAt < x.publishedAt {
      InsertPermutes(r[..|r| - 1], x);
      assert r == r[..|r| - 1] + [r[|r| - 1]];
    }
  }

  /** The sort is a permutation of its input. */
  lemma {:induction false} NewestFirstPermutes(s: seq<Article>)
    ensures multiset(NewestFirst(s)) == multiset(s)
  {
    if |s| > 0 {
      NewestFirstPermutes(s[..|s| - 1]);
      InsertPermutes(NewestFirst(s[..|s| - 1]), s[|s| - 1]);
      assert s == s[..|s| - 1] + [s[|s| - 1]];
    }
  }

  lemma {:induction false} InsertKeepsOrder(r: seq<Article>, x: Article)
    requires NewestFirstOrder(r)
    ensures NewestFirstOrder(Insert(r, x))
  {
    if |r| > 0 && r[|r| - 1].publishedAt < x.publishedAt {
      var init, last := r[..|r| - 1], r[|r| - 1];
      InsertKeepsOrder(init, x);
      var q := Insert(init, x);
      InsertPermutes(init, x);
      forall e | e in q ensures e.publishedAt >= last.publishedAt {
        assert e in multiset(q);
        if e != x {
          assert e in multiset(init);
          var k :| 0 <= k < |init| && init[k] == e;
          assert r[k] == e;
        }
      }
      assert Insert(r, x) == q + [last];
    }
  }

  /** The newest-first sort yields articles in non-increasing `publishedAt` order. */
  lemma {:induction false} NewestFirstIsOrdered(s: seq<Article>)
    ensures NewestFirstOrder(NewestFirst(s))
  {
    if |s| > 0 {
      NewestFirstIsOrdered(s[..|s| - 1]);
      InsertKeepsOrder(NewestFirst(s[..|s| - 1]), s[|s| - 1]);
    }
  }

  /** `x` lands at the first position `j` after which only older articles follow. */
  lemma {:induction false} InsertAt(r: seq<Article>, x: Article, j: nat)
    requires j <= |r|
    requires j == 0 || r[j - 1].publishedAt >= x.publishedAt
    requires forall k :: j <= k < |r| ==> r[k].publishedAt < x.publishedAt
    ensures Insert(r, x) == r[..j] + [x] + r[j..]
    decreases |r|
  {
    if j < |r| {
      var init := r[..|r| - 1];
      InsertAt(init, x, j);
      assert r[..j] == init[..j];
      assert r[j..] == init[j..] + [r[|r| - 1]];
    } else {
      assert r[..j] == r;
    }
  }

  /** Every article of a newest-first list is at least as recent as its last one. */
  lemma AtLeastAsRecentAsLast(r: seq<Article>, e: Article)
    requires NewestFirstOrder(r) && e in r
    ensures e.publishedAt >= r[|r| - 1].publishedAt
  {
    var m :| 0 <= m < |r| && r[m] == e;
  }

  /** `x` goes to the end of a list none of whose articles is older. */
  lemma InsertAfterAll(f: seq<Article>, x: Article)
    requires forall k :: 0 <= k < |f| ==> f[k].publishedAt >= x.publishedAt
    ensures Insert(f, x) == f + [x]
  {
  }

  /** FilterInsert when `x` is not newer than the last article of `r`. */
  lemma FilterInsertBehind(r: seq<Article>, x: Article, p: Article -> bool)
    requires NewestFirstOrder(r)
    requires |r| == 0 || r[|r| - 1].publishedAt >= x.publishedAt
    ensures Filter(Insert(r, x), p) == if p(x) then Insert(Filter(r, p), x) else Filter(r, p)
  {
    assert Insert(r, x) == r + [x];
    if p(x) {
      FilterKeepLast(r, x, p);
      var f := Filter(r, p);
      forall k | 0 <= k < |f| ensures f[k].publishedAt >= x.publishedAt {
        assert f[k] in f;
        AtLeastAsRecentAsLast(r, f[k]);
      }
      InsertAfterAll(f, x);
    } else {
      FilterDropLast(r, x, p);
    }
  }

  /** `x` passes over an older article at the end of the list. */
  lemma InsertPastOlder(r: seq<Article>, last: Article, x: Article)
    requires last.publishedAt < x.publishedAt
    ensures Insert(r + [last], x) == Insert(r, x) + [last]
  {
    assert (r + [last])[..|r|] == r;
  }

  // The step of FilterInsert when `x` passes over `last`, one lemma per case of the filter.

  lemma FilterInsertStepBothKept(init: seq<Article>, last: Article, x: Article, p: Article -> bool)
    requires last.publishedAt < x.publishedAt && p(x) && p(last)
    requires Filter(Insert(init, x), p) == Insert(Filter(init, p), x)
    ensures Filter(Insert(init + [last], x), p) == Insert(Filter(init + [last], p), x)
  {
    InsertPastOlder(init, last, x);
    FilterKeepLast(Insert(init, x), last, p);
    FilterKeepLast(init, last, p);
    InsertPastOlder(Filter(init, p), last, x);
  }

  lemma FilterInsertStepLastDropped(init: seq<Article>, last: Article, x: Article, p: Article -> bool)
    requires last.publishedAt < x.publishedAt && p(x) && !p(last)
    requires Filter(Insert(init, x), p) == Insert(Filter(init, p), x)
    ensures Filter(Insert(init + [last], x), p) == Insert(Filter(init + [last], p), x)
  {
    InsertPastOlder(init, last, x);
    FilterDropLast(Insert(init, x), last, p);
    FilterDropLast(init, last, p);
  }

  lemma FilterInsertStepDropped(init: seq<Article>, last: Article, x: Article, p: Article -> bool)
    requires last.publishedAt < x.publishedAt && !p(x)
    requires Filter(Insert(init, x), p) == Filter(init, p)
    ensures Filter(Insert(init + [last], x), p) == Filter(init + [last], p)
  {
    InsertPastOlder(init, last, x);
    FilterAppend(Insert(init, x), [last], p);
    FilterAppend(init, [last], p);
  }

  /** Filtering the sorted list equals sorting the filtered list, one insertion at a time. */
  lemma {:induction false} FilterInsert(r: seq<Article>, x: Article, p: Article -> bool)
    requires NewestFirstOrder(r)
    ensures Filter(Insert(r, x), p) == if p(x) then Insert(Filter(r, p), x) else Filter(r, p)
  {
    if |r| == 0 || r[|r| - 1].publishedAt >= x.publishedAt {
      FilterInsertBehind(r, x, p);
    } else {
      var init, last := r[..|r| - 1], r[|r| - 1];
      assert r == init + [last];
      FilterInsert(init, x, p);
      if !p(x) {
        FilterInsertStepDropped(init, last, x, p);
      } else if p(last) {
        FilterInsertStepBothKept(init, last, x, p);
      } else {
        FilterInsertStepLastDropped(init, last, x, p);
      }
    }
  }

  /** Sorting `init + [x]` inserts `x` into the sorted `init`. */
  lemma NewestFirstSnoc(init: seq<Article>, x: Article)
    ensures NewestFirst(init + [x]) == Insert(NewestFirst(init), x)
  {
    assert (init + [x])[..|init|] == init;
  }

  /** The sort of a longer prefix inserts the next element into the sort of the shorter one. */
  lemma NewestFirstOfLongerPrefix(s: seq<Article>, i: nat)
    requires i < |s|
    ensures NewestFirst(s[..i + 1]) == Insert(NewestFirst(s[..i]), s[i])
  {
    assert s[..i + 1] == s[..i] + [s[i]];
    NewestFirstSnoc(s[..i], s[i]);
  }

  /** Sorting commutes with any filter. */
  lemma {:induction false} FilterNewestFirst(s: seq<Article>, p: Article -> bool)
    ensures Filter(NewestFirst(s), p) == NewestFirst(Filter(s, p))
  {
    if |s| > 0 {
      var init, x := s[..|s| - 1], s[|s| - 1];
      assert s == init + [x];
      FilterNewestFirst(init, p);
      NewestFirstIsOrdered(init);
      NewestFirstSnoc(init, x);
      FilterInsert(NewestFirst(init), x, p);
      if p(x) {
        FilterKeepLast(init, x, p);
        NewestFirstSnoc(Filter(init, p), x);
      } else {
        FilterDropLast(init, x, p);
      }
    }
  }

  /** Sorting a list that is already newest-first leaves it as it is. */
  lemma {:induction false} NewestFirstOfOrdered(s: seq<Article>)
    requires NewestFirstOrder(s)
    ensures NewestFirst(s) == s
  {
    if |s| > 0 {
      var init := s[..|s| - 1];
      NewestFirstOfOrdered(init);
      assert init + [s[|s| - 1]] == s;
    }
  }

  /** Sorting twice is sorting once, so re-sorting the stored list on every render of the
      'all' filter does not move anything after the first time. */
  lemma NewestFirstIdempotent(s: seq<Article>)
    ensures NewestFirst(NewestFirst(s)) == NewestFirst(s)
  {
    NewestFirstIsOrdered(s);
    NewestFirstOfOrdered(NewestFirst(s));
  }

  function PublishedAt(t: int): Article -> bool {
    (a: Article) => a.publishedAt == t
  }

  /** The articles published at instant `t`, in list order. */
  function WithTime(s: seq<Article>, t: int): seq<Article> {
    Filter(s, PublishedAt(t))
  }

  /** Stability: articles with the same `publishedAt` keep their relative input order. */
  lemma NewestFirstStable(s: seq<Article>, t: int)
    ensures WithTime(NewestFirst(s), t) == WithTime(s, t)
  {
    FilterNewestFirst(s, PublishedAt(t));
    var w := WithTime(s, t);
    assert forall i :: 0 <= i < |w| ==> w[i].publishedAt == t by {
      forall i | 0 <= i < |w| ensures w[i].publishedAt == t {
        assert w[i] in w;
      }
    }
    NewestFirstOfOrdered(w);
  }

  // ---------------------------------------------------------------------------------------
  // The filter

  function InCategory(c: string): Article -> bool {
    (a: Article) => a.category == Some(c)
  }

  /** `filteredArticles` (lines 41-44): every article, or those whose category name equals the
      filter, newest first. */
  function Select(s: seq<Article>, filter: string): (r: seq<Article>)
    ensures |r| == |Admitted(s, filter)| <= |s|
  {
    if filter == All then NewestFirst(s) else NewestFirst(Filter(s, InCategory(filter)))
  }

  /** The articles a filter value admits, in stored order. */
  function Admitted(s: seq<Article>, filter: string): seq<Article> {
    if filter == All then s else Filter(s, InCategory(filter))
  }

  /** The selection is a newest-first permutation of the admitted articles. */
  lemma SelectIsSortedPermutation(s: seq<Article>, filter: string)
    ensures NewestFirstOrder(Select(s, filter))
    ensures multiset(Select(s, filter)) == multiset(Admitted(s, filter))
  {
    NewestFirstIsOrdered(Admitted(s, filter));
    NewestFirstPermutes(Admitted(s, filter));
  }

  /** The selection holds exactly the admitted articles and nothing else. */
  lemma SelectMembership(s: seq<Article>, filter: string)
    ensures forall a :: a in Select(s, filter) <==>
      a in s && (filter == All || a.category == Some(filter))
  {
    var r, c := Select(s, filter), Admitted(s, filter);
    NewestFirstPermutes(c);
    forall a ensures a in r <==> a in c {
      assert a in r <==> a in multiset(r);
      assert a in c <==> a in multiset(c);
    }
  }

  /** Articles of the selection that share a `publishedAt` appear in their stored order. */
  lemma SelectStable(s: seq<Article>, filter: string, t: int)
    ensures WithTime(Select(s, filter), t) == WithTime(Admitted(s, filter), t)
  {
    NewestFirstStable(Admitted(s, filter), t);
  }

  /** The selection is empty (and "No articles found in this category." shows) exactly when
      no article is admitted: for 'all', when there are no articles; otherwise when no article
      has that category. */
  lemma SelectEmptyIff(s: seq<Article>, filter: string)
    ensures |Select(s, filter)| == 0 <==>
      if filter == All then |s| == 0 else forall a :: a in s ==> a.category != Some(filter)
  {
    SelectMembership(s, filter);
    if |Select(s, filter)| > 0 {
      assert Select(s, filter)[0] in Select(s, filter);
    }
    if filter == All && |s| > 0 {
      assert s[0] in s;
    }
  }

  /** The in-place sort of the 'all' branch never changes what a later render shows, for
      any filter: selecting from the re-sorted store gives the same list. */
  lemma SortedStoreSelectsTheSame(s: seq<Article>, filter: string)
    ensures Select(NewestFirst(s), filter) == Select(s, filter)
  {
    NewestFirstIdempotent(s);
    if filter != All {
      FilterNewestFirst(s, InCategory(filter));
      NewestFirstIdempotent(Filter(s, InCategory(filter)));
    }
  }

  // ---------------------------------------------------------------------------------------
  // The grid

  datatype Grid =
    | Cards(cards: seq<Article>, delaysMs: seq<nat>)
    | NoArticlesMessage

  /** Lines 129-152: the cards of the selection, each delayed by its position in the
      selection, or the empty-category message. */
  function ArticleGrid(s: seq<Article>, filter: string): (g: Grid)
    ensures g.NoArticlesMessage? <==> |Select(s, filter)| == 0
    ensures g.Cards? ==> g.cards == Select(s, filter) && |g.delaysMs| == |g.cards|
    ensures g.Cards? ==> g.delaysMs[0] == 0
    ensures g.Cards? ==> forall i :: 1 <= i < |g.delaysMs| ==> g.delaysMs[i] == g.delaysMs[i - 1] + 100
  {
    var shown := Select(s, filter);
    if |shown| > 0 then
      Cards(shown, Reveal.Schedule(Reveal.ArticleCardBase, Reveal.ArticleCardStep, |shown|))
    else NoArticlesMessage
  }

  // ---------------------------------------------------------------------------------------
  // The page state

  /** One pass of the insertion sort: `a[i]` moves left past every strictly older article of
      `a[..i]`, and the rest of the array stays as it was. */
  method InsertIntoPrefix(a: array<Article>, i: nat)
    requires i < a.Length
    modifies a
    ensures a[..i + 1] == Insert(old(a[..i]), old(a[i]))
    ensures a[i + 1..] == old(a[i + 1..])
  {
    var x := a[i];
    ghost var sorted := a[..i];
    var j := i;
    while j > 0 && a[j - 1].publishedAt < x.publishedAt
      invariant 0 <= j <= i
      invariant forall k :: 0 <= k < j ==> a[k] == sorted[k]
      invariant forall k :: j < k <= i ==> a[k] == sorted[k - 1]
      invariant forall k :: i < k < a.Length ==> a[k] == old(a[k])
      invariant forall k :: j <= k < i ==> sorted[k].publishedAt < x.publishedAt
    {
      a[j] := a[j - 1];
      j := j - 1;
    }
    a[j] := x;
    InsertAt(sorted, x, j);
    assert a[..i + 1] == sorted[..j] + [x] + sorted[j..];
  }

  /** `articles.sort(...)` on the stored array: a stable insertion sort, newest first. */
  method SortNewestFirst(a: array<Article>)
    modifies a
    ensures a[..] == NewestFirst(old(a[..]))
  {
    ghost var s := a[..];
    var i := 0;
    while i < a.Length
      invariant 0 <= i <= a.Length
      invariant a[..i] == NewestFirst(s[..i])
      invariant forall k :: i <= k < a.Length ==> a[k] == s[k]
    {
      ghost var prefix, rest := a[..i], a[i + 1..];
      InsertIntoPrefix(a, i);
      assert forall k :: i < k < a.Length ==> a[k] == a[i + 1..][k - i - 1] == rest[k - i - 1];
      assert a[..i + 1] == Insert(prefix, s[i]);
      NewestFirstOfLongerPrefix(s, i);
      i := i + 1;
    }
    assert a[..] == a[..a.Length];
    assert s == s[..a.Length];
  }

  class ArticlesPage {
    var articles: array<Article>
    var categories: seq<string>
    var activeFilter: string

    /** The page after its articles have loaded (lines 20-29), with the initial filter. */
    constructor (data: seq<Article>)
      ensures fresh(articles) && articles[..] == data
      ensures categories == Categories(data) && activeFilter == All
    {
      articles := new Article[|data|](i requires 0 <= i < |data| => data[i]);
      categories := Categories(data);
      activeFilter := All;
    }

    /** A filter button (lines 96, 111). */
    method SetFilter(filter: string)
      modifies this`activeFilter
      ensures activeFilter == filter
    {
      activeFilter := filter;
    }

    /** `filteredArticles`: the 'all' branch sorts the stored array in place and shows it;
        a category builds a new sorted list and leaves the stored array as it was. */
    method FilteredArticles() returns (shown: seq<Article>)
      modifies articles
      ensures shown == Select(old(articles[..]), activeFilter)
      ensures articles[..] == if activeFilter == All then shown else old(articles[..])
    {
      if activeFilter == All {
        SortNewestFirst(articles);
        shown := articles[..];
      } else {
        shown := NewestFirst(Filter(articles[..], InCategory(activeFilter)));
      }
    }
  }
}
