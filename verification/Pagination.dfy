/**
  The two page walks of the GitHub adapter, over a tracker that cuts one fixed list into pages.  The page
  number is a u32 that saturates, so a list with a full page number u32::MAX is never left; the condition
  on the list's length excludes exactly that.
*/
module Pagination {
  import opened Numbers
  import opened Sequences
  import opened Wrappers

  const U32_MAX: nat := 0xFFFF_FFFF

  datatype Item = Item(number: nat, isPullRequest: bool)

  /** `page.saturating_add(1)`. */
  function NextPage(page: nat): nat {
    if page < U32_MAX then page + 1 else page
  }

  /** How many items come before a page; pages count from 1. */
  function PageStart(page: nat, perPage: nat): nat {
    if page <= 1 then 0 else PageStart(page - 1, perPage) + perPage
  }

  lemma {:induction false} PageStartIs(page: nat, perPage: nat)
    requires page >= 1
    ensures PageStart(page, perPage) == (page - 1) * perPage
  {
    if page > 1 {
      PageStartIs(page - 1, perPage);
    }
  }

  /** The tracker's answer for one page. */
  function PageItems<T>(list: seq<T>, page: nat, perPage: nat): seq<T> {
    var start := PageStart(page, perPage);
    if start >= |list| then [] else list[start..Min(start + perPage, |list|)]
  }

  function Drop<T>(list: seq<T>, n: nat): seq<T> {
    if n >= |list| then [] else list[n..]
  }

  function First<T>(list: seq<T>, n: nat): seq<T> {
    if |list| <= n then list else list[..n]
  }

  function Wanted(items: seq<Item>, includePullRequests: bool): seq<Item> {
    if items == [] then []
    else
      (if items[0].isPullRequest && !includePullRequests then [] else [items[0]])
      + Wanted(items[1..], includePullRequests)
  }

  /** `list_issue_comments` returns the whole list in order. */
  method ListIssueComments<T>(list: seq<T>) returns (comments: seq<T>)
    requires |list| < 100 * U32_MAX
    ensures comments == list
  {
    comments := [];
    var page := 1;
    while true
      invariant 1 <= page <= U32_MAX && (page - 1) * 100 <= |list|
      invariant comments == list[..(page - 1) * 100]
      decreases |list| - |comments|
    {
      var items := PageItems(list, page, 100);
      PageStartIs(page, 100);
      comments := comments + items;
      if |items| < 100 {
        break;
      }
      page := NextPage(page);
    }
  }

  datatype CandidateQuery = CandidateQuery(page: Option<nat>, perPage: nat, limit: nat, includePullRequests: bool)

  function StartPage(q: CandidateQuery): nat {
    if q.page.Some? && q.page.value >= 1 then q.page.value else 1
  }

  /** `per_page.clamp(1, 100)`. */
  function PageSize(q: CandidateQuery): nat {
    if q.perPage < 1 then 1 else if q.perPage > 100 then 100 else q.perPage
  }

  function Limit(q: CandidateQuery): nat {
    if q.limit < 1 then 1 else q.limit
  }

  lemma {:induction false} WantedConcat(a: seq<Item>, b: seq<Item>, all: bool)
    ensures Wanted(a + b, all) == Wanted(a, all) + Wanted(b, all)
  {
    if a == [] {
      assert a + b == b;
    } else {
      assert (a + b)[0] == a[0] && (a + b)[1..] == a[1..] + b;
      WantedConcat(a[1..], b, all);
    }
  }

  /** With `WantedConcat` this decides every list: only pull requests are left out, and those only unless asked for. */
  lemma WantedOne(item: Item, all: bool)
    ensures Wanted([item], all) == if item.isPullRequest && !all then [] else [item]
    ensures Wanted([], all) == []
  {
    assert [item][1..] == [];
  }

  /** The numbers a query is brought to: at least page 1, one to a hundred items a page, at least one item. */
  lemma QueryIs(q: CandidateQuery)
    ensures StartPage(q) >= 1 && (q.page.Some? && q.page.value >= 1 ==> StartPage(q) == q.page.value)
    ensures q.page == None || q.page == Some(0) ==> StartPage(q) == 1
    ensures 1 <= PageSize(q) <= 100 && (1 <= q.perPage <= 100 ==> PageSize(q) == q.perPage)
    ensures (q.perPage == 0 ==> PageSize(q) == 1) && (q.perPage >= 100 ==> PageSize(q) == 100)
    ensures Limit(q) == if q.limit == 0 then 1 else q.limit
  {
  }

  lemma WantedSnoc(items: seq<Item>, i: nat, all: bool)
    requires i < |items|
    ensures Wanted(items[..i + 1], all)
         == Wanted(items[..i], all) + if items[i].isPullRequest && !all then [] else [items[i]]
  {
    assert items[..i + 1] == items[..i] + [items[i]];
    WantedConcat(items[..i], [items[i]], all);
  }

  lemma LimitReached(before: seq<Item>, items: seq<Item>, i: nat, all: bool, issues: seq<Item>)
    requires i <= |items| && issues == before + Wanted(items[..i], all)
    ensures First(before + Wanted(items, all), |issues|) == issues
  {
    assert items[..i] + items[i..] == items;
    WantedConcat(items[..i], items[i..], all);
  }

  /** The loop over one page: push wanted items until the limit is reached. */
  method PushWanted(before: seq<Item>, items: seq<Item>, includePullRequests: bool, limit: nat)
      returns (issues: seq<Item>)
    requires |before| < limit
    ensures issues == First(before + Wanted(items, includePullRequests), limit)
  {
    issues := before;
    ghost var all := includePullRequests;
    for i := 0 to |items|
      invariant issues == before + Wanted(items[..i], all) && |issues| < limit
    {
      WantedSnoc(items, i, all);
      if items[i].isPullRequest && !includePullRequests {
        continue;
      }
      issues := issues + [items[i]];
      if |issues| >= limit {
        LimitReached(before, items, i + 1, all, issues);
        return;
      }
    }
    assert items[..|items|] == items;
  }

  /** A page is a slice of what the starting page left, `seen` items on. */
  lemma PageIsSlice(list: seq<Item>, skipped: nat, page: nat, perPage: nat, seen: nat)
    requires skipped + seen == PageStart(page, perPage)
    ensures var rest := Drop(list, skipped);
            PageItems(list, page, perPage) == if seen >= |rest| then [] else rest[seen..Min(seen + perPage, |rest|)]
  {
    var rest := Drop(list, skipped);
    if skipped < |list| && seen < |rest| {
      var end := Min(seen + perPage, |rest|);
      assert Min(skipped + seen + perPage, |list|) == skipped + end;
      SliceOfDrop(list, skipped, seen, end);
    }
  }

  /** After a full page there is a next page number. */
  lemma FullPageHasNext<T>(list: seq<T>, page: nat, perPage: nat)
    requires 1 <= page && perPage >= 1 && |list| < perPage * U32_MAX
    requires |PageItems(list, page, perPage)| == perPage
    ensures page < U32_MAX
  {
    PageStartIs(page, perPage);
    assert page * perPage == (page - 1) * perPage + perPage;
    assert page * perPage < U32_MAX * perPage;
  }

  lemma FirstOfLonger(rest: seq<Item>, here: nat, all: bool, limit: nat)
    requires here <= |rest| && |Wanted(rest[..here], all)| >= limit
    ensures First(Wanted(rest[..here], all), limit) == First(Wanted(rest, all), limit)
  {
    assert rest[..here] + rest[here..] == rest;
    WantedConcat(rest[..here], rest[here..], all);
  }

  lemma WantedSoFar(rest: seq<Item>, seen: nat, here: nat, all: bool)
    requires seen <= here <= |rest|
    ensures Wanted(rest[..here], all) == Wanted(rest[..seen], all) + Wanted(rest[seen..here], all)
  {
    assert rest[..here] == rest[..seen] + rest[seen..here];
    WantedConcat(rest[..seen], rest[seen..here], all);
  }

  /** What the issues are after one more page: all wanted items so far, or the final answer. */
  lemma PageIsPushed(rest: seq<Item>, seen: nat, here: nat, perPage: nat, all: bool, limit: nat, issues: seq<Item>)
    requires seen < |rest| && here == Min(seen + perPage, |rest|)
    requires issues == First(Wanted(rest[..seen], all) + Wanted(rest[seen..here], all), limit)
    ensures |issues| >= limit || here < seen + perPage ==> issues == First(Wanted(rest, all), limit)
    ensures !(|issues| >= limit || here < seen + perPage) ==>
              here == seen + perPage && issues == Wanted(rest[..here], all)
  {
    WantedSoFar(rest, seen, here, all);
    if |issues| >= limit {
      FirstOfLonger(rest, here, all, limit);
    } else if here == |rest| {
      assert rest[..here] == rest;
    }
  }

  /**
    `fetch_issue_candidates` returns exactly the first `limit` wanted items from the starting page on.
  */
  method FetchIssueCandidates(list: seq<Item>, q: CandidateQuery) returns (issues: seq<Item>)
    requires StartPage(q) <= U32_MAX && |list| < PageSize(q) * U32_MAX
    ensures issues == First(Wanted(Drop(list, PageStart(StartPage(q), PageSize(q))), q.includePullRequests), Limit(q))
  {
    issues := [];
    var page, perPage, limit := StartPage(q), PageSize(q), Limit(q);
    ghost var skipped, all := PageStart(page, perPage), q.includePullRequests;
    ghost var rest, seen: nat := Drop(list, skipped), 0;
    while true
      invariant 1 <= page <= U32_MAX && skipped + seen == PageStart(page, perPage) && seen <= |rest|
      invariant issues == Wanted(rest[..seen], all) && |issues| < limit
      decreases |rest| - seen
    {
      var items := PageItems(list, page, perPage);
      PageIsSlice(list, skipped, page, perPage, seen);
      if items == [] {
        assert rest[..seen] == rest;
        break;
      }
      issues := PushWanted(issues, items, q.includePullRequests, limit);
      PageIsPushed(rest, seen, Min(seen + perPage, |rest|), perPage, all, limit, issues);
      if |issues| >= limit || |items| < perPage {
        break;
      }
      FullPageHasNext(list, page, perPage);
      seen := seen + perPage;
      page := NextPage(page);
    }
  }

  // ---- The length condition is exact ----

  /** The page a walk asks for after `n` full pages. */
  function PageAfter(start: nat, n: nat): nat {
    if n == 0 then start else NextPage(PageAfter(start, n - 1))
  }

  lemma {:induction false} PageAfterIs(n: nat)
    ensures PageAfter(1, n) == Min(1 + n, U32_MAX)
  {
    if n > 0 {
      PageAfterIs(n - 1);
    }
  }

  lemma ShortPageIff<T>(list: seq<T>, page: nat, perPage: nat)
    requires page >= 1 && perPage >= 1
    ensures |PageItems(list, page, perPage)| < perPage <==> |list| < page * perPage
  {
    PageStartIs(page, perPage);
    assert page * perPage == (page - 1) * perPage + perPage;
  }

  ghost predicate StopsAfter<T>(list: seq<T>, perPage: nat, n: nat) {
    |PageItems(list, PageAfter(1, n), perPage)| < perPage
  }

  /** Walking from page 1 meets a page that is not full exactly when page u32::MAX is not full. */
  lemma WalkStopsIff<T>(list: seq<T>, perPage: nat)
    requires perPage >= 1
    ensures (exists n: nat :: StopsAfter(list, perPage, n)) <==> |list| < U32_MAX * perPage
  {
    if |list| < U32_MAX * perPage {
      PageAfterIs(U32_MAX - 1);
      ShortPageIff(list, U32_MAX, perPage);
      assert StopsAfter(list, perPage, U32_MAX - 1);
    }
    if n: nat :| StopsAfter(list, perPage, n) {
      PageAfterIs(n);
      ShortPageIff(list, PageAfter(1, n), perPage);
      PagesAreOrdered(PageAfter(1, n), perPage);
    }
  }

  lemma PagesAreOrdered(page: nat, perPage: nat)
    requires page <= U32_MAX
    ensures page * perPage <= U32_MAX * perPage
  {
  }
}
