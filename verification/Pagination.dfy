/** The generic list loop: pages until the last one, at most 2000 items. */
module Pagination {

  const PAGE_SIZE := 500
  const MAX_ITEMS := 2000

  /** A page, or a request that failed. An empty `next` marks the last page. */
  datatype PageReply<T> = RequestFailed | Page(items: seq<T>, next: string)

  datatype Query = Query(limit: int, token: string)

  datatype ListResult<T> = Listed(items: seq<T>, truncated: bool) | RequestError | RepeatedToken

  function Min(a: int, b: int): int {
    if a < b then a else b
  }

  /** The items of the first `n` pages, in order. */
  function Items<T>(pages: seq<PageReply<T>>, n: nat): seq<T>
    requires n <= |pages|
  {
    if n == 0 then []
    else Items(pages, n - 1) + (if pages[n - 1].Page? then pages[n - 1].items else [])
  }

  /** The tokens that the first `n` pages announce; a last page announces none. */
  function Tokens<T>(pages: seq<PageReply<T>>, n: nat): set<string>
    requires n <= |pages|
  {
    if n == 0 then {}
    else Tokens(pages, n - 1) + (if pages[n - 1].Page? && pages[n - 1].next != "" then {pages[n - 1].next} else {})
  }

  /** A request for page `k` asks for what still fits, and continues where page `k - 1` ended. */
  predicate Continues<T>(query: Query, pages: seq<PageReply<T>>, k: nat)
    requires k <= |pages|
  {
    && query.limit == Min(PAGE_SIZE, MAX_ITEMS - |Items(pages, k)|)
    && query.limit > 0
    && (if k == 0 then query.token == "" else pages[k - 1].Page? && query.token == pages[k - 1].next != "")
  }

  /** No page holds more items than were asked for. */
  ghost predicate HonoursLimit<T>(queries: seq<Query>, pages: seq<PageReply<T>>)
    requires |queries| <= |pages|
  {
    forall k :: 0 <= k < |queries| ==> PageFits(queries[k], pages[k])
  }

  predicate PageFits<T>(query: Query, page: PageReply<T>) {
    page.Page? ==> |page.items| <= query.limit
  }

  /** The first 2000 items. */
  function Capped<T>(all: seq<T>): seq<T> {
    all[..Min(MAX_ITEMS, |all|)]
  }

  lemma CappedIsWhole<T>(all: seq<T>)
    ensures Capped(all) == all <==> |all| <= MAX_ITEMS
  {
    assert |Capped(all)| == Min(MAX_ITEMS, |all|);
  }

  /** The pages fit whenever the server honours the limits it was asked for. */
  lemma {:induction false} HonouredLimitsFit<T>(queries: seq<Query>, pages: seq<PageReply<T>>, n: nat)
    requires n <= |queries| <= |pages| && HonoursLimit(queries, pages)
    requires forall k :: 0 <= k < |queries| ==> Continues(queries[k], pages, k)
    ensures |Items(pages, n)| <= MAX_ITEMS
  {
    if n > 0 {
      HonouredLimitsFit(queries, pages, n - 1);
      assert Continues(queries[n - 1], pages, n - 1) && PageFits(queries[n - 1], pages[n - 1]);
    }
  }

  /** Where the loop stands after the requests `queries`. */
  ghost predicate Walked<T>(queries: seq<Query>, items: seq<T>, continuation: string, seen: set<string>,
                            replies: seq<PageReply<T>>) {
    var n := |queries|;
    && n <= |replies| && (forall k :: 0 <= k < n ==> Continues(queries[k], replies, k))
    && items == Capped(Items(replies, n))
    && seen == Tokens(replies, n) && |seen| == n
    && (if n == 0 then continuation == "" else replies[n - 1].Page? && continuation == replies[n - 1].next != "")
  }

  function NextQuery(collected: nat, continuation: string): Query {
    Query(Min(PAGE_SIZE, MAX_ITEMS - collected), continuation)
  }

  function Accept<T>(items: seq<T>, page: seq<T>): seq<T>
    requires |items| <= MAX_ITEMS
  {
    items + page[..Min(|page|, MAX_ITEMS - |items|)]
  }

  lemma AcceptIsCapped<T>(all: seq<T>, page: seq<T>)
    requires |all| < MAX_ITEMS
    ensures Accept(all, page) == Capped(all + page)
  {
  }

  lemma AskedContinues<T>(queries: seq<Query>, query: Query, replies: seq<PageReply<T>>)
    requires |queries| < |replies| && forall k :: 0 <= k < |queries| ==> Continues(queries[k], replies, k)
    requires Continues(query, replies, |queries|)
    ensures forall k :: 0 <= k < |queries + [query]| ==> Continues((queries + [query])[k], replies, k)
  {
  }

  /** What the next request asks for, and what its reply adds to the items ... */
  lemma AskItems<T>(items: seq<T>, replies: seq<PageReply<T>>, n: nat)
    requires n < |replies| && items == Capped(Items(replies, n)) && |items| < MAX_ITEMS
    ensures |items| == |Items(replies, n)|
    ensures replies[n].Page? ==> Accept(items, replies[n].items) == Capped(Items(replies, n + 1))
  {
    var all := Items(replies, n);
    assert |Capped(all)| == Min(MAX_ITEMS, |all|);
    if replies[n].Page? {
      AcceptIsCapped(all, replies[n].items);
    }
  }

  /** ... and to the tokens. */
  lemma AskTokens<T>(replies: seq<PageReply<T>>, n: nat)
    requires n < |replies|
    ensures Tokens(replies, n + 1) ==
            Tokens(replies, n) + (if replies[n].Page? && replies[n].next != "" then {replies[n].next} else {})
  {
  }

  lemma Ask<T>(queries: seq<Query>, items: seq<T>, continuation: string, seen: set<string>, replies: seq<PageReply<T>>)
    requires Walked(queries, items, continuation, seen, replies) && |queries| < |replies| && |items| < MAX_ITEMS
    ensures var n := |queries| + 1;
            var reply := replies[n - 1];
            && Continues(NextQuery(|items|, continuation), replies, n - 1)
            && (reply.Page? ==> Accept(items, reply.items) == Capped(Items(replies, n)))
            && Tokens(replies, n) == seen + (if reply.Page? && reply.next != "" then {reply.next} else {})
  {
    AskItems(items, replies, |queries|);
    AskTokens(replies, |queries|);
  }

  /** A page with a new token takes the loop one request further. */
  lemma GoOn<T>(queries: seq<Query>, items: seq<T>, continuation: string, seen: set<string>, replies: seq<PageReply<T>>)
    requires Walked(queries, items, continuation, seen, replies) && |queries| < |replies| && |items| < MAX_ITEMS
    requires replies[|queries|].Page? && replies[|queries|].next != "" && replies[|queries|].next !in seen
    ensures var page := replies[|queries|];
            Walked(queries + [NextQuery(|items|, continuation)], Accept(items, page.items), page.next,
              seen + {page.next}, replies)
  {
    Ask(queries, items, continuation, seen, replies);
    AskedContinues(queries, NextQuery(|items|, continuation), replies);
  }

  /** The pages so far neither end the list nor fill it, and the next request is still out. */
  ghost predicate Unfinished<T>(replies: seq<PageReply<T>>, n: nat)
    requires n <= |replies|
  {
    && |Items(replies, n)| < MAX_ITEMS && |Tokens(replies, n)| == n
    && (n > 0 ==> replies[n - 1].Page? && replies[n - 1].next != "")
  }

  /** What a call returns, given the requests it made. */
  ghost predicate Answers<T>(r: ListResult<T>, queries: seq<Query>, replies: seq<PageReply<T>>) {
    var n := |queries|;
    && n <= |replies| && (forall k :: 0 <= k < n ==> Continues(queries[k], replies, k))
    // The loop ends: all pages but the last announced new tokens.
    && (n > 0 ==> |Tokens(replies, n - 1)| == n - 1)
    && match r
       // The pages' concatenation, cut off at 2000 items.
       case Listed(items, truncated) =>
         && n > 0 && replies[n - 1].Page? && items == Capped(Items(replies, n))
         && (truncated <==> replies[n - 1].next != "")
         && (truncated ==> |items| == MAX_ITEMS && |Tokens(replies, n)| == n)
       case RepeatedToken =>
         n > 0 && replies[n - 1].Page? && replies[n - 1].next != "" && |Tokens(replies, n)| == n - 1
       case RequestError =>
         (n > 0 && replies[n - 1].RequestFailed?) || (n == |replies| && Unfinished(replies, n))
  }

  /** The requests number at most the distinct tokens plus one. */
  lemma RequestsAreBounded<T>(r: ListResult<T>, queries: seq<Query>, replies: seq<PageReply<T>>)
    requires Answers(r, queries, replies)
    ensures |queries| <= |Tokens(replies, |queries|)| + 1
  {
    if queries != [] {
      TokensGrow(replies, |queries| - 1);
    }
  }

  lemma TokensGrow<T>(replies: seq<PageReply<T>>, n: nat)
    requires n < |replies|
    ensures |Tokens(replies, n)| <= |Tokens(replies, n + 1)| <= |Tokens(replies, n)| + 1
  {
    var before := Tokens(replies, n);
    var more := Tokens(replies, n + 1) - before;
    assert Tokens(replies, n + 1) == before + more;
    if more != {} {
      assert more == {replies[n].next};
    }
  }

  lemma {:induction false} NewSoFar<T>(replies: seq<PageReply<T>>, n: nat, m: nat)
    requires n <= m <= |replies| && |Tokens(replies, m)| == m
    ensures |Tokens(replies, n)| == n
    decreases m - n
  {
    if n < m {
      NewSoFar(replies, n + 1, m);
      TokensGrow(replies, n);
      TokensAtMost(replies, n);
    }
  }

  lemma {:induction false} TokensAtMost<T>(replies: seq<PageReply<T>>, n: nat)
    requires n <= |replies|
    ensures |Tokens(replies, n)| <= n
  {
    if n > 0 {
      TokensAtMost(replies, n - 1);
      TokensGrow(replies, n - 1);
    }
  }

  lemma NoneGoesOn<T>(r: ListResult<T>, queries: seq<Query>, s: ListResult<T>, more: seq<Query>,
                      replies: seq<PageReply<T>>)
    requires Answers(r, queries, replies) && Answers(s, more, replies)
    ensures |queries| >= |more|
  {
    var n := |queries|;
    assert n < |more| ==> Continues(more[n], replies, n);
    if n < |more| {
      NewSoFar(replies, n, |more| - 1);
    }
  }

  /** The replies determine the requests and the answer: nothing else satisfies `Answers`. */
  lemma AnswersAreUnique<T>(r: ListResult<T>, queries: seq<Query>, s: ListResult<T>, others: seq<Query>,
                            replies: seq<PageReply<T>>)
    requires Answers(r, queries, replies) && Answers(s, others, replies)
    ensures r == s && queries == others
  {
    NoneGoesOn(r, queries, s, others, replies);
    NoneGoesOn(s, others, r, queries, replies);
    forall k | 0 <= k < |queries| ensures queries[k] == others[k] {
      assert Continues(queries[k], replies, k) && Continues(others[k], replies, k);
    }
  }

  /** The answer is the whole list exactly when the pages fit, which they do when the server
      honours the limits; it is silently incomplete exactly when the last page overruns. */
  lemma WhenListIsWhole<T>(r: ListResult<T>, queries: seq<Query>, replies: seq<PageReply<T>>)
    requires Answers(r, queries, replies) && r.Listed?
    ensures var all := Items(replies, |queries|);
            && (r.items == all <==> |all| <= MAX_ITEMS)
            && (HonoursLimit(queries, replies) ==> r.items == all)
            && (!r.truncated && r.items != all <==> replies[|queries| - 1].next == "" && |all| > MAX_ITEMS)
  {
    CappedIsWhole(Items(replies, |queries|));
    if HonoursLimit(queries, replies) {
      HonouredLimitsFit(queries, replies, |queries|);
    }
  }

  /** A first and last page of more than 2000 items is such a case. */
  lemma OverrunIsSilent<T>(page: seq<T>)
    requires |page| > MAX_ITEMS
    ensures Answers(Listed(Capped(page), false), [NextQuery(0, "")], [Page(page, "")]) && Capped(page) != page
  {
    var replies := [Page(page, "")];
    assert Items(replies, 0) == [] && Tokens(replies, 0) == {};
    assert Items(replies, 1) == Items(replies, 0) + page;
    CappedIsWhole(page);
  }

  /** The last request: it fails, has no token, or repeats one. */
  lemma Stop<T>(queries: seq<Query>, items: seq<T>, continuation: string, seen: set<string>,
                replies: seq<PageReply<T>>, r: ListResult<T>)
    requires Walked(queries, items, continuation, seen, replies) && |queries| < |replies| && |items| < MAX_ITEMS
    requires match replies[|queries|]
             case RequestFailed => r == RequestError
             case Page(more, next) =>
               if next == "" then r == Listed(Accept(items, more), false) else next in seen && r == RepeatedToken
    ensures Answers(r, queries + [NextQuery(|items|, continuation)], replies)
  {
    Ask(queries, items, continuation, seen, replies);
    AskedContinues(queries, NextQuery(|items|, continuation), replies);
    assert (queries + [NextQuery(|items|, continuation)])[..|queries|] == queries;
    if r.RepeatedToken? {
      assert seen + {replies[|queries|].next} == seen;
    }
  }

  /** The list is full, or there is no reply to the next request. */
  lemma Halt<T>(queries: seq<Query>, items: seq<T>, continuation: string, seen: set<string>, replies: seq<PageReply<T>>)
    requires Walked(queries, items, continuation, seen, replies)
    ensures |items| >= MAX_ITEMS ==> Answers(Listed(items, continuation != ""), queries, replies)
    ensures |items| < MAX_ITEMS && |queries| == |replies| ==> Answers(RequestError, queries, replies)
  {
    if queries != [] {
      NewSoFar(replies, |queries| - 1, |queries|);
    }
    assert |items| == Min(MAX_ITEMS, |Items(replies, |queries|)|);
  }

  /** `replies` is whatever the server will answer, request by request; running out of it
      stands for the end of the request's context. */
  method List<T>(replies: seq<PageReply<T>>) returns (r: ListResult<T>, queries: seq<Query>)
    ensures Answers(r, queries, replies)
  {
    var items: seq<T> := [];
    var continuation := "";
    var seen: set<string> := {};
    queries := [];
    while |items| < MAX_ITEMS
      invariant Walked(queries, items, continuation, seen, replies)
      decreases |replies| - |queries|
    {
      var limit := PAGE_SIZE;
      if MAX_ITEMS - |items| < limit {
        limit := MAX_ITEMS - |items|;
      }
      if |queries| == |replies| {
        Halt(queries, items, continuation, seen, replies);
        return RequestError, queries;
      }
      ghost var asked, before, known, from := queries, items, seen, continuation;
      var reply := replies[|queries|];
      queries := queries + [Query(limit, continuation)];
      if !reply.Page? {
        Stop(asked, before, from, known, replies, RequestError);
        return RequestError, queries;
      }
      items := Accept(items, reply.items);
      var next := reply.next;
      if next == "" {
        Stop(asked, before, from, known, replies, Listed(items, false));
        return Listed(items, false), queries;
      }
      if next in seen {
        Stop(asked, before, from, known, replies, RepeatedToken);
        return RepeatedToken, queries;
      }
      GoOn(asked, before, from, known, replies);
      seen := seen + {next};
      continuation := next;
    }
    Halt(queries, items, continuation, seen, replies);
    r := Listed(items, continuation != "");
  }
}
