/**
 * The follower paginator (`getSubscribers`, index.js:99-126): it pages through the
 * followers of the configured account with a cursor and collects every follower
 * once, in the order in which it was first seen.
 */
module Followers {
  import opened Chain

  /** Page size of every `getFollowers` request. */
  const LIMIT := 100

  /**
   * The `getFollowers(account, from, "blog", LIMIT)` call for the configured account,
   * as a function of the cursor `from`.
   */
  type FollowersApi = string -> seq<FollowEntry>

  /** The follower names of a page, in page order. */
  function Names(page: seq<FollowEntry>): (names: seq<AccountId>)
    ensures |names| == |page|
    ensures forall i :: 0 <= i < |page| ==> names[i] == page[i].follower
  {
    if page == [] then [] else Names(page[..|page| - 1]) + [page[|page| - 1].follower]
  }

  /** No name occurs twice. */
  predicate NoDuplicates(s: seq<AccountId>)
  {
    forall i, j :: 0 <= i < j < |s| ==> s[i] != s[j]
  }

  /** The position of the first occurrence of `x` in `s`. */
  function FirstIndex(s: seq<AccountId>, x: AccountId): (k: nat)
    requires x in s
    ensures k < |s| && s[k] == x
    ensures forall i :: 0 <= i < k ==> s[i] != x
  {
    if s[0] == x then 0 else 1 + FirstIndex(s[1..], x)
  }

  /**
   * What the `add` helper (index.js:104-111) leaves in `subscribers` after it has gone
   * over `page`: every follower not already present is appended, in page order.
   */
  function Add(subscribers: seq<AccountId>, page: seq<FollowEntry>): seq<AccountId>
  {
    if page == [] then subscribers
    else
      var before := Add(subscribers, page[..|page| - 1]);
      var f := page[|page| - 1].follower;
      if f in before then before else before + [f]
  }

  /** The `add` helper as the loop it is: it pushes each follower it has not seen yet. */
  method AddPage(subscribers: seq<AccountId>, page: seq<FollowEntry>) returns (r: seq<AccountId>)
    ensures r == Add(subscribers, page)
  {
    r := subscribers;
    for n := 0 to |page|
      invariant r == Add(subscribers, page[..n])
    {
      assert page[..n + 1][..n] == page[..n];
      if page[n].follower !in r {
        r := r + [page[n].follower];
      }
    }
    assert page[..|page|] == page;
  }

  /** `add` only ever appends: what was collected before stays, in place. */
  lemma {:induction false} AddExtends(subscribers: seq<AccountId>, page: seq<FollowEntry>)
    ensures |subscribers| <= |Add(subscribers, page)|
    ensures Add(subscribers, page)[..|subscribers|] == subscribers
  {
    if page != [] {
      AddExtends(subscribers, page[..|page| - 1]);
    }
  }

  /** After `add`, a name is collected exactly when it was collected before or is a follower of the page. */
  lemma {:induction false} AddElements(subscribers: seq<AccountId>, page: seq<FollowEntry>)
    ensures forall x :: x in Add(subscribers, page) <==> x in subscribers || x in Names(page)
  {
    if page != [] {
      var init := page[..|page| - 1];
      AddElements(subscribers, init);
      assert Names(page) == Names(init) + [page[|page| - 1].follower];
    }
  }

  /** `add` never introduces a duplicate. */
  lemma {:induction false} AddNoDuplicates(subscribers: seq<AccountId>, page: seq<FollowEntry>)
    requires NoDuplicates(subscribers)
    ensures NoDuplicates(Add(subscribers, page))
  {
    if page != [] {
      AddNoDuplicates(subscribers, page[..|page| - 1]);
    }
  }

  /**
   * Starting from nothing, `add` lists the followers of the page in the order of their
   * first occurrence in it.
   */
  lemma {:induction false} AddFirstSeenOrder(page: seq<FollowEntry>)
    ensures forall x :: x in Add([], page) ==> x in Names(page)
    ensures forall i, j :: 0 <= i < j < |Add([], page)| ==>
      FirstIndex(Names(page), Add([], page)[i]) < FirstIndex(Names(page), Add([], page)[j])
  {
    AddElements([], page);
    if page != [] {
      var init := page[..|page| - 1];
      var f := page[|page| - 1].follower;
      var r0, xs0 := Add([], init), Names(init);
      AddFirstSeenOrder(init);
      AddElements([], init);
      var r, xs := Add([], page), Names(page);
      assert xs == xs0 + [f];
      forall x | x in xs0
        ensures FirstIndex(xs, x) == FirstIndex(xs0, x)
      {
        FirstIndexAppend(xs0, [f], x);
      }
      if f !in r0 {
        assert f !in xs0;
        assert FirstIndex(xs, f) == |xs0|;
      }
    }
  }

  lemma {:induction false} FirstIndexAppend(s: seq<AccountId>, t: seq<AccountId>, x: AccountId)
    requires x in s
    ensures FirstIndex(s + t, x) == FirstIndex(s, x)
  {
    if s[0] != x {
      assert (s + t)[1..] == s[1..] + t;
      FirstIndexAppend(s[1..], t, x);
    }
  }

  /** Going over two pages one after the other is going over their concatenation. */
  lemma {:induction false} AddConcat(subscribers: seq<AccountId>, a: seq<FollowEntry>, b: seq<FollowEntry>)
    ensures Add(Add(subscribers, a), b) == Add(subscribers, a + b)
  {
    if b == [] {
      assert a + b == a;
    } else {
      assert (a + b)[..|a + b| - 1] == a + b[..|b| - 1];
      AddConcat(subscribers, a, b[..|b| - 1]);
    }
  }

  /** The cursor of the `k`-th request: "" first, then the last follower of the page before. */
  ghost function Cursor(api: FollowersApi, k: nat): string
  {
    if k == 0 then ""
    else
      var previous := api(Cursor(api, k - 1));
      if previous == [] then "" else previous[|previous| - 1].follower
  }

  /** The page that the `k`-th request returns. */
  ghost function Page(api: FollowersApi, k: nat): seq<FollowEntry>
  {
    api(Cursor(api, k))
  }

  /** The cursors of the first `n` requests, in order. */
  ghost function Cursors(api: FollowersApi, n: nat): (r: seq<string>)
    ensures |r| == n && forall k :: 0 <= k < n ==> r[k] == Cursor(api, k)
  {
    if n == 0 then [] else Cursors(api, n - 1) + [Cursor(api, n - 1)]
  }

  /** The pages of the first `n` requests, concatenated. */
  ghost function Fetched(api: FollowersApi, n: nat): seq<FollowEntry>
  {
    if n == 0 then [] else Fetched(api, n - 1) + Page(api, n - 1)
  }

  /** The server eventually answers a request with a page shorter than LIMIT. */
  ghost predicate Exhausts(api: FollowersApi)
  {
    exists n: nat :: |Page(api, n)| != LIMIT
  }

  /** `n` requests are issued: every page before the last one is full, the last one is not. */
  ghost predicate RequestCount(api: FollowersApi, n: nat)
  {
    1 <= n && |Page(api, n - 1)| != LIMIT && forall k: nat :: k < n - 1 ==> |Page(api, k)| == LIMIT
  }

  /** The number of requests is determined by the server. */
  lemma RequestCountUnique(api: FollowersApi, m: nat, n: nat)
    requires RequestCount(api, m) && RequestCount(api, n)
    ensures m == n
  {
  }

  /**
   * The cursors of a run: the first request starts at "", each later one at the last
   * follower of the page before it, which was full.
   */
  lemma CursorChain(api: FollowersApi, n: nat)
    requires RequestCount(api, n)
    ensures Cursor(api, 0) == ""
    ensures forall k: nat :: k < n - 1 ==>
      |api(Cursor(api, k))| == LIMIT && Cursor(api, k + 1) == api(Cursor(api, k))[LIMIT - 1].follower
  {
    forall k: nat | k < n - 1
      ensures |api(Cursor(api, k))| == LIMIT && Cursor(api, k + 1) == api(Cursor(api, k))[LIMIT - 1].follower
    {
      assert |Page(api, k)| == LIMIT;
    }
  }

  /**
   * `getSubscribers` (index.js:99-126): requests pages while the last page was full,
   * each time with the last follower of that page as the cursor, and collects the
   * followers of all the pages it received.
   */
  method GetSubscribers(api: FollowersApi) returns (subscribers: seq<AccountId>, ghost cursors: seq<string>)
    requires Exhausts(api)
    ensures exists n: nat :: RequestCount(api, n) && subscribers == Add([], Fetched(api, n))
    ensures RequestCount(api, |cursors|) && subscribers == Add([], Fetched(api, |cursors|))
    ensures forall k :: 0 <= k < |cursors| ==> cursors[k] == Cursor(api, k)
  {
    subscribers := [];
    ghost var last: nat :| |Page(api, last)| != LIMIT;
    ghost var k: nat := 0;
    var from := "";
    cursors := [from];
    var buffer := api(from);
    while |buffer| == LIMIT
      invariant k <= last
      invariant from == Cursor(api, k) && buffer == Page(api, k)
      invariant cursors == Cursors(api, k + 1)
      invariant forall j: nat :: j < k ==> |Page(api, j)| == LIMIT
      invariant subscribers == Add([], Fetched(api, k))
      decreases last - k
    {
      from := buffer[|buffer| - 1].follower;
      subscribers := AddPage(subscribers, buffer);
      AddConcat([], Fetched(api, k), buffer);
      cursors := cursors + [from];
      buffer := api(from);
      k := k + 1;
    }
    if |buffer| > 0 {
      subscribers := AddPage(subscribers, buffer);
    }
    AddConcat([], Fetched(api, k), buffer);
    assert RequestCount(api, k + 1);
  }

  /**
   * What `getSubscribers` returns has no duplicates, holds exactly the followers of the
   * pages received, and lists them in the order of their first occurrence there.
   */
  lemma SubscribersProperties(api: FollowersApi, n: nat)
    requires RequestCount(api, n)
    ensures NoDuplicates(Add([], Fetched(api, n)))
    ensures forall x :: x in Add([], Fetched(api, n)) <==> x in Names(Fetched(api, n))
    ensures forall i, j :: 0 <= i < j < |Add([], Fetched(api, n))| ==>
      FirstIndex(Names(Fetched(api, n)), Add([], Fetched(api, n))[i])
        < FirstIndex(Names(Fetched(api, n)), Add([], Fetched(api, n))[j])
  {
    AddNoDuplicates([], Fetched(api, n));
    AddElements([], Fetched(api, n));
    AddFirstSeenOrder(Fetched(api, n));
  }
}
