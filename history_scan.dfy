/**
 * The backward history walk (`scanUserHistory`, index.js:254-287) and `checkActivity`
 * (index.js:190-197): an account's history is read page by page from the newest
 * record backwards and fed to an activity scanner until a page decides the question
 * or the start of the history is reached.
 */
module HistoryScan {
  import opened Wrappers
  import opened Chain
  import opened Activity

  /** The largest number of records requested at once. */
  const SCAN_BLOCK := 50

  /** What `getAccountHistory` answers: an array of entries, or anything else. */
  datatype HistoryResponse = Records(entries: seq<HistoryEntry>) | NotAnArray

  /** `getAccountHistory(userid, start, count)`; a start of -1 asks for the newest records. */
  type HistoryApi = (AccountId, int, int) -> HistoryResponse

  /** One `getAccountHistory` request of a walk. */
  datatype Request = Request(start: int, count: int)

  /**
   * How a walk ends: the loop broke (`Completed`), a response was not an array and the
   * walk returned (`NotArray`), or the page was empty and reading its first id threw a
   * TypeError (`EmptyPageThrown`).
   */
  datatype WalkEnd = Completed | NotArray | EmptyPageThrown

  /** The scanner's final `found`, how the walk ended, and every request it issued, in order. */
  datatype WalkResult = WalkResult(found: bool, end: WalkEnd, requests: seq<Request>)

  /** The exception that aborts `checkActivity`: an empty history page. */
  datatype Failure = EmptyHistoryPage(userid: AccountId)

  /**
   * The history server reads backwards: asked for records up to `start > 0`, it answers
   * with a page whose first id is at most `start`. Without this the walk need not end.
   */
  ghost predicate ReadsBackward(api: HistoryApi)
  {
    forall userid, start, count ::
      start > 0 && api(userid, start, count).Records? && api(userid, start, count).entries != [] ==>
        api(userid, start, count).entries[0].id <= start
  }

  /** The window of the next request (index.js:285): SCAN_BLOCK, or fewer when fewer records are left. */
  function NextCount(start: int): (count: int)
    ensures start > 0 ==> 1 <= count <= SCAN_BLOCK && count <= start
    ensures count == start || count == SCAN_BLOCK
  {
    if start > SCAN_BLOCK then SCAN_BLOCK else start
  }

  /**
   * The walk, from the request `(start, count)` on, for a scanner that watches `subject`
   * and is currently in state `found`.
   */
  ghost function Walk(api: HistoryApi, userid: AccountId, subject: AccountId, startTime: int,
                      found: bool, start: int, count: int): WalkResult
    requires ReadsBackward(api)
    requires start == -1 || start > 0
    decreases start == -1, start
  {
    var request := Request(start, count);
    match api(userid, start, count)
    case NotAnArray => WalkResult(found, NotArray, [request])
    case Records(entries) =>
      if entries == [] then WalkResult(found, EmptyPageThrown, [request])
      else
        var page := ScanPage(found, subject, startTime, entries);
        var next := entries[0].id - 1;
        if page.decided || next <= 0 then WalkResult(page.found, Completed, [request])
        else
          var rest := Walk(api, userid, subject, startTime, page.found, next, NextCount(next));
          WalkResult(rest.found, rest.end, [request] + rest.requests)
  }

  /** A request after which the walk stops: its answer alone settles the walk. */
  lemma WalkLast(api: HistoryApi, userid: AccountId, subject: AccountId, startTime: int,
                 found: bool, start: int, count: int)
    requires ReadsBackward(api)
    requires start == -1 || start > 0
    ensures api(userid, start, count).NotAnArray? ==>
      Walk(api, userid, subject, startTime, found, start, count) == WalkResult(found, NotArray, [Request(start, count)])
    ensures api(userid, start, count) == Records([]) ==>
      Walk(api, userid, subject, startTime, found, start, count) == WalkResult(found, EmptyPageThrown, [Request(start, count)])
  {
  }

  /**
   * A request whose non-empty page left the scanner in state `after`: the walk stops
   * there when the page decided the question or the next cursor is not positive, and
   * otherwise goes on below the page.
   */
  lemma WalkAfterPage(api: HistoryApi, userid: AccountId, subject: AccountId, startTime: int,
                      found: bool, start: int, count: int, after: Outcome)
    requires ReadsBackward(api)
    requires start == -1 || start > 0
    requires api(userid, start, count).Records? && api(userid, start, count).entries != []
    requires after == ScanPage(found, subject, startTime, api(userid, start, count).entries)
    ensures var next := api(userid, start, count).entries[0].id - 1;
      var w := Walk(api, userid, subject, startTime, found, start, count);
      (after.decided || next <= 0) ==> w == WalkResult(after.found, Completed, [Request(start, count)])
    ensures var next := api(userid, start, count).entries[0].id - 1;
      var w := Walk(api, userid, subject, startTime, found, start, count);
      !(after.decided || next <= 0) ==>
        var rest := Walk(api, userid, subject, startTime, after.found, next, NextCount(next));
        w.found == rest.found && w.end == rest.end && w.requests == [Request(start, count)] + rest.requests
  {
  }

  /** The walk goes on below a non-empty page that decided nothing and leaves a positive cursor. */
  lemma WalkGoesOn(api: HistoryApi, userid: AccountId, subject: AccountId, startTime: int,
                   found: bool, start: int, count: int, entries: seq<HistoryEntry>, after: Outcome)
    requires ReadsBackward(api)
    requires start == -1 || start > 0
    requires api(userid, start, count) == Records(entries) && entries != []
    requires after == ScanPage(found, subject, startTime, entries)
    requires !after.decided && entries[0].id - 1 > 0
    ensures var next := entries[0].id - 1;
      var w := Walk(api, userid, subject, startTime, found, start, count);
      var rest := Walk(api, userid, subject, startTime, after.found, next, NextCount(next));
      w.found == rest.found && w.end == rest.end && w.requests == [Request(start, count)] + rest.requests
  {
  }

  /** The requests sent so far, then the rest of the walk, after one more request is sent. */
  lemma SentOneMore(sent: seq<Request>, request: Request, rest: seq<Request>, later: seq<Request>, all: seq<Request>)
    requires sent + rest == all && rest == [request] + later
    ensures (sent + [request]) + later == all
  {
    assert (sent + [request]) + later == sent + ([request] + later);
  }

  /**
   * Request `r` received a non-empty page in which no record is expired or shows
   * activity, and `next` is the request that follows it: it starts just below the first
   * id of that page and asks for NextCount of that many records.
   */
  ghost predicate Continues(api: HistoryApi, userid: AccountId, subject: AccountId, startTime: int,
                            r: Request, next: Request)
  {
    var response := api(userid, r.start, r.count);
    response.Records? && response.entries != [] &&
    next.start == response.entries[0].id - 1 && next.start > 0 && next.count == NextCount(next.start) &&
    forall i :: 0 <= i < |response.entries| ==>
      response.entries[i].timestamp >= startTime && !ShowsActivity(response.entries[i].op, subject)
  }

  /** The page received for request `r` holds a record that is recent activity of `subject`. */
  ghost predicate PageShowsActivity(api: HistoryApi, userid: AccountId, subject: AccountId, startTime: int, r: Request)
  {
    var response := api(userid, r.start, r.count);
    response.Records? && exists i :: 0 <= i < |response.entries| && ActiveRecord(response.entries[i], subject, startTime)
  }

  /**
   * The requests of a walk: the first is the one given, and each later one continues
   * below the page before it, a page that decided nothing. The walk goes on past its
   * first page only for an undecided scanner.
   */
  lemma {:induction false} WalkContinues(api: HistoryApi, userid: AccountId, subject: AccountId, startTime: int,
                                         found: bool, start: int, count: int)
    requires ReadsBackward(api)
    requires start == -1 || start > 0
    ensures var w := Walk(api, userid, subject, startTime, found, start, count);
      && |w.requests| >= 1
      && w.requests[0] == Request(start, count)
      && (forall k :: 0 <= k < |w.requests| - 1 ==>
            Continues(api, userid, subject, startTime, w.requests[k], w.requests[k + 1]))
      && (|w.requests| > 1 ==> !found)
    decreases start == -1, start
  {
    match api(userid, start, count)
    case NotAnArray =>
    case Records(entries) =>
      if entries != [] {
        var page := ScanPage(found, subject, startTime, entries);
        var next := entries[0].id - 1;
        if !(page.decided || next <= 0) {
          ScanPageFound(found, subject, startTime, entries);
          ScanPageDecided(found, subject, startTime, entries);
          WalkContinues(api, userid, subject, startTime, page.found, next, NextCount(next));
          var rest := Walk(api, userid, subject, startTime, page.found, next, NextCount(next));
          var w := Walk(api, userid, subject, startTime, found, start, count);
          assert w.requests == [Request(start, count)] + rest.requests;
          assert Continues(api, userid, subject, startTime, w.requests[0], w.requests[1]);
        }
      }
  }

  /**
   * Every request after the first starts at a positive id, below the start of the
   * request before it (after the first), and asks for between 1 and SCAN_BLOCK records.
   */
  lemma WalkCursors(api: HistoryApi, userid: AccountId, subject: AccountId, startTime: int,
                    found: bool, start: int, count: int)
    requires ReadsBackward(api)
    requires start == -1 || start > 0
    ensures var w := Walk(api, userid, subject, startTime, found, start, count);
      && (forall k :: 0 < k < |w.requests| ==>
            w.requests[k].start > 0 && 1 <= w.requests[k].count <= SCAN_BLOCK)
      && (forall k :: 0 < k < |w.requests| - 1 ==> w.requests[k + 1].start < w.requests[k].start)
  {
    WalkContinues(api, userid, subject, startTime, found, start, count);
    var w := Walk(api, userid, subject, startTime, found, start, count);
    forall k | 0 < k < |w.requests|
      ensures w.requests[k].start > 0 && 1 <= w.requests[k].count <= SCAN_BLOCK
    {
      assert Continues(api, userid, subject, startTime, w.requests[k - 1], w.requests[k]);
    }
    forall k | 0 < k < |w.requests| - 1
      ensures w.requests[k + 1].start < w.requests[k].start
    {
      assert Continues(api, userid, subject, startTime, w.requests[k - 1], w.requests[k]);
      assert Continues(api, userid, subject, startTime, w.requests[k], w.requests[k + 1]);
    }
  }

  /**
   * Why a walk that ended as `end`, with the scanner in state `found`, stopped after the
   * request `last`: its answer was not an array, or an empty page, or a page that decided
   * the question (the scanner ended it found or a record of it is older than the
   * horizon), or a page below which no positive cursor is left.
   */
  ghost predicate StopsAfter(api: HistoryApi, userid: AccountId, startTime: int, found: bool, end: WalkEnd, last: Request)
  {
    var response := api(userid, last.start, last.count);
    && (end == NotArray <==> response.NotAnArray?)
    && (end == EmptyPageThrown <==> response == Records([]))
    && (end == Completed ==>
          response.Records? && response.entries != [] &&
          (found ||
           (exists i :: 0 <= i < |response.entries| && response.entries[i].timestamp < startTime) ||
           response.entries[0].id <= 1))
  }

  /** A non-empty page that decided the question or leaves no positive cursor is a reason to stop. */
  lemma StopsAfterPage(api: HistoryApi, userid: AccountId, subject: AccountId, startTime: int,
                       found: bool, start: int, count: int)
    requires api(userid, start, count).Records? && api(userid, start, count).entries != []
    requires var entries := api(userid, start, count).entries;
      ScanPage(found, subject, startTime, entries).decided || entries[0].id - 1 <= 0
    ensures StopsAfter(api, userid, startTime, ScanPage(found, subject, startTime, api(userid, start, count).entries).found,
                       Completed, Request(start, count))
  {
    ScanPageDecided(found, subject, startTime, api(userid, start, count).entries);
  }

  /**
   * The walk's last request is its last for one of the reasons StopsAfter lists. With
   * WalkContinues this is the whole stop rule: the walk goes on exactly after a
   * non-empty page that decided nothing and leaves a positive cursor.
   */
  lemma {:induction false} WalkStops(api: HistoryApi, userid: AccountId, subject: AccountId, startTime: int,
                                     found: bool, start: int, count: int)
    requires ReadsBackward(api)
    requires start == -1 || start > 0
    ensures var w := Walk(api, userid, subject, startTime, found, start, count);
      |w.requests| >= 1 && StopsAfter(api, userid, startTime, w.found, w.end, w.requests[|w.requests| - 1])
    decreases start == -1, start, 1
  {
    var response := api(userid, start, count);
    if !response.Records? || response.entries == [] {
      WalkLast(api, userid, subject, startTime, found, start, count);
    } else {
      var page := ScanPage(found, subject, startTime, response.entries);
      if page.decided || response.entries[0].id - 1 <= 0 {
        WalkAfterPage(api, userid, subject, startTime, found, start, count, page);
        StopsAfterPage(api, userid, subject, startTime, found, start, count);
      } else {
        StopsBelow(api, userid, subject, startTime, found, start, count);
      }
    }
  }

  /** WalkStops for a walk that goes on below its first page: the reason is the rest's. */
  lemma {:induction false} StopsBelow(api: HistoryApi, userid: AccountId, subject: AccountId, startTime: int,
                                      found: bool, start: int, count: int)
    requires ReadsBackward(api)
    requires start == -1 || start > 0
    requires api(userid, start, count).Records? && api(userid, start, count).entries != []
    requires !ScanPage(found, subject, startTime, api(userid, start, count).entries).decided
    requires api(userid, start, count).entries[0].id - 1 > 0
    ensures var w := Walk(api, userid, subject, startTime, found, start, count);
      |w.requests| >= 1 && StopsAfter(api, userid, startTime, w.found, w.end, w.requests[|w.requests| - 1])
    decreases start == -1, start, 0
  {
    var entries := api(userid, start, count).entries;
    var page := ScanPage(found, subject, startTime, entries);
    var next := entries[0].id - 1;
    WalkAfterPage(api, userid, subject, startTime, found, start, count, page);
    WalkStops(api, userid, subject, startTime, page.found, next, NextCount(next));
    var w := Walk(api, userid, subject, startTime, found, start, count);
    var rest := Walk(api, userid, subject, startTime, page.found, next, NextCount(next));
    assert w.requests[|w.requests| - 1] == rest.requests[|rest.requests| - 1];
  }

  /**
   * A walk that ends on a non-array or empty response leaves `found` as it was.
   */
  lemma {:induction false} WalkUntouched(api: HistoryApi, userid: AccountId, subject: AccountId, startTime: int,
                                         found: bool, start: int, count: int)
    requires ReadsBackward(api)
    requires start == -1 || start > 0
    ensures var w := Walk(api, userid, subject, startTime, found, start, count);
      w.end != Completed ==> w.found == found
    decreases start == -1, start
  {
    match api(userid, start, count)
    case NotAnArray =>
    case Records(entries) =>
      if entries != [] {
        var page := ScanPage(found, subject, startTime, entries);
        var next := entries[0].id - 1;
        if !(page.decided || next <= 0) {
          ScanPageFound(found, subject, startTime, entries);
          ScanPageDecided(found, subject, startTime, entries);
          WalkUntouched(api, userid, subject, startTime, page.found, next, NextCount(next));
        }
      }
  }

  /**
   * A walk ends found exactly when the scanner started found or one of the pages it
   * received shows activity.
   */
  lemma {:induction false} WalkFound(api: HistoryApi, userid: AccountId, subject: AccountId, startTime: int,
                                     found: bool, start: int, count: int)
    requires ReadsBackward(api)
    requires start == -1 || start > 0
    ensures var w := Walk(api, userid, subject, startTime, found, start, count);
      w.found <==>
        (found || exists k :: 0 <= k < |w.requests| && PageShowsActivity(api, userid, subject, startTime, w.requests[k]))
    decreases start == -1, start, 1
  {
    var response := api(userid, start, count);
    if !response.Records? || response.entries == [] {
      WalkLast(api, userid, subject, startTime, found, start, count);
    } else {
      var page := ScanPage(found, subject, startTime, response.entries);
      if page.decided || response.entries[0].id - 1 <= 0 {
        FoundOnLastPage(api, userid, subject, startTime, found, start, count);
      } else {
        FoundBelow(api, userid, subject, startTime, found, start, count);
      }
    }
  }

  /** WalkFound for a walk that stops after its first, non-empty page. */
  lemma FoundOnLastPage(api: HistoryApi, userid: AccountId, subject: AccountId, startTime: int,
                        found: bool, start: int, count: int)
    requires ReadsBackward(api)
    requires start == -1 || start > 0
    requires api(userid, start, count).Records? && api(userid, start, count).entries != []
    requires var entries := api(userid, start, count).entries;
      ScanPage(found, subject, startTime, entries).decided || entries[0].id - 1 <= 0
    ensures var w := Walk(api, userid, subject, startTime, found, start, count);
      w.found <==>
        (found || exists k :: 0 <= k < |w.requests| && PageShowsActivity(api, userid, subject, startTime, w.requests[k]))
  {
    var entries := api(userid, start, count).entries;
    var page := ScanPage(found, subject, startTime, entries);
    ScanPageFound(found, subject, startTime, entries);
    WalkAfterPage(api, userid, subject, startTime, found, start, count, page);
    var w := Walk(api, userid, subject, startTime, found, start, count);
    if page.found && !found {
      assert PageShowsActivity(api, userid, subject, startTime, w.requests[0]);
    }
  }

  /** WalkFound for a walk that goes on below its first page: that page showed no activity. */
  lemma {:induction false} FoundBelow(api: HistoryApi, userid: AccountId, subject: AccountId, startTime: int,
                                      found: bool, start: int, count: int)
    requires ReadsBackward(api)
    requires start == -1 || start > 0
    requires api(userid, start, count).Records? && api(userid, start, count).entries != []
    requires !ScanPage(found, subject, startTime, api(userid, start, count).entries).decided
    requires api(userid, start, count).entries[0].id - 1 > 0
    ensures var w := Walk(api, userid, subject, startTime, found, start, count);
      w.found <==>
        (found || exists k :: 0 <= k < |w.requests| && PageShowsActivity(api, userid, subject, startTime, w.requests[k]))
    decreases start == -1, start, 0
  {
    var request := Request(start, count);
    var entries := api(userid, start, count).entries;
    var page := ScanPage(found, subject, startTime, entries);
    var next := entries[0].id - 1;
    ScanPageFound(found, subject, startTime, entries);
    ScanPageDecided(found, subject, startTime, entries);
    WalkGoesOn(api, userid, subject, startTime, found, start, count, entries, page);
    WalkFound(api, userid, subject, startTime, page.found, next, NextCount(next));
    var rest := Walk(api, userid, subject, startTime, page.found, next, NextCount(next));
    assert !PageShowsActivity(api, userid, subject, startTime, request);
    ShowsActivityCons(api, userid, subject, startTime, request, rest.requests);
  }


  lemma ShowsActivityCons(api: HistoryApi, userid: AccountId, subject: AccountId, startTime: int,
                          r: Request, rs: seq<Request>)
    ensures (exists k :: 0 <= k < |[r] + rs| && PageShowsActivity(api, userid, subject, startTime, ([r] + rs)[k])) <==>
      (PageShowsActivity(api, userid, subject, startTime, r) ||
       exists k :: 0 <= k < |rs| && PageShowsActivity(api, userid, subject, startTime, rs[k]))
  {
    if PageShowsActivity(api, userid, subject, startTime, r) {
      assert ([r] + rs)[0] == r;
    }
    if exists k :: 0 <= k < |rs| && PageShowsActivity(api, userid, subject, startTime, rs[k]) {
      var k :| 0 <= k < |rs| && PageShowsActivity(api, userid, subject, startTime, rs[k]);
      assert ([r] + rs)[k + 1] == rs[k];
    }
    if exists k :: 0 <= k < |[r] + rs| && PageShowsActivity(api, userid, subject, startTime, ([r] + rs)[k]) {
      var k :| 0 <= k < |[r] + rs| && PageShowsActivity(api, userid, subject, startTime, ([r] + rs)[k]);
      if k > 0 {
        assert rs[k - 1] == ([r] + rs)[k];
      }
    }
  }

  /**
   * The inner loop of `scanUserHistory` (index.js:270-278): every record of the page is
   * fed to the scanner in order, and `terminate` records whether any of them returned true.
   */
  method FeedPage(scanner: ActivityScanner, entries: seq<HistoryEntry>) returns (terminate: bool)
    modifies scanner
    ensures Outcome(scanner.found, terminate) == ScanPage(old(scanner.found), scanner.userid, scanner.startTime, entries)
  {
    terminate := false;
    for h := 0 to |entries|
      invariant Outcome(scanner.found, terminate) == ScanPage(old(scanner.found), scanner.userid, scanner.startTime, entries[..h])
    {
      assert entries[..h + 1][..h] == entries[..h];
      var decided := scanner.Process(entries[h]);
      if decided {
        terminate := true;
      }
    }
    assert entries[..|entries|] == entries;
  }

  /**
   * `scanUserHistory` (index.js:255-287): starting at the newest record with a window of
   * SCAN_BLOCK, feed every record of each page to the scanner, then move the cursor to
   * just below the page's first id; stop when a page returned true for some record or
   * the cursor is no longer positive, and return at once on a non-array response.
   */
  method ScanUserHistory(api: HistoryApi, userid: AccountId, scanner: ActivityScanner)
    returns (end: WalkEnd, ghost requests: seq<Request>)
    requires ReadsBackward(api)
    modifies scanner
    ensures var w := Walk(api, userid, scanner.userid, scanner.startTime, old(scanner.found), -1, SCAN_BLOCK);
      scanner.found == w.found && end == w.end && requests == w.requests
  {
    ghost var subject, horizon := scanner.userid, scanner.startTime;
    ghost var walk := Walk(api, userid, subject, horizon, scanner.found, -1, SCAN_BLOCK);
    ghost var rest := walk;
    requests := [];
    var start := -1;
    var count := SCAN_BLOCK;
    while start == -1 || start > 0
      invariant start == -1 || start > 0
      invariant rest == Walk(api, userid, subject, horizon, scanner.found, start, count)
      invariant rest.found == walk.found && rest.end == walk.end && requests + rest.requests == walk.requests
      decreases start == -1, start
    {
      ghost var sent := requests;
      ghost var request := Request(start, count);
      requests := requests + [request];
      var userHistory := api(userid, start, count);
      if userHistory.NotAnArray? {
        WalkLast(api, userid, subject, horizon, scanner.found, start, count);
        return NotArray, requests;
      }
      if userHistory.entries == [] {
        WalkLast(api, userid, subject, horizon, scanner.found, start, count);
        return EmptyPageThrown, requests;
      }
      var entries := userHistory.entries;
      var firstReadId := entries[0].id;
      ghost var pageFound := scanner.found;
      var terminate := FeedPage(scanner, entries);
      start := firstReadId - 1;
      if terminate || start <= 0 {
        WalkAfterPage(api, userid, subject, horizon, pageFound, request.start, request.count, Outcome(scanner.found, terminate));
        return Completed, requests;
      }
      WalkGoesOn(api, userid, subject, horizon, pageFound, request.start, request.count, entries, Outcome(scanner.found, terminate));
      count := NextCount(start);
      ghost var later := Walk(api, userid, subject, horizon, scanner.found, start, count);
      SentOneMore(sent, request, rest.requests, later.requests, walk.requests);
      rest := later;
    }
  }

  /** What `checkActivity` yields for `userid`: the final `found` of a fresh scanner, or the exception. */
  ghost function ActivityOf(api: HistoryApi, userid: AccountId, startTime: int): Result<bool, Failure>
    requires ReadsBackward(api)
  {
    var w := Walk(api, userid, userid, startTime, false, -1, SCAN_BLOCK);
    if w.end == EmptyPageThrown then Err(EmptyHistoryPage(userid)) else Ok(w.found)
  }

  /**
   * `checkActivity` (index.js:190-197): scan the account's history with a fresh scanner
   * and report whether activity was found.
   */
  method CheckActivity(api: HistoryApi, userid: AccountId, startTime: int) returns (r: Result<bool, Failure>)
    requires ReadsBackward(api)
    ensures r == ActivityOf(api, userid, startTime)
  {
    var scanner := new ActivityScanner(userid, startTime);
    var end, _ := ScanUserHistory(api, userid, scanner);
    if end == EmptyPageThrown {
      return Err(EmptyHistoryPage(userid));
    }
    return Ok(scanner.found);
  }

  /**
   * An account is active exactly when one of the pages the walk received holds a
   * record at or after the horizon showing a vote or a reblog by it (and the walk did
   * not throw).
   */
  lemma ActivityOfMeaning(api: HistoryApi, userid: AccountId, startTime: int)
    requires ReadsBackward(api)
    ensures var w := Walk(api, userid, userid, startTime, false, -1, SCAN_BLOCK);
      ActivityOf(api, userid, startTime) == Ok(true) <==>
        w.end != EmptyPageThrown &&
        exists k :: 0 <= k < |w.requests| && PageShowsActivity(api, userid, userid, startTime, w.requests[k])
  {
    WalkFound(api, userid, userid, startTime, false, -1, SCAN_BLOCK);
  }
}
