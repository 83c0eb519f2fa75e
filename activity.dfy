/**
 * The activity scanner (`ActivityScanner`, index.js:150-188): a per-account object
 * fed one history entry at a time, with a sticky `found` flag.
 */
module Activity {
  import opened Wrappers
  import opened Chain

  /**
   * Whether one operation, read while the scanner is still undecided, shows activity by
   * `userid` (the switch at index.js:166-185): a vote cast by the user, or a "follow"
   * custom_json whose payload reblogs with the user as `account`. The `comment` branch
   * compares `found` with true instead of assigning it, so a comment by the user shows
   * nothing; all other kinds are inert.
   */
  predicate ShowsActivity(op: Operation, userid: AccountId)
  {
    match op
    case Vote(voter) => voter == userid
    case Comment(_) => false
    case CustomJson(id, payload) =>
      id == "follow" && payload.action == "reblog" && payload.account == Some(userid)
    case OtherOp(_) => false
  }

  /** A record that counts as recent activity of `userid`. */
  predicate ActiveRecord(he: HistoryEntry, userid: AccountId, startTime: int)
  {
    he.timestamp >= startTime && ShowsActivity(he.op, userid)
  }

  /** The scanner's state after a record, and the value `process` returns for it. */
  datatype Outcome = Outcome(found: bool, decided: bool)

  /** One `process` call (index.js:156-187) as a function of the scanner's `found`. */
  function Step(found: bool, userid: AccountId, startTime: int, he: HistoryEntry): (r: Outcome)
    // once found, always found, and every record is "decided"
    ensures found ==> r == Outcome(true, true)
    // a record older than the horizon is "decided" and leaves found alone
    ensures he.timestamp < startTime ==> r == Outcome(found, true)
    // found becomes true only through recent activity by the user
    ensures r.found <==> found || ActiveRecord(he, userid, startTime)
    // comments and unknown kinds never change found
    ensures he.op.Comment? || he.op.OtherOp? ==> r.found == found
    ensures r.decided <==> found || he.timestamp < startTime || r.found
  {
    if found || he.timestamp < startTime then Outcome(found, true)
    else
      var f := ShowsActivity(he.op, userid);
      Outcome(f, f)
  }

  /**
   * Processing every record of a page in order (index.js:270-278): the scanner's state
   * afterwards and whether any record returned true (the `terminate` flag).
   */
  function ScanPage(found: bool, userid: AccountId, startTime: int, page: seq<HistoryEntry>): Outcome
  {
    if page == [] then Outcome(found, false)
    else
      var before := ScanPage(found, userid, startTime, page[..|page| - 1]);
      var o := Step(before.found, userid, startTime, page[|page| - 1]);
      Outcome(o.found, before.decided || o.decided)
  }

  /**
   * After a page, found holds exactly when it held before or some record of the page is
   * recent activity -- wherever that record sits, even after an expired one.
   */
  lemma {:induction false} ScanPageFound(found: bool, userid: AccountId, startTime: int, page: seq<HistoryEntry>)
    ensures ScanPage(found, userid, startTime, page).found <==>
      found || exists i :: 0 <= i < |page| && ActiveRecord(page[i], userid, startTime)
  {
    if page != [] {
      var init := page[..|page| - 1];
      ScanPageFound(found, userid, startTime, init);
      if exists i :: 0 <= i < |init| && ActiveRecord(init[i], userid, startTime) {
        var i :| 0 <= i < |init| && ActiveRecord(init[i], userid, startTime);
        assert page[i] == init[i];
      }
      if exists i :: 0 <= i < |page| && ActiveRecord(page[i], userid, startTime) {
        var i :| 0 <= i < |page| && ActiveRecord(page[i], userid, startTime);
        if i < |init| {
          assert init[i] == page[i];
        }
      }
    }
  }

  /**
   * A non-empty page terminates the walk exactly when the scanner ends it found, or some
   * record of it is older than the horizon.
   */
  lemma {:induction false} ScanPageDecided(found: bool, userid: AccountId, startTime: int, page: seq<HistoryEntry>)
    ensures page == [] ==> ScanPage(found, userid, startTime, page) == Outcome(found, false)
    ensures page != [] ==> (ScanPage(found, userid, startTime, page).decided <==>
      ScanPage(found, userid, startTime, page).found || exists i :: 0 <= i < |page| && page[i].timestamp < startTime)
  {
    if page != [] {
      var init := page[..|page| - 1];
      ScanPageDecided(found, userid, startTime, init);
      if exists i :: 0 <= i < |init| && init[i].timestamp < startTime {
        var i :| 0 <= i < |init| && init[i].timestamp < startTime;
        assert page[i] == init[i];
      }
      if exists i :: 0 <= i < |page| && page[i].timestamp < startTime {
        var i :| 0 <= i < |page| && page[i].timestamp < startTime;
        if i < |init| {
          assert init[i] == page[i];
        }
      }
    }
  }

  /**
   * Expiry is not sticky: a page in which a record older than the horizon is followed
   * by recent activity of the user still ends found, and terminates the walk.
   */
  lemma ActiveAfterExpired(found: bool, userid: AccountId, startTime: int, page: seq<HistoryEntry>, i: int, j: int)
    requires 0 <= i < j < |page|
    requires page[i].timestamp < startTime && ActiveRecord(page[j], userid, startTime)
    ensures ScanPage(found, userid, startTime, page) == Outcome(true, true)
  {
    ScanPageFound(found, userid, startTime, page);
    ScanPageDecided(found, userid, startTime, page);
  }

  /** The scanner object that `checkActivity` creates for one account. */
  class ActivityScanner {
    var found: bool
    const userid: AccountId
    /** The recency horizon (START_TIME): the run's start minus seven days. */
    const startTime: int

    constructor (userid: AccountId, startTime: int)
      ensures !found && this.userid == userid && this.startTime == startTime
    {
      this.found := false;
      this.userid := userid;
      this.startTime := startTime;
    }

    /** `process` (index.js:156-187): feed one history entry; true means "decided". */
    method Process(he: HistoryEntry) returns (decided: bool)
      modifies this
      ensures Outcome(found, decided) == Step(old(found), userid, startTime, he)
    {
      if found || he.timestamp < startTime {
        return true;
      }
      match he.op {
        case Vote(voter) =>
          if voter == userid {
            found := true;
          }
        case Comment(author) =>
          // the source evaluates `found == true` here and drops the result
        case CustomJson(id, payload) =>
          if id == "follow" {
            if payload.action == "reblog" && payload.account == Some(userid) {
              found := true;
            }
          }
        case OtherOp(_) =>
      }
      decided := found;
    }
  }
}
