# reward_subscribers — a Dafny model of the subscriber eligibility engine

`index.js` pays a share of an account's GBG balance to the followers of that account
who were active on the Golos blockchain during the last seven days. Around its network
and terminal I/O it holds five pieces of sequential logic, and this project models
each of them and proves what it promises:

- **Follower paginator** (`followers.dfy`, module `Followers`). `getSubscribers`
  requests follower pages of `LIMIT = 100` entries. The first cursor is `""`. Each
  later cursor is the `follower` of the last entry of the previous full page. The
  first page shorter than 100 ends the loop. The `add` helper appends each follower
  not yet collected, so the result has no duplicates and keeps first-seen order.
- **Activity scanner** (`activity.dfy`, module `Activity`). `ActivityScanner` is a
  class with a mutable `found` field. `Process` feeds it one history entry and is
  proved against the pure function `Step`. A record older than the horizon
  `START_TIME`, or any record once `found` is set, is "decided". `found` is set by a
  vote of the user, or by a "follow" `custom_json` that reblogs with the user as
  `account`. Line 174 compares `found == true` where an assignment was evidently
  meant, so an authored comment never sets `found`. The model keeps the code as
  written, and `Step`'s contract states that comments never change `found`.
- **Backward history walk** (`history_scan.dfy`, module `HistoryScan`).
  `ScanUserHistory` starts at cursor -1 with a window of 50. After each page the
  cursor becomes `firstReadId - 1` and the window becomes `min(50, start)`. The walk
  stops when any record of the page returned true or when the cursor is no longer
  positive. It returns at once on a non-array response. Every record of a page is
  processed, and only `found` is sticky, so a newer record of the same page can
  still set `found` after an older one expired (`ActiveAfterExpired`). The pure
  function `Walk` specifies the walk, including the list of requests it issues, and
  `ScanUserHistory` returns, as a ghost trace, the requests it sent, proved equal
  to that list.
- **Eligibility filter** (`eligibility.dfy`, module `Eligibility`). `Filter` looks
  the list up in consecutive slices of `min(7, len - i)` names. In order, it keeps
  the returned accounts that `CheckAccount` accepts. `CheckAccount` rejects a
  reputation score below `minrep` before reading any history. The outer
  `count = 20` (line 217) is shadowed at line 220 and has no effect, so it is not
  modelled.
- **Error-message extraction** (`exception_cause.dfy`, module `ExceptionCause`).
  `GetExceptionCause` joins the first three lines of the nested remote error message
  with `": "`. When that message is missing or empty, it returns the error itself.

The remote API calls are parameters of the model, as total functions:
`getFollowers` is a function of the cursor, `getAccountHistory` a function of
(account, start, count), and `getAccounts` a function of the batch of names. The
reputation score (`repLog10`, floating point) is an abstract function
`string -> real` in `Eligibility.Gate`. `START_TIME` is passed to the scanner's
constructor and stored as a constant field.

Reading `userHistory[0][0]` on an empty history page throws a TypeError in the
source. That exception propagates through `checkActivity`, `checkAccount` and
`filter` up to `run`. The model keeps that path: the walk ends with
`EmptyPageThrown`, and `CheckActivity`, `CheckAccount` and `Filter` return
`Err(EmptyHistoryPage(userid))`.

`run` sorts the eligible subscribers after `filter` (lines 69-70), so `filter` sees
the paginator's first-seen order. The code has no blacklist, no owner fee, no
configurable percentage and no report step: the payout is a fixed `balance * 0.8`.

## Model

| member | source | states |
|---|---|---|
| Followers.AddPage | index.js:104-111 | the `add` loop leaves exactly `Add(subscribers, page)`: each follower not yet collected is appended, in page order |
| Followers.AddExtends | index.js:104-111 | `add` only appends: the earlier list is an unchanged prefix of the new one |
| Followers.AddElements | index.js:104-111 | after `add`, a name is collected exactly when it was collected before or is a follower of the page (both directions) |
| Followers.AddNoDuplicates | index.js:104-111 | `add` never introduces a duplicate into a duplicate-free list |
| Followers.AddFirstSeenOrder | index.js:104-111 | from an empty list, `add` lists the followers in strictly increasing order of their first occurrence in the page |
| Followers.AddConcat | index.js:113-123 | adding two pages one after the other equals adding their concatenation |
| Followers.RequestCountUnique | index.js:113-119 | the number of requests (full pages then one short page) is determined by the server's answers |
| Followers.GetSubscribers | index.js:99-126 | the requests sent are exactly the cursors `Cursor(api, 0)`, `Cursor(api, 1)`, … of a run, and their number is the one `RequestCount` fixes (every page full but the last); the result is `add` over every page received |
| Followers.CursorChain | index.js:113-118 | the first cursor is "" and each later one is the `follower` of the last entry of the page before it, which had exactly 100 entries |
| Followers.SubscribersProperties | index.js:99-126 | the returned list has no duplicates, holds exactly the followers of all pages received, and keeps their first-seen order |
| Activity.Step | index.js:156-187 | once `found`, always found and every call returns true; an expired record returns true and leaves `found` alone; `found` becomes true exactly on a recent vote by the user or a "follow" reblog of the user; comments and other kinds never change `found` |
| Activity.ScanPageFound | index.js:159-185 | after a page, `found` holds exactly when it held before or some record of the page is recent activity, wherever that record sits in the page |
| Activity.ScanPageDecided | index.js:270-278 | a non-empty page sets `terminate` exactly when the scanner ends it found or some record is older than the horizon; an empty page leaves everything as it was |
| Activity.ActiveAfterExpired | index.js:271-278 | in any page, a record older than the horizon followed later by recent activity of the user ends the page found and terminating, whatever the scanner's state before |
| Activity.ActivityScanner.constructor | index.js:151-154 | a new scanner starts with `found` false for the given user and horizon |
| Activity.ActivityScanner.Process | index.js:156-187 | the new `found` and the returned value are those of `Step` applied to the old `found` |
| HistoryScan.NextCount | index.js:285 | for a positive cursor, the next window lies between 1 and 50 and does not exceed the cursor |
| HistoryScan.WalkContinues | index.js:258-286 | the first request is (-1, 50); each later request starts at the first id of the previous page minus 1, which is positive, and asks for `min(50, start)`; every page before the last was non-empty with no expired or active record; only an undecided scanner goes past the first page |
| HistoryScan.WalkStops | index.js:263-284 | the last request is the last because its answer was not an array, was an empty page, or was a page that decided the question (the scanner ended it found or a record is older than the horizon) or left no positive cursor (first id at most 1); with `WalkContinues`, the walk stops exactly at the first such page |
| HistoryScan.WalkCursors | index.js:281-285 | every request after the first has a positive start and a window between 1 and 50, and the starts strictly decrease |
| HistoryScan.WalkUntouched | index.js:263-268 | a walk that ends on a non-array response or an empty page leaves `found` as it was |
| HistoryScan.WalkFound | index.js:255-287 | a walk ends found exactly when the scanner started found or some page it received holds recent activity of the user |
| HistoryScan.FeedPage | index.js:270-278 | the scanner's new `found` and the `terminate` flag are those of `ScanPage` over the whole page, from the scanner's old `found` |
| HistoryScan.ScanUserHistory | index.js:255-287 | the scanner's final `found`, the way the walk ends and the requests sent, in order, are those of `Walk` from cursor -1 and window 50 |
| HistoryScan.CheckActivity | index.js:190-197 | a fresh scanner's final `found` after the walk, or the exception thrown on an empty page |
| HistoryScan.ActivityOfMeaning | index.js:190-197 | an account is active exactly when the walk does not throw and one of the pages it received holds recent activity of the account |
| Eligibility.CheckAccount | index.js:199-212 | a score below `minrep` is rejected; otherwise the account passes exactly when the activity scan finds activity; the scan's exception propagates |
| Eligibility.LowReputationReadsNoHistory | index.js:200-204 | a low-reputation rejection is the same whatever the history server would answer: no history is read |
| Eligibility.BatchesFlatten | index.js:218-231 | the batches, concatenated, are the subscriber list: every index is looked up exactly once, in order |
| Eligibility.BatchesSlices | index.js:219-231 | batch k is the slice starting at 7k of size min(7, len - 7k), and there are ceil(len / 7) batches |
| Eligibility.Query | index.js:221-224 | the query is the `count` names from position `i`, in order |
| Eligibility.KeepAnswer | index.js:226-230 | the names collected so far, followed by the passing accounts of one answer, in order; the first exception from `checkAccount` ends it |
| Eligibility.Filter | index.js:214-235 | the result is what the batches, looked up in order and filtered account by account, yield; the first exception ends the filter; the lookups sent (a ghost trace) are the first batches in order, and all of them when no check throws |
| Eligibility.KeepPassingMeaning | index.js:226-230 | one answer is filtered without exception exactly when no account check throws, and then it keeps the passing names in order |
| Eligibility.KeepBatchesMeaning | index.js:219-232 | over all batches: no exception exactly when no check of a returned account throws, and then the kept names are the passing returned accounts, in return order |
| Eligibility.EligibleMeaning | index.js:214-235 | the filter succeeds exactly when no check throws; a name is then kept exactly when a returned account has it, reaches the reputation floor and is active |
| ExceptionCause.Split | index.js:293 | `split("\n")` yields one piece more than there are line breaks |
| ExceptionCause.SplitPieces | index.js:293 | no piece of the split holds a line break |
| ExceptionCause.JoinSplit | index.js:293-297 | joining the split pieces with a separator replaces every line break by that separator |
| ExceptionCause.SplitRoundTrip | index.js:293 | joining the split pieces with a line break gives the message back |
| ExceptionCause.SplitAround | index.js:293 | splitting a text around a line break splits each side |
| ExceptionCause.CauseOfShortMessage | index.js:293-298 | a message of at most three lines is returned whole, its line breaks replaced by ": " |
| ExceptionCause.CauseOfLongMessage | index.js:293-298 | a longer message is cut at its third line break, the two line breaks before it replaced by ": " |
| ExceptionCause.GetExceptionCause | index.js:289-302 | a present, non-empty nested message yields its first three lines joined by ": "; otherwise the error itself is returned |

## Left out

- `run`, `prompt`, `sleep`, the configuration file, `process.argv` parsing, the `debug` logging setup and `process.exit`: process and terminal I/O.
- `transfer` and `golos.broadcast.transferAsync`: a network broadcast. The loop has no state the model could observe.
- The payout arithmetic (`balance * 0.8`, `rewards / length`, `toFixed`), `log10` and `repLog10`: floating point. The reputation score is an abstract function.
- `calculateFee`: dead code that returns a constant.
- `Date.parse` and `JSON.parse`: timestamps are integers and the `custom_json` payload is already parsed. An unparsable timestamp (NaN compares false), invalid JSON or a "reblog" payload without a second element (both throw in the source) are not modelled.
- JavaScript's loose `==` and `undefined` values, such as a missing `minrep` or a `null` reputation: the model compares typed values.
- The `async`/`await` plumbing: nothing in the core runs concurrently.
- Followers.GetSubscribers: requires that the server eventually returns a page shorter than 100. Against a server that always returns full pages the source loops forever, and a terminating method cannot express that.
- HistoryScan.ScanUserHistory: requires that a history request with a positive start returns a page whose first id is at most that start. Without that the source's walk need not end. The same assumption sits on `Walk`, `CheckActivity`, `CheckAccount` and `Filter`.
