/**
 * The eligibility filter (`filter` and `checkAccount`, index.js:199-235): subscribers
 * are looked up in consecutive batches of at most BATCH names, and every account the
 * lookup returns is kept when it passes the reputation floor and then the activity scan.
 */
module Eligibility {
  import opened Wrappers
  import opened Chain
  import opened HistoryScan

  /** The largest number of names in one `getAccounts` request. */
  const BATCH := 7

  /** `getAccounts(names)`: the account records the server returns for a batch of names. */
  type AccountsApi = seq<AccountId> -> seq<Account>

  /**
   * What the gates of `checkAccount` consult: the history server, the reputation score
   * of a raw reputation (`repLog10`, kept abstract), the configured floor `minrep`, and
   * the recency horizon.
   */
  datatype Gate = Gate(history: HistoryApi, score: string -> real, minrep: real, startTime: int)

  /** The verdict `checkAccount` reaches for one account, or the exception its scan throws. */
  ghost function Verdict(gate: Gate, acc: Account): Result<bool, Failure>
    requires ReadsBackward(gate.history)
  {
    if gate.minrep > gate.score(acc.reputation) then Ok(false)
    else ActivityOf(gate.history, acc.name, gate.startTime)
  }

  /**
   * `checkAccount` (index.js:199-212): an account whose score is below the floor is
   * rejected before its history is read; otherwise it passes exactly when the scan finds
   * activity.
   */
  method CheckAccount(gate: Gate, acc: Account) returns (r: Result<bool, Failure>)
    requires ReadsBackward(gate.history)
    ensures r == Verdict(gate, acc)
    ensures gate.minrep > gate.score(acc.reputation) ==> r == Ok(false)
    ensures r == Ok(true) <==>
      gate.minrep <= gate.score(acc.reputation) && ActivityOf(gate.history, acc.name, gate.startTime) == Ok(true)
  {
    var nrep := gate.score(acc.reputation);
    if gate.minrep > nrep {
      return Ok(false);
    }
    var active := CheckActivity(gate.history, acc.name, gate.startTime);
    if active.Err? {
      return Err(active.error);
    }
    if !active.value {
      return Ok(false);
    }
    return Ok(true);
  }

  /** A rejection for low reputation does not depend on the account's history at all. */
  lemma LowReputationReadsNoHistory(gate: Gate, other: HistoryApi, acc: Account)
    requires ReadsBackward(gate.history) && ReadsBackward(other)
    requires gate.minrep > gate.score(acc.reputation)
    ensures Verdict(gate, acc) == Verdict(gate.(history := other), acc) == Ok(false)
  {
  }

  /** The `getAccounts` requests of `filter`: consecutive slices of at most BATCH names. */
  function Batches(s: seq<AccountId>): seq<seq<AccountId>>
  {
    if s == [] then []
    else
      var n := BatchSize(|s|);
      [s[..n]] + Batches(s[n..])
  }

  function Flatten(batches: seq<seq<AccountId>>): seq<AccountId>
  {
    if batches == [] then [] else batches[0] + Flatten(batches[1..])
  }

  /** The batches, concatenated, give back the subscriber list: every name is looked up once, in order. */
  lemma {:induction false} BatchesFlatten(s: seq<AccountId>)
    ensures Flatten(Batches(s)) == s
  {
    if s != [] {
      var n := BatchSize(|s|);
      BatchesFlatten(s[n..]);
      assert s == s[..n] + s[n..];
    }
  }

  /**
   * Batch `k` is the slice that starts at BATCH * k and holds min(BATCH, len - BATCH * k)
   * names, and there are ceil(len / BATCH) batches.
   */
  lemma {:induction false} BatchesSlices(s: seq<AccountId>)
    ensures |Batches(s)| == (|s| + BATCH - 1) / BATCH
    ensures forall k :: 0 <= k < |Batches(s)| ==>
      BATCH * k < |s| && Batches(s)[k] == s[BATCH * k .. BATCH * k + BatchSize(|s| - BATCH * k)]
  {
    if s != [] {
      var n := BatchSize(|s|);
      var rest := s[n..];
      BatchesSlices(rest);
      var bs := Batches(s);
      assert bs == [s[..n]] + Batches(rest);
      forall k | 0 < k < |bs|
        ensures BATCH * k < |s| && bs[k] == s[BATCH * k .. BATCH * k + BatchSize(|s| - BATCH * k)]
      {
        SliceOfSuffix(s, n, k);
      }
    }
  }

  lemma SliceOfSuffix(s: seq<AccountId>, n: int, k: int)
    requires 0 < k && n == BATCH <= |s|
    requires BATCH * (k - 1) < |s| - n
    ensures BATCH * k < |s|
    ensures s[n..][BATCH * (k - 1) .. BATCH * (k - 1) + BatchSize(|s| - n - BATCH * (k - 1))]
      == s[BATCH * k .. BATCH * k + BatchSize(|s| - BATCH * k)]
  {
    assert BATCH * (k - 1) == BATCH * k - BATCH;
  }

  /** The size of the batch taken when `remaining` names are left: min(BATCH, remaining). */
  function BatchSize(remaining: int): int
  {
    if remaining < BATCH then remaining else BATCH
  }

  /** `names` collected so far, followed by what the rest of the run collects. */
  function Prepend(names: seq<AccountId>, r: Result<seq<AccountId>, Failure>): Result<seq<AccountId>, Failure>
  {
    match r
    case Ok(rest) => Ok(names + rest)
    case Err(e) => Err(e)
  }

  /** The first part of a run, then the rest; an exception in the first part ends it. */
  function Then(first: Result<seq<AccountId>, Failure>, rest: Result<seq<AccountId>, Failure>): Result<seq<AccountId>, Failure>
  {
    match first
    case Ok(names) => Prepend(names, rest)
    case Err(e) => Err(e)
  }

  /** The names `filter` keeps from one `getAccounts` answer, checking accounts in order. */
  ghost function KeepPassing(gate: Gate, accounts: seq<Account>): Result<seq<AccountId>, Failure>
    requires ReadsBackward(gate.history)
  {
    if accounts == [] then Ok([])
    else
      var verdict := match Verdict(gate, accounts[0])
        case Ok(pass) => Ok(if pass then [accounts[0].name] else [])
        case Err(e) => Err(e);
      Then(verdict, KeepPassing(gate, accounts[1..]))
  }

  /** The names `filter` keeps over a list of batches, batch after batch. */
  ghost function KeepBatches(gate: Gate, getAccounts: AccountsApi, batches: seq<seq<AccountId>>): Result<seq<AccountId>, Failure>
    requires ReadsBackward(gate.history)
  {
    if batches == [] then Ok([])
    else Then(KeepPassing(gate, getAccounts(batches[0])), KeepBatches(gate, getAccounts, batches[1..]))
  }

  /** What `filter` yields for a subscriber list. */
  ghost function Eligible(gate: Gate, getAccounts: AccountsApi, subscribers: seq<AccountId>): Result<seq<AccountId>, Failure>
    requires ReadsBackward(gate.history)
  {
    KeepBatches(gate, getAccounts, Batches(subscribers))
  }

  lemma PrependNothing(r: Result<seq<AccountId>, Failure>)
    ensures Prepend([], r) == r
  {
    if r.Ok? {
      assert [] + r.value == r.value;
    }
  }

  lemma PrependPrepend(a: seq<AccountId>, b: seq<AccountId>, r: Result<seq<AccountId>, Failure>)
    ensures Prepend(a, Prepend(b, r)) == Prepend(a + b, r)
  {
    if r.Ok? {
      assert a + (b + r.value) == (a + b) + r.value;
    }
  }

  /** One batch off the front of the remaining list. */
  lemma BatchesStep(s: seq<AccountId>, i: int)
    requires 0 <= i < |s|
    ensures i + BatchSize(|s| - i) <= |s|
    ensures Batches(s[i..]) == [s[i .. i + BatchSize(|s| - i)]] + Batches(s[i + BatchSize(|s| - i)..])
  {
    var count := BatchSize(|s| - i);
    assert s[i..][..count] == s[i .. i + count];
    assert s[i..][count..] == s[i + count..];
  }

  /** The next batch's answer, then the batches after it. */
  lemma NextBatch(gate: Gate, getAccounts: AccountsApi, s: seq<AccountId>, i: int)
    requires ReadsBackward(gate.history)
    requires 0 <= i < |s|
    ensures i + BatchSize(|s| - i) <= |s|
    ensures KeepBatches(gate, getAccounts, Batches(s[i..]))
      == Then(KeepPassing(gate, getAccounts(s[i .. i + BatchSize(|s| - i)])),
              KeepBatches(gate, getAccounts, Batches(s[i + BatchSize(|s| - i)..])))
  {
    BatchesStep(s, i);
  }

  /**
   * One account off the front of the rest of an answer: an exception ends the run with
   * it, and otherwise the account's name is kept when it passes.
   */
  lemma KeepOne(gate: Gate, accounts: seq<Account>, j: int, kept: seq<AccountId>)
    requires ReadsBackward(gate.history)
    requires 0 <= j < |accounts|
    ensures Verdict(gate, accounts[j]).Err? ==>
      Prepend(kept, KeepPassing(gate, accounts[j..])) == Err(Verdict(gate, accounts[j]).error)
    ensures Verdict(gate, accounts[j]).Ok? ==>
      Prepend(kept, KeepPassing(gate, accounts[j..]))
        == Prepend(if Verdict(gate, accounts[j]).value then kept + [accounts[j].name] else kept,
                   KeepPassing(gate, accounts[j + 1..]))
  {
    assert accounts[j..][0] == accounts[j];
    assert accounts[j..][1..] == accounts[j + 1..];
    if Verdict(gate, accounts[j]).Ok? {
      var one := if Verdict(gate, accounts[j]).value then [accounts[j].name] else [];
      PrependPrepend(kept, one, KeepPassing(gate, accounts[j + 1..]));
      assert kept + [] == kept;
    }
  }

  /** What one answer yields, then the batches after it. */
  lemma PrependThen(ret: seq<AccountId>, first: Result<seq<AccountId>, Failure>, rest: Result<seq<AccountId>, Failure>)
    ensures Prepend(ret, first).Err? ==> Prepend(ret, Then(first, rest)) == Prepend(ret, first)
    ensures Prepend(ret, first).Ok? ==> Prepend(ret, Then(first, rest)) == Prepend(Prepend(ret, first).value, rest)
  {
    if first.Ok? {
      PrependPrepend(ret, first.value, rest);
    }
  }

  /** The lookups sent so far, then the batches still to send, after one more lookup. */
  lemma QueriedOneMore(sent: seq<seq<AccountId>>, batch: seq<AccountId>, later: seq<seq<AccountId>>, all: seq<seq<AccountId>>)
    requires sent + ([batch] + later) == all
    ensures (sent + [batch]) + later == all
    ensures sent + [batch] <= all
  {
    assert (sent + [batch]) + later == sent + ([batch] + later);
  }

  /** The loop at index.js:222-224: the `count` names from position `i`, in order. */
  method Query(subscribers: seq<AccountId>, i: nat, count: nat) returns (query: seq<AccountId>)
    requires i + count <= |subscribers|
    ensures query == subscribers[i .. i + count]
  {
    query := [];
    for n := 0 to count
      invariant query == subscribers[i .. i + n]
    {
      query := query + [subscribers[i + n]];
    }
  }

  /**
   * The loop at index.js:226-230: the names collected so far, followed by the names of
   * the accounts of one answer that `checkAccount` accepts, in order; an exception from
   * `checkAccount` ends it.
   */
  method KeepAnswer(gate: Gate, answer: seq<Account>, ret: seq<AccountId>) returns (r: Result<seq<AccountId>, Failure>)
    requires ReadsBackward(gate.history)
    ensures r == Prepend(ret, KeepPassing(gate, answer))
  {
    var kept := ret;
    assert answer[0..] == answer;
    for j := 0 to |answer|
      invariant Prepend(ret, KeepPassing(gate, answer)) == Prepend(kept, KeepPassing(gate, answer[j..]))
    {
      var ok := CheckAccount(gate, answer[j]);
      KeepOne(gate, answer, j, kept);
      if ok.Err? {
        return Err(ok.error);
      }
      if ok.value {
        kept := kept + [answer[j].name];
      }
    }
    assert answer[|answer|..] == [];
    assert kept + [] == kept;
    return Ok(kept);
  }

  /**
   * `filter` (index.js:214-235): walk the list in slices of min(7, len - i) names, look
   * each slice up, and keep, in order, the names of the returned accounts that
   * `checkAccount` accepts; an exception from `checkAccount` ends the filter.
   */
  method Filter(gate: Gate, getAccounts: AccountsApi, subscribers: seq<AccountId>)
    returns (r: Result<seq<AccountId>, Failure>, ghost queries: seq<seq<AccountId>>)
    requires ReadsBackward(gate.history)
    ensures r == Eligible(gate, getAccounts, subscribers)
    // the lookups sent are the first batches, in order; all of them when no check throws
    ensures queries <= Batches(subscribers)
    ensures r.Ok? ==> queries == Batches(subscribers)
  {
    queries := [];
    var ret: seq<AccountId> := [];
    var len := |subscribers|;
    var i := 0;
    ghost var total := Eligible(gate, getAccounts, subscribers);
    assert subscribers[0..] == subscribers;
    PrependNothing(total);
    while i < len
      invariant 0 <= i <= len
      invariant total == Prepend(ret, KeepBatches(gate, getAccounts, Batches(subscribers[i..])))
      invariant queries + Batches(subscribers[i..]) == Batches(subscribers)
    {
      var count := BatchSize(len - i);
      var query := Query(subscribers, i, count);
      BatchesStep(subscribers, i);
      QueriedOneMore(queries, query, Batches(subscribers[i + count..]), Batches(subscribers));
      queries := queries + [query];
      var answer := getAccounts(query);
      ghost var tail := KeepBatches(gate, getAccounts, Batches(subscribers[i + count..]));
      NextBatch(gate, getAccounts, subscribers, i);
      var kept := KeepAnswer(gate, answer, ret);
      PrependThen(ret, KeepPassing(gate, answer), tail);
      if kept.Err? {
        return kept, queries;
      }
      ret := kept.value;
      i := i + count;
    }
    assert subscribers[len..] == [];
    assert ret + [] == ret;
    assert queries + [] == queries;
    return Ok(ret), queries;
  }
  /** The names of the accounts that pass both gates, in order: the reference for what `filter` keeps. */
  ghost function PassingNames(gate: Gate, accounts: seq<Account>): seq<AccountId>
    requires ReadsBackward(gate.history)
  {
    if accounts == [] then []
    else (if Verdict(gate, accounts[0]) == Ok(true) then [accounts[0].name] else []) + PassingNames(gate, accounts[1..])
  }

  /** Every account record returned for the batches, in request order. */
  function Answers(getAccounts: AccountsApi, batches: seq<seq<AccountId>>): seq<Account>
  {
    if batches == [] then [] else getAccounts(batches[0]) + Answers(getAccounts, batches[1..])
  }

  /** A name passes exactly when it is the name of an account whose verdict is a pass. */
  lemma {:induction false} PassingNamesMembers(gate: Gate, accounts: seq<Account>, x: AccountId)
    requires ReadsBackward(gate.history)
    ensures x in PassingNames(gate, accounts) <==>
      exists i :: 0 <= i < |accounts| && accounts[i].name == x && Verdict(gate, accounts[i]) == Ok(true)
  {
    if accounts != [] {
      PassingNamesMembers(gate, accounts[1..], x);
      if exists i :: 0 <= i < |accounts| && accounts[i].name == x && Verdict(gate, accounts[i]) == Ok(true) {
        var i :| 0 <= i < |accounts| && accounts[i].name == x && Verdict(gate, accounts[i]) == Ok(true);
        if i > 0 {
          assert accounts[1..][i - 1] == accounts[i];
        }
      }
      if x in PassingNames(gate, accounts[1..]) {
        var i :| 0 <= i < |accounts[1..]| && accounts[1..][i].name == x && Verdict(gate, accounts[1..][i]) == Ok(true);
        assert accounts[i + 1] == accounts[1..][i];
      }
    }
  }

  lemma {:induction false} PassingNamesAppend(gate: Gate, a: seq<Account>, b: seq<Account>)
    requires ReadsBackward(gate.history)
    ensures PassingNames(gate, a + b) == PassingNames(gate, a) + PassingNames(gate, b)
  {
    if a != [] {
      assert (a + b)[1..] == a[1..] + b;
      PassingNamesAppend(gate, a[1..], b);
    } else {
      assert a + b == b;
    }
  }

  /** No check of these accounts throws. */
  ghost predicate NoneThrows(gate: Gate, accounts: seq<Account>)
    requires ReadsBackward(gate.history)
  {
    forall i :: 0 <= i < |accounts| ==> Verdict(gate, accounts[i]).Ok?
  }

  lemma NoneThrowsAppend(gate: Gate, a: seq<Account>, b: seq<Account>)
    requires ReadsBackward(gate.history)
    ensures NoneThrows(gate, a + b) <==> NoneThrows(gate, a) && NoneThrows(gate, b)
  {
    assert forall i :: 0 <= i < |a| ==> (a + b)[i] == a[i];
    assert forall i :: 0 <= i < |b| ==> (a + b)[|a| + i] == b[i];
  }

  lemma ThenMeaning(first: Result<seq<AccountId>, Failure>, rest: Result<seq<AccountId>, Failure>)
    ensures Then(first, rest).Ok? <==> first.Ok? && rest.Ok?
    ensures Then(first, rest).Ok? ==> Then(first, rest).value == first.value + rest.value
  {
  }

  /**
   * For one answer: the accounts are kept without exception exactly when no account's
   * check throws, and then the kept names are those of the passing accounts, in order.
   */
  lemma {:induction false} KeepPassingMeaning(gate: Gate, accounts: seq<Account>)
    requires ReadsBackward(gate.history)
    ensures KeepPassing(gate, accounts).Ok? <==> NoneThrows(gate, accounts)
    ensures KeepPassing(gate, accounts).Ok? ==> KeepPassing(gate, accounts).value == PassingNames(gate, accounts)
  {
    if accounts != [] {
      KeepPassingMeaning(gate, accounts[1..]);
      assert accounts == [accounts[0]] + accounts[1..];
      NoneThrowsAppend(gate, [accounts[0]], accounts[1..]);
    }
  }

  /**
   * `filter` ends without exception exactly when no returned account's check throws,
   * and then it yields the names of the returned accounts that pass both gates, in the
   * order in which they were returned.
   */
  lemma {:induction false} KeepBatchesMeaning(gate: Gate, getAccounts: AccountsApi, batches: seq<seq<AccountId>>)
    requires ReadsBackward(gate.history)
    ensures KeepBatches(gate, getAccounts, batches).Ok? <==> NoneThrows(gate, Answers(getAccounts, batches))
    ensures KeepBatches(gate, getAccounts, batches).Ok? ==>
      KeepBatches(gate, getAccounts, batches).value == PassingNames(gate, Answers(getAccounts, batches))
  {
    if batches != [] {
      var first := getAccounts(batches[0]);
      var rest := Answers(getAccounts, batches[1..]);
      assert Answers(getAccounts, batches) == first + rest;
      KeepBatchesMeaning(gate, getAccounts, batches[1..]);
      KeepPassingMeaning(gate, first);
      ThenMeaning(KeepPassing(gate, first), KeepBatches(gate, getAccounts, batches[1..]));
      NoneThrowsAppend(gate, first, rest);
      PassingNamesAppend(gate, first, rest);
    }
  }

  /**
   * What `filter` yields for a subscriber list: without exception exactly when no
   * check of a returned account throws, and then exactly the names of the returned
   * accounts whose reputation reaches the floor and whose history shows activity.
   */
  lemma EligibleMeaning(gate: Gate, getAccounts: AccountsApi, subscribers: seq<AccountId>, x: AccountId)
    requires ReadsBackward(gate.history)
    ensures Eligible(gate, getAccounts, subscribers).Ok? <==> NoneThrows(gate, Answers(getAccounts, Batches(subscribers)))
    ensures var answers := Answers(getAccounts, Batches(subscribers));
      Eligible(gate, getAccounts, subscribers).Ok? ==>
        (x in Eligible(gate, getAccounts, subscribers).value <==>
          exists i :: 0 <= i < |answers| && answers[i].name == x &&
            gate.minrep <= gate.score(answers[i].reputation) &&
            ActivityOf(gate.history, answers[i].name, gate.startTime) == Ok(true))
  {
    var answers := Answers(getAccounts, Batches(subscribers));
    assert Eligible(gate, getAccounts, subscribers) == KeepBatches(gate, getAccounts, Batches(subscribers));
    KeepBatchesMeaning(gate, getAccounts, Batches(subscribers));
    PassingNamesMembers(gate, answers, x);
  }
}
