/**
 * The records that the blockchain query API hands to the reward script:
 * follower entries, account records and account-history entries.
 */
module Chain {
  import opened Wrappers

  /** An account name on the chain. */
  type AccountId = string

  /** One entry of a `getFollowers` page; only its `follower` field is read. */
  datatype FollowEntry = FollowEntry(follower: AccountId)

  /** One account record of a `getAccounts` answer: its name and its raw reputation. */
  datatype Account = Account(name: AccountId, reputation: string)

  /**
   * The already-parsed JSON body of a `custom_json` operation whose id is "follow":
   * its first element names the action, and its second element may carry an `account`.
   */
  datatype FollowPayload = FollowPayload(action: string, account: Option<AccountId>)

  /**
   * The operation of a history entry. Only three kinds are interpreted; `OtherOp`
   * stands for every other kind.
   */
  datatype Operation =
    | Vote(voter: AccountId)
    | Comment(author: AccountId)
    | CustomJson(id: string, payload: FollowPayload)
    | OtherOp(kind: string)

  /** A history entry `[id, {timestamp, op}]`, its timestamp already parsed to milliseconds. */
  datatype HistoryEntry = HistoryEntry(id: int, timestamp: int, op: Operation)
}
