/** `Account`: the record the services read and write, its validations, the
    `needs_sync?` test and the enqueueing guard. Time is in whole seconds; the
    job queue is the sequence of account ids enqueued so far. */
module Accounts {
  import opened Wrappers
  import opened Text
  import opened Payload

  /** The columns the core reads or writes. */
  datatype Account = Account(
    id: int,
    userId: int,
    address: string,
    name: Option<string>,
    status: string,
    syncStatus: Option<string>,
    lastSyncedAt: Option<int>,
    syncError: Option<string>,
    blockchain: Option<string>,
    accountType: Option<string>,
    balanceUsd: real,
    walletBalanceUsd: real,
    protocolBalanceUsd: real,
    defiPositions: StoredPositions)

  /** `5.minutes`, in seconds. */
  const SyncInterval: int := 300

  const Statuses: set<string> := {"active", "inactive"}
  const SyncStatuses: set<string> := {"pending", "syncing", "synced", "error"}

  /** The model's validations: a present address, unique among the user's other
      accounts; a known status; a known or absent sync status. */
  predicate Valid(a: Account, others: seq<Account>) {
    && !IsBlank(a.address)
    && (forall i :: 0 <= i < |others| && others[i].id != a.id && others[i].userId == a.userId ==> others[i].address != a.address)
    && a.status in Statuses
    && (a.syncStatus.None? || a.syncStatus.value in SyncStatuses)
  }

  /** `needs_sync?` at time `now`: pending or failed, never synced, or last synced
      strictly more than five minutes ago. */
  predicate NeedsSync(a: Account, now: int) {
    (a.syncStatus == Some("pending") || a.syncStatus == Some("error"))
    || a.lastSyncedAt.None?
    || a.lastSyncedAt.value < now - SyncInterval
  }

  /** An account that synced at `t` is fresh for exactly five minutes: it needs a sync
      again only once the clock is strictly past `t + 5 min`. */
  lemma FreshAfterSync(a: Account, t: int, now: int)
    requires a.syncStatus == Some("synced") && a.lastSyncedAt == Some(t)
    ensures NeedsSync(a, now) <==> now > t + SyncInterval
  {
  }

  /** The guard shared by `enqueue_enrichment` and the job. */
  predicate IsSyncing(a: Account) {
    a.syncStatus == Some("syncing")
  }

  /** The outcome of an enqueue attempt: the return value, the account afterwards, the queue. */
  datatype Enqueued = Enqueued(enqueued: bool, account: Account, jobs: seq<int>)

  /** `enqueue_enrichment`: refused while syncing; otherwise one job for this account
      and the status set to "pending". */
  function Enqueue(a: Account, jobs: seq<int>): (r: Enqueued)
    ensures IsSyncing(a) ==> r == Enqueued(false, a, jobs)
    ensures !IsSyncing(a) ==> r.enqueued && r.jobs == jobs + [a.id]
    ensures !IsSyncing(a) ==> r.account == a.(syncStatus := Some("pending"))
    ensures r.enqueued <==> |r.jobs| == |jobs| + 1
  {
    if IsSyncing(a) then Enqueued(false, a, jobs)
    else Enqueued(true, a.(syncStatus := Some("pending")), jobs + [a.id])
  }

  /** Enqueueing keeps a valid account valid: "pending" is a known sync status. */
  lemma EnqueuePreservesValid(a: Account, others: seq<Account>, jobs: seq<int>)
    requires Valid(a, others)
    ensures Valid(Enqueue(a, jobs).account, others)
  {
  }

  /** `sync_if_needed`: nothing unless `needs_sync?`, then `enqueue_enrichment`. */
  function SyncIfNeeded(a: Account, now: int, jobs: seq<int>): (r: Enqueued)
    ensures !NeedsSync(a, now) ==> r == Enqueued(false, a, jobs)
    ensures NeedsSync(a, now) ==> r == Enqueue(a, jobs)
    ensures r.enqueued <==> NeedsSync(a, now) && !IsSyncing(a)
  {
    if !NeedsSync(a, now) then Enqueued(false, a, jobs) else Enqueue(a, jobs)
  }

  /** The `after_create` hook. */
  function AfterCreate(a: Account, jobs: seq<int>): (r: Enqueued)
    ensures a.syncStatus.None? ==> r.enqueued && r.account.syncStatus == Some("pending") && r.jobs == jobs + [a.id]
  {
    Enqueue(a, jobs)
  }

  /** `shortened_address`: a blank address unchanged; otherwise its first six
      characters (all, if shorter), "...", and its last four (nothing if shorter). */
  function ShortenedAddress(address: string): (r: string)
    ensures IsBlank(address) ==> r == address
    ensures !IsBlank(address) ==>
      var head := if |address| < 6 then |address| else 6;
      var tail := if |address| < 4 then 0 else 4;
      && |r| == head + 3 + tail
      && r[..head] == address[..head]
      && r[head..head + 3] == "..."
      && r[head + 3..] == address[|address| - tail..]
  {
    if IsBlank(address) then address
    else
      var head := if |address| < 6 then address else address[..6];
      var tail := if |address| < 4 then "" else address[|address| - 4..];
      head + "..." + tail
  }

  /** `display_name`: the name when present, the shortened address otherwise. */
  function DisplayName(a: Account): (r: string)
    ensures a.name.Some? && !IsBlank(a.name.value) ==> r == a.name.value
    ensures a.name.None? || IsBlank(a.name.value) ==> r == ShortenedAddress(a.address)
  {
    if a.name.Some? && !IsBlank(a.name.value) then a.name.value else ShortenedAddress(a.address)
  }
}
