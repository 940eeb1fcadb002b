/** `AccountEnrichmentJob`: looks the account up by id and runs the enrichment
    service unless the account is gone or already syncing. The accounts table is
    a map from id to account; every looked-up account is persisted. */
module EnrichmentJob {
  import opened Wrappers
  import opened Accounts
  import PriceService
  import Enrichment

  /** `perform(account_id)`. */
  method Perform(accounts: map<int, Account>, id: int, c: PriceService.Cache, now: int, ans: Enrichment.Answers)
    returns (ran: bool, r: map<int, Account>, cache: PriceService.Cache)
    ensures ran <==> id in accounts && !IsSyncing(accounts[id])
    ensures !ran ==> r == accounts && cache == c
    ensures r.Keys == accounts.Keys
    ensures forall k :: k in accounts && k != id ==> r[k] == accounts[k]
    ensures ran ==> r[id].id == accounts[id].id && r[id].address == accounts[id].address
    ensures ran ==> r[id].syncStatus == Some("synced") || r[id].syncStatus == Some("error")
    ensures ran ==> !IsSyncing(r[id]) && Enqueue(r[id], []).enqueued
    ensures ran && r[id].syncStatus == Some("synced") ==> r[id].lastSyncedAt == Some(now)
    ensures ran && r[id].syncStatus == Some("error") ==> r[id].lastSyncedAt == accounts[id].lastSyncedAt
    ensures PriceService.Consistent(c) ==> PriceService.Consistent(cache)
  {
    if id !in accounts || IsSyncing(accounts[id]) {
      return false, accounts, c;
    }
    var succeeded, updated;
    succeeded, updated, cache := Enrichment.Call(accounts[id], true, c, now, ans);
    ran := true;
    r := accounts[id := updated];
  }

  /** The job's guard is the enqueue guard: a job runs for an account exactly when
      `enqueue_enrichment` would accept it. */
  lemma JobGuardIsEnqueueGuard(a: Account, jobs: seq<int>)
    ensures Enqueue(a, jobs).enqueued <==> !IsSyncing(a)
  {
  }

  /** The job that `enqueue_enrichment` schedules runs: the account it leaves behind
      is pending, not syncing. */
  lemma EnqueuedJobRuns(a: Account, jobs: seq<int>)
    requires Enqueue(a, jobs).enqueued
    ensures !IsSyncing(Enqueue(a, jobs).account)
    ensures Enqueue(a, jobs).jobs[|jobs|] == a.id
  {
  }
}
