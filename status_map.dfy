/** The status-to-count object every dashboard builds from the stats payload:
    `Object.fromEntries(stats.byStatus.map(s => [s.status, s.count]))`, read
    as `sm[k] || 0` (client/src/pages/Analytics.jsx, client/src/pages/Dashboard.jsx,
    job-tracker-mobile/app/index.js). */
module StatusMap {
  import opened Wrappers
  import opened Seqs
  import opened Schema
  import opened Stats

  /** The property name an entry is stored under: a NULL status becomes "null". */
  function KeyOf(status: Option<string>): (k: string)
    ensures status.Some? ==> k == status.value
    ensures k != "null" ==> status == Some(k)
  {
    if status.None? then "null" else status.value
  }

  /** `sm[k] || 0`: the count of the last entry stored under k (a later entry
      overwrites an earlier one), or 0 when there is none. */
  function CountOf(byStatus: seq<StatusCount>, k: string): (n: nat)
    ensures (forall i :: 0 <= i < |byStatus| ==> KeyOf(byStatus[i].status) != k) ==> n == 0
    ensures n > 0 ==> exists i :: 0 <= i < |byStatus| && KeyOf(byStatus[i].status) == k && byStatus[i].count == n
  {
    if byStatus == [] then 0
    else
      var last := byStatus[|byStatus| - 1];
      if KeyOf(last.status) == k then last.count else CountOf(byStatus[..|byStatus| - 1], k)
  }

  /** `keys.reduce((sum, k) => sum + (sm[k] || 0), 0)`. */
  function SumOver(byStatus: seq<StatusCount>, keys: seq<string>): (n: nat)
    ensures forall i :: 0 <= i < |keys| ==> CountOf(byStatus, keys[i]) <= n
  {
    if keys == [] then 0
    else
      var init := keys[..|keys| - 1];
      var rest := SumOver(byStatus, init);
      assert forall i :: 0 <= i < |init| ==> init[i] == keys[i];
      rest + CountOf(byStatus, keys[|keys| - 1])
  }

  lemma {:induction false} SumOverAppend(byStatus: seq<StatusCount>, a: seq<string>, b: seq<string>)
    ensures SumOver(byStatus, a + b) == SumOver(byStatus, a) + SumOver(byStatus, b)
    decreases |b|
  {
    if b != [] {
      assert (a + b)[..|a + b| - 1] == a + b[..|b| - 1];
      SumOverAppend(byStatus, a, b[..|b| - 1]);
    } else {
      assert a + b == a;
    }
  }

  ghost predicate DistinctStatuses(byStatus: seq<StatusCount>)
  {
    forall i, j :: 0 <= i < j < |byStatus| ==> byStatus[i].status != byStatus[j].status
  }

  /** With one entry per status, `sm[k]` is the count of the entry for status k. */
  lemma {:induction false} CountOfEntry(byStatus: seq<StatusCount>, i: nat, k: string)
    requires DistinctStatuses(byStatus)
    requires i < |byStatus| && byStatus[i].status == Some(k) && k != "null"
    ensures CountOf(byStatus, k) == byStatus[i].count
  {
    var n := |byStatus| - 1;
    if i < n {
      assert byStatus[n].status != Some(k);
      CountOfEntry(byStatus[..n], i, k);
    }
  }

  /** On the server's grouping, `sm[k]` is the number of jobs whose status is k. */
  lemma CountOfByStatus(jobs: seq<Job>, k: string)
    requires k != "null"
    ensures CountOf(ByStatus(jobs), k) == Count(jobs, StatusIs(Some(k)))
  {
    var g := ByStatus(jobs);
    if exists i :: 0 <= i < |g| && g[i].status == Some(k) {
      var i :| 0 <= i < |g| && g[i].status == Some(k);
      CountOfEntry(g, i, k);
    } else {
      assert Some(k) !in StatusesOf(jobs);
      CountAbsent(jobs, Some(k));
    }
  }

  /** The job's status is one of keys. */
  function StatusAmong(keys: seq<string>): Job -> bool
  {
    (j: Job) => j.status.Some? && j.status.value in keys
  }

  /** On the server's grouping, a KPI sum over distinct statuses is the number
      of jobs whose status is one of them; an absent status adds 0. */
  lemma {:induction false} SumOverByStatus(jobs: seq<Job>, keys: seq<string>)
    requires forall i, j :: 0 <= i < j < |keys| ==> keys[i] != keys[j]
    requires "null" !in keys
    ensures SumOver(ByStatus(jobs), keys) == Count(jobs, StatusAmong(keys))
  {
    if keys == [] {
      FilterNone(jobs, StatusAmong(keys));
    } else {
      var ks, k := keys[..|keys| - 1], keys[|keys| - 1];
      assert keys == ks + [k];
      SumOverByStatus(jobs, ks);
      CountOfByStatus(jobs, k);
      CountOr(jobs, StatusAmong(ks), StatusIs(Some(k)), StatusAmong(keys));
    }
  }
}
