/**
 * The dashboard's read side: the disk summary with its alert flag and
 * ordering, the alert list, mount-point normalisation of route parameters,
 * and the per-directory usage of one mount.
 */
module Dashboard {
  import opened Wrappers
  import opened PyStr
  import opened Records
  import opened Ordering

  /** `settings.ALERT_THRESHOLD_PERCENT`. */
  const ALERT_THRESHOLD_PERCENT: real := 80.0

  /** A mount point taken from a URL path gets its leading `/` back when it lost it. */
  function NormaliseMount(mountPoint: string): (r: string)
    ensures StartsWith(r, "/")
    ensures StartsWith(mountPoint, "/") ==> r == mountPoint
  {
    if StartsWith(mountPoint, "/") then mountPoint else "/" + mountPoint
  }

  /** Normalising twice is normalising once, and the result is the input with at most a `/` in front. */
  lemma NormaliseIdempotent(mountPoint: string)
    ensures NormaliseMount(NormaliseMount(mountPoint)) == NormaliseMount(mountPoint)
    ensures NormaliseMount(mountPoint) == mountPoint || NormaliseMount(mountPoint) == "/" + mountPoint
    ensures NormaliseMount(mountPoint) == "/" + mountPoint <==> !StartsWith(mountPoint, "/")
  {
    if !StartsWith(mountPoint, "/") {
      assert "/" + mountPoint != mountPoint by {
        if mountPoint != [] {
          assert mountPoint[0] != '/';
        }
      }
    }
  }

  // ---- Disk summary ----

  /** One row of `/disks/summary`. */
  datatype DiskSummary = DiskSummary(
    serverName: string,
    serverId: int,
    mountPoint: string,
    totalGb: real,
    usedGb: real,
    freeGb: real,
    usePercent: real,
    isAlert: bool)

  function UsePercentOf(d: DiskSummary): real {
    d.usePercent
  }

  function CollectedAt(d: DiskUsage): int {
    d.collectedAt
  }

  /** Rows of the same (server, mount) as `d`. */
  function SameDisk(d: DiskUsage): DiskUsage -> bool {
    (r: DiskUsage) => r.serverId == d.serverId && r.mountPoint == d.mountPoint
  }

  /** `d` carries the latest `collected_at` of its (server, mount); rows that tie for latest all qualify. */
  predicate IsLatest(rows: seq<DiskUsage>, d: DiskUsage) {
    LatestAt(rows, SameDisk(d), CollectedAt) == Some(d.collectedAt)
  }

  /** The name of the server with that id, when it exists and is enabled. */
  function EnabledName(servers: seq<Server>, serverId: int): Option<string> {
    match FindServer(servers, serverId)
    case None => None
    case Some(server) => if server.enabled then Some(server.name) else None
  }

  function Summarise(d: DiskUsage, serverName: string): DiskSummary {
    DiskSummary(serverName, d.serverId, d.mountPoint, d.totalGb, d.usedGb, d.freeGb, d.usePercent,
                d.usePercent >= ALERT_THRESHOLD_PERCENT)
  }

  /** The summary rows of the first `k` stored rows, before sorting. */
  function SummaryRows(rows: seq<DiskUsage>, k: nat, servers: seq<Server>): seq<DiskSummary>
    requires k <= |rows|
  {
    if k == 0 then []
    else
      var d := rows[k - 1];
      SummaryRows(rows, k - 1, servers)
      + (if IsLatest(rows, d) && EnabledName(servers, d.serverId).Some?
         then [Summarise(d, EnabledName(servers, d.serverId).value)] else [])
  }

  /** `get_disk_summary`: the latest row of every disk of an enabled server, highest use first. */
  method GetDiskSummary(rows: seq<DiskUsage>, servers: seq<Server>) returns (summary: seq<DiskSummary>)
    ensures summary == SortDesc(SummaryRows(rows, |rows|, servers), UsePercentOf)
  {
    var result: seq<DiskSummary> := [];
    var i := 0;
    while i < |rows|
      invariant 0 <= i <= |rows|
      invariant result == SummaryRows(rows, i, servers)
    {
      var disk := rows[i];
      if IsLatest(rows, disk) {
        var name := EnabledName(servers, disk.serverId);
        if name.Some? {
          result := result + [DiskSummary(name.value, disk.serverId, disk.mountPoint, disk.totalGb, disk.usedGb,
                                          disk.freeGb, disk.usePercent, disk.usePercent >= ALERT_THRESHOLD_PERCENT)];
        }
      }
      i := i + 1;
    }
    summary := SortDesc(result, UsePercentOf);
  }

  /** A row's alert flag is its use percentage against the threshold. */
  predicate Flagged(s: seq<DiskSummary>) {
    forall i :: 0 <= i < |s| ==> (s[i].isAlert <==> s[i].usePercent >= ALERT_THRESHOLD_PERCENT)
  }

  /** Every summary row is flagged against the threshold. */
  lemma {:induction false} SummaryRowsFlagged(rows: seq<DiskUsage>, k: nat, servers: seq<Server>)
    requires k <= |rows|
    ensures Flagged(SummaryRows(rows, k, servers))
  {
    if k > 0 {
      SummaryRowsFlagged(rows, k - 1, servers);
    }
  }

  /** The stored row at `i` is the latest of its disk and belongs to an enabled server. */
  predicate Shown(rows: seq<DiskUsage>, servers: seq<Server>, i: nat)
    requires i < |rows|
  {
    IsLatest(rows, rows[i]) && EnabledName(servers, rows[i].serverId).Some?
  }

  /** Every summary row comes from a latest row of an enabled server, with that server's name. */
  lemma {:induction false} SummaryRowsSound(rows: seq<DiskUsage>, k: nat, servers: seq<Server>)
    requires k <= |rows|
    ensures forall d :: d in SummaryRows(rows, k, servers) ==>
      exists i :: 0 <= i < k && Shown(rows, servers, i) && EnabledName(servers, rows[i].serverId) == Some(d.serverName)
                 && d == Summarise(rows[i], d.serverName)
  {
    if k > 0 {
      var n := k - 1;
      SummaryRowsSound(rows, n, servers);
      var prev := SummaryRows(rows, n, servers);
      if Shown(rows, servers, n) {
        var d := Summarise(rows[n], EnabledName(servers, rows[n].serverId).value);
        assert SummaryRows(rows, k, servers) == prev + [d];
        forall x | x in prev + [d]
          ensures exists i :: 0 <= i < k && Shown(rows, servers, i) && EnabledName(servers, rows[i].serverId) == Some(x.serverName)
                              && x == Summarise(rows[i], x.serverName)
        {
          if x !in prev {
            assert x == d;
            assert Shown(rows, servers, n) && EnabledName(servers, rows[n].serverId) == Some(x.serverName);
          }
        }
      } else {
        assert SummaryRows(rows, k, servers) == prev;
      }
    }
  }

  /** Every latest row of an enabled server has its summary row. */
  lemma {:induction false} SummaryRowsComplete(rows: seq<DiskUsage>, k: nat, servers: seq<Server>)
    requires k <= |rows|
    ensures forall i :: 0 <= i < k && Shown(rows, servers, i) ==>
      Summarise(rows[i], EnabledName(servers, rows[i].serverId).value) in SummaryRows(rows, k, servers)
  {
    if k > 0 {
      var n := k - 1;
      SummaryRowsComplete(rows, n, servers);
      var prev := SummaryRows(rows, n, servers);
      if Shown(rows, servers, n) {
        assert SummaryRows(rows, k, servers) == prev + [Summarise(rows[n], EnabledName(servers, rows[n].serverId).value)];
      } else {
        assert SummaryRows(rows, k, servers) == prev;
      }
    }
  }

  /**
   * The summary holds exactly the latest rows of the enabled servers' disks,
   * each flagged against the threshold.
   */
  lemma SummaryRowsSpec(rows: seq<DiskUsage>, k: nat, servers: seq<Server>)
    requires k <= |rows|
    ensures Flagged(SummaryRows(rows, k, servers))
    ensures forall d :: d in SummaryRows(rows, k, servers) ==>
      exists i :: 0 <= i < k && IsLatest(rows, rows[i]) && EnabledName(servers, rows[i].serverId) == Some(d.serverName)
                 && d == Summarise(rows[i], d.serverName)
    ensures forall i :: 0 <= i < k && IsLatest(rows, rows[i]) && EnabledName(servers, rows[i].serverId).Some? ==>
      Summarise(rows[i], EnabledName(servers, rows[i].serverId).value) in SummaryRows(rows, k, servers)
  {
    SummaryRowsFlagged(rows, k, servers);
    SummaryRowsSound(rows, k, servers);
    SummaryRowsComplete(rows, k, servers);
  }

  /** Sorting keeps every summary row and its flag. */
  lemma SortKeepsFlags(s: seq<DiskSummary>)
    requires Flagged(s)
    ensures Flagged(SortDesc(s, UsePercentOf))
  {
    var t := SortDesc(s, UsePercentOf);
    SortDescSpec(s, UsePercentOf);
    forall i | 0 <= i < |t|
      ensures t[i].isAlert <==> t[i].usePercent >= ALERT_THRESHOLD_PERCENT
    {
      assert t[i] in multiset(t);
      var j :| 0 <= j < |s| && s[j] == t[i];
    }
  }

  /** The position the source's sort key `(-is_alert, -use_percent)` gives the alert flag. */
  function AlertRank(d: DiskSummary): int {
    if d.isAlert then -1 else 0
  }

  /** `a` may come before `b` under the key `(-is_alert, -use_percent)`. */
  predicate KeyLe(a: DiskSummary, b: DiskSummary) {
    AlertRank(a) < AlertRank(b) || (AlertRank(a) == AlertRank(b) && -a.usePercent <= -b.usePercent)
  }

  /** On flagged rows the two-part key orders exactly as descending use percentage. */
  lemma KeyLeIsUseOrder(a: DiskSummary, b: DiskSummary)
    requires a.isAlert <==> a.usePercent >= ALERT_THRESHOLD_PERCENT
    requires b.isAlert <==> b.usePercent >= ALERT_THRESHOLD_PERCENT
    ensures KeyLe(a, b) <==> a.usePercent >= b.usePercent
  {
  }

  /**
   * The summary is a permutation of the latest enabled rows, ordered by the
   * key `(-is_alert, -use_percent)`: alert rows first, then by use, highest first.
   */
  lemma SummaryOrder(rows: seq<DiskUsage>, servers: seq<Server>)
    ensures var summary := SortDesc(SummaryRows(rows, |rows|, servers), UsePercentOf);
      multiset(summary) == multiset(SummaryRows(rows, |rows|, servers))
      && Flagged(summary)
      && (forall i, j :: 0 <= i < j < |summary| ==> KeyLe(summary[i], summary[j]))
      && (forall i, j :: 0 <= i < j < |summary| && summary[j].isAlert ==> summary[i].isAlert)
  {
    var s := SummaryRows(rows, |rows|, servers);
    var summary := SortDesc(s, UsePercentOf);
    SummaryRowsSpec(rows, |rows|, servers);
    SortDescSpec(s, UsePercentOf);
    SortKeepsFlags(s);
    forall i, j | 0 <= i < j < |summary|
      ensures KeyLe(summary[i], summary[j])
    {
      assert UsePercentOf(summary[i]) >= UsePercentOf(summary[j]);
      KeyLeIsUseOrder(summary[i], summary[j]);
    }
  }

  // ---- Alerts ----

  predicate IsAlertRow(d: DiskSummary) {
    d.isAlert
  }

  /** `get_disk_alerts`: the alert rows of the summary, in summary order. */
  function GetDiskAlerts(summary: seq<DiskSummary>): (alerts: seq<DiskSummary>)
    ensures |alerts| <= |summary|
    ensures forall d :: d in alerts <==> d in summary && d.isAlert
  {
    FilterMembers(summary, IsAlertRow);
    Filter(summary, IsAlertRow)
  }

  /** The alerts of a flagged summary whose alert rows come first are its rows at or over the threshold, as a prefix. */
  lemma AlertsOfOrdered(summary: seq<DiskSummary>)
    requires Flagged(summary)
    requires forall i, j :: 0 <= i < j < |summary| && summary[j].isAlert ==> summary[i].isAlert
    ensures var alerts := GetDiskAlerts(summary);
      alerts == summary[..|alerts|]
      && (forall i :: 0 <= i < |summary| ==> (i < |alerts| <==> summary[i].usePercent >= ALERT_THRESHOLD_PERCENT))
  {
    assert ClosedBefore(summary, IsAlertRow);
    FilterClosedPrefix(summary, IsAlertRow);
    FilterMembers(summary, IsAlertRow);
    var alerts := GetDiskAlerts(summary);
    forall i | 0 <= i < |alerts|
      ensures summary[i].isAlert
    {
      assert alerts[i] in alerts;
      assert summary[i] == alerts[i];
    }
  }

  /** The alert list is a prefix of the summary and holds exactly its rows at or over the threshold. */
  lemma AlertsOfSummary(rows: seq<DiskUsage>, servers: seq<Server>)
    ensures var summary := SortDesc(SummaryRows(rows, |rows|, servers), UsePercentOf);
      var alerts := GetDiskAlerts(summary);
      alerts == summary[..|alerts|]
      && (forall i :: 0 <= i < |summary| ==> (i < |alerts| <==> summary[i].usePercent >= ALERT_THRESHOLD_PERCENT))
  {
    SummaryOrder(rows, servers);
    AlertsOfOrdered(SortDesc(SummaryRows(rows, |rows|, servers), UsePercentOf));
  }

  // ---- Directory usage of one mount ----

  /** One row of `/disks/users/{server}/{mount}`. */
  datatype UserUsageSummary = UserUsageSummary(directory: string, owner: Option<string>, usedGb: real, percentOfDisk: real)

  function UsedOf(u: UserDiskUsage): real {
    u.usedGb
  }

  function UserCollectedAt(u: UserDiskUsage): int {
    u.collectedAt
  }

  function InMount(serverId: int, mountPoint: string): UserDiskUsage -> bool {
    (u: UserDiskUsage) => u.serverId == serverId && u.mountPoint == mountPoint
  }

  function AtTime(serverId: int, mountPoint: string, at: Instant): UserDiskUsage -> bool {
    (u: UserDiskUsage) => u.serverId == serverId && u.mountPoint == mountPoint && u.collectedAt == at
  }

  function DiskOf(serverId: int, mountPoint: string): DiskUsage -> bool {
    (d: DiskUsage) => d.serverId == serverId && d.mountPoint == mountPoint
  }

  /** The newest disk row of the mount (the first stored one if several tie). */
  function LatestDisk(rows: seq<DiskUsage>, serverId: int, mountPoint: string): (disk: Option<DiskUsage>)
    ensures disk.Some? ==> disk.value in rows && disk.value.serverId == serverId && disk.value.mountPoint == mountPoint
    ensures disk.Some? ==> forall i :: 0 <= i < |rows| && DiskOf(serverId, mountPoint)(rows[i]) ==> rows[i].collectedAt <= disk.value.collectedAt
    ensures disk.None? ==> forall i :: 0 <= i < |rows| ==> !DiskOf(serverId, mountPoint)(rows[i])
  {
    LatestAtSpec(rows, DiskOf(serverId, mountPoint), CollectedAt);
    match LatestAt(rows, DiskOf(serverId, mountPoint), CollectedAt)
    case None => None
    case Some(latest) =>
      var found := First(rows, (d: DiskUsage) => DiskOf(serverId, mountPoint)(d) && d.collectedAt == latest);
      assert found.Some? by {
        var i :| 0 <= i < |rows| && DiskOf(serverId, mountPoint)(rows[i]) && CollectedAt(rows[i]) == latest;
      }
      found
  }

  /** The disk size percentages are taken against: the newest disk row's total, or 1 when there is none. */
  function DiskTotal(rows: seq<DiskUsage>, serverId: int, mountPoint: string): real {
    match LatestDisk(rows, serverId, mountPoint)
    case None => 1.0
    case Some(d) => d.totalGb
  }

  /** The directory rows of the mount's latest collection, largest first. */
  function LatestUserRows(rows: seq<UserDiskUsage>, serverId: int, mountPoint: string): seq<UserDiskUsage> {
    match LatestAt(rows, InMount(serverId, mountPoint), UserCollectedAt)
    case None => []
    case Some(latest) => SortDesc(Filter(rows, AtTime(serverId, mountPoint, latest)), UsedOf)
  }

  /** The rows' shares of a disk of `total` GB. */
  function Shares(records: seq<UserDiskUsage>, total: real): (shares: seq<UserUsageSummary>)
    requires total != 0.0
    ensures |shares| == |records|
    ensures forall i :: 0 <= i < |records| ==>
      shares[i].directory == records[i].directory && shares[i].owner == records[i].owner
      && shares[i].usedGb == records[i].usedGb && shares[i].percentOfDisk == records[i].usedGb / total * 100.0
  {
    seq(|records|, i requires 0 <= i < |records| =>
      UserUsageSummary(records[i].directory, records[i].owner, records[i].usedGb, records[i].usedGb / total * 100.0))
  }

  lemma ShareMonotone(a: real, b: real, total: real)
    requires total > 0.0 && a >= b
    ensures a / total * 100.0 >= b / total * 100.0
  {
    assert a / total >= b / total;
  }

  /** Against a positive total, rows sorted by size give shares sorted by percentage. */
  lemma SharesLargestFirst(records: seq<UserDiskUsage>, total: real)
    requires total > 0.0 && SortedDesc(records, UsedOf)
    ensures var shares := Shares(records, total);
      forall i, j :: 0 <= i < j < |shares| ==> shares[i].percentOfDisk >= shares[j].percentOfDisk
  {
    var shares := Shares(records, total);
    forall i, j | 0 <= i < j < |shares|
      ensures shares[i].percentOfDisk >= shares[j].percentOfDisk
    {
      assert UsedOf(records[i]) >= UsedOf(records[j]);
      ShareMonotone(records[i].usedGb, records[j].usedGb, total);
    }
  }

  /** A directory no larger than the disk takes between 0 and 100 percent of it. */
  lemma SharesBounded(records: seq<UserDiskUsage>, total: real)
    requires total > 0.0
    requires forall i :: 0 <= i < |records| ==> 0.0 <= records[i].usedGb <= total
    ensures var shares := Shares(records, total);
      forall i :: 0 <= i < |shares| ==> 0.0 <= shares[i].percentOfDisk <= 100.0
  {
    var shares := Shares(records, total);
    forall i | 0 <= i < |shares|
      ensures 0.0 <= shares[i].percentOfDisk <= 100.0
    {
      ShareMonotone(records[i].usedGb, 0.0, total);
      ShareMonotone(total, records[i].usedGb, total);
    }
  }

  /**
   * `get_user_usage`: the latest collection's directories with their share
   * of the disk. A zero disk total raises ZeroDivisionError, an HTTP 500.
   */
  function GetUserUsage(userRows: seq<UserDiskUsage>, diskRows: seq<DiskUsage>, serverId: int, rawMount: string)
    : Result<seq<UserUsageSummary>>
  {
    var mountPoint := NormaliseMount(rawMount);
    var records := LatestUserRows(userRows, serverId, mountPoint);
    var total := DiskTotal(diskRows, serverId, mountPoint);
    if records == [] then Success([])
    else if total == 0.0 then Failure("float division by zero")
    else Success(Shares(records, total))
  }

  /**
   * The latest collection's rows: nothing when the mount has no rows; otherwise
   * every row of the newest collection time, no other row, largest first.
   */
  lemma LatestUserRowsSpec(rows: seq<UserDiskUsage>, serverId: int, mountPoint: string)
    ensures var latest := LatestUserRows(rows, serverId, mountPoint);
      (latest == [] <==> forall i :: 0 <= i < |rows| ==> !InMount(serverId, mountPoint)(rows[i]))
      && SortedDesc(latest, UsedOf)
      && (forall u :: u in latest ==>
            u in rows && u.serverId == serverId && u.mountPoint == mountPoint
            && forall i :: 0 <= i < |rows| && InMount(serverId, mountPoint)(rows[i]) ==> rows[i].collectedAt <= u.collectedAt)
      && (forall i :: 0 <= i < |rows| && IsNewestOfMount(rows, serverId, mountPoint, i) ==> rows[i] in latest)
      && (var t := LatestAt(rows, InMount(serverId, mountPoint), UserCollectedAt);
          t.Some? ==> multiset(latest) == multiset(Filter(rows, AtTime(serverId, mountPoint, t.value))))
  {
    LatestUserRowsComplete(rows, serverId, mountPoint);
    var t := LatestAt(rows, InMount(serverId, mountPoint), UserCollectedAt);
    LatestAtSpec(rows, InMount(serverId, mountPoint), UserCollectedAt);
    if t.Some? {
      var matching := Filter(rows, AtTime(serverId, mountPoint, t.value));
      FilterMembers(rows, AtTime(serverId, mountPoint, t.value));
      SortDescSpec(matching, UsedOf);
      var latest := SortDesc(matching, UsedOf);
      var i :| 0 <= i < |rows| && InMount(serverId, mountPoint)(rows[i]) && UserCollectedAt(rows[i]) == t.value;
      assert rows[i] in matching;
      assert rows[i] in multiset(latest);
      forall u | u in latest
        ensures u in rows && u.serverId == serverId && u.mountPoint == mountPoint && u.collectedAt == t.value
      {
        assert u in multiset(matching);
      }
    }
  }

  /** Row `i` belongs to the mount and no row of the mount is newer. */
  predicate IsNewestOfMount(rows: seq<UserDiskUsage>, serverId: int, mountPoint: string, i: nat)
    requires i < |rows|
  {
    InMount(serverId, mountPoint)(rows[i])
    && forall k :: 0 <= k < |rows| && InMount(serverId, mountPoint)(rows[k]) ==> rows[k].collectedAt <= rows[i].collectedAt
  }

  /** Every row of the mount's newest collection is listed. */
  lemma LatestUserRowsComplete(rows: seq<UserDiskUsage>, serverId: int, mountPoint: string)
    ensures forall i :: 0 <= i < |rows| && IsNewestOfMount(rows, serverId, mountPoint, i) ==>
      rows[i] in LatestUserRows(rows, serverId, mountPoint)
  {
    forall i | 0 <= i < |rows| && IsNewestOfMount(rows, serverId, mountPoint, i)
      ensures rows[i] in LatestUserRows(rows, serverId, mountPoint)
    {
      NewestListed(rows, serverId, mountPoint, i);
    }
  }

  lemma NewestListed(rows: seq<UserDiskUsage>, serverId: int, mountPoint: string, i: nat)
    requires i < |rows| && IsNewestOfMount(rows, serverId, mountPoint, i)
    ensures rows[i] in LatestUserRows(rows, serverId, mountPoint)
  {
    var inMount := InMount(serverId, mountPoint);
    LatestAtSpec(rows, inMount, UserCollectedAt);
    var t := LatestAt(rows, inMount, UserCollectedAt);
    assert inMount(rows[i]);
    assert t.Some?;
    var k :| 0 <= k < |rows| && inMount(rows[k]) && UserCollectedAt(rows[k]) == t.value;
    assert rows[k].collectedAt <= rows[i].collectedAt;
    assert rows[i].collectedAt <= t.value;
    var atTime := AtTime(serverId, mountPoint, t.value);
    assert atTime(rows[i]);
    var matching := Filter(rows, atTime);
    FilterMembers(rows, atTime);
    assert rows[i] in matching;
    SortDescSpec(matching, UsedOf);
    assert LatestUserRows(rows, serverId, mountPoint) == SortDesc(matching, UsedOf);
    assert rows[i] in multiset(SortDesc(matching, UsedOf));
  }

  /**
   * The response lists the latest collection's rows in order, each with its
   * size over the disk total, times 100; it fails exactly when there are rows
   * and the disk total is zero.
   */
  lemma UserUsageSpec(userRows: seq<UserDiskUsage>, diskRows: seq<DiskUsage>, serverId: int, rawMount: string)
    ensures var mountPoint := NormaliseMount(rawMount);
      var records := LatestUserRows(userRows, serverId, mountPoint);
      var total := DiskTotal(diskRows, serverId, mountPoint);
      var r := GetUserUsage(userRows, diskRows, serverId, rawMount);
      (r.Failure? <==> records != [] && total == 0.0)
      && (r.Success? ==> (|r.value| == |records|
            && forall i :: 0 <= i < |records| ==>
                 r.value[i].directory == records[i].directory && r.value[i].usedGb == records[i].usedGb
                 && r.value[i].percentOfDisk == records[i].usedGb / total * 100.0))
  {
  }

  /** With a positive disk total the response succeeds and is ordered largest share first. */
  lemma UserUsageLargestFirst(userRows: seq<UserDiskUsage>, diskRows: seq<DiskUsage>, serverId: int, rawMount: string)
    requires DiskTotal(diskRows, serverId, NormaliseMount(rawMount)) > 0.0
    ensures var r := GetUserUsage(userRows, diskRows, serverId, rawMount);
      r.Success? && forall i, j :: 0 <= i < j < |r.value| ==> r.value[i].percentOfDisk >= r.value[j].percentOfDisk
  {
    var mountPoint := NormaliseMount(rawMount);
    LatestUserRowsSpec(userRows, serverId, mountPoint);
    var records := LatestUserRows(userRows, serverId, mountPoint);
    if records != [] {
      SharesLargestFirst(records, DiskTotal(diskRows, serverId, mountPoint));
    }
  }
}
