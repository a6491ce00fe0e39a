/**
 * `collect_server_data` and `collect_all_servers`: one collection pass per
 * host, staging its disk and directory rows and committing them together,
 * and the status record each pass reports.
 */
module Collector {
  import opened Wrappers
  import opened PyStr
  import opened Remote
  import opened Records
  import opened DiskTable
  import opened DirUsage

  /** The elements of `parts` that are not blank after stripping, stripped, in order. */
  function NonBlankStripped(parts: seq<string>): (mounts: seq<string>)
    ensures |mounts| <= |parts|
    ensures forall i :: 0 <= i < |mounts| ==> mounts[i] != [] && !IsSpace(mounts[i][0]) && !IsSpace(mounts[i][|mounts[i]| - 1])
    decreases |parts|
  {
    if parts == [] then []
    else
      var m := Strip(parts[|parts| - 1]);
      NonBlankStripped(parts[..|parts| - 1]) + (if m != [] then [m] else [])
  }

  /** The configured allow-list: the comma-separated entries, stripped, blanks dropped; empty when unset. */
  function ParseScanMounts(config: Option<string>): (mounts: seq<string>)
    ensures forall i :: 0 <= i < |mounts| ==> mounts[i] != [] && !IsSpace(mounts[i][0]) && !IsSpace(mounts[i][|mounts[i]| - 1])
  {
    match config
    case None => []
    case Some(text) => if text == [] then [] else NonBlankStripped(Split(text, ','))
  }

  /** The warning shown when an allow-list matched no disk. */
  function WarningText(scanMounts: seq<string>, available: seq<string>): string {
    "配置的挂载点 [" + Join(scanMounts, ", ") + "] 未找到。服务器可用挂载点: "
    + (if available == [] then "无" else Join(available, ", "))
  }

  /** The status record of one pass. */
  datatype CollectResult = CollectResult(
    serverId: int,
    serverName: string,
    success: bool,
    error: Option<string>,
    warning: Option<string>,
    disksCollected: nat,
    usersCollected: nat,
    availableMounts: seq<string>)

  /** Rows written together by one commit. */
  datatype Batch = Batch(disks: seq<DiskUsage>, users: seq<UserDiskUsage>)

  /** Rows staged so far, and the exception that stopped the pass, if any. */
  datatype Progress = Progress(disks: seq<DiskUsage>, users: seq<UserDiskUsage>, error: Option<string>)

  /** The outcome of one pass: its status record and what it committed. */
  datatype Report = Report(result: CollectResult, committed: Batch)

  function DiskRecord(serverId: int, d: DiskInfo, at: Instant): DiskUsage {
    DiskUsage(serverId, d.device, d.filesystem, d.mountPoint, d.totalGb, d.usedGb, d.freeGb, d.usePercent, at)
  }

  function UserRecord(serverId: int, mountPoint: string, e: DirEntry, at: Instant): UserDiskUsage {
    UserDiskUsage(serverId, mountPoint, e.directory, e.owner, e.usedGb, at)
  }

  function UserRecords(serverId: int, mountPoint: string, entries: seq<DirEntry>, at: Instant): (rows: seq<UserDiskUsage>)
    ensures |rows| == |entries|
    ensures forall i :: 0 <= i < |entries| ==> rows[i] == UserRecord(serverId, mountPoint, entries[i], at)
  {
    seq(|entries|, i requires 0 <= i < |entries| => UserRecord(serverId, mountPoint, entries[i], at))
  }

  /** Stages one disk and, unless it is the root mount, its directories. */
  function StageDisk(session: Session, serverId: int, d: DiskInfo, at: Instant, p: Progress): Progress {
    var disks := p.disks + [DiskRecord(serverId, d, at)];
    if d.mountPoint == "/" then Progress(disks, p.users, None)
    else
      match UserUsage(session, d.mountPoint)
      case Failure(e) => Progress(disks, p.users, Some(e))
      case Success(entries) => Progress(disks, p.users + UserRecords(serverId, d.mountPoint, entries, at), None)
  }

  /** Stages the disks in order until one raises. */
  function StageDisks(session: Session, serverId: int, disks: seq<DiskInfo>, at: Instant): Progress
    decreases |disks|
  {
    if disks == [] then Progress([], [], None)
    else
      var p := StageDisks(session, serverId, disks[..|disks| - 1], at);
      if p.error.Some? then p else StageDisk(session, serverId, disks[|disks| - 1], at, p)
  }

  /** `collect_server_data` on one host, given its connection and the moment of collection. */
  function Collect(server: Server, conn: Connection, at: Instant): Report {
    var failed := CollectResult(server.id, server.name, false, None, None, 0, 0, []);
    match conn
    case Unreachable(reason) => Report(failed.(error := Some(reason)), Batch([], []))
    case Connected(session) =>
      var scanMounts := ParseScanMounts(server.scanMounts);
      match ParseDiskTable(session.run(DF_COMMAND), scanMounts)
      case Failure(e) => Report(failed.(error := Some(e)), Batch([], []))
      case Success(table) =>
        var warning := if |scanMounts| > 0 && |table.disks| == 0 then Some(WarningText(scanMounts, table.mountPoints)) else None;
        var p := StageDisks(session, server.id, table.disks, at);
        var result := CollectResult(server.id, server.name, p.error.None?, p.error, warning, |p.disks|, |p.users|, table.mountPoints);
        Report(result, if p.error.None? then Batch(p.disks, p.users) else Batch([], []))
  }

  /** The database session: committed rows only. */
  class Store {
    var diskUsages: seq<DiskUsage>
    var userUsages: seq<UserDiskUsage>

    constructor()
      ensures diskUsages == [] && userUsages == []
    {
      diskUsages := [];
      userUsages := [];
    }

    /** Writes the staged rows. */
    method Commit(batch: Batch)
      modifies this
      ensures diskUsages == old(diskUsages) + batch.disks
      ensures userUsages == old(userUsages) + batch.users
    {
      diskUsages := diskUsages + batch.disks;
      userUsages := userUsages + batch.users;
    }
  }

  /** One collection pass: stage every row, commit them all on success, discard them on an exception. */
  method CollectServerData(store: Store, server: Server, conn: Connection, at: Instant) returns (result: CollectResult)
    modifies store
    ensures result == Collect(server, conn, at).result
    ensures store.diskUsages == old(store.diskUsages) + Collect(server, conn, at).committed.disks
    ensures store.userUsages == old(store.userUsages) + Collect(server, conn, at).committed.users
  {
    result := CollectResult(server.id, server.name, false, None, None, 0, 0, []);
    if conn.Unreachable? {
      result := result.(error := Some(conn.reason));
      return;
    }
    var session := conn.session;
    var scanMounts := ParseScanMounts(server.scanMounts);
    var table := CollectDiskUsage(session, scanMounts);
    if table.Failure? {
      result := result.(error := Some(table.error));
      return;
    }
    var disks := table.value.disks;
    result := result.(availableMounts := table.value.mountPoints);
    if |scanMounts| > 0 && |disks| == 0 {
      result := result.(warning := Some(WarningText(scanMounts, table.value.mountPoints)));
    }
    var progress := StageAllDisks(session, server.id, disks, at);
    result := result.(disksCollected := |progress.disks|, usersCollected := |progress.users|);
    if progress.error.Some? {
      result := result.(error := progress.error);
      return;
    }
    store.Commit(Batch(progress.disks, progress.users));
    result := result.(success := true);
  }

  /**
   * The staging loop of a pass: each disk's row, then (unless it is the root
   * mount) its directories' rows, until a directory scan raises.
   */
  method StageAllDisks(session: Session, serverId: int, disks: seq<DiskInfo>, at: Instant) returns (p: Progress)
    ensures p == StageDisks(session, serverId, disks, at)
  {
    var stagedDisks: seq<DiskUsage> := [];
    var stagedUsers: seq<UserDiskUsage> := [];
    var i := 0;
    while i < |disks|
      invariant 0 <= i <= |disks|
      invariant StageDisks(session, serverId, disks[..i], at) == Progress(stagedDisks, stagedUsers, None)
    {
      StageDisksStep(session, serverId, disks, i, at);
      var disk := disks[i];
      stagedDisks := stagedDisks + [DiskRecord(serverId, disk, at)];
      if disk.mountPoint != "/" {
        var users := CollectUserUsage(session, disk.mountPoint);
        if users.Failure? {
          StageErrorPersists(session, serverId, disks, i + 1, at);
          return Progress(stagedDisks, stagedUsers, Some(users.error));
        }
        stagedUsers := StageUsers(stagedUsers, serverId, disk.mountPoint, users.value, at);
      }
      i := i + 1;
    }
    assert disks[..|disks|] == disks;
    return Progress(stagedDisks, stagedUsers, None);
  }

  /** Stages the rows of one mount's directories after `staged`, in order. */
  method StageUsers(staged: seq<UserDiskUsage>, serverId: int, mountPoint: string, entries: seq<DirEntry>, at: Instant)
    returns (rows: seq<UserDiskUsage>)
    ensures rows == staged + UserRecords(serverId, mountPoint, entries, at)
  {
    rows := staged;
    var j := 0;
    while j < |entries|
      invariant 0 <= j <= |entries|
      invariant rows == staged + UserRecords(serverId, mountPoint, entries[..j], at)
    {
      assert UserRecords(serverId, mountPoint, entries[..j + 1], at)
        == UserRecords(serverId, mountPoint, entries[..j], at) + [UserRecord(serverId, mountPoint, entries[j], at)];
      rows := rows + [UserRecord(serverId, mountPoint, entries[j], at)];
      j := j + 1;
    }
    assert entries[..|entries|] == entries;
  }

  /** One more disk, after a prefix that raised nothing. */
  lemma StageDisksStep(session: Session, serverId: int, disks: seq<DiskInfo>, i: nat, at: Instant)
    requires i < |disks|
    requires StageDisks(session, serverId, disks[..i], at).error.None?
    ensures StageDisks(session, serverId, disks[..i + 1], at)
      == StageDisk(session, serverId, disks[i], at, StageDisks(session, serverId, disks[..i], at))
  {
    assert disks[..i + 1][..i] == disks[..i];
  }

  /** Once a disk's directory scan raises, the pass stops there. */
  lemma {:induction false} StageErrorPersists(session: Session, serverId: int, disks: seq<DiskInfo>, k: nat, at: Instant)
    requires k <= |disks|
    requires StageDisks(session, serverId, disks[..k], at).error.Some?
    ensures StageDisks(session, serverId, disks, at) == StageDisks(session, serverId, disks[..k], at)
    decreases |disks| - k
  {
    if k < |disks| {
      assert disks[..k + 1][..k] == disks[..k];
      StageErrorPersists(session, serverId, disks, k + 1, at);
    } else {
      assert disks[..k] == disks;
    }
  }

  /** The passes over all hosts and the rows they committed, host by host. */
  datatype Sweep = Sweep(results: seq<CollectResult>, committed: Batch)

  function CollectAll(servers: seq<Server>, connect: Server -> Connection, clock: nat -> Instant): Sweep
    decreases |servers|
  {
    if servers == [] then Sweep([], Batch([], []))
    else
      var n := |servers| - 1;
      var sweep := CollectAll(servers[..n], connect, clock);
      var report := Collect(servers[n], connect(servers[n]), clock(n));
      Sweep(sweep.results + [report.result],
            Batch(sweep.committed.disks + report.committed.disks, sweep.committed.users + report.committed.users))
  }

  /** `collect_all_servers`: one pass per host, in order; `clock(i)` is when the i-th pass starts collecting. */
  method CollectAllServers(store: Store, servers: seq<Server>, connect: Server -> Connection, clock: nat -> Instant)
    returns (results: seq<CollectResult>)
    modifies store
    ensures results == CollectAll(servers, connect, clock).results
    ensures store.diskUsages == old(store.diskUsages) + CollectAll(servers, connect, clock).committed.disks
    ensures store.userUsages == old(store.userUsages) + CollectAll(servers, connect, clock).committed.users
  {
    results := [];
    ghost var disks0 := store.diskUsages;
    ghost var users0 := store.userUsages;
    var i := 0;
    while i < |servers|
      invariant 0 <= i <= |servers|
      invariant results == CollectAll(servers[..i], connect, clock).results
      invariant store.diskUsages == disks0 + CollectAll(servers[..i], connect, clock).committed.disks
      invariant store.userUsages == users0 + CollectAll(servers[..i], connect, clock).committed.users
    {
      CollectAllStep(servers, connect, clock, i);
      ghost var sweep := CollectAll(servers[..i], connect, clock);
      ghost var report := Collect(servers[i], connect(servers[i]), clock(i));
      var result := CollectServerData(store, servers[i], connect(servers[i]), clock(i));
      ConcatAssoc(disks0, sweep.committed.disks, report.committed.disks);
      ConcatAssoc(users0, sweep.committed.users, report.committed.users);
      results := results + [result];
      i := i + 1;
    }
    assert servers[..|servers|] == servers;
  }

  lemma ConcatAssoc<T>(a: seq<T>, b: seq<T>, c: seq<T>)
    ensures a + b + c == a + (b + c)
  {
  }

  /** One more host. */
  lemma CollectAllStep(servers: seq<Server>, connect: Server -> Connection, clock: nat -> Instant, i: nat)
    requires i < |servers|
    ensures var sweep := CollectAll(servers[..i], connect, clock);
      var report := Collect(servers[i], connect(servers[i]), clock(i));
      CollectAll(servers[..i + 1], connect, clock)
        == Sweep(sweep.results + [report.result],
                 Batch(sweep.committed.disks + report.committed.disks, sweep.committed.users + report.committed.users))
  {
    assert servers[..i + 1][..i] == servers[..i];
  }

  // ---- Properties ----

  /** Every host gets exactly one result, in order, whatever the other hosts did and whether or not it is enabled. */
  lemma {:induction false} CollectAllPerServer(servers: seq<Server>, connect: Server -> Connection, clock: nat -> Instant)
    ensures |CollectAll(servers, connect, clock).results| == |servers|
    ensures forall i :: 0 <= i < |servers| ==>
      CollectAll(servers, connect, clock).results[i] == Collect(servers[i], connect(servers[i]), clock(i)).result
  {
    CollectAllLength(servers, connect, clock);
    forall i | 0 <= i < |servers|
      ensures CollectAll(servers, connect, clock).results[i] == Collect(servers[i], connect(servers[i]), clock(i)).result
    {
      CollectAllAt(servers, connect, clock, i);
    }
  }

  lemma {:induction false} CollectAllLength(servers: seq<Server>, connect: Server -> Connection, clock: nat -> Instant)
    ensures |CollectAll(servers, connect, clock).results| == |servers|
    decreases |servers|
  {
    if servers != [] {
      CollectAllLength(servers[..|servers| - 1], connect, clock);
    }
  }

  lemma CollectAllResultsStep(servers: seq<Server>, connect: Server -> Connection, clock: nat -> Instant)
    requires servers != []
    ensures var n := |servers| - 1;
      CollectAll(servers, connect, clock).results
      == CollectAll(servers[..n], connect, clock).results + [Collect(servers[n], connect(servers[n]), clock(n)).result]
  {
  }

  /** The `i`-th result is the `i`-th host's own pass. */
  lemma {:induction false} CollectAllAt(servers: seq<Server>, connect: Server -> Connection, clock: nat -> Instant, i: nat)
    requires i < |servers|
    ensures |CollectAll(servers, connect, clock).results| == |servers|
    ensures CollectAll(servers, connect, clock).results[i] == Collect(servers[i], connect(servers[i]), clock(i)).result
    decreases |servers|
  {
    var n := |servers| - 1;
    var init := servers[..n];
    CollectAllLength(init, connect, clock);
    CollectAllResultsStep(servers, connect, clock);
    if i < n {
      CollectAllAt(init, connect, clock, i);
      assert init[i] == servers[i];
    }
  }

  /** One disk's step adds its row, and (unless it is the root mount) directory rows of that mount only. */
  lemma StageDiskStep(session: Session, serverId: int, d: DiskInfo, at: Instant, p: Progress)
    ensures var q := StageDisk(session, serverId, d, at, p);
      q.disks == p.disks + [DiskRecord(serverId, d, at)]
      && forall u :: u in q.users ==>
           u in p.users || (u.mountPoint == d.mountPoint && d.mountPoint != "/" && u.serverId == serverId && u.collectedAt == at)
  {
    if d.mountPoint != "/" {
      match UserUsage(session, d.mountPoint)
      case Failure(_) =>
      case Success(entries) =>
        var rows := UserRecords(serverId, d.mountPoint, entries, at);
        forall u | u in p.users + rows
          ensures u in p.users || (u.mountPoint == d.mountPoint && u.serverId == serverId && u.collectedAt == at)
        {
          if u !in p.users {
            var i :| 0 <= i < |rows| && rows[i] == u;
          }
        }
    }
  }

  /** The staged rows of `p` are those of the disks `disks`, as the staging loop promises. */
  predicate StagedOk(p: Progress, disks: seq<DiskInfo>, serverId: int, at: Instant) {
    |p.disks| <= |disks|
    && (p.error.None? ==> |p.disks| == |disks|)
    && (forall i :: 0 <= i < |p.disks| ==> p.disks[i] == DiskRecord(serverId, disks[i], at))
    && (forall u :: u in p.users ==> u.mountPoint != "/" && u.serverId == serverId && u.collectedAt == at)
  }

  /** The promise carries over from the disks before the last one to all of them. */
  lemma StagedExtend(prev: Progress, p: Progress, disks: seq<DiskInfo>, serverId: int, at: Instant)
    requires |disks| > 0
    requires StagedOk(prev, disks[..|disks| - 1], serverId, at)
    requires prev.error.Some? ==> p == prev
    requires prev.error.None? ==> p.disks == prev.disks + [DiskRecord(serverId, disks[|disks| - 1], at)]
    requires prev.error.None? ==> forall u :: u in p.users ==>
      u in prev.users || (u.mountPoint != "/" && u.serverId == serverId && u.collectedAt == at)
    ensures StagedOk(p, disks, serverId, at)
  {
    var n := |disks| - 1;
    forall i | 0 <= i < |p.disks|
      ensures p.disks[i] == DiskRecord(serverId, disks[i], at)
    {
      if i < n {
        assert p.disks[i] == prev.disks[i] && disks[..n][i] == disks[i];
      }
    }
  }

  /** The staged disk rows are the scanned disks' rows, in order; no directory row belongs to the root mount. */
  lemma {:induction false} StageDisksSpec(session: Session, serverId: int, disks: seq<DiskInfo>, at: Instant)
    ensures var p := StageDisks(session, serverId, disks, at);
      |p.disks| <= |disks|
      && (p.error.None? ==> |p.disks| == |disks|)
      && (forall i :: 0 <= i < |p.disks| ==> p.disks[i] == DiskRecord(serverId, disks[i], at))
      && (forall u :: u in p.users ==> u.mountPoint != "/" && u.serverId == serverId && u.collectedAt == at)
    decreases |disks|
  {
    if disks != [] {
      var n := |disks| - 1;
      StageDisksSpec(session, serverId, disks[..n], at);
      var prev := StageDisks(session, serverId, disks[..n], at);
      StageDiskStep(session, serverId, disks[n], at, prev);
      StagedExtend(prev, StageDisks(session, serverId, disks, at), disks, serverId, at);
    }
  }

  /** The directory rows one disk contributes, given its scan: none for the root mount or a failed scan. */
  function DiskDirRows(serverId: int, d: DiskInfo, scanned: Result<seq<DirEntry>>, at: Instant): seq<UserDiskUsage> {
    if d.mountPoint == "/" || scanned.Failure? then []
    else UserRecords(serverId, d.mountPoint, scanned.value, at)
  }

  /** The directory rows of every disk, disk by disk, in order. */
  function AllDirRows(session: Session, serverId: int, disks: seq<DiskInfo>, at: Instant): seq<UserDiskUsage>
    decreases |disks|
  {
    if disks == [] then []
    else
      var d := disks[|disks| - 1];
      AllDirRows(session, serverId, disks[..|disks| - 1], at) + DiskDirRows(serverId, d, UserUsage(session, d.mountPoint), at)
  }

  /**
   * A staging that raised nothing scanned every disk except `/` without error,
   * and its directory rows are exactly those disks' `du` entries, disk by disk.
   */
  lemma {:induction false} StageGathers(session: Session, serverId: int, disks: seq<DiskInfo>, at: Instant)
    ensures var p := StageDisks(session, serverId, disks, at);
      p.error.None? ==>
        p.users == AllDirRows(session, serverId, disks, at)
        && forall i :: 0 <= i < |disks| && disks[i].mountPoint != "/" ==> UserUsage(session, disks[i].mountPoint).Success?
    decreases |disks|
  {
    if disks != [] {
      var n := |disks| - 1;
      var init := disks[..n];
      StageGathers(session, serverId, init, at);
      var prev := StageDisks(session, serverId, init, at);
      var p := StageDisks(session, serverId, disks, at);
      if p.error.None? {
        assert prev.error.None?;
        assert p == StageDisk(session, serverId, disks[n], at, prev);
        forall i | 0 <= i < |disks| && disks[i].mountPoint != "/"
          ensures UserUsage(session, disks[i].mountPoint).Success?
        {
          if i < n {
            assert init[i] == disks[i];
          }
        }
      }
    }
  }

  /** A row of every `du` entry of every disk but `/` is in the host's directory rows. */
  lemma {:induction false} AllDirRowsListed(session: Session, serverId: int, disks: seq<DiskInfo>, at: Instant,
                                            i: nat, entries: seq<DirEntry>, k: nat)
    requires i < |disks| && disks[i].mountPoint != "/"
    requires UserUsage(session, disks[i].mountPoint) == Success(entries) && k < |entries|
    ensures UserRecord(serverId, disks[i].mountPoint, entries[k], at) in AllDirRows(session, serverId, disks, at)
    decreases |disks|
  {
    var n := |disks| - 1;
    var init := disks[..n];
    var row := UserRecord(serverId, disks[i].mountPoint, entries[k], at);
    var before := AllDirRows(session, serverId, init, at);
    var d := disks[n];
    var last := DiskDirRows(serverId, d, UserUsage(session, d.mountPoint), at);
    assert AllDirRows(session, serverId, disks, at) == before + last;
    if i < n {
      assert init[i] == disks[i];
      AllDirRowsListed(session, serverId, init, at, i, entries, k);
      InAppend(before, last, row);
    } else {
      assert i == n;
      LastDiskRowListed(serverId, disks[i], UserUsage(session, disks[i].mountPoint), entries, k, at);
      InAppend(before, last, row);
    }
  }

  lemma LastDiskRowListed(serverId: int, d: DiskInfo, scanned: Result<seq<DirEntry>>, entries: seq<DirEntry>, k: nat, at: Instant)
    requires d.mountPoint != "/" && scanned == Success(entries) && k < |entries|
    ensures UserRecord(serverId, d.mountPoint, entries[k], at) in DiskDirRows(serverId, d, scanned, at)
  {
    assert DiskDirRows(serverId, d, scanned, at)[k] == UserRecord(serverId, d.mountPoint, entries[k], at);
  }

  lemma InAppend<T>(a: seq<T>, b: seq<T>, x: T)
    requires x in a || x in b
    ensures x in a + b
  {
    if x in a {
      var i :| 0 <= i < |a| && a[i] == x;
      assert (a + b)[i] == x;
    } else {
      var i :| 0 <= i < |b| && b[i] == x;
      assert (a + b)[|a| + i] == x;
    }
  }

  /**
   * A pass succeeds exactly when it raised nothing; a failed pass commits
   * nothing; a successful one scanned every disk but `/` without error,
   * commits one row per scanned disk and exactly the directory rows of those
   * scans, disk by disk, and its counters count them.
   */
  lemma PassOutcome(server: Server, conn: Connection, at: Instant)
    ensures var r := Collect(server, conn, at);
      r.result.serverId == server.id && r.result.serverName == server.name
      && (r.result.success <==> r.result.error.None?)
      && (!r.result.success ==> r.committed == Batch([], []))
      && (r.result.success ==>
            |r.committed.disks| == r.result.disksCollected && |r.committed.users| == r.result.usersCollected
            && conn.Connected?
            && ParseDiskTable(conn.session.run(DF_COMMAND), ParseScanMounts(server.scanMounts)).Success?
            && r.result.disksCollected == |ParseDiskTable(conn.session.run(DF_COMMAND), ParseScanMounts(server.scanMounts)).value.disks|)
      && (forall d :: d in r.committed.disks ==> d.serverId == server.id && d.collectedAt == at)
      && (forall u :: u in r.committed.users ==> u.mountPoint != "/" && u.serverId == server.id && u.collectedAt == at)
      && (r.result.success ==>
            var disks := ParseDiskTable(conn.session.run(DF_COMMAND), ParseScanMounts(server.scanMounts)).value.disks;
            r.committed.users == AllDirRows(conn.session, server.id, disks, at)
            && forall i :: 0 <= i < |disks| && disks[i].mountPoint != "/" ==> UserUsage(conn.session, disks[i].mountPoint).Success?)
  {
    if conn.Connected? {
      var scanMounts := ParseScanMounts(server.scanMounts);
      var table := ParseDiskTable(conn.session.run(DF_COMMAND), scanMounts);
      if table.Success? {
        StageDisksSpec(conn.session, server.id, table.value.disks, at);
        StageGathers(conn.session, server.id, table.value.disks, at);
      }
    }
  }

  /** The warning is set exactly when an allow-list is configured and the host's table yielded no disk. */
  lemma WarningIff(server: Server, conn: Connection, at: Instant)
    ensures var r := Collect(server, conn, at);
      var scanMounts := ParseScanMounts(server.scanMounts);
      r.result.warning.Some? <==>
        conn.Connected? && |scanMounts| > 0
        && ParseDiskTable(conn.session.run(DF_COMMAND), scanMounts).Success?
        && ParseDiskTable(conn.session.run(DF_COMMAND), scanMounts).value.disks == []
  {
  }

  /** Stripping and dropping blanks keeps entries that are already non-blank and spaceless. */
  lemma {:induction false} NonBlankStrippedKeeps(parts: seq<string>)
    requires forall i :: 0 <= i < |parts| ==> parts[i] != [] && NoSpace(parts[i])
    ensures NonBlankStripped(parts) == parts
    decreases |parts|
  {
    if parts != [] {
      NonBlankStrippedKeeps(parts[..|parts| - 1]);
    }
  }

  /** Reading back a comma-joined allow-list gives the list. */
  lemma ScanMountsRoundTrip(mounts: seq<string>)
    requires |mounts| >= 1
    requires forall i :: 0 <= i < |mounts| ==> mounts[i] != [] && NoSpace(mounts[i]) && ',' !in mounts[i]
    ensures ParseScanMounts(Some(Join(mounts, ","))) == mounts
  {
    SplitJoin(mounts, ',');
    NonBlankStrippedKeeps(mounts);
    assert Join(mounts, ",") != [] by {
      if |mounts| > 1 {
        assert Join(mounts, ",") == mounts[0] + "," + Join(mounts[1..], ",");
      }
    }
  }
}
