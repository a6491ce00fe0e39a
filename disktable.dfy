/**
 * `collect_disk_usage`: the `df -hT` table of one host turned into disk
 * records, with the virtual-filesystem and boot/snap skip rules and the
 * allow-list / minimum-size selection policy.
 */
module DiskTable {
  import opened Wrappers
  import opened PyStr
  import opened PyNum
  import opened Sizes
  import opened Remote

  /** `settings.MIN_DISK_SIZE_GB`. */
  const MIN_DISK_SIZE_GB: real := 250.0

  /** One collected disk (sizes are exact; the source rounds them to two decimals). */
  datatype DiskInfo = DiskInfo(
    device: string,
    filesystem: string,
    mountPoint: string,
    totalGb: real,
    usedGb: real,
    freeGb: real,
    usePercent: real)

  /** The pair `(disks, all_mount_points)` the scan returns. */
  datatype TableScan = TableScan(disks: seq<DiskInfo>, mountPoints: seq<string>)

  predicate IsVirtualFilesystem(filesystem: string) {
    filesystem == "tmpfs" || filesystem == "devtmpfs" || filesystem == "efivarfs" || filesystem == "squashfs"
  }

  predicate IsBootMount(mountPoint: string) {
    mountPoint == "/boot" || mountPoint == "/boot/efi" || StartsWith(mountPoint, "/snap")
  }

  /** A data row of at least seven fields that the skip rules let through. */
  predicate IsListedRow(fields: seq<string>) {
    |fields| >= 7 && !IsVirtualFilesystem(fields[1]) && !IsBootMount(fields[6])
  }

  /** The selection policy: with an allow-list only listed mounts, whatever their size; otherwise only big disks. */
  predicate Selected(mountPoint: string, totalGb: real, scanMounts: seq<string>) {
    if |scanMounts| > 0 then mountPoint in scanMounts else totalGb >= MIN_DISK_SIZE_GB
  }

  /** `float(field.rstrip('%'))`, or 0.0 when that raises ValueError. */
  function UsePercent(field: string): real {
    ParseFloat(RStripChar(field, '%')).GetOr(0.0)
  }

  /** The lines after the header of `stdout.strip().split('\n')`. */
  function TableRows(stdout: string): seq<string> {
    Split(Strip(stdout), '\n')[1..]
  }

  /** What one table row adds to the scan of the rows before it; a ValueError from a size ends the scan. */
  function ScanRow(acc: TableScan, line: string, scanMounts: seq<string>): Result<TableScan> {
    var f := SplitFields(line);
    if !IsListedRow(f) then Success(acc)
    else
      match ParseSizeToGb(f[2])
      case Failure(e) => Failure(e)
      case Success(total) =>
        var mounts := acc.mountPoints + [f[6]];
        if !Selected(f[6], total, scanMounts) then Success(TableScan(acc.disks, mounts))
        else
          match ParseSizeToGb(f[3])
          case Failure(e) => Failure(e)
          case Success(used) =>
            match ParseSizeToGb(f[4])
            case Failure(e) => Failure(e)
            case Success(free) =>
              Success(TableScan(acc.disks + [DiskInfo(f[0], f[1], f[6], total, used, free, UsePercent(f[5]))], mounts))
  }

  /** The scan of a sequence of rows, row by row. */
  function ScanRows(rows: seq<string>, scanMounts: seq<string>): Result<TableScan>
    decreases |rows|
  {
    if rows == [] then Success(TableScan([], []))
    else
      match ScanRows(rows[..|rows| - 1], scanMounts)
      case Failure(e) => Failure(e)
      case Success(acc) => ScanRow(acc, rows[|rows| - 1], scanMounts)
  }

  /** `collect_disk_usage` given the answer to `df -hT`: a failed command raises RuntimeError. */
  function ParseDiskTable(out: Exec, scanMounts: seq<string>): Result<TableScan> {
    match out
    case Raised(reason) => Failure(reason)
    case Completed(stdout, stderr, code) =>
      if code != 0 then Failure("Failed to execute df: " + stderr)
      else ScanRows(TableRows(stdout), scanMounts)
  }

  /** Runs `df -hT` on the session and scans its table. */
  method CollectDiskUsage(session: Session, scanMounts: seq<string>) returns (r: Result<TableScan>)
    ensures r == ParseDiskTable(session.run(DF_COMMAND), scanMounts)
  {
    var out := session.run(DF_COMMAND);
    if out.Raised? {
      return Failure(out.reason);
    }
    if out.code != 0 {
      return Failure("Failed to execute df: " + out.stderr);
    }
    var rows := TableRows(out.stdout);
    var disks: seq<DiskInfo> := [];
    var mounts: seq<string> := [];
    var i := 0;
    while i < |rows|
      invariant 0 <= i <= |rows|
      invariant ScanRows(rows[..i], scanMounts) == Success(TableScan(disks, mounts))
    {
      ScanRowsStep(rows, i, scanMounts);
      var step := ScanLine(rows[i], scanMounts, disks, mounts);
      if step.Failure? {
        FailurePersists(rows, i + 1, scanMounts);
        return Failure(step.error);
      }
      disks, mounts := step.value.disks, step.value.mountPoints;
      i := i + 1;
    }
    assert rows[..|rows|] == rows;
    return Success(TableScan(disks, mounts));
  }

  /** The loop body of `collect_disk_usage` for one table row. */
  method ScanLine(line: string, scanMounts: seq<string>, disks: seq<DiskInfo>, mounts: seq<string>)
    returns (r: Result<TableScan>)
    ensures r == ScanRow(TableScan(disks, mounts), line, scanMounts)
  {
    var acc := TableScan(disks, mounts);
    var parts := SplitFields(line);
    if |parts| < 7 || IsVirtualFilesystem(parts[1]) || IsBootMount(parts[6]) {
      ScanRowSkipped(acc, line, scanMounts);
      return Success(acc);
    }
    var total := ParseSizeToGb(parts[2]);
    if total.Failure? {
      ScanRowTotalFails(acc, line, scanMounts, total.error);
      return Failure(total.error);
    }
    var seen := mounts + [parts[6]];
    if |scanMounts| > 0 {
      if parts[6] !in scanMounts {
        ScanRowNotSelected(acc, line, scanMounts, total.value);
        return Success(TableScan(disks, seen));
      }
    } else if total.value < MIN_DISK_SIZE_GB {
      ScanRowNotSelected(acc, line, scanMounts, total.value);
      return Success(TableScan(disks, seen));
    }
    var used := ParseSizeToGb(parts[3]);
    if used.Failure? {
      ScanRowUsedFails(acc, line, scanMounts, total.value, used.error);
      return Failure(used.error);
    }
    var free := ParseSizeToGb(parts[4]);
    if free.Failure? {
      ScanRowFreeFails(acc, line, scanMounts, total.value, used.value, free.error);
      return Failure(free.error);
    }
    var parsed := ParseFloat(RStripChar(parts[5], '%'));
    var usePercent := if parsed.Some? then parsed.value else 0.0;
    ScanRowKept(acc, line, scanMounts, total.value, used.value, free.value);
    return Success(TableScan(disks + [DiskInfo(parts[0], parts[1], parts[6], total.value, used.value, free.value, usePercent)], seen));
  }

  /** The scan through row `i` is the scan before it followed by that row's step. */
  lemma ScanRowsStep(rows: seq<string>, i: nat, scanMounts: seq<string>)
    requires i < |rows| && ScanRows(rows[..i], scanMounts).Success?
    ensures ScanRows(rows[..i + 1], scanMounts) == ScanRow(ScanRows(rows[..i], scanMounts).value, rows[i], scanMounts)
  {
    assert rows[..i + 1][..i] == rows[..i];
  }

  lemma ScanRowSkipped(acc: TableScan, line: string, scanMounts: seq<string>)
    requires !IsListedRow(SplitFields(line))
    ensures ScanRow(acc, line, scanMounts) == Success(acc)
  {
  }

  lemma ScanRowTotalFails(acc: TableScan, line: string, scanMounts: seq<string>, e: string)
    requires IsListedRow(SplitFields(line)) && ParseSizeToGb(SplitFields(line)[2]) == Failure(e)
    ensures ScanRow(acc, line, scanMounts) == Failure(e)
  {
  }

  lemma ScanRowNotSelected(acc: TableScan, line: string, scanMounts: seq<string>, total: real)
    requires IsListedRow(SplitFields(line)) && ParseSizeToGb(SplitFields(line)[2]) == Success(total)
    requires !Selected(SplitFields(line)[6], total, scanMounts)
    ensures ScanRow(acc, line, scanMounts) == Success(TableScan(acc.disks, acc.mountPoints + [SplitFields(line)[6]]))
  {
  }

  lemma ScanRowUsedFails(acc: TableScan, line: string, scanMounts: seq<string>, total: real, e: string)
    requires IsListedRow(SplitFields(line)) && ParseSizeToGb(SplitFields(line)[2]) == Success(total)
    requires Selected(SplitFields(line)[6], total, scanMounts)
    requires ParseSizeToGb(SplitFields(line)[3]) == Failure(e)
    ensures ScanRow(acc, line, scanMounts) == Failure(e)
  {
  }

  lemma ScanRowFreeFails(acc: TableScan, line: string, scanMounts: seq<string>, total: real, used: real, e: string)
    requires IsListedRow(SplitFields(line)) && ParseSizeToGb(SplitFields(line)[2]) == Success(total)
    requires Selected(SplitFields(line)[6], total, scanMounts)
    requires ParseSizeToGb(SplitFields(line)[3]) == Success(used)
    requires ParseSizeToGb(SplitFields(line)[4]) == Failure(e)
    ensures ScanRow(acc, line, scanMounts) == Failure(e)
  {
  }

  lemma ScanRowKept(acc: TableScan, line: string, scanMounts: seq<string>, total: real, used: real, free: real)
    requires IsListedRow(SplitFields(line)) && ParseSizeToGb(SplitFields(line)[2]) == Success(total)
    requires Selected(SplitFields(line)[6], total, scanMounts)
    requires ParseSizeToGb(SplitFields(line)[3]) == Success(used)
    requires ParseSizeToGb(SplitFields(line)[4]) == Success(free)
    ensures var f := SplitFields(line);
      ScanRow(acc, line, scanMounts)
      == Success(TableScan(acc.disks + [DiskInfo(f[0], f[1], f[6], total, used, free, UsePercent(f[5]))], acc.mountPoints + [f[6]]))
  {
  }

  lemma ScanRowsFailStep(rows: seq<string>, k: nat, scanMounts: seq<string>)
    requires k < |rows| && ScanRows(rows[..k], scanMounts).Failure?
    ensures ScanRows(rows[..k + 1], scanMounts) == ScanRows(rows[..k], scanMounts)
  {
    assert rows[..k + 1][..k] == rows[..k];
  }

  /** A ValueError in some row is the error of the whole table. */
  lemma {:induction false} FailurePersists(rows: seq<string>, k: nat, scanMounts: seq<string>)
    requires k <= |rows|
    requires ScanRows(rows[..k], scanMounts).Failure?
    ensures ScanRows(rows, scanMounts) == ScanRows(rows[..k], scanMounts)
    decreases |rows| - k
  {
    if k < |rows| {
      ScanRowsFailStep(rows, k, scanMounts);
      FailurePersists(rows, k + 1, scanMounts);
    } else {
      assert rows[..k] == rows;
    }
  }

  // ---- Reference definitions the scan is proved against ----

  /** Mount points of the rows the skip rules let through, in table order. */
  function ListedMounts(rows: seq<string>): seq<string>
    decreases |rows|
  {
    if rows == [] then []
    else
      var f := SplitFields(rows[|rows| - 1]);
      ListedMounts(rows[..|rows| - 1]) + (if IsListedRow(f) then [f[6]] else [])
  }

  /** Mount points of the listed rows the selection policy keeps, in table order. */
  function SelectedMounts(rows: seq<string>, scanMounts: seq<string>): seq<string>
    decreases |rows|
  {
    if rows == [] then []
    else
      var f := SplitFields(rows[|rows| - 1]);
      SelectedMounts(rows[..|rows| - 1], scanMounts)
      + (if IsListedRow(f) && Selected(f[6], ParseSizeToGb(f[2]).GetOr(0.0), scanMounts) then [f[6]] else [])
  }

  function MountsOf(disks: seq<DiskInfo>): (mounts: seq<string>)
    ensures |mounts| == |disks|
    ensures forall i :: 0 <= i < |disks| ==> mounts[i] == disks[i].mountPoint
  {
    seq(|disks|, i requires 0 <= i < |disks| => disks[i].mountPoint)
  }

  /** The elements of `s` that are in `keep`, in order. */
  function KeepListed(s: seq<string>, keep: seq<string>): seq<string>
    decreases |s|
  {
    if s == [] then [] else KeepListed(s[..|s| - 1], keep) + (if s[|s| - 1] in keep then [s[|s| - 1]] else [])
  }

  /** A disk the scan returns obeys the skip rules and the selection policy. */
  ghost predicate Admissible(d: DiskInfo, scanMounts: seq<string>) {
    !IsVirtualFilesystem(d.filesystem) && !IsBootMount(d.mountPoint) && Selected(d.mountPoint, d.totalGb, scanMounts)
  }

  /**
   * A successful scan lists exactly the mount points of the rows that survive
   * the skip rules (in table order, before selection), and returns one disk
   * per selected row (in table order), each obeying the skip rules and the
   * selection policy.
   */
  lemma ScanRowsSpec(rows: seq<string>, scanMounts: seq<string>)
    requires ScanRows(rows, scanMounts).Success?
    ensures ScanRows(rows, scanMounts).value.mountPoints == ListedMounts(rows)
    ensures MountsOf(ScanRows(rows, scanMounts).value.disks) == SelectedMounts(rows, scanMounts)
    ensures forall d :: d in ScanRows(rows, scanMounts).value.disks ==> Admissible(d, scanMounts)
  {
    ScanRowsListed(rows, scanMounts);
    ScanRowsSelected(rows, scanMounts);
    ScanRowsAdmissible(rows, scanMounts);
  }

  lemma {:induction false} ScanRowsListed(rows: seq<string>, scanMounts: seq<string>)
    requires ScanRows(rows, scanMounts).Success?
    ensures ScanRows(rows, scanMounts).value.mountPoints == ListedMounts(rows)
    decreases |rows|
  {
    if rows != [] {
      ScanRowsListed(rows[..|rows| - 1], scanMounts);
    }
  }

  lemma {:induction false} ScanRowsSelected(rows: seq<string>, scanMounts: seq<string>)
    requires ScanRows(rows, scanMounts).Success?
    ensures MountsOf(ScanRows(rows, scanMounts).value.disks) == SelectedMounts(rows, scanMounts)
    decreases |rows|
  {
    if rows != [] {
      var prefix := rows[..|rows| - 1];
      ScanRowsSelected(prefix, scanMounts);
      var acc := ScanRows(prefix, scanMounts).value;
      var f := SplitFields(rows[|rows| - 1]);
      var t := ScanRows(rows, scanMounts).value;
      if IsListedRow(f) && Selected(f[6], ParseSizeToGb(f[2]).GetOr(0.0), scanMounts) {
        var d := t.disks[|t.disks| - 1];
        assert t.disks == acc.disks + [d];
        assert MountsOf(t.disks) == MountsOf(acc.disks) + [f[6]];
      } else {
        assert t.disks == acc.disks;
      }
    }
  }

  lemma {:induction false} ScanRowsAdmissible(rows: seq<string>, scanMounts: seq<string>)
    requires ScanRows(rows, scanMounts).Success?
    ensures forall d :: d in ScanRows(rows, scanMounts).value.disks ==> Admissible(d, scanMounts)
    decreases |rows|
  {
    if rows != [] {
      ScanRowsAdmissible(rows[..|rows| - 1], scanMounts);
    }
  }

  /** With an allow-list, the selected mounts are the listed mounts that are on the allow-list, whatever their size. */
  lemma {:induction false} AllowListSelection(rows: seq<string>, scanMounts: seq<string>)
    requires |scanMounts| > 0
    ensures SelectedMounts(rows, scanMounts) == KeepListed(ListedMounts(rows), scanMounts)
    decreases |rows|
  {
    if rows != [] {
      var prefix := rows[..|rows| - 1];
      AllowListSelection(prefix, scanMounts);
      var f := SplitFields(rows[|rows| - 1]);
      var listed := ListedMounts(rows);
      if IsListedRow(f) {
        assert listed == ListedMounts(prefix) + [f[6]];
        assert listed[..|listed| - 1] == ListedMounts(prefix);
      } else {
        assert listed == ListedMounts(prefix);
      }
    }
  }

  /** A use field that is not a number reads as 0.0 instead of raising. */
  lemma UsePercentFallback()
    ensures UsePercent("-") == 0.0
  {
    assert RStripChar("-", '%') == "-";
    assert NoSpace("-");
    assert "-"[1..] == [];
  }

  /** A percentage reads as its number. */
  lemma UsePercentNumber()
    ensures UsePercent("85%") == 85.0
  {
    assert "85%"[..2] == "85";
    assert RStripChar("85", '%') == "85";
    assert RStripChar("85%", '%') == "85";
    assert ShowNat(8) == "8" && ShowNat(85) == "85";
    WholeIsDecimal(85);
    ParseFloatDecimal("85");
  }

  /** A failed `df` raises RuntimeError with its stderr. */
  lemma FailedCommand(stdout: string, stderr: string, code: int, scanMounts: seq<string>)
    requires code != 0
    ensures ParseDiskTable(Completed(stdout, stderr, code), scanMounts) == Failure("Failed to execute df: " + stderr)
  {
  }
}
