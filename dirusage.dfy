/**
 * `collect_user_usage`: the first-level directories of one mount point
 * that occupy at least 1 GB, read from `du -s` and labelled with the owner
 * `stat` reports for them.
 */
module DirUsage {
  import opened Wrappers
  import opened PyStr
  import opened PyNum
  import opened Remote

  /** One directory's usage (the size is exact; the source rounds it to two decimals). */
  datatype DirEntry = DirEntry(directory: string, owner: Option<string>, usedGb: real)

  /** One `stat -c '%U %n'` line, split at its first space. */
  datatype StatLine = StatLine(owner: string, path: string)

  /** A line with a space names an owner and a path; any other line is ignored. */
  function StatEntry(line: string): Option<StatLine> {
    var k := Find(line, ' ');
    if k == |line| then None else Some(StatLine(line[..k], line[k + 1..]))
  }

  /** A line names an owner exactly when it has a space; the owner is the text before the first space. */
  lemma StatEntrySplit(line: string)
    ensures StatEntry(line).Some? <==> ' ' in line
    ensures StatEntry(line).Some? ==>
      var e := StatEntry(line).value; ' ' !in e.owner && line == e.owner + " " + e.path
  {
    var k := Find(line, ' ');
    if k < |line| {
      assert line == line[..k] + " " + line[k + 1..];
      assert forall i :: 0 <= i < k ==> line[..k][i] == line[i];
    }
  }

  predicate Names(line: string, path: string) {
    StatEntry(line).Some? && StatEntry(line).value.path == path
  }

  /** The owner of each path, later lines replacing earlier ones. */
  function OwnerTable(lines: seq<string>): map<string, string>
    decreases |lines|
  {
    if lines == [] then map[]
    else
      var owners := OwnerTable(lines[..|lines| - 1]);
      match StatEntry(lines[|lines| - 1])
      case None => owners
      case Some(e) => owners[e.path := e.owner]
  }

  /** `owners.get(directory, None)`. */
  function OwnerOf(owners: map<string, string>, directory: string): Option<string> {
    if directory in owners then Some(owners[directory]) else None
  }

  /** Kibibytes to gibibytes: `size_kb / (1024 * 1024)`. */
  function KbToGb(kb: int): real {
    kb as real / 1048576.0
  }

  /**
   * One `du -s` line: `size<TAB>directory`. A line without a tab, with a
   * size that is not an integer, or under 1 GB gives no entry.
   */
  function DuEntry(line: string, owners: map<string, string>): Option<DirEntry> {
    var parts := Split(line, '\t');
    if |parts| < 2 then None
    else
      match ParseInt(parts[0])
      case None => None
      case Some(kb) =>
        if KbToGb(kb) < 1.0 then None
        else Some(DirEntry(parts[1], OwnerOf(owners, parts[1]), KbToGb(kb)))
  }

  /** The entries of the `du` lines, in the order `du | sort -rn` printed them. */
  function DirEntries(lines: seq<string>, owners: map<string, string>): seq<DirEntry>
    decreases |lines|
  {
    if lines == [] then []
    else
      DirEntries(lines[..|lines| - 1], owners)
      + (match DuEntry(lines[|lines| - 1], owners) case None => [] case Some(e) => [e])
  }

  /**
   * `collect_user_usage` given the host's answers: nothing when `du` printed
   * only whitespace (its exit code is ignored), otherwise one entry per
   * qualifying `du` line. An exception from either command propagates.
   */
  function UserUsage(session: Session, mountPoint: string): Result<seq<DirEntry>> {
    match session.run(DuCommand(mountPoint))
    case Raised(reason) => Failure(reason)
    case Completed(duOut, _, _) =>
      if Strip(duOut) == [] then Success([])
      else
        match session.run(StatCommand(mountPoint))
        case Raised(reason) => Failure(reason)
        case Completed(statOut, _, _) =>
          Success(DirEntries(Split(Strip(duOut), '\n'), OwnerTable(Split(Strip(statOut), '\n'))))
  }

  /** Runs `du`, then (only when it printed something) `stat`, and pairs their lines up. */
  method CollectUserUsage(session: Session, mountPoint: string) returns (r: Result<seq<DirEntry>>)
    ensures r == UserUsage(session, mountPoint)
  {
    var du := session.run(DuCommand(mountPoint));
    if du.Raised? {
      return Failure(du.reason);
    }
    var duText := Strip(du.stdout);
    if duText == [] {
      return Success([]);
    }
    var stat := session.run(StatCommand(mountPoint));
    if stat.Raised? {
      return Failure(stat.reason);
    }
    var owners := ReadOwners(Split(Strip(stat.stdout), '\n'));
    var users := ReadEntries(Split(duText, '\n'), owners);
    return Success(users);
  }

  /** The owner table built line by line from the `stat` output. */
  method ReadOwners(lines: seq<string>) returns (owners: map<string, string>)
    ensures owners == OwnerTable(lines)
  {
    owners := map[];
    var i := 0;
    while i < |lines|
      invariant 0 <= i <= |lines|
      invariant owners == OwnerTable(lines[..i])
    {
      assert lines[..i + 1][..i] == lines[..i];
      var line := lines[i];
      var k := Find(line, ' ');
      if k < |line| {
        owners := owners[line[k + 1..] := line[..k]];
      }
      i := i + 1;
    }
    assert lines[..|lines|] == lines;
  }

  /** The entry list built line by line from the `du` output. */
  method ReadEntries(lines: seq<string>, owners: map<string, string>) returns (users: seq<DirEntry>)
    ensures users == DirEntries(lines, owners)
  {
    users := [];
    var i := 0;
    while i < |lines|
      invariant 0 <= i <= |lines|
      invariant users == DirEntries(lines[..i], owners)
    {
      assert lines[..i + 1][..i] == lines[..i];
      match DuEntry(lines[i], owners) {
        case None =>
        case Some(entry) =>
          users := users + [entry];
      }
      i := i + 1;
    }
    assert lines[..|lines|] == lines;
  }

  /** A path has an owner exactly when some `stat` line names it. */
  lemma {:induction false} OwnerTableKeys(lines: seq<string>, path: string)
    ensures path in OwnerTable(lines) <==> exists i :: 0 <= i < |lines| && Names(lines[i], path)
    decreases |lines|
  {
    if lines != [] {
      var last := |lines| - 1;
      var prefix := lines[..last];
      OwnerTableKeys(prefix, path);
      if Names(lines[last], path) {
        assert path in OwnerTable(lines);
      } else {
        assert path in OwnerTable(lines) <==> path in OwnerTable(prefix);
        if exists i :: 0 <= i < |lines| && Names(lines[i], path) {
          var i :| 0 <= i < |lines| && Names(lines[i], path);
          assert prefix[i] == lines[i];
        }
        if exists i :: 0 <= i < last && Names(prefix[i], path) {
          var i :| 0 <= i < last && Names(prefix[i], path);
          assert prefix[i] == lines[i];
        }
      }
    }
  }

  /** Line `i` is the last of `lines` that names `path`. */
  ghost predicate LastNaming(lines: seq<string>, i: int, path: string) {
    0 <= i < |lines| && Names(lines[i], path) && forall j :: i < j < |lines| ==> !Names(lines[j], path)
  }

  /** The owner of a path is the one on the last `stat` line that names it. */
  lemma {:induction false} OwnerTableLast(lines: seq<string>, path: string)
    requires path in OwnerTable(lines)
    ensures exists i :: LastNaming(lines, i, path) && StatEntry(lines[i]).value.owner == OwnerTable(lines)[path]
    decreases |lines|
  {
    var last := |lines| - 1;
    var prefix := lines[..last];
    if Names(lines[last], path) {
      assert LastNaming(lines, last, path);
    } else {
      assert OwnerTable(lines)[path] == OwnerTable(prefix)[path];
      OwnerTableLast(prefix, path);
      var i :| LastNaming(prefix, i, path) && StatEntry(prefix[i]).value.owner == OwnerTable(prefix)[path];
      assert prefix[i] == lines[i];
      forall j | i < j < |lines|
        ensures !Names(lines[j], path)
      {
        if j < last {
          assert prefix[j] == lines[j];
        }
      }
      assert LastNaming(lines, i, path);
    }
  }

  /** The entries of a single line: the entry it gives, if any. */
  lemma DirEntriesOne(line: string, owners: map<string, string>)
    ensures DirEntries([line], owners) == (match DuEntry(line, owners) case None => [] case Some(e) => [e])
  {
    assert [line][..0] == [];
  }

  /** The entry list is a line-by-line filter: it distributes over concatenation. */
  lemma {:induction false} DirEntriesAppend(a: seq<string>, b: seq<string>, owners: map<string, string>)
    ensures DirEntries(a + b, owners) == DirEntries(a, owners) + DirEntries(b, owners)
    decreases |b|
  {
    if b == [] {
      assert a + b == a;
    } else {
      var b' := b[..|b| - 1];
      DirEntriesAppend(a, b', owners);
      assert (a + b)[..|a + b| - 1] == a + b';
      assert (a + b)[|a + b| - 1] == b[|b| - 1];
    }
  }

  /** Every entry is at least 1 GB and carries the owner recorded for its directory; no line gives two. */
  lemma {:induction false} DirEntriesSpec(lines: seq<string>, owners: map<string, string>)
    ensures |DirEntries(lines, owners)| <= |lines|
    ensures forall e :: e in DirEntries(lines, owners) ==> e.usedGb >= 1.0 && e.owner == OwnerOf(owners, e.directory)
    decreases |lines|
  {
    if lines != [] {
      DirEntriesSpec(lines[..|lines| - 1], owners);
    }
  }

  /** A `du` line with no tab in its directory gives back that directory and its size in GB. */
  lemma DuEntryOfLine(kb: nat, directory: string, owners: map<string, string>)
    requires kb >= 1048576
    requires '\t' !in directory
    ensures DuEntry(ShowNat(kb) + "\t" + directory, owners) == Some(DirEntry(directory, OwnerOf(owners, directory), KbToGb(kb)))
  {
    var size := ShowNat(kb);
    var line := size + "\t" + directory;
    assert forall i :: 0 <= i < |size| ==> IsDigit(size[i]);
    FindAfter(size, "\t" + directory, '\t');
    assert line == size + ("\t" + directory);
    assert line[..|size|] == size && line[|size| + 1..] == directory;
    assert Find(directory, '\t') == |directory|;
    assert Split(line, '\t') == [size, directory];
    ParseIntShowNat(kb);
  }

  /** A `stat` line gives back the owner and path it was made from. */
  lemma StatEntryOfLine(owner: string, path: string)
    requires ' ' !in owner
    ensures StatEntry(owner + " " + path) == Some(StatLine(owner, path))
  {
    var line := owner + " " + path;
    FindAfter(owner, " " + path, ' ');
    assert line == owner + (" " + path);
    assert line[..|owner|] == owner && line[|owner| + 1..] == path;
  }
}
