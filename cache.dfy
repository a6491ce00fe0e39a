/**
 * The analysis cache behind `/disks/filetypes` and `/disks/largefiles`: one
 * entry per (server, mount point, kind) holding the last scan, when it was
 * taken, whether a background refresh is under way and the last error. A
 * request serves what the entry holds and, when it is stale, schedules one
 * background refresh; a forced request scans on the spot.
 *
 * The database table is a map from key to entry and the background-task
 * queue a list of keys, run one at a time by `RunTask`. The scanners are an
 * oracle `scan` standing for the SSH session and the file-type / large-file
 * commands.
 */
module AnalysisCache {
  import opened Wrappers
  import opened PyStr
  import opened Records
  import opened Dashboard

  /** `ANALYSIS_CACHE_TTL_DAYS` = 7 days, in microseconds. */
  const TTL: int := 7 * 24 * 3600 * 1000000

  datatype Kind = FileTypes | LargeFiles

  datatype CacheKey = CacheKey(serverId: int, mountPoint: string, kind: Kind)

  /** One row of the stored scan: a file-type statistic or a large file. */
  datatype AnalysisItem =
    | FileTypeStat(extension: string, sizeGb: real, fileCount: int, percent: real)
    | LargeFile(filepath: string, filename: string, extension: string, sizeGb: real, owner: string, modified: string)

  /** An `analysis_cache` row: the stored scan, its time, the refresh flag and the last error. */
  datatype CacheEntry = CacheEntry(
    data: Option<seq<AnalysisItem>>,
    collectedAt: Option<Instant>,
    refreshing: bool,
    error: Option<string>)

  /** A newly inserted row: nothing collected and not refreshing. */
  const FRESH: CacheEntry := CacheEntry(None, None, false, None)

  /** What a scan of a mount gave: its items, or the text of the exception it raised. */
  datatype ScanOutcome = Scanned(items: seq<AnalysisItem>) | ScanRaised(reason: string)

  /** The cache table and the queue of scheduled refreshes. */
  datatype State = State(entries: map<CacheKey, CacheEntry>, pending: seq<CacheKey>)

  /** The body of a 200 answer, or an `HTTPException`. */
  datatype Response =
    | Analysis(items: seq<AnalysisItem>, collectedAt: Option<Instant>, isStale: bool, refreshing: bool, error: Option<string>)
    | HttpError(status: int, detail: string)

  datatype Served = Served(state: State, response: Response)

  /** An entry is stale when it was never collected or was collected more than TTL ago. */
  predicate IsStale(e: CacheEntry, now: Instant) {
    e.collectedAt.None? || now - e.collectedAt.value > TTL
  }

  /**
   * `_get_or_create_cache`: the existing row for the key, else a new one. When
   * the insert loses a race (`rival` holds the row another request inserted
   * first), the winner's row is the one kept.
   */
  function GetOrCreate(entries: map<CacheKey, CacheEntry>, key: CacheKey, rival: Option<CacheEntry>): (r: map<CacheKey, CacheEntry>)
    ensures key in r
    ensures key in entries ==> r[key] == entries[key]
    ensures key !in entries && rival.None? ==> r[key] == FRESH
    ensures key !in entries && rival.Some? ==> r[key] == rival.value
    ensures forall k :: k != key ==> (k in r <==> k in entries)
    ensures forall k :: k != key && k in entries ==> r[k] == entries[k]
  {
    if key in entries then entries
    else entries[key := rival.GetOr(FRESH)]
  }

  /** The entry after `_refresh_analysis_cache` ran for `key`. */
  function Refreshed(e: CacheEntry, key: CacheKey, servers: seq<Server>, scan: (Server, string, Kind) -> ScanOutcome, now: Instant): (r: CacheEntry)
    ensures !r.refreshing
    ensures r.error.None? ==> r.data.Some? && r.collectedAt == Some(now)
    ensures r.error.Some? ==> r.data == e.data && r.collectedAt == e.collectedAt
  {
    match FindServer(servers, key.serverId)
    case None => e.(refreshing := false, error := Some("Server not found"))
    case Some(server) =>
      if !server.enabled then e.(refreshing := false, error := Some("Server is disabled"))
      else
        match scan(server, key.mountPoint, key.kind)
        case ScanRaised(reason) => e.(refreshing := false, error := Some(reason))
        case Scanned(items) => CacheEntry(Some(items), Some(now), false, None)
  }

  /** `_refresh_analysis_cache`: fetches (or creates) the entry and records the refresh outcome in it. */
  function Refresh(entries: map<CacheKey, CacheEntry>, key: CacheKey, servers: seq<Server>,
                   scan: (Server, string, Kind) -> ScanOutcome, now: Instant, rival: Option<CacheEntry>): map<CacheKey, CacheEntry>
  {
    var fetched := GetOrCreate(entries, key, rival);
    fetched[key := Refreshed(fetched[key], key, servers, scan, now)]
  }

  /** Runs the oldest scheduled refresh, if there is one. */
  function RunTask(st: State, servers: seq<Server>, scan: (Server, string, Kind) -> ScanOutcome,
                   now: Instant, rival: Option<CacheEntry>): State
  {
    if st.pending == [] then st
    else State(Refresh(st.entries, st.pending[0], servers, scan, now, rival), st.pending[1..])
  }

  /**
   * `get_file_types` / `get_large_files` for a request on `rawMount`. A forced
   * request scans on the spot (without looking at `enabled`); any other serves
   * the stored items and, when the entry is stale and no refresh is under way,
   * marks it refreshing and schedules one.
   */
  function Serve(st: State, serverId: int, rawMount: string, kind: Kind, force: bool, servers: seq<Server>,
                 scan: (Server, string, Kind) -> ScanOutcome, now: Instant, rival: Option<CacheEntry>): (r: Served)
    ensures var key := CacheKey(serverId, NormaliseMount(rawMount), kind);
      key in r.state.entries
      && (r.state.pending == st.pending || (!force && r.state.pending == st.pending + [key]))
  {
    var key := CacheKey(serverId, NormaliseMount(rawMount), kind);
    var entries := GetOrCreate(st.entries, key, rival);
    var e := entries[key];
    var stale := IsStale(e, now);
    if force then
      match FindServer(servers, serverId)
      case None => Served(State(entries, st.pending), HttpError(404, "Server not found"))
      case Some(server) =>
        match scan(server, key.mountPoint, kind)
        case Scanned(items) =>
          Served(State(entries[key := CacheEntry(Some(items), Some(now), false, None)], st.pending),
                 Analysis(items, Some(now), false, false, None))
        case ScanRaised(reason) =>
          Served(State(entries[key := e.(refreshing := false, error := Some(reason))], st.pending),
                 HttpError(500, reason))
    else
      var schedule := stale && !e.refreshing;
      var e' := if schedule then e.(refreshing := true, error := None) else e;
      var pending := if schedule then st.pending + [key] else st.pending;
      Served(State(entries[key := e'], pending),
             Analysis(e'.data.GetOr([]), e'.collectedAt, stale, e'.refreshing, e'.error))
  }

  // ---- Properties ----

  /** Every entry marked refreshing has a refresh waiting in the queue, and every queued key has an entry. */
  ghost predicate Consistent(st: State) {
    (forall k :: k in st.entries && st.entries[k].refreshing ==> k in st.pending)
    && (forall i :: 0 <= i < |st.pending| ==> st.pending[i] in st.entries)
  }

  /** A row another request inserted is itself not yet refreshing. */
  predicate NewRow(rival: Option<CacheEntry>) {
    rival.None? || !rival.value.refreshing
  }

  /** Fetching twice gives the same table as fetching once. */
  lemma GetOrCreateIdempotent(entries: map<CacheKey, CacheEntry>, key: CacheKey, rival: Option<CacheEntry>, rival': Option<CacheEntry>)
    ensures GetOrCreate(GetOrCreate(entries, key, rival), key, rival') == GetOrCreate(entries, key, rival)
  {
  }

  /** An entry is stale exactly past TTL: one collected exactly TTL ago is still fresh. */
  lemma StaleBoundary(e: CacheEntry, t: Instant)
    requires e.collectedAt == Some(t)
    ensures !IsStale(e, t + TTL)
    ensures IsStale(e, t + TTL + 1)
    ensures IsStale(FRESH, t)
  {
  }

  /**
   * A request that is not forced changes no other entry, serves the stored
   * items, and schedules exactly one refresh when the entry is stale and not
   * refreshing and none otherwise; scheduling sets `refreshing` and clears the error.
   */
  lemma GateSchedulesOnce(st: State, serverId: int, rawMount: string, kind: Kind, servers: seq<Server>,
                          scan: (Server, string, Kind) -> ScanOutcome, now: Instant, rival: Option<CacheEntry>)
    ensures var key := CacheKey(serverId, NormaliseMount(rawMount), kind);
      var e := GetOrCreate(st.entries, key, rival)[key];
      var out := Serve(st, serverId, rawMount, kind, false, servers, scan, now, rival);
      var schedule := IsStale(e, now) && !e.refreshing;
      (schedule ==> out.state.pending == st.pending + [key]
                    && out.state.entries[key] == e.(refreshing := true, error := None))
      && (!schedule ==> out.state.pending == st.pending && out.state.entries[key] == e)
      && out.response == Analysis(e.data.GetOr([]), e.collectedAt, IsStale(e, now), schedule || e.refreshing,
                                  if schedule then None else e.error)
  {
  }

  /** Requests never touch the entries of other keys. */
  lemma ServeOnlyTouchesKey(st: State, serverId: int, rawMount: string, kind: Kind, force: bool, servers: seq<Server>,
                            scan: (Server, string, Kind) -> ScanOutcome, now: Instant, rival: Option<CacheEntry>, k: CacheKey)
    requires k != CacheKey(serverId, NormaliseMount(rawMount), kind)
    ensures var out := Serve(st, serverId, rawMount, kind, force, servers, scan, now, rival).state;
      (k in out.entries <==> k in st.entries) && (k in st.entries ==> out.entries[k] == st.entries[k])
  {
  }

  /** Two requests at the same instant, neither forced, schedule at most one refresh between them. */
  lemma SecondRequestSchedulesNothing(st: State, serverId: int, rawMount: string, kind: Kind, servers: seq<Server>,
                                      scan: (Server, string, Kind) -> ScanOutcome, now: Instant,
                                      rival: Option<CacheEntry>, rival': Option<CacheEntry>)
    ensures var first := Serve(st, serverId, rawMount, kind, false, servers, scan, now, rival);
      var second := Serve(first.state, serverId, rawMount, kind, false, servers, scan, now, rival');
      second.state.pending == first.state.pending
      && |first.state.pending| <= |st.pending| + 1
  {
  }

  /**
   * A forced request leaves the queue alone. With no such server it answers
   * 404; a scan that succeeds stores its items at `now` and answers them as
   * fresh; one that raises keeps the stored scan, records the error, clears
   * `refreshing` and answers 500 with the error text.
   */
  lemma ForcedOutcome(st: State, serverId: int, rawMount: string, kind: Kind, servers: seq<Server>,
                      scan: (Server, string, Kind) -> ScanOutcome, now: Instant, rival: Option<CacheEntry>)
    ensures var key := CacheKey(serverId, NormaliseMount(rawMount), kind);
      var e := GetOrCreate(st.entries, key, rival)[key];
      var out := Serve(st, serverId, rawMount, kind, true, servers, scan, now, rival);
      var server := FindServer(servers, serverId);
      out.state.pending == st.pending
      && (server.None? ==> out.response == HttpError(404, "Server not found") && out.state.entries[key] == e)
      && (server.Some? && scan(server.value, key.mountPoint, kind).Scanned? ==>
            var items := scan(server.value, key.mountPoint, kind).items;
            out.state.entries[key] == CacheEntry(Some(items), Some(now), false, None)
            && out.response == Analysis(items, Some(now), false, false, None))
      && (server.Some? && scan(server.value, key.mountPoint, kind).ScanRaised? ==>
            var reason := scan(server.value, key.mountPoint, kind).reason;
            var e' := out.state.entries[key];
            e'.data == e.data && e'.collectedAt == e.collectedAt && !e'.refreshing && e'.error == Some(reason)
            && out.response == HttpError(500, reason))
  {
  }

  /**
   * A background refresh always ends with `refreshing` cleared. A missing or
   * disabled server and a failed scan keep the stored scan and record why;
   * a successful scan replaces it, stamps `now` and clears the error.
   */
  lemma RefreshOutcome(e: CacheEntry, key: CacheKey, servers: seq<Server>, scan: (Server, string, Kind) -> ScanOutcome, now: Instant)
    ensures var e' := Refreshed(e, key, servers, scan, now);
      var server := FindServer(servers, key.serverId);
      !e'.refreshing
      && (server.None? ==> e' == e.(refreshing := false, error := Some("Server not found")))
      && (server.Some? && !server.value.enabled ==> e' == e.(refreshing := false, error := Some("Server is disabled")))
      && (server.Some? && server.value.enabled ==>
            match scan(server.value, key.mountPoint, key.kind)
            case Scanned(items) => e' == CacheEntry(Some(items), Some(now), false, None) && !IsStale(e', now)
            case ScanRaised(reason) => e'.data == e.data && e'.collectedAt == e.collectedAt && e'.error == Some(reason))
  {
  }

  /** A refresh only touches its own key. */
  lemma RefreshOnlyTouchesKey(entries: map<CacheKey, CacheEntry>, key: CacheKey, servers: seq<Server>,
                              scan: (Server, string, Kind) -> ScanOutcome, now: Instant, rival: Option<CacheEntry>, k: CacheKey)
    requires k != key
    ensures var r := Refresh(entries, key, servers, scan, now, rival);
      key in r && !r[key].refreshing
      && (k in r <==> k in entries) && (k in entries ==> r[k] == entries[k])
  {
  }

  /** Requests keep the cache consistent: no entry is left refreshing without a queued refresh. */
  lemma ServeKeepsConsistent(st: State, serverId: int, rawMount: string, kind: Kind, force: bool, servers: seq<Server>,
                             scan: (Server, string, Kind) -> ScanOutcome, now: Instant, rival: Option<CacheEntry>)
    requires Consistent(st) && NewRow(rival)
    ensures Consistent(Serve(st, serverId, rawMount, kind, force, servers, scan, now, rival).state)
  {
    var key := CacheKey(serverId, NormaliseMount(rawMount), kind);
    var out := Serve(st, serverId, rawMount, kind, force, servers, scan, now, rival).state;
    forall k | k in out.entries && out.entries[k].refreshing
      ensures k in out.pending
    {
      if k != key {
        assert k in st.entries && st.entries[k].refreshing;
      }
    }
    forall i | 0 <= i < |out.pending|
      ensures out.pending[i] in out.entries
    {
      if i < |st.pending| {
        assert out.pending[i] == st.pending[i];
      }
    }
  }

  /** Running a queued refresh keeps the cache consistent. */
  lemma RunTaskKeepsConsistent(st: State, servers: seq<Server>, scan: (Server, string, Kind) -> ScanOutcome,
                               now: Instant, rival: Option<CacheEntry>)
    requires Consistent(st)
    ensures Consistent(RunTask(st, servers, scan, now, rival))
  {
    if st.pending != [] {
      var key := st.pending[0];
      var out := RunTask(st, servers, scan, now, rival);
      assert st.pending == [key] + out.pending;
      forall k | k in out.entries && out.entries[k].refreshing
        ensures k in out.pending
      {
        assert k != key;
        assert k in st.entries && st.entries[k].refreshing;
        assert k in st.pending;
      }
      forall i | 0 <= i < |out.pending|
        ensures out.pending[i] in out.entries
      {
        assert out.pending[i] == st.pending[i + 1];
      }
    }
  }

  /**
   * First request on an empty cache: it answers nothing yet, stale and
   * refreshing, and queues one refresh; once that refresh has scanned
   * successfully, a request at the same instant answers the scan as fresh
   * and queues nothing.
   */
  lemma FirstRequestThenRefresh(serverId: int, rawMount: string, kind: Kind, servers: seq<Server>,
                                scan: (Server, string, Kind) -> ScanOutcome, now: Instant)
    requires var server := FindServer(servers, serverId);
      server.Some? && server.value.enabled && scan(server.value, NormaliseMount(rawMount), kind).Scanned?
    ensures var first := Serve(State(map[], []), serverId, rawMount, kind, false, servers, scan, now, None);
      var refreshed := RunTask(first.state, servers, scan, now, None);
      var second := Serve(refreshed, serverId, rawMount, kind, false, servers, scan, now, None);
      var items := scan(FindServer(servers, serverId).value, NormaliseMount(rawMount), kind).items;
      first.response == Analysis([], None, true, true, None)
      && |first.state.pending| == 1
      && refreshed.pending == []
      && second.response == Analysis(items, Some(now), false, false, None)
      && second.state.pending == []
  {
    var key := CacheKey(serverId, NormaliseMount(rawMount), kind);
    var first := Serve(State(map[], []), serverId, rawMount, kind, false, servers, scan, now, None);
    assert first.state.pending == [key];
    NormaliseIdempotent(rawMount);
  }

  // ---- The cache as the request handlers update it ----

  /** The `analysis_cache` table and the background-task queue, updated in place. */
  class CacheStore {
    var entries: map<CacheKey, CacheEntry>
    var pending: seq<CacheKey>

    constructor ()
      ensures entries == map[] && pending == []
    {
      entries := map[];
      pending := [];
    }

    function Snapshot(): State
      reads this
    {
      State(entries, pending)
    }

    /** `_get_or_create_cache` on the table: the entry for `key`, inserted if missing. */
    method Fetch(key: CacheKey, rival: Option<CacheEntry>) returns (e: CacheEntry)
      modifies this
      ensures entries == GetOrCreate(old(entries), key, rival)
      ensures e == entries[key]
      ensures pending == old(pending)
    {
      if key !in entries {
        match rival {
          case None => entries := entries[key := FRESH];
          case Some(winner) => entries := entries[key := winner];
        }
      }
      e := entries[key];
    }

    /** One request on `/disks/filetypes` or `/disks/largefiles`. */
    method Request(serverId: int, rawMount: string, kind: Kind, force: bool, servers: seq<Server>,
                   scan: (Server, string, Kind) -> ScanOutcome, now: Instant, rival: Option<CacheEntry>)
      returns (response: Response)
      modifies this
      ensures Served(Snapshot(), response) == Serve(old(Snapshot()), serverId, rawMount, kind, force, servers, scan, now, rival)
    {
      var mountPoint := rawMount;
      if !StartsWith(mountPoint, "/") {
        mountPoint := "/" + mountPoint;
      }
      var key := CacheKey(serverId, mountPoint, kind);
      var e := Fetch(key, rival);
      var stale := e.collectedAt.None? || now - e.collectedAt.value > TTL;
      if force {
        var server := FindServer(servers, serverId);
        if server.None? {
          return HttpError(404, "Server not found");
        }
        match scan(server.value, mountPoint, kind) {
          case Scanned(items) =>
            entries := entries[key := CacheEntry(Some(items), Some(now), false, None)];
            return Analysis(items, Some(now), false, false, None);
          case ScanRaised(reason) =>
            entries := entries[key := e.(refreshing := false, error := Some(reason))];
            return HttpError(500, reason);
        }
      }
      if stale && !e.refreshing {
        e := e.(refreshing := true, error := None);
        entries := entries[key := e];
        pending := pending + [key];
      } else {
        entries := entries[key := e];
      }
      var items := if e.data.Some? then e.data.value else [];
      response := Analysis(items, e.collectedAt, stale, e.refreshing, e.error);
    }

    /** The background worker: runs the oldest scheduled refresh. */
    method RunNextTask(servers: seq<Server>, scan: (Server, string, Kind) -> ScanOutcome, now: Instant, rival: Option<CacheEntry>)
      modifies this
      ensures Snapshot() == RunTask(old(Snapshot()), servers, scan, now, rival)
    {
      if pending == [] {
        return;
      }
      var key := pending[0];
      pending := pending[1..];
      var e := Fetch(key, rival);
      var server := FindServer(servers, key.serverId);
      if server.None? {
        e := e.(refreshing := false, error := Some("Server not found"));
      } else if !server.value.enabled {
        e := e.(refreshing := false, error := Some("Server is disabled"));
      } else {
        match scan(server.value, key.mountPoint, key.kind) {
          case ScanRaised(reason) =>
            e := e.(refreshing := false, error := Some(reason));
          case Scanned(items) =>
            e := CacheEntry(Some(items), Some(now), false, None);
        }
      }
      entries := entries[key := e];
    }
  }
}
