/**
 * The alert evaluator run after each metrics collection: for every enabled
 * rule out of its cooldown, check the rule's metric on each target server,
 * send one digest notification naming the servers over the threshold, and
 * stamp the rule's last trigger time only when the notification went out.
 *
 * Delivery (the Bark HTTP call) is an oracle `deliver`; the formatting of
 * numbers (`{threshold}` and `{value:.1f}`) is an oracle `fmt`.
 */
module Notifier {
  import opened Wrappers
  import opened PyStr
  import opened PyNum
  import opened Records
  import opened Ordering
  import opened Dashboard

  datatype MetricType = Cpu | Memory | Disk | GpuMemory | GpuUtil | UnknownMetric(name: string)

  /** An `alert_configs` row. `serverId` None or 0 means every enabled server. */
  datatype AlertRule = AlertRule(
    id: int,
    name: string,
    enabled: bool,
    metric: MetricType,
    threshold: real,
    serverId: Option<int>,
    cooldownMinutes: int,
    barkUrl: string,
    barkSound: string,
    lastTriggeredAt: Option<Instant>)

  /** One GPU object of the stored JSON list; a field the object lacks is None. */
  datatype Gpu = Gpu(memoryPercent: Option<real>, utilPercent: Option<real>)

  /** The stored `gpu_info` text: empty or absent, not JSON, or a list of GPU objects. */
  datatype GpuInfo = NoGpuInfo | MalformedGpuJson | GpuList(gpus: seq<Gpu>)

  /** A `server_metrics` row. */
  datatype MetricsRecord = MetricsRecord(serverId: int, cpuPercent: real, memoryPercent: real, gpuInfo: GpuInfo, collectedAt: Instant)

  /** The tables the checks read. */
  datatype Tables = Tables(metrics: seq<MetricsRecord>, disks: seq<DiskUsage>)

  /** The `(exceeded, current_value)` pair. */
  datatype Check = Check(exceeded: bool, value: real)

  const NOT_EXCEEDED: Check := Check(false, 0.0)

  /** A server that went over the threshold and the value that did it. */
  datatype TriggeredServer = TriggeredServer(serverName: string, currentValue: real)

  /** The Bark request: title, body, device URL and sound. */
  datatype Notification = Notification(title: string, body: string, url: string, sound: string)

  /** A notification sent for a rule and whether delivery succeeded. */
  datatype Attempt = Attempt(ruleId: int, notification: Notification, delivered: bool)

  /** How numbers are printed: Python's `str(float)` and the `:.1f` format. */
  datatype Formatting = Formatting(repr: real -> string, fixed1: real -> string)

  const MICROS_PER_MINUTE: int := 60 * 1000000

  // ---- Cooldown and targets ----

  /** A rule that triggered less than `cooldownMinutes` ago is skipped. */
  predicate InCooldown(rule: AlertRule, now: Instant) {
    rule.lastTriggeredAt.Some? && now - rule.lastTriggeredAt.value < rule.cooldownMinutes * MICROS_PER_MINUTE
  }

  function Targeted(serverId: Option<int>): Server -> bool {
    (s: Server) => s.enabled && (serverId.None? || serverId.value == 0 || s.id == serverId.value)
  }

  /** The servers a rule checks, in table order: its own server if enabled, or every enabled server. */
  function TargetServers(rule: AlertRule, servers: seq<Server>): seq<Server> {
    Filter(servers, Targeted(rule.serverId))
  }

  // ---- Metric checks ----

  function MetricsOf(serverId: int): MetricsRecord -> bool {
    (m: MetricsRecord) => m.serverId == serverId
  }

  function MetricsAt(m: MetricsRecord): int {
    m.collectedAt
  }

  /** The server's newest metrics row (`order_by(collected_at.desc()).first()`). */
  function LatestMetrics(rows: seq<MetricsRecord>, serverId: int): (latest: Option<MetricsRecord>)
    ensures latest.Some? ==> latest.value in rows && latest.value.serverId == serverId
    ensures latest.Some? ==> forall i :: 0 <= i < |rows| && rows[i].serverId == serverId ==> rows[i].collectedAt <= latest.value.collectedAt
    ensures latest.None? ==> forall i :: 0 <= i < |rows| ==> rows[i].serverId != serverId
  {
    LatestAtSpec(rows, MetricsOf(serverId), MetricsAt);
    match LatestAt(rows, MetricsOf(serverId), MetricsAt)
    case None => None
    case Some(at) =>
      var found := First(rows, (m: MetricsRecord) => m.serverId == serverId && m.collectedAt == at);
      assert found.Some? by {
        var i :| 0 <= i < |rows| && MetricsOf(serverId)(rows[i]) && MetricsAt(rows[i]) == at;
      }
      found
  }

  /** A disk row of the server that is the latest of its mount and at or over the threshold. */
  function OverThreshold(rows: seq<DiskUsage>, serverId: int, threshold: real): DiskUsage -> bool {
    (d: DiskUsage) => d.serverId == serverId && IsLatest(rows, d) && d.usePercent >= threshold
  }

  /** The GPU field a metric reads. */
  function GpuField(g: Gpu, utilisation: bool): Option<real> {
    if utilisation then g.utilPercent else g.memoryPercent
  }

  /** The text of the `KeyError` for a missing GPU field. */
  function MissingField(utilisation: bool): string {
    if utilisation then "'gpu_util_percent'" else "'memory_percent'"
  }

  /**
   * The GPU loop: the first GPU whose field (0 when missing) reaches the
   * threshold decides; reading the missing field back then raises `KeyError`.
   */
  function GpuScan(gpus: seq<Gpu>, utilisation: bool, threshold: real): Result<Check>
    decreases |gpus|
  {
    if gpus == [] then Success(NOT_EXCEEDED)
    else
      var v := GpuField(gpus[0], utilisation);
      if v.GetOr(0.0) >= threshold then
        if v.Some? then Success(Check(true, v.value)) else Failure(MissingField(utilisation))
      else GpuScan(gpus[1..], utilisation, threshold)
  }

  /** The GPU check on the server's newest metrics row; malformed JSON counts as not exceeded. */
  function GpuCheck(latest: Option<MetricsRecord>, utilisation: bool, threshold: real): Result<Check> {
    match latest
    case None => Success(NOT_EXCEEDED)
    case Some(m) =>
      match m.gpuInfo
      case GpuList(gpus) => GpuScan(gpus, utilisation, threshold)
      case _ => Success(NOT_EXCEEDED)
  }

  /** `_check_metric`. */
  function CheckMetric(server: Server, metric: MetricType, threshold: real, tables: Tables): (r: Result<Check>)
    ensures r.Failure? ==> metric == GpuMemory || metric == GpuUtil
    ensures metric.UnknownMetric? ==> r.Success? && !r.value.exceeded
  {
    match metric
    case Cpu =>
      (match LatestMetrics(tables.metrics, server.id)
       case None => Success(NOT_EXCEEDED)
       case Some(m) => Success(Check(m.cpuPercent >= threshold, m.cpuPercent)))
    case Memory =>
      (match LatestMetrics(tables.metrics, server.id)
       case None => Success(NOT_EXCEEDED)
       case Some(m) => Success(Check(m.memoryPercent >= threshold, m.memoryPercent)))
    case Disk =>
      (match First(tables.disks, OverThreshold(tables.disks, server.id, threshold))
       case None => Success(NOT_EXCEEDED)
       case Some(d) => Success(Check(true, d.usePercent)))
    case GpuMemory => GpuCheck(LatestMetrics(tables.metrics, server.id), false, threshold)
    case GpuUtil => GpuCheck(LatestMetrics(tables.metrics, server.id), true, threshold)
    case UnknownMetric(_) => Success(NOT_EXCEEDED)
  }

  /** The servers over the threshold, in target order; the first check that raises ends the pass. */
  function Triggered(targets: seq<Server>, metric: MetricType, threshold: real, tables: Tables): Result<seq<TriggeredServer>>
    decreases |targets|
  {
    if targets == [] then Success([])
    else
      var n := |targets| - 1;
      match Triggered(targets[..n], metric, threshold, tables)
      case Failure(e) => Failure(e)
      case Success(ts) =>
        match CheckMetric(targets[n], metric, threshold, tables)
        case Failure(e) => Failure(e)
        case Success(c) => Success(if c.exceeded then ts + [TriggeredServer(targets[n].name, c.value)] else ts)
  }

  // ---- The digest ----

  /** The display name of a metric; an unknown type shows its own name. */
  function MetricName(metric: MetricType): string {
    match metric
    case Cpu => "CPU 使用率"
    case Memory => "内存使用率"
    case Disk => "磁盘使用率"
    case GpuMemory => "GPU 显存"
    case GpuUtil => "GPU 算力"
    case UnknownMetric(name) => name
  }

  function Header(rule: AlertRule, fmt: Formatting): string {
    "指标: " + MetricName(rule.metric) + " >= " + fmt.repr(rule.threshold) + "%"
  }

  function ServerLine(t: TriggeredServer, fmt: Formatting): string {
    "• " + t.serverName + ": " + fmt.fixed1(t.currentValue) + "%"
  }

  function ServerLines(ts: seq<TriggeredServer>, fmt: Formatting): (lines: seq<string>)
    ensures |lines| == |ts|
  {
    seq(|ts|, i requires 0 <= i < |ts| => ServerLine(ts[i], fmt))
  }

  /** The line closing a digest of more than five servers; it counts all of them. */
  function OverflowLine(n: nat): string {
    "...等 " + ShowNat(n) + " 台服务器"
  }

  const MAX_LISTED: nat := 5

  /** The digest: the header, the first five servers, and an overflow line when there are more. */
  function DigestLines(rule: AlertRule, ts: seq<TriggeredServer>, fmt: Formatting): seq<string> {
    var shown := if |ts| <= MAX_LISTED then ts else ts[..MAX_LISTED];
    [Header(rule, fmt)] + ServerLines(shown, fmt) + (if |ts| > MAX_LISTED then [OverflowLine(|ts|)] else [])
  }

  function Compose(rule: AlertRule, ts: seq<TriggeredServer>, fmt: Formatting): Notification {
    Notification("⚠️ " + rule.name, Join(DigestLines(rule, ts, fmt), "\n"), rule.barkUrl, rule.barkSound)
  }

  // ---- One rule, one pass ----

  /**
   * One rule of the pass: nothing for a disabled rule, one in cooldown or one
   * with no server over the threshold; otherwise the notification sent and its
   * delivery. A check that raises ends the pass with its error.
   */
  function EvaluateRule(rule: AlertRule, servers: seq<Server>, tables: Tables, now: Instant,
                        fmt: Formatting, deliver: Notification -> bool): Result<Option<Attempt>>
  {
    if !rule.enabled || InCooldown(rule, now) then Success(None)
    else
      match Triggered(TargetServers(rule, servers), rule.metric, rule.threshold, tables)
      case Failure(e) => Failure(e)
      case Success(ts) =>
        if ts == [] then Success(None)
        else
          var note := Compose(rule, ts, fmt);
          Success(Some(Attempt(rule.id, note, deliver(note))))
  }

  /** The rule after its attempt: stamped with `now` only when a notification was delivered. */
  function Stamped(rule: AlertRule, attempt: Option<Attempt>, now: Instant): AlertRule {
    if attempt.Some? && attempt.value.delivered then rule.(lastTriggeredAt := Some(now)) else rule
  }

  /** The rules after a pass, the notifications sent, and the error that ended it early, if any. */
  datatype PassResult = PassResult(rules: seq<AlertRule>, attempts: seq<Attempt>, error: Option<string>)

  /** One rule's step of the pass: after an error the rule is left as it was. */
  function Next(prev: PassResult, rule: AlertRule, servers: seq<Server>, tables: Tables, now: Instant,
                fmt: Formatting, deliver: Notification -> bool): PassResult
  {
    if prev.error.Some? then PassResult(prev.rules + [rule], prev.attempts, prev.error)
    else
      match EvaluateRule(rule, servers, tables, now, fmt, deliver)
      case Failure(e) => PassResult(prev.rules + [rule], prev.attempts, Some(e))
      case Success(a) =>
        PassResult(prev.rules + [Stamped(rule, a, now)], prev.attempts + (if a.Some? then [a.value] else []), None)
  }

  /** `check_and_notify` over the rule table, in order; rules after an error are left as they were. */
  function Pass(rules: seq<AlertRule>, servers: seq<Server>, tables: Tables, now: Instant,
                fmt: Formatting, deliver: Notification -> bool): PassResult
    decreases |rules|
  {
    if rules == [] then PassResult([], [], None)
    else
      var n := |rules| - 1;
      Next(Pass(rules[..n], servers, tables, now, fmt, deliver), rules[n], servers, tables, now, fmt, deliver)
  }

  // ---- Properties ----

  /** A rule that never triggered is always evaluated; one in cooldown sends nothing. */
  lemma CooldownGate(rule: AlertRule, servers: seq<Server>, tables: Tables, now: Instant,
                     fmt: Formatting, deliver: Notification -> bool)
    ensures rule.lastTriggeredAt.None? ==> !InCooldown(rule, now)
    ensures InCooldown(rule, now) ==> EvaluateRule(rule, servers, tables, now, fmt, deliver) == Success(None)
  {
  }

  /** A rule stamped at `t` with a cooldown of `m` minutes is skipped until exactly `m` minutes have passed. */
  lemma CooldownBoundary(rule: AlertRule, t: Instant)
    requires rule.lastTriggeredAt == Some(t) && rule.cooldownMinutes >= 1
    ensures InCooldown(rule, t + rule.cooldownMinutes * MICROS_PER_MINUTE - 1)
    ensures !InCooldown(rule, t + rule.cooldownMinutes * MICROS_PER_MINUTE)
  {
  }

  /** A failed delivery leaves the rule as it was, so it is evaluated again at any later pass. */
  lemma RetryAfterFailedDelivery(rule: AlertRule, attempt: Attempt, now: Instant, later: Instant)
    requires !InCooldown(rule, now) && !attempt.delivered && later >= now
    ensures Stamped(rule, Some(attempt), now) == rule
    ensures !InCooldown(Stamped(rule, Some(attempt), now), later)
  {
  }

  /** The rule's stamp becomes `now` exactly when its notification was delivered; nothing else changes. */
  lemma StampIffDelivered(rule: AlertRule, attempt: Option<Attempt>, now: Instant)
    ensures var r := Stamped(rule, attempt, now);
      r.(lastTriggeredAt := rule.lastTriggeredAt) == rule
      && (attempt.Some? && attempt.value.delivered ==> r.lastTriggeredAt == Some(now))
      && (!(attempt.Some? && attempt.value.delivered) ==> r == rule)
  {
  }

  /** A server is a target exactly when it is enabled and is the rule's server, or the rule names none. */
  lemma TargetServersSpec(rule: AlertRule, servers: seq<Server>)
    ensures var targets := TargetServers(rule, servers);
      |targets| <= |servers|
      && (forall i :: 0 <= i < |targets| ==> targets[i] in servers && targets[i].enabled)
      && (forall i :: 0 <= i < |servers| ==>
            (servers[i] in targets <==>
              servers[i].enabled && (rule.serverId.None? || rule.serverId.value == 0 || servers[i].id == rule.serverId.value)))
  {
    var targets := TargetServers(rule, servers);
    FilterMembers(servers, Targeted(rule.serverId));
    forall i | 0 <= i < |servers| && servers[i] in targets
      ensures servers[i].enabled && (rule.serverId.None? || rule.serverId.value == 0 || servers[i].id == rule.serverId.value)
    {
      var j :| 0 <= j < |targets| && targets[j] == servers[i];
      assert Targeted(rule.serverId)(targets[j]);
    }
  }

  /** The first element of a search is preceded by no other match. */
  lemma {:induction false} FirstIsFirst<T>(s: seq<T>, p: T -> bool)
    requires First(s, p).Some?
    ensures exists i :: 0 <= i < |s| && s[i] == First(s, p).value && forall j :: 0 <= j < i ==> !p(s[j])
    decreases |s|
  {
    if !p(s[0]) {
      FirstIsFirst(s[1..], p);
      var i :| 0 <= i < |s[1..]| && s[1..][i] == First(s, p).value && forall j :: 0 <= j < i ==> !p(s[1..][j]);
      assert s[i + 1] == First(s, p).value;
      forall j | 0 <= j < i + 1
        ensures !p(s[j])
      {
        if j > 0 {
          assert s[j] == s[1..][j - 1];
        }
      }
    } else {
      assert s[0] == First(s, p).value;
    }
  }

  /**
   * The disk check never raises. It is exceeded exactly when some latest
   * per-mount row of the server is at or over the threshold, and then reports
   * the first such row's use.
   */
  lemma DiskCheckSpec(server: Server, threshold: real, tables: Tables)
    ensures var c := CheckMetric(server, Disk, threshold, tables);
      var over := OverThreshold(tables.disks, server.id, threshold);
      c.Success?
      && (c.value.exceeded <==> exists i :: 0 <= i < |tables.disks| && over(tables.disks[i]))
      && (c.value.exceeded ==>
            exists i :: 0 <= i < |tables.disks| && over(tables.disks[i])
              && c.value.value == tables.disks[i].usePercent
              && tables.disks[i].serverId == server.id && IsLatest(tables.disks, tables.disks[i])
              && tables.disks[i].usePercent >= threshold
              && forall j :: 0 <= j < i ==> !over(tables.disks[j]))
      && (!c.value.exceeded ==> c.value == NOT_EXCEEDED)
  {
    var over := OverThreshold(tables.disks, server.id, threshold);
    if First(tables.disks, over).Some? {
      FirstIsFirst(tables.disks, over);
    }
  }

  /**
   * The GPU loop. Exceeded: some GPU has the field at or over the threshold,
   * every GPU before it is under. Not exceeded: every GPU's field (0 when
   * missing) is under. It raises only when a GPU lacks the field and the
   * threshold is at most 0.
   */
  lemma {:induction false} GpuScanSpec(gpus: seq<Gpu>, utilisation: bool, threshold: real)
    ensures var r := GpuScan(gpus, utilisation, threshold);
      (r.Success? && r.value.exceeded ==>
        exists i :: 0 <= i < |gpus| && GpuField(gpus[i], utilisation) == Some(r.value.value) && r.value.value >= threshold
          && forall j :: 0 <= j < i ==> GpuField(gpus[j], utilisation).GetOr(0.0) < threshold)
      && (r.Success? && !r.value.exceeded ==>
            r.value == NOT_EXCEEDED && forall i :: 0 <= i < |gpus| ==> GpuField(gpus[i], utilisation).GetOr(0.0) < threshold)
      && (r.Failure? ==>
            r.error == MissingField(utilisation) && threshold <= 0.0
            && exists i :: 0 <= i < |gpus| && GpuField(gpus[i], utilisation).None?)
    decreases |gpus|
  {
    if gpus != [] {
      var v := GpuField(gpus[0], utilisation);
      if v.GetOr(0.0) < threshold {
        var rest := gpus[1..];
        GpuScanSpec(rest, utilisation, threshold);
        var r := GpuScan(rest, utilisation, threshold);
        if r.Success? && r.value.exceeded {
          var i :| 0 <= i < |rest| && GpuField(rest[i], utilisation) == Some(r.value.value) && r.value.value >= threshold
            && forall j :: 0 <= j < i ==> GpuField(rest[j], utilisation).GetOr(0.0) < threshold;
          assert gpus[i + 1] == rest[i];
          forall j | 0 <= j < i + 1
            ensures GpuField(gpus[j], utilisation).GetOr(0.0) < threshold
          {
            if j > 0 {
              assert gpus[j] == rest[j - 1];
            }
          }
        } else if r.Success? {
          forall i | 0 <= i < |gpus|
            ensures GpuField(gpus[i], utilisation).GetOr(0.0) < threshold
          {
            if i > 0 {
              assert gpus[i] == rest[i - 1];
            }
          }
        } else {
          var i :| 0 <= i < |rest| && GpuField(rest[i], utilisation).None?;
          assert gpus[i + 1] == rest[i];
        }
      }
    }
  }

  /** With no metrics row, malformed GPU JSON or an unknown metric type the check is `(False, 0.0)`. */
  lemma NoDataNotExceeded(server: Server, metric: MetricType, threshold: real, tables: Tables)
    requires metric.UnknownMetric?
      || (!metric.Disk? && forall i :: 0 <= i < |tables.metrics| ==> tables.metrics[i].serverId != server.id)
      || ((metric.GpuMemory? || metric.GpuUtil?)
          && LatestMetrics(tables.metrics, server.id).Some?
          && !LatestMetrics(tables.metrics, server.id).value.gpuInfo.GpuList?)
    ensures CheckMetric(server, metric, threshold, tables) == Success(NOT_EXCEEDED)
  {
  }

  /** The CPU and memory checks compare the newest row's value, and report it either way. */
  lemma UsageCheckSpec(server: Server, threshold: real, tables: Tables)
    requires LatestMetrics(tables.metrics, server.id).Some?
    ensures var m := LatestMetrics(tables.metrics, server.id).value;
      CheckMetric(server, Cpu, threshold, tables) == Success(Check(m.cpuPercent >= threshold, m.cpuPercent))
      && CheckMetric(server, Memory, threshold, tables) == Success(Check(m.memoryPercent >= threshold, m.memoryPercent))
      && forall i :: 0 <= i < |tables.metrics| && tables.metrics[i].serverId == server.id ==> tables.metrics[i].collectedAt <= m.collectedAt
  {
  }

  /** A server is over the threshold by this check, with this value. */
  predicate Exceeds(server: Server, metric: MetricType, threshold: real, tables: Tables, t: TriggeredServer) {
    CheckMetric(server, metric, threshold, tables) == Success(Check(true, t.currentValue)) && t.serverName == server.name
  }

  /**
   * When no check raises, the triggered list has one entry per target over the
   * threshold, with that target's name and value; otherwise some check raised.
   */
  lemma {:induction false} TriggeredSpec(targets: seq<Server>, metric: MetricType, threshold: real, tables: Tables)
    ensures var r := Triggered(targets, metric, threshold, tables);
      (r.Success? ==>
        |r.value| <= |targets|
        && (forall i :: 0 <= i < |targets| ==> CheckMetric(targets[i], metric, threshold, tables).Success?)
        && (forall i :: 0 <= i < |targets| && CheckMetric(targets[i], metric, threshold, tables).value.exceeded ==>
              TriggeredServer(targets[i].name, CheckMetric(targets[i], metric, threshold, tables).value.value) in r.value)
        && (forall j :: 0 <= j < |r.value| ==> exists i :: 0 <= i < |targets| && Exceeds(targets[i], metric, threshold, tables, r.value[j])))
      && (r.Failure? ==> exists i :: 0 <= i < |targets| && CheckMetric(targets[i], metric, threshold, tables) == Failure(r.error))
  {
    TriggeredChecked(targets, metric, threshold, tables);
    TriggeredComplete(targets, metric, threshold, tables);
    TriggeredSound(targets, metric, threshold, tables);
    TriggeredFailure(targets, metric, threshold, tables);
  }

  /** Without an error, every target was checked without raising and gave at most one entry. */
  lemma {:induction false} TriggeredChecked(targets: seq<Server>, metric: MetricType, threshold: real, tables: Tables)
    ensures var r := Triggered(targets, metric, threshold, tables);
      r.Success? ==>
        |r.value| <= |targets|
        && forall i :: 0 <= i < |targets| ==> CheckMetric(targets[i], metric, threshold, tables).Success?
    decreases |targets|
  {
    if targets != [] {
      var n := |targets| - 1;
      var init := targets[..n];
      TriggeredChecked(init, metric, threshold, tables);
      assert forall i :: 0 <= i < n ==> init[i] == targets[i];
    }
  }

  /** Without an error, every target over the threshold has its entry. */
  lemma {:induction false} TriggeredComplete(targets: seq<Server>, metric: MetricType, threshold: real, tables: Tables)
    ensures var r := Triggered(targets, metric, threshold, tables);
      r.Success? ==>
        forall i :: 0 <= i < |targets| && CheckMetric(targets[i], metric, threshold, tables).Success?
                    && CheckMetric(targets[i], metric, threshold, tables).value.exceeded ==>
          TriggeredServer(targets[i].name, CheckMetric(targets[i], metric, threshold, tables).value.value) in r.value
    decreases |targets|
  {
    if targets != [] {
      var n := |targets| - 1;
      var init := targets[..n];
      TriggeredComplete(init, metric, threshold, tables);
      assert forall i :: 0 <= i < n ==> init[i] == targets[i];
    }
  }

  /** Without an error, every entry is some target over the threshold. */
  lemma {:induction false} TriggeredSound(targets: seq<Server>, metric: MetricType, threshold: real, tables: Tables)
    ensures var r := Triggered(targets, metric, threshold, tables);
      r.Success? ==>
        forall j :: 0 <= j < |r.value| ==> exists i :: 0 <= i < |targets| && Exceeds(targets[i], metric, threshold, tables, r.value[j])
    decreases |targets|
  {
    if targets != [] {
      var n := |targets| - 1;
      var init := targets[..n];
      TriggeredSound(init, metric, threshold, tables);
      var prev := Triggered(init, metric, threshold, tables);
      var c := CheckMetric(targets[n], metric, threshold, tables);
      if prev.Success? && c.Success? {
        var ts := Triggered(targets, metric, threshold, tables).value;
        assert ts == if c.value.exceeded then prev.value + [TriggeredServer(targets[n].name, c.value.value)] else prev.value;
        forall j | 0 <= j < |ts|
          ensures exists i :: 0 <= i < |targets| && Exceeds(targets[i], metric, threshold, tables, ts[j])
        {
          if j < |prev.value| {
            assert ts[j] == prev.value[j];
            var i :| 0 <= i < n && Exceeds(init[i], metric, threshold, tables, prev.value[j]);
            assert init[i] == targets[i];
          } else {
            assert Exceeds(targets[n], metric, threshold, tables, ts[j]);
          }
        }
      }
    }
  }

  /** An error is the error of some target's check. */
  lemma {:induction false} TriggeredFailure(targets: seq<Server>, metric: MetricType, threshold: real, tables: Tables)
    ensures var r := Triggered(targets, metric, threshold, tables);
      r.Failure? ==> exists i :: 0 <= i < |targets| && CheckMetric(targets[i], metric, threshold, tables) == Failure(r.error)
    decreases |targets|
  {
    if targets != [] {
      var n := |targets| - 1;
      var init := targets[..n];
      TriggeredFailure(init, metric, threshold, tables);
      var prev := Triggered(init, metric, threshold, tables);
      if prev.Failure? {
        var i :| 0 <= i < n && CheckMetric(init[i], metric, threshold, tables) == Failure(prev.error);
        assert targets[i] == init[i];
      }
    }
  }

  /** The servers whose check succeeds and reports the threshold exceeded. */
  function OverThresholdServer(metric: MetricType, threshold: real, tables: Tables): Server -> bool {
    s => var c := CheckMetric(s, metric, threshold, tables); c.Success? && c.value.exceeded
  }

  /** The digest entry of a server: its name and the value its check reports. */
  function EntryOf(s: Server, metric: MetricType, threshold: real, tables: Tables): TriggeredServer {
    var c := CheckMetric(s, metric, threshold, tables);
    TriggeredServer(s.name, if c.Success? then c.value.value else 0.0)
  }

  /** The entries of `servers`, one each, in order. */
  function Entries(servers: seq<Server>, metric: MetricType, threshold: real, tables: Tables): (es: seq<TriggeredServer>)
    ensures |es| == |servers|
  {
    seq(|servers|, i requires 0 <= i < |servers| => EntryOf(servers[i], metric, threshold, tables))
  }

  lemma EntriesAppend(servers: seq<Server>, extra: seq<Server>, metric: MetricType, threshold: real, tables: Tables)
    requires |extra| <= 1
    ensures Entries(servers + extra, metric, threshold, tables)
         == Entries(servers, metric, threshold, tables) + Entries(extra, metric, threshold, tables)
  {
    var all := servers + extra;
    assert forall i :: 0 <= i < |servers| ==> all[i] == servers[i];
    assert forall i :: |servers| <= i < |all| ==> all[i] == extra[i - |servers|];
  }

  /**
   * Without an error, the triggered list is exactly the entries of the targets
   * over the threshold, in target order.
   */
  lemma {:induction false} TriggeredExact(targets: seq<Server>, metric: MetricType, threshold: real, tables: Tables)
    ensures var r := Triggered(targets, metric, threshold, tables);
      r.Success? ==>
        r.value == Entries(Filter(targets, OverThresholdServer(metric, threshold, tables)), metric, threshold, tables)
    decreases |targets|
  {
    if targets != [] {
      var n := |targets| - 1;
      var init := targets[..n];
      var over := OverThresholdServer(metric, threshold, tables);
      TriggeredExact(init, metric, threshold, tables);
      var extra := if over(targets[n]) then [targets[n]] else [];
      assert Filter(targets, over) == Filter(init, over) + extra;
      EntriesAppend(Filter(init, over), extra, metric, threshold, tables);
    }
  }

  /** A notification is attempted exactly for an enabled rule out of cooldown with some server over the threshold. */
  lemma AttemptOnlyWhenTriggered(rule: AlertRule, servers: seq<Server>, tables: Tables, now: Instant,
                                 fmt: Formatting, deliver: Notification -> bool)
    ensures var r := EvaluateRule(rule, servers, tables, now, fmt, deliver);
      var ts := Triggered(TargetServers(rule, servers), rule.metric, rule.threshold, tables);
      (r.Success? && r.value.Some? <==> rule.enabled && !InCooldown(rule, now) && ts.Success? && ts.value != [])
      && (r.Success? && r.value.Some? ==>
            r.value.value.notification == Compose(rule, ts.value, fmt)
            && r.value.value.delivered == deliver(r.value.value.notification))
      && (r.Failure? ==> rule.enabled && !InCooldown(rule, now) && ts.Failure?)
  {
  }

  /**
   * The digest has one header line, then one line for each of the first five
   * servers in order, then one overflow line exactly when there are more than
   * five servers, naming their total count.
   */
  lemma DigestShape(rule: AlertRule, ts: seq<TriggeredServer>, fmt: Formatting)
    ensures var lines := DigestLines(rule, ts, fmt);
      var listed := if |ts| <= MAX_LISTED then |ts| else MAX_LISTED;
      |lines| == 1 + listed + (if |ts| > MAX_LISTED then 1 else 0)
      && lines[0] == Header(rule, fmt)
      && (forall i :: 0 <= i < listed ==> lines[1 + i] == ServerLine(ts[i], fmt))
      && (|ts| > MAX_LISTED ==> lines[|lines| - 1] == OverflowLine(|ts|))
  {
  }

  /** The overflow line names the number of servers, which can be read back from it. */
  lemma OverflowCounts(n: nat)
    ensures OverflowLine(n)[|"...等 "|..|"...等 "| + |ShowNat(n)|] == ShowNat(n)
    ensures ParseInt(ShowNat(n)) == Some(n)
  {
    ParseIntShowNat(n);
  }

  /** When no part contains a newline, the body splits back into the digest lines. */
  lemma BodyLines(rule: AlertRule, ts: seq<TriggeredServer>, fmt: Formatting)
    requires '\n' !in Header(rule, fmt)
    requires forall i :: 0 <= i < |ts| ==> '\n' !in ServerLine(ts[i], fmt)
    ensures Split(Compose(rule, ts, fmt).body, '\n') == DigestLines(rule, ts, fmt)
  {
    var lines := DigestLines(rule, ts, fmt);
    DigestShape(rule, ts, fmt);
    forall i | 0 <= i < |lines|
      ensures '\n' !in lines[i]
    {
      if |ts| > MAX_LISTED && i == |lines| - 1 {
        assert lines[i] == "...等 " + ShowNat(|ts|) + " 台服务器";
        assert forall k :: 0 <= k < |ShowNat(|ts|)| ==> IsDigit(ShowNat(|ts|)[k]);
      }
    }
    SplitJoin(lines, '\n');
  }

  /** Replacing element `i` changes the prefix through `i` and nothing after it. */
  lemma UpdateSlices<T>(s: seq<T>, i: nat, x: T)
    requires i < |s|
    ensures s[i := x][..i + 1] == s[..i] + [x]
    ensures s[i := x][i + 1..] == s[i + 1..]
    ensures s[i] == x ==> s[i := x] == s
  {
  }

  /** One more rule of a pass that has not stopped, when that rule's checks raise. */
  lemma PassStepFailure(rules: seq<AlertRule>, i: nat, servers: seq<Server>, tables: Tables, now: Instant,
                        fmt: Formatting, deliver: Notification -> bool,
                        done: seq<AlertRule>, attempts: seq<Attempt>, e: string)
    requires i < |rules|
    requires Pass(rules[..i], servers, tables, now, fmt, deliver) == PassResult(done, attempts, None)
    requires EvaluateRule(rules[i], servers, tables, now, fmt, deliver) == Failure(e)
    ensures Pass(rules[..i + 1], servers, tables, now, fmt, deliver) == PassResult(done + [rules[i]], attempts, Some(e))
  {
    assert rules[..i + 1][..i] == rules[..i];
  }

  /** One more rule of a pass that has not stopped, when that rule's checks succeed. */
  lemma PassStepSuccess(rules: seq<AlertRule>, i: nat, servers: seq<Server>, tables: Tables, now: Instant,
                        fmt: Formatting, deliver: Notification -> bool,
                        done: seq<AlertRule>, attempts: seq<Attempt>, a: Option<Attempt>)
    requires i < |rules|
    requires Pass(rules[..i], servers, tables, now, fmt, deliver) == PassResult(done, attempts, None)
    requires EvaluateRule(rules[i], servers, tables, now, fmt, deliver) == Success(a)
    ensures Pass(rules[..i + 1], servers, tables, now, fmt, deliver)
      == PassResult(done + [Stamped(rules[i], a, now)], attempts + (if a.Some? then [a.value] else []), None)
  {
    assert rules[..i + 1][..i] == rules[..i];
  }

  /** A pass whose loop has run out of rules or stopped on an error has produced the whole pass. */
  lemma PassFinished(rules: seq<AlertRule>, i: nat, servers: seq<Server>, tables: Tables, now: Instant,
                     fmt: Formatting, deliver: Notification -> bool,
                     current: seq<AlertRule>, attempts: seq<Attempt>, error: Option<string>)
    requires i <= |rules| == |current|
    requires Pass(rules[..i], servers, tables, now, fmt, deliver) == PassResult(current[..i], attempts, error)
    requires current[i..] == rules[i..]
    requires i == |rules| || error.Some?
    ensures PassResult(current, attempts, error) == Pass(rules, servers, tables, now, fmt, deliver)
  {
    if error.Some? {
      PassErrorPersists(rules, i, servers, tables, now, fmt, deliver);
      assert current == current[..i] + current[i..];
    } else {
      assert rules[..i] == rules;
      assert current[..i] == current;
    }
  }

  /** Once a pass has stopped on an error, the rules after that point are left as they were. */
  lemma {:induction false} PassErrorPersists(rules: seq<AlertRule>, k: nat, servers: seq<Server>, tables: Tables, now: Instant,
                                             fmt: Formatting, deliver: Notification -> bool)
    requires k <= |rules|
    requires Pass(rules[..k], servers, tables, now, fmt, deliver).error.Some?
    ensures var stopped := Pass(rules[..k], servers, tables, now, fmt, deliver);
      Pass(rules, servers, tables, now, fmt, deliver) == PassResult(stopped.rules + rules[k..], stopped.attempts, stopped.error)
    decreases |rules| - k
  {
    var stopped := Pass(rules[..k], servers, tables, now, fmt, deliver);
    if k == |rules| {
      assert rules[..k] == rules;
      assert stopped.rules + rules[k..] == stopped.rules;
    } else {
      assert rules[..k + 1][..k] == rules[..k];
      PassErrorPersists(rules, k + 1, servers, tables, now, fmt, deliver);
      assert stopped.rules + [rules[k]] + rules[k + 1..] == stopped.rules + rules[k..];
    }
  }

  /** The rules one is made of: `rule` or `rule` stamped with `now`. */
  predicate StampedOrKept(before: AlertRule, after: AlertRule, now: Instant) {
    after == before || (after == before.(lastTriggeredAt := Some(now)) && before.enabled && !InCooldown(before, now))
  }

  /**
   * A pass keeps every rule but its stamp, and stamps only enabled rules that
   * were out of cooldown; it records one attempt at most per rule.
   */
  lemma {:induction false} PassSpec(rules: seq<AlertRule>, servers: seq<Server>, tables: Tables, now: Instant,
                                    fmt: Formatting, deliver: Notification -> bool)
    ensures var p := Pass(rules, servers, tables, now, fmt, deliver);
      |p.rules| == |rules|
      && |p.attempts| <= |rules|
      && (forall i :: 0 <= i < |rules| ==> StampedOrKept(rules[i], p.rules[i], now))
    decreases |rules|
  {
    if rules != [] {
      var n := |rules| - 1;
      var init := rules[..n];
      PassSpec(init, servers, tables, now, fmt, deliver);
      var prev := Pass(init, servers, tables, now, fmt, deliver);
      var p := Pass(rules, servers, tables, now, fmt, deliver);
      forall i | 0 <= i < |rules|
        ensures StampedOrKept(rules[i], p.rules[i], now)
      {
        if i < n {
          assert rules[i] == init[i] && p.rules[i] == prev.rules[i];
        } else {
          var a := EvaluateRule(rules[n], servers, tables, now, fmt, deliver);
          if prev.error.None? && a.Success? && a.value.Some? && a.value.value.delivered {
            assert rules[n].enabled && !InCooldown(rules[n], now);
          }
        }
      }
    }
  }

  /**
   * `idx` maps each attempt of `p` to the rule it came from: rules are visited
   * in order, each attempt is what its rule's evaluation gave, a delivered
   * attempt stamps its rule, and a rule changes only through a delivered attempt.
   */
  ghost predicate AttemptIndex(rules: seq<AlertRule>, servers: seq<Server>, tables: Tables, now: Instant,
                               fmt: Formatting, deliver: Notification -> bool, p: PassResult, idx: seq<nat>)
  {
    |p.rules| == |rules| && |idx| == |p.attempts|
    && (forall j :: 0 <= j < |idx| ==>
          idx[j] < |rules| && p.attempts[j].ruleId == rules[idx[j]].id
          && EvaluateRule(rules[idx[j]], servers, tables, now, fmt, deliver) == Success(Some(p.attempts[j]))
          && (p.attempts[j].delivered ==> p.rules[idx[j]] == rules[idx[j]].(lastTriggeredAt := Some(now))))
    && (forall j, k :: 0 <= j < k < |idx| ==> idx[j] < idx[k])
    && (forall i :: 0 <= i < |rules| && p.rules[i] != rules[i] ==>
          exists j :: 0 <= j < |idx| && idx[j] == i && p.attempts[j].delivered)
  }

  /** The rule's own attempt, when the pass has not stopped and the rule sends one. */
  function StepAttempt(prev: PassResult, rule: AlertRule, servers: seq<Server>, tables: Tables, now: Instant,
                       fmt: Formatting, deliver: Notification -> bool): seq<Attempt>
  {
    var a := EvaluateRule(rule, servers, tables, now, fmt, deliver);
    if prev.error.None? && a.Success? && a.value.Some? then [a.value.value] else []
  }

  /** One rule's step keeps the attempt index, extending it by the rule's own attempt if any. */
  lemma AttemptIndexStep(init: seq<AlertRule>, rule: AlertRule, servers: seq<Server>, tables: Tables, now: Instant,
                         fmt: Formatting, deliver: Notification -> bool, prev: PassResult, idx0: seq<nat>)
    returns (idx: seq<nat>)
    requires AttemptIndex(init, servers, tables, now, fmt, deliver, prev, idx0)
    ensures AttemptIndex(init + [rule], servers, tables, now, fmt, deliver,
                         Next(prev, rule, servers, tables, now, fmt, deliver), idx)
  {
    var own := StepAttempt(prev, rule, servers, tables, now, fmt, deliver);
    idx := if own != [] then idx0 + [|init|] else idx0;
    StepAttemptsOrigin(init, rule, servers, tables, now, fmt, deliver, prev, idx0, idx);
    StepChangesDelivered(init, rule, servers, tables, now, fmt, deliver, prev, idx0, idx);
  }

  /** After one rule's step, every attempt is still what its rule's evaluation gave. */
  lemma StepAttemptsOrigin(init: seq<AlertRule>, rule: AlertRule, servers: seq<Server>, tables: Tables, now: Instant,
                           fmt: Formatting, deliver: Notification -> bool, prev: PassResult, idx0: seq<nat>, idx: seq<nat>)
    requires AttemptIndex(init, servers, tables, now, fmt, deliver, prev, idx0)
    requires idx == if StepAttempt(prev, rule, servers, tables, now, fmt, deliver) != [] then idx0 + [|init|] else idx0
    ensures var rules, p := init + [rule], Next(prev, rule, servers, tables, now, fmt, deliver);
      |p.rules| == |rules| && |idx| == |p.attempts|
      && (forall j, k :: 0 <= j < k < |idx| ==> idx[j] < idx[k])
      && (forall j :: 0 <= j < |idx| ==>
            idx[j] < |rules| && p.attempts[j].ruleId == rules[idx[j]].id
            && EvaluateRule(rules[idx[j]], servers, tables, now, fmt, deliver) == Success(Some(p.attempts[j]))
            && (p.attempts[j].delivered ==> p.rules[idx[j]] == rules[idx[j]].(lastTriggeredAt := Some(now))))
  {
    var rules := init + [rule];
    var n := |init|;
    var p := Next(prev, rule, servers, tables, now, fmt, deliver);
    var a := EvaluateRule(rule, servers, tables, now, fmt, deliver);
    assert p.rules == prev.rules + [if prev.error.None? && a.Success? then Stamped(rule, a.value, now) else rule];
    assert p.attempts == prev.attempts + StepAttempt(prev, rule, servers, tables, now, fmt, deliver);
    forall j | 0 <= j < |idx|
      ensures idx[j] < |rules| && p.attempts[j].ruleId == rules[idx[j]].id
          && EvaluateRule(rules[idx[j]], servers, tables, now, fmt, deliver) == Success(Some(p.attempts[j]))
          && (p.attempts[j].delivered ==> p.rules[idx[j]] == rules[idx[j]].(lastTriggeredAt := Some(now)))
    {
      if j < |idx0| {
        assert idx[j] == idx0[j] && p.attempts[j] == prev.attempts[j];
        assert rules[idx0[j]] == init[idx0[j]] && p.rules[idx0[j]] == prev.rules[idx0[j]];
      } else {
        assert idx[j] == n && rules[n] == rule;
      }
    }
  }

  /** After one rule's step, a rule that changed still owes it to a delivered attempt. */
  lemma StepChangesDelivered(init: seq<AlertRule>, rule: AlertRule, servers: seq<Server>, tables: Tables, now: Instant,
                             fmt: Formatting, deliver: Notification -> bool, prev: PassResult, idx0: seq<nat>, idx: seq<nat>)
    requires AttemptIndex(init, servers, tables, now, fmt, deliver, prev, idx0)
    requires idx == if StepAttempt(prev, rule, servers, tables, now, fmt, deliver) != [] then idx0 + [|init|] else idx0
    ensures var rules, p := init + [rule], Next(prev, rule, servers, tables, now, fmt, deliver);
      forall i :: 0 <= i < |rules| && i < |p.rules| && p.rules[i] != rules[i] ==>
        exists j :: 0 <= j < |idx| && j < |p.attempts| && idx[j] == i && p.attempts[j].delivered
  {
    var rules := init + [rule];
    var n := |init|;
    var p := Next(prev, rule, servers, tables, now, fmt, deliver);
    var a := EvaluateRule(rule, servers, tables, now, fmt, deliver);
    assert p.rules == prev.rules + [if prev.error.None? && a.Success? then Stamped(rule, a.value, now) else rule];
    assert p.attempts == prev.attempts + StepAttempt(prev, rule, servers, tables, now, fmt, deliver);
    forall i | 0 <= i < |rules| && i < |p.rules| && p.rules[i] != rules[i]
      ensures exists j :: 0 <= j < |idx| && j < |p.attempts| && idx[j] == i && p.attempts[j].delivered
    {
      if i < n {
        assert rules[i] == init[i] && p.rules[i] == prev.rules[i];
        var j :| 0 <= j < |idx0| && idx0[j] == i && prev.attempts[j].delivered;
        assert idx[j] == idx0[j] && p.attempts[j] == prev.attempts[j];
      } else {
        assert idx[|idx0|] == n && p.attempts[|idx0|] == a.value.value;
      }
    }
  }

  /**
   * The attempts of a pass come one per attempted rule, in rule order, each
   * carrying its rule's id; a rule whose stamp changed was delivered an attempt.
   */
  lemma {:induction false} PassAttempts(rules: seq<AlertRule>, servers: seq<Server>, tables: Tables, now: Instant,
                                        fmt: Formatting, deliver: Notification -> bool)
    ensures exists idx :: AttemptIndex(rules, servers, tables, now, fmt, deliver,
                                       Pass(rules, servers, tables, now, fmt, deliver), idx)
    decreases |rules|
  {
    if rules == [] {
      assert AttemptIndex(rules, servers, tables, now, fmt, deliver, Pass(rules, servers, tables, now, fmt, deliver), []);
    } else {
      var n := |rules| - 1;
      var init := rules[..n];
      PassAttempts(init, servers, tables, now, fmt, deliver);
      var prev := Pass(init, servers, tables, now, fmt, deliver);
      var idx0 :| AttemptIndex(init, servers, tables, now, fmt, deliver, prev, idx0);
      assert init + [rules[n]] == rules;
      var idx := AttemptIndexStep(init, rules[n], servers, tables, now, fmt, deliver, prev, idx0);
      assert Pass(rules, servers, tables, now, fmt, deliver) == Next(prev, rules[n], servers, tables, now, fmt, deliver);
      assert AttemptIndex(rules, servers, tables, now, fmt, deliver, Pass(rules, servers, tables, now, fmt, deliver), idx);
    }
  }

  /** The attempts the rules send when each is evaluated on its own, in rule order. */
  function SentBy(rules: seq<AlertRule>, servers: seq<Server>, tables: Tables, now: Instant,
                  fmt: Formatting, deliver: Notification -> bool): seq<Attempt>
    decreases |rules|
  {
    if rules == [] then []
    else
      var a := EvaluateRule(rules[|rules| - 1], servers, tables, now, fmt, deliver);
      SentBy(rules[..|rules| - 1], servers, tables, now, fmt, deliver)
      + (if a.Success? && a.value.Some? then [a.value.value] else [])
  }

  /** The first `k` rules were evaluated without raising and left as their evaluation stamps them; the rest are as they were. */
  ghost predicate EvaluatedUpTo(rules: seq<AlertRule>, servers: seq<Server>, tables: Tables, now: Instant,
                                fmt: Formatting, deliver: Notification -> bool, after: seq<AlertRule>, k: nat)
  {
    k <= |rules| && |after| == |rules|
    && (forall i :: 0 <= i < k ==>
          EvaluateRule(rules[i], servers, tables, now, fmt, deliver).Success?
          && after[i] == Stamped(rules[i], EvaluateRule(rules[i], servers, tables, now, fmt, deliver).value, now))
    && (forall i :: k <= i < |rules| ==> after[i] == rules[i])
  }

  /** Appending a rule left as it was keeps the prefix evaluated. */
  lemma EvaluatedKeep(init: seq<AlertRule>, rule: AlertRule, servers: seq<Server>, tables: Tables, now: Instant,
                      fmt: Formatting, deliver: Notification -> bool, prev: seq<AlertRule>, k: nat)
    requires EvaluatedUpTo(init, servers, tables, now, fmt, deliver, prev, k)
    ensures EvaluatedUpTo(init + [rule], servers, tables, now, fmt, deliver, prev + [rule], k)
  {
    var rules, after := init + [rule], prev + [rule];
    assert forall i :: 0 <= i < |init| ==> rules[i] == init[i] && after[i] == prev[i];
  }

  /** Appending a rule that evaluated without raising, stamped accordingly, extends the evaluated prefix. */
  lemma EvaluatedGrow(init: seq<AlertRule>, rule: AlertRule, servers: seq<Server>, tables: Tables, now: Instant,
                      fmt: Formatting, deliver: Notification -> bool, prev: seq<AlertRule>, a: Option<Attempt>)
    requires EvaluatedUpTo(init, servers, tables, now, fmt, deliver, prev, |init|)
    requires EvaluateRule(rule, servers, tables, now, fmt, deliver) == Success(a)
    ensures EvaluatedUpTo(init + [rule], servers, tables, now, fmt, deliver, prev + [Stamped(rule, a, now)], |init| + 1)
  {
    var rules, after := init + [rule], prev + [Stamped(rule, a, now)];
    assert forall i :: 0 <= i < |init| ==> rules[i] == init[i] && after[i] == prev[i];
  }

  /**
   * What a pass does, rule by rule. Without an error every rule was evaluated,
   * stamped exactly when its notification was delivered, and every attempt
   * the rules give was sent, in rule order. With an error, the first rule
   * whose check raised gave it: the rules before it were handled so, that
   * rule and those after it are as they were, and only the rules before it sent.
   */
  ghost predicate PassDone(rules: seq<AlertRule>, servers: seq<Server>, tables: Tables, now: Instant,
                           fmt: Formatting, deliver: Notification -> bool, p: PassResult)
  {
    (p.error.None? ==>
       EvaluatedUpTo(rules, servers, tables, now, fmt, deliver, p.rules, |rules|)
       && p.attempts == SentBy(rules, servers, tables, now, fmt, deliver))
    && (p.error.Some? ==>
          exists k :: 0 <= k < |rules|
            && EvaluateRule(rules[k], servers, tables, now, fmt, deliver) == Failure(p.error.value)
            && EvaluatedUpTo(rules, servers, tables, now, fmt, deliver, p.rules, k)
            && p.attempts == SentBy(rules[..k], servers, tables, now, fmt, deliver))
  }

  /** After an earlier error, one more rule keeps the description of the pass. */
  lemma DoneAfterError(init: seq<AlertRule>, rule: AlertRule, servers: seq<Server>, tables: Tables, now: Instant,
                       fmt: Formatting, deliver: Notification -> bool, prev: PassResult)
    requires prev.error.Some? && PassDone(init, servers, tables, now, fmt, deliver, prev)
    ensures PassDone(init + [rule], servers, tables, now, fmt, deliver, Next(prev, rule, servers, tables, now, fmt, deliver))
  {
    var rules := init + [rule];
    var k :| 0 <= k < |init|
      && EvaluateRule(init[k], servers, tables, now, fmt, deliver) == Failure(prev.error.value)
      && EvaluatedUpTo(init, servers, tables, now, fmt, deliver, prev.rules, k)
      && prev.attempts == SentBy(init[..k], servers, tables, now, fmt, deliver);
    EvaluatedKeep(init, rule, servers, tables, now, fmt, deliver, prev.rules, k);
    assert init[k] == rules[k] && init[..k] == rules[..k];
  }

  /** A rule whose check raises, reached without an earlier error, ends the pass with its error. */
  lemma DoneAtError(init: seq<AlertRule>, rule: AlertRule, servers: seq<Server>, tables: Tables, now: Instant,
                    fmt: Formatting, deliver: Notification -> bool, prev: PassResult)
    requires prev.error.None? && PassDone(init, servers, tables, now, fmt, deliver, prev)
    requires EvaluateRule(rule, servers, tables, now, fmt, deliver).Failure?
    ensures PassDone(init + [rule], servers, tables, now, fmt, deliver, Next(prev, rule, servers, tables, now, fmt, deliver))
  {
    var rules := init + [rule];
    EvaluatedKeep(init, rule, servers, tables, now, fmt, deliver, prev.rules, |init|);
    assert rules[|init|] == rule && rules[..|init|] == init;
  }

  /** A rule evaluated without raising, reached without an earlier error, is stamped by its outcome and sends its attempt. */
  lemma DoneEvaluated(init: seq<AlertRule>, rule: AlertRule, servers: seq<Server>, tables: Tables, now: Instant,
                      fmt: Formatting, deliver: Notification -> bool, prev: PassResult)
    requires prev.error.None? && PassDone(init, servers, tables, now, fmt, deliver, prev)
    requires EvaluateRule(rule, servers, tables, now, fmt, deliver).Success?
    ensures PassDone(init + [rule], servers, tables, now, fmt, deliver, Next(prev, rule, servers, tables, now, fmt, deliver))
  {
    var rules := init + [rule];
    var a := EvaluateRule(rule, servers, tables, now, fmt, deliver);
    EvaluatedGrow(init, rule, servers, tables, now, fmt, deliver, prev.rules, a.value);
    assert rules[..|rules| - 1] == init && rules[|rules| - 1] == rule;
  }

  /** `PassDone` describes every pass. */
  lemma {:induction false} PassComplete(rules: seq<AlertRule>, servers: seq<Server>, tables: Tables, now: Instant,
                                        fmt: Formatting, deliver: Notification -> bool)
    ensures PassDone(rules, servers, tables, now, fmt, deliver, Pass(rules, servers, tables, now, fmt, deliver))
    decreases |rules|
  {
    if rules == [] {
      assert EvaluatedUpTo(rules, servers, tables, now, fmt, deliver, [], 0);
    } else {
      var n := |rules| - 1;
      var init := rules[..n];
      assert init + [rules[n]] == rules;
      PassComplete(init, servers, tables, now, fmt, deliver);
      var prev := Pass(init, servers, tables, now, fmt, deliver);
      assert Pass(rules, servers, tables, now, fmt, deliver) == Next(prev, rules[n], servers, tables, now, fmt, deliver);
      if prev.error.Some? {
        DoneAfterError(init, rules[n], servers, tables, now, fmt, deliver, prev);
      } else if EvaluateRule(rules[n], servers, tables, now, fmt, deliver).Failure? {
        DoneAtError(init, rules[n], servers, tables, now, fmt, deliver, prev);
      } else {
        DoneEvaluated(init, rules[n], servers, tables, now, fmt, deliver, prev);
      }
    }
  }

  /** The rule table the evaluator updates in place. */
  class AlertTable {
    var rules: seq<AlertRule>

    constructor (initial: seq<AlertRule>)
      ensures rules == initial
    {
      rules := initial;
    }

    /** `check_and_notify`: one pass over the rules at time `now`. */
    method CheckAndNotify(servers: seq<Server>, tables: Tables, now: Instant, fmt: Formatting, deliver: Notification -> bool)
      returns (attempts: seq<Attempt>, error: Option<string>)
      modifies this
      ensures PassResult(rules, attempts, error) == Pass(old(rules), servers, tables, now, fmt, deliver)
    {
      attempts := [];
      error := None;
      var i := 0;
      while i < |rules| && error.None?
        invariant 0 <= i <= |rules| == |old(rules)|
        invariant Pass(old(rules)[..i], servers, tables, now, fmt, deliver) == PassResult(rules[..i], attempts, error)
        invariant rules[i..] == old(rules)[i..]
      {
        attempts, error := AdvancePass(old(rules), i, servers, tables, now, fmt, deliver, attempts);
        i := i + 1;
      }
      PassFinished(old(rules), i, servers, tables, now, fmt, deliver, rules, attempts, error);
    }

    /** The loop body of `check_and_notify` for rule `i`: the pass so far grows by that rule's step. */
    method AdvancePass(ghost initial: seq<AlertRule>, i: nat, servers: seq<Server>, tables: Tables, now: Instant,
                       fmt: Formatting, deliver: Notification -> bool, attempts: seq<Attempt>)
      returns (attempts': seq<Attempt>, error: Option<string>)
      requires i < |rules| == |initial|
      requires Pass(initial[..i], servers, tables, now, fmt, deliver) == PassResult(rules[..i], attempts, None)
      requires rules[i..] == initial[i..]
      modifies this
      ensures |rules| == |initial|
      ensures Pass(initial[..i + 1], servers, tables, now, fmt, deliver) == PassResult(rules[..i + 1], attempts', error)
      ensures rules[i + 1..] == initial[i + 1..]
    {
      ghost var before := rules;
      ghost var done := rules[..i];
      assert before[i] == before[i..][0] == initial[i..][0] == initial[i];
      assert before[i + 1..] == initial[i + 1..] by {
        assert before[i + 1..] == before[i..][1..];
        assert initial[i + 1..] == initial[i..][1..];
      }
      var r := RunRule(i, servers, tables, now, fmt, deliver);
      if r.Failure? {
        error := Some(r.error);
        attempts' := attempts;
        PassStepFailure(initial, i, servers, tables, now, fmt, deliver, done, attempts, r.error);
        UpdateSlices(before, i, initial[i]);
      } else {
        error := None;
        attempts' := attempts + (if r.value.Some? then [r.value.value] else []);
        PassStepSuccess(initial, i, servers, tables, now, fmt, deliver, done, attempts, r.value);
        UpdateSlices(before, i, Stamped(initial[i], r.value, now));
      }
    }

    /** One rule of the pass: its checks, and the notification if some server went over the threshold. */
    method RunRule(i: nat, servers: seq<Server>, tables: Tables, now: Instant, fmt: Formatting, deliver: Notification -> bool)
      returns (r: Result<Option<Attempt>>)
      requires i < |rules|
      modifies this
      ensures r == EvaluateRule(old(rules)[i], servers, tables, now, fmt, deliver)
      ensures r.Success? ==> rules == old(rules)[i := Stamped(old(rules)[i], r.value, now)]
      ensures r.Failure? ==> rules == old(rules)
    {
      var rule := rules[i];
      if !rule.enabled || InCooldown(rule, now) {
        return Success(None);
      }
      var triggered := CollectTriggered(TargetServers(rule, servers), rule.metric, rule.threshold, tables);
      if triggered.Failure? {
        return Failure(triggered.error);
      }
      if triggered.value == [] {
        return Success(None);
      }
      var attempt := SendAlert(i, triggered.value, now, fmt, deliver);
      return Success(Some(attempt));
    }

    /** `_send_alert`: builds the digest, hands it to delivery, and stamps the rule only if it went out. */
    method SendAlert(i: nat, ts: seq<TriggeredServer>, now: Instant, fmt: Formatting, deliver: Notification -> bool)
      returns (attempt: Attempt)
      requires i < |rules|
      modifies this
      ensures attempt == Attempt(old(rules)[i].id, Compose(old(rules)[i], ts, fmt), deliver(Compose(old(rules)[i], ts, fmt)))
      ensures rules == old(rules)[i := Stamped(old(rules)[i], Some(attempt), now)]
    {
      var rule := rules[i];
      var lines := BuildDigest(rule, ts, fmt);
      var note := Notification("⚠️ " + rule.name, Join(lines, "\n"), rule.barkUrl, rule.barkSound);
      var delivered := deliver(note);
      attempt := Attempt(rule.id, note, delivered);
      if delivered {
        rules := rules[i := rule.(lastTriggeredAt := Some(now))];
      }
    }
  }

  /** The servers over the threshold, checked one target at a time. */
  method CollectTriggered(targets: seq<Server>, metric: MetricType, threshold: real, tables: Tables)
    returns (r: Result<seq<TriggeredServer>>)
    ensures r == Triggered(targets, metric, threshold, tables)
  {
    var ts := [];
    var i := 0;
    while i < |targets|
      invariant 0 <= i <= |targets|
      invariant Triggered(targets[..i], metric, threshold, tables) == Success(ts)
    {
      assert targets[..i + 1][..i] == targets[..i];
      var c := CheckMetric(targets[i], metric, threshold, tables);
      if c.Failure? {
        TriggeredFailurePersists(targets, i + 1, metric, threshold, tables);
        return Failure(c.error);
      }
      if c.value.exceeded {
        ts := ts + [TriggeredServer(targets[i].name, c.value.value)];
      }
      i := i + 1;
    }
    assert targets[..|targets|] == targets;
    return Success(ts);
  }

  /** Once a check has raised, the checks after it do not change the outcome. */
  lemma {:induction false} TriggeredFailurePersists(targets: seq<Server>, k: nat, metric: MetricType, threshold: real, tables: Tables)
    requires k <= |targets|
    requires Triggered(targets[..k], metric, threshold, tables).Failure?
    ensures Triggered(targets, metric, threshold, tables) == Triggered(targets[..k], metric, threshold, tables)
    decreases |targets| - k
  {
    if k == |targets| {
      assert targets[..k] == targets;
    } else {
      assert targets[..k + 1][..k] == targets[..k];
      TriggeredFailurePersists(targets, k + 1, metric, threshold, tables);
    }
  }

  /** The digest lines of `_send_alert`, appended one at a time. */
  method BuildDigest(rule: AlertRule, ts: seq<TriggeredServer>, fmt: Formatting) returns (lines: seq<string>)
    ensures lines == DigestLines(rule, ts, fmt)
  {
    lines := [Header(rule, fmt)];
    var shown := if |ts| <= MAX_LISTED then ts else ts[..MAX_LISTED];
    var j := 0;
    while j < |shown|
      invariant 0 <= j <= |shown|
      invariant lines == [Header(rule, fmt)] + ServerLines(shown[..j], fmt)
    {
      assert ServerLines(shown[..j + 1], fmt) == ServerLines(shown[..j], fmt) + [ServerLine(shown[j], fmt)];
      lines := lines + [ServerLine(shown[j], fmt)];
      j := j + 1;
    }
    assert shown[..|shown|] == shown;
    if |ts| > MAX_LISTED {
      lines := lines + [OverflowLine(|ts|)];
    }
  }
}
