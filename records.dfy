/** The stored entities the collector writes and the dashboard and notifier read. */
module Records {
  import opened Wrappers

  /** A point in time, in microseconds (the resolution of `datetime`). */
  type Instant = int

  /** A configured host; `scanMounts` is the comma-separated allow-list text, if any. */
  datatype Server = Server(id: int, name: string, enabled: bool, scanMounts: Option<string>)

  /** One `disk_usages` row. */
  datatype DiskUsage = DiskUsage(
    serverId: int,
    device: string,
    filesystem: string,
    mountPoint: string,
    totalGb: real,
    usedGb: real,
    freeGb: real,
    usePercent: real,
    collectedAt: Instant)

  /** One `user_disk_usages` row. */
  datatype UserDiskUsage = UserDiskUsage(
    serverId: int,
    mountPoint: string,
    directory: string,
    owner: Option<string>,
    usedGb: real,
    collectedAt: Instant)

  /** The server with the given id (`query(Server).filter(Server.id == id).first()`). */
  function FindServer(servers: seq<Server>, id: int): (found: Option<Server>)
    ensures found.Some? ==> found.value in servers && found.value.id == id
    ensures found.None? ==> forall i :: 0 <= i < |servers| ==> servers[i].id != id
    decreases |servers|
  {
    if servers == [] then None
    else if servers[0].id == id then Some(servers[0])
    else FindServer(servers[1..], id)
  }
}
