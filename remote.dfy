/**
 * The remote shell session, reduced to what the collector observes: each
 * command either completes with (stdout, stderr, exit code) or raises.
 */
module Remote {

  /** Outcome of `SSHClient.execute(command)`. */
  datatype Exec =
    | Completed(stdout: string, stderr: string, code: int)
    | Raised(reason: string)

  /** An open session: the answer the host gives to each command text. */
  datatype Session = Session(run: string -> Exec)

  /** Outcome of entering `with SSHClient(...)`: an open session, or the connection error's text. */
  datatype Connection =
    | Connected(session: Session)
    | Unreachable(reason: string)

  const DF_COMMAND: string := "df -hT"

  // The `du -s` listing of every entry under the mount, largest first.
  function DuCommand(mountPoint: string): string {
    "du -s " + mountPoint + "/*  2>/dev/null | sort -rn"
  }

  // The owner and path of every entry under the mount.
  function StatCommand(mountPoint: string): string {
    "stat -c '%U %n' " + mountPoint + "/*  2>/dev/null"
  }
}
