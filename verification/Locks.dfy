/** A file lock (locking/locks.go). */
module Locks {
  import opened Options

  /** A lock without an owner has None; a time of zero is Go's zero time. */
  datatype Lock = Lock(id: string, path: string, owner: Option<string>, lockedAt: nat)
}
