/**
 The kernel's side of a bridge port: the lock and MAB flags, the forwarding database with its learning and
 ageing, and the notices it queues for the authenticator.
 */
module WiredKernel {
  type Mac = nat

  /** The requests of the driver. All of them are acknowledged. */
  datatype Call =
    | SetLocked(locked: bool, mab: bool)
    | AddNeigh(mac: Mac)
    | DelNeigh(mac: Mac)
    | Flush
    | SetUp(up: bool)

  /** Entries that one operation removes are told of in no particular order. */
  datatype Notice =
    | Learned(mac: Mac, locked: bool)
    | Gone(macs: set<Mac>)

  /** The database says of each address whether its entry is locked. */
  datatype Kernel = Kernel(up: bool, locked: bool, mab: bool, fdb: map<Mac, bool>, queue: seq<Notice>)
  {
    /** Frames with this source address get through the port. */
    predicate Passes(m: Mac) {
      !locked || Opened(m)
    }

    predicate Opened(m: Mac) {
      m in fdb && !fdb[m]
    }
  }

  function LockedOnes(fdb: map<Mac, bool>): set<Mac> {
    set m <- fdb | fdb[m]
  }

  function Without(k: Kernel, macs: set<Mac>): Kernel {
    k.(fdb := k.fdb - macs, queue := k.queue + [Gone(macs)])
  }

  /** Turning the MAB flag off drops the locked entries. */
  function Exec(k: Kernel, c: Call): Kernel {
    match c
    case SetLocked(locked, mab) =>
      var k' := k.(locked := locked, mab := mab);
      if k.mab && !mab then Without(k', LockedOnes(k.fdb)) else k'
    case AddNeigh(m) => k.(fdb := k.fdb[m := false], queue := k.queue + [Learned(m, false)])
    case DelNeigh(m) => if m in k.fdb then Without(k, {m}) else k
    case Flush => Without(k, k.fdb.Keys)
    case SetUp(up) => k.(up := up)
  }

  /** A frame arrives: unlocked ports learn its source, MAB ports learn it as locked. */
  function Learn(k: Kernel, m: Mac): Kernel {
    if m in k.fdb || (k.locked && !k.mab) then k
    else k.(fdb := k.fdb[m := k.locked], queue := k.queue + [Learned(m, k.locked)])
  }

  function Age(k: Kernel, m: Mac): Kernel {
    if m in k.fdb then Without(k, {m}) else k
  }
}
