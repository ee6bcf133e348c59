/**
 The register file of the FPGA: one block of registers per channel, at strides of 0x20. An access is an
 operation that carries what the hardware chose, so that a log of operations determines the hardware.
 */
module SmbusFpga {
  import opened Common
  import opened SmbusLink

  const CHANNELS := 34

  const PRESCALE_LOW := 0x400
  const PRESCALE_HIGH := 0x404
  const CONTROLLER := 0x408
  const TRANSMIT_RECEIVE := 0x40C
  const COMMAND_STATUS := 0x410
  const STRIDE := 0x20

  const PRER_LO_DEFAULT := 0x7F
  const PRER_HI_DEFAULT := 0x00
  const CONTROL_ENABLE := 0x80
  const CONTROL_DISABLE := 0x00

  /** `delay` is the number of status reads until the last command shows as finished. */
  datatype Channel = Channel(lo: nat, hi: nat, ctl: nat, txr: Byte, link: Link, delay: nat)
  {
    ghost predicate Ready() {
      lo == PRER_LO_DEFAULT && hi == PRER_HI_DEFAULT && ctl == CONTROL_ENABLE
    }
  }

  type Hw = h: seq<Channel> | |h| == CHANNELS && forall c :: 0 <= c < CHANNELS ==> h[c].link.Shape()
    witness seq(CHANNELS, _ => Channel(0, 0, 0, 0, Link(0, Plain(seq(MEM_SIZE, _ => 0)), 0, Idle, [], false, 0, false), 0))

  datatype Op =
    | Down(ch: nat)
    | Up(ch: nat)
    | Wr(addr: nat, val: nat, willing: bool, delay: nat)  // the slave's willingness and the time it takes
    | Rd(addr: nat, val: nat)

  // -------------------------------------------------------------------------
  // Status register
  // -------------------------------------------------------------------------

  const BUSY_BIT := 0x40
  const TIP_BIT := 0x02
  const ACK_BIT := 0x80

  function Status(c: Channel): nat {
    if c.delay > 0 then BUSY_BIT + TIP_BIT
    else (if c.link.nack then ACK_BIT else 0) + (if c.link.busy then BUSY_BIT else 0)
  }

  lemma StatusBits(c: Channel)
    ensures Bit(Status(c), TIP_BIT) <==> c.delay > 0
    ensures c.delay == 0 ==> (Bit(Status(c), ACK_BIT) <==> c.link.nack)
    ensures c.delay == 0 ==> (Bit(Status(c), BUSY_BIT) <==> c.link.busy)
    ensures c.delay > 0 ==> Bit(Status(c), BUSY_BIT)
  {}

  // -------------------------------------------------------------------------
  // Accesses
  // -------------------------------------------------------------------------

  function ChannelOf(addr: nat): int {
    (addr - PRESCALE_LOW) / STRIDE
  }

  function RegisterOf(addr: nat): int {
    PRESCALE_LOW + (addr - PRESCALE_LOW) % STRIDE
  }

  /** Register blocks do not overlap: an address belongs to one register of one channel. */
  lemma Blocks(reg: nat, ch: nat)
    requires PRESCALE_LOW <= reg < PRESCALE_LOW + STRIDE
    ensures ChannelOf(reg + ch * STRIDE) == ch && RegisterOf(reg + ch * STRIDE) == reg
  {}

  function StepChannel(c: Channel, op: Op): (r: Channel)
    requires c.link.Shape()
    ensures r.link.Shape() && r.link.addr == c.link.addr
  {
    match op
    case Wr(addr, val, willing, delay) =>
      var reg := RegisterOf(addr);
      if reg == PRESCALE_LOW then c.(lo := val)
      else if reg == PRESCALE_HIGH then c.(hi := val)
      else if reg == CONTROLLER then c.(ctl := val)
      else if reg == TRANSMIT_RECEIVE then c.(txr := val % 256)
      else if reg == COMMAND_STATUS then c.(link := Command(c.link, c.txr, val, willing), delay := delay)
      else c
    case Rd(addr, _) =>
      if RegisterOf(addr) == COMMAND_STATUS && c.delay > 0 then c.(delay := c.delay - 1) else c
    case _ => c
  }

  /** The channel an operation is about. */
  function Target(op: Op): int {
    match op
    case Down(ch) => ch
    case Up(ch) => ch
    case Wr(addr, _, _, _) => ChannelOf(addr)
    case Rd(addr, _) => ChannelOf(addr)
  }

  function Apply(hw: Hw, op: Op): Hw {
    var c := Target(op);
    if 0 <= c < CHANNELS then hw[c := StepChannel(hw[c], op)] else hw
  }

  /** The hardware after a log of operations. */
  function Replay(hw: Hw, ops: seq<Op>): Hw {
    if ops == [] then hw else Apply(Replay(hw, ops[..|ops| - 1]), ops[|ops| - 1])
  }

  lemma ReplayOne(hw: Hw, ops: seq<Op>, op: Op)
    ensures Replay(hw, ops + [op]) == Apply(Replay(hw, ops), op)
  {
    assert (ops + [op])[..|ops|] == ops;
  }

  lemma SemaphoresAside(hw: Hw, ch: nat)
    ensures Apply(hw, Down(ch)) == hw && Apply(hw, Up(ch)) == hw
  {}

  // -------------------------------------------------------------------------
  // Logs
  // -------------------------------------------------------------------------

  /** Register accesses to one channel only. */
  ghost predicate Accesses(ops: seq<Op>, ch: nat) {
    forall i :: 0 <= i < |ops| ==> (ops[i].Wr? || ops[i].Rd?) && Target(ops[i]) == ch
  }

  /** The log has grown by accesses to this channel. */
  ghost predicate Grown(before: seq<Op>, after: seq<Op>, ch: nat) {
    |before| <= |after| && after[..|before|] == before && Accesses(after[|before|..], ch)
  }

  lemma GrownBy(before: seq<Op>, op: Op, ch: nat)
    requires op.Wr? || op.Rd?
    requires Target(op) == ch
    ensures Grown(before, before + [op], ch)
  {
    assert (before + [op])[|before|..] == [op];
  }

  lemma GrownTwice(a: seq<Op>, b: seq<Op>, c: seq<Op>, ch: nat)
    requires Grown(a, b, ch) && Grown(b, c, ch)
    ensures Grown(a, c, ch)
  {
    assert c[..|a|] == c[..|b|][..|a|];
    assert c[|a|..] == b[|a|..] + c[|b|..] by {
      assert c == b + c[|b|..];
    }
  }

  lemma Earlier(before: seq<Op>, after: seq<Op>, ch: nat, i: nat)
    requires Grown(before, after, ch) && i < |before|
    ensures i < |after| && after[i] == before[i]
  {
    assert after[..|before|][i] == after[i];
  }

  /** A transfer took the semaphore, worked on its channel alone, and gave the semaphore back once. */
  ghost predicate Transfer(before: seq<Op>, after: seq<Op>, ch: nat) {
    && |before| + 2 <= |after|
    && Grown(before + [Down(ch)], after[..|after| - 1], ch)
    && after[|after| - 1] == Up(ch)
  }

  /** What a thread does that only calls the driver: one clean transfer after another. */
  ghost predicate Transfers(ops: seq<Op>)
    decreases |ops|
  {
    ops == [] || exists before, ch: nat :: |before| < |ops| && Transfer(before, ops, ch) && Transfers(before)
  }

  lemma OneMoreTransfer(before: seq<Op>, after: seq<Op>, ch: nat)
    requires Transfers(before) && Transfer(before, after, ch)
    ensures Transfers(after)
  {}
}
