/**
 One channel of the FPGA: an I2C master driven through its registers, and the slave on its bus. The
 master's commands become START, STOP and byte phases on the bus (section 3.1 of UM10204).
 */
module SmbusLink {
  import opened Common
  import opened SffMemory

  const MEM_SIZE := 256

  /** A slave: plain memory, or a transceiver whose upper half shows the page that its lower half selects. */
  datatype Slave = Plain(bytes: seq<Byte>) | Paged(memory: Memory)
  {
    ghost predicate Shape() {
      match this
      case Plain(bytes) => |bytes| == MEM_SIZE
      case Paged(memory) => memory.Shape()
    }
  }

  function LoadByte(s: Slave, a: Byte): Byte
    requires s.Shape()
  {
    match s
    case Plain(bytes) => bytes[a]
    case Paged(memory) => Peek(memory, a)
  }

  function StoreByte(s: Slave, a: Byte, b: Byte): (r: Slave)
    requires s.Shape()
    ensures r.Shape() && (r.Paged? <==> s.Paged?)
  {
    match s
    case Plain(bytes) => Plain(bytes[a := b])
    case Paged(memory) => Paged(Poke(memory, a, [b]))
  }

  datatype Event =
    | Start
    | Stop
    | Sent(byte: Byte, acked: bool)      // by the master, acknowledged by the slave
    | Received(byte: Byte, acked: bool)  // by the master, and acknowledged by it

  /** What the slave takes the next byte for. */
  datatype Phase = Idle | Address | Offset | Writing | Reading

  /** The slave, the bus so far, and what the master knows of it: the last acknowledge, byte and bus state. */
  datatype Link = Link(
    addr: nat, mem: Slave, ptr: Byte, phase: Phase,
    trace: seq<Event>, nack: bool, rx: Byte, busy: bool)
  {
    ghost predicate Shape() {
      mem.Shape()
    }
  }

  function Next(ptr: Byte): Byte {
    (ptr + 1) % MEM_SIZE
  }

  // -------------------------------------------------------------------------
  // Bus phases
  // -------------------------------------------------------------------------

  function DoStart(l: Link): Link {
    l.(trace := l.trace + [Start], phase := Address, busy := true)
  }

  function DoStop(l: Link): Link {
    l.(trace := l.trace + [Stop], phase := Idle, busy := false)
  }

  /** The slave takes the byte if it is addressed and willing; otherwise it leaves the conversation. */
  function DoSend(l: Link, b: Byte, willing: bool): (r: Link)
    requires l.Shape()
    ensures r.Shape() && r.addr == l.addr
  {
    var taken := willing && match l.phase
                            case Address => b / 2 == l.addr
                            case Offset | Writing => true
                            case _ => false;
    var l' := l.(trace := l.trace + [Sent(b, taken)], nack := !taken);
    if !taken then l'.(phase := Idle)
    else match l.phase
      case Address => l'.(phase := if b % 2 == 0 then Offset else Reading)
      case Offset => l'.(phase := Writing, ptr := b)
      case Writing => l'.(mem := StoreByte(l.mem, l.ptr, b), ptr := Next(l.ptr))
      case _ => l'
  }

  /** Nobody drives an unanswered read, which then yields ones. */
  function DoReceive(l: Link, ack: bool): (r: Link)
    requires l.Shape()
    ensures r.Shape() && r.addr == l.addr
  {
    var b: Byte := if l.phase == Reading then LoadByte(l.mem, l.ptr) else 0xFF;
    l.(trace := l.trace + [Received(b, ack)], rx := b, nack := !ack,
       ptr := if l.phase == Reading then Next(l.ptr) else l.ptr,
       phase := if ack then l.phase else Idle)
  }

  // -------------------------------------------------------------------------
  // Commands
  // -------------------------------------------------------------------------

  function Bit(v: nat, mask: nat): bool
    requires mask > 0
  {
    v / mask % 2 == 1
  }

  const START_WRITE := 0x90
  const ENABLE_WRITE := 0x10
  const READ := 0x20
  const ACK_STOP_READ := 0x68
  const STOP := 0x40

  /** Writing the command register: START, then a byte either way, then STOP, as the bits say. */
  function Command(l: Link, txr: Byte, cmd: nat, willing: bool): (r: Link)
    requires l.Shape()
    ensures r.Shape() && r.addr == l.addr
  {
    var l1 := if Bit(cmd, 0x80) then DoStart(l) else l;
    var l2 := if Bit(cmd, 0x10) then DoSend(l1, txr, willing)
              else if Bit(cmd, 0x20) then DoReceive(l1, !Bit(cmd, 0x08))
              else l1;
    if Bit(cmd, 0x40) then DoStop(l2) else l2
  }

  lemma Commands(l: Link, txr: Byte, willing: bool)
    requires l.Shape()
    ensures Command(l, txr, START_WRITE, willing) == DoSend(DoStart(l), txr, willing)
    ensures Command(l, txr, ENABLE_WRITE, willing) == DoSend(l, txr, willing)
    ensures Command(l, txr, READ, willing) == DoReceive(l, true)
    ensures Command(l, txr, ACK_STOP_READ, willing) == DoStop(DoReceive(l, false))
    ensures Command(l, txr, STOP, willing) == DoStop(l)
  {}

  // -------------------------------------------------------------------------
  // What transfers look like on the bus and in the slave
  // -------------------------------------------------------------------------

  function AllSent(data: seq<Byte>): seq<Event> {
    if data == [] then [] else AllSent(data[..|data| - 1]) + [Sent(data[|data| - 1], true)]
  }

  function AllReceived(data: seq<Byte>): seq<Event> {
    if data == [] then [] else AllReceived(data[..|data| - 1]) + [Received(data[|data| - 1], true)]
  }

  /** START, addressed for writing, the memory offset, the data, STOP. */
  function WriteTrace(addr: nat, off: Byte, data: seq<Byte>): seq<Event>
    requires addr < 128
  {
    [Start, Sent(2 * addr, true), Sent(off, true)] + AllSent(data) + [Stop]
  }

  function ReadTail(data: seq<Byte>): seq<Event>
    requires |data| > 0
  {
    AllReceived(data[..|data| - 1]) + [Received(data[|data| - 1], false), Stop]
  }

  /** The offset is written, then after a repeated START the data is read; only the last byte is not acknowledged. */
  function ReadTrace(addr: nat, off: Byte, data: seq<Byte>): seq<Event>
    requires addr < 128 && |data| > 0
  {
    [Start, Sent(2 * addr, true), Sent(off, true), Start, Sent(2 * addr + 1, true)] + ReadTail(data)
  }

  /** Memory after bytes were stored from an offset on; the offset wraps at the end of the memory. */
  function StoreAll(mem: Slave, off: Byte, data: seq<Byte>): (r: Slave)
    requires mem.Shape()
    ensures r.Shape() && (r.Paged? <==> mem.Paged?)
  {
    if data == [] then mem
    else StoreByte(StoreAll(mem, off, data[..|data| - 1]), (off + |data| - 1) % MEM_SIZE, data[|data| - 1])
  }

  function LoadAll(mem: Slave, off: Byte, n: nat): (r: seq<Byte>)
    requires mem.Shape()
    ensures |r| == n
  {
    if n == 0 then [] else LoadAll(mem, off, n - 1) + [LoadByte(mem, (off + n - 1) % MEM_SIZE)]
  }

  lemma {:induction false} LoadAllAt(mem: Slave, off: Byte, n: nat)
    requires mem.Shape()
    ensures forall i: nat :: i < n ==> LoadAll(mem, off, n)[i] == LoadByte(mem, (off + i) % MEM_SIZE)
  {
    if n > 0 {
      LoadAllAt(mem, off, n - 1);
    }
  }

  // -------------------------------------------------------------------------
  // Plain memory
  // -------------------------------------------------------------------------

  /** A byte that a write of up to 256 bytes stored is the byte of the data; the others are as before. */
  lemma {:induction false} StoreAllAt(mem: seq<Byte>, off: Byte, data: seq<Byte>, a: Byte)
    requires |mem| == MEM_SIZE && |data| <= MEM_SIZE
    ensures StoreAll(Plain(mem), off, data).bytes[a] ==
            if (a - off) % MEM_SIZE < |data| then data[(a - off) % MEM_SIZE] else mem[a]
  {
    if data != [] {
      StoreAllAt(mem, off, data[..|data| - 1], a);
      Wraps(off, |data| - 1, a);
    }
  }

  lemma Wraps(off: Byte, i: nat, a: Byte)
    requires i < MEM_SIZE
    ensures (off + i) % MEM_SIZE == a <==> (a - off) % MEM_SIZE == i
  {}

  /** What a completed write stored is what a later read of the same range returns. */
  lemma LoadsWhatWasStored(mem: seq<Byte>, off: Byte, data: seq<Byte>)
    requires |mem| == MEM_SIZE && |data| <= MEM_SIZE
    ensures LoadAll(StoreAll(Plain(mem), off, data), off, |data|) == data
  {
    var stored := StoreAll(Plain(mem), off, data);
    LoadAllAt(stored, off, |data|);
    forall i: nat | i < |data| ensures LoadAll(stored, off, |data|)[i] == data[i] {
      StoreAllAt(mem, off, data, (off + i) % MEM_SIZE);
      Wraps(off, i, (off + i) % MEM_SIZE);
    }
  }

  // -------------------------------------------------------------------------
  // Transceivers
  // -------------------------------------------------------------------------

  /** Byte by byte within one half, the slave does what a whole transaction does. */
  lemma {:induction false} StoreAllPaged(m: Memory, off: Byte, data: seq<Byte>)
    requires m.Shape() && InHalf(off, |data|)
    ensures StoreAll(Paged(m), off, data) == Paged(Poke(m, off, data))
  {
    hide Poke;
    if data == [] {
      NothingPoked(m, off, data);
      assert data[..0] == data;
    } else {
      var n := |data| - 1;
      assert (off + n) % MEM_SIZE == off + n;
      StoreAllPaged(m, off, data[..n]);
      PokeTwice(m, off, data[..n], [data[n]]);
      assert data[..n] + [data[n]] == data;
    }
  }

  lemma LoadAllPaged(m: Memory, off: Byte, n: nat)
    requires m.Shape() && InHalf(off, n)
    ensures LoadAll(Paged(m), off, n) == Peeks(m, off, n)
  {
    hide Peek, Peeks;
    LoadAllAt(Paged(m), off, n);
    forall i: nat | i < n ensures LoadAll(Paged(m), off, n)[i] == Peeks(m, off, n)[i] {
      assert (off + i) % MEM_SIZE == off + i;
      PeeksAt(m, off, n, i);
    }
  }
}
