/**
 The whole stack: the transceiver driver in word mode, each of its transactions carried out by the SMBus master
 of the FPGA, on a bus with a paged slave.
 */
module SffOverSmbus {
  import opened Common
  import opened SffMemory
  import opened SffImage
  import opened SffDriver
  import SmbusFpga
  import SmbusDriver

  /** A channel with a transceiver, on hardware that does as it is told. */
  ghost predicate Ready(bus: SmbusDriver.PciDevice, ch: nat)
    reads bus
  {
    && bus.Valid() && bus.obliging && SmbusFpga.Transfers(bus.ops)
    && ch < SmbusFpga.CHANNELS && bus.sem[ch] > 0
    && bus.hw[ch].link.mem.Paged? && bus.hw[ch].link.addr < 128
  }

  /** A range that a transfer carries out completely, whatever bytes it writes. */
  predicate Reachable(m: Memory, off: nat, len: nat)
    requires m.Shape()
  {
    off + len <= UNPAGED_SIZE || (PAGEABLE_REG < off && off + len <= EEPROM_SIZE && Pageable(m))
  }

  lemma StaysReachable(m0: Memory, m1: Memory, off: nat, data: seq<Byte>)
    requires m0.Shape() && m1.Shape() && Reachable(m0, off, |data|)
    requires Flat(m1) == Splice(Flat(m0), off, data)
    ensures Reachable(m1, off, |data|)
  {
    if off + |data| > UNPAGED_SIZE {
      SpliceAt(Flat(m0), off, data, PAGEABLE_REG);
      assert Flat(m1)[PAGEABLE_REG] == FlatAt(m1, PAGEABLE_REG) && Flat(m0)[PAGEABLE_REG] == FlatAt(m0, PAGEABLE_REG);
    }
  }

  lemma GrantedWhole(m: Memory, off: nat, len: nat)
    requires m.Shape() && Reachable(m, off, len) && len > 0
    ensures Grants(off, len) && Granted(m, off, len) == len
  {}

  /**
   Bytes written through the file and read back through it, over the bus: they come back, the slave's image has
   changed in their range only, and no other channel has noticed.
   */
  method WriteAndReadBack(bus: SmbusDriver.PciDevice, ch: nat, data: array<Byte>, off: nat, back: array<Byte>)
    requires Ready(bus, ch) && data != back && data.Length == back.Length && off + data.Length <= IMAGE_SIZE
    requires bus.hw[ch].link.mem.memory.Page() == 0 && Clean(off, data[..])
    requires Reachable(bus.hw[ch].link.mem.memory, off, data.Length)
    modifies bus, back
    ensures Ready(bus, ch) && bus.sem == old(bus.sem)
    ensures forall c :: 0 <= c < SmbusFpga.CHANNELS && c != ch ==> bus.hw[c] == old(bus.hw[c])
    ensures back[..] == data[..]
    ensures Flat(bus.hw[ch].link.mem.memory) == Splice(Flat(old(bus.hw[ch].link.mem.memory)), off, data[..])
    ensures bus.hw[ch].link.mem.memory.Page() == 0
  {
    hide Outcome, Flat, Splice, Granted, Grants, Clean, Reachable;
    ghost var d := data[..];
    var port := new Port.Probe(bus, ch);
    var buf := new Byte[data.Length];
    forall i | 0 <= i < data.Length {
      buf[i] := data[i];
    }
    ghost var m0 := port.dev.Mem();
    assert buf[..] == d;
    if data.Length > 0 {
      GrantedWhole(m0, off, |d|);
    }
    var status, selectFailed, restoreFailed, wrapped := port.ReadWrite(buf, off, data.Length, WriteOp);
    ghost var m1, b := port.dev.Mem(), back[..];
    if data.Length > 0 {
      Wrote(off, m0, m1, d, buf[..]);
      StaysReachable(m0, m1, off, d);
      GrantedWhole(m1, off, |d|);
    } else {
      Nothing(off, m0, d);
    }
    status, selectFailed, restoreFailed, wrapped := port.ReadWrite(back, off, data.Length, ReadOp);
    if data.Length > 0 {
      BothDone(off, m0, m1, port.dev.Mem(), d, b, back[..]);
    }
  }

  lemma Wrote(off: nat, m0: Memory, m1: Memory, d: seq<Byte>, d': seq<Byte>)
    requires m0.Shape() && m0.Page() == 0 && Clean(off, d)
    requires Outcome(WriteOp, off, |d|, m0, m1, d, d', |d|, false)
    ensures Flat(m1) == Splice(Flat(m0), off, d) && m1.Page() == 0
    ensures d' == d
  {
    assert d[..|d|] == d;
    CleanLands(Flat(m0), off, d);
    CleanKeepsPage(off, |d|, m0, m1, d, |d|);
  }

  lemma BothDone(off: nat, m0: Memory, m1: Memory, m2: Memory, d: seq<Byte>, b: seq<Byte>, b': seq<Byte>)
    requires m0.Shape() && m0.Page() == 0 && Clean(off, d)
    requires |b| == |d|
    requires Outcome(WriteOp, off, |d|, m0, m1, d, d, |d|, false)
    requires Outcome(ReadOp, off, |d|, m1, m2, b, b', |d|, false)
    ensures m2 == m1 && b' == d
  {
    assert d[..|d|] == d;
    ReadBack(off, |d|, m0, m1, m2, d, b, b');
    assert Splice(b, 0, d) == d;
  }

  lemma Nothing(off: nat, m: Memory, d: seq<Byte>)
    requires m.Shape() && d == [] && off <= IMAGE_SIZE
    ensures Splice(Flat(m), off, d) == Flat(m)
  {}
}
