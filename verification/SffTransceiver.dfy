/**
 A transceiver as its driver sees it: single transactions, each of which may fail. It sits on a channel of the
 FPGA, whose SMBus master then carries out every transaction, or on some other adapter, which may do anything
 that transactions allow.
 */
module SffTransceiver {
  import opened Common
  import opened SffMemory
  import SmbusLink
  import SmbusFpga
  import SmbusDriver

  class Transceiver {
    const bus: SmbusDriver.PciDevice?
    const ch: nat
    const addr: nat
    const reliable: bool  // no transaction fails
    const atomic: bool    // a failing transaction has changed nothing
    var own: Memory
    ghost var log: seq<int>  // the status of every transaction so far

    ghost predicate OnBus()
      reads this, bus
    {
      bus != null ==> ch < SmbusFpga.CHANNELS && bus.hw[ch].link.mem.Paged?
    }

    ghost function Mem(): Memory
      requires OnBus()
      reads this, bus
    {
      if bus == null then own else bus.hw[ch].link.mem.memory
    }

    /** On the FPGA, status registers tell the truth, and what the threads did were whole transfers. */
    ghost predicate Valid()
      reads this, bus
    {
      && OnBus() && Mem().Shape()
      && (bus != null ==>
            && bus.Valid() && bus.honest && addr < 128 && !atomic && SmbusFpga.Transfers(bus.ops)
            && (reliable ==> bus.obliging && bus.hw[ch].link.addr == addr && bus.sem[ch] > 0))
    }

    /** Other channels are as they were, no semaphore is kept, and the channel keeps its settings. */
    twostate predicate OthersKept()
      requires OnBus() && old(OnBus())
      reads this, bus
    {
      bus != null ==>
        && bus.sem == old(bus.sem)
        && (forall c :: 0 <= c < SmbusFpga.CHANNELS && c != ch ==> bus.hw[c] == old(bus.hw[c]))
        && (old(bus.hw[ch].Ready()) ==> bus.hw[ch].Ready())
    }

    constructor (mem: Memory, reliable: bool, atomic: bool)
      requires mem.Shape()
      ensures Valid() && Mem() == mem && bus == null && this.reliable == reliable && this.atomic == atomic
    {
      bus, ch, addr := null, 0, 0;
      own, this.reliable, this.atomic := mem, reliable, atomic;
    }

    constructor OnChannel(bus: SmbusDriver.PciDevice, ch: nat)
      requires bus.Valid() && bus.honest && SmbusFpga.Transfers(bus.ops)
      requires ch < SmbusFpga.CHANNELS && bus.hw[ch].link.mem.Paged? && bus.hw[ch].link.addr < 128
      ensures Valid() && Mem() == bus.hw[ch].link.mem.memory && this.bus == bus && this.ch == ch
      ensures reliable <==> bus.obliging && bus.sem[ch] > 0
    {
      this.bus, this.ch, addr := bus, ch, bus.hw[ch].link.addr;
      reliable, atomic := bus.obliging && bus.sem[ch] > 0, false;
      own := bus.hw[ch].link.mem.memory;
    }

    /** Bytes read from consecutive addresses, or a status other than `n` and what arrived until then. */
    method Fetch(a: nat, n: nat) returns (status: int, data: seq<Byte>)
      requires Valid() && InHalf(a, n) && n > 0
      modifies this`log, bus
      ensures Valid() && OthersKept() && Mem() == old(Mem()) && log == old(log) + [status]
      ensures |data| <= n && (status == n ==> data == Peeks(Mem(), a, n))
      ensures bus != null ==> status == n || status < 0
      ensures reliable ==> status == n
    {
      data := *;
      status := *;
      if bus == null {
        if reliable || status == n {
          status, data := n, Peeks(own, a, n);
        } else if |data| > n {
          data := [];
        }
      } else {
        ghost var before := bus.ops;
        status, data := bus.SmbusRead(ch, addr, a, n);
        if bus.ops != before {
          SmbusFpga.OneMoreTransfer(before, bus.ops, ch);
        }
        if status == 0 {
          status := n;
          SmbusLink.LoadAllPaged(Mem(), a, n);
        } else {
          data := [];
        }
      }
      log := log + [status];
    }

    /** Bytes written to consecutive addresses, or a negative status after some of them. */
    method Store(a: nat, data: seq<Byte>) returns (status: int)
      requires Valid() && InHalf(a, |data|) && |data| > 0
      modifies this`own, this`log, bus
      ensures Valid() && OthersKept() && log == old(log) + [status]
      ensures status == 0 ==> Mem() == Poke(old(Mem()), a, data)
      ensures status != 0 ==> status < 0 && exists k: nat :: k <= |data| && Mem() == Poke(old(Mem()), a, data[..k])
      ensures status != 0 && atomic ==> Mem() == old(Mem())
      ensures reliable ==> status == 0
    {
      status := *;
      if bus == null {
        if reliable || status >= 0 {
          status := 0;
          own := Poke(own, a, data);
        } else if atomic {
          NothingPoked(own, a, data);
        } else {
          var k: int := *;
          k := if 0 <= k < |data| then k else |data|;
          own := Poke(own, a, data[..k]);
        }
      } else {
        ghost var before, mem0 := bus.ops, Mem();
        status := bus.SmbusWrite(ch, addr, a, data);
        if bus.ops != before {
          SmbusFpga.OneMoreTransfer(before, bus.ops, ch);
        }
        SmbusLink.StoreAllPaged(mem0, a, data);
        ghost var k: nat :| k <= |data| &&
          bus.hw[ch].link.mem == SmbusLink.StoreAll(SmbusLink.Paged(mem0), a, data[..k]);
        SmbusLink.StoreAllPaged(mem0, a, data[..k]);
      }
      log := log + [status];
    }
  }
}
