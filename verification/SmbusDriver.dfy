/**
 The SMBus master of the FPGA driver (fpga_driver.c): register programming with polling, two error exits
 that fall into each other, and a semaphore per channel.
 */
module SmbusDriver {
  import opened Common
  import opened SmbusLink
  import opened SmbusFpga

  const EINVAL := 22
  const EBUSY := 16
  const ETIMEDOUT := 110
  const ERESTARTSYS := 512

  /** How the register programming of a transfer ended: through, or at one of the two error labels. */
  datatype Step = Done | Busy | NoAck

  /** A transfer stored some first bytes of its data. */
  ghost predicate StoredPrefix(mem0: Slave, mem1: Slave, off: Byte, data: seq<Byte>)
    requires mem0.Shape()
  {
    exists k: nat :: k <= |data| && mem1 == StoreAll(mem0, off, data[..k])
  }

  ghost predicate Stopped(l: Link) {
    l.trace != [] && l.trace[|l.trace| - 1] == Stop
  }

  /** The last byte was refused, and then the bus was stopped. */
  ghost predicate Refused(l: Link) {
    |l.trace| >= 2 && l.trace[|l.trace| - 1] == Stop && RefusedByte(l.trace[..|l.trace| - 1])
  }

  ghost predicate RefusedByte(trace: seq<Event>) {
    trace != [] && trace[|trace| - 1].Sent? && !trace[|trace| - 1].acked
  }

  /** The values written to registers, in order. */
  ghost function RegisterWrites(ops: seq<Op>): seq<(nat, nat)> {
    if ops == [] then []
    else
      RegisterWrites(ops[..|ops| - 1]) +
      (if ops[|ops| - 1].Wr? then [(ops[|ops| - 1].addr, ops[|ops| - 1].val)] else [])
  }

  lemma RegisterWritesOne(ops: seq<Op>, op: Op)
    ensures RegisterWrites(ops + [op]) == RegisterWrites(ops) + (if op.Wr? then [(op.addr, op.val)] else [])
  {
    assert (ops + [op])[..|ops|] == ops;
  }

  class PciDevice {
    const maxRetry: nat
    const honest: bool    // the status and receive registers tell the truth
    const obliging: bool  // and slaves take every byte, commands end in time, and no signal interrupts

    var hw: Hw
    var sem: seq<nat>
    ghost const origin: Hw
    ghost var ops: seq<Op>
    ghost var polls: nat

    ghost predicate Valid()
      reads this
    {
      && |sem| == CHANNELS
      && hw == Replay(origin, ops)
      && (obliging ==> honest && maxRetry > 0)
    }

    /** The device after only this channel was worked on. */
    twostate predicate OnChannel(ch: nat)
      reads this
    {
      && ch < CHANNELS
      && sem == old(sem)
      && hw == old(hw)[ch := hw[ch]]
      && hw[ch].link.addr == old(hw)[ch].link.addr
      && Grown(old(ops), ops, ch)
    }

    twostate predicate SameSettings(ch: nat)
      requires ch < CHANNELS
      reads this
    {
      hw[ch].lo == old(hw[ch].lo) && hw[ch].hi == old(hw[ch].hi) && hw[ch].ctl == old(hw[ch].ctl)
    }

    twostate predicate Polled(times: nat)
      reads this
    {
      polls <= old(polls) + times * maxRetry
    }

    /** Some command, issued since, took longer than the driver waits. */
    ghost predicate Slow(since: nat)
      reads this
    {
      exists i :: since <= i < |ops| && ops[i].Wr? && ops[i].delay >= maxRetry
    }

    /** The last command has ended and the bus is free. */
    ghost predicate AtRest(ch: nat)
      requires ch < CHANNELS
      reads this
    {
      hw[ch].delay == 0 && !hw[ch].link.busy
    }

    // -----------------------------------------------------------------------
    // Register accesses and the semaphore
    // -----------------------------------------------------------------------

    method WriteRegister(reg: nat, ch: nat, val: nat) returns (ghost op: Op)
      requires Valid() && ch < CHANNELS && PRESCALE_LOW <= reg < PRESCALE_LOW + STRIDE
      modifies this
      ensures Valid() && OnChannel(ch) && polls == old(polls)
      ensures op.Wr? && RegisterOf(op.addr) == reg && op.addr == reg + ch * STRIDE && op.val == val
      ensures ops == old(ops) + [op] && RegisterWrites(ops) == RegisterWrites(old(ops)) + [(reg + ch * STRIDE, val)]
      ensures obliging ==> op.willing && op.delay < maxRetry
      ensures hw[ch] == StepChannel(old(hw[ch]), op)
    {
      hide Command, Replay, RegisterWrites;
      var willing := *;
      var delay: nat :| obliging ==> delay < maxRetry;
      op := Wr(reg + ch * STRIDE, val, willing || obliging, delay);
      Blocks(reg, ch);
      GrownBy(ops, op, ch);
      ReplayOne(origin, ops, op);
      RegisterWritesOne(ops, op);
      hw := hw[ch := StepChannel(hw[ch], Wr(reg + ch * STRIDE, val, willing || obliging, delay))];
      ops := ops + [op];
    }

    method ReadRegister(reg: nat, ch: nat) returns (val: nat)
      requires Valid() && ch < CHANNELS
      requires reg == COMMAND_STATUS || reg == TRANSMIT_RECEIVE
      modifies this
      ensures Valid() && OnChannel(ch) && polls == old(polls) + (if reg == COMMAND_STATUS then 1 else 0)
      ensures honest ==> val == if reg == COMMAND_STATUS then Status(old(hw[ch])) else hw[ch].link.rx
      ensures hw[ch] == old(hw[ch]).(delay := if reg == COMMAND_STATUS && old(hw[ch].delay) > 0
                                              then old(hw[ch].delay) - 1 else old(hw[ch].delay))
      ensures RegisterWrites(ops) == RegisterWrites(old(ops)) && |ops| == |old(ops)| + 1
    {
      hide Command, Replay, Status, RegisterWrites;
      val := *;
      if honest {
        val := if reg == COMMAND_STATUS then Status(hw[ch]) else hw[ch].link.rx;
      }
      ghost var op := Rd(reg + ch * STRIDE, val);
      Blocks(reg, ch);
      GrownBy(ops, op, ch);
      ReplayOne(origin, ops, op);
      RegisterWritesOne(ops, op);
      hw := hw[ch := StepChannel(hw[ch], Rd(reg + ch * STRIDE, val))];
      ops := ops + [op];
      if reg == COMMAND_STATUS {
        polls := polls + 1;
      }
    }

    /** Waiting on a taken semaphore ends only by a signal: this device has one thread of control. */
    method DownInterruptible(ch: nat) returns (ok: bool)
      requires Valid() && ch < CHANNELS
      modifies this
      ensures Valid() && hw == old(hw) && polls == old(polls)
      ensures if ok then old(sem[ch]) > 0 && sem == old(sem)[ch := old(sem[ch]) - 1] && ops == old(ops) + [Down(ch)]
              else sem == old(sem) && ops == old(ops)
      ensures obliging && old(sem[ch]) > 0 ==> ok
    {
      hide Apply, Replay;
      var signal := *;
      ok := sem[ch] > 0 && (obliging || !signal);
      ReplayOne(origin, ops, Down(ch));
      SemaphoresAside(hw, ch);
      if ok {
        sem := sem[ch := sem[ch] - 1];
        ops := ops + [Down(ch)];
      }
    }

    method Release(ch: nat)
      requires Valid() && ch < CHANNELS
      modifies this
      ensures Valid() && hw == old(hw) && polls == old(polls)
      ensures sem == old(sem)[ch := old(sem[ch]) + 1] && ops == old(ops) + [Up(ch)]
    {
      hide Apply, Replay;
      ReplayOne(origin, ops, Up(ch));
      SemaphoresAside(hw, ch);
      sem := sem[ch := sem[ch] + 1];
      ops := ops + [Up(ch)];
    }

    // -----------------------------------------------------------------------
    // Polling
    // -----------------------------------------------------------------------

    method CheckBusy(ch: nat) returns (ok: bool)
      requires Valid() && ch < CHANNELS
      modifies this
      ensures Valid() && OnChannel(ch) && Polled(1)
      ensures hw[ch] == old(hw[ch]).(delay := hw[ch].delay)
      ensures honest && ok ==> AtRest(ch)
      ensures honest ==> (ok <==> old(hw[ch].delay) < maxRetry && !hw[ch].link.busy)
      ensures RegisterWrites(ops) == RegisterWrites(old(ops))
    {
      hide RegisterWrites, Replay;
      var retry := 0;
      while retry < maxRetry
        invariant Valid() && OnChannel(ch)
        invariant retry <= maxRetry && polls == old(polls) + retry
        invariant hw[ch] == old(hw[ch]).(delay := hw[ch].delay)
        invariant honest && !hw[ch].link.busy ==> hw[ch].delay == old(hw[ch].delay) - retry
        invariant RegisterWrites(ops) == RegisterWrites(old(ops))
      {
        label before:
        StatusBits(hw[ch]);
        var stat := ReadRegister(COMMAND_STATUS, ch);
        GrownTwice(old(ops), old@before(ops), ops, ch);
        if !Bit(stat, BUSY_BIT) {
          return true;
        }
        retry := retry + 1;
      }
      return false;
    }

    method CheckTip(ch: nat) returns (ok: bool, stat: nat)
      requires Valid() && ch < CHANNELS
      modifies this
      ensures Valid() && OnChannel(ch) && Polled(1)
      ensures hw[ch] == old(hw[ch]).(delay := hw[ch].delay)
      ensures honest && ok ==> hw[ch].delay == 0 && stat == Status(hw[ch])
      ensures honest ==> (ok <==> old(hw[ch].delay) < maxRetry)
      ensures RegisterWrites(ops) == RegisterWrites(old(ops))
    {
      hide RegisterWrites, Replay;
      var retry := 0;
      stat := 0;
      while retry < maxRetry
        invariant Valid() && OnChannel(ch)
        invariant retry <= maxRetry && polls == old(polls) + retry
        invariant hw[ch] == old(hw[ch]).(delay := hw[ch].delay)
        invariant honest ==> hw[ch].delay == old(hw[ch].delay) - retry
        invariant RegisterWrites(ops) == RegisterWrites(old(ops))
      {
        label before:
        StatusBits(hw[ch]);
        stat := ReadRegister(COMMAND_STATUS, ch);
        GrownTwice(old(ops), old@before(ops), ops, ch);
        if !Bit(stat, TIP_BIT) {
          return true, stat;
        }
        retry := retry + 1;
      }
      return false, stat;
    }

    /** The status of the preceding check is looked at first, then re-read. */
    method CheckAck(ch: nat, last: nat) returns (ok: bool)
      requires Valid() && ch < CHANNELS
      requires honest ==> hw[ch].delay == 0 && last == Status(hw[ch])
      modifies this
      ensures Valid() && OnChannel(ch) && Polled(1)
      ensures hw[ch] == old(hw[ch]).(delay := hw[ch].delay)
      ensures honest ==> (ok <==> !hw[ch].link.nack)
    {
      var retry, stat := 0, last;
      StatusBits(hw[ch]);
      while retry < maxRetry
        invariant Valid() && OnChannel(ch)
        invariant retry <= maxRetry && polls == old(polls) + retry
        invariant hw[ch] == old(hw[ch]).(delay := hw[ch].delay)
        invariant honest ==> hw[ch].delay == 0 && stat == Status(hw[ch])
      {
        if !Bit(stat, ACK_BIT) {
          return true;
        }
        label before:
        stat := ReadRegister(COMMAND_STATUS, ch);
        GrownTwice(old(ops), old@before(ops), ops, ch);
        retry := retry + 1;
      }
      return !Bit(stat, ACK_BIT);
    }

    // -----------------------------------------------------------------------
    // Single bytes
    // -----------------------------------------------------------------------

    /** Sends one byte, with a START before it or not, and awaits its acknowledge. */
    method SendByte(ch: nat, b: Byte, cmd: nat) returns (r: Step, ghost willing: bool)
      requires Valid() && ch < CHANNELS && (cmd == START_WRITE || cmd == ENABLE_WRITE)
      modifies this
      ensures Valid() && OnChannel(ch) && SameSettings(ch) && Polled(2)
      ensures hw[ch].link == Command(old(hw[ch].link), b, cmd, willing)
      ensures honest && r.Busy? ==> Slow(|old(ops)|)
      ensures honest && !r.Busy? ==> r == if hw[ch].link.nack then NoAck else Done
      ensures obliging ==> willing && !r.Busy?
    {
      hide Command, Status, Replay;
      label start:
      ghost var op := WriteRegister(TRANSMIT_RECEIVE, ch, b);
      label loaded:
      op := WriteRegister(COMMAND_STATUS, ch, cmd);
      willing := op.willing;
      GrownTwice(old(ops), old@loaded(ops), ops, ch);
      label sent:
      ghost var issued := |ops| - 1;
      assert ops[issued] == op;
      r := AwaitByte(ch);
      GrownTwice(old(ops), old@sent(ops), ops, ch);
      assert ops[issued] == op by { Earlier(old@sent(ops), ops, ch, issued); }
    }

    /** Waits for the command to end and for the acknowledge bit. */
    method AwaitByte(ch: nat) returns (r: Step)
      requires Valid() && ch < CHANNELS
      modifies this
      ensures Valid() && OnChannel(ch) && Polled(2)
      ensures hw[ch] == old(hw[ch]).(delay := hw[ch].delay)
      ensures honest ==> r == if old(hw[ch].delay) >= maxRetry then Busy
                              else if hw[ch].link.nack then NoAck else Done
    {
      hide Command, Status, Replay;
      var ok, stat := CheckTip(ch);
      if !ok {
        return Busy;
      }
      label tip:
      ok := CheckAck(ch, stat);
      GrownTwice(old(ops), old@tip(ops), ops, ch);
      r := if ok then Done else NoAck;
    }

    /** Reads one byte from the slave and acknowledges it. */
    method ReceiveByte(ch: nat) returns (r: Step, b: Byte)
      requires Valid() && ch < CHANNELS
      modifies this
      ensures Valid() && OnChannel(ch) && SameSettings(ch) && Polled(2)
      ensures hw[ch].link == DoReceive(old(hw[ch].link), true)
      ensures honest && r.Done? ==> b == hw[ch].link.rx
      ensures honest ==> !r.NoAck? && (r.Busy? ==> Slow(|old(ops)|))
      ensures obliging ==> r.Done?
    {
      hide Status, Replay, Command, DoReceive;
      b := 0;
      ghost var op := WriteRegister(COMMAND_STATUS, ch, READ);
      Commands(old(hw[ch].link), hw[ch].txr, op.willing);
      Acknowledged(old(hw[ch].link));
      label sent:
      ghost var issued := |ops| - 1;
      r := AwaitByte(ch);
      GrownTwice(old(ops), old@sent(ops), ops, ch);
      assert ops[issued] == op by { Earlier(old@sent(ops), ops, ch, issued); }
      if r.Done? {
        label got:
        var val := ReadRegister(TRANSMIT_RECEIVE, ch);
        GrownTwice(old(ops), old@got(ops), ops, ch);
        b := val % 256;
      }
    }

    // -----------------------------------------------------------------------
    // Error exits
    // -----------------------------------------------------------------------

    /** Issues a STOP and waits for the bus to be free. */
    method IssueStop(ch: nat) returns (ok: bool)
      requires Valid() && ch < CHANNELS
      modifies this
      ensures Valid() && OnChannel(ch) && SameSettings(ch) && Polled(1)
      ensures hw[ch].link == DoStop(old(hw[ch].link))
      ensures honest ==> if ok then AtRest(ch) else Slow(|old(ops)|)
      ensures obliging ==> ok
      ensures RegisterWrites(ops) == RegisterWrites(old(ops)) + [(0x410 + 0x20 * ch, 0x40)]
    {
      hide Status, Replay, Command, RegisterWrites;
      ghost var op := WriteRegister(COMMAND_STATUS, ch, STOP);
      Commands(old(hw[ch].link), hw[ch].txr, op.willing);
      label sent:
      ghost var issued := |ops| - 1;
      ok := CheckBusy(ch);
      GrownTwice(old(ops), old@sent(ops), ops, ch);
      Earlier(old@sent(ops), ops, ch, issued);
    }

    /** Disables the channel, sets its clock, and enables it again. */
    method Reinitialise(ch: nat)
      requires Valid() && ch < CHANNELS
      modifies this
      ensures Valid() && OnChannel(ch) && polls == old(polls)
      ensures hw[ch].Ready() && hw[ch].link == old(hw[ch].link)
      ensures RegisterWrites(ops) == RegisterWrites(old(ops)) + [
                (0x408 + 0x20 * ch, 0x00), (0x400 + 0x20 * ch, 0x7F), (0x404 + 0x20 * ch, 0x00),
                (0x408 + 0x20 * ch, 0x80)]
    {
      hide Status, Replay, Command, RegisterWrites;
      ghost var op := WriteRegister(CONTROLLER, ch, CONTROL_DISABLE);
      label l1:
      op := WriteRegister(PRESCALE_LOW, ch, PRER_LO_DEFAULT);
      GrownTwice(old(ops), old@l1(ops), ops, ch);
      label l2:
      op := WriteRegister(PRESCALE_HIGH, ch, PRER_HI_DEFAULT);
      GrownTwice(old(ops), old@l2(ops), ops, ch);
      label l3:
      op := WriteRegister(CONTROLLER, ch, CONTROL_ENABLE);
      GrownTwice(old(ops), old@l3(ops), ops, ch);
    }

    /** Re-initialises the channel and issues a STOP; whether that ends is only logged. */
    method DeviceBusy(ch: nat)
      requires Valid() && ch < CHANNELS
      modifies this
      ensures Valid() && OnChannel(ch) && Polled(1)
      ensures hw[ch].Ready()
      ensures hw[ch].link == DoStop(old(hw[ch].link))
      ensures RegisterWrites(ops) == RegisterWrites(old(ops)) + [
                (0x408 + 0x20 * ch, 0x00), (0x400 + 0x20 * ch, 0x7F), (0x404 + 0x20 * ch, 0x00),
                (0x408 + 0x20 * ch, 0x80), (0x410 + 0x20 * ch, 0x40)]
    {
      hide RegisterWrites, Replay;
      Reinitialise(ch);
      label ready:
      var _ := IssueStop(ch);
      GrownTwice(old(ops), old@ready(ops), ops, ch);
    }

    /** Issues a STOP, and takes the other exit as well if the bus stays busy. */
    method NoAckResponse(ch: nat) returns (r: int)
      requires Valid() && ch < CHANNELS
      modifies this
      ensures Valid() && OnChannel(ch) && Polled(2)
      ensures r == -ETIMEDOUT || r == -EBUSY
      ensures if r == -EBUSY then hw[ch].Ready() else SameSettings(ch)
      ensures hw[ch].link == if r == -ETIMEDOUT then DoStop(old(hw[ch].link)) else DoStop(DoStop(old(hw[ch].link)))
      ensures honest ==> if r == -ETIMEDOUT then AtRest(ch) else Slow(|old(ops)|)
      ensures obliging ==> r == -ETIMEDOUT
    {
      hide Replay, RegisterWrites;
      var ok := IssueStop(ch);
      if ok {
        return -ETIMEDOUT;
      }
      label busy:
      ghost var stopped := ops;
      DeviceBusy(ch);
      GrownTwice(old(ops), old@busy(ops), ops, ch);
      StaysSlow(stopped, ops, ch, |old(ops)|);
      return -EBUSY;
    }

    // -----------------------------------------------------------------------
    // Transfers
    // -----------------------------------------------------------------------

    /** Steps 1 to 6 of both transfers: START, the slave for writing, the offset in its memory. */
    method AddressMemory(ch: nat, addr: nat, off: Byte) returns (r: Step)
      requires Valid() && ch < CHANNELS && addr < 128
      modifies this
      ensures Valid() && OnChannel(ch) && SameSettings(ch) && Polled(4)
      ensures hw[ch].link.mem == old(hw[ch].link.mem)
      ensures r.Done? ==> Addressed(hw[ch].link, Writing, off)
      ensures honest && r.Done? ==> hw[ch].link.phase == Writing && hw[ch].link.addr == addr
      ensures honest && r.Done? ==>
        hw[ch].link.trace == old(hw[ch].link.trace) + [Start, Sent(2 * addr, true), Sent(off, true)]
      ensures obliging ==> r == if hw[ch].link.addr == addr then Done else NoAck
      ensures honest && r.NoAck? ==> RefusedByte(hw[ch].link.trace)
      ensures honest && r.Busy? ==> Slow(|old(ops)|)
    {
      hide Replay, Command, Status;
      ghost var willing;
      r, willing := SendByte(ch, 2 * addr, START_WRITE);
      Commands(old(hw[ch].link), 2 * addr, willing);
      AddressSent(old(hw[ch].link), addr, 0, willing);
      SentRefused(DoStart(old(hw[ch].link)), 2 * addr, willing);
      if r.Done? {
        label l1:
        r, willing := SendByte(ch, off, ENABLE_WRITE);
        Commands(old@l1(hw[ch].link), off, willing);
        SentRefused(old@l1(hw[ch].link), off, willing);
        GrownTwice(old(ops), old@l1(ops), ops, ch);
      }
    }

    /** Steps 1 to 11 of a write. */
    method WriteBytes(ch: nat, addr: nat, off: Byte, data: seq<Byte>) returns (r: Step)
      requires Valid() && ch < CHANNELS && addr < 128
      modifies this
      ensures Valid() && OnChannel(ch) && SameSettings(ch)
      ensures Polled(2 * |data| + if r.NoAck? then 4 else 5)
      ensures StoredPrefix(old(hw[ch].link.mem), hw[ch].link.mem, off, data)
      ensures r.Done? ==> Stopped(hw[ch].link)
      ensures honest && r.Done? ==> hw[ch].link.addr == addr
      ensures honest && r.Done? ==> hw[ch].link.trace == old(hw[ch].link.trace) + WriteTrace(addr, off, data)
      ensures honest && r.Done? ==> hw[ch].link.mem == StoreAll(old(hw[ch].link.mem), off, data)
      ensures obliging ==> r == if hw[ch].link.addr == addr then Done else NoAck
      ensures honest && r.NoAck? ==> RefusedByte(hw[ch].link.trace)
      ensures honest && r.Busy? ==> Slow(|old(ops)|)
      ensures honest && r.Done? ==> AtRest(ch)
    {
      hide Replay, Command, Status, StoreAll, WriteTrace, AllSent, DoSend;
      r := AddressMemory(ch, addr, off);
      ghost var mem0, trace0 := hw[ch].link.mem, hw[ch].link.trace;
      if !r.Done? {
        NothingStored(mem0, off, data);
        return;
      }
      label addressed:
      r := SendAll(ch, off, data);
      GrownTwice(old(ops), old@addressed(ops), ops, ch);
      MorePolls(4, 2 * |data|, maxRetry);
      if !r.Done? {
        return;
      }
      label sent:
      var ok := IssueStop(ch);
      GrownTwice(old(ops), old@sent(ops), ops, ch);
      MorePolls(2 * |data| + 4, 1, maxRetry);
      r := if ok then Done else Busy;
      WriteTraceIs(old(hw[ch].link.trace), addr, off, data);
    }

    /** Steps 7 to 10 of a write. */
    method SendAll(ch: nat, off: Byte, data: seq<Byte>) returns (r: Step)
      requires Valid() && ch < CHANNELS
      requires Addressed(hw[ch].link, Writing, off) && (honest ==> hw[ch].link.phase == Writing)
      modifies this
      ensures Valid() && OnChannel(ch) && SameSettings(ch) && Polled(2 * |data|)
      ensures StoredPrefix(old(hw[ch].link.mem), hw[ch].link.mem, off, data)
      ensures honest && r.Done? ==> hw[ch].link.trace == old(hw[ch].link.trace) + AllSent(data)
      ensures honest && r.Done? ==> hw[ch].link.mem == StoreAll(old(hw[ch].link.mem), off, data)
      ensures obliging ==> r.Done?
      ensures honest && r.NoAck? ==> RefusedByte(hw[ch].link.trace)
      ensures honest && r.Busy? ==> Slow(|old(ops)|)
    {
      hide Replay, Command, Status, StoreAll, AllSent, DoSend, Storing, StoredPrefix;
      ghost var l0 := hw[ch].link;
      StoringStarts(l0, off, data);
      var i := 0;
      while i < |data|
        invariant 0 <= i <= |data|
        invariant Valid() && OnChannel(ch) && SameSettings(ch) && Polled(2 * i)
        invariant Storing(l0, hw[ch].link, off, data, i) && (honest ==> hw[ch].link.phase == Writing)
      {
        label before:
        ghost var willing;
        r, willing := SendByte(ch, data[i], ENABLE_WRITE);
        GrownTwice(old(ops), old@before(ops), ops, ch);
        Commands(old@before(hw[ch].link), data[i], willing);
        StoringOne(l0, old@before(hw[ch].link), off, data, i, willing);
        MorePolls(2 * i, 2, maxRetry);
        if !r.Done? {
          MorePolls(2 * i + 2, 2 * (|data| - i - 1), maxRetry);
          StoringStops(l0, hw[ch].link, off, data, i + 1);
          return;
        }
        i := i + 1;
      }
      r := Done;
      StoringStops(l0, hw[ch].link, off, data, |data|);
    }

    /** Steps 1 to 13 of a read; step 13 reads one byte even when none is wanted. */
    method ReadBytes(ch: nat, addr: nat, off: Byte, n: nat) returns (r: Step, data: seq<Byte>)
      requires Valid() && ch < CHANNELS && addr < 128
      modifies this
      ensures Valid() && OnChannel(ch) && SameSettings(ch)
      ensures Polled(2 * Max1(n) + if r.NoAck? then 4 else 5)
      ensures hw[ch].link.mem == old(hw[ch].link.mem)
      ensures r.Done? ==> Stopped(hw[ch].link) && |data| == n
      ensures honest && r.Done? ==> hw[ch].link.addr == addr
      ensures honest && r.Done? ==> data == LoadAll(hw[ch].link.mem, off, n)
      ensures honest && r.Done? ==> (
        hw[ch].link.trace ==
        old(hw[ch].link.trace) + ReadTrace(addr, off, LoadAll(hw[ch].link.mem, off, Max1(n))))
      ensures obliging ==> r == if hw[ch].link.addr == addr then Done else NoAck
      ensures honest && r.NoAck? ==> RefusedByte(hw[ch].link.trace)
      ensures honest && r.Busy? ==> Slow(|old(ops)|)
      ensures honest && r.Done? ==> AtRest(ch)
    {
      hide Replay, Command, Status, LoadAll, ReadTrace, ReadTail, DoReceive;
      data := [];
      r := AddressForReading(ch, addr, off);
      MorePolls(6, 2 * (Max1(n) - 1), maxRetry);
      if !r.Done? {
        return;
      }
      label turned:
      r, data := ReceiveBytes(ch, off, n);
      GrownTwice(old(ops), old@turned(ops), ops, ch);
      MorePolls(6, 2 * Max1(n) - 1 - (if r.NoAck? then 1 else 0), maxRetry);
      ReadTraceIs(old(hw[ch].link.trace), addr, off, LoadAll(hw[ch].link.mem, off, Max1(n)));
    }

    /** Steps 10 to 13 of a read. */
    method ReceiveBytes(ch: nat, off: Byte, n: nat) returns (r: Step, data: seq<Byte>)
      requires Valid() && ch < CHANNELS
      requires honest ==> hw[ch].link.phase == Reading && hw[ch].link.ptr == off
      modifies this
      ensures Valid() && OnChannel(ch) && SameSettings(ch) && Polled(2 * Max1(n) - (if r.NoAck? then 2 else 1))
      ensures hw[ch].link.mem == old(hw[ch].link.mem)
      ensures r.Done? ==> Stopped(hw[ch].link) && |data| == n
      ensures honest && r.Done? ==> data == LoadAll(hw[ch].link.mem, off, n)
      ensures honest && r.Done? ==> (
        hw[ch].link.trace == old(hw[ch].link.trace) + ReadTail(LoadAll(hw[ch].link.mem, off, Max1(n))))
      ensures obliging ==> r.Done?
      ensures honest ==> !r.NoAck? && (r.Busy? ==> Slow(|old(ops)|))
      ensures honest && r.Done? ==> AtRest(ch)
    {
      hide Replay, Command, Status, LoadAll, ReadTail, AllReceived, DoReceive, Receiving;
      r, data := ReceiveAll(ch, off, n);
      MorePolls(2 * (Max1(n) - 1), 1, maxRetry);
      if !r.Done? {
        return;
      }
      label received:
      var last;
      r, last := ReceiveLast(ch);
      GrownTwice(old(ops), old@received(ops), ops, ch);
      LastStops(old@received(hw[ch].link));
      if honest && r.Done? {
        LastReceived(old(hw[ch].link), old@received(hw[ch].link), off, data);
        ReadTailIs(old(hw[ch].link.trace), data, last);
        LoadAllEnds(hw[ch].link.mem, off, n);
      }
      if r.Done? && n > 0 {
        data := data + [last];
      }
    }

    /** Steps 1 to 9 of a read: the memory offset, then after a repeated START the slave for reading. */
    method AddressForReading(ch: nat, addr: nat, off: Byte) returns (r: Step)
      requires Valid() && ch < CHANNELS && addr < 128
      modifies this
      ensures Valid() && OnChannel(ch) && SameSettings(ch) && Polled(6)
      ensures hw[ch].link.mem == old(hw[ch].link.mem)
      ensures honest && r.Done? ==> hw[ch].link.phase == Reading && hw[ch].link.ptr == off && hw[ch].link.addr == addr
      ensures honest && r.Done? ==> (
        hw[ch].link.trace == old(hw[ch].link.trace) + [Start, Sent(2 * addr, true), Sent(off, true)] +
                             [Start, Sent(2 * addr + 1, true)])
      ensures obliging ==> r == if hw[ch].link.addr == addr then Done else NoAck
      ensures honest && r.NoAck? ==> RefusedByte(hw[ch].link.trace)
      ensures honest && r.Busy? ==> Slow(|old(ops)|)
    {
      hide Replay, Command, Status, DoSend;
      r := AddressMemory(ch, addr, off);
      if r.Done? {
        label addressed:
        ghost var willing;
        r, willing := SendByte(ch, 2 * addr + 1, START_WRITE);
        Commands(old@addressed(hw[ch].link), 2 * addr + 1, willing);
        AddressSent(old@addressed(hw[ch].link), addr, 1, willing);
        SentRefused(DoStart(old@addressed(hw[ch].link)), 2 * addr + 1, willing);
        GrownTwice(old(ops), old@addressed(ops), ops, ch);
      }
    }

    /** Steps 10 to 12 of a read: all bytes but the last. */
    method ReceiveAll(ch: nat, off: Byte, n: nat) returns (r: Step, data: seq<Byte>)
      requires Valid() && ch < CHANNELS
      requires honest ==> hw[ch].link.phase == Reading && hw[ch].link.ptr == off
      modifies this
      ensures Valid() && OnChannel(ch) && SameSettings(ch) && Polled(2 * (Max1(n) - 1))
      ensures hw[ch].link.mem == old(hw[ch].link.mem)
      ensures r.Done? ==> |data| == Max1(n) - 1
      ensures honest && r.Done? ==> Receiving(old(hw[ch].link), hw[ch].link, off, data)
      ensures obliging ==> r.Done?
      ensures honest ==> !r.NoAck? && (r.Busy? ==> Slow(|old(ops)|))
    {
      hide Replay, Command, Status, DoReceive, Receiving;
      data := [];
      var left := n;
      ReceivingStarts(hw[ch].link, off);
      while left > 1
        invariant |data| + left == n && (n > 0 ==> left > 0)
        invariant Valid() && OnChannel(ch) && SameSettings(ch) && Polled(2 * |data|)
        invariant hw[ch].link.mem == old(hw[ch].link.mem)
        invariant honest ==> Receiving(old(hw[ch].link), hw[ch].link, off, data)
      {
        label before:
        var b;
        r, b := ReceiveByte(ch);
        GrownTwice(old(ops), old@before(ops), ops, ch);
        Acknowledged(old@before(hw[ch].link));
        MorePolls(2 * |data|, 2, maxRetry);
        if !r.Done? {
          MorePolls(2 * |data| + 2, 2 * (left - 2), maxRetry);
          return;
        }
        if honest {
          ReceivingOne(old(hw[ch].link), old@before(hw[ch].link), off, data);
        }
        data := data + [b];
        left := left - 1;
      }
      r := Done;
    }

    /** Step 13 of a read: the last byte is not acknowledged, and a STOP follows it. */
    method ReceiveLast(ch: nat) returns (r: Step, b: Byte)
      requires Valid() && ch < CHANNELS
      modifies this
      ensures Valid() && OnChannel(ch) && SameSettings(ch) && Polled(1)
      ensures !r.NoAck? && hw[ch].link == DoStop(DoReceive(old(hw[ch].link), false))
      ensures honest && r.Done? ==> b == hw[ch].link.rx
      ensures obliging ==> r.Done?
      ensures honest ==> if r.Done? then AtRest(ch) else Slow(|old(ops)|)
    {
      hide Replay, Command, Status, DoReceive;
      b := 0;
      ghost var op := WriteRegister(COMMAND_STATUS, ch, ACK_STOP_READ);
      Commands(old(hw[ch].link), hw[ch].txr, op.willing);
      label sent:
      ghost var issued := |ops| - 1;
      var ok := CheckBusy(ch);
      GrownTwice(old(ops), old@sent(ops), ops, ch);
      Earlier(old@sent(ops), ops, ch, issued);
      if !ok {
        return Busy, b;
      }
      label got:
      var val := ReadRegister(TRANSMIT_RECEIVE, ch);
      GrownTwice(old(ops), old@got(ops), ops, ch);
      r, b := Done, val % 256;
    }

    // -----------------------------------------------------------------------
    // The driver's operations
    // -----------------------------------------------------------------------

    /**
     Nothing happened, or the semaphore was taken, and every promise of a clean exit holds. On hardware that tells the
     truth, a transfer that does not report a busy device leaves the bus free, one that reports a missing
     acknowledge met it in its last byte, and one that reports a busy device issued a command that took too long.
     */
    twostate predicate CleanExit(ch: nat, n: nat, r: int)
      reads this
    {
      && Valid() && sem == old(sem) && Polled(2 * (if n == 0 then 1 else n) + 6)
      && if r == -22 || r == -512 then hw == old(hw) && ops == old(ops)
         else
           && ch < CHANNELS
           && (r == 0 || r == -16 || r == -110)
           && hw == old(hw)[ch := hw[ch]] && hw[ch].link.addr == old(hw)[ch].link.addr
           && Transfer(old(ops), ops, ch)
           && Stopped(hw[ch].link)
           && (if r == -16 then hw[ch].Ready() else SameSettings(ch))
           && (honest ==> if r == -16 then Slow(|old(ops)|) else AtRest(ch))
           && (honest && r == -110 ==> Refused(hw[ch].link))
    }

    method SmbusWrite(ch: nat, addr: nat, off: Byte, data: seq<Byte>) returns (r: int)
      requires Valid() && ch != CHANNELS && |data| <= 128
      modifies this
      ensures CleanExit(ch, |data|, r)
      ensures r == -22 <==> addr > 0x7F || ch > CHANNELS
      ensures ch < CHANNELS ==> StoredPrefix(old(hw[ch].link.mem), hw[ch].link.mem, off, data)
      ensures honest && r == 0 ==> hw[ch].link.addr == addr
      ensures honest && r == 0 ==> hw[ch].link.trace == old(hw[ch].link.trace) + WriteTrace(addr, off, data)
      ensures honest && r == 0 ==> hw[ch].link.mem == StoreAll(old(hw[ch].link.mem), off, data)
      ensures obliging && r != -22 && old(sem[ch]) > 0 ==> r == if hw[ch].link.addr == addr then 0 else -110
    {
      hide StoreAll, WriteTrace, StoredPrefix, Replay;
      if ch < CHANNELS {
        NothingStored(hw[ch].link.mem, off, data);
      }
      if addr > 0x7F || ch > CHANNELS {
        return -EINVAL;
      }
      var ok := DownInterruptible(ch);
      if !ok {
        return -ERESTARTSYS;
      }
      label taken:
      var step := WriteBytes(ch, addr, off, data);
      ghost var through := ops;
      MorePolls(2 * |data| + 4, 2, maxRetry);
      MorePolls(2 * |data| + 5, 1, maxRetry);
      MorePolls(2 * |data| + 6, 2 * (Max1(|data|) - |data|), maxRetry);
      ghost var refused := hw[ch].link.trace;
      r := Leave(ch, step, |old(ops)|);
      assert refused + [Stop] != [] && (refused + [Stop])[..|refused|] == refused;
      GrownTwice(old@taken(ops), through, ops[..|ops| - 1], ch);
    }

    /** The end of a transfer: one of the error exits if it failed, and the semaphore is given back. */
    method Leave(ch: nat, step: Step, ghost since: nat) returns (r: int)
      requires Valid() && ch < CHANNELS && since <= |ops|
      requires honest && step.Busy? ==> Slow(since)
      modifies this
      ensures Valid() && sem == old(sem)[ch := old(sem[ch]) + 1]
      ensures hw == old(hw)[ch := hw[ch]]
      ensures hw[ch].link.addr == old(hw[ch].link.addr) && hw[ch].link.mem == old(hw[ch].link.mem)
      ensures |ops| > 0 && ops[|ops| - 1] == Up(ch) && Grown(old(ops), ops[..|ops| - 1], ch)
      ensures Polled(match step case Done => 0 case Busy => 1 case NoAck => 2)
      ensures r == 0 || r == -EBUSY || r == -ETIMEDOUT
      ensures r == 0 <==> step.Done?
      ensures r == 0 ==> hw == old(hw)
      ensures r != 0 ==> Stopped(hw[ch].link)
      ensures if r == -EBUSY then hw[ch].Ready() else SameSettings(ch)
      ensures step.Busy? ==> r == -EBUSY
      ensures obliging && step.NoAck? ==> r == -ETIMEDOUT
      ensures honest && r == -EBUSY ==> Slow(since)
      ensures honest && r == -ETIMEDOUT ==> AtRest(ch) && hw[ch].link.trace == old(hw[ch].link.trace) + [Stop]
    {
      hide Replay;
      match step {
        case Done =>
          r := 0;
          assert ops[..|ops|] == ops;
        case Busy =>
          DeviceBusy(ch);
          StaysSlow(old(ops), ops, ch, since);
          r := -EBUSY;
        case NoAck =>
          r := NoAckResponse(ch);
      }
      ghost var before := ops;
      Release(ch);
      assert ops[..|ops| - 1] == before;
      if honest && r == -EBUSY {
        ghost var i :| since <= i < |before| && before[i].Wr? && before[i].delay >= maxRetry;
        assert ops[i] == before[i];
      }
    }

    lemma StaysSlow(before: seq<Op>, after: seq<Op>, ch: nat, since: nat)
      requires Grown(before, after, ch)
      ensures (exists i :: since <= i < |before| && before[i].Wr? && before[i].delay >= maxRetry) ==>
                exists i :: since <= i < |after| && after[i].Wr? && after[i].delay >= maxRetry
    {
      if i :| since <= i < |before| && before[i].Wr? && before[i].delay >= maxRetry {
        Earlier(before, after, ch, i);
        assert after[i] == before[i];
      }
    }

    method SmbusRead(ch: nat, addr: nat, off: Byte, n: nat) returns (r: int, data: seq<Byte>)
      requires Valid() && ch != CHANNELS && n <= 128
      modifies this
      ensures CleanExit(ch, n, r)
      ensures r == -22 <==> addr > 0x7F || ch > CHANNELS
      ensures ch < CHANNELS ==> hw[ch].link.mem == old(hw[ch].link.mem)
      ensures r == 0 ==> |data| == n
      ensures honest && r == 0 ==> hw[ch].link.addr == addr
      ensures honest && r == 0 ==> data == LoadAll(hw[ch].link.mem, off, n)
      ensures honest && r == 0 ==> (
        hw[ch].link.trace ==
        old(hw[ch].link.trace) + ReadTrace(addr, off, LoadAll(hw[ch].link.mem, off, if n == 0 then 1 else n)))
      ensures obliging && r != -22 && old(sem[ch]) > 0 ==> r == if hw[ch].link.addr == addr then 0 else -110
    {
      hide LoadAll, ReadTrace, Replay;
      data := [];
      if addr > 0x7F || ch > CHANNELS {
        return -EINVAL, data;
      }
      var ok := DownInterruptible(ch);
      if !ok {
        return -ERESTARTSYS, data;
      }
      label taken:
      var step;
      step, data := ReadBytes(ch, addr, off, n);
      ghost var through := ops;
      MorePolls(2 * Max1(n) + 4, 2, maxRetry);
      MorePolls(2 * Max1(n) + 5, 1, maxRetry);
      ghost var refused := hw[ch].link.trace;
      r := Leave(ch, step, |old(ops)|);
      assert refused + [Stop] != [] && (refused + [Stop])[..|refused|] == refused;
      GrownTwice(old@taken(ops), through, ops[..|ops| - 1], ch);
    }

    /** Sets up all channels; nothing appears on any bus. */
    method InitSmbus()
      requires Valid()
      modifies this
      ensures Valid() && sem == old(sem) && polls == old(polls)
      ensures forall c :: 0 <= c < CHANNELS ==> hw[c].Ready() && hw[c].link == old(hw[c].link)
    {
      hide Replay, Command;
      var ch := 0;
      while ch < CHANNELS
        invariant 0 <= ch <= CHANNELS
        invariant Valid() && sem == old(sem) && polls == old(polls)
        invariant forall c :: 0 <= c < ch ==> hw[c].Ready()
        invariant forall c :: 0 <= c < CHANNELS ==> hw[c].link == old(hw[c].link)
      {
        ghost var op := WriteRegister(PRESCALE_LOW, ch, PRER_LO_DEFAULT);
        op := WriteRegister(PRESCALE_HIGH, ch, PRER_HI_DEFAULT);
        op := WriteRegister(CONTROLLER, ch, CONTROL_ENABLE);
        ch := ch + 1;
      }
    }
  }

  function Max1(n: nat): nat {
    if n == 0 then 1 else n
  }

  /** The slave expects this phase at this memory offset, or has left the conversation. */
  ghost predicate Addressed(l: Link, phase: Phase, ptr: Byte) {
    l.phase == Idle || (l.phase == phase && l.ptr == ptr)
  }

  lemma AddressSent(l: Link, addr: nat, direction: nat, willing: bool)
    requires l.Shape() && addr < 128 && direction < 2
    ensures var r := DoSend(DoStart(l), 2 * addr + direction, willing);
            && r.phase == (if willing && l.addr == addr then (if direction == 0 then Offset else Reading) else Idle)
            && r.nack == !(willing && l.addr == addr)
            && r.trace == l.trace + [Start, Sent(2 * addr + direction, !r.nack)]
            && r == l.(phase := r.phase, nack := r.nack, trace := r.trace, busy := true)
  {}

  lemma SentRefused(l: Link, b: Byte, willing: bool)
    requires l.Shape()
    ensures DoSend(l, b, willing).nack ==> RefusedByte(DoSend(l, b, willing).trace)
  {}

  lemma MorePolls(m: nat, n: nat, max: nat)
    ensures (m + n) * max == m * max + n * max
    ensures m * max <= (m + n) * max
  {}

  /** Some bytes of the data were sent; a slave that took all of them expects the next. */
  ghost predicate Storing(l0: Link, l: Link, off: Byte, data: seq<Byte>, i: nat)
    requires l0.Shape()
  {
    && i <= |data|
    && StoredPrefix(l0.mem, l.mem, off, data)
    && Addressed(l, Writing, (off + i) % MEM_SIZE)
    && (l.phase == Writing ==>
          l.mem == StoreAll(l0.mem, off, data[..i]) && l.trace == l0.trace + AllSent(data[..i]))
  }

  lemma NothingStored(mem: Slave, off: Byte, data: seq<Byte>)
    requires mem.Shape()
    ensures StoredPrefix(mem, mem, off, data)
  {
    assert StoreAll(mem, off, data[..0]) == mem;
  }

  lemma StoringStarts(l: Link, off: Byte, data: seq<Byte>)
    requires l.Shape() && Addressed(l, Writing, off)
    ensures Storing(l, l, off, data, 0)
  {
    NothingStored(l.mem, off, data);
  }

  lemma StoringOne(l0: Link, l: Link, off: Byte, data: seq<Byte>, i: nat, willing: bool)
    requires l0.Shape() && l.Shape() && i < |data| && Storing(l0, l, off, data, i)
    ensures Storing(l0, DoSend(l, data[i], willing), off, data, i + 1)
    ensures var r := DoSend(l, data[i], willing);
            && r.addr == l.addr
            && (l.phase == Writing && willing ==> !r.nack)
            && (!r.nack ==> r.phase == Writing)
            && (r.nack ==> RefusedByte(r.trace))
  {
    hide StoreAll, AllSent, StoredPrefix;
    NextIs(off, i);
    StoredOne(l0.mem, off, data, i);
    SentOne(l0.trace, data, i);
  }

  lemma NextIs(off: Byte, i: nat)
    ensures Next((off + i) % MEM_SIZE) == (off + i + 1) % MEM_SIZE
  {}

  lemma StoredOne(mem: Slave, off: Byte, data: seq<Byte>, i: nat)
    requires mem.Shape() && i < |data|
    ensures StoreAll(mem, off, data[..i + 1]) == StoreByte(StoreAll(mem, off, data[..i]), (off + i) % MEM_SIZE, data[i])
    ensures StoredPrefix(mem, StoreAll(mem, off, data[..i + 1]), off, data)
  {
    hide StoreAll;
    assert data[..i + 1] == data[..i] + [data[i]];
    StoreOne(mem, off, data[..i], data[i]);
  }

  lemma StoreOne(mem: Slave, off: Byte, data: seq<Byte>, b: Byte)
    requires mem.Shape()
    ensures StoreAll(mem, off, data + [b]) == StoreByte(StoreAll(mem, off, data), (off + |data|) % MEM_SIZE, b)
  {
    assert (data + [b])[..|data|] == data;
  }

  lemma SentOne(trace: seq<Event>, data: seq<Byte>, i: nat)
    requires i < |data|
    ensures trace + AllSent(data[..i + 1]) == trace + AllSent(data[..i]) + [Sent(data[i], true)]
  {
    assert data[..i + 1][..i] == data[..i];
  }

  lemma StoringStops(l0: Link, l: Link, off: Byte, data: seq<Byte>, i: nat)
    requires l0.Shape() && Storing(l0, l, off, data, i)
    ensures StoredPrefix(l0.mem, l.mem, off, data)
    ensures i == |data| && l.phase == Writing ==>
      l.mem == StoreAll(l0.mem, off, data) && l.trace == l0.trace + AllSent(data)
  {
    assert data[..|data|] == data;
  }

  lemma WriteTraceIs(trace: seq<Event>, addr: nat, off: Byte, data: seq<Byte>)
    requires addr < 128
    ensures trace + [Start, Sent(2 * addr, true), Sent(off, true)] + AllSent(data) + [Stop] ==
            trace + WriteTrace(addr, off, data)
  {}

  lemma Acknowledged(l: Link)
    requires l.Shape()
    ensures var r := DoReceive(l, true); !r.nack && r.addr == l.addr && r.mem == l.mem
  {}

  /** These bytes were read and acknowledged, and the slave is about to send the next. */
  ghost predicate Receiving(l0: Link, l: Link, off: Byte, data: seq<Byte>)
    requires l0.Shape()
  {
    && l.mem == l0.mem
    && l.phase == Reading && l.ptr == (off + |data|) % MEM_SIZE
    && data == LoadAll(l0.mem, off, |data|)
    && l.trace == l0.trace + AllReceived(data)
  }

  lemma ReceivingStarts(l: Link, off: Byte)
    requires l.Shape()
    ensures l.phase == Reading && l.ptr == off ==> Receiving(l, l, off, [])
  {}

  lemma ReceivingOne(l0: Link, l: Link, off: Byte, data: seq<Byte>)
    requires l0.Shape() && l.Shape() && Receiving(l0, l, off, data)
    ensures var r := DoReceive(l, true); Receiving(l0, r, off, data + [r.rx])
  {
    hide LoadAll, AllReceived;
    NextIs(off, |data|);
    LoadOne(l0.mem, off, data);
    ReceivedOne(data, LoadByte(l0.mem, l.ptr));
  }

  lemma LoadOne(mem: Slave, off: Byte, data: seq<Byte>)
    requires mem.Shape() && data == LoadAll(mem, off, |data|)
    ensures LoadAll(mem, off, |data| + 1) == data + [LoadByte(mem, (off + |data|) % MEM_SIZE)]
  {}

  lemma ReceivedOne(data: seq<Byte>, b: Byte)
    ensures AllReceived(data + [b]) == AllReceived(data) + [Received(b, true)]
  {
    assert (data + [b])[..|data|] == data;
  }

  lemma LastStops(l: Link)
    requires l.Shape()
    ensures var r := DoStop(DoReceive(l, false)); r.mem == l.mem && r.addr == l.addr && Stopped(r)
  {}

  lemma LastReceived(l0: Link, l: Link, off: Byte, data: seq<Byte>)
    requires l0.Shape() && l.Shape() && Receiving(l0, l, off, data)
    ensures var r := DoStop(DoReceive(l, false));
            && r.rx == LoadByte(l0.mem, (off + |data|) % MEM_SIZE)
            && r.trace == l0.trace + AllReceived(data) + [Received(r.rx, false), Stop]
            && data == LoadAll(l0.mem, off, |data|)
  {}

  lemma LoadAllEnds(mem: Slave, off: Byte, n: nat)
    requires mem.Shape()
    ensures LoadAll(mem, off, Max1(n)) == LoadAll(mem, off, Max1(n) - 1) + [LoadByte(mem, (off + (Max1(n) - 1)) % MEM_SIZE)]
    ensures LoadAll(mem, off, 0) == []
  {}

  lemma ReadTailIs(trace: seq<Event>, data: seq<Byte>, last: Byte)
    ensures trace + AllReceived(data) + [Received(last, false), Stop] == trace + ReadTail(data + [last])
  {
    assert (data + [last])[..|data|] == data;
  }

  lemma ReadTraceIs(trace: seq<Event>, addr: nat, off: Byte, data: seq<Byte>)
    requires addr < 128 && |data| > 0
    ensures trace + [Start, Sent(2 * addr, true), Sent(off, true)] + [Start, Sent(2 * addr + 1, true)] +
            ReadTail(data) == trace + ReadTrace(addr, off, data)
  {}
}
