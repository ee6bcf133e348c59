/**
 Access to a transceiver's memory by the csp7551 driver: single transactions in four bus modes with
 retries, chunks with their page select, and whole transfers. The module may fail any transaction.
 */
module SffDriver {
  import opened Common
  import opened SffMemory
  import opened SffImage
  import opened SffTransceiver
  import SmbusFpga
  import SmbusDriver

  const ENXIO := 6
  const EINVAL := 22
  const ETIMEDOUT := 110
  const SMBUS_BLOCK_MAX := 32
  const PAGEABLE_REG := 2
  const UNPAGED_SIZE := 2 * PAGE_SIZE
  const EEPROM_SIZE := 5 * PAGE_SIZE
  const SIZE_T := 0x1_0000_0000_0000_0000

  datatype Mode = I2c | SmbusBlock | SmbusWord | SmbusByte
  datatype Opcode = ReadOp | WriteOp

  /** What an adapter can do. */
  datatype Func = FuncI2c | FuncBlock | FuncWordData | FuncByteData | FuncByte | FuncQuick

  /** The mode that the driver chooses for an adapter. */
  function ProbeMode(func: set<Func>): Option<Mode> {
    if FuncI2c in func then Some(I2c)
    else if FuncBlock in func then Some(SmbusBlock)
    else if FuncWordData in func then Some(SmbusWord)
    else if FuncByteData in func then Some(SmbusByte)
    else None
  }

  /** It is the first of plain I2C, block, word and byte transactions that the adapter can carry out, if any. */
  lemma ProbeChooses(func: set<Func>)
    ensures ProbeMode(func) == Some(I2c) <==> FuncI2c in func
    ensures ProbeMode(func) == Some(SmbusBlock) <==> FuncBlock in func && FuncI2c !in func
    ensures ProbeMode(func) == Some(SmbusWord) <==> FuncWordData in func && FuncBlock !in func && FuncI2c !in func
    ensures ProbeMode(func) == Some(SmbusByte) <==>
            FuncByteData in func && FuncWordData !in func && FuncBlock !in func && FuncI2c !in func
  {}

  /** The adapters of the FPGA. */
  const FPGA_FUNC := {FuncQuick, FuncByte, FuncByteData, FuncWordData}

  function Min(a: nat, b: nat): nat {
    if a <= b then a else b
  }

  /** How many bytes one read transaction asks for. */
  function ReadCount(mode: Mode, count: nat): nat {
    match mode
    case SmbusBlock => Min(count, SMBUS_BLOCK_MAX)
    case SmbusWord => if count == 1 then 1 else 2
    case SmbusByte => 1
    case I2c => count
  }

  /** How many bytes one write transaction sends: never beyond the half that it starts in. */
  function WriteCount(mode: Mode, writeMax: nat, a: nat, count: nat): nat {
    var atMost := Min(count, writeMax);
    var nextPage := (a + 1 + PAGE_SIZE - 1) / PAGE_SIZE * PAGE_SIZE;
    var n := if a + atMost > nextPage then nextPage - a else atMost;
    ReadCount(mode, n)
  }

  /**
   A transaction moves at least one byte and no more than asked for, and a write stays within its page. Plain I2C
   reads take everything at once, and block, word and byte reads up to 32, two and one bytes.
   */
  lemma CountsFit(mode: Mode, writeMax: nat, a: nat, count: nat)
    requires count > 0 && writeMax > 0
    ensures 0 < ReadCount(mode, count) <= count
    ensures 0 < WriteCount(mode, writeMax, a, count) <= Min(count, writeMax)
    ensures a / 128 == (a + WriteCount(mode, writeMax, a, count) - 1) / 128
    ensures WriteCount(mode, writeMax, a, count) ==
            ReadCount(mode, Min(Min(count, writeMax), 128 - a % 128))
  {}

  /** How many transactions read a chunk. */
  function Reads(mode: Mode, count: nat): nat {
    if count == 0 || ReadCount(mode, count) == 0 then 0
    else if ReadCount(mode, count) >= count then 1
    else 1 + Reads(mode, count - ReadCount(mode, count))
  }

  lemma {:induction false} ReadsNeeded(mode: Mode, count: nat)
    ensures Reads(I2c, count) == if count == 0 then 0 else 1
    ensures Reads(SmbusBlock, count) == (count + 31) / 32
    ensures Reads(SmbusWord, count) == (count + 1) / 2
    ensures Reads(SmbusByte, count) == count
    decreases count
  {
    if count > 32 { ReadsNeeded(mode, count - 32); }
    if count > 2 { ReadsNeeded(mode, count - 2); }
    if count > 1 { ReadsNeeded(mode, count - 1); }
  }

  /** With single-byte writes a chunk takes as many transactions as it has bytes, in every mode. */
  lemma SingleWrites(mode: Mode, a: nat, count: nat)
    requires count > 0
    ensures WriteCount(mode, 1, a, count) == 1
  {}

  /**
   How a read ends, by the statuses of its attempts: at the first that is complete, at the first that finds no module,
   which is returned at once, or when the time is over.
   */
  ghost predicate ReadEnds(tries: seq<int>, n: nat, r: int) {
    && tries != []
    && (forall i :: 0 <= i < |tries| - 1 ==> tries[i] != n && tries[i] != -6)
    && var last := tries[|tries| - 1];
       r == if last == n then n else if last == -6 then -6 else -110
  }

  /** A write is tried again whatever its status, until it is complete or the time is over. */
  ghost predicate WriteEnds(tries: seq<int>, r: int) {
    && tries != []
    && (forall i :: 0 <= i < |tries| - 1 ==> tries[i] != 0)
    && (tries[|tries| - 1] == 0 <==> r >= 0) && (r < 0 ==> r == -110)
  }

  // -------------------------------------------------------------------------
  // Whole transfers
  // -------------------------------------------------------------------------

  /** An access starts inside the 640-byte file, or needs no pages. */
  predicate Grants(off: nat, len: nat) {
    off + len <= UNPAGED_SIZE || off < EEPROM_SIZE
  }

  predicate Pageable(m: Memory)
    requires m.Shape()
  {
    m.lower[PAGEABLE_REG] / 4 % 2 == 0
  }

  /** How much of an access is carried out. The length left in an unpaged module is unsigned. */
  function Granted(m: Memory, off: nat, len: nat): (r: nat)
    requires m.Shape() && Grants(off, len)
    ensures r <= len
    ensures Pageable(m) || off <= UNPAGED_SIZE ==> off + r <= EEPROM_SIZE
  {
    if off + len <= UNPAGED_SIZE then len
    else if Pageable(m) then Min(len, EEPROM_SIZE - off)
    else Min(len, (UNPAGED_SIZE - off) % SIZE_T)
  }

  /**
   The length granted to an access beyond the directly addressed bytes, from the byte that describes the module: with
   bit 2 clear it has pages, and the file ends at 640; with bit 2 set it has none, and its 256 bytes end the access. An
   access of an unpaged module that starts beyond them is granted what is left in an unsigned sense.
   */
  lemma GrantedByBit(m: Memory, off: nat, len: nat, hi: nat, lo: nat)
    requires m.Shape() && off < 640 && off + len > 256 && lo < 4
    ensures Grants(off, len)
    ensures m.lower[2] == 8 * hi + lo ==> Granted(m, off, len) == if len <= 640 - off then len else 640 - off
    ensures m.lower[2] == 8 * hi + 4 + lo && off <= 256 ==>
              Granted(m, off, len) == if len <= 256 - off then len else 256 - off
    ensures m.lower[2] == 8 * hi + 4 + lo && off > 256 && len < 0x1_0000_0000_0000_0000 - 640 ==>
              Granted(m, off, len) == len
  {}

  lemma GrantedDirectly(m: Memory, off: nat, len: nat)
    requires m.Shape() && off + len <= 256
    ensures Grants(off, len) && Granted(m, off, len) == len
  {}

  /** Refused are exactly the accesses that start at or after the end of the file and go beyond byte 256. */
  lemma GrantsIff(off: nat, len: nat)
    ensures Grants(off, len) <==> off < 640 || off + len <= 256
  {}

  /** The part of a transfer that falls into a chunk, with `pending` bytes to go. */
  function ChunkAt(off: nat, chunk: nat, pending: nat): (nat, nat)
    requires off < (chunk + 1) * PAGE_SIZE
  {
    var start := chunk * PAGE_SIZE;
    if start < off then
      (off, if off + pending < start + PAGE_SIZE then pending else (chunk + 1) * PAGE_SIZE - off)
    else
      (start, if pending > PAGE_SIZE then PAGE_SIZE else pending)
  }

  /** How far a transfer has got when its loop reaches a chunk. */
  function DoneAt(off: nat, len: nat, chunk: nat): nat {
    if chunk * PAGE_SIZE <= off then 0 else Min(len, chunk * PAGE_SIZE - off)
  }

  /** The chunks tile the transfer: each starts where the last one ended and stays on one page. */
  lemma ChunksTile(off: nat, len: nat, chunk: nat)
    requires len > 0 && off + len <= IMAGE_SIZE
    requires off / PAGE_SIZE <= chunk <= (off + len - 1) / PAGE_SIZE
    ensures var done := DoneAt(off, len, chunk);
            var c := ChunkAt(off, chunk, len - done);
            && c.0 == off + done && InChunk(c.0, c.1) && done + c.1 == DoneAt(off, len, chunk + 1)
            && (done == 0 || c.0 % PAGE_SIZE == 0)
    ensures DoneAt(off, len, off / PAGE_SIZE) == 0
    ensures DoneAt(off, len, (off + len - 1) / PAGE_SIZE + 1) == len
  {}

  /** A buffer has not changed but for `count` bytes. */
  ghost predicate Elsewhere(b0: seq<Byte>, b: seq<Byte>, at: nat, count: nat) {
    |b| == |b0| && at + count <= |b0| && b[..at] == b0[..at] && b[at + count..] == b0[at + count..]
  }

  /** What a transfer of len bytes has done to the memory and to the buffer after `done` of them. */
  ghost predicate Progress(op: Opcode, off: nat, len: nat, m0: Memory, m: Memory,
                           b0: seq<Byte>, b: seq<Byte>, done: nat) {
    && m0.Shape() && m.Shape() && off + len <= IMAGE_SIZE && done <= len <= |b0| == |b|
    && (if op == WriteOp then b == b0 else Elsewhere(b0, b, 0, len))
    && (op == ReadOp && m0.Page() == 0 ==> m == m0 && b == Splice(b0, 0, Flat(m0)[off..off + done]))
    && (op == WriteOp && m0.Page() == 0 ==> Flat(m) == Landed(Flat(m0), off, b0[..done]))
  }

  /**
   What a transfer of len bytes has done when it returns `status`. `pageLost` tells that a write to the page
   register failed in a way that may have left it at another page.
   */
  ghost predicate Outcome(op: Opcode, off: nat, len: nat, m0: Memory, m: Memory, b0: seq<Byte>, b: seq<Byte>,
                          status: int, pageLost: bool) {
    && m0.Shape() && m.Shape() && off + len <= IMAGE_SIZE && status <= len <= |b0| == |b|
    && var known := status >= 0 || !pageLost;
    && (if op == WriteOp then b == b0 else Elsewhere(b0, b, 0, len))
    && (op == ReadOp && m0.Page() == 0 ==>
          && (known ==> m == m0)
          && (status == len ==> b == Splice(b0, 0, Flat(m0)[off..off + len])))
    && (op == WriteOp && m0.Page() == 0 ==>
          && (known && Clean(off, b0[..len]) ==>
                m.Page() == 0 && Stored(Flat(m0), Flat(m), off, b0[..len], if status == len then len else 0, false))
          && (status == len ==> Flat(m) == Landed(Flat(m0), off, b0[..len])))
  }

  lemma PageIsFlat(m: Memory)
    requires m.Shape()
    ensures Flat(m)[PAGE_SELECT] == m.Page()
  {}

  lemma NoProgress(op: Opcode, off: nat, len: nat, m: Memory, b: seq<Byte>)
    requires m.Shape() && off + len <= IMAGE_SIZE && len <= |b|
    ensures Progress(op, off, len, m, m, b, b, 0)
  {
    NothingSpliced(Flat(m), off, b[..0]);
    NothingSpliced(b, 0, Flat(m)[off..off + 0]);
  }

  /** A clean write leaves the page register at 0 at every stage. */
  lemma CleanKeepsPage(off: nat, len: nat, m0: Memory, m: Memory, b0: seq<Byte>, done: nat)
    requires m0.Shape() && m.Shape() && off + len <= IMAGE_SIZE && done <= len <= |b0|
    requires m0.Page() == 0 && Clean(off, b0[..len]) && Flat(m) == Splice(Flat(m0), off, b0[..done])
    ensures m.Page() == 0
  {
    PageIsFlat(m0);
    PageIsFlat(m);
    SpliceAt(Flat(m0), off, b0[..done], PAGE_SELECT);
  }

  /** What has landed of a clean write is where it should be. */
  lemma CleanProgress(off: nat, len: nat, m0: Memory, m: Memory, b0: seq<Byte>, b: seq<Byte>, done: nat)
    requires Progress(WriteOp, off, len, m0, m, b0, b, done) && m0.Page() == 0 && Clean(off, b0[..len])
    ensures Flat(m) == Splice(Flat(m0), off, b0[..done]) && m.Page() == 0
  {
    hide Splice, Flat, Landed;
    CleanLands(Flat(m0), off, b0[..done]);
    CleanKeepsPage(off, len, m0, m, b0, done);
  }

  lemma Finished(op: Opcode, off: nat, len: nat, m0: Memory, m: Memory, b0: seq<Byte>, b: seq<Byte>)
    requires Progress(op, off, len, m0, m, b0, b, len)
    ensures Outcome(op, off, len, m0, m, b0, b, len, false)
  {
    hide Splice, Flat, Landed;
    if op == WriteOp && m0.Page() == 0 && Clean(off, b0[..len]) {
      CleanProgress(off, len, m0, m, b0, b, len);
      Prefixes(b0, len, 0, len);
      StoredPrefix(Flat(m0), off, b0[..len], len, len, false);
    }
  }

  lemma Prefixes(s: seq<Byte>, len: nat, i: nat, j: nat)
    requires i <= j <= len <= |s|
    ensures s[..len][i..j] == s[i..j] && s[..len][..j] == s[..j]
  {}

  /** A prefix of the transfer and a prefix of the next chunk make a longer prefix of the transfer. */
  lemma LongerPrefix(f: seq<Byte>, off: nat, data: seq<Byte>, done: nat, n: nat, k: nat)
    requires k <= n && done + n <= |data| && off + |data| <= |f|
    ensures Splice(Splice(f, off, data[..done]), off + done, data[done..done + n][..k]) ==
            Splice(f, off, data[..done + k])
  {
    SpliceTwice(f, off, data[..done], data[done..done + n][..k]);
    assert data[..done] + data[done..done + n][..k] == data[..done + k];
  }

  /** One more chunk. */
  lemma Advance(op: Opcode, off: nat, len: nat, m0: Memory, m: Memory, m': Memory,
                b0: seq<Byte>, b: seq<Byte>, b': seq<Byte>, done: nat, n: nat)
    requires Progress(op, off, len, m0, m, b0, b, done) && done + n <= len && m'.Shape()
    requires InChunk(off + done, n) && (done == 0 || (off + done) % PAGE_SIZE == 0)
    requires if op == WriteOp then b' == b else Elsewhere(b, b', done, n)
    requires m.Page() == 0 && op == ReadOp ==> m' == m && b' == Splice(b, done, Flat(m)[off + done..off + done + n])
    requires op == WriteOp ==> m' == Written(m, off + done, n, b[done..done + n])
    ensures Progress(op, off, len, m0, m', b0, b', done + n)
  {
    hide Splice, Flat, Landed, Written;
    if op == ReadOp {
      ElsewhereTwice(b0, b, b', len, done, n);
      if m0.Page() == 0 {
        var f := Flat(m0);
        SpliceTwice(b0, 0, f[off..off + done], f[off + done..off + done + n]);
        assert f[off..off + done] + f[off + done..off + done + n] == f[off..off + done + n];
      }
    } else if m0.Page() == 0 {
      PageIsFlat(m0);
      ChunkLands(m, off + done, b[done..done + n]);
      LandsNext(Flat(m0), off, b0[..done], b0[done..done + n]);
      assert b0[..done] + b0[done..done + n] == b0[..done + n];
    }
  }

  lemma ElsewhereTwice(b0: seq<Byte>, b: seq<Byte>, b': seq<Byte>, len: nat, done: nat, n: nat)
    requires Elsewhere(b0, b, 0, len) && done + n <= len && Elsewhere(b, b', done, n)
    ensures Elsewhere(b0, b', 0, len)
  {
    assert b'[len..] == b'[done + n..][len - done - n..] && b[len..] == b[done + n..][len - done - n..];
  }

  /** A chunk that failed part of the way. */
  lemma Stopped(op: Opcode, off: nat, len: nat, m0: Memory, m: Memory, m': Memory,
                b0: seq<Byte>, b: seq<Byte>, b': seq<Byte>, done: nat, n: nat, status: int,
                pageLost: bool, atomic: bool)
    requires Progress(op, off, len, m0, m, b0, b, done) && done + n <= len && m'.Shape()
    requires status < n && (if op == WriteOp then b' == b else Elsewhere(b, b', done, n))
    requires m.Page() == 0 && (status >= 0 || !pageLost) ==>
               if op == ReadOp then m' == m
               else Stored(Flat(m), Flat(m'), off + done, b[done..done + n], status, atomic)
    ensures Outcome(op, off, len, m0, m', b0, b', status, pageLost)
  {
    hide Splice, Flat, Stored, Landed;
    if op == ReadOp {
      ElsewhereTwice(b0, b, b', len, done, n);
    } else if m0.Page() == 0 && Clean(off, b0[..len]) && (status >= 0 || !pageLost) {
      StoppedWrite(off, len, m0, m, m', b0, done, n, status, atomic);
    }
  }

  lemma StoppedWrite(off: nat, len: nat, m0: Memory, m: Memory, m': Memory, b0: seq<Byte>,
                     done: nat, n: nat, status: int, atomic: bool)
    requires Progress(WriteOp, off, len, m0, m, b0, b0, done) && done + n <= len && m'.Shape()
    requires m0.Page() == 0 && Clean(off, b0[..len])
    requires m.Page() == 0 ==> Stored(Flat(m), Flat(m'), off + done, b0[done..done + n], status, atomic)
    ensures m'.Page() == 0 && Stored(Flat(m0), Flat(m'), off, b0[..len], 0, false)
  {
    hide Splice, Flat, Landed;
    CleanProgress(off, len, m0, m, b0, b0, done);
    var k: nat :| status <= k <= n && Flat(m') == Splice(Flat(m), off + done, b0[done..done + n][..k]);
    LongerPrefix(Flat(m0), off, b0[..len], done, n, k);
    Prefixes(b0, len, 0, done);
    Prefixes(b0, len, 0, done + k);
    Prefixes(b0, len, done, done + n);
    StoredPrefix(Flat(m0), off, b0[..len], done + k, 0, false);
    CleanKeepsPage(off, len, m0, m', b0, done + k);
  }

  /** Reading back a clean write returns the data and changes nothing. */
  lemma ReadBack(off: nat, len: nat, m0: Memory, m1: Memory, m2: Memory, data: seq<Byte>,
                 b: seq<Byte>, b': seq<Byte>)
    requires m0.Shape() && m0.Page() == 0 && len <= |data| && Clean(off, data[..len])
    requires Outcome(WriteOp, off, len, m0, m1, data, data, len, false)
    requires Outcome(ReadOp, off, len, m1, m2, b, b', len, false)
    ensures m2 == m1 && b' == Splice(b, 0, data[..len])
  {
    CleanLands(Flat(m0), off, data[..len]);
    var f := Flat(m0);
    assert Splice(f, off, data[..len])[off..off + len] == data[..len];
  }

  /** Two complete transfers agree, whatever bus modes they used and however often they retried. */
  lemma ModesAgree(op: Opcode, off: nat, len: nat, m0: Memory, b0: seq<Byte>,
                   m1: Memory, b1: seq<Byte>, m2: Memory, b2: seq<Byte>)
    requires m0.Shape() && m0.Page() == 0 && len <= |b0|
    requires Outcome(op, off, len, m0, m1, b0, b1, len, false)
    requires Outcome(op, off, len, m0, m2, b0, b2, len, false)
    ensures m1 == m2 && b1 == b2
  {
    if op == WriteOp {
      FlatInjective(m1, m2);
    }
  }

  class Port {
    const dev: Transceiver
    const mode: Mode
    const writeMax: nat

    /** The FPGA carries out byte and word transactions only. */
    ghost predicate Valid()
      reads dev, dev.bus
    {
      dev.Valid() && writeMax > 0 && (dev.bus != null ==> mode == SmbusWord || mode == SmbusByte)
    }

    constructor (dev: Transceiver, mode: Mode, writeMax: nat)
      requires dev.Valid() && writeMax > 0 && (dev.bus != null ==> mode == SmbusWord || mode == SmbusByte)
      ensures this.dev == dev && this.mode == mode && this.writeMax == writeMax && Valid()
    {
      this.dev, this.mode, this.writeMax := dev, mode, writeMax;
    }

    /** A module on a channel of the FPGA: the driver chooses word transactions, and writes single bytes. */
    constructor Probe(bus: SmbusDriver.PciDevice, ch: nat)
      requires bus.Valid() && bus.honest && SmbusFpga.Transfers(bus.ops)
      requires ch < SmbusFpga.CHANNELS && bus.hw[ch].link.mem.Paged? && bus.hw[ch].link.addr < 128
      ensures Valid() && fresh(dev) && dev.bus == bus && dev.ch == ch && mode == SmbusWord && writeMax == 1
      ensures dev.Mem() == bus.hw[ch].link.mem.memory
      ensures dev.reliable <==> bus.obliging && bus.sem[ch] > 0
    {
      dev := new Transceiver.OnChannel(bus, ch);
      mode := ProbeMode(FPGA_FUNC).value;
      writeMax := 1;
    }

    /** A failed page select matters only if the module may have taken it all the same. */
    ghost predicate PageLost(selectFailed: bool, restoreFailed: bool) {
      restoreFailed || (selectFailed && !dev.atomic)
    }

    // -----------------------------------------------------------------------
    // Transactions
    // -----------------------------------------------------------------------

    /**
     One attempt in the configured mode. A word is asked for as a whole and then taken apart; blocks and plain I2C
     messages arrive in the buffer itself, even if they do not arrive completely.
     */
    method ReadAttempt(buf: array<Byte>, at: nat, a: nat, n: nat) returns (status: int)
      requires Valid() && InHalf(a, n) && n > 0 && at + n <= buf.Length
      requires mode == SmbusWord ==> n <= 2
      requires mode == SmbusByte ==> n == 1
      modifies buf, dev`log, dev.bus
      ensures Valid() && dev.OthersKept() && dev.Mem() == old(dev.Mem())
      ensures Elsewhere(old(buf[..]), buf[..], at, n)
      ensures status != n && (mode == SmbusWord || mode == SmbusByte) ==> buf[..] == old(buf[..])
      ensures status == n ==> buf[..] == Splice(old(buf[..]), at, Peeks(dev.Mem(), a, n))
      ensures dev.reliable ==> status == n
      ensures dev.log == old(dev.log) + [status]
    {
      hide Peeks;
      var data;
      status, data := dev.Fetch(a, n);
      if mode == SmbusWord || mode == SmbusByte {
        if status != n {
          return;
        }
        if n == 2 {
          var lo: int, hi: int := data[0], data[1];
          var word := lo + 256 * hi;
          data := [word % 256, word / 256];
        }
      }
      CopyInto(buf, at, data);
    }

    /** Reads into buf[at..]: all that one transaction can carry, or a negative status. */
    method EepromRead(buf: array<Byte>, at: nat, a: nat, count: nat) returns (r: int)
      requires Valid() && InHalf(a, count) && count > 0 && at + count <= buf.Length
      modifies buf, dev`log, dev.bus
      ensures Valid() && dev.OthersKept() && dev.Mem() == old(dev.Mem())
      ensures r < 0 ==> Elsewhere(old(buf[..]), buf[..], at, count)
      ensures r >= 0 ==> 0 < r <= count && r == ReadCount(mode, count) && InHalf(a, r) &&
                         buf[..] == Splice(old(buf[..]), at, Peeks(dev.Mem(), a, r))
      ensures dev.reliable ==> r >= 0
      ensures |old(dev.log)| <= |dev.log| && dev.log[..|old(dev.log)|] == old(dev.log)
      ensures r < 0 ==> r == -6 || r == -110
      ensures ReadEnds(dev.log[|old(dev.log)|..], ReadCount(mode, count), r)
    {
      hide Peeks, Splice;
      CountsFit(mode, 1, a, count);
      var n := ReadCount(mode, count);
      var left: nat := *;  // attempts until the clock passes the timeout
      ghost var tries: seq<int> := [];
      while true
        invariant Valid() && dev.OthersKept() && dev.Mem() == old(dev.Mem())
        invariant Elsewhere(old(buf[..]), buf[..], at, n)
        invariant dev.log == old(dev.log) + tries && forall i :: 0 <= i < |tries| ==> tries[i] != n && tries[i] != -6
        decreases left
      {
        ghost var b := buf[..];
        var status := ReadAttempt(buf, at, a, n);
        assert dev.log == old(dev.log) + (tries + [status]);
        tries := tries + [status];
        if status == n {
          SpliceOver(old(buf[..]), b, at, Peeks(dev.Mem(), a, n));
          return n;
        }
        ElsewhereAgain(old(buf[..]), b, buf[..], at, n);
        ElsewhereWider(old(buf[..]), buf[..], at, n, count);
        if status == -ENXIO {
          return status;
        }
        if left == 0 {
          return -ETIMEDOUT;
        }
        left := left - 1;
      }
    }

    /** Writes from data: all that one transaction can carry, or a negative status after a prefix of it. */
    method EepromWrite(data: seq<Byte>, a: nat) returns (r: int)
      requires Valid() && InHalf(a, |data|) && |data| > 0
      modifies dev`own, dev`log, dev.bus
      ensures Valid() && dev.OthersKept()
      ensures r >= 0 ==> 0 < r <= |data| && r == WriteCount(mode, writeMax, a, |data|) && InHalf(a, r) &&
                         dev.Mem() == Poke(old(dev.Mem()), a, data[..r])
      ensures r < 0 ==>
                (exists k: nat :: k <= |data| && (dev.atomic ==> k == 0) && InHalf(a, k) &&
                                  dev.Mem() == Poke(old(dev.Mem()), a, data[..k]))
      ensures dev.reliable ==> r >= 0
      ensures |old(dev.log)| <= |dev.log| && dev.log[..|old(dev.log)|] == old(dev.log)
      ensures r < 0 ==> r == -110
      ensures WriteEnds(dev.log[|old(dev.log)|..], r)
    {
      hide Poke;
      CountsFit(mode, writeMax, a, |data|);
      var n := WriteCount(mode, writeMax, a, |data|);
      var left: nat := *;
      ghost var m0 := dev.Mem();
      ghost var k: nat := 0;
      ghost var tries: seq<int> := [];
      NothingPoked(dev.Mem(), a, data);
      while true
        invariant Valid() && dev.OthersKept()
        invariant k <= n && dev.Mem() == Poke(m0, a, data[..k])
        invariant dev.atomic ==> k == 0
        invariant dev.log == old(dev.log) + tries && forall i :: 0 <= i < |tries| ==> tries[i] != 0
        decreases left
      {
        ghost var m := dev.Mem();
        var status := dev.Store(a, data[..n]);
        assert dev.log == old(dev.log) + (tries + [status]);
        tries := tries + [status];
        if status == 0 {
          PokePrefixes(m0, a, data, k, n);
          return n;
        }
        ghost var more: nat :| more <= n && dev.Mem() == Poke(m, a, data[..n][..more]);
        assert data[..n][..more] == data[..more];
        PokePrefixes(m0, a, data, k, more);
        if !dev.atomic {
          k := if k <= more then more else k;
        }
        if left == 0 {
          return -ETIMEDOUT;
        }
        left := left - 1;
      }
    }

    // -----------------------------------------------------------------------
    // Chunks
    // -----------------------------------------------------------------------

    /** Reads the whole of buf[at..at + count], one transaction after the other. */
    method ReadChunk(buf: array<Byte>, at: nat, a: nat, count: nat) returns (retval: int)
      requires Valid() && InHalf(a, count) && count > 0 && at + count <= buf.Length
      modifies buf, dev`log, dev.bus
      ensures Valid() && dev.OthersKept() && dev.Mem() == old(dev.Mem())
      ensures 0 != retval <= count && (dev.reliable ==> retval == count)
      ensures retval < 0 ==> retval == -6 || retval == -110
      ensures Elsewhere(old(buf[..]), buf[..], at, count)
      ensures retval >= 0 ==> InHalf(a, retval) && buf[at..at + retval] == Peeks(dev.Mem(), a, retval)
      ensures retval == count ==> buf[..] == Splice(old(buf[..]), at, Peeks(dev.Mem(), a, count))
    {
      hide Peeks, Splice;
      hide SmbusFpga.Transfers, SmbusDriver.PciDevice.Valid, ReadEnds, ReadCount;
      retval := 0;
      ghost var b0, mem := buf[..], dev.Mem();
      NothingSpliced(b0, at, Peeks(mem, a, 0));
      while retval < count
        invariant 0 <= retval <= count && InHalf(a, retval)
        invariant Valid() && dev.OthersKept() && dev.Mem() == mem
        invariant buf[..] == Splice(b0, at, Peeks(mem, a, retval))
      {
        PeeksConcat(mem, a, retval, count - retval);
        ghost var b := buf[..];
        var status := EepromRead(buf, at + retval, a + retval, count - retval);
        if status <= 0 {
          ShortRead(b0, b, buf[..], at, Peeks(mem, a, retval), count);
          if retval == 0 {
            retval := status;
          }
          return;
        }
        PeeksConcat(mem, a, retval, status);
        SpliceTwice(b0, at, Peeks(mem, a, retval), Peeks(mem, a + retval, status));
        retval := retval + status;
      }
      ShortRead(b0, buf[..], buf[..], at, Peeks(mem, a, count), count);
    }

    /** Writes all of data, one transaction after the other. */
    method WriteChunk(data: seq<Byte>, a: nat) returns (retval: int)
      requires Valid() && InHalf(a, |data|) && |data| > 0
      modifies dev`own, dev`log, dev.bus
      ensures Valid() && dev.OthersKept()
      ensures 0 != retval <= |data| && (dev.reliable ==> retval == |data|)
      ensures retval < 0 ==> retval == -110
      ensures exists k: nat :: retval <= k <= |data| && (dev.atomic ==> k == if retval < 0 then 0 else retval) &&
                InHalf(a, k) && dev.Mem() == Poke(old(dev.Mem()), a, data[..k])
    {
      hide Poke;
      hide SmbusFpga.Transfers, SmbusDriver.PciDevice.Valid, WriteEnds, WriteCount;
      retval := 0;
      ghost var m0 := dev.Mem();
      NothingPoked(m0, a, data);
      while retval < |data|
        invariant Valid() && dev.OthersKept()
        invariant 0 <= retval <= |data| && InHalf(a, retval)
        invariant dev.Mem() == Poke(m0, a, data[..retval])
      {
        var rest := data[retval..];
        assert InHalf(a + retval, |rest|);
        ghost var m := dev.Mem();
        var status := EepromWrite(rest, a + retval);
        if status <= 0 {
          ghost var k: nat :| k <= |rest| && (dev.atomic ==> k == 0) && InHalf(a + retval, k) &&
            dev.Mem() == Poke(m, a + retval, rest[..k]);
          PokeTwice(m0, a, data[..retval], rest[..k]);
          assert data[..retval] + rest[..k] == data[..retval + k];
          if retval == 0 {
            retval := status;
          }
          return;
        }
        PokeTwice(m0, a, data[..retval], rest[..status]);
        assert data[..retval] + rest[..status] == data[..retval + status];
        retval := retval + status;
      }
    }

    /**
     Transfers count bytes of one chunk between buf[at..] and flat offset `off`. Also tells whether the page
     could not be selected, or the page register not be set back.
     */
    method UpdateClient(buf: array<Byte>, at: nat, off: nat, count: nat, op: Opcode)
      returns (retval: int, selectFailed: bool, restoreFailed: bool)
      requires Valid() && InChunk(off, count) && at + count <= buf.Length
      modifies buf, dev`own, dev`log, dev.bus
      ensures Valid() && dev.OthersKept()
      ensures 0 != retval <= count && (selectFailed || restoreFailed ==> retval == -110)
      ensures retval < 0 ==> retval == -110 || (retval == -6 && op == ReadOp)
      ensures dev.reliable ==> retval == count
      ensures if op == WriteOp then buf[..] == old(buf[..]) else Elsewhere(old(buf[..]), buf[..], at, count)
      ensures old(dev.Mem()).Page() == 0 && (retval >= 0 || !PageLost(selectFailed, restoreFailed)) ==>
                if op == ReadOp then dev.Mem() == old(dev.Mem())
                else Stored(Flat(old(dev.Mem())), Flat(dev.Mem()), off, old(buf[at..at + count]), retval, dev.atomic)
      ensures op == ReadOp && old(dev.Mem()).Page() == 0 && retval >= 0 ==>
                buf[at..at + retval] == Flat(old(dev.Mem()))[off..off + retval]
      ensures op == ReadOp && old(dev.Mem()).Page() == 0 && retval == count ==>
                buf[..] == Splice(old(buf[..]), at, Flat(old(dev.Mem()))[off..off + count])
      ensures op == WriteOp && retval == count ==>
                dev.Mem() == Written(old(dev.Mem()), off, count, old(buf[at..at + count]))
    {
      hide Poke, Peeks, Splice, Stored, Flat, Written, Selected, Deselected, Elsewhere, InHalf;
      hide SmbusFpga.Transfers, SmbusDriver.PciDevice.Valid;
      selectFailed, restoreFailed := false, false;
      ghost var m0, data := dev.Mem(), buf[at..at + count];
      var place := Translate(off);
      ChunkInHalf(off, count);
      retval := SelectPage(place.page);
      if retval < 0 {
        selectFailed := true;
        UnchangedIsStored(m0, off, data, retval);
        NothingElsewhere(buf[..], at, count);
        return;
      }
      ghost var k: nat := 0;
      if op == ReadOp {
        retval := ReadChunk(buf, at, place.addr, count);
        ChunkRead(m0, off, count, retval);
      } else {
        retval := WriteChunk(buf[at..at + count], place.addr);
        k :| retval <= k <= count && (dev.atomic ==> k == if retval < 0 then 0 else retval) &&
          InHalf(place.addr, k) && dev.Mem() == Poke(Selected(m0, place.page), place.addr, data[..k]);
      }
      var ret := DeselectPage(place.page);
      if ret < 0 {
        retval, restoreFailed := ret, true;
        return;
      }
      if op == WriteOp {
        ChunkWritten(m0, dev.Mem(), off, count, data, k, retval, dev.atomic);
      }
    }

    /** Page 0 is shown anyway. */
    method SelectPage(page: nat) returns (r: int)
      requires Valid() && page < PAGES
      modifies dev`own, dev`log, dev.bus
      ensures Valid() && dev.OthersKept()
      ensures r < 0 ==> r == -110
      ensures r >= 0 ==> dev.Mem() == Selected(old(dev.Mem()), page)
      ensures r < 0 && dev.atomic ==> dev.Mem() == old(dev.Mem())
      ensures dev.reliable ==> r >= 0
    {
      hide Poke;
      r := 0;
      if page > 0 {
        ghost var m0 := dev.Mem();
        NothingPoked(m0, PAGE_SELECT, [page]);
        r := EepromWrite([page], PAGE_SELECT);
        assert [page][..1] == [page];
      }
    }

    method DeselectPage(page: nat) returns (r: int)
      requires Valid() && page < PAGES
      modifies dev`own, dev`log, dev.bus
      ensures Valid() && dev.OthersKept()
      ensures r < 0 ==> r == -110
      ensures r >= 0 ==> dev.Mem() == Deselected(old(dev.Mem()), page)
      ensures dev.reliable ==> r >= 0
    {
      hide Poke;
      r := 0;
      if page > 0 {
        r := EepromWrite([0], PAGE_SELECT);
        assert [0][..1] == [0];
      }
    }

    // -----------------------------------------------------------------------
    // Transfers
    // -----------------------------------------------------------------------

    /** The length that an access may have, or a negative status. */
    method PageLegal(off: nat, len: nat) returns (r: int)
      requires Valid() && len > 0
      modifies dev`log, dev.bus
      ensures Valid() && dev.OthersKept() && dev.Mem() == old(dev.Mem())
      ensures r >= 0 ==> Grants(off, len) && r == Granted(dev.Mem(), off, len)
      ensures r < 0 ==> !Grants(off, len) || !dev.reliable
      ensures r < 0 ==> if Grants(off, len) then r == -6 || r == -110 else r == -22
      ensures off + len <= 256 ==> r == len && dev.log == old(dev.log)
      ensures off + len > 256 && off >= 640 ==> r == -22 && dev.log == old(dev.log)
    {
      if off + len <= UNPAGED_SIZE {
        return len;
      }
      if off >= EEPROM_SIZE {
        return -EINVAL;
      }
      var reg := new Byte[1];
      var status := EepromRead(reg, 0, PAGEABLE_REG, 1);
      if status < 0 {
        return status;
      }
      assert reg[..][0] == dev.Mem().lower[PAGEABLE_REG];
      var maxLen: nat;
      if reg[0] / 4 % 2 == 1 {
        maxLen := (UNPAGED_SIZE - off) % SIZE_T;
      } else {
        maxLen := EEPROM_SIZE - off;
      }
      r := if len > maxLen then maxLen else len;
    }

    /**
     A whole transfer between buf and flat offset `off`. `wrapped` tells that the access was refused; the
     driver then takes the negative status for an enormous length, which is beyond this model.
     */
    method ReadWrite(buf: array<Byte>, off: nat, len: nat, op: Opcode)
      returns (status: int, selectFailed: bool, restoreFailed: bool, wrapped: bool)
      requires Valid()
      requires len <= buf.Length && off + len <= IMAGE_SIZE
      modifies buf, dev`own, dev`log, dev.bus
      ensures Valid() && dev.OthersKept()
      ensures len == 0 ==> status == 0 && !wrapped && !selectFailed && !restoreFailed
      ensures selectFailed || restoreFailed ==> status == -110
      ensures status < 0 ==> status == -110 || (status == -6 && op == ReadOp)
      ensures wrapped ==> status == 0 && (!Grants(off, len) || !dev.reliable)
      ensures wrapped || len == 0 ==> dev.Mem() == old(dev.Mem()) && buf[..] == old(buf[..])
      ensures len > 0 && !wrapped ==>
                && Grants(off, len)
                && var granted := Granted(old(dev.Mem()), off, len);
                && (dev.reliable ==> status == granted)
                && (status == granted || (status != 0 && status < 128))
                && Outcome(op, off, granted, old(dev.Mem()), dev.Mem(), old(buf[..]), buf[..], status,
                           PageLost(selectFailed, restoreFailed))
    {
      hide Outcome, Flat, Splice, Granted;
      status, selectFailed, restoreFailed, wrapped := 0, false, false, false;
      if len == 0 {
        return;
      }
      var legal := PageLegal(off, len);
      if legal < 0 {
        wrapped := true;
        return;
      }
      NothingGranted(dev.Mem(), off, len);
      status, selectFailed, restoreFailed := Transfer(buf, off, legal, op);
    }

    /** Chunk by chunk, until one falls short; then what that chunk moved, or its error, is returned. */
    method Transfer(buf: array<Byte>, off: nat, legal: nat, op: Opcode)
      returns (status: int, selectFailed: bool, restoreFailed: bool)
      requires Valid()
      requires legal <= buf.Length && off + legal <= IMAGE_SIZE
      requires legal == 0 ==> (off - 1) / PAGE_SIZE < off / PAGE_SIZE
      modifies buf, dev`own, dev`log, dev.bus
      ensures Valid() && dev.OthersKept()
      ensures selectFailed || restoreFailed ==> status == -110
      ensures status < 0 ==> status == -110 || (status == -6 && op == ReadOp)
      ensures dev.reliable ==> status == legal
      ensures status == legal || (status != 0 && status < 128)
      ensures Outcome(op, off, legal, old(dev.Mem()), dev.Mem(), old(buf[..]), buf[..], status,
                      PageLost(selectFailed, restoreFailed))
    {
      hide Progress, Outcome, Stored, Flat, Splice, InChunk, DoneAt, Elsewhere, Written;
      status, selectFailed, restoreFailed := 0, false, false;
      ghost var m0, b0 := dev.Mem(), buf[..];
      var pending, retval := legal, 0;
      var chunk := off / PAGE_SIZE;
      NoProgress(op, off, legal, m0, b0);
      Bounds(off, legal);
      while chunk <= (off + legal - 1) / PAGE_SIZE
        invariant Valid() && dev.OthersKept() && off / PAGE_SIZE <= chunk
        invariant legal > 0 ==> chunk <= (off + legal - 1) / PAGE_SIZE + 1
        invariant retval == DoneAt(off, legal, chunk) <= legal && pending == legal - retval
        invariant !selectFailed && !restoreFailed
        invariant Progress(op, off, legal, m0, dev.Mem(), b0, buf[..], retval)
      {
        var c := ChunkAt(off, chunk, pending);
        ChunksTile(off, legal, chunk);
        ghost var m, b := dev.Mem(), buf[..];
        label before:
        status, selectFailed, restoreFailed := UpdateClient(buf, retval, c.0, c.1, op);
        assert old@before(buf[retval..retval + c.1]) == b[retval..retval + c.1];
        if status != c.1 {
          Stopped(op, off, legal, m0, m, dev.Mem(), b0, b, buf[..], retval, c.1, status,
                  PageLost(selectFailed, restoreFailed), dev.atomic);
          return;
        }
        Advance(op, off, legal, m0, m, dev.Mem(), b0, b, buf[..], retval, c.1);
        pending := pending - status;
        retval := retval + status;
        chunk := chunk + 1;
      }
      Finished(op, off, legal, m0, dev.Mem(), b0, buf[..]);
      status := retval;
    }
  }

  /** The number of bytes that a transfer moves on a module that fails no transaction. */
  method AccessLength(port: Port, buf: array<Byte>, off: nat, op: Opcode, ghost hi: nat, ghost lo: nat) returns (status: int)
    requires port.Valid() && port.dev.reliable && off < 640 && 256 < off + buf.Length <= IMAGE_SIZE && lo < 4
    requires var b := port.dev.Mem().lower[2]; b == 8 * hi + lo || (b == 8 * hi + 4 + lo && off <= 256)
    modifies buf, port.dev`own, port.dev`log, port.dev.bus
    ensures port.Valid()
    ensures var end := if old(port.dev.Mem().lower[2]) == 8 * hi + lo then 640 else 256;
            status == if off + buf.Length <= end then buf.Length else end - off
  {
    hide Outcome, Granted, Grants;
    GrantedByBit(port.dev.Mem(), off, buf.Length, hi, lo);
    var selectFailed, restoreFailed, wrapped;
    status, selectFailed, restoreFailed, wrapped := port.ReadWrite(buf, off, buf.Length, op);
  }

  // -------------------------------------------------------------------------
  // Chunks
  // -------------------------------------------------------------------------

  lemma ChunkRead(m: Memory, off: nat, count: nat, retval: int)
    requires m.Shape() && InChunk(off, count) && retval <= count
    ensures var p := Translate(off);
            && p.page < PAGES && InHalf(p.addr, count)
            && (m.Page() == 0 ==> Deselected(Selected(m, p.page), p.page) == m)
            && (m.Page() == 0 && retval > 0 ==>
                  InHalf(p.addr, retval) && Peeks(Selected(m, p.page), p.addr, retval) == Flat(m)[off..off + retval])
  {
    ChunkInHalf(off, count);
    if m.Page() == 0 {
      SelectDeselect(m, Translate(off).page);
      if retval > 0 {
        ChunkReads(m, off, retval);
      }
    }
  }

  lemma ChunkWritten(m0: Memory, m: Memory, off: nat, count: nat, data: seq<Byte>, k: nat, retval: int, atomic: bool)
    requires m0.Shape() && m.Shape() && InChunk(off, count) && |data| == count && retval <= k <= count
    requires atomic ==> k == if retval < 0 then 0 else retval
    requires var p := Translate(off);
             p.page < PAGES && InHalf(p.addr, k) &&
             m == Deselected(Poke(Selected(m0, p.page), p.addr, data[..k]), p.page)
    ensures m0.Page() == 0 ==> Stored(Flat(m0), Flat(m), off, data, retval, atomic)
    ensures retval == count ==> m == Written(m0, off, count, data)
  {
    hide Poke, Flat, Splice;
    assert m == Written(m0, off, count, data[..k]);
    if m0.Page() == 0 {
      ChunkWrites(m0, off, count, data[..k]);
      StoredPrefix(Flat(m0), off, data, k, retval, atomic);
    }
    assert data[..count] == data;
  }

  // -------------------------------------------------------------------------
  // Buffers
  // -------------------------------------------------------------------------

  lemma NothingElsewhere(b: seq<Byte>, at: nat, count: nat)
    requires at + count <= |b|
    ensures Elsewhere(b, b, at, count)
  {}

  lemma SpliceOver(b0: seq<Byte>, b: seq<Byte>, at: nat, data: seq<Byte>)
    requires Elsewhere(b0, b, at, |data|)
    ensures Splice(b, at, data) == Splice(b0, at, data)
  {}

  lemma ElsewhereAgain(b0: seq<Byte>, b: seq<Byte>, b': seq<Byte>, at: nat, n: nat)
    requires Elsewhere(b0, b, at, n) && Elsewhere(b, b', at, n)
    ensures Elsewhere(b0, b', at, n)
  {}

  lemma ElsewhereWider(b0: seq<Byte>, b: seq<Byte>, at: nat, n: nat, count: nat)
    requires Elsewhere(b0, b, at, n) && n <= count && at + count <= |b0|
    ensures Elsewhere(b0, b, at, count)
  {
    assert b[at + count..] == b[at + n..][count - n..] && b0[at + count..] == b0[at + n..][count - n..];
  }

  /** Some bytes have been read, and a further read has failed. */
  lemma ShortRead(b0: seq<Byte>, b: seq<Byte>, b': seq<Byte>, at: nat, data: seq<Byte>, count: nat)
    requires |data| <= count && at + count <= |b0| && b == Splice(b0, at, data)
    requires Elsewhere(b, b', at + |data|, count - |data|)
    ensures Elsewhere(b0, b', at, count) && b'[at..at + |data|] == data
  {
    assert b'[..at + |data|] == b[..at + |data|];
    assert b'[at..at + |data|] == b'[..at + |data|][at..] && b[at..at + |data|] == b[..at + |data|][at..];
    assert b'[..at] == b'[..at + |data|][..at];
  }

  /** Nothing is granted only at the end of an unpaged module, and then no chunk is visited. */
  lemma NothingGranted(m: Memory, off: nat, len: nat)
    requires m.Shape() && Grants(off, len) && len > 0
    ensures Granted(m, off, len) == 0 ==> (off - 1) / PAGE_SIZE < off / PAGE_SIZE
  {}

  lemma Bounds(off: nat, len: nat)
    ensures DoneAt(off, len, off / PAGE_SIZE) == 0
    ensures len > 0 ==> off / PAGE_SIZE <= (off + len - 1) / PAGE_SIZE
    ensures len > 0 ==> DoneAt(off, len, (off + len - 1) / PAGE_SIZE + 1) == len
    ensures len == 0 ==> forall c: nat :: DoneAt(off, len, c) == 0
  {}

  lemma NothingSpliced(s: seq<Byte>, at: nat, none: seq<Byte>)
    requires at <= |s| && none == []
    ensures Splice(s, at, none) == s
  {}

  lemma UnchangedIsStored(m: Memory, off: nat, data: seq<Byte>, r: int)
    requires m.Shape() && off + |data| <= IMAGE_SIZE && r <= 0
    ensures Stored(Flat(m), Flat(m), off, data, r, true)
  {
    assert Splice(Flat(m), off, data[..0]) == Flat(m);
  }

  method CopyInto(buf: array<Byte>, at: nat, data: seq<Byte>)
    requires at + |data| <= buf.Length
    modifies buf
    ensures buf[..] == Splice(old(buf[..]), at, data)
  {
    var i := 0;
    while i < |data|
      invariant i <= |data|
      invariant buf[..] == Splice(old(buf[..]), at, data[..i])
    {
      buf[at + i] := data[i];
      i := i + 1;
    }
    assert data[..i] == data;
  }
}
