/**
 Transfers of several threads on one FPGA. The semaphore of a channel is held by one thread at a time, and
 every access goes to the block of the channel whose semaphore its thread holds; then any interleaving is
 equivalent to running the transfers one after another.
 */
module SmbusIsolation {
  import opened SmbusLink
  import opened SmbusFpga

  datatype Tagged = Tagged(tid: nat, op: Op)

  type Log = seq<Tagged>

  // -------------------------------------------------------------------------
  // The discipline
  // -------------------------------------------------------------------------

  type Holding = map<nat, nat>  // thread to channel

  predicate Free(h: Holding, ch: nat) {
    forall t <- h :: h[t] != ch
  }

  /** A thread holds one semaphore at a time, works on that channel only, and gives it back. */
  predicate Allowed(h: Holding, e: Tagged) {
    match e.op
    case Down(ch) => e.tid !in h && Free(h, ch)
    case Up(ch) => e.tid in h && h[e.tid] == ch
    case Wr(addr, _, _, _) => e.tid in h && h[e.tid] == ChannelOf(addr)
    case Rd(addr, _) => e.tid in h && h[e.tid] == ChannelOf(addr)
  }

  function After(h: Holding, e: Tagged): Holding {
    match e.op
    case Down(ch) => h[e.tid := ch]
    case Up(_) => h - {e.tid}
    case _ => h
  }

  function Holders(g: Log): Holding {
    if g == [] then map[] else After(Holders(g[..|g| - 1]), g[|g| - 1])
  }

  predicate Legal(g: Log) {
    g == [] || (Legal(g[..|g| - 1]) && Allowed(Holders(g[..|g| - 1]), g[|g| - 1]))
  }

  // -------------------------------------------------------------------------
  // What an interleaving means
  // -------------------------------------------------------------------------

  function Ops(g: Log): (r: seq<Op>)
    ensures |r| == |g|
  {
    seq(|g|, i requires 0 <= i < |g| => g[i].op)
  }

  function Filter(g: Log, p: Tagged -> bool): Log {
    if g == [] then []
    else Filter(g[..|g| - 1], p) + (if p(g[|g| - 1]) then [g[|g| - 1]] else [])
  }

  function ByThread(t: nat): Tagged -> bool {
    (e: Tagged) => e.tid == t
  }

  function ByChannel(c: nat): Tagged -> bool {
    (e: Tagged) => Target(e.op) == c
  }

  /** What a read of a register yields. */
  function Answer(c: Channel, addr: nat): nat {
    if RegisterOf(addr) == COMMAND_STATUS then Status(c)
    else if RegisterOf(addr) == TRANSMIT_RECEIVE then c.link.rx
    else 0
  }

  /** Every read returned what the hardware held when it happened. */
  predicate Faithful(hw: Hw, g: Log) {
    if g == [] then true
    else
      && Faithful(hw, g[..|g| - 1])
      && match g[|g| - 1].op
         case Rd(addr, val) =>
           0 <= ChannelOf(addr) < CHANNELS ==>
             val == Answer(Replay(hw, Ops(g[..|g| - 1]))[ChannelOf(addr)], addr)
         case _ => true
  }

  // -------------------------------------------------------------------------
  // One channel on its own
  // -------------------------------------------------------------------------

  function ReplayChannel(c: Channel, g: Log): (r: Channel)
    requires c.link.Shape()
    ensures r.link.Shape()
  {
    if g == [] then c else StepChannel(ReplayChannel(c, g[..|g| - 1]), g[|g| - 1].op)
  }

  predicate FaithfulChannel(c: Channel, g: Log)
    requires c.link.Shape()
  {
    if g == [] then true
    else
      && FaithfulChannel(c, g[..|g| - 1])
      && match g[|g| - 1].op
         case Rd(addr, val) => val == Answer(ReplayChannel(c, g[..|g| - 1]), addr)
         case _ => true
  }

  lemma OpsOne(g: Log)
    requires g != []
    ensures Ops(g) == Ops(g[..|g| - 1]) + [g[|g| - 1].op]
  {}

  lemma FilterLast(g: Log, p: Tagged -> bool)
    requires g != []
    ensures var f, e := Filter(g[..|g| - 1], p), g[|g| - 1];
            && Filter(g, p) == (if p(e) then f + [e] else f)
            && (p(e) ==> Filter(g, p)[..|f|] == f)
  {}

  /** A channel is driven by the accesses to its own block alone. */
  lemma {:induction false} ChannelAlone(hw: Hw, g: Log, c: nat)
    requires c < CHANNELS
    ensures Replay(hw, Ops(g))[c] == ReplayChannel(hw[c], Filter(g, ByChannel(c)))
  {
    if g != [] {
      var g', e := g[..|g| - 1], g[|g| - 1];
      ChannelAlone(hw, g', c);
      OpsOne(g);
      ReplayOne(hw, Ops(g'), e.op);
      FilterLast(g, ByChannel(c));
    }
  }

  lemma {:induction false} FaithfulAlone(hw: Hw, g: Log)
    ensures Faithful(hw, g) <==> forall c: nat :: c < CHANNELS ==> FaithfulChannel(hw[c], Filter(g, ByChannel(c)))
  {
    if g != [] {
      var g', e := g[..|g| - 1], g[|g| - 1];
      FaithfulAlone(hw, g');
      forall c: nat | c < CHANNELS
        ensures FaithfulChannel(hw[c], Filter(g, ByChannel(c))) <==>
                FaithfulChannel(hw[c], Filter(g', ByChannel(c))) &&
                (e.op.Rd? && ChannelOf(e.op.addr) == c ==> e.op.val == Answer(Replay(hw, Ops(g'))[c], e.op.addr))
      {
        ChannelAlone(hw, g', c);
        FilterLast(g, ByChannel(c));
      }
    }
  }

  /** Logs that agree on each channel do the same to the hardware, and their reads agree with it alike. */
  lemma SameChannelsSameRun(hw: Hw, g: Log, s: Log)
    requires forall c: nat :: Filter(s, ByChannel(c)) == Filter(g, ByChannel(c))
    ensures Replay(hw, Ops(s)) == Replay(hw, Ops(g))
    ensures Faithful(hw, s) <==> Faithful(hw, g)
  {
    forall c: nat | c < CHANNELS
      ensures Replay(hw, Ops(s))[c] == Replay(hw, Ops(g))[c]
    {
      ChannelAlone(hw, s, c);
      ChannelAlone(hw, g, c);
    }
    FaithfulAlone(hw, s);
    FaithfulAlone(hw, g);
  }

  // -------------------------------------------------------------------------
  // The transfers of a log
  // -------------------------------------------------------------------------

  /** One transfer: what a thread did to a channel from taking its semaphore on. */
  datatype Block = Block(tid: nat, ch: nat, log: Log)

  /** The last transfer this thread began. */
  function Latest(blocks: seq<Block>, tid: nat): (i: nat)
    ensures i <= |blocks|
    ensures i < |blocks| ==> blocks[i].tid == tid
    ensures forall j :: i < j < |blocks| ==> blocks[j].tid != tid
  {
    if blocks == [] then 0
    else if blocks[|blocks| - 1].tid == tid then |blocks| - 1
    else
      var i := Latest(blocks[..|blocks| - 1], tid);
      if i == |blocks| - 1 then |blocks| else i
  }

  /** The transfers in the order in which they took their semaphores. */
  function Blocks(g: Log): seq<Block> {
    if g == [] then []
    else
      var blocks, e := Blocks(g[..|g| - 1]), g[|g| - 1];
      match e.op
      case Down(ch) => blocks + [Block(e.tid, ch, [e])]
      case _ =>
        var i := Latest(blocks, e.tid);
        if i < |blocks| then Extend(blocks, i, e) else blocks
  }

  /** One transfer after another. */
  function Flatten(blocks: seq<Block>): Log {
    if blocks == [] then [] else Flatten(blocks[..|blocks| - 1]) + blocks[|blocks| - 1].log
  }

  /** A transfer in progress: the semaphore was taken, and only the channel was accessed. */
  ghost predicate Begun(b: Block) {
    && b.log != []
    && b.log[0] == Tagged(b.tid, Down(b.ch))
    && forall i :: 1 <= i < |b.log| ==>
         b.log[i].tid == b.tid && (b.log[i].op.Wr? || b.log[i].op.Rd?) && Target(b.log[i].op) == b.ch
  }

  /** A finished transfer also gave the semaphore back. */
  ghost predicate Finished(b: Block) {
    && |b.log| >= 2
    && Begun(b.(log := b.log[..|b.log| - 1]))
    && b.log[|b.log| - 1] == Tagged(b.tid, Up(b.ch))
  }

  ghost predicate IsLatest(blocks: seq<Block>, i: nat) {
    && i < |blocks|
    && forall j :: i < j < |blocks| ==> blocks[j].tid != blocks[i].tid && blocks[j].ch != blocks[i].ch
  }

  /** The transfer of a holder: the last of its thread and of its channel. */
  ghost predicate InProgress(blocks: seq<Block>, h: Holding, i: nat) {
    && IsLatest(blocks, i)
    && Begun(blocks[i])
    && blocks[i].tid in h && h[blocks[i].tid] == blocks[i].ch
  }

  ghost predicate Has(blocks: seq<Block>, h: Holding, t: nat) {
    exists i: nat :: InProgress(blocks, h, i) && blocks[i].tid == t
  }

  ghost predicate Ordered(blocks: seq<Block>, h: Holding) {
    && (forall i: nat :: i < |blocks| ==> Finished(blocks[i]) || InProgress(blocks, h, i))
    && (forall t <- h :: Has(blocks, h, t))
    && (forall t, u :: t in h && u in h && h[t] == h[u] ==> t == u)
  }

  lemma LatestIs(blocks: seq<Block>, i: nat)
    requires IsLatest(blocks, i)
    ensures Latest(blocks, blocks[i].tid) == i
  {
    var k := Latest(blocks, blocks[i].tid);
    LatestExists(blocks, i);
  }

  lemma {:induction false} LatestExists(blocks: seq<Block>, i: nat)
    requires i < |blocks|
    ensures i <= Latest(blocks, blocks[i].tid) < |blocks|
  {
    if blocks[|blocks| - 1].tid != blocks[i].tid {
      LatestExists(blocks[..|blocks| - 1], i);
    }
  }

  lemma OnlyTaken(e: Tagged)
    requires e.op.Down?
    ensures Begun(Block(e.tid, e.op.ch, [e]))
  {}

  lemma DownOrdered(blocks: seq<Block>, h: Holding, e: Tagged)
    requires Ordered(blocks, h) && Allowed(h, e) && e.op.Down?
    ensures Ordered(blocks + [Block(e.tid, e.op.ch, [e])], After(h, e))
  {
    hide Finished, Begun;
    var b := Block(e.tid, e.op.ch, [e]);
    var all, h' := blocks + [b], After(h, e);
    forall i: nat | InProgress(blocks, h, i) ensures InProgress(all, h', i) {}
    OnlyTaken(e);
    assert InProgress(all, h', |blocks|);
    forall t <- h' ensures Has(all, h', t) {
      if t == e.tid {
        assert all[|blocks|].tid == t;
      } else {
        var i: nat :| InProgress(blocks, h, i) && blocks[i].tid == t;
        assert InProgress(all, h', i) && all[i].tid == t;
      }
    }
  }

  /** A transfer in progress at this position takes another step. */
  function Extend(blocks: seq<Block>, i: nat, e: Tagged): seq<Block>
    requires i < |blocks|
  {
    blocks[i := blocks[i].(log := blocks[i].log + [e])]
  }

  lemma StepTaken(b: Block, e: Tagged)
    requires Begun(b) && e.tid == b.tid && Target(e.op) == b.ch && !e.op.Down?
    ensures var b' := b.(log := b.log + [e]); if e.op.Up? then Finished(b') else Begun(b')
  {
    var b' := b.(log := b.log + [e]);
    assert b'.log[..|b.log|] == b.log;
    assert b.(log := b.log) == b;
  }

  /** The step of a holder belongs to its transfer in progress. */
  lemma HolderOrdered(blocks: seq<Block>, h: Holding, e: Tagged) returns (i: nat)
    requires Ordered(blocks, h) && Allowed(h, e) && !e.op.Down?
    ensures i < |blocks| && i == Latest(blocks, e.tid) && IsLatest(blocks, i)
    ensures blocks[i].tid == e.tid && blocks[i].ch == Target(e.op)
    ensures Ordered(Extend(blocks, i, e), After(h, e))
  {
    hide Finished, Begun;
    assert Has(blocks, h, e.tid);
    i :| InProgress(blocks, h, i) && blocks[i].tid == e.tid;
    LatestIs(blocks, i);
    ExtendOrdered(blocks, h, e, i);
  }

  lemma ExtendOrdered(blocks: seq<Block>, h: Holding, e: Tagged, i: nat)
    requires Ordered(blocks, h) && Allowed(h, e) && !e.op.Down?
    requires InProgress(blocks, h, i) && blocks[i].tid == e.tid
    ensures Ordered(Extend(blocks, i, e), After(h, e))
  {
    hide Finished, Begun;
    var all, h' := Extend(blocks, i, e), After(h, e);
    forall j: nat | j < |all| ensures Finished(all[j]) || InProgress(all, h', j) {
      ExtendInProgress(blocks, h, e, i, j);
    }
    forall t <- h' ensures Has(all, h', t) {
      assert Has(blocks, h, t);
      var j: nat :| InProgress(blocks, h, j) && blocks[j].tid == t;
      ExtendInProgress(blocks, h, e, i, j);
    }
  }

  lemma ExtendInProgress(blocks: seq<Block>, h: Holding, e: Tagged, i: nat, j: nat)
    requires Allowed(h, e) && !e.op.Down?
    requires InProgress(blocks, h, i) && blocks[i].tid == e.tid
    ensures var all, h' := Extend(blocks, i, e), After(h, e);
            InProgress(blocks, h, j) && blocks[j].tid in h' ==> InProgress(all, h', j) && all[j].tid == blocks[j].tid
    ensures i == j && e.op.Up? ==> Finished(Extend(blocks, i, e)[j])
    ensures i != j && InProgress(blocks, h, j) ==> blocks[j].tid in After(h, e)
  {
    hide Finished, Begun;
    StepTaken(blocks[i], e);
  }

  lemma {:induction false} BlocksOrdered(g: Log)
    requires Legal(g)
    ensures Ordered(Blocks(g), Holders(g))
  {
    if g != [] {
      var g', e := g[..|g| - 1], g[|g| - 1];
      BlocksOrdered(g');
      if e.op.Down? {
        DownOrdered(Blocks(g'), Holders(g'), e);
      } else {
        var _ := HolderOrdered(Blocks(g'), Holders(g'), e);
      }
    }
  }

  // -------------------------------------------------------------------------
  // Every thread and every channel sees the same
  // -------------------------------------------------------------------------

  lemma {:induction false} FilterConcat(a: Log, b: Log, p: Tagged -> bool)
    ensures Filter(a + b, p) == Filter(a, p) + Filter(b, p)
  {
    if b == [] {
      assert a + b == a;
    } else {
      FilterConcat(a, b[..|b| - 1], p);
      assert (a + b)[..|a + b| - 1] == a + b[..|b| - 1];
    }
  }

  lemma {:induction false} FilterNone(g: Log, p: Tagged -> bool)
    requires forall k :: 0 <= k < |g| ==> !p(g[k])
    ensures Filter(g, p) == []
  {
    if g != [] {
      FilterNone(g[..|g| - 1], p);
    }
  }

  lemma FilterOne(g: Log, e: Tagged, p: Tagged -> bool)
    ensures Filter(g + [e], p) == Filter(g, p) + (if p(e) then [e] else [])
  {
    assert (g + [e])[..|g|] == g;
  }

  lemma FilterFlatten(blocks: seq<Block>, p: Tagged -> bool)
    requires blocks != []
    ensures Filter(Flatten(blocks), p) ==
            Filter(Flatten(blocks[..|blocks| - 1]), p) + Filter(blocks[|blocks| - 1].log, p)
  {
    FilterConcat(Flatten(blocks[..|blocks| - 1]), blocks[|blocks| - 1].log, p);
  }

  /** A step put at the end of its transfer is, for those who can see it, put at the end of the log. */
  lemma {:induction false} StepAtEnd(blocks: seq<Block>, i: nat, e: Tagged, p: Tagged -> bool)
    requires i < |blocks|
    requires p(e) ==> forall j :: i < j < |blocks| ==> Filter(blocks[j].log, p) == []
    ensures Filter(Flatten(Extend(blocks, i, e)), p) == Filter(Flatten(blocks), p) + (if p(e) then [e] else [])
  {
    hide Filter, Flatten;
    var n := |blocks| - 1;
    var all := Extend(blocks, i, e);
    FilterFlatten(blocks, p);
    FilterFlatten(all, p);
    if i == n {
      assert all[..n] == blocks[..n];
      FilterOne(blocks[n].log, e, p);
    } else {
      assert all[..n] == Extend(blocks[..n], i, e);
      StepAtEnd(blocks[..n], i, e, p);
    }
  }

  /** A view that takes in whole threads or whole channels. */
  ghost predicate Coarse(p: Tagged -> bool) {
    (exists t: nat :: p == ByThread(t)) || (exists c: nat :: p == ByChannel(c))
  }

  lemma OthersUnseen(blocks: seq<Block>, h: Holding, i: nat, e: Tagged, p: Tagged -> bool)
    requires Ordered(blocks, h) && IsLatest(blocks, i)
    requires blocks[i].tid == e.tid && blocks[i].ch == Target(e.op)
    requires Coarse(p) && p(e)
    ensures forall j :: i < j < |blocks| ==> Filter(blocks[j].log, p) == []
  {
    forall j | i < j < |blocks| ensures Filter(blocks[j].log, p) == [] {
      forall k | 0 <= k < |blocks[j].log| ensures !p(blocks[j].log[k]) {
        OneTransfer(blocks[j], k);
      }
      FilterNone(blocks[j].log, p);
    }
  }

  lemma OneTransfer(b: Block, k: nat)
    requires Begun(b) || Finished(b)
    requires k < |b.log|
    ensures b.log[k].tid == b.tid && Target(b.log[k].op) == b.ch
  {
    if !Begun(b) && k < |b.log| - 1 {
      assert b.log[..|b.log| - 1][k] == b.log[k];
    }
  }

  lemma {:induction false} SameView(g: Log, p: Tagged -> bool)
    requires Legal(g) && Coarse(p)
    ensures Filter(Flatten(Blocks(g)), p) == Filter(g, p)
  {
    hide Ordered, Coarse;
    if g != [] {
      var g', e := g[..|g| - 1], g[|g| - 1];
      SameView(g', p);
      BlocksOrdered(g');
      FilterLast(g, p);
      if e.op.Down? {
        FlattenOne(Blocks(g'), Block(e.tid, e.op.ch, [e]));
        FilterOne(Flatten(Blocks(g')), e, p);
      } else {
        var i := HolderOrdered(Blocks(g'), Holders(g'), e);
        if p(e) {
          OthersUnseen(Blocks(g'), Holders(g'), i, e, p);
        }
        StepAtEnd(Blocks(g'), i, e, p);
      }
    }
  }

  lemma FlattenOne(blocks: seq<Block>, b: Block)
    ensures Flatten(blocks + [b]) == Flatten(blocks) + b.log
  {
    assert (blocks + [b])[..|blocks|] == blocks;
  }

  // -------------------------------------------------------------------------
  // The driver keeps the discipline
  // -------------------------------------------------------------------------

  /** A thread of the driver, at any moment. */
  ghost predicate Follows(ops: seq<Op>) {
    exists all :: Transfers(all) && ops <= all
  }

  /** Down is passed only while the semaphore, which starts at one, is positive. */
  function Semaphore(g: Log, ch: nat): int {
    if g == [] then 1
    else Semaphore(g[..|g| - 1], ch) + (match g[|g| - 1].op
                                        case Down(c) => if c == ch then -1 else 0
                                        case Up(c) => if c == ch then 1 else 0
                                        case _ => 0)
  }

  predicate Semaphores(g: Log) {
    g == [] || (Semaphores(g[..|g| - 1]) &&
                (g[|g| - 1].op.Down? ==> Semaphore(g[..|g| - 1], g[|g| - 1].op.ch) > 0))
  }

  function Tag(t: nat, ops: seq<Op>): (r: Log)
    ensures |r| == |ops|
  {
    seq(|ops|, i requires 0 <= i < |ops| => Tagged(t, ops[i]))
  }

  lemma {:induction false} LegalPrefix(g: Log, n: nat)
    requires Legal(g) && n <= |g|
    ensures Legal(g[..n])
  {
    if n < |g| {
      LegalPrefix(g[..|g| - 1], n);
      assert g[..|g| - 1][..n] == g[..n];
    } else {
      assert g[..n] == g;
    }
  }

  lemma LegalOne(g: Log, e: Tagged)
    ensures Legal(g + [e]) <==> Legal(g) && Allowed(Holders(g), e)
    ensures Holders(g + [e]) == After(Holders(g), e)
  {
    assert (g + [e])[..|g|] == g;
  }

  /** Accesses to the channel held keep the discipline and the holder. */
  lemma {:induction false} AccessesLegal(t: nat, before: seq<Op>, ops: seq<Op>, ch: nat)
    requires Legal(Tag(t, before)) && Holders(Tag(t, before)) == map[t := ch]
    requires Accesses(ops, ch)
    ensures Legal(Tag(t, before + ops)) && Holders(Tag(t, before + ops)) == map[t := ch]
  {
    hide Tag, Legal, Holders;
    if ops == [] {
      assert before + ops == before;
    } else {
      var n := |ops| - 1;
      AccessesLegal(t, before, ops[..n], ch);
      assert before + ops == before + ops[..n] + [ops[n]];
      TagOne(t, before + ops[..n], ops[n]);
      LegalOne(Tag(t, before + ops[..n]), Tagged(t, ops[n]));
    }
  }

  lemma TransferLegal(t: nat, before: seq<Op>, after: seq<Op>, ch: nat)
    requires Legal(Tag(t, before)) && Holders(Tag(t, before)) == map[]
    requires Transfer(before, after, ch)
    ensures Legal(Tag(t, after)) && Holders(Tag(t, after)) == map[]
  {
    hide Legal, Holders, Accesses, Tag;
    var down, most := before + [Down(ch)], after[..|after| - 1];
    TagOne(t, before, Down(ch));
    LegalOne(Tag(t, before), Tagged(t, Down(ch)));
    assert most == down + most[|down|..];
    AccessesLegal(t, down, most[|down|..], ch);
    assert after == most + [Up(ch)];
    TagOne(t, most, Up(ch));
    LegalOne(Tag(t, most), Tagged(t, Up(ch)));
  }

  lemma TagOne(t: nat, ops: seq<Op>, op: Op)
    ensures Tag(t, ops + [op]) == Tag(t, ops) + [Tagged(t, op)]
  {}

  lemma {:induction false} TransfersLegal(t: nat, ops: seq<Op>)
    requires Transfers(ops)
    ensures Legal(Tag(t, ops)) && Holders(Tag(t, ops)) == map[]
    decreases |ops|
  {
    if ops != [] {
      var before, ch: nat :| |before| < |ops| && Transfer(before, ops, ch) && Transfers(before);
      TransfersLegal(t, before);
      TransferLegal(t, before, ops, ch);
    }
  }

  lemma FollowsLegal(g: Log, t: nat)
    requires forall i :: 0 <= i < |g| ==> g[i].tid == t
    requires Follows(Ops(g))
    ensures Legal(g)
  {
    var all :| Transfers(all) && Ops(g) <= all;
    TransfersLegal(t, all);
    LegalPrefix(Tag(t, all), |g|);
    assert g == Tag(t, all)[..|g|] by {
      forall i | 0 <= i < |g| ensures g[i] == Tag(t, all)[i] {
        assert Ops(g)[i] == all[i];
      }
    }
  }

  /** While the discipline is kept, a semaphore is down exactly while somebody holds it. */
  lemma {:induction false} SemaphoreCounts(g: Log, ch: nat)
    requires Legal(g)
    ensures Semaphore(g, ch) == if Free(Holders(g), ch) then 1 else 0
    ensures forall t, u :: t in Holders(g) && u in Holders(g) && Holders(g)[t] == Holders(g)[u] ==> t == u
  {
    if g != [] {
      var g', e := g[..|g| - 1], g[|g| - 1];
      SemaphoreCounts(g', ch);
      var h := Holders(g');
      assert Holders(g) == After(h, e);
      if e.op.Down? && e.op.ch == ch {
        assert Holders(g)[e.tid] == ch;
      } else if e.op.Up? && e.op.ch == ch {
        assert h[e.tid] == ch;
      } else if e.op.Down? || e.op.Up? {
        assert Free(After(h, e), ch) <==> Free(h, ch) by {
          if t :| t in h && h[t] == ch {
            assert t in After(h, e) && After(h, e)[t] == ch;
          }
        }
      }
    }
  }

  lemma {:induction false} AllOfThread(g: Log, t: nat)
    ensures forall i :: 0 <= i < |Filter(g, ByThread(t))| ==> Filter(g, ByThread(t))[i].tid == t
  {
    if g != [] {
      AllOfThread(g[..|g| - 1], t);
    }
  }

  /** Threads that each keep the discipline, with semaphores that exclude, keep it together. */
  lemma {:induction false} ThreadsLegal(g: Log)
    requires forall t: nat :: Legal(Filter(g, ByThread(t)))
    requires Semaphores(g)
    ensures Legal(g)
    ensures forall t: nat :: SameHolder(Holders(g), Holders(Filter(g, ByThread(t))), t)
  {
    if g != [] {
      var g', e := g[..|g| - 1], g[|g| - 1];
      forall t: nat ensures Legal(Filter(g', ByThread(t))) {
        FilterLast(g, ByThread(t));
        LegalPrefix(Filter(g, ByThread(t)), |Filter(g', ByThread(t))|);
      }
      ThreadsLegal(g');
      var own := Filter(g', ByThread(e.tid));
      FilterLast(g, ByThread(e.tid));
      LegalOne(own, e);
      assert SameHolder(Holders(g'), Holders(own), e.tid);
      if e.op.Down? {
        SemaphoreCounts(g', e.op.ch);
      }
      assert Allowed(Holders(g'), e);
      forall t: nat ensures SameHolder(Holders(g), Holders(Filter(g, ByThread(t))), t) {
        FilterLast(g, ByThread(t));
        assert SameHolder(Holders(g'), Holders(Filter(g', ByThread(t))), t);
      }
    }
  }

  predicate SameHolder(h: Holding, k: Holding, t: nat) {
    (t in h <==> t in k) && (t in h ==> h[t] == k[t])
  }

  // -------------------------------------------------------------------------
  // Main results
  // -------------------------------------------------------------------------

  /**
   Any interleaving is equivalent to its transfers one after another, in the order of taking semaphores: every
   thread issues the same operations and reads the same values, and every register and bus ends the same.
   Each transfer is one thread's, on one channel, and is finished unless its thread still holds the semaphore.
   */
  lemma Serializable(hw: Hw, g: Log)
    requires Legal(g)
    ensures var s := Flatten(Blocks(g));
            && Replay(hw, Ops(s)) == Replay(hw, Ops(g))
            && (Faithful(hw, s) <==> Faithful(hw, g))
            && (forall t: nat :: Filter(s, ByThread(t)) == Filter(g, ByThread(t)))
    ensures forall b <- Blocks(g) :: Finished(b) || (Begun(b) && b.tid in Holders(g) && Holders(g)[b.tid] == b.ch)
  {
    var s := Flatten(Blocks(g));
    forall c: nat ensures Filter(s, ByChannel(c)) == Filter(g, ByChannel(c)) {
      SameView(g, ByChannel(c));
    }
    SameChannelsSameRun(hw, g, s);
    forall t: nat ensures Filter(s, ByThread(t)) == Filter(g, ByThread(t)) {
      SameView(g, ByThread(t));
    }
    BlocksOrdered(g);
  }

  /** Threads that only call the driver are disciplined, whatever the interleaving and the device. */
  lemma DriverSerializable(hw: Hw, g: Log)
    requires forall t: nat :: Follows(Ops(Filter(g, ByThread(t))))
    requires Semaphores(g)
    ensures var s := Flatten(Blocks(g));
            && Replay(hw, Ops(s)) == Replay(hw, Ops(g))
            && (Faithful(hw, s) <==> Faithful(hw, g))
            && (forall t: nat :: Filter(s, ByThread(t)) == Filter(g, ByThread(t)))
    ensures forall b <- Blocks(g) :: Finished(b) || Begun(b)
  {
    forall t: nat ensures Legal(Filter(g, ByThread(t))) {
      AllOfThread(g, t);
      FollowsLegal(Filter(g, ByThread(t)), t);
    }
    ThreadsLegal(g);
    Serializable(hw, g);
  }
}
