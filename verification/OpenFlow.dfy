/**
 The part of an OF-DPA switch that the pseudowire application drives: the messages that fill its
 flow and group tables, and the pipeline that forwards a frame through them. Action sets and group
 buckets run in the order of section 5.10 of the OpenFlow Switch Specification 1.3.1; label stack
 entries follow section 2.1 of RFC 3032.
 */
module OpenFlow {
  import opened Common

  type Mac = string

  const ETH_TYPE_MPLS := 0x8847
  const OFPP_CONTROLLER := 0xFFFF_FFFD

  // -------------------------------------------------------------------------
  // Frames
  // -------------------------------------------------------------------------

  /** The headers of a frame, outermost first. `Cw` is the pseudowire control word. */
  datatype Header =
    | Eth(dst: Mac, src: Mac, tag: Option<nat>)
    | Mpls(lbl: nat, bos: bool)
    | Cw

  datatype Packet = Packet(headers: seq<Header>, etherType: nat, payload: seq<nat>)

  /** Metadata that accompanies a frame between tables. */
  datatype Meta = Meta(inPort: nat, tunnel: nat, l2Port: nat, mplsType: nat)

  datatype Frame = Frame(pkt: Packet, meta: Meta)

  predicate OuterEth(p: Packet) {
    |p.headers| > 0 && p.headers[0].Eth?
  }

  predicate OuterMpls(p: Packet) {
    OuterEth(p) && |p.headers| > 1 && p.headers[1].Mpls?
  }

  function EthTypeOf(p: Packet): nat {
    if OuterMpls(p) then ETH_TYPE_MPLS else p.etherType
  }

  // -------------------------------------------------------------------------
  // Messages
  // -------------------------------------------------------------------------

  datatype Action =
    | PopVlan | PopMpls | PopL2Header | PopCw
    | PushL2Header | PushCw | PushMpls
    | SetLabel(lbl: nat) | SetBos(bos: bool)
    | SetVlan(vid: nat) | SetSrc(src: Mac) | SetDst(dst: Mac)
    | SetL2Port(l2Port: nat) | SetTunnel(tunnel: nat) | SetMplsType(mplsType: nat)
    | SetVlanTranslation
    | Group(gid: nat)
    | Output(port: nat)

  /** How the VLAN id is matched: not at all, absent tag, or one exact tag. */
  datatype VidMatch = AnyVid | NoTag | Tag(vid: nat)

  datatype Match = Match(
    nameonly inPort: Option<nat> := None,
    nameonly vid: VidMatch := AnyVid,
    nameonly ethType: Option<nat> := None,
    nameonly ethDst: Option<Mac> := None,
    nameonly lbl: Option<nat> := None,
    nameonly bos: Option<bool> := None,
    nameonly l2Port: Option<nat> := None,
    nameonly tunnel: Option<nat> := None)

  datatype Instr = Instr(apply: seq<Action>, write: seq<Action>, goto: Option<nat>)

  datatype Key = Key(table: nat, match_: Match)

  datatype Msg =
    | DeleteFlows
    | Barrier
    | DeleteGroups
    | AddGroup(gid: nat, bucket: seq<Action>)
    | AddFlow(key: Key, instr: Instr)

  // -------------------------------------------------------------------------
  // Switch tables
  // -------------------------------------------------------------------------

  /** All flow entries have priority 0, so a flow is identified by its table and match. */
  datatype Switch = Switch(flows: map<Key, Instr>, groups: map<nat, seq<Action>>)

  const EMPTY_SWITCH := Switch(map[], map[])

  function Refs(actions: seq<Action>): set<nat> {
    set a | a in actions && a.Group? :: a.gid
  }

  /** A group may be added once, and nothing may refer to a group that is not there. */
  predicate Accepts(sw: Switch, m: Msg) {
    match m
    case AddGroup(gid, bucket) => gid !in sw.groups && Refs(bucket) <= sw.groups.Keys
    case AddFlow(_, instr) => Refs(instr.apply) + Refs(instr.write) <= sw.groups.Keys
    case _ => true
  }

  function Install(sw: Switch, m: Msg): Switch {
    if !Accepts(sw, m) then sw else
    match m
    case DeleteFlows => sw.(flows := map[])
    case Barrier => sw
    case DeleteGroups =>
      // Flow entries that refer to a deleted group go with it.
      Switch(map k | k in sw.flows && Refs(sw.flows[k].apply) + Refs(sw.flows[k].write) == {} :: sw.flows[k], map[])
    case AddGroup(gid, bucket) => sw.(groups := sw.groups[gid := bucket])
    case AddFlow(key, instr) => sw.(flows := sw.flows[key := instr])
  }

  function Replay(sw: Switch, log: seq<Msg>): Switch {
    if log == [] then sw else Install(Replay(sw, log[..|log| - 1]), log[|log| - 1])
  }

  /** The switch rejects no message of the log. */
  ghost predicate AllAccepted(sw: Switch, log: seq<Msg>) {
    forall k :: 0 <= k < |log| ==> Accepts(Replay(sw, log[..k]), log[k])
  }

  lemma AcceptedAppend(sw: Switch, a: seq<Msg>, m: Msg)
    requires AllAccepted(sw, a) && Accepts(Replay(sw, a), m)
    ensures AllAccepted(sw, a + [m]) && Replay(sw, a + [m]) == Install(Replay(sw, a), m)
  {
    var l := a + [m];
    assert l[..|l| - 1] == a;
    forall k | 0 <= k < |l| ensures Accepts(Replay(sw, l[..k]), l[k]) {
      if k < |a| {
        assert l[..k] == a[..k];
      } else {
        assert l[..k] == a;
      }
    }
  }

  // -------------------------------------------------------------------------
  // Actions
  // -------------------------------------------------------------------------

  /** Position of an action in the action set. The OF-DPA pushes go from the inside out. */
  function Rank(a: Action): nat {
    match a
    case PopVlan | PopMpls | PopL2Header | PopCw => 0
    case PushL2Header => 1
    case PushCw => 2
    case PushMpls => 3
    case Group(_) => 5
    case Output(_) => 6
    case _ => 4
  }

  function Insert(s: seq<Action>, a: Action): seq<Action> {
    if s == [] || Rank(s[|s| - 1]) <= Rank(a) then s + [a]
    else Insert(s[..|s| - 1], a) + [s[|s| - 1]]
  }

  /** The actions of a bucket or of the write-actions instructions in execution order. */
  function ActionSet(s: seq<Action>): seq<Action> {
    if s == [] then [] else Insert(ActionSet(s[..|s| - 1]), s[|s| - 1])
  }

  function Edit(a: Action, p: Packet): Packet {
    var h := p.headers;
    match a
    case PushL2Header => p.(headers := [Eth("", "", None)] + h)
    case PopL2Header => if OuterEth(p) then p.(headers := h[1..]) else p
    case PopCw => if |h| > 0 && h[0].Cw? then p.(headers := h[1..]) else p
    case PushCw => if OuterEth(p) then p.(headers := [h[0], Cw] + h[1..]) else p
    case PushMpls =>
      // A label pushed onto a stack repeats its top label and is not the bottom of the stack.
      if OuterMpls(p) then p.(headers := [h[0], Mpls(h[1].lbl, false)] + h[1..])
      else if OuterEth(p) then p.(headers := [h[0], Mpls(0, true)] + h[1..])
      else p
    case PopMpls => if OuterMpls(p) then p.(headers := [h[0]] + h[2..]) else p
    case SetLabel(l) => if OuterMpls(p) then p.(headers := h[1 := Mpls(l, h[1].bos)]) else p
    case SetBos(b) => if OuterMpls(p) then p.(headers := h[1 := Mpls(h[1].lbl, b)]) else p
    case PopVlan => if OuterEth(p) then p.(headers := h[0 := Eth(h[0].dst, h[0].src, None)]) else p
    case SetVlan(v) => if OuterEth(p) then p.(headers := h[0 := Eth(h[0].dst, h[0].src, Some(v))]) else p
    case SetSrc(m) => if OuterEth(p) then p.(headers := h[0 := Eth(h[0].dst, m, h[0].tag)]) else p
    case SetDst(m) => if OuterEth(p) then p.(headers := h[0 := Eth(m, h[0].src, h[0].tag)]) else p
    case _ => p
  }

  function Apply(a: Action, f: Frame): Frame {
    match a
    case SetL2Port(v) => f.(meta := f.meta.(l2Port := v))
    case SetTunnel(v) => f.(meta := f.meta.(tunnel := v))
    case SetMplsType(v) => f.(meta := f.meta.(mplsType := v))
    case _ => f.(pkt := Edit(a, f.pkt))
  }

  function ApplyAll(s: seq<Action>, f: Frame): Frame {
    if s == [] then f else ApplyAll(s[1..], Apply(s[0], f))
  }

  datatype Exit = ToGroup(gid: nat) | ToPort(port: nat) | Nowhere

  /** Where an ordered action set sends the frame: a group wins over an output port. */
  function ExitOf(s: seq<Action>): Exit {
    if s == [] then Nowhere
    else match s[|s| - 1]
      case Group(g) => ToGroup(g)
      case Output(p) => if |s| > 1 && s[|s| - 2].Group? then ToGroup(s[|s| - 2].gid) else ToPort(p)
      case _ => Nowhere
  }

  datatype Emitted = Emitted(port: nat, pkt: Packet)

  /** Runs an action set and the groups it chains to; a group chain never visits a group twice. */
  function Execute(groups: map<nat, seq<Action>>, actions: seq<Action>, f: Frame): Option<Emitted>
    decreases |groups|
  {
    var s := ActionSet(actions);
    var f' := ApplyAll(s, f);
    match ExitOf(s)
    case Nowhere => None
    case ToPort(p) => Some(Emitted(p, f'.pkt))
    case ToGroup(g) =>
      if g !in groups then None
      else
        assert |groups - {g}| < |groups| by {
          assert (groups - {g}).Keys == groups.Keys - {g};
          assert |(groups - {g}).Keys| == |groups - {g}|;
        }
        Execute(groups - {g}, groups[g], f')
  }

  // -------------------------------------------------------------------------
  // Pipeline
  // -------------------------------------------------------------------------

  predicate Eq<T(==)>(want: Option<T>, have: T) {
    want.None? || want.value == have
  }

  predicate Matches(m: Match, f: Frame) {
    && Eq(m.inPort, f.meta.inPort)
    && Eq(m.l2Port, f.meta.l2Port)
    && Eq(m.tunnel, f.meta.tunnel)
    && Eq(m.ethType, EthTypeOf(f.pkt))
    && (m.vid == AnyVid || (OuterEth(f.pkt) &&
                            f.pkt.headers[0].tag == if m.vid.Tag? then Some(m.vid.vid) else None))
    && (m.ethDst == None || (OuterEth(f.pkt) && f.pkt.headers[0].dst == m.ethDst.value))
    && (m.lbl == None || (OuterMpls(f.pkt) && f.pkt.headers[1].lbl == m.lbl.value))
    && (m.bos == None || (OuterMpls(f.pkt) && f.pkt.headers[1].bos == m.bos.value))
  }

  const FIRST_TABLE := 10
  const LAST_TABLE := 60

  /** OF-DPA keeps a copy of every MPLS_1 entry in table MPLS_2. */
  function Backing(table: nat): nat {
    if table == 25 then 24 else table
  }

  function Hits(sw: Switch, table: nat, f: Frame): set<Key> {
    set k | k in sw.flows && k.table == Backing(table) && Matches(k.match_, f)
  }

  /** Tables MPLS_TYPE and ACL_POLICY let a frame fall through to its action set. */
  predicate FallsThrough(table: nat) {
    table == 29 || table == 60
  }

  /**
   From `table` on: nothing is emitted when no entry matches, nor when several do (all priorities are
   equal, so the choice would be undefined).
   */
  ghost function Run(sw: Switch, table: nat, f: Frame, actions: seq<Action>): Option<Emitted>
    decreases LAST_TABLE - table
  {
    if FallsThrough(table) then Execute(sw.groups, actions, f)
    else
      var hits := Hits(sw, table, f);
      if |hits| != 1 then None
      else
        var k :| k in hits;
        var i := sw.flows[k];
        if i.goto.None? || !(table < i.goto.value <= LAST_TABLE) then None
        else Run(sw, i.goto.value, ApplyAll(i.apply, f), actions + i.write)
  }

  /** A frame arriving on a port. A frame is never sent back out of the port it came from. */
  ghost function Forward(sw: Switch, port: nat, p: Packet): Option<Emitted> {
    var r := Run(sw, FIRST_TABLE, Frame(p, Meta(port, 0, 0, 0)), []);
    if r.Some? && r.value.port == port then None else r
  }

  /** One table with exactly one matching entry. */
  lemma RunOne(sw: Switch, table: nat, f: Frame, actions: seq<Action>, k: Key)
    requires !FallsThrough(table)
    requires Hits(sw, table, f) == {k}
    requires k in sw.flows
    requires sw.flows[k].goto.Some? && table < sw.flows[k].goto.value <= LAST_TABLE
    ensures Run(sw, table, f, actions) ==
            Run(sw, sw.flows[k].goto.value, ApplyAll(sw.flows[k].apply, f), actions + sw.flows[k].write)
  {
    var hits := Hits(sw, table, f);
    assert |hits| == 1;
    assert forall x | x in hits :: x == k;
  }
}
