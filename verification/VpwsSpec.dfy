/**
 What the pseudowire application sends and remembers, as functions of its configuration and of the
 entries its table objects already hold.
 */
module VpwsSpec {
  import opened Common
  import opened Bits
  import opened OpenFlow

  const OFDPA_VLAN := 4095
  const TUNNELID_TYPE_MPLS_TP := 1
  const L2_PORT_TYPE_VPWS_LOCAL := 0
  const L2_PORT_TYPE_VPWS_NW := 2
  const MPLS_TYPE_VPWS := 1
  const L2_PORT_ID := 0xBEEF
  const ETH_TYPE_ARP := 0x0806
  const ETH_TYPE_IP := 0x0800

  datatype Config = Config(
    firstPort: nat, lastPort: nat, firstVlan: nat, lastVlan: nat, mplsPort: nat,
    macSelf: Mac, macPeer: Mac, outerIngress: nat, outerEgress: nat)

  // -------------------------------------------------------------------------
  // Identifiers
  // -------------------------------------------------------------------------

  function InternalVlan(vlan: nat): nat {
    if vlan == 0 then OFDPA_VLAN else vlan
  }

  function L2Gid(port: nat, vlan: nat): nat {
    Or(Or(Shl(0x0, 28), Shl(InternalVlan(vlan), 16)), port)
  }

  function UnfilteredGid(port: nat): nat {
    Or(Shl(0xB, 28), port)
  }

  function MplsGid(subtype: nat, index: nat): nat {
    Or(Or(Shl(0x9, 28), Shl(subtype, 24)), index)
  }

  function IfGid(index: nat): nat { MplsGid(0, index) }

  function VpnGid(index: nat): nat { MplsGid(1, index) }

  function TunnelGid(index: nat): nat { MplsGid(3, index) }

  function Tid(index: nat): nat {
    Or(Shl(TUNNELID_TYPE_MPLS_TP, 16), index)
  }

  function LabelOf(port: nat, vlan: nat): nat {
    Or(Shl(vlan, 8), port)
  }

  function LocalL2Port(id: nat): nat {
    Or(Shl(L2_PORT_TYPE_VPWS_LOCAL, 16), id)
  }

  function NetworkL2Port(id: nat): nat {
    Or(Shl(L2_PORT_TYPE_VPWS_NW, 16), id)
  }

  function Digits(n: nat): string {
    if n < 10 then ["0123456789"[n]] else Digits(n / 10) + ["0123456789"[n % 10]]
  }

  // -------------------------------------------------------------------------
  // Messages
  // -------------------------------------------------------------------------

  function L2Bucket(port: nat, vlan: nat): seq<Action> {
    [Output(port)] + if vlan == OFDPA_VLAN then [PopVlan] else []
  }

  function UnfilteredBucket(port: nat): seq<Action> {
    [Output(port), SetVlanTranslation]
  }

  function IfBucket(l2: nat, vlan: nat, src: Mac, dst: Mac): seq<Action> {
    [SetVlan(InternalVlan(vlan)), SetSrc(src), SetDst(dst), Group(l2)]
  }

  function VpnBucket(lbl: nat, next: nat): seq<Action> {
    [PushL2Header, PushMpls, PushCw, SetLabel(lbl), SetBos(true), Group(next)]
  }

  function TunnelBucket(lbl: nat, next: nat): seq<Action> {
    [PushMpls, SetLabel(lbl), Group(next)]
  }

  function TagFlow(port: nat, vlan: nat): Msg {
    AddFlow(Key(10, Match(inPort := Some(port), vid := Tag(vlan))), Instr([], [], Some(20)))
  }

  function UntaggedFlow(port: nat, vlan: nat): Msg {
    AddFlow(Key(10, Match(inPort := Some(port), vid := NoTag)), Instr([SetVlan(vlan)], [], Some(20)))
  }

  function MplsVlanKey(port: nat, vlan: nat): Key {
    Key(10, Match(inPort := Some(port), vid := if vlan == 0 then AnyVid else Tag(vlan)))
  }

  function MplsVlanFlow(port: nat, vlan: nat, tid: nat, id: nat): Msg {
    AddFlow(MplsVlanKey(port, vlan),
            Instr([SetL2Port(LocalL2Port(id)), SetTunnel(tid), SetMplsType(MPLS_TYPE_VPWS)], [], Some(13)))
  }

  function L2PortKey(tid: nat, id: nat): Key {
    Key(13, Match(l2Port := Some(LocalL2Port(id)), tunnel := Some(tid)))
  }

  function L2PortFlow(gid: nat, tid: nat, id: nat): Msg {
    AddFlow(L2PortKey(tid, id), Instr([], [Group(gid)], Some(60)))
  }

  function TermKey(vlan: nat, mac: Mac): Key {
    Key(20, Match(vid := Tag(InternalVlan(vlan)), ethType := Some(ETH_TYPE_MPLS), ethDst := Some(mac)))
  }

  function TermFlow(vlan: nat, mac: Mac): Msg {
    AddFlow(TermKey(vlan, mac), Instr([], [], Some(24)))
  }

  function PwKey(lbl: nat): Key {
    Key(24, Match(ethType := Some(ETH_TYPE_MPLS), lbl := Some(lbl), bos := Some(true)))
  }

  function PwFlow(gid: nat, lbl: nat, tid: nat, id: nat): Msg {
    AddFlow(PwKey(lbl),
            Instr([PopMpls, PopL2Header, SetL2Port(NetworkL2Port(id)), SetTunnel(tid),
                   SetMplsType(MPLS_TYPE_VPWS), PopCw],
                  [Group(gid)], Some(29)))
  }

  function OuterKey(lbl: nat): Key {
    Key(24, Match(ethType := Some(ETH_TYPE_MPLS), lbl := Some(lbl), bos := Some(false)))
  }

  function OuterFlow(lbl: nat): Msg {
    AddFlow(OuterKey(lbl), Instr([PopMpls], [], Some(25)))
  }

  function CopyFlow(etherType: nat): Msg {
    AddFlow(Key(60, Match(ethType := Some(etherType))), Instr([Output(OFPP_CONTROLLER)], [], None))
  }

  // -------------------------------------------------------------------------
  // What one call of each table object does: its new entries, its messages, the id it returns
  // -------------------------------------------------------------------------

  datatype Added<E> = Added(entries: E, sent: seq<Msg>, id: nat)

  /** The entries of a group table that numbers its groups. */
  datatype Numbered<K> = Numbered(ids: map<K, nat>, index: nat)

  type TunnelKey = (nat, nat, nat)
  type IfKey = (nat, nat, Mac, Mac)
  type LabelKey = (nat, nat)

  function AddTunnel(e: map<TunnelKey, nat>, port: nat, vlan: nat, id: nat): Added<map<TunnelKey, nat>> {
    var k := (port, vlan, id);
    if k in e then Added(e, [], e[k]) else Added(e[k := Tid(|e|)], [], Tid(|e|))
  }

  function AddL2(e: seq<nat>, port: nat, vlan: nat): Added<seq<nat>> {
    var g := L2Gid(port, vlan);
    if g in e then Added(e, [], g)
    else Added(e + [g], [AddGroup(g, L2Bucket(port, InternalVlan(vlan)))], g)
  }

  function AddUnfiltered(e: seq<nat>, port: nat): Added<seq<nat>> {
    var g := UnfilteredGid(port);
    if g in e then Added(e, [], g) else Added(e + [g], [AddGroup(g, UnfilteredBucket(port))], g)
  }

  /** Looks up the VLAN it was given but remembers the VLAN it substituted. */
  function AddIf(e: Numbered<IfKey>, l2: nat, vlan: nat, src: Mac, dst: Mac): Added<Numbered<IfKey>> {
    if (l2, vlan, src, dst) in e.ids then Added(e, [], e.ids[(l2, vlan, src, dst)])
    else
      var g := IfGid(e.index);
      Added(Numbered(e.ids[(l2, InternalVlan(vlan), src, dst) := g], e.index + 1),
            [AddGroup(g, IfBucket(l2, vlan, src, dst))], g)
  }

  function AddVpn(e: Numbered<LabelKey>, lbl: nat, next: nat): Added<Numbered<LabelKey>> {
    if (lbl, next) in e.ids then Added(e, [], e.ids[(lbl, next)])
    else
      var g := VpnGid(e.index);
      Added(Numbered(e.ids[(lbl, next) := g], e.index + 1), [AddGroup(g, VpnBucket(lbl, next))], g)
  }

  function AddTunnelLabel(e: Numbered<LabelKey>, lbl: nat, next: nat): Added<Numbered<LabelKey>> {
    if (lbl, next) in e.ids then Added(e, [], e.ids[(lbl, next)])
    else
      var g := TunnelGid(e.index);
      Added(Numbered(e.ids[(lbl, next) := g], e.index + 1), [AddGroup(g, TunnelBucket(lbl, next))], g)
  }

  /** A flow table object sends its messages once per key. */
  function Once<K(==)>(e: seq<K>, k: K, msgs: seq<Msg>): Added<seq<K>> {
    if k in e then Added(e, [], 0) else Added(e + [k], msgs, 0)
  }

  function AddMplsVlan(e: seq<(nat, nat)>, vlan: nat, port: nat, tid: nat, id: nat): Added<seq<(nat, nat)>> {
    Once(e, (vlan, port), [MplsVlanFlow(port, vlan, tid, id)])
  }

  function AddL2Port(e: seq<(nat, nat, nat)>, gid: nat, tid: nat, id: nat): Added<seq<(nat, nat, nat)>> {
    Once(e, (gid, tid, id), [L2PortFlow(gid, tid, id)])
  }

  function AddOuter(e: seq<nat>, lbl: nat): Added<seq<nat>> {
    Once(e, lbl, [OuterFlow(lbl)])
  }

  function AddPw(e: seq<(nat, nat, nat, nat)>, gid: nat, lbl: nat, tid: nat, id: nat): Added<seq<(nat, nat, nat, nat)>> {
    Once(e, (gid, lbl, tid, id), [PwFlow(gid, lbl, tid, id)])
  }

  function AddTerm(e: seq<string>, vlan: nat, mac: Mac): Added<seq<string>> {
    Once(e, Digits(vlan) + mac, [TermFlow(vlan, mac)])
  }

  function AddVlan(e: seq<nat>, port: nat, vlan: nat): Added<seq<nat>> {
    Once(e, Or(Shl(vlan, 8), port),
         if vlan != 0 then [TagFlow(port, vlan)] else [TagFlow(port, OFDPA_VLAN), UntaggedFlow(port, OFDPA_VLAN)])
  }

  // -------------------------------------------------------------------------
  // One pseudowire, and one connect
  // -------------------------------------------------------------------------

  /** The entries of all table objects and of the tunnel id closure. */
  datatype Tables = Tables(
    tunnels: map<TunnelKey, nat>, l2: seq<nat>, ifs: Numbered<IfKey>, tunnelLabels: Numbered<LabelKey>,
    vpns: Numbered<LabelKey>, mplsVlans: seq<(nat, nat)>, l2Ports: seq<(nat, nat, nat)>, outers: seq<nat>,
    pws: seq<(nat, nat, nat, nat)>, terms: seq<string>, vlans: seq<nat>)

  const FRESH_TABLES := Tables(map[], [], Numbered(map[], 0), Numbered(map[], 0), Numbered(map[], 0),
                        [], [], [], [], [], [])

  /** The application's entries, and everything it has sent to the switch. */
  datatype State = State(tables: Tables, log: seq<Msg>)

  function Then(log: seq<Msg>, sent: seq<Msg>): seq<Msg> {
    log + sent
  }

  type Pair = (nat, nat)  // port, VLAN

  /** The initiation half of a pseudowire: from the plain port onto the MPLS port. */
  function Initiate(s: State, cfg: Config, w: Pair, tid: nat): State {
    var t := s.tables;
    var l2 := AddL2(t.l2, cfg.mplsPort, 0);
    var i := AddIf(t.ifs, l2.id, 0, cfg.macSelf, cfg.macPeer);
    var tl := AddTunnelLabel(t.tunnelLabels, cfg.outerEgress, i.id);
    var vp := AddVpn(t.vpns, LabelOf(w.0, w.1), tl.id);
    var mv := AddMplsVlan(t.mplsVlans, w.1, w.0, tid, L2_PORT_ID);
    var lp := AddL2Port(t.l2Ports, vp.id, tid, L2_PORT_ID);
    State(t.(l2 := l2.entries, ifs := i.entries, tunnelLabels := tl.entries, vpns := vp.entries,
             mplsVlans := mv.entries, l2Ports := lp.entries),
          Then(Then(Then(Then(Then(Then(s.log, l2.sent), i.sent), tl.sent), vp.sent), mv.sent), lp.sent))
  }

  /** The termination half: from the MPLS port to the plain port. */
  function Terminate(s: State, cfg: Config, w: Pair, tid: nat): State {
    var t := s.tables;
    var un := AddUnfiltered(t.l2, w.0);
    var ou := AddOuter(t.outers, cfg.outerIngress);
    var pw := AddPw(t.pws, un.id, LabelOf(w.0, w.1), tid, L2_PORT_ID);
    var te := AddTerm(t.terms, 0, cfg.macSelf);
    var vl := AddVlan(t.vlans, cfg.mplsPort, 0);
    State(t.(l2 := un.entries, outers := ou.entries, pws := pw.entries, terms := te.entries, vlans := vl.entries),
          Then(Then(Then(Then(Then(s.log, un.sent), ou.sent), pw.sent), te.sent), vl.sent))
  }

  function CreateVpws(s: State, cfg: Config, w: Pair): State {
    var tn := AddTunnel(s.tables.tunnels, w.0, w.1, L2_PORT_ID);
    Terminate(Initiate(s.(tables := s.tables.(tunnels := tn.entries)), cfg, w, tn.id), cfg, w, tn.id)
  }

  function CreateAll(s: State, cfg: Config, ws: seq<Pair>): State {
    if ws == [] then s else CreateVpws(CreateAll(s, cfg, ws[..|ws| - 1]), cfg, ws[|ws| - 1])
  }

  /** The configured pairs in the order of the two nested loops. */
  function VlanPairs(port: nat, firstVlan: nat, upTo: nat): seq<Pair>
    requires firstVlan <= upTo
    decreases upTo
  {
    if upTo == firstVlan then [] else VlanPairs(port, firstVlan, upTo - 1) + [(port, upTo - 1)]
  }

  /** Where the two loops stop. */
  function PortEnd(cfg: Config): nat {
    if cfg.firstPort <= cfg.lastPort then cfg.lastPort + 1 else cfg.firstPort
  }

  function VlanEnd(cfg: Config): nat {
    if cfg.firstVlan <= cfg.lastVlan then cfg.lastVlan + 1 else cfg.firstVlan
  }

  function PortPairs(cfg: Config, upTo: nat): seq<Pair>
    requires cfg.firstPort <= upTo
    decreases upTo
  {
    if upTo == cfg.firstPort then []
    else PortPairs(cfg, upTo - 1) + VlanPairs(upTo - 1, cfg.firstVlan, VlanEnd(cfg))
  }

  /** The pairs that the loops have handled when they stand at (port, vlan). */
  function Visited(cfg: Config, port: nat, vlan: nat): seq<Pair>
    requires cfg.firstPort <= port && cfg.firstVlan <= vlan
  {
    PortPairs(cfg, port) + VlanPairs(port, cfg.firstVlan, vlan)
  }

  lemma VisitNext(s: State, cfg: Config, port: nat, vlan: nat)
    requires cfg.firstPort <= port && cfg.firstVlan <= vlan
    ensures CreateAll(s, cfg, Visited(cfg, port, vlan + 1)) ==
            CreateVpws(CreateAll(s, cfg, Visited(cfg, port, vlan)), cfg, (port, vlan))
  {
    hide CreateVpws;
    var next := Visited(cfg, port, vlan + 1);
    assert next == Visited(cfg, port, vlan) + [(port, vlan)];
    assert next[..|next| - 1] == Visited(cfg, port, vlan);
  }

  function Pairs(cfg: Config): seq<Pair> {
    PortPairs(cfg, PortEnd(cfg))
  }

  const PURGE := [DeleteFlows, Barrier, DeleteGroups]
  const COPIES := [CopyFlow(ETH_TYPE_ARP), CopyFlow(ETH_TYPE_IP)]

  function Connect(s: State, cfg: Config): State {
    var all := CreateAll(s.(log := Then(s.log, PURGE)), cfg, Pairs(cfg));
    all.(log := Then(all.log, COPIES))
  }
}
