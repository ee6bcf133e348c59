/**
 Meaning preservation for the pseudowire application: two switches that are configured as mirror images
 and connected by their MPLS ports carry a frame from a port of one to the same port of the other.
 */
module VpwsWire {
  import opened Common
  import opened OpenFlow
  import opened VpwsSpec
  import opened VpwsIds
  import opened VpwsInstall
  import opened VpwsForward

  ghost predicate Tagged(p: Packet, vlan: nat) {
    OuterEth(p) && p.headers[0].tag == Some(vlan)
  }

  lemma NoWrites(actions: seq<Action>)
    ensures actions + [] == actions
  {}

  // -------------------------------------------------------------------------
  // Initiation
  // -------------------------------------------------------------------------

  lemma InitiationHits(cfg: Config, ws: seq<Pair>, sw: Switch, j: nat, f: Frame)
    requires GoodPairs(ws) && j < |ws| && Installed(cfg, ws, sw)
    requires Tagged(f.pkt, ws[j].1) && f.meta.inPort == ws[j].0
    ensures Hits(sw, 10, f) == {MplsVlanKey(ws[j].0, ws[j].1)}
  {
    hide InitiationGroups, TerminationGroups, TerminationFlows, LabelOf, Tid, LocalL2Port, NetworkL2Port;
    var k := MplsVlanKey(ws[j].0, ws[j].1);
    assert ws[j] in ws;
    assert k in Hits(sw, 10, f);
    forall x | x in Hits(sw, 10, f) ensures x == k {}
  }

  lemma L2PortHits(cfg: Config, ws: seq<Pair>, sw: Switch, j: nat, f: Frame)
    requires j < |ws| && Installed(cfg, ws, sw)
    requires f.meta.tunnel == Tid(j) && f.meta.l2Port == LocalL2Port(L2_PORT_ID)
    ensures Owner(|ws|, Tid(j)).Some?
    ensures Hits(sw, 13, f) == {L2PortKey(Tid(j), L2_PORT_ID)}
    ensures Has(sw.flows, L2PortFlow(VpnGid(Owner(|ws|, Tid(j)).value), Tid(j), L2_PORT_ID))
  {
    hide InitiationGroups, TerminationGroups, TerminationFlows, LabelOf, Tid, LocalL2Port, NetworkL2Port, VpnGid;
    OwnerIsLast(|ws|, j);
    var k := L2PortKey(Tid(j), L2_PORT_ID);
    assert k in Hits(sw, 13, f);
    forall x | x in Hits(sw, 13, f) ensures x == k {}
  }

  lemma ToTable13(cfg: Config, ws: seq<Pair>, sw: Switch, j: nat, p: Packet) returns (f: Frame)
    requires GoodPairs(ws) && j < |ws| && Installed(cfg, ws, sw)
    requires Tagged(p, ws[j].1)
    ensures f == Frame(p, Meta(ws[j].0, Tid(j), LocalL2Port(L2_PORT_ID), MPLS_TYPE_VPWS))
    ensures Run(sw, 10, Frame(p, Meta(ws[j].0, 0, 0, 0)), []) == Run(sw, 13, f, [])
  {
    hide Run, Hits, ApplyAll, LabelOf, Tid, LocalL2Port, VpnGid, GoodPairs, InitiationGroups, TerminationGroups,
      OnlyExpected, TerminationFlows;
    var f0 := Frame(p, Meta(ws[j].0, 0, 0, 0));
    InitiationHits(cfg, ws, sw, j, f0);
    RunOne(sw, 10, f0, [], MplsVlanKey(ws[j].0, ws[j].1));
    Apply3(SetL2Port(LocalL2Port(L2_PORT_ID)), SetTunnel(Tid(j)), SetMplsType(MPLS_TYPE_VPWS), f0);
    f := Frame(p, Meta(ws[j].0, Tid(j), LocalL2Port(L2_PORT_ID), MPLS_TYPE_VPWS));
    NoWrites([]);
  }

  /**
   A frame of the j-th pair matches one entry in table 10 and one in table 13, and leaves on the MPLS
   port under the outer label and the inner label of the pair that owns its tunnel id.
   */
  lemma Initiates(cfg: Config, ws: seq<Pair>, sw: Switch, j: nat, p: Packet)
    requires Valid(cfg) && GoodPairs(ws) && j < |ws| && Installed(cfg, ws, sw)
    requires Tagged(p, ws[j].1)
    ensures Owner(|ws|, Tid(j)).Some? && Owner(|ws|, Tid(j)).value < |ws|
    ensures var o := ws[Owner(|ws|, Tid(j)).value];
            Run(sw, 10, Frame(p, Meta(ws[j].0, 0, 0, 0)), []) ==
            Some(Emitted(cfg.mplsPort, Encap(cfg, LabelOf(o.0, o.1), p)))
  {
    hide Run, Hits, ApplyAll, Execute, LabelOf, Tid, LocalL2Port, VpnGid, GoodPairs, Encap, InitiationGroups,
      TerminationGroups, OnlyExpected, TerminationFlows, InitiationFlows;
    OwnerIsLast(|ws|, j);
    var o := Owner(|ws|, Tid(j)).value;
    var f := ToTable13(cfg, ws, sw, j, p);
    L2PortHits(cfg, ws, sw, j, f);
    RunOne(sw, 13, f, [], L2PortKey(Tid(j), L2_PORT_ID));
    NoActions(f);
    assert [] + [Group(VpnGid(o))] == [Group(VpnGid(o))];
    FallThrough(sw, 60, f, [Group(VpnGid(o))]);
    Bounded(ws);
    InitiationChain(cfg, ws, sw.groups, o, f);
  }

  lemma Bounded(ws: seq<Pair>)
    requires GoodPairs(ws)
    ensures |ws| <= MAX_PAIRS
  {}

  lemma FallThrough(sw: Switch, table: nat, f: Frame, actions: seq<Action>)
    requires FallsThrough(table)
    ensures Run(sw, table, f, actions) == Execute(sw.groups, actions, f)
  {}

  // -------------------------------------------------------------------------
  // Termination
  // -------------------------------------------------------------------------

  /** A frame on the MPLS network, addressed to this switch. */
  function Labelled(cfg: Config, src: Mac, lbl: nat, p: Packet): Packet {
    p.(headers := [Eth(cfg.macSelf, src, None), Mpls(cfg.outerIngress, false), Mpls(lbl, true), Cw] + p.headers)
  }

  lemma TerminationHits(cfg: Config, ws: seq<Pair>, sw: Switch, j: nat, f: Frame)
    requires GoodPairs(ws) && j < |ws| && Installed(cfg, ws, sw)
    requires f.meta.inPort == cfg.mplsPort && OuterMpls(f.pkt)
    ensures f.pkt.headers[0].tag == None ==> Hits(sw, 10, f) == {UntaggedKey(cfg)}
    ensures f.pkt.headers[0].tag == Some(OFDPA_VLAN) && f.pkt.headers[0].dst == cfg.macSelf ==>
              Hits(sw, 20, f) == {TermKey(0, cfg.macSelf)}
  {
    hide InitiationGroups, TerminationGroups, InitiationFlows, LabelOf, Tid, LocalL2Port, NetworkL2Port, UnfilteredGid;
    if f.pkt.headers[0].tag == None {
      assert UntaggedKey(cfg) in Hits(sw, 10, f);
      forall x | x in Hits(sw, 10, f) ensures x == UntaggedKey(cfg) {}
    } else if f.pkt.headers[0].tag == Some(OFDPA_VLAN) && f.pkt.headers[0].dst == cfg.macSelf {
      assert TermKey(0, cfg.macSelf) in Hits(sw, 20, f);
      forall x | x in Hits(sw, 20, f) ensures x == TermKey(0, cfg.macSelf) {}
    }
  }

  lemma LabelHits(cfg: Config, ws: seq<Pair>, sw: Switch, j: nat, f: Frame)
    requires GoodPairs(ws) && j < |ws| && Installed(cfg, ws, sw)
    requires OuterMpls(f.pkt)
    ensures f.pkt.headers[1] == Mpls(cfg.outerIngress, false) ==> Hits(sw, 24, f) == {OuterKey(cfg.outerIngress)}
    ensures f.pkt.headers[1] == Mpls(LabelOf(ws[j].0, ws[j].1), true) ==>
              Hits(sw, 25, f) == {PwKey(LabelOf(ws[j].0, ws[j].1))}
  {
    hide InitiationGroups, TerminationGroups, InitiationFlows, LabelOf, Tid, LocalL2Port, NetworkL2Port, UnfilteredGid;
    if f.pkt.headers[1] == Mpls(cfg.outerIngress, false) {
      assert OuterKey(cfg.outerIngress) in Hits(sw, 24, f);
      forall x | x in Hits(sw, 24, f) ensures x == OuterKey(cfg.outerIngress) {}
    } else if f.pkt.headers[1] == Mpls(LabelOf(ws[j].0, ws[j].1), true) {
      var k := PwKey(LabelOf(ws[j].0, ws[j].1));
      assert k in Hits(sw, 25, f);
      forall x | x in Hits(sw, 25, f) ensures x == k {}
    }
  }

  /** The edits of the pseudowire termination entry take everything off again. */
  lemma PwEdits(f: Frame, e: Header, lbl: nat, h: seq<Header>, l2: nat, tid: nat)
    requires f.pkt.headers == [e, Mpls(lbl, true), Cw] + h && e.Eth?
    ensures ApplyAll([PopMpls, PopL2Header, SetL2Port(l2), SetTunnel(tid), SetMplsType(MPLS_TYPE_VPWS), PopCw], f).pkt ==
            f.pkt.(headers := h)
  {
    hide ApplyAll, Apply;
    Apply6(PopMpls, PopL2Header, SetL2Port(l2), SetTunnel(tid), SetMplsType(MPLS_TYPE_VPWS), PopCw, f);
    var f1, f2 := WithHeaders(f, [e, Cw] + h), WithHeaders(f, [Cw] + h);
    AfterPopMpls(f, e, lbl, h);
    AfterPopL2(f1, e, h);
    AfterMeta(f2, l2, tid);
    AfterPopCw(Apply(SetMplsType(MPLS_TYPE_VPWS), Apply(SetTunnel(tid), Apply(SetL2Port(l2), f2))), h);
  }

  lemma AfterPopMpls(f: Frame, e: Header, lbl: nat, h: seq<Header>)
    requires f.pkt.headers == [e, Mpls(lbl, true), Cw] + h && e.Eth?
    ensures Apply(PopMpls, f) == WithHeaders(f, [e, Cw] + h)
  {}

  lemma AfterPopL2(f: Frame, e: Header, h: seq<Header>)
    requires f.pkt.headers == [e, Cw] + h && e.Eth?
    ensures Apply(PopL2Header, f) == WithHeaders(f, [Cw] + h)
  {}

  lemma AfterMeta(f: Frame, l2: nat, tid: nat)
    ensures Apply(SetMplsType(MPLS_TYPE_VPWS), Apply(SetTunnel(tid), Apply(SetL2Port(l2), f))).pkt == f.pkt
  {}

  lemma AfterPopCw(f: Frame, h: seq<Header>)
    requires f.pkt.headers == [Cw] + h
    ensures Apply(PopCw, f).pkt == f.pkt.(headers := h)
  {
    assert ([Cw] + h)[1..] == h;
  }

  lemma TerminationChain(cfg: Config, ws: seq<Pair>, groups: map<nat, seq<Action>>, w: Pair, f: Frame)
    requires Valid(cfg) && w in ws && w.0 < 256
    requires TerminationGroups(ws, groups) && OuterEth(f.pkt)
    ensures Execute(groups, [Group(UnfilteredGid(w.0))], f) == Some(Emitted(w.0, f.pkt))
  {
    hide UnfilteredGid, Execute, ActionSet, ApplyAll;
    var g := UnfilteredGid(w.0);
    assert HasPort(ws, w.0);
    OrderSingle(Group(g));
    Chain(groups, [Group(g)], f, g);
    assert ApplyAll([Group(g)], f) == f by {
      First(Group(g), [], f);
      assert [Group(g)] + [] == [Group(g)];
      NoActions(f);
    }
    var h := f.pkt.headers;
    assert h == [h[0]] + h[1..];
    OutputChain(groups - {g}, w.0, f, h[0], h[1..]);
  }

  /** A labelled frame loses all that was added and leaves on the port of the pair that its inner label names. */
  lemma Terminates(cfg: Config, ws: seq<Pair>, sw: Switch, j: nat, src: Mac, p: Packet)
    requires Valid(cfg) && GoodPairs(ws) && j < |ws| && Installed(cfg, ws, sw)
    requires OuterEth(p)
    ensures Run(sw, 10, Frame(Labelled(cfg, src, LabelOf(ws[j].0, ws[j].1), p), Meta(cfg.mplsPort, 0, 0, 0)), []) ==
            Some(Emitted(ws[j].0, p))
  {
    hide Run, Hits, ApplyAll, Execute, LabelOf, Tid, NetworkL2Port, UnfilteredGid, InitiationFlows, InitiationGroups,
      OnlyExpected;
    var lbl := LabelOf(ws[j].0, ws[j].1);
    var tail := [Mpls(lbl, true), Cw] + p.headers;
    var q := Labelled(cfg, src, lbl, p);
    var f := Frame(q, Meta(cfg.mplsPort, 0, 0, 0));
    assert q.headers == [Eth(cfg.macSelf, src, None), Mpls(cfg.outerIngress, false)] + tail;
    TerminationHits(cfg, ws, sw, j, f);
    RunOne(sw, 10, f, [], UntaggedKey(cfg));
    var f1 := WithHeaders(f, [Eth(cfg.macSelf, src, Some(OFDPA_VLAN)), Mpls(cfg.outerIngress, false)] + tail);
    assert Run(sw, 10, f, []) == Run(sw, 20, f1, []) by {
      First(SetVlan(OFDPA_VLAN), [], f);
      assert Apply(SetVlan(OFDPA_VLAN), f) == f1;
      NoActions(f1);
      assert [SetVlan(OFDPA_VLAN)] + [] == [SetVlan(OFDPA_VLAN)];
      NoWrites([]);
    }
    TerminationHits(cfg, ws, sw, j, f1);
    RunOne(sw, 20, f1, [], TermKey(0, cfg.macSelf));
    assert Run(sw, 20, f1, []) == Run(sw, 24, f1, []) by {
      NoActions(f1);
      NoWrites([]);
    }
    LabelHits(cfg, ws, sw, j, f1);
    RunOne(sw, 24, f1, [], OuterKey(cfg.outerIngress));
    var f2 := WithHeaders(f, [Eth(cfg.macSelf, src, Some(OFDPA_VLAN))] + tail);
    assert Run(sw, 24, f1, []) == Run(sw, 25, f2, []) by {
      First(PopMpls, [], f1);
      NoActions(f2);
      assert [PopMpls] + [] == [PopMpls];
      NoWrites([]);
    }
    FromTable25(cfg, ws, sw, j, f2, Eth(cfg.macSelf, src, Some(OFDPA_VLAN)), p);
  }

  lemma FromTable25(cfg: Config, ws: seq<Pair>, sw: Switch, j: nat, f: Frame, e: Header, p: Packet)
    requires Valid(cfg) && GoodPairs(ws) && j < |ws| && Installed(cfg, ws, sw)
    requires OuterEth(p) && e.Eth?
    requires f.pkt == p.(headers := [e] + ([Mpls(LabelOf(ws[j].0, ws[j].1), true), Cw] + p.headers))
    ensures Run(sw, 25, f, []) == Some(Emitted(ws[j].0, p))
  {
    hide Run, Hits, ApplyAll, Execute, LabelOf, Tid, NetworkL2Port, UnfilteredGid, InitiationFlows, InitiationGroups,
      OnlyExpected, TerminationGroups;
    var w := ws[j];
    var lbl := LabelOf(w.0, w.1);
    LabelHits(cfg, ws, sw, j, f);
    RunOne(sw, 25, f, [], PwKey(lbl));
    var g := Group(UnfilteredGid(w.0));
    assert f.pkt.headers == [e, Mpls(lbl, true), Cw] + p.headers;
    PwEdits(f, e, lbl, p.headers, NetworkL2Port(L2_PORT_ID), Tid(j));
    var f' := ApplyAll(sw.flows[PwKey(lbl)].apply, f);
    assert f'.pkt == p;
    assert [] + [g] == [g];
    FallThrough(sw, 29, f', [g]);
    assert w in ws;
    TerminationChain(cfg, ws, sw.groups, w, f');
  }

  // -------------------------------------------------------------------------
  // The wire
  // -------------------------------------------------------------------------

  /** The configuration of the other switch: MAC addresses and outer labels swapped. */
  function Mirror(cfg: Config): Config {
    cfg.(macSelf := cfg.macPeer, macPeer := cfg.macSelf,
         outerIngress := cfg.outerEgress, outerEgress := cfg.outerIngress)
  }

  /** A switch that held anything, after its first connect. */
  ghost function Connected(sw0: Switch, cfg: Config): Switch {
    Replay(sw0, Connect(State(FRESH_TABLES, []), cfg).log)
  }

  /** Into a port of one switch, over the link between the MPLS ports, out of a port of the other. */
  ghost function Through(a: Switch, b: Switch, mplsPort: nat, port: nat, p: Packet): Option<Emitted> {
    var e := Forward(a, port, p);
    if e.Some? && e.value.port == mplsPort then Forward(b, mplsPort, e.value.pkt) else None
  }

  lemma EncapIsLabelled(cfg: Config, lbl: nat, p: Packet)
    ensures Encap(cfg, lbl, p) == Labelled(Mirror(cfg), cfg.macSelf, lbl, p)
  {}

  /** Where a frame of the j-th pair comes out: on the port of the pair that owns its tunnel id. */
  lemma CarriesToOwner(cfg: Config, a: Switch, b: Switch, j: nat, p: Packet)
    requires Valid(cfg) && j < |Pairs(cfg)|
    requires Installed(cfg, Pairs(cfg), a) && Installed(Mirror(cfg), Pairs(cfg), b)
    requires Tagged(p, Pairs(cfg)[j].1)
    ensures var ws := Pairs(cfg);
            && Owner(|ws|, Tid(j)).Some? && Owner(|ws|, Tid(j)).value < |ws|
            && var out := ws[Owner(|ws|, Tid(j)).value].0;
               Through(a, b, cfg.mplsPort, ws[j].0, p) ==
               if cfg.mplsPort == ws[j].0 || cfg.mplsPort == out then None else Some(Emitted(out, p))
  {
    hide Installed, GoodPairs, Run, LabelOf, Tid, Pairs, Encap, Labelled;
    PairsAreConfigured(cfg);
    var ws := Pairs(cfg);
    Initiates(cfg, ws, a, j, p);
    var i := Owner(|ws|, Tid(j)).value;
    EncapIsLabelled(cfg, LabelOf(ws[i].0, ws[i].1), p);
    Terminates(Mirror(cfg), ws, b, i, cfg.macSelf, p);
  }

  /** The promise: every tagged frame of every configured pair comes out of the same port, unchanged. */
  ghost predicate CarriesAll(cfg: Config) {
    forall a0, b0, w, p :: Configured(cfg, w) && Tagged(p, w.1) ==>
      Through(Connected(a0, cfg), Connected(b0, Mirror(cfg)), cfg.mplsPort, w.0, p) == Some(Emitted(w.0, p))
  }

  /** Tunnel ids fit their 16 bits, and the MPLS port is not one of the plain ports. */
  predicate Fits(cfg: Config) {
    NumPairs(cfg) <= 0x1_0000 && !(cfg.firstPort <= cfg.mplsPort <= cfg.lastPort)
  }

  lemma SamePairs(cfg: Config)
    ensures Pairs(Mirror(cfg)) == Pairs(cfg)
  {
    SamePortPairs(cfg, PortEnd(cfg));
  }

  lemma {:induction false} SamePortPairs(cfg: Config, upTo: nat)
    requires cfg.firstPort <= upTo
    ensures PortPairs(Mirror(cfg), upTo) == PortPairs(cfg, upTo)
    decreases upTo
  {
    if upTo > cfg.firstPort {
      SamePortPairs(cfg, upTo - 1);
    }
  }

  lemma BothInstalled(cfg: Config, a0: Switch, b0: Switch)
    requires Valid(cfg)
    ensures Installed(cfg, Pairs(cfg), Connected(a0, cfg))
    ensures Installed(Mirror(cfg), Pairs(cfg), Connected(b0, Mirror(cfg)))
  {
    hide Installed, AllAccepted, Replay, Pairs, Connect;
    ConnectInstalls(a0, cfg);
    ConnectInstalls(b0, Mirror(cfg));
    SamePairs(cfg);
  }

  lemma OwnTunnelId(n: nat, j: nat)
    requires j < n <= 0x1_0000
    ensures Owner(n, Tid(j)) == Some(j)
  {
    OwnerIsLast(n, j);
    TunnelIdsDistinctIff(n);
  }

  lemma FittingCarriesAll(cfg: Config)
    requires Valid(cfg) && Fits(cfg)
    ensures CarriesAll(cfg)
  {
    hide Through, Connected, Installed, Pairs, GoodPairs, Owner, Tid;
    PairsAreConfigured(cfg);
    forall a0, b0, w, p | Configured(cfg, w) && Tagged(p, w.1)
      ensures Through(Connected(a0, cfg), Connected(b0, Mirror(cfg)), cfg.mplsPort, w.0, p) == Some(Emitted(w.0, p))
    {
      BothInstalled(cfg, a0, b0);
      assert w in Pairs(cfg);
      var j: nat :| j < |Pairs(cfg)| && Pairs(cfg)[j] == w;
      CarriesToOwner(cfg, Connected(a0, cfg), Connected(b0, Mirror(cfg)), j, p);
      OwnTunnelId(|Pairs(cfg)|, j);
    }
  }

  function Sample(vlan: nat): Packet {
    Packet([Eth("", "", Some(vlan))], 0, [])
  }

  /** A frame that enters on the MPLS port itself is lost. */
  lemma MplsPortLoses(cfg: Config)
    requires Valid(cfg) && NumPairs(cfg) > 0 && cfg.firstPort <= cfg.mplsPort <= cfg.lastPort
    ensures !CarriesAll(cfg)
  {
    hide Through, Connected, Installed, Pairs, GoodPairs, Owner, Tid;
    PairsAreConfigured(cfg);
    BothInstalled(cfg, EMPTY_SWITCH, EMPTY_SWITCH);
    var w := (cfg.mplsPort, cfg.firstVlan);
    assert VlanEnd(cfg) > cfg.firstVlan;
    assert Configured(cfg, w) && w in Pairs(cfg);
    var j: nat :| j < |Pairs(cfg)| && Pairs(cfg)[j] == w;
    CarriesToOwner(cfg, Connected(EMPTY_SWITCH, cfg), Connected(EMPTY_SWITCH, Mirror(cfg)), j, Sample(w.1));
  }

  /** With too many pairs, frames of the first pair come out of another port. */
  lemma TooManyMisdeliver(cfg: Config)
    requires Valid(cfg) && NumPairs(cfg) > 0x1_0000
    ensures !CarriesAll(cfg)
  {
    hide Through, Connected, Installed, GoodPairs, Tid;
    PairsAreConfigured(cfg);
    BothInstalled(cfg, EMPTY_SWITCH, EMPTY_SWITCH);
    var ws := Pairs(cfg);
    var n := |ws|;
    TidValue(0);
    TidValue(0x1_0000);
    OwnerIsLast(n, 0x1_0000);
    OwnerIsLast(n, 0);
    var o := Owner(n, Tid(0)).value;
    assert Tid(0) == Tid(0x1_0000) && o >= 0x1_0000;
    PortPairsAt(cfg, PortEnd(cfg));
    assert ws[o].0 != ws[0].0 by {
      RowZero(cfg, ws[0].0, ws[o].0);
    }
    assert ws[0] in ws;
    CarriesToOwner(cfg, Connected(EMPTY_SWITCH, cfg), Connected(EMPTY_SWITCH, Mirror(cfg)), 0, Sample(ws[0].1));
  }

  lemma RowZero(cfg: Config, first: nat, port: nat)
    requires cfg.firstPort <= first && cfg.firstPort <= port
    ensures port == first ==> RowStart(cfg, port) == RowStart(cfg, first)
  {}

  /**
   The wire keeps its promise exactly when the configured pairs fit into the tunnel id space and the MPLS
   port is not among the plain ports (or when no pair is configured at all).
   */
  lemma WireIff(cfg: Config)
    requires Valid(cfg)
    ensures CarriesAll(cfg) <==> NumPairs(cfg) == 0 || Fits(cfg)
  {
    hide CarriesAll;
    if NumPairs(cfg) == 0 {
      NothingToCarry(cfg);
    } else if Fits(cfg) {
      FittingCarriesAll(cfg);
    } else if cfg.firstPort <= cfg.mplsPort <= cfg.lastPort {
      MplsPortLoses(cfg);
    } else {
      TooManyMisdeliver(cfg);
    }
  }

  lemma NothingToCarry(cfg: Config)
    requires Valid(cfg) && NumPairs(cfg) == 0
    ensures CarriesAll(cfg)
  {
    hide Through, Connected;
    PairsAreConfigured(cfg);
    forall w ensures !Configured(cfg, w) {
      assert w in Pairs(cfg) <==> Configured(cfg, w);
    }
  }

  /** The wire works in both directions at once. */
  lemma WireBothWays(cfg: Config)
    requires Valid(cfg) && Fits(cfg)
    ensures CarriesAll(cfg) && CarriesAll(Mirror(cfg)) && Mirror(Mirror(cfg)) == cfg
  {
    hide CarriesAll;
    FittingCarriesAll(cfg);
    FittingCarriesAll(Mirror(cfg));
  }
}
