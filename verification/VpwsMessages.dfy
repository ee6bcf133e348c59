/** The messages of the pseudowire application word for word, and what its memories of them are for. */
module VpwsMessages {
  import opened Bits
  import opened Common
  import opened OpenFlow
  import opened VpwsSpec
  import opened VpwsIds
  import opened VpwsInstall
  import opened VpwsForward

  // -------------------------------------------------------------------------
  // Word for word
  // -------------------------------------------------------------------------

  /** Types and values in the upper half of an L2 port number. */
  lemma PortTypes()
    ensures LocalL2Port(0xBEEF) == 0xBEEF && NetworkL2Port(0xBEEF) == 0x2_BEEF
  {
    hide Or, Shl, Pow2;
    Pow2Values();
    ShlIs(0, 16);
    Fields(0, 0xBEEF, 16);
    Fields(2, 0xBEEF, 16);
  }

  /** The initiation half of the first pseudowire. */
  lemma FirstInitiation(cfg: Config, port: nat, vlan: nat)
    requires cfg.mplsPort < 0x1_0000 && port < 256 && 1 <= vlan <= 4094
    ensures Initiate(State(FRESH_TABLES, []), cfg, (port, vlan), 0x1_0000).log == [
              AddGroup(0x0FFF_0000 + cfg.mplsPort, [Output(cfg.mplsPort), PopVlan]),
              AddGroup(0x9000_0000, [SetVlan(4095), SetSrc(cfg.macSelf), SetDst(cfg.macPeer),
                                     Group(0x0FFF_0000 + cfg.mplsPort)]),
              AddGroup(0x9300_0000, [PushMpls, SetLabel(cfg.outerEgress), Group(0x9000_0000)]),
              AddGroup(0x9100_0000, [PushL2Header, PushMpls, PushCw, SetLabel(256 * vlan + port), SetBos(true),
                                     Group(0x9300_0000)]),
              AddFlow(Key(10, Match(inPort := Some(port), vid := Tag(vlan))),
                      Instr([SetL2Port(0xBEEF), SetTunnel(0x1_0000), SetMplsType(1)], [], Some(13))),
              AddFlow(Key(13, Match(l2Port := Some(0xBEEF), tunnel := Some(0x1_0000))),
                      Instr([], [Group(0x9100_0000)], Some(60)))]
  {
    hide L2Gid, IfGid, VpnGid, TunnelGid, LabelOf, LocalL2Port, Digits;
    GidValues(0, cfg.mplsPort);
    LabelValue(port, vlan);
    PortTypes();
    var l2 := 0x0FFF_0000 + cfg.mplsPort;
    assert L2Bucket(cfg.mplsPort, 4095) == [Output(cfg.mplsPort), PopVlan];
    assert AddL2([], cfg.mplsPort, 0).id == l2;
    assert AddL2([], cfg.mplsPort, 0).sent == [AddGroup(l2, [Output(cfg.mplsPort), PopVlan])];
    assert AddIf(Numbered(map[], 0), l2, 0, cfg.macSelf, cfg.macPeer).id == 0x9000_0000;
    assert AddTunnelLabel(Numbered(map[], 0), cfg.outerEgress, 0x9000_0000).id == 0x9300_0000;
    assert AddVpn(Numbered(map[], 0), 256 * vlan + port, 0x9300_0000).id == 0x9100_0000;
    hide AddL2, AddUnfiltered;
  }

  /** The termination half of the first pseudowire. */
  lemma FirstTermination(cfg: Config, port: nat, vlan: nat)
    requires port < 256
    ensures Terminate(State(FRESH_TABLES, []), cfg, (port, vlan), 0x1_0000).log == [
              AddGroup(0xB000_0000 + port, [Output(port), SetVlanTranslation]),
              AddFlow(Key(24, Match(ethType := Some(0x8847), lbl := Some(cfg.outerIngress), bos := Some(false))),
                      Instr([PopMpls], [], Some(25))),
              AddFlow(Key(24, Match(ethType := Some(0x8847), lbl := Some(256 * vlan + port), bos := Some(true))),
                      Instr([PopMpls, PopL2Header, SetL2Port(0x2_BEEF), SetTunnel(0x1_0000), SetMplsType(1), PopCw],
                            [Group(0xB000_0000 + port)], Some(29))),
              AddFlow(Key(20, Match(vid := Tag(4095), ethType := Some(0x8847), ethDst := Some(cfg.macSelf))),
                      Instr([], [], Some(24))),
              AddFlow(Key(10, Match(inPort := Some(cfg.mplsPort), vid := Tag(4095))), Instr([], [], Some(20))),
              AddFlow(Key(10, Match(inPort := Some(cfg.mplsPort), vid := NoTag)),
                      Instr([SetVlan(4095)], [], Some(20)))]
  {
    hide UnfilteredGid, LabelOf, NetworkL2Port, Digits, Or, Shl;
    GidValues(0, port);
    LabelValue(port, vlan);
    PortTypes();
    var un := 0xB000_0000 + port;
    assert AddUnfiltered([], port).id == un;
    assert AddUnfiltered([], port).sent == [AddGroup(un, [Output(port), SetVlanTranslation])];
    TerminationMessages(cfg, un, 256 * vlan + port);
    hide AddUnfiltered, AddOuter, AddPw, AddTerm, AddVlan;
    ThenAll(AddUnfiltered([], port).sent, AddOuter([], cfg.outerIngress).sent,
            AddPw([], un, 256 * vlan + port, 0x1_0000, L2_PORT_ID).sent, AddTerm([], 0, cfg.macSelf).sent,
            AddVlan([], cfg.mplsPort, 0).sent);
  }

  lemma ThenAll(a: seq<Msg>, b: seq<Msg>, c: seq<Msg>, d: seq<Msg>, e: seq<Msg>)
    ensures Then(Then(Then(Then(Then([], a), b), c), d), e) == a + b + c + d + e
  {}

  lemma TerminationMessages(cfg: Config, un: nat, lbl: nat)
    ensures AddOuter([], cfg.outerIngress).sent ==
            [AddFlow(Key(24, Match(ethType := Some(0x8847), lbl := Some(cfg.outerIngress), bos := Some(false))),
                     Instr([PopMpls], [], Some(25)))]
    ensures AddPw([], un, lbl, 0x1_0000, L2_PORT_ID).sent ==
            [AddFlow(Key(24, Match(ethType := Some(0x8847), lbl := Some(lbl), bos := Some(true))),
                     Instr([PopMpls, PopL2Header, SetL2Port(0x2_BEEF), SetTunnel(0x1_0000), SetMplsType(1), PopCw],
                           [Group(un)], Some(29)))]
    ensures AddTerm([], 0, cfg.macSelf).sent ==
            [AddFlow(Key(20, Match(vid := Tag(4095), ethType := Some(0x8847), ethDst := Some(cfg.macSelf))),
                     Instr([], [], Some(24)))]
    ensures AddVlan([], cfg.mplsPort, 0).sent == [
              AddFlow(Key(10, Match(inPort := Some(cfg.mplsPort), vid := Tag(4095))), Instr([], [], Some(20))),
              AddFlow(Key(10, Match(inPort := Some(cfg.mplsPort), vid := NoTag)),
                      Instr([SetVlan(4095)], [], Some(20)))]
  {
    hide Or, Shl, NetworkL2Port, Digits;
    PortTypes();
  }

  /** Both halves use the tunnel id of the pair, and the L2 port 0xBEEF. */
  lemma BothHalves(s: State, cfg: Config, port: nat, vlan: nat)
    ensures var tn := AddTunnel(s.tables.tunnels, port, vlan, 0xBEEF);
            CreateVpws(s, cfg, (port, vlan)) ==
            Terminate(Initiate(State(s.tables.(tunnels := tn.entries), s.log), cfg, (port, vlan), tn.id),
                      cfg, (port, vlan), tn.id)
    ensures s.tables.tunnels == map[] ==> AddTunnel(s.tables.tunnels, port, vlan, 0xBEEF).id == 0x1_0000
  {
    hide Initiate, Terminate, Tid;
    TidValue(0);
  }

  /** A connect begins by emptying the switch and ends with copies of ARP and IP frames to the controller. */
  lemma ConnectFrame(s: State, cfg: Config)
    ensures Connect(s, cfg).log ==
            CreateAll(s.(log := s.log + [DeleteFlows, Barrier, DeleteGroups]), cfg, Pairs(cfg)).log + [
              AddFlow(Key(60, Match(ethType := Some(0x0806))), Instr([Output(0xFFFF_FFFD)], [], None)),
              AddFlow(Key(60, Match(ethType := Some(0x0800))), Instr([Output(0xFFFF_FFFD)], [], None))]
  {
    hide CreateAll, Pairs;
  }

  /** Groups and flows for a VLAN of its own, which the table objects also offer. */
  lemma OwnVlan(port: nat, vlan: nat, mac: Mac)
    requires port < 0x1_0000 && 1 <= vlan <= 4094
    ensures AddL2([], port, vlan).sent == [AddGroup(0x1_0000 * vlan + port, [Output(port)])]
    ensures AddVlan([], port, vlan).sent ==
            [AddFlow(Key(10, Match(inPort := Some(port), vid := Tag(vlan))), Instr([], [], Some(20)))]
    ensures AddTerm([], vlan, mac).sent ==
            [AddFlow(Key(20, Match(vid := Tag(vlan), ethType := Some(0x8847), ethDst := Some(mac))),
                     Instr([], [], Some(24)))]
    ensures IfBucket(0, vlan, mac, mac) == [SetVlan(vlan), SetSrc(mac), SetDst(mac), Group(0)]
  {
    hide L2Gid, Or, Shl, Pow2, Digits;
    L2VlanValue(port, vlan);
    assert L2Bucket(port, vlan) == [Output(port)];
  }

  lemma L2VlanValue(port: nat, vlan: nat)
    requires port < 0x1_0000 && 1 <= vlan <= 4094
    ensures L2Gid(port, vlan) == 0x1_0000 * vlan + port
  {
    hide Shl, Pow2;
    Pow2Values();
    ShlIs(0, 28);
    Fields(vlan, port, 16);
  }

  /** Without a VLAN every frame of the port is selected. */
  lemma NoVlan(port: nat, tid: nat)
    ensures AddMplsVlan([], 0, port, tid, 0xBEEF).sent ==
            [AddFlow(Key(10, Match(inPort := Some(port))),
                     Instr([SetL2Port(0xBEEF), SetTunnel(tid), SetMplsType(1)], [], Some(13)))]
  {
    hide LocalL2Port;
    PortTypes();
  }

  /** On termination the metadata of a pair is its tunnel, the network side of its L2 port, and the VPWS type. */
  lemma TerminationMetadata(cfg: Config, ws: seq<Pair>, sw: Switch, j: nat, f: Frame)
    requires Valid(cfg) && GoodPairs(ws) && j < |ws| && j < 0x1_0000 && Installed(cfg, ws, sw)
    ensures var k := PwKey(256 * ws[j].1 + ws[j].0);
            k in sw.flows && ApplyAll(sw.flows[k].apply, f).meta == Meta(f.meta.inPort, 0x1_0000 + j, 0x2_BEEF, 1)
  {
    hide ApplyAll, Apply, LabelOf, Tid, NetworkL2Port, UnfilteredGid, InitiationFlows, InitiationGroups,
      TerminationGroups, OnlyExpected, GoodPairs;
    assert ws[j].0 < 256 by { SmallPorts(ws, j); }
    LabelValue(ws[j].0, ws[j].1);
    TidValue(j);
    PortTypes();
    PwMetadata(0x2_BEEF, 0x1_0000 + j, f);
  }

  lemma SmallPorts(ws: seq<Pair>, j: nat)
    requires GoodPairs(ws) && j < |ws|
    ensures ws[j].0 < 256
  {
    assert ws[j] in ws;
  }

  lemma PwMetadata(l2: nat, tid: nat, f: Frame)
    ensures ApplyAll([PopMpls, PopL2Header, SetL2Port(l2), SetTunnel(tid), SetMplsType(1), PopCw], f).meta ==
            Meta(f.meta.inPort, tid, l2, 1)
  {
    hide ApplyAll, Edit;
    Apply6(PopMpls, PopL2Header, SetL2Port(l2), SetTunnel(tid), SetMplsType(1), PopCw, f);
  }

  // -------------------------------------------------------------------------
  // Nothing is sent twice
  // -------------------------------------------------------------------------

  /** A group that was added is returned and not added again. */
  lemma GroupsOnce(e: seq<nat>, n: Numbered<LabelKey>, port: nat, vlan: nat, lbl: nat, next: nat)
    ensures var a := AddL2(e, port, vlan); AddL2(a.entries, port, vlan) == Added(a.entries, [], a.id)
    ensures var a := AddUnfiltered(e, port); AddUnfiltered(a.entries, port) == Added(a.entries, [], a.id)
    ensures var a := AddVpn(n, lbl, next); AddVpn(a.entries, lbl, next) == Added(a.entries, [], a.id)
    ensures var a := AddTunnelLabel(n, lbl, next); AddTunnelLabel(a.entries, lbl, next) == Added(a.entries, [], a.id)
  {}

  /** For MPLS interface groups so it is exactly if they have a VLAN of their own, or were known by VLAN 0. */
  lemma InterfaceOnceIff(e: Numbered<IfKey>, l2: nat, vlan: nat, src: Mac, dst: Mac)
    ensures var a := AddIf(e, l2, vlan, src, dst);
            AddIf(a.entries, l2, vlan, src, dst) == Added(a.entries, [], a.id) <==>
            vlan != 0 || (l2, vlan, src, dst) in e.ids
  {}

  /** A flow table object remembers what distinguishes its calls, and answers a repeated call with silence. */
  lemma FlowsOnce(e: seq<(nat, nat)>, t: seq<(nat, nat, nat)>, q: seq<(nat, nat, nat, nat)>, a: nat, b: nat, c: nat, d: nat)
    ensures var r := AddMplsVlan(e, a, b, c, d); (r.sent == [] <==> (a, b) in e) && r.entries == Noted(e, (a, b))
    ensures var r := AddL2Port(t, a, b, c); (r.sent == [] <==> (a, b, c) in t) && r.entries == Noted(t, (a, b, c))
    ensures var r := AddPw(q, a, b, c, d); (r.sent == [] <==> (a, b, c, d) in q) && r.entries == Noted(q, (a, b, c, d))
  {}

  function Noted<K(==)>(e: seq<K>, k: K): seq<K> {
    if k in e then e else e + [k]
  }

  lemma MoreFlowsOnce(e: seq<nat>, t: seq<string>, lbl: nat, port: nat, vlan: nat, mac: Mac)
    requires port < 256
    ensures var r := AddOuter(e, lbl); (r.sent == [] <==> lbl in e) && r.entries == Noted(e, lbl)
    ensures var r := AddVlan(e, port, vlan);
            (r.sent == [] <==> 256 * vlan + port in e) && r.entries == Noted(e, 256 * vlan + port)
    ensures var r := AddTerm(t, vlan, mac);
            (r.sent == [] <==> Digits(vlan) + mac in t) && r.entries == Noted(t, Digits(vlan) + mac)
  {
    hide Or, Shl, Digits;
    LabelValue(port, vlan);
    assert LabelOf(port, vlan) == Or(Shl(vlan, 8), port);
  }

  /** The number that decimal digits stand for. */
  function Decimal(s: string): int {
    if s == "" then 0 else 10 * Decimal(s[..|s| - 1]) + (s[|s| - 1] as int - '0' as int)
  }

  lemma {:induction false} DigitsValue(n: nat)
    ensures Digits(n) != "" && Decimal(Digits(n)) == n
    ensures forall c <- Digits(n) :: '0' <= c <= '9'
  {
    var digits := "0123456789";
    assert digits[n % 10] as int == '0' as int + n % 10 by {
      DigitIs(n % 10);
    }
    if n >= 10 {
      DigitsValue(n / 10);
      assert Digits(n)[..|Digits(n)| - 1] == Digits(n / 10);
    }
  }

  lemma DigitIs(d: nat)
    requires d < 10
    ensures "0123456789"[d] as int == '0' as int + d
  {}
}
