/**
 The table objects of the pseudowire application and the application itself. Every object keeps
 entries across calls; what one call changes and sends is given by the functions of VpwsSpec.
 */
module Vpws {
  import opened Bits
  import opened OpenFlow
  import opened VpwsSpec

  class Datapath {
    var log: seq<Msg>

    constructor ()
      ensures log == []
    {
      log := [];
    }

    method Send(m: Msg)
      modifies this
      ensures log == old(log) + [m]
    {
      log := log + [m];
    }
  }

  class TunnelIds {
    var entries: map<TunnelKey, nat>

    constructor ()
      ensures entries == map[]
    {
      entries := map[];
    }

    method Create(port: nat, vlan: nat, id: nat) returns (tid: nat)
      modifies this
      ensures Added(entries, [], tid) == AddTunnel(old(entries), port, vlan, id)
    {
      if (port, vlan, id) !in entries {
        tid := Or(Shl(TUNNELID_TYPE_MPLS_TP, 16), |entries|);
        entries := entries[(port, vlan, id) := tid];
      }
      tid := entries[(port, vlan, id)];
    }
  }

  class GroupTableL2Interface {
    var entries: seq<nat>

    constructor ()
      ensures entries == []
    {
      entries := [];
    }

    method AddEntry(dp: Datapath, port: nat, vlan: nat) returns (gid: nat)
      modifies this, dp
      ensures var r := AddL2(old(entries), port, vlan);
              entries == r.entries && dp.log == Then(old(dp.log), r.sent) && gid == r.id
    {
      var v := vlan;
      if v == 0 {
        v := OFDPA_VLAN;
      }
      gid := Or(Or(Shl(0x0, 28), Shl(v, 16)), port);
      if gid in entries {
        return;
      }
      var actions := [Output(port)];
      if v == OFDPA_VLAN {
        actions := actions + [PopVlan];
      } else {
        assert actions == actions + [];
      }
      dp.Send(AddGroup(gid, actions));
      entries := entries + [gid];
    }

    method AddUnfilteredEntry(dp: Datapath, port: nat) returns (gid: nat)
      modifies this, dp
      ensures var r := AddUnfiltered(old(entries), port);
              entries == r.entries && dp.log == Then(old(dp.log), r.sent) && gid == r.id
    {
      gid := Or(Shl(0xB, 28), port);
      if gid in entries {
        return;
      }
      dp.Send(AddGroup(gid, [Output(port), SetVlanTranslation]));
      entries := entries + [gid];
    }
  }

  class GroupTableMplsInterface {
    var entries: map<IfKey, nat>
    var index: nat

    constructor ()
      ensures entries == map[] && index == 0
    {
      entries, index := map[], 0;
    }

    method AddEntry(dp: Datapath, l2Gid: nat, vlan: nat, src: Mac, dst: Mac) returns (gid: nat)
      modifies this, dp
      ensures var r := AddIf(Numbered(old(entries), old(index)), l2Gid, vlan, src, dst);
              Numbered(entries, index) == r.entries && dp.log == Then(old(dp.log), r.sent) && gid == r.id
    {
      if (l2Gid, vlan, src, dst) in entries {
        return entries[(l2Gid, vlan, src, dst)];
      }
      gid := Or(Or(Shl(0x9, 28), Shl(0, 24)), index);
      index := index + 1;
      var v := vlan;
      if v == 0 {
        v := OFDPA_VLAN;
      }
      dp.Send(AddGroup(gid, [SetVlan(v), SetSrc(src), SetDst(dst), Group(l2Gid)]));
      entries := entries[(l2Gid, v, src, dst) := gid];
    }
  }

  class GroupTableVpnLabel {
    var entries: map<LabelKey, nat>
    var index: nat

    constructor ()
      ensures entries == map[] && index == 0
    {
      entries, index := map[], 0;
    }

    method AddEntry(dp: Datapath, lbl: nat, next: nat) returns (gid: nat)
      modifies this, dp
      ensures var r := AddVpn(Numbered(old(entries), old(index)), lbl, next);
              Numbered(entries, index) == r.entries && dp.log == Then(old(dp.log), r.sent) && gid == r.id
    {
      if (lbl, next) in entries {
        return entries[(lbl, next)];
      }
      gid := Or(Or(Shl(0x9, 28), Shl(1, 24)), index);
      index := index + 1;
      dp.Send(AddGroup(gid, [PushL2Header, PushMpls, PushCw, SetLabel(lbl), SetBos(true), Group(next)]));
      entries := entries[(lbl, next) := gid];
    }
  }

  class GroupTableTunnelLabel {
    var entries: map<LabelKey, nat>
    var index: nat

    constructor ()
      ensures entries == map[] && index == 0
    {
      entries, index := map[], 0;
    }

    method AddEntry(dp: Datapath, lbl: nat, next: nat) returns (gid: nat)
      modifies this, dp
      ensures var r := AddTunnelLabel(Numbered(old(entries), old(index)), lbl, next);
              Numbered(entries, index) == r.entries && dp.log == Then(old(dp.log), r.sent) && gid == r.id
    {
      if (lbl, next) in entries {
        return entries[(lbl, next)];
      }
      gid := Or(Or(Shl(0x9, 28), Shl(3, 24)), index);
      index := index + 1;
      dp.Send(AddGroup(gid, [PushMpls, SetLabel(lbl), Group(next)]));
      entries := entries[(lbl, next) := gid];
    }
  }

  class FlowTableVlan {
    var entries: seq<nat>

    constructor ()
      ensures entries == []
    {
      entries := [];
    }

    method AddEntry(dp: Datapath, port: nat, vlan: nat)
      modifies this, dp
      ensures var r := AddVlan(old(entries), port, vlan);
              entries == r.entries && dp.log == Then(old(dp.log), r.sent)
    {
      var key := Or(Shl(vlan, 8), port);
      if key in entries {
        return;
      }
      entries := entries + [key];
      if vlan != 0 {
        dp.Send(TagFlow(port, vlan));
      } else {
        dp.Send(TagFlow(port, OFDPA_VLAN));
        dp.Send(UntaggedFlow(port, OFDPA_VLAN));
      }
    }
  }

  class FlowTableVlanMpls {
    var entries: seq<(nat, nat)>

    constructor ()
      ensures entries == []
    {
      entries := [];
    }

    method AddEntry(dp: Datapath, vlan: nat, port: nat, tid: nat, id: nat)
      modifies this, dp
      ensures var r := AddMplsVlan(old(entries), vlan, port, tid, id);
              entries == r.entries && dp.log == Then(old(dp.log), r.sent)
    {
      if (vlan, port) in entries {
        return;
      }
      entries := entries + [(vlan, port)];
      dp.Send(MplsVlanFlow(port, vlan, tid, id));
    }
  }

  class FlowTableMplsL2Port {
    var entries: seq<(nat, nat, nat)>

    constructor ()
      ensures entries == []
    {
      entries := [];
    }

    method AddEntry(dp: Datapath, gid: nat, tid: nat, id: nat)
      modifies this, dp
      ensures var r := AddL2Port(old(entries), gid, tid, id);
              entries == r.entries && dp.log == Then(old(dp.log), r.sent)
    {
      if (gid, tid, id) in entries {
        return;
      }
      entries := entries + [(gid, tid, id)];
      dp.Send(L2PortFlow(gid, tid, id));
    }
  }

  class FlowTableTermination {
    var entries: seq<string>

    constructor ()
      ensures entries == []
    {
      entries := [];
    }

    method AddEntry(dp: Datapath, vlan: nat, mac: Mac)
      modifies this, dp
      ensures var r := AddTerm(old(entries), vlan, mac);
              entries == r.entries && dp.log == Then(old(dp.log), r.sent)
    {
      var key := Digits(vlan) + mac;
      if key in entries {
        return;
      }
      entries := entries + [key];
      dp.Send(TermFlow(vlan, mac));
    }
  }

  class FlowTablePwTerminate {
    var entries: seq<(nat, nat, nat, nat)>

    constructor ()
      ensures entries == []
    {
      entries := [];
    }

    method AddEntry(dp: Datapath, gid: nat, lbl: nat, tid: nat, id: nat)
      modifies this, dp
      ensures var r := AddPw(old(entries), gid, lbl, tid, id);
              entries == r.entries && dp.log == Then(old(dp.log), r.sent)
    {
      if (gid, lbl, tid, id) in entries {
        return;
      }
      entries := entries + [(gid, lbl, tid, id)];
      dp.Send(PwFlow(gid, lbl, tid, id));
    }
  }

  class FlowTableOuterLabel {
    var entries: seq<nat>

    constructor ()
      ensures entries == []
    {
      entries := [];
    }

    method AddEntry(dp: Datapath, lbl: nat)
      modifies this, dp
      ensures var r := AddOuter(old(entries), lbl);
              entries == r.entries && dp.log == Then(old(dp.log), r.sent)
    {
      if lbl in entries {
        return;
      }
      entries := entries + [lbl];
      dp.Send(OuterFlow(lbl));
    }
  }

  lemma RowEnds(cfg: Config, port: nat)
    requires cfg.firstPort <= port
    ensures Visited(cfg, port, VlanEnd(cfg)) == Visited(cfg, port + 1, cfg.firstVlan)
  {}

  /** Before the first row, and after the last one. */
  lemma LoopEnds(start: State, cfg: Config)
    ensures CreateAll(start, cfg, Visited(cfg, cfg.firstPort, cfg.firstVlan)) == start
    ensures Visited(cfg, PortEnd(cfg), cfg.firstVlan) == Pairs(cfg)
  {}

  class App {
    const cfg: Config
    const tunnelIds: TunnelIds
    const gtL2Interface: GroupTableL2Interface
    const gtMplsInterface: GroupTableMplsInterface
    const gtTunnelLabel: GroupTableTunnelLabel
    const gtVpnLabel: GroupTableVpnLabel
    const ftVlanMpls: FlowTableVlanMpls
    const ftMplsL2Port: FlowTableMplsL2Port
    const ftOuterLabel: FlowTableOuterLabel
    const ftPwTerminate: FlowTablePwTerminate
    const ftTermination: FlowTableTermination
    const ftVlan: FlowTableVlan

    ghost function Repr(): set<object> {
      {tunnelIds, gtL2Interface, gtMplsInterface, gtTunnelLabel, gtVpnLabel, ftVlanMpls, ftMplsL2Port,
       ftOuterLabel, ftPwTerminate, ftTermination, ftVlan}
    }

    ghost function View(): Tables
      reads Repr()
    {
      Tables(tunnelIds.entries, gtL2Interface.entries, Numbered(gtMplsInterface.entries, gtMplsInterface.index),
             Numbered(gtTunnelLabel.entries, gtTunnelLabel.index), Numbered(gtVpnLabel.entries, gtVpnLabel.index),
             ftVlanMpls.entries, ftMplsL2Port.entries, ftOuterLabel.entries, ftPwTerminate.entries,
             ftTermination.entries, ftVlan.entries)
    }

    constructor (cfg: Config)
      ensures this.cfg == cfg
      ensures fresh(Repr()) && View() == FRESH_TABLES
    {
      this.cfg := cfg;
      tunnelIds := new TunnelIds();
      gtL2Interface := new GroupTableL2Interface();
      gtMplsInterface := new GroupTableMplsInterface();
      gtTunnelLabel := new GroupTableTunnelLabel();
      gtVpnLabel := new GroupTableVpnLabel();
      ftVlanMpls := new FlowTableVlanMpls();
      ftMplsL2Port := new FlowTableMplsL2Port();
      ftOuterLabel := new FlowTableOuterLabel();
      ftPwTerminate := new FlowTablePwTerminate();
      ftTermination := new FlowTableTermination();
      ftVlan := new FlowTableVlan();
    }

    method CreateVpws(dp: Datapath, plainPort: nat, vlan: nat)
      modifies Repr(), dp
      ensures State(View(), dp.log) == VpwsSpec.CreateVpws(State(old(View()), old(dp.log)), cfg, (plainPort, vlan))
    {
      hide AddTunnel, VpwsSpec.Initiate, VpwsSpec.Terminate;
      var tid := tunnelIds.Create(plainPort, vlan, L2_PORT_ID);
      Initiate(dp, plainPort, vlan, tid);
      Terminate(dp, plainPort, vlan, tid);
    }

    method Initiate(dp: Datapath, plainPort: nat, vlan: nat, tid: nat)
      modifies Repr(), dp
      ensures State(View(), dp.log) == VpwsSpec.Initiate(State(old(View()), old(dp.log)), cfg, (plainPort, vlan), tid)
    {
      hide Then, LabelOf, AddL2, AddIf, AddTunnelLabel, AddVpn, AddMplsVlan, AddL2Port;
      var l2Gid := gtL2Interface.AddEntry(dp, cfg.mplsPort, 0);
      var ifGid := gtMplsInterface.AddEntry(dp, l2Gid, 0, cfg.macSelf, cfg.macPeer);
      var tunnelGid := gtTunnelLabel.AddEntry(dp, cfg.outerEgress, ifGid);
      var vpnGid := gtVpnLabel.AddEntry(dp, LabelOf(plainPort, vlan), tunnelGid);
      ftVlanMpls.AddEntry(dp, vlan, plainPort, tid, L2_PORT_ID);
      ftMplsL2Port.AddEntry(dp, vpnGid, tid, L2_PORT_ID);
    }

    method Terminate(dp: Datapath, plainPort: nat, vlan: nat, tid: nat)
      modifies Repr(), dp
      ensures State(View(), dp.log) == VpwsSpec.Terminate(State(old(View()), old(dp.log)), cfg, (plainPort, vlan), tid)
    {
      hide Then, LabelOf, AddUnfiltered, AddOuter, AddPw, AddTerm, AddVlan;
      var unfilteredGid := gtL2Interface.AddUnfilteredEntry(dp, plainPort);
      ftOuterLabel.AddEntry(dp, cfg.outerIngress);
      ftPwTerminate.AddEntry(dp, unfilteredGid, LabelOf(plainPort, vlan), tid, L2_PORT_ID);
      ftTermination.AddEntry(dp, 0, cfg.macSelf);
      ftVlan.AddEntry(dp, cfg.mplsPort, 0);
    }

    /** A switch connects: purge it and configure every pseudowire. */
    method SwitchConnect(dp: Datapath)
      modifies Repr(), dp
      ensures State(View(), dp.log) == Connect(State(old(View()), old(dp.log)), cfg)
    {
      hide VpwsSpec.CreateVpws, CreateAll, Visited, CopyFlow, Pairs;
      dp.Send(DeleteFlows);
      dp.Send(Barrier);
      dp.Send(DeleteGroups);
      ghost var start := State(View(), Then(old(dp.log), PURGE));
      assert dp.log == start.log;
      LoopEnds(start, cfg);
      var port := cfg.firstPort;
      while port < cfg.lastPort + 1
        invariant cfg.firstPort <= port <= PortEnd(cfg)
        invariant State(View(), dp.log) == CreateAll(start, cfg, Visited(cfg, port, cfg.firstVlan))
      {
        var vlan := cfg.firstVlan;
        while vlan < cfg.lastVlan + 1
          invariant cfg.firstVlan <= vlan <= VlanEnd(cfg)
          invariant State(View(), dp.log) == CreateAll(start, cfg, Visited(cfg, port, vlan))
        {
          VisitNext(start, cfg, port, vlan);
          CreateVpws(dp, port, vlan);
          vlan := vlan + 1;
        }
        RowEnds(cfg, port);
        port := port + 1;
      }
      ghost var all := CreateAll(start, cfg, Pairs(cfg));
      dp.Send(CopyFlow(ETH_TYPE_ARP));
      dp.Send(CopyFlow(ETH_TYPE_IP));
      assert dp.log == Then(all.log, COPIES);
    }
  }
}
