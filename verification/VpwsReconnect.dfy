/**
 A second connect. The switch is purged, but the table objects still remember what they sent during the
 first one, so the entries that select frames are not sent again and the switch forwards nothing.
 */
module VpwsReconnect {
  import opened Common
  import opened OpenFlow
  import opened VpwsSpec
  import opened VpwsWire

  /** Every table 10 entry that the pairs need is remembered as sent. */
  ghost predicate Knows(cfg: Config, ws: seq<Pair>, t: Tables) {
    && (forall w | w in ws :: (w.1, w.0) in t.mplsVlans)
    && (ws != [] ==> VlanEntry(cfg) in t.vlans)
  }

  function VlanEntry(cfg: Config): nat {
    Bits.Or(Bits.Shl(0, 8), cfg.mplsPort)
  }

  lemma KnowsMore(s: State, cfg: Config, ws: seq<Pair>, w: Pair)
    requires Knows(cfg, ws, s.tables)
    ensures Knows(cfg, ws + [w], CreateVpws(s, cfg, w).tables)
  {
    hide AddTunnel, AddL2, AddIf, AddTunnelLabel, AddVpn, AddL2Port, AddUnfiltered, AddOuter, AddPw, AddTerm,
      Bits.Or, Bits.Shl, Then;
    assert forall v :: v in ws + [w] <==> v in ws || v == w;
  }

  lemma {:induction false} KnowsAll(s: State, cfg: Config, ws: seq<Pair>)
    ensures Knows(cfg, ws, CreateAll(s, cfg, ws).tables)
    decreases |ws|
  {
    hide Knows, CreateVpws;
    if ws == [] {
      assert Knows(cfg, ws, s.tables) by { KnowsNone(cfg, s.tables); }
    } else {
      var before, w := ws[..|ws| - 1], ws[|ws| - 1];
      assert before + [w] == ws;
      KnowsAll(s, cfg, before);
      KnowsMore(CreateAll(s, cfg, before), cfg, before, w);
    }
  }

  lemma KnowsNone(cfg: Config, t: Tables)
    ensures Knows(cfg, [], t)
  {}

  /** No entry of table 10: every frame is dropped on entry. */
  ghost predicate SelectsNothing(sw: Switch) {
    forall k | k in sw.flows :: k.table != 10
  }

  predicate OtherTable(m: Msg) {
    m.AddFlow? ==> m.key.table != 10
  }

  lemma {:induction false} StillNothing(sw0: Switch, log: seq<Msg>, sent: seq<Msg>)
    requires SelectsNothing(Replay(sw0, log))
    requires forall m | m in sent :: OtherTable(m)
    ensures SelectsNothing(Replay(sw0, Then(log, sent)))
    decreases |sent|
  {
    if sent == [] {
      assert log + sent == log;
    } else {
      var before, m := sent[..|sent| - 1], sent[|sent| - 1];
      StillNothing(sw0, log, before);
      assert Then(log, sent)[..|log + sent| - 1] == Then(log, before);
      assert m in sent;
    }
  }

  /** A pair that is known adds no entry to table 10, and stays known. */
  lemma KnownPair(sw0: Switch, s: State, cfg: Config, w: Pair, ws: seq<Pair>)
    requires w in ws && Knows(cfg, ws, s.tables)
    requires SelectsNothing(Replay(sw0, s.log))
    ensures var s' := CreateVpws(s, cfg, w);
            Knows(cfg, ws, s'.tables) && SelectsNothing(Replay(sw0, s'.log))
  {
    hide Replay, Bits.Or, Bits.Shl, Then, SelectsNothing, LabelOf, UnfilteredGid, L2Gid, IfGid, TunnelGid, VpnGid,
      Digits, LocalL2Port, NetworkL2Port, Tid, Execute;
    var tid := AddTunnel(s.tables.tunnels, w.0, w.1, L2_PORT_ID);
    var s1 := s.(tables := s.tables.(tunnels := tid.entries));
    KnownInitiation(sw0, s1, cfg, w, tid.id, ws);
    KnownTermination(sw0, Initiate(s1, cfg, w, tid.id), cfg, w, tid.id, ws);
  }

  lemma KnownInitiation(sw0: Switch, s: State, cfg: Config, w: Pair, tid: nat, ws: seq<Pair>)
    requires w in ws && Knows(cfg, ws, s.tables)
    requires SelectsNothing(Replay(sw0, s.log))
    ensures var s' := Initiate(s, cfg, w, tid);
            Knows(cfg, ws, s'.tables) && SelectsNothing(Replay(sw0, s'.log))
  {
    hide Replay, Bits.Or, Bits.Shl, Then, SelectsNothing, LabelOf, UnfilteredGid, L2Gid, IfGid, TunnelGid, VpnGid,
      LocalL2Port, NetworkL2Port;
    var t := s.tables;
    var l2 := AddL2(t.l2, cfg.mplsPort, 0);
    var i := AddIf(t.ifs, l2.id, 0, cfg.macSelf, cfg.macPeer);
    var tl := AddTunnelLabel(t.tunnelLabels, cfg.outerEgress, i.id);
    var vp := AddVpn(t.vpns, LabelOf(w.0, w.1), tl.id);
    var lp := AddL2Port(t.l2Ports, vp.id, tid, L2_PORT_ID);
    StillNothing(sw0, s.log, l2.sent);
    var log := Then(s.log, l2.sent);
    StillNothing(sw0, log, i.sent);
    log := Then(log, i.sent);
    StillNothing(sw0, log, tl.sent);
    log := Then(log, tl.sent);
    StillNothing(sw0, log, vp.sent);
    log := Then(log, vp.sent);
    StillNothing(sw0, log, []);
    log := Then(log, []);
    StillNothing(sw0, log, lp.sent);
  }

  lemma KnownTermination(sw0: Switch, s: State, cfg: Config, w: Pair, tid: nat, ws: seq<Pair>)
    requires w in ws && Knows(cfg, ws, s.tables)
    requires SelectsNothing(Replay(sw0, s.log))
    ensures var s' := Terminate(s, cfg, w, tid);
            Knows(cfg, ws, s'.tables) && SelectsNothing(Replay(sw0, s'.log))
  {
    hide Replay, Bits.Or, Bits.Shl, Then, SelectsNothing, LabelOf, UnfilteredGid, Digits, LocalL2Port, NetworkL2Port;
    var t := s.tables;
    var un := AddUnfiltered(t.l2, w.0);
    var ou := AddOuter(t.outers, cfg.outerIngress);
    var pw := AddPw(t.pws, un.id, LabelOf(w.0, w.1), tid, L2_PORT_ID);
    var te := AddTerm(t.terms, 0, cfg.macSelf);
    StillNothing(sw0, s.log, un.sent);
    var log := Then(s.log, un.sent);
    StillNothing(sw0, log, ou.sent);
    log := Then(log, ou.sent);
    StillNothing(sw0, log, pw.sent);
    log := Then(log, pw.sent);
    StillNothing(sw0, log, te.sent);
    log := Then(log, te.sent);
    StillNothing(sw0, log, []);
  }

  lemma {:induction false} KnownPairs(sw0: Switch, s: State, cfg: Config, ws: seq<Pair>, known: seq<Pair>)
    requires Knows(cfg, known, s.tables) && forall w | w in ws :: w in known
    requires SelectsNothing(Replay(sw0, s.log))
    ensures var s' := CreateAll(s, cfg, ws);
            Knows(cfg, known, s'.tables) && SelectsNothing(Replay(sw0, s'.log))
    decreases |ws|
  {
    hide Replay, SelectsNothing, Knows, CreateVpws;
    if ws != [] {
      KnownPairs(sw0, s, cfg, ws[..|ws| - 1], known);
      KnownPair(sw0, CreateAll(s, cfg, ws[..|ws| - 1]), cfg, ws[|ws| - 1], known);
    }
  }

  lemma NothingForwarded(sw: Switch, port: nat, p: Packet)
    requires SelectsNothing(sw)
    ensures Forward(sw, port, p) == None
  {
    assert Hits(sw, 10, Frame(p, Meta(port, 0, 0, 0))) == {};
  }

  lemma OneMore(sw0: Switch, log: seq<Msg>, m: Msg)
    ensures Replay(sw0, log + [m]) == Install(Replay(sw0, log), m)
  {
    assert (log + [m])[..|log + [m]| - 1] == log;
  }

  lemma PurgeEmpties(sw0: Switch, log: seq<Msg>)
    ensures SelectsNothing(Replay(sw0, Then(log, PURGE)))
  {
    hide Replay;
    OneMore(sw0, log, DeleteFlows);
    OneMore(sw0, log + [DeleteFlows], Barrier);
    OneMore(sw0, log + [DeleteFlows] + [Barrier], DeleteGroups);
    assert log + [DeleteFlows] + [Barrier] + [DeleteGroups] == Then(log, PURGE);
  }

  /**
   Whatever the configuration and the switch, once the application has configured a switch, configuring
   it again leaves it forwarding no frame at all.
   */
  lemma ReconnectForwardsNothing(sw0: Switch, cfg: Config, first: State, port: nat, p: Packet)
    ensures var again := Connect(Connect(first, cfg), cfg);
            Forward(Replay(sw0, again.log), port, p) == None
  {
    hide Replay, SelectsNothing, Knows, CreateAll, Then, CopyFlow, Forward, Pairs;
    KnowsAll(first.(log := Then(first.log, PURGE)), cfg, Pairs(cfg));
    var once := Connect(first, cfg);
    PurgeEmpties(sw0, once.log);
    var purged := once.(log := Then(once.log, PURGE));
    KnownPairs(sw0, purged, cfg, Pairs(cfg), Pairs(cfg));
    assert forall m | m in COPIES :: OtherTable(m) by { CopiesElsewhere(); }
    var all := CreateAll(purged, cfg, Pairs(cfg));
    StillNothing(sw0, all.log, COPIES);
    NothingForwarded(Replay(sw0, Then(all.log, COPIES)), port, p);
  }

  lemma CopiesElsewhere()
    ensures forall m | m in COPIES :: OtherTable(m)
  {}
}
