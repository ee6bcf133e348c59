/**
 The switch tables after a connect: which groups and flow entries there are, and what they hold.
 The invariants speak of the pairs configured so far and are kept by every pseudowire created.
 */
module VpwsInstall {
  import opened Common
  import opened OpenFlow
  import opened VpwsSpec
  import opened VpwsIds

  /** The last of the first n pairs to get tunnel id t: its entry in table 13 replaces the others. */
  function Owner(n: nat, t: nat): Option<nat> {
    if n == 0 then None else if Tid(n - 1) == t then Some(n - 1) else Owner(n - 1, t)
  }

  lemma {:induction false} OwnerIsLast(n: nat, j: nat)
    requires j < n
    ensures Owner(n, Tid(j)).Some? && j <= Owner(n, Tid(j)).value < n
    ensures Tid(Owner(n, Tid(j)).value) == Tid(j)
  {
    if Tid(n - 1) != Tid(j) {
      OwnerIsLast(n - 1, j);
    }
  }

  function Gid0(cfg: Config): nat { L2Gid(cfg.mplsPort, 0) }

  function VlanFlowKey(cfg: Config): Key { TagFlow(cfg.mplsPort, OFDPA_VLAN).key }

  function UntaggedKey(cfg: Config): Key { UntaggedFlow(cfg.mplsPort, OFDPA_VLAN).key }

  // -------------------------------------------------------------------------
  // What the application remembers about the pairs it has configured
  // -------------------------------------------------------------------------

  ghost predicate RemembersTunnels(ws: seq<Pair>, t: Tables) {
    |t.tunnels| == |ws| && forall k | k in t.tunnels :: (k.0, k.1) in ws
  }

  ghost predicate RemembersInitiation(cfg: Config, ws: seq<Pair>, t: Tables) {
    && t.ifs.index == t.tunnelLabels.index == t.vpns.index == |ws|
    && (forall k | k in t.ifs.ids :: k.1 == OFDPA_VLAN)
    && (forall k | k in t.tunnelLabels.ids :: exists j: nat :: j < |ws| && k.1 == IfGid(j))
    && (forall k | k in t.vpns.ids :: exists j: nat :: j < |ws| && k.1 == TunnelGid(j))
    && (forall k | k in t.mplsVlans :: (k.1, k.0) in ws)
    && (forall k | k in t.l2Ports :: exists j: nat :: j < |ws| && k.0 == VpnGid(j))
    && (Gid0(cfg) in t.l2 <==> ws != [])
  }

  ghost predicate HasPort(ws: seq<Pair>, port: nat) {
    exists w :: w in ws && w.0 == port
  }

  ghost predicate RemembersTermination(cfg: Config, ws: seq<Pair>, t: Tables) {
    && (forall k | k in t.pws :: exists w :: w in ws && k.1 == LabelOf(w.0, w.1))
    && (forall p: nat | p < 256 :: UnfilteredGid(p) in t.l2 <==> HasPort(ws, p))
    && (cfg.outerIngress in t.outers <==> ws != [])
    && (Digits(0) + cfg.macSelf in t.terms <==> ws != [])
    && (Bits.Or(Bits.Shl(0, 8), cfg.mplsPort) in t.vlans <==> ws != [])
  }

  // -------------------------------------------------------------------------
  // What the switch holds
  // -------------------------------------------------------------------------

  ghost predicate InitiationGroups(cfg: Config, ws: seq<Pair>, g: map<nat, seq<Action>>) {
    && (Gid0(cfg) in g <==> ws != [])
    && (Gid0(cfg) in g ==> g[Gid0(cfg)] == L2Bucket(cfg.mplsPort, OFDPA_VLAN))
    && (forall j: nat | j < MAX_PAIRS ::
          && (IfGid(j) in g <==> j < |ws|)
          && (IfGid(j) in g ==> g[IfGid(j)] == IfBucket(Gid0(cfg), 0, cfg.macSelf, cfg.macPeer)))
    && (forall j: nat | j < MAX_PAIRS ::
          && (TunnelGid(j) in g <==> j < |ws|)
          && (TunnelGid(j) in g ==> g[TunnelGid(j)] == TunnelBucket(cfg.outerEgress, IfGid(j))))
    && (forall j: nat | j < MAX_PAIRS ::
          && (VpnGid(j) in g <==> j < |ws|)
          && (VpnGid(j) in g && j < |ws| ==> g[VpnGid(j)] == VpnBucket(LabelOf(ws[j].0, ws[j].1), TunnelGid(j))))
  }

  ghost predicate TerminationGroups(ws: seq<Pair>, g: map<nat, seq<Action>>) {
    forall p: nat | p < 256 ::
      && (UnfilteredGid(p) in g <==> HasPort(ws, p))
      && (UnfilteredGid(p) in g ==> g[UnfilteredGid(p)] == UnfilteredBucket(p))
  }

  /** An entry of these four tables that belongs to one of the pairs, or to the MPLS port. */
  ghost predicate Expected(cfg: Config, ws: seq<Pair>, k: Key) {
    && (k.table == 10 ==>
          k == VlanFlowKey(cfg) || k == UntaggedKey(cfg) || exists w :: w in ws && k == MplsVlanKey(w.0, w.1))
    && (k.table == 13 ==> exists j: nat :: j < |ws| && k == L2PortKey(Tid(j), L2_PORT_ID))
    && (k.table == 20 ==> k == TermKey(0, cfg.macSelf))
    && (k.table == 24 ==>
          k == OuterKey(cfg.outerIngress) || exists w :: w in ws && k == PwKey(LabelOf(w.0, w.1)))
  }

  ghost predicate OnlyExpected(cfg: Config, ws: seq<Pair>, f: map<Key, Instr>) {
    forall k | k in f :: Expected(cfg, ws, k)
  }

  ghost predicate InitiationFlows(ws: seq<Pair>, f: map<Key, Instr>) {
    && (forall j: nat | j < |ws| ::
          var k := MplsVlanKey(ws[j].0, ws[j].1);
          k in f && f[k] == MplsVlanFlow(ws[j].0, ws[j].1, Tid(j), L2_PORT_ID).instr)
    && (forall t: nat | Owner(|ws|, t).Some? ::
          var k := L2PortKey(t, L2_PORT_ID);
          k in f && f[k] == L2PortFlow(VpnGid(Owner(|ws|, t).value), t, L2_PORT_ID).instr)
  }

  ghost predicate TerminationFlows(cfg: Config, ws: seq<Pair>, f: map<Key, Instr>) {
    && (forall j: nat | j < |ws| ::
          var k := PwKey(LabelOf(ws[j].0, ws[j].1));
          k in f && f[k] == PwFlow(UnfilteredGid(ws[j].0), LabelOf(ws[j].0, ws[j].1), Tid(j), L2_PORT_ID).instr)
    && (ws != [] ==>
          && Has(f, TermFlow(0, cfg.macSelf))
          && Has(f, OuterFlow(cfg.outerIngress))
          && Has(f, TagFlow(cfg.mplsPort, OFDPA_VLAN))
          && Has(f, UntaggedFlow(cfg.mplsPort, OFDPA_VLAN)))
  }

  ghost predicate Has(f: map<Key, Instr>, m: Msg)
    requires m.AddFlow?
  {
    m.key in f && f[m.key] == m.instr
  }

  ghost predicate Installed(cfg: Config, ws: seq<Pair>, sw: Switch) {
    && InitiationGroups(cfg, ws, sw.groups) && TerminationGroups(ws, sw.groups)
    && OnlyExpected(cfg, ws, sw.flows) && InitiationFlows(ws, sw.flows) && TerminationFlows(cfg, ws, sw.flows)
  }

  /** The whole invariant: what is remembered, what the switch made of the log, and that it took all of it. */
  ghost predicate Inv(sw0: Switch, cfg: Config, ws: seq<Pair>, s: State) {
    && RemembersTunnels(ws, s.tables) && RemembersInitiation(cfg, ws, s.tables)
    && RemembersTermination(cfg, ws, s.tables)
    && AllAccepted(sw0, s.log)
    && Installed(cfg, ws, Replay(sw0, s.log))
  }

  // -------------------------------------------------------------------------
  // One pseudowire
  // -------------------------------------------------------------------------

  /** Distinct kinds of group have distinct ids, and so have distinct groups of one kind. */
  lemma GidsApart(cfg: Config)
    requires Valid(cfg)
    ensures Gid0(cfg) == 0x0FFF_0000 + cfg.mplsPort
    ensures forall j: nat :: j < MAX_PAIRS ==> IfGid(j) == 0x9000_0000 + j
    ensures forall j: nat :: j < MAX_PAIRS ==> VpnGid(j) == 0x9100_0000 + j
    ensures forall j: nat :: j < MAX_PAIRS ==> TunnelGid(j) == 0x9300_0000 + j
    ensures forall p: nat :: p < 0x1_0000 ==> UnfilteredGid(p) == 0xB000_0000 + p
  {
    hide Bits.Or, Bits.Shl, IfGid, VpnGid, TunnelGid, UnfilteredGid, L2Gid;
    forall j: nat | j < MAX_PAIRS
      ensures IfGid(j) == 0x9000_0000 + j && VpnGid(j) == 0x9100_0000 + j && TunnelGid(j) == 0x9300_0000 + j
    {
      GidValues(j, 0);
    }
    forall p: nat | p < 0x1_0000 ensures UnfilteredGid(p) == 0xB000_0000 + p {
      GidValues(0, p);
    }
    GidValues(0, cfg.mplsPort);
  }

  /** What is remembered after the initiation half. */
  lemma InitiateRemembers(cfg: Config, ws: seq<Pair>, s: State, w: Pair, tid: nat)
    requires Valid(cfg) && |ws| < MAX_PAIRS && w !in ws
    requires RemembersInitiation(cfg, ws, s.tables)
    ensures RemembersInitiation(cfg, ws + [w], Initiate(s, cfg, w, tid).tables)
  {
    hide Bits.Or, Bits.Shl, IfGid, VpnGid, TunnelGid, UnfilteredGid, L2Gid, LabelOf, Then;
    GidsApart(cfg);
    assert (ws + [w])[|ws|] == w;
    assert forall v :: v in ws + [w] <==> v in ws || v == w;
  }

  lemma InitiateLeaves(cfg: Config, ws: seq<Pair>, s: State, w: Pair, tid: nat)
    requires Valid(cfg) && RemembersInitiation(cfg, ws, s.tables)
    ensures var s' := Initiate(s, cfg, w, tid);
            && (forall p: nat :: p < 256 ==> (UnfilteredGid(p) in s'.tables.l2 <==> UnfilteredGid(p) in s.tables.l2))
            && s'.tables == s.tables.(l2 := s'.tables.l2, ifs := s'.tables.ifs, tunnelLabels := s'.tables.tunnelLabels,
                                      vpns := s'.tables.vpns, mplsVlans := s'.tables.mplsVlans,
                                      l2Ports := s'.tables.l2Ports)
  {
    hide Bits.Or, Bits.Shl, IfGid, VpnGid, TunnelGid, UnfilteredGid, L2Gid, LabelOf, Then;
    GidsApart(cfg);
  }

  /** The messages of the initiation half, given what is remembered. */
  lemma InitiateSends(cfg: Config, ws: seq<Pair>, s: State, w: Pair, tid: nat)
    requires Valid(cfg) && |ws| < MAX_PAIRS && w !in ws
    requires RemembersInitiation(cfg, ws, s.tables)
    ensures var n := |ws|;
            Initiate(s, cfg, w, tid).log == Then(Then(Then(Then(Then(Then(s.log,
              if ws == [] then [AddGroup(Gid0(cfg), L2Bucket(cfg.mplsPort, OFDPA_VLAN))] else []),
              [AddGroup(IfGid(n), IfBucket(Gid0(cfg), 0, cfg.macSelf, cfg.macPeer))]),
              [AddGroup(TunnelGid(n), TunnelBucket(cfg.outerEgress, IfGid(n)))]),
              [AddGroup(VpnGid(n), VpnBucket(LabelOf(w.0, w.1), TunnelGid(n)))]),
              [MplsVlanFlow(w.0, w.1, tid, L2_PORT_ID)]),
              [L2PortFlow(VpnGid(n), tid, L2_PORT_ID)])
  {
    hide Bits.Or, Bits.Shl, IfGid, VpnGid, TunnelGid, UnfilteredGid, L2Gid, LabelOf, Then;
    GidsApart(cfg);
  }

  function WithInitiationGroups(cfg: Config, ws: seq<Pair>, w: Pair, g: map<nat, seq<Action>>): map<nat, seq<Action>> {
    var n := |ws|;
    var g0 := if ws == [] then g[Gid0(cfg) := L2Bucket(cfg.mplsPort, OFDPA_VLAN)] else g;
    g0[IfGid(n) := IfBucket(Gid0(cfg), 0, cfg.macSelf, cfg.macPeer)]
      [TunnelGid(n) := TunnelBucket(cfg.outerEgress, IfGid(n))]
      [VpnGid(n) := VpnBucket(LabelOf(w.0, w.1), TunnelGid(n))]
  }

  lemma GroupsAfterInitiation(cfg: Config, ws: seq<Pair>, w: Pair, g: map<nat, seq<Action>>)
    requires Valid(cfg) && |ws| < MAX_PAIRS
    requires InitiationGroups(cfg, ws, g) && TerminationGroups(ws, g)
    ensures var g' := WithInitiationGroups(cfg, ws, w, g);
            InitiationGroups(cfg, ws + [w], g') && TerminationGroups(ws, g')
  {
    GroupsAdded(cfg, ws, w, g);
    hide IfGid, VpnGid, TunnelGid, UnfilteredGid, L2Gid, LabelOf, Gid0, HasPort, InitiationGroups;
    GidsApart(cfg);
  }

  lemma GroupsAdded(cfg: Config, ws: seq<Pair>, w: Pair, g: map<nat, seq<Action>>)
    requires Valid(cfg) && |ws| < MAX_PAIRS && InitiationGroups(cfg, ws, g)
    ensures InitiationGroups(cfg, ws + [w], WithInitiationGroups(cfg, ws, w, g))
  {
    hide IfGid, VpnGid, TunnelGid, UnfilteredGid, L2Gid, LabelOf, Gid0;
    GidsApart(cfg);
    var ws' := ws + [w];
    assert forall j: nat :: j < |ws| ==> ws'[j] == ws[j];
  }

  function WithInitiationFlows(ws: seq<Pair>, w: Pair, f: map<Key, Instr>): map<Key, Instr> {
    var n := |ws|;
    f[MplsVlanKey(w.0, w.1) := MplsVlanFlow(w.0, w.1, Tid(n), L2_PORT_ID).instr]
     [L2PortKey(Tid(n), L2_PORT_ID) := L2PortFlow(VpnGid(n), Tid(n), L2_PORT_ID).instr]
  }

  lemma NewPair(ws: seq<Pair>, w: Pair)
    requires Distinct(ws + [w])
    ensures w !in ws
    ensures forall v :: v in ws + [w] <==> v in ws || v == w
    ensures forall j: nat :: j < |ws| ==> (ws + [w])[j] == ws[j]
  {
    var ws' := ws + [w];
    forall j: nat | j < |ws| ensures ws[j] != w {
      assert ws'[j] == ws[j] && ws'[|ws|] == w;
    }
  }

  lemma ExpectedAfterInitiation(cfg: Config, ws: seq<Pair>, w: Pair, f: map<Key, Instr>)
    requires OnlyExpected(cfg, ws, f)
    ensures OnlyExpected(cfg, ws + [w], WithInitiationFlows(ws, w, f))
  {
    hide VpnGid, LabelOf, Tid, LocalL2Port;
    assert w in ws + [w];
    assert |ws| < |ws + [w]|;
  }

  lemma InitiationFlowsAfter(ws: seq<Pair>, w: Pair, f: map<Key, Instr>)
    requires GoodPairs(ws + [w]) && InitiationFlows(ws, f)
    ensures InitiationFlows(ws + [w], WithInitiationFlows(ws, w, f))
  {
    hide VpnGid, LabelOf, Tid, LocalL2Port;
    NewPair(ws, w);
  }

  lemma TerminationFlowsKept(cfg: Config, ws: seq<Pair>, w: Pair, f: map<Key, Instr>)
    requires GoodPairs(ws + [w]) && TerminationFlows(cfg, ws, f)
    ensures TerminationFlows(cfg, ws, WithInitiationFlows(ws, w, f))
  {
    hide VpnGid, UnfilteredGid, LabelOf, Tid, LocalL2Port, NetworkL2Port;
    assert w in ws + [w];
  }

  /** The switch takes one more message. */
  lemma Takes(sw0: Switch, log: seq<Msg>, sw: Switch, m: Msg) returns (log': seq<Msg>, sw': Switch)
    requires sw == Replay(sw0, log)
    requires AllAccepted(sw0, log) && Accepts(sw, m)
    ensures log' == Then(log, [m])
    ensures AllAccepted(sw0, log')
    ensures sw' == Replay(sw0, log') == Install(sw, m)
  {
    AcceptedAppend(sw0, log, m);
    log' := Then(log, [m]);
    sw' := Replay(sw0, log');
  }

  /** The switch accepts the four or five groups and two flows of the initiation half. */
  lemma InitiationAccepted(sw0: Switch, cfg: Config, ws: seq<Pair>, w: Pair, log: seq<Msg>) returns (log': seq<Msg>)
    requires Valid(cfg) && |ws| < MAX_PAIRS
    requires AllAccepted(sw0, log)
    requires InitiationGroups(cfg, ws, Replay(sw0, log).groups)
    ensures var n := |ws|;
            log' == Then(Then(Then(Then(Then(Then(log,
                      if ws == [] then [AddGroup(Gid0(cfg), L2Bucket(cfg.mplsPort, OFDPA_VLAN))] else []),
                      [AddGroup(IfGid(n), IfBucket(Gid0(cfg), 0, cfg.macSelf, cfg.macPeer))]),
                      [AddGroup(TunnelGid(n), TunnelBucket(cfg.outerEgress, IfGid(n)))]),
                      [AddGroup(VpnGid(n), VpnBucket(LabelOf(w.0, w.1), TunnelGid(n)))]),
                      [MplsVlanFlow(w.0, w.1, Tid(n), L2_PORT_ID)]),
                      [L2PortFlow(VpnGid(n), Tid(n), L2_PORT_ID)])
    ensures AllAccepted(sw0, log')
    ensures var sw := Replay(sw0, log);
            Replay(sw0, log') == Switch(WithInitiationFlows(ws, w, sw.flows),
                                        WithInitiationGroups(cfg, ws, w, sw.groups))
  {
    hide IfGid, VpnGid, TunnelGid, L2Gid, LabelOf, Tid, Gid0, AllAccepted, Replay;
    GidsApart(cfg);
    var n := |ws|;
    log' := log;
    var sw := Replay(sw0, log);
    if ws == [] {
      log', sw := Takes(sw0, log', sw, AddGroup(Gid0(cfg), L2Bucket(cfg.mplsPort, OFDPA_VLAN)));
    } else {
      assert Then(log, []) == log;
    }
    log', sw := Takes(sw0, log', sw, AddGroup(IfGid(n), IfBucket(Gid0(cfg), 0, cfg.macSelf, cfg.macPeer)));
    log', sw := Takes(sw0, log', sw, AddGroup(TunnelGid(n), TunnelBucket(cfg.outerEgress, IfGid(n))));
    log', sw := Takes(sw0, log', sw, AddGroup(VpnGid(n), VpnBucket(LabelOf(w.0, w.1), TunnelGid(n))));
    log', sw := Takes(sw0, log', sw, MplsVlanFlow(w.0, w.1, Tid(n), L2_PORT_ID));
    log', sw := Takes(sw0, log', sw, L2PortFlow(VpnGid(n), Tid(n), L2_PORT_ID));
  }

  lemma LabelsApart(ws: seq<Pair>)
    requires GoodPairs(ws)
    ensures forall v, w :: v in ws && w in ws && LabelOf(v.0, v.1) == LabelOf(w.0, w.1) ==> v == w
  {
    hide LabelOf;
    forall v, w | v in ws && w in ws && LabelOf(v.0, v.1) == LabelOf(w.0, w.1) ensures v == w {
      LabelValue(v.0, v.1);
      LabelValue(w.0, w.1);
    }
  }

  ghost function FirstOnly(ws: seq<Pair>, sent: seq<Msg>): seq<Msg> {
    if ws == [] then sent else []
  }

  ghost function TerminationLog(cfg: Config, ws: seq<Pair>, w: Pair, log: seq<Msg>): seq<Msg> {
    Then(Then(Then(Then(Then(log,
      if HasPort(ws, w.0) then [] else [AddGroup(UnfilteredGid(w.0), UnfilteredBucket(w.0))]),
      FirstOnly(ws, [OuterFlow(cfg.outerIngress)])),
      [PwFlow(UnfilteredGid(w.0), LabelOf(w.0, w.1), Tid(|ws|), L2_PORT_ID)]),
      FirstOnly(ws, [TermFlow(0, cfg.macSelf)])),
      FirstOnly(ws, [TagFlow(cfg.mplsPort, OFDPA_VLAN), UntaggedFlow(cfg.mplsPort, OFDPA_VLAN)]))
  }

  /** The messages of the termination half, given what is remembered. */
  lemma TerminateSends(cfg: Config, ws: seq<Pair>, s: State, w: Pair)
    requires Valid(cfg) && GoodPairs(ws + [w])
    requires RemembersTermination(cfg, ws, s.tables)
    ensures var s' := Terminate(s, cfg, w, Tid(|ws|));
            && RemembersTermination(cfg, ws + [w], s'.tables)
            && (Gid0(cfg) in s'.tables.l2 <==> Gid0(cfg) in s.tables.l2)
            && s'.tables == s.tables.(l2 := s'.tables.l2, outers := s'.tables.outers, pws := s'.tables.pws,
                                      terms := s'.tables.terms, vlans := s'.tables.vlans)
            && s'.log == TerminationLog(cfg, ws, w, s.log)
  {
    hide Bits.Or, Bits.Shl, UnfilteredGid, L2Gid, LabelOf, Then, Tid, HasPort, Digits;
    NewPair(ws, w);
    GidsApart(cfg);
    LabelsApart(ws + [w]);
    assert w in ws + [w] && w.0 < 256;
    PortsAfter(ws, w);
  }

  lemma PortsAfter(ws: seq<Pair>, w: Pair)
    ensures forall p :: HasPort(ws + [w], p) <==> HasPort(ws, p) || p == w.0
  {
    assert forall v :: v in ws + [w] <==> v in ws || v == w;
  }

  ghost function WithTerminationGroups(ws: seq<Pair>, w: Pair, g: map<nat, seq<Action>>): map<nat, seq<Action>> {
    if HasPort(ws, w.0) then g else g[UnfilteredGid(w.0) := UnfilteredBucket(w.0)]
  }

  lemma GroupsAfterTermination(cfg: Config, ws: seq<Pair>, w: Pair, g: map<nat, seq<Action>>)
    requires Valid(cfg) && w.0 < 256
    requires InitiationGroups(cfg, ws + [w], g) && TerminationGroups(ws, g)
    ensures var g' := WithTerminationGroups(ws, w, g);
            InitiationGroups(cfg, ws + [w], g') && TerminationGroups(ws + [w], g')
  {
    hide IfGid, VpnGid, TunnelGid, UnfilteredGid, L2Gid, LabelOf, Gid0, HasPort;
    GidsApart(cfg);
    PortsAfter(ws, w);
  }

  ghost function WithTerminationFlows(cfg: Config, ws: seq<Pair>, w: Pair, f: map<Key, Instr>): map<Key, Instr> {
    var pw := PwFlow(UnfilteredGid(w.0), LabelOf(w.0, w.1), Tid(|ws|), L2_PORT_ID);
    if ws != [] then Plus(f, pw)
    else Plus(Plus(Plus(Plus(Plus(f, OuterFlow(cfg.outerIngress)), pw), TermFlow(0, cfg.macSelf)),
              TagFlow(cfg.mplsPort, OFDPA_VLAN)), UntaggedFlow(cfg.mplsPort, OFDPA_VLAN))
  }

  function Plus(f: map<Key, Instr>, m: Msg): map<Key, Instr>
    requires m.AddFlow?
  {
    f[m.key := m.instr]
  }

  lemma ExpectedPlus(cfg: Config, ws: seq<Pair>, f: map<Key, Instr>, m: Msg)
    requires m.AddFlow? && Expected(cfg, ws, m.key) && OnlyExpected(cfg, ws, f)
    ensures OnlyExpected(cfg, ws, Plus(f, m))
  {
    hide Expected;
  }

  lemma ExpectedAfterTermination(cfg: Config, ws: seq<Pair>, w: Pair, f: map<Key, Instr>)
    requires OnlyExpected(cfg, ws + [w], f)
    ensures OnlyExpected(cfg, ws + [w], WithTerminationFlows(cfg, ws, w, f))
  {
    hide UnfilteredGid, LabelOf, Tid, LocalL2Port, NetworkL2Port, OnlyExpected;
    var ws' := ws + [w];
    assert w in ws';
    var pw := PwFlow(UnfilteredGid(w.0), LabelOf(w.0, w.1), Tid(|ws|), L2_PORT_ID);
    if ws != [] {
      ExpectedPlus(cfg, ws', f, pw);
    } else {
      var f1 := Plus(f, OuterFlow(cfg.outerIngress));
      ExpectedPlus(cfg, ws', f, OuterFlow(cfg.outerIngress));
      ExpectedPlus(cfg, ws', f1, pw);
      var f2 := Plus(f1, pw);
      ExpectedPlus(cfg, ws', f2, TermFlow(0, cfg.macSelf));
      var f3 := Plus(f2, TermFlow(0, cfg.macSelf));
      ExpectedPlus(cfg, ws', f3, TagFlow(cfg.mplsPort, OFDPA_VLAN));
      ExpectedPlus(cfg, ws', Plus(f3, TagFlow(cfg.mplsPort, OFDPA_VLAN)), UntaggedFlow(cfg.mplsPort, OFDPA_VLAN));
    }
  }

  lemma InitiationFlowsKept(cfg: Config, ws: seq<Pair>, w: Pair, f: map<Key, Instr>)
    requires GoodPairs(ws + [w]) && InitiationFlows(ws + [w], f)
    ensures InitiationFlows(ws + [w], WithTerminationFlows(cfg, ws, w, f))
  {
    hide UnfilteredGid, LabelOf, Tid, LocalL2Port, NetworkL2Port, VpnGid;
    var ws' := ws + [w];
    assert forall j: nat :: j < |ws'| ==> ws'[j] in ws';
  }

  lemma TerminationFlowsAfter(cfg: Config, ws: seq<Pair>, w: Pair, f: map<Key, Instr>)
    requires GoodPairs(ws + [w]) && TerminationFlows(cfg, ws, f)
    ensures TerminationFlows(cfg, ws + [w], WithTerminationFlows(cfg, ws, w, f))
  {
    hide UnfilteredGid, LabelOf, Tid, LocalL2Port, NetworkL2Port;
    var ws' := ws + [w];
    var f' := WithTerminationFlows(cfg, ws, w, f);
    forall j: nat | j < |ws'|
      ensures Has(f', PwFlow(UnfilteredGid(ws'[j].0), LabelOf(ws'[j].0, ws'[j].1), Tid(j), L2_PORT_ID))
    {
      if j < |ws| {
        NewPair(ws, w);
        LabelsApart(ws');
        assert ws'[j] == ws[j] && ws[j] in ws' && w in ws' && ws[j] != w;
      }
    }
  }

  /** The switch accepts the messages of the termination half. */
  lemma TerminationAccepted(sw0: Switch, cfg: Config, ws: seq<Pair>, w: Pair, log: seq<Msg>) returns (log': seq<Msg>)
    requires Valid(cfg) && w.0 < 256
    requires AllAccepted(sw0, log)
    requires TerminationGroups(ws, Replay(sw0, log).groups)
    ensures log' == TerminationLog(cfg, ws, w, log)
    ensures AllAccepted(sw0, log')
    ensures var sw := Replay(sw0, log);
            Replay(sw0, log') == Switch(WithTerminationFlows(cfg, ws, w, sw.flows),
                                        WithTerminationGroups(ws, w, sw.groups))
  {
    hide UnfilteredGid, LabelOf, Tid, HasPort, AllAccepted, Replay, LocalL2Port, NetworkL2Port;
    log' := log;
    var sw := Replay(sw0, log);
    NothingSent(log);
    if !HasPort(ws, w.0) {
      log', sw := Takes(sw0, log', sw, AddGroup(UnfilteredGid(w.0), UnfilteredBucket(w.0)));
    }
    var log1 := log';
    NothingSent(log');
    if ws == [] {
      log', sw := Takes(sw0, log', sw, OuterFlow(cfg.outerIngress));
    }
    log', sw := Takes(sw0, log', sw, PwFlow(UnfilteredGid(w.0), LabelOf(w.0, w.1), Tid(|ws|), L2_PORT_ID));
    NothingSent(log');
    if ws == [] {
      log', sw := Takes(sw0, log', sw, TermFlow(0, cfg.macSelf));
      var tag, untag := TagFlow(cfg.mplsPort, OFDPA_VLAN), UntaggedFlow(cfg.mplsPort, OFDPA_VLAN);
      TwoSent(log', tag, untag);
      log', sw := Takes(sw0, log', sw, tag);
      log', sw := Takes(sw0, log', sw, untag);
    }
  }

  lemma NothingSent(log: seq<Msg>)
    ensures Then(log, []) == log
  {}

  lemma TwoSent(log: seq<Msg>, a: Msg, b: Msg)
    ensures Then(log, [a, b]) == Then(Then(log, [a]), [b])
  {}

  // -------------------------------------------------------------------------
  // All pseudowires
  // -------------------------------------------------------------------------

  lemma TunnelsAfter(ws: seq<Pair>, t: Tables, w: Pair)
    requires w !in ws && RemembersTunnels(ws, t)
    ensures var a := AddTunnel(t.tunnels, w.0, w.1, L2_PORT_ID);
            a.id == Tid(|ws|) && RemembersTunnels(ws + [w], t.(tunnels := a.entries))
  {
    hide Tid;
  }

  lemma InitiateKeepsInv(sw0: Switch, cfg: Config, ws: seq<Pair>, w: Pair, s: State) returns (s': State)
    requires Valid(cfg) && GoodPairs(ws + [w])
    requires RemembersInitiation(cfg, ws, s.tables) && RemembersTermination(cfg, ws, s.tables)
    requires AllAccepted(sw0, s.log) && Installed(cfg, ws, Replay(sw0, s.log))
    ensures s' == Initiate(s, cfg, w, Tid(|ws|))
    ensures RemembersInitiation(cfg, ws + [w], s'.tables) && RemembersTermination(cfg, ws, s'.tables)
    ensures s'.tables.tunnels == s.tables.tunnels
    ensures AllAccepted(sw0, s'.log)
    ensures var sw := Replay(sw0, s'.log);
            && InitiationGroups(cfg, ws + [w], sw.groups) && TerminationGroups(ws, sw.groups)
            && OnlyExpected(cfg, ws + [w], sw.flows)
            && InitiationFlows(ws + [w], sw.flows) && TerminationFlows(cfg, ws, sw.flows)
  {
    hide Initiate, Then, InitiationGroups, TerminationGroups, OnlyExpected, InitiationFlows, TerminationFlows,
      RemembersInitiation, AllAccepted, Replay, Tid, LabelOf, WithInitiationGroups, WithInitiationFlows,
      IfGid, TunnelGid, VpnGid, UnfilteredGid, Gid0, HasPort, IfBucket, VpnBucket, TunnelBucket, L2Bucket,
      MplsVlanFlow, L2PortFlow;
    NewPair(ws, w);
    s' := Initiate(s, cfg, w, Tid(|ws|));
    InitiateRemembers(cfg, ws, s, w, Tid(|ws|));
    InitiateLeaves(cfg, ws, s, w, Tid(|ws|));
    InitiateSends(cfg, ws, s, w, Tid(|ws|));
    var sw := Replay(sw0, s.log);
    var log' := InitiationAccepted(sw0, cfg, ws, w, s.log);
    GroupsAfterInitiation(cfg, ws, w, sw.groups);
    ExpectedAfterInitiation(cfg, ws, w, sw.flows);
    InitiationFlowsAfter(ws, w, sw.flows);
    TerminationFlowsKept(cfg, ws, w, sw.flows);
  }

  lemma TerminateKeepsInv(sw0: Switch, cfg: Config, ws: seq<Pair>, w: Pair, s: State) returns (s': State)
    requires Valid(cfg) && GoodPairs(ws + [w])
    requires RemembersInitiation(cfg, ws + [w], s.tables) && RemembersTermination(cfg, ws, s.tables)
    requires AllAccepted(sw0, s.log)
    requires var sw := Replay(sw0, s.log);
             && InitiationGroups(cfg, ws + [w], sw.groups) && TerminationGroups(ws, sw.groups)
             && OnlyExpected(cfg, ws + [w], sw.flows)
             && InitiationFlows(ws + [w], sw.flows) && TerminationFlows(cfg, ws, sw.flows)
    ensures s' == Terminate(s, cfg, w, Tid(|ws|))
    ensures RemembersInitiation(cfg, ws + [w], s'.tables) && RemembersTermination(cfg, ws + [w], s'.tables)
    ensures s'.tables.tunnels == s.tables.tunnels
    ensures AllAccepted(sw0, s'.log) && Installed(cfg, ws + [w], Replay(sw0, s'.log))
  {
    hide Terminate, InitiationGroups, TerminationGroups, OnlyExpected, InitiationFlows, TerminationFlows,
      RemembersTermination, AllAccepted, Replay, Tid, LabelOf, TerminationLog, WithTerminationGroups,
      WithTerminationFlows, Gid0, IfGid, TunnelGid, VpnGid;
    assert w in ws + [w];
    s' := Terminate(s, cfg, w, Tid(|ws|));
    TerminateSends(cfg, ws, s, w);
    var sw := Replay(sw0, s.log);
    var log' := TerminationAccepted(sw0, cfg, ws, w, s.log);
    GroupsAfterTermination(cfg, ws, w, sw.groups);
    ExpectedAfterTermination(cfg, ws, w, sw.flows);
    InitiationFlowsKept(cfg, ws, w, sw.flows);
    TerminationFlowsAfter(cfg, ws, w, sw.flows);
  }

  lemma OnePair(sw0: Switch, cfg: Config, ws: seq<Pair>, w: Pair, s: State)
    requires Valid(cfg) && GoodPairs(ws + [w])
    requires Inv(sw0, cfg, ws, s)
    ensures Inv(sw0, cfg, ws + [w], CreateVpws(s, cfg, w))
  {
    hide Initiate, Terminate, InitiationGroups, TerminationGroups, OnlyExpected, InitiationFlows, TerminationFlows,
      RemembersInitiation, AllAccepted, Replay, Tid, AddTunnel;
    NewPair(ws, w);
    TunnelsAfter(ws, s.tables, w);
    var a := AddTunnel(s.tables.tunnels, w.0, w.1, L2_PORT_ID);
    var s0 := s.(tables := s.tables.(tunnels := a.entries));
    SameTables(cfg, ws, s.tables, s0.tables);
    var s1 := InitiateKeepsInv(sw0, cfg, ws, w, s0);
    var s2 := TerminateKeepsInv(sw0, cfg, ws, w, s1);
  }

  lemma SameTables(cfg: Config, ws: seq<Pair>, t: Tables, t': Tables)
    requires t' == t.(tunnels := t'.tunnels) && RemembersInitiation(cfg, ws, t)
    ensures RemembersInitiation(cfg, ws, t')
  {
    hide IfGid, TunnelGid, VpnGid, Gid0;
  }

  lemma {:induction false} AllPairs(sw0: Switch, cfg: Config, ws: seq<Pair>, s: State)
    requires Valid(cfg) && GoodPairs(ws)
    requires Inv(sw0, cfg, [], s)
    ensures Inv(sw0, cfg, ws, CreateAll(s, cfg, ws))
    decreases |ws|
  {
    hide Inv, CreateVpws;
    if ws != [] {
      var before, w := ws[..|ws| - 1], ws[|ws| - 1];
      assert before + [w] == ws;
      AllPairs(sw0, cfg, before, s);
      OnePair(sw0, cfg, before, w, CreateAll(s, cfg, before));
    }
  }

  /** After the purge nothing is installed, whatever the switch held before. */
  lemma Purged(sw0: Switch)
    ensures AllAccepted(sw0, Then([], PURGE)) && Replay(sw0, Then([], PURGE)) == EMPTY_SWITCH
  {
    hide Replay, AllAccepted;
    assert AllAccepted(sw0, []) && Replay(sw0, []) == sw0 by { NoMessages(sw0); }
    var log, sw := Takes(sw0, [], sw0, DeleteFlows);
    log, sw := Takes(sw0, log, sw, Barrier);
    log, sw := Takes(sw0, log, sw, DeleteGroups);
    assert log == PURGE == Then([], PURGE);
    assert sw.flows == map[];
  }

  lemma NoMessages(sw0: Switch)
    ensures AllAccepted(sw0, []) && Replay(sw0, []) == sw0
  {}

  lemma NothingInstalled(cfg: Config)
    ensures Installed(cfg, [], EMPTY_SWITCH)
    ensures RemembersTunnels([], FRESH_TABLES) && RemembersInitiation(cfg, [], FRESH_TABLES)
    ensures RemembersTermination(cfg, [], FRESH_TABLES)
  {
    hide LabelOf, Tid, IfGid, TunnelGid, VpnGid, UnfilteredGid, Gid0, Bits.Or, Bits.Shl, Digits;
  }

  lemma OtherTableKeeps(cfg: Config, ws: seq<Pair>, sw: Switch, m: Msg)
    requires m.AddFlow? && m.key.table == 60 && Installed(cfg, ws, sw)
    ensures Installed(cfg, ws, sw.(flows := Plus(sw.flows, m)))
  {
    hide InitiationGroups, TerminationGroups, OnlyExpected, InitiationFlows, TerminationFlows, Plus;
    ExpectedPlus(cfg, ws, sw.flows, m);
    OtherTableFlows(cfg, ws, sw.flows, m);
  }

  lemma OtherTableFlows(cfg: Config, ws: seq<Pair>, f: map<Key, Instr>, m: Msg)
    requires m.AddFlow? && m.key.table == 60
    ensures InitiationFlows(ws, f) ==> InitiationFlows(ws, Plus(f, m))
    ensures TerminationFlows(cfg, ws, f) ==> TerminationFlows(cfg, ws, Plus(f, m))
  {
    hide LabelOf, Tid, VpnGid, UnfilteredGid, LocalL2Port, NetworkL2Port;
  }

  /** The two entries that copy packets to the controller stand in a table of their own. */
  lemma CopiesKeep(sw0: Switch, cfg: Config, ws: seq<Pair>, log: seq<Msg>)
    requires AllAccepted(sw0, log) && Installed(cfg, ws, Replay(sw0, log))
    ensures AllAccepted(sw0, Then(log, COPIES)) && Installed(cfg, ws, Replay(sw0, Then(log, COPIES)))
  {
    hide AllAccepted, Replay, Installed;
    var sw := Replay(sw0, log);
    var a, b := CopyFlow(ETH_TYPE_ARP), CopyFlow(ETH_TYPE_IP);
    TwoSent(log, a, b);
    var log1, sw1 := Takes(sw0, log, sw, a);
    OtherTableKeeps(cfg, ws, sw, a);
    var log2, sw2 := Takes(sw0, log1, sw1, b);
    OtherTableKeeps(cfg, ws, sw1, b);
  }

  /**
   Connecting a switch, whatever it held: it accepts every message, so no group is added twice and none
   is referred to before it was added; and then its tables hold exactly the configured pseudowires.
   */
  lemma ConnectInstalls(sw0: Switch, cfg: Config)
    requires Valid(cfg)
    ensures var s := Connect(State(FRESH_TABLES, []), cfg);
            AllAccepted(sw0, s.log) && Installed(cfg, Pairs(cfg), Replay(sw0, s.log))
  {
    hide Installed, AllAccepted, Replay, CreateAll, Pairs, CopyFlow, Then, RemembersTunnels, RemembersInitiation,
      RemembersTermination;
    Purged(sw0);
    NothingInstalled(cfg);
    PairsAreConfigured(cfg);
    var s0 := State(FRESH_TABLES, Then([], PURGE));
    AllPairs(sw0, cfg, Pairs(cfg), s0);
    CopiesKeep(sw0, cfg, Pairs(cfg), CreateAll(s0, cfg, Pairs(cfg)).log);
  }
}
