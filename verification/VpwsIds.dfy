/** The identifiers of the pseudowire application: their values, and when they are distinct. */
module VpwsIds {
  import opened Bits
  import opened OpenFlow
  import opened VpwsSpec

  const MAX_PAIRS := 0x100_0000  // group indices have 24 bits

  /** The ranges that the configuration comments give: 8-bit ports, VLAN ids without the reserved ones. */
  ghost predicate Valid(cfg: Config) {
    && cfg.lastPort < 256
    && 1 <= cfg.firstVlan && cfg.lastVlan <= 4094
    && cfg.mplsPort < 0x1_0000
    && cfg.outerIngress < 0x10_0000 && cfg.outerEgress < 0x10_0000
  }

  lemma GidValues(index: nat, port: nat)
    ensures index < MAX_PAIRS ==>
              IfGid(index) == 0x9000_0000 + index && VpnGid(index) == 0x9100_0000 + index &&
              TunnelGid(index) == 0x9300_0000 + index
    ensures port < 0x1_0000 ==> UnfilteredGid(port) == 0xB000_0000 + port && L2Gid(port, 0) == 0x0FFF_0000 + port
  {
    hide Or, Shl, Pow2;
    if index < MAX_PAIRS {
      MplsValue(0, index);
      MplsValue(1, index);
      MplsValue(3, index);
    }
    if port < 0x1_0000 {
      Pow2Values();
      Fields(0xB, port, 28);
      L2Value(port);
    }
  }

  lemma L2Value(port: nat)
    requires port < 0x1_0000
    ensures L2Gid(port, 0) == 0x0FFF_0000 + port
  {
    hide Shl, Pow2;
    Pow2Values();
    ShlIs(0, 28);
    Fields(4095, port, 16);
  }

  lemma MplsValue(subtype: nat, index: nat)
    requires subtype < 16 && index < 0x100_0000
    ensures MplsGid(subtype, index) == 0x9000_0000 + 0x100_0000 * subtype + index
  {
    hide Or, Shl, Pow2;
    Pow2Values();
    ShlIs(subtype, 24);
    Fields(0x9, Shl(subtype, 24), 28);
    ShlIs(0x90 + subtype, 24);
    Fields(0x90 + subtype, index, 24);
  }

  lemma LabelValue(port: nat, vlan: nat)
    requires port < 256
    ensures LabelOf(port, vlan) == 256 * vlan + port
  {
    hide Or, Shl, Pow2;
    Pow2Values();
    Fields(vlan, port, 8);
  }

  lemma TidValue(n: nat)
    ensures n < 0x1_0000 ==> Tid(n) == 0x1_0000 + n
    ensures 0x1_0000 <= n < 0x2_0000 ==> Tid(n) == n
  {
    hide Or, Shl, Pow2;
    Pow2Values();
    ShlIs(1, 16);
    if n < 0x1_0000 {
      Fields(1, n, 16);
    } else if n < 0x2_0000 {
      OrIdempotent(n - 0x1_0000, 16);
    }
  }

  /** Tunnel ids have 16 bits: the first n of them are distinct exactly while they fit. */
  lemma TunnelIdsDistinctIff(n: nat)
    ensures (forall i, j :: 0 <= i < j < n ==> Tid(i) != Tid(j)) <==> n <= 0x1_0000
  {
    if n <= 0x1_0000 {
      forall i, j | 0 <= i < j < n ensures Tid(i) != Tid(j) {
        TidValue(i);
        TidValue(j);
      }
    } else {
      TidValue(0);
      TidValue(0x1_0000);
      assert Tid(0) == Tid(0x1_0000);
    }
  }

  lemma TunnelKept(s: State, cfg: Config, w: Pair, k: TunnelKey)
    requires k in s.tables.tunnels
    ensures var t := CreateVpws(s, cfg, w).tables.tunnels; k in t && t[k] == s.tables.tunnels[k]
  {
    hide AddL2, AddIf, AddTunnelLabel, AddVpn, AddMplsVlan, AddL2Port, AddUnfiltered, AddOuter, AddPw, AddTerm, AddVlan;
  }

  lemma {:induction false} TunnelsKept(s: State, cfg: Config, ws: seq<Pair>, k: TunnelKey)
    requires k in s.tables.tunnels
    ensures var t := CreateAll(s, cfg, ws).tables.tunnels; k in t && t[k] == s.tables.tunnels[k]
  {
    hide CreateVpws;
    if ws != [] {
      TunnelsKept(s, cfg, ws[..|ws| - 1], k);
      TunnelKept(CreateAll(s, cfg, ws[..|ws| - 1]), cfg, ws[|ws| - 1], k);
    }
  }

  /** Port, VLAN and L2 port id keep the tunnel id that they were first given, whatever pseudowires come between. */
  lemma TunnelIdStable(s: State, cfg: Config, k: TunnelKey, ws: seq<Pair>)
    ensures var first := AddTunnel(s.tables.tunnels, k.0, k.1, k.2);
            var later := CreateAll(s.(tables := s.tables.(tunnels := first.entries)), cfg, ws).tables.tunnels;
            AddTunnel(later, k.0, k.1, k.2) == Added(later, [], first.id)
  {
    var first := AddTunnel(s.tables.tunnels, k.0, k.1, k.2);
    TunnelsKept(s.(tables := s.tables.(tunnels := first.entries)), cfg, ws, k);
  }

  ghost predicate Distinct(ws: seq<Pair>) {
    forall i, j :: 0 <= i < j < |ws| ==> ws[i] != ws[j]
  }

  ghost predicate GoodPairs(ws: seq<Pair>) {
    && Distinct(ws)
    && |ws| <= MAX_PAIRS
    && forall w | w in ws :: w.0 < 256 && 1 <= w.1 <= 4094
  }

  /** The pair at each position of the nested loops. */
  lemma {:induction false} VlanPairsAt(port: nat, firstVlan: nat, upTo: nat)
    requires firstVlan <= upTo
    ensures |VlanPairs(port, firstVlan, upTo)| == upTo - firstVlan
    ensures forall i :: 0 <= i < upTo - firstVlan ==> VlanPairs(port, firstVlan, upTo)[i] == (port, firstVlan + i)
    decreases upTo
  {
    if upTo > firstVlan {
      VlanPairsAt(port, firstVlan, upTo - 1);
    }
  }

  function RowStart(cfg: Config, port: nat): nat
    requires cfg.firstPort <= port
  {
    (port - cfg.firstPort) * (VlanEnd(cfg) - cfg.firstVlan)
  }

  /** The pair at a position is configured, and determines the position. */
  lemma {:induction false} PortPairsAt(cfg: Config, upTo: nat)
    requires cfg.firstPort <= upTo
    ensures |PortPairs(cfg, upTo)| == RowStart(cfg, upTo)
    ensures forall i :: 0 <= i < |PortPairs(cfg, upTo)| ==>
              var w := PortPairs(cfg, upTo)[i];
              cfg.firstPort <= w.0 < upTo && cfg.firstVlan <= w.1 < VlanEnd(cfg) &&
              i == RowStart(cfg, w.0) + (w.1 - cfg.firstVlan)
    decreases upTo
  {
    if upTo > cfg.firstPort {
      PortPairsAt(cfg, upTo - 1);
      VlanPairsAt(upTo - 1, cfg.firstVlan, VlanEnd(cfg));
      Distribute(upTo - 1 - cfg.firstPort, VlanEnd(cfg) - cfg.firstVlan);
    }
  }

  lemma VlanPairsHave(port: nat, firstVlan: nat, upTo: nat, vlan: nat)
    requires firstVlan <= vlan < upTo
    ensures (port, vlan) in VlanPairs(port, firstVlan, upTo)
  {
    VlanPairsAt(port, firstVlan, upTo);
    assert VlanPairs(port, firstVlan, upTo)[vlan - firstVlan] == (port, vlan);
  }

  lemma {:induction false} PortPairsHave(cfg: Config, upTo: nat, w: Pair)
    requires cfg.firstPort <= w.0 < upTo && cfg.firstVlan <= w.1 < VlanEnd(cfg)
    ensures w in PortPairs(cfg, upTo)
    decreases upTo
  {
    hide VlanPairs;
    if w.0 == upTo - 1 {
      VlanPairsHave(w.0, cfg.firstVlan, VlanEnd(cfg), w.1);
    } else {
      PortPairsHave(cfg, upTo - 1, w);
    }
  }

  lemma Distribute(a: int, b: int)
    ensures (a + 1) * b == a * b + b
  {}

  lemma MulMono(a: int, b: int, c: int)
    requires a <= b && 0 <= c
    ensures a * c <= b * c
  {}

  ghost predicate Configured(cfg: Config, w: Pair) {
    cfg.firstPort <= w.0 <= cfg.lastPort && cfg.firstVlan <= w.1 <= cfg.lastVlan
  }

  function NumPairs(cfg: Config): nat {
    (PortEnd(cfg) - cfg.firstPort) * (VlanEnd(cfg) - cfg.firstVlan)
  }

  /** The loops visit exactly the configured pairs, each once. */
  lemma PairsAreConfigured(cfg: Config)
    requires Valid(cfg)
    ensures GoodPairs(Pairs(cfg)) && |Pairs(cfg)| == NumPairs(cfg)
    ensures forall w :: w in Pairs(cfg) <==> Configured(cfg, w)
  {
    PortPairsAt(cfg, PortEnd(cfg));
    MulMono(PortEnd(cfg) - cfg.firstPort, 256, VlanEnd(cfg) - cfg.firstVlan);
    forall w | Configured(cfg, w) ensures w in Pairs(cfg) {
      PortPairsHave(cfg, PortEnd(cfg), w);
    }
  }
}
