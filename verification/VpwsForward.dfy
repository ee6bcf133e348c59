/** What a configured switch does with a frame. */
module VpwsForward {
  import opened Common
  import opened OpenFlow
  import opened VpwsSpec
  import opened VpwsIds
  import opened VpwsInstall

  // -------------------------------------------------------------------------
  // The buckets in execution order
  // -------------------------------------------------------------------------

  lemma Append(s: seq<Action>, a: Action)
    ensures ActionSet(s + [a]) == Insert(ActionSet(s), a)
  {
    assert (s + [a])[..|s + [a]| - 1] == s;
  }

  lemma OrderSingle(a: Action)
    ensures ActionSet([a]) == [a]
  {
    Append([], a);
    assert [] + [a] == [a];
  }

  /** An action that ranks no lower than the last one goes last. */
  lemma Last(s: seq<Action>, ordered: seq<Action>, a: Action)
    requires ActionSet(s) == ordered && ordered != [] && Rank(ordered[|ordered| - 1]) <= Rank(a)
    ensures ActionSet(s + [a]) == ordered + [a]
  {
    Append(s, a);
  }

  lemma OrderVpn(lbl: nat, next: nat)
    ensures ActionSet(VpnBucket(lbl, next)) ==
            [PushL2Header, PushCw, PushMpls, SetLabel(lbl), SetBos(true), Group(next)]
  {
    hide ActionSet;
    OrderSingle(PushL2Header);
    Last([PushL2Header], [PushL2Header], PushMpls);
    var two := [PushL2Header] + [PushMpls];
    Append(two, PushCw);
    assert two[..1] == [PushL2Header];
    assert Insert([PushL2Header], PushCw) == [PushL2Header, PushCw];
    var three, ordered := two + [PushCw], [PushL2Header, PushCw, PushMpls];
    assert ActionSet(three) == ordered;
    Last(three, ordered, SetLabel(lbl));
    Last(three + [SetLabel(lbl)], ordered + [SetLabel(lbl)], SetBos(true));
    Last(three + [SetLabel(lbl)] + [SetBos(true)], ordered + [SetLabel(lbl)] + [SetBos(true)], Group(next));
    assert three + [SetLabel(lbl)] + [SetBos(true)] + [Group(next)] == VpnBucket(lbl, next);
  }

  lemma OrderTunnel(lbl: nat, next: nat)
    ensures ActionSet(TunnelBucket(lbl, next)) == TunnelBucket(lbl, next)
  {
    hide ActionSet;
    OrderSingle(PushMpls);
    Last([PushMpls], [PushMpls], SetLabel(lbl));
    var two := [PushMpls] + [SetLabel(lbl)];
    Last(two, two, Group(next));
    assert two + [Group(next)] == TunnelBucket(lbl, next);
  }

  lemma OrderIf(l2: nat, src: Mac, dst: Mac)
    ensures ActionSet(IfBucket(l2, 0, src, dst)) == [SetVlan(OFDPA_VLAN), SetSrc(src), SetDst(dst), Group(l2)]
  {
    hide ActionSet;
    OrderSingle(SetVlan(OFDPA_VLAN));
    Last([SetVlan(OFDPA_VLAN)], [SetVlan(OFDPA_VLAN)], SetSrc(src));
    var two := [SetVlan(OFDPA_VLAN)] + [SetSrc(src)];
    Last(two, two, SetDst(dst));
    Last(two + [SetDst(dst)], two + [SetDst(dst)], Group(l2));
    assert two + [SetDst(dst)] + [Group(l2)] == IfBucket(l2, 0, src, dst);
  }

  /** The output action comes first in the bucket but last in the action set. */
  lemma OrderOutputs(port: nat)
    ensures ActionSet(L2Bucket(port, OFDPA_VLAN)) == [PopVlan, Output(port)]
    ensures ActionSet(UnfilteredBucket(port)) == [SetVlanTranslation, Output(port)]
  {
    hide ActionSet;
    OrderSingle(Output(port));
    assert [Output(port)][..0] == [];
    Append([Output(port)], PopVlan);
    Append([Output(port)], SetVlanTranslation);
    assert [Output(port)] + [SetVlanTranslation] == UnfilteredBucket(port);
  }

  // -------------------------------------------------------------------------
  // Running actions one after the other
  // -------------------------------------------------------------------------

  lemma First(a: Action, rest: seq<Action>, f: Frame)
    ensures ApplyAll([a] + rest, f) == ApplyAll(rest, Apply(a, f))
  {
    assert ([a] + rest)[1..] == rest;
  }

  lemma Apply2(a: Action, b: Action, f: Frame)
    ensures ApplyAll([a, b], f) == Apply(b, Apply(a, f))
  {
    First(a, [b], f);
    First(b, [], Apply(a, f));
    assert [a] + [b] == [a, b] && [b] + [] == [b];
  }

  lemma Apply3(a: Action, b: Action, c: Action, f: Frame)
    ensures ApplyAll([a, b, c], f) == Apply(c, Apply(b, Apply(a, f)))
  {
    First(a, [b, c], f);
    assert [a] + [b, c] == [a, b, c];
    Apply2(b, c, Apply(a, f));
  }

  lemma Apply6(a: Action, b: Action, c: Action, d: Action, e: Action, g: Action, f: Frame)
    ensures ApplyAll([a, b, c, d, e, g], f) == Apply(g, Apply(e, Apply(d, Apply(c, Apply(b, Apply(a, f))))))
  {
    First(a, [b, c, d, e, g], f);
    First(b, [c, d, e, g], Apply(a, f));
    First(c, [d, e, g], Apply(b, Apply(a, f)));
    assert [a] + [b, c, d, e, g] == [a, b, c, d, e, g];
    assert [b] + [c, d, e, g] == [b, c, d, e, g];
    assert [c] + [d, e, g] == [c, d, e, g];
    Apply3(d, e, g, Apply(c, Apply(b, Apply(a, f))));
  }

  // -------------------------------------------------------------------------
  // The initiation chain: VPN label, tunnel label, MPLS interface, L2 interface
  // -------------------------------------------------------------------------

  function WithHeaders(f: Frame, h: seq<Header>): Frame {
    f.(pkt := f.pkt.(headers := h))
  }

  lemma AfterPushCw(f: Frame, e: Header, h: seq<Header>)
    requires f.pkt.headers == [e] + h && e.Eth?
    ensures Apply(PushCw, f) == WithHeaders(f, [e, Cw] + h)
  {}

  lemma AfterPushMpls(f: Frame, e: Header, h: seq<Header>)
    requires f.pkt.headers == [e, Cw] + h && e.Eth?
    ensures Apply(PushMpls, f) == WithHeaders(f, [e, Mpls(0, true), Cw] + h)
  {}

  lemma AfterSetLabel(f: Frame, e: Header, lbl: nat, before: nat, h: seq<Header>)
    requires f.pkt.headers == [e, Mpls(before, true), Cw] + h && e.Eth?
    ensures Apply(SetLabel(lbl), f) == WithHeaders(f, [e, Mpls(lbl, true), Cw] + h)
    ensures Apply(SetBos(true), f) == f
  {}

  lemma VpnEdits(lbl: nat, next: nat, f: Frame)
    ensures ApplyAll([PushL2Header, PushCw, PushMpls, SetLabel(lbl), SetBos(true), Group(next)], f) ==
            WithHeaders(f, [Eth("", "", None), Mpls(lbl, true), Cw] + f.pkt.headers)
  {
    hide ApplyAll, Edit;
    var h, e := f.pkt.headers, Eth("", "", None);
    Apply6(PushL2Header, PushCw, PushMpls, SetLabel(lbl), SetBos(true), Group(next), f);
    var f1, f2 := WithHeaders(f, [e] + h), WithHeaders(f, [e, Cw] + h);
    var f3, f4 := WithHeaders(f, [e, Mpls(0, true), Cw] + h), WithHeaders(f, [e, Mpls(lbl, true), Cw] + h);
    assert Apply(PushL2Header, f) == f1 && Apply(Group(next), f4) == f4 by { AfterPushL2(f, f4, next); }
    AfterPushCw(f1, e, h);
    AfterPushMpls(f2, e, h);
    AfterSetLabel(f3, e, lbl, 0, h);
    AfterSetLabel(f4, e, lbl, lbl, h);
  }

  lemma AfterPushL2(f: Frame, g: Frame, next: nat)
    ensures Apply(PushL2Header, f) == WithHeaders(f, [Eth("", "", None)] + f.pkt.headers)
    ensures Apply(Group(next), g) == g
  {}

  lemma TunnelEdits(outer: nat, next: nat, f: Frame, inner: nat, h: seq<Header>)
    requires f.pkt.headers == [Eth("", "", None), Mpls(inner, true), Cw] + h
    ensures ApplyAll(TunnelBucket(outer, next), f) ==
            WithHeaders(f, [Eth("", "", None), Mpls(outer, false), Mpls(inner, true), Cw] + h)
  {
    hide ApplyAll;
    Apply3(PushMpls, SetLabel(outer), Group(next), f);
    var e := Eth("", "", None);
    var f1 := Apply(PushMpls, f);
    assert f1 == WithHeaders(f, [e, Mpls(inner, false), Mpls(inner, true), Cw] + h);
  }

  lemma IfEdits(l2: nat, src: Mac, dst: Mac, f: Frame, h: seq<Header>)
    requires f.pkt.headers == [Eth("", "", None)] + h
    ensures ApplyAll([SetVlan(OFDPA_VLAN), SetSrc(src), SetDst(dst), Group(l2)], f) ==
            WithHeaders(f, [Eth(dst, src, Some(OFDPA_VLAN))] + h)
  {
    hide ApplyAll;
    First(SetVlan(OFDPA_VLAN), [SetSrc(src), SetDst(dst), Group(l2)], f);
    assert [SetVlan(OFDPA_VLAN)] + [SetSrc(src), SetDst(dst), Group(l2)] ==
           [SetVlan(OFDPA_VLAN), SetSrc(src), SetDst(dst), Group(l2)];
    var f1 := Apply(SetVlan(OFDPA_VLAN), f);
    Apply3(SetSrc(src), SetDst(dst), Group(l2), f1);
    assert f1 == WithHeaders(f, [Eth("", "", Some(OFDPA_VLAN))] + h);
    var f2 := Apply(SetSrc(src), f1);
    assert f2 == WithHeaders(f, [Eth("", src, Some(OFDPA_VLAN))] + h);
  }

  lemma OutputEdits(port: nat, f: Frame, e: Header, h: seq<Header>)
    requires f.pkt.headers == [e] + h && e.Eth?
    ensures ApplyAll([PopVlan, Output(port)], f) == WithHeaders(f, [Eth(e.dst, e.src, None)] + h)
    ensures ApplyAll([SetVlanTranslation, Output(port)], f) == f
  {
    hide ApplyAll;
    Apply2(PopVlan, Output(port), f);
    Apply2(SetVlanTranslation, Output(port), f);
  }

  /** The frame on the MPLS network: the original behind a control word and two labels. */
  function Encap(cfg: Config, lbl: nat, p: Packet): Packet {
    p.(headers := [Eth(cfg.macPeer, cfg.macSelf, None), Mpls(cfg.outerEgress, false), Mpls(lbl, true), Cw] + p.headers)
  }

  /** One link of a group chain. */
  lemma Chain(groups: map<nat, seq<Action>>, actions: seq<Action>, f: Frame, g: nat)
    requires ExitOf(ActionSet(actions)) == ToGroup(g) && g in groups
    ensures Execute(groups, actions, f) == Execute(groups - {g}, groups[g], ApplyAll(ActionSet(actions), f))
  {}

  lemma InitiationChain(cfg: Config, ws: seq<Pair>, groups: map<nat, seq<Action>>, j: nat, f: Frame)
    requires Valid(cfg) && |ws| <= MAX_PAIRS && j < |ws|
    requires InitiationGroups(cfg, ws, groups)
    ensures Execute(groups, [Group(VpnGid(j))], f) ==
            Some(Emitted(cfg.mplsPort, Encap(cfg, LabelOf(ws[j].0, ws[j].1), f.pkt)))
  {
    hide LabelOf, IfGid, VpnGid, TunnelGid, Gid0, Execute, ActionSet, ApplyAll;
    GidsApart(cfg);
    var lbl, h := LabelOf(ws[j].0, ws[j].1), f.pkt.headers;
    OrderSingle(Group(VpnGid(j)));
    Chain(groups, [Group(VpnGid(j))], f, VpnGid(j));
    assert ApplyAll([Group(VpnGid(j))], f) == f by {
      First(Group(VpnGid(j)), [], f);
      assert [Group(VpnGid(j))] + [] == [Group(VpnGid(j))];
      assert ApplyAll([], f) == f by { NoActions(f); }
    }
    var g1 := groups - {VpnGid(j)};
    OrderVpn(lbl, TunnelGid(j));
    Chain(g1, VpnBucket(lbl, TunnelGid(j)), f, TunnelGid(j));
    VpnEdits(lbl, TunnelGid(j), f);
    var f1 := WithHeaders(f, [Eth("", "", None), Mpls(lbl, true), Cw] + h);
    var g2 := g1 - {TunnelGid(j)};
    OrderTunnel(cfg.outerEgress, IfGid(j));
    Chain(g2, TunnelBucket(cfg.outerEgress, IfGid(j)), f1, IfGid(j));
    TunnelEdits(cfg.outerEgress, IfGid(j), f1, lbl, h);
    var rest := [Mpls(cfg.outerEgress, false), Mpls(lbl, true), Cw] + h;
    var f2 := WithHeaders(f, [Eth("", "", None)] + rest);
    assert f2.pkt.headers == [Eth("", "", None), Mpls(cfg.outerEgress, false), Mpls(lbl, true), Cw] + h;
    var g3 := g2 - {IfGid(j)};
    OrderIf(Gid0(cfg), cfg.macSelf, cfg.macPeer);
    Chain(g3, IfBucket(Gid0(cfg), 0, cfg.macSelf, cfg.macPeer), f2, Gid0(cfg));
    IfEdits(Gid0(cfg), cfg.macSelf, cfg.macPeer, f2, rest);
    var f3 := WithHeaders(f, [Eth(cfg.macPeer, cfg.macSelf, Some(OFDPA_VLAN))] + rest);
    var g4 := g3 - {Gid0(cfg)};
    OutputChain(g4, cfg.mplsPort, f3, Eth(cfg.macPeer, cfg.macSelf, Some(OFDPA_VLAN)), rest);
    assert [Eth(cfg.macPeer, cfg.macSelf, None)] + rest ==
           [Eth(cfg.macPeer, cfg.macSelf, None), Mpls(cfg.outerEgress, false), Mpls(lbl, true), Cw] + h;
  }

  lemma NoActions(f: Frame)
    ensures ApplyAll([], f) == f
  {}

  lemma OutputChain(groups: map<nat, seq<Action>>, port: nat, f: Frame, e: Header, h: seq<Header>)
    requires f.pkt.headers == [e] + h && e.Eth?
    ensures Execute(groups, L2Bucket(port, OFDPA_VLAN), f) ==
            Some(Emitted(port, f.pkt.(headers := [Eth(e.dst, e.src, None)] + h)))
    ensures Execute(groups, UnfilteredBucket(port), f) == Some(Emitted(port, f.pkt))
  {
    hide ActionSet, ApplyAll;
    OrderOutputs(port);
    OutputEdits(port, f, e, h);
  }
}
