/**
 Per-VLAN spanning tree states in a cache: a netlink message gives them as runs of VLAN ids, the cache holds one
 object per interface and VLAN.
 */
module BridgeVlan {
  import opened Common

  type U16 = x: int | 0 <= x < 0x1_0000

  datatype Vlan = Vlan(ifindex: int, family: int, vid: U16, state: int)

  datatype Attr = Ifindex | Family | Vid | State

  /** What a message holds: an entry with its first VLAN id, or something else that is skipped. */
  datatype Attribute =
    | Entry(vid: U16, range: Option<U16>, state: Option<int>)
    | Unknown

  datatype Message = Message(deleted: bool, ifindex: int, family: int, attributes: seq<Attribute>)

  /** The attributes among those asked for in which two objects differ. */
  function Compare(a: Vlan, b: Vlan, attrs: set<Attr>): set<Attr> {
    attrs * ((if a.ifindex != b.ifindex then {Ifindex} else {}) +
             (if a.family != b.family then {Family} else {}) +
             (if a.vid != b.vid then {Vid} else {}) +
             (if a.state != b.state then {State} else {}))
  }

  lemma CompareIff(a: Vlan, b: Vlan, attrs: set<Attr>)
    ensures Ifindex in Compare(a, b, attrs) <==> Ifindex in attrs && a.ifindex != b.ifindex
    ensures Family in Compare(a, b, attrs) <==> Family in attrs && a.family != b.family
    ensures Vid in Compare(a, b, attrs) <==> Vid in attrs && a.vid != b.vid
    ensures State in Compare(a, b, attrs) <==> State in attrs && a.state != b.state
  {}

  /** Objects with equal identity attributes are one. */
  predicate SameId(a: Vlan, b: Vlan) {
    Compare(a, b, {Ifindex, Vid}) == {}
  }

  lemma SameIdIff(a: Vlan, b: Vlan)
    ensures SameId(a, b) <==> a.ifindex == b.ifindex && a.vid == b.vid
  {
    var diff := Compare(a, b, {Ifindex, Vid});
    if a.ifindex != b.ifindex { assert Ifindex in diff; }
    if a.vid != b.vid { assert Vid in diff; }
    if a.ifindex == b.ifindex && a.vid == b.vid { assert diff == {}; }
  }

  // -------------------------------------------------------------------------
  // The cache as a table
  // -------------------------------------------------------------------------

  type Key = (int, int)

  ghost predicate Unique(items: seq<Vlan>) {
    forall i, j :: 0 <= i < j < |items| ==> !SameId(items[i], items[j])
  }

  /** The object of each interface and VLAN. */
  ghost function Table(items: seq<Vlan>): map<Key, Vlan> {
    if items == [] then map[]
    else Table(items[..|items| - 1])[(items[|items| - 1].ifindex, items[|items| - 1].vid as int) := items[|items| - 1]]
  }

  lemma {:induction false} TableHas(items: seq<Vlan>, key: Key)
    requires Unique(items)
    ensures key in Table(items) <==> exists v <- items :: (v.ifindex, v.vid) == key
    ensures forall v <- items :: (v.ifindex, v.vid) == key ==> key in Table(items) && Table(items)[key] == v
  {
    if items != [] {
      var n := |items| - 1;
      TableHas(items[..n], key);
      assert items == items[..n] + [items[n]];
      forall v <- items[..n] ensures (v.ifindex, v.vid as int) != (items[n].ifindex, items[n].vid as int) {
        SameIdIff(v, items[n]);
      }
    }
  }

  /** What one object of a message does to the table. */
  function Put(t: map<Key, Vlan>, v: Vlan, deleted: bool): map<Key, Vlan> {
    if deleted then t - {(v.ifindex, v.vid as int)} else t[(v.ifindex, v.vid as int) := v]
  }

  class VlanCache {
    var items: seq<Vlan>

    constructor ()
      ensures items == [] && Unique(items) && Table(items) == map[]
    {
      items := [];
    }

    /** An object replaces the one with its identity, or removes it. */
    method Include(v: Vlan, deleted: bool)
      requires Unique(items)
      modifies this
      ensures Unique(items) && Table(items) == Put(old(Table(items)), v, deleted)
    {
      var i := 0;
      while i < |items| && !SameId(items[i], v)
        invariant 0 <= i <= |items|
        invariant forall j :: 0 <= j < i ==> !SameId(items[j], v)
      {
        i := i + 1;
      }
      var rest := if i < |items| then items[..i] + items[i + 1..] else items;
      IncludeTable(items, i, v);
      items := if deleted then rest else rest + [v];
    }

    method Get(ifindex: int, vid: int) returns (r: Option<Vlan>)
      requires Unique(items)
      ensures r.Some? <==> (ifindex, vid) in Table(items)
      ensures r.Some? ==> r.value.ifindex == ifindex && r.value.vid == vid && r.value == Table(items)[(ifindex, vid)]
    {
      TableHas(items, (ifindex, vid));
      for i := 0 to |items|
        invariant forall j :: 0 <= j < i ==> items[j].ifindex != ifindex || items[j].vid != vid
      {
        if items[i].ifindex == ifindex && items[i].vid == vid {
          return Some(items[i]);
        }
      }
      return None;
    }
  }

  /** The items without the one at this position; all of them if there is none. */
  function Rest(items: seq<Vlan>, i: nat): (r: seq<Vlan>)
    ensures forall v <- r :: v in items
  {
    if i < |items| then items[..i] + items[i + 1..] else items
  }

  lemma OnlyOne(items: seq<Vlan>, i: nat, v: Vlan)
    requires Unique(items) && i < |items| && SameId(items[i], v)
    ensures forall j :: i < j < |items| ==> !SameId(items[j], v)
  {
    hide Compare, SameId;
    forall j | i < j < |items| ensures !SameId(items[j], v) {
      SameIdIff(items[i], items[j]);
      SameIdIff(items[i], v);
      SameIdIff(items[j], v);
    }
  }

  lemma RestUnique(items: seq<Vlan>, i: nat)
    requires Unique(items)
    ensures Unique(Rest(items, i))
  {
    hide Compare, SameId;
    var r := Rest(items, i);
    forall j, k | 0 <= j < k < |r| ensures !SameId(r[j], r[k]) {
      if i < |items| {
        assert r[j] == items[if j < i then j else j + 1];
        assert r[k] == items[if k < i then k else k + 1];
      }
    }
  }

  lemma RestHas(items: seq<Vlan>, i: nat, v: Vlan)
    requires Unique(items) && i <= |items|
    requires i < |items| ==> SameId(items[i], v)
    requires forall j :: 0 <= j < i ==> !SameId(items[j], v)
    ensures Unique(Rest(items, i))
    ensures forall w <- Rest(items, i) :: !SameId(w, v)
    ensures forall w <- items :: SameId(w, v) || w in Rest(items, i)
  {
    hide Compare, SameId;
    RestUnique(items, i);
    if i < |items| {
      OnlyOne(items, i, v);
    }
    hide Unique;
    forall w <- items ensures SameId(w, v) || w in Rest(items, i) {
      var j :| 0 <= j < |items| && items[j] == w;
      if j < i { assert Rest(items, i)[j] == w; }
      if j > i { assert Rest(items, i)[j - 1] == w; }
    }
  }

  lemma RestTable(items: seq<Vlan>, i: nat, v: Vlan)
    requires Unique(items) && i <= |items|
    requires i < |items| ==> SameId(items[i], v)
    requires forall j :: 0 <= j < i ==> !SameId(items[j], v)
    ensures Unique(Rest(items, i)) && Table(Rest(items, i)) == Put(Table(items), v, true)
  {
    hide Table, Compare, SameId, Rest, Unique;
    var rest := Rest(items, i);
    RestHas(items, i, v);
    forall key: Key
      ensures key in Table(rest) <==> key in Table(items) && key != (v.ifindex, v.vid as int)
      ensures key in Table(rest) ==> Table(rest)[key] == Table(items)[key]
    {
      TableHas(items, key);
      TableHas(rest, key);
      forall w <- items ensures SameId(w, v) <==> (w.ifindex, w.vid as int) == (v.ifindex, v.vid as int) {
        SameIdIff(w, v);
      }
    }
  }

  lemma IncludeTable(items: seq<Vlan>, i: nat, v: Vlan)
    requires Unique(items) && i <= |items|
    requires i < |items| ==> SameId(items[i], v)
    requires forall j :: 0 <= j < i ==> !SameId(items[j], v)
    ensures var rest := Rest(items, i);
            && Unique(rest) && Table(rest) == Put(Table(items), v, true)
            && Unique(rest + [v]) && Table(rest + [v]) == Put(Table(items), v, false)
  {
    hide Compare, SameId, Rest;
    var rest := Rest(items, i);
    RestHas(items, i, v);
    RestTable(items, i, v);
    assert (rest + [v])[..|rest|] == rest;
  }

  // -------------------------------------------------------------------------
  // Messages
  // -------------------------------------------------------------------------

  function RangeEnd(e: Attribute): U16
    requires e.Entry?
  {
    if e.range.Some? then e.range.value else e.vid
  }

  function StateOf(e: Attribute): int
    requires e.Entry?
  {
    if e.state.Some? then e.state.value else 0
  }

  /** The object that a message makes for a VLAN of a run. */
  function Object(m: Message, e: Attribute, vid: U16): Vlan
    requires e.Entry?
  {
    Vlan(m.ifindex, m.family, vid, StateOf(e))
  }

  predicate Holds(e: Attribute, vid: int) {
    e.Entry? && e.vid <= vid <= RangeEnd(e)
  }

  /** Where among the attributes the last run with this VLAN is; their number if there is none. */
  function LastRun(attributes: seq<Attribute>, vid: int): (i: nat)
    ensures i <= |attributes|
    ensures i < |attributes| ==> Holds(attributes[i], vid)
    ensures forall j :: 0 <= j < |attributes| && Holds(attributes[j], vid) ==> j <= i < |attributes|
  {
    if attributes == [] then 0
    else if Holds(attributes[|attributes| - 1], vid) then |attributes| - 1
    else
      var i := LastRun(attributes[..|attributes| - 1], vid);
      if i == |attributes| - 1 then |attributes| else i
  }

  ghost predicate DecodedAt(before: map<Key, Vlan>, m: Message, attributes: seq<Attribute>, after: map<Key, Vlan>, key: Key) {
    if key.0 == m.ifindex && LastRun(attributes, key.1) < |attributes|
    then if m.deleted then key !in after
         else key in after && after[key] == Object(m, attributes[LastRun(attributes, key.1)], key.1)
    else SameAt(before, after, key)
  }

  /** The table after a message: its runs decide about the VLANs they hold, and about nothing else. */
  ghost predicate Decoded(before: map<Key, Vlan>, m: Message, attributes: seq<Attribute>, after: map<Key, Vlan>) {
    forall key: Key :: DecodedAt(before, m, attributes, after, key)
  }

  ghost predicate SameAt(t: map<Key, Vlan>, u: map<Key, Vlan>, key: Key) {
    (key in t <==> key in u) && (key in t ==> t[key] == u[key])
  }

  /** The objects of one run up to, but without, this VLAN have been put. */
  ghost predicate RunPut(before: map<Key, Vlan>, m: Message, e: Attribute, next: int, after: map<Key, Vlan>)
    requires e.Entry?
  {
    forall key: Key ::
      if key.0 == m.ifindex && e.vid <= key.1 < next
      then if m.deleted then key !in after
           else key in after && key.1 < 0x1_0000 && after[key] == Object(m, e, key.1)
      else SameAt(before, after, key)
  }

  lemma RunPutOne(before: map<Key, Vlan>, m: Message, e: Attribute, i: U16, t: map<Key, Vlan>)
    requires e.Entry? && e.vid <= i && RunPut(before, m, e, i, t)
    ensures RunPut(before, m, e, i + 1, Put(t, Object(m, e, i), m.deleted))
  {}

  method Parse(cache: VlanCache, m: Message)
    requires Unique(cache.items)
    modifies cache
    ensures Unique(cache.items)
    ensures Decoded(old(Table(cache.items)), m, m.attributes, Table(cache.items))
  {
    hide Table, Unique, Decoded, RunPut, Put;
    DecodedNone(Table(cache.items), m);
    assert m.attributes[..0] == [];
    var n := 0;
    while n < |m.attributes|
      invariant 0 <= n <= |m.attributes|
      invariant Unique(cache.items)
      invariant Decoded(old(Table(cache.items)), m, m.attributes[..n], Table(cache.items))
    {
      ghost var before := Table(cache.items);
      if m.attributes[n].Entry? {
        ParseRun(cache, m, m.attributes[n]);
      }
      DecodedOne(old(Table(cache.items)), m, n, before, Table(cache.items));
      n := n + 1;
    }
    assert m.attributes[..n] == m.attributes;
  }

  /** The VLAN counter is wider than the ids, so that a run may end at the largest id. */
  method ParseRun(cache: VlanCache, m: Message, e: Attribute)
    requires Unique(cache.items) && e.Entry?
    modifies cache
    ensures Unique(cache.items)
    ensures RunPut(old(Table(cache.items)), m, e, RunEnd(e), Table(cache.items))
  {
    hide Table, Unique, RunPut, Put;
    var range := if e.range.Some? then e.range.value else e.vid;
    var state := if e.state.Some? then e.state.value else 0;
    var i: int := e.vid;
    RunPutNone(Table(cache.items), m, e);
    while i <= range
      invariant e.vid <= i && (i <= range + 1 || i == e.vid)
      invariant Unique(cache.items)
      invariant RunPut(old(Table(cache.items)), m, e, i, Table(cache.items))
    {
      RunPutOne(old(Table(cache.items)), m, e, i, Table(cache.items));
      cache.Include(Vlan(m.ifindex, m.family, i, state), m.deleted);
      i := i + 1;
    }
  }

  /** One past the last VLAN of a run, which is empty if it ends before it begins. */
  function RunEnd(e: Attribute): int
    requires e.Entry?
  {
    if e.vid <= RangeEnd(e) then RangeEnd(e) + 1 else e.vid
  }

  lemma DecodedNone(t: map<Key, Vlan>, m: Message)
    ensures Decoded(t, m, [], t)
  {}

  lemma RunPutNone(t: map<Key, Vlan>, m: Message, e: Attribute)
    requires e.Entry?
    ensures RunPut(t, m, e, e.vid, t)
  {}

  lemma DecodedOne(t0: map<Key, Vlan>, m: Message, n: nat, before: map<Key, Vlan>, after: map<Key, Vlan>)
    requires n < |m.attributes| && Decoded(t0, m, m.attributes[..n], before)
    requires var e := m.attributes[n];
             if e.Entry? then RunPut(before, m, e, RunEnd(e), after) else after == before
    ensures Decoded(t0, m, m.attributes[..n + 1], after)
  {
    hide Decoded, LastRun;
    var next := m.attributes[..n + 1];
    forall key: Key ensures DecodedAt(t0, m, next, after, key) {
      assert DecodedAt(t0, m, m.attributes[..n], before, key) by { DecodedIs(t0, m, m.attributes[..n], before); }
      LastRunOne(m.attributes, n, key.1);
      hide Holds;
      if m.attributes[n].Entry? && key.0 == m.ifindex && Holds(m.attributes[n], key.1) {
        assert m.attributes[n].vid <= key.1 < RunEnd(m.attributes[n]) by { HoldsIs(m.attributes[n], key.1); }
      } else if m.attributes[n].Entry? {
        assert SameAt(before, after, key) by { HoldsIs(m.attributes[n], key.1); }
      }
    }
    DecodedIs(t0, m, next, after);
  }

  lemma DecodedIs(t0: map<Key, Vlan>, m: Message, attributes: seq<Attribute>, t: map<Key, Vlan>)
    ensures Decoded(t0, m, attributes, t) <==> forall key: Key :: DecodedAt(t0, m, attributes, t, key)
  {}

  lemma HoldsIs(e: Attribute, vid: int)
    requires e.Entry?
    ensures Holds(e, vid) <==> e.vid <= vid < RunEnd(e)
  {}

  lemma LastRunOne(attributes: seq<Attribute>, n: nat, vid: int)
    requires n < |attributes|
    ensures var i := LastRun(attributes[..n], vid);
            LastRun(attributes[..n + 1], vid) ==
            if Holds(attributes[n], vid) then n else if i < n then i else n + 1
  {
    assert attributes[..n + 1][..n] == attributes[..n];
  }

  // -------------------------------------------------------------------------
  // What a lookup finds, by the fields of the message
  // -------------------------------------------------------------------------

  /**
   A lookup after a message finds the last run with the VLAN: from its first id to the end of its range, or the one
   id if it has no range, in its state, or state 0 if it has none.
   */
  lemma LookupFinds(before: map<Key, Vlan>, m: Message, after: map<Key, Vlan>, i: nat, vid: int)
    requires Decoded(before, m, m.attributes, after) && !m.deleted && i < |m.attributes|
    requires match m.attributes[i]
             case Unknown => false
             case Entry(lo, Some(hi), _) => lo <= vid <= hi
             case Entry(lo, None, _) => vid == lo
    requires forall j :: i < j < |m.attributes| ==>
               match m.attributes[j]
               case Unknown => true
               case Entry(lo, Some(hi), _) => vid < lo || hi < vid
               case Entry(lo, None, _) => vid != lo
    ensures 0 <= vid < 0x1_0000 && (m.ifindex, vid) in after
    ensures after[(m.ifindex, vid)] == Vlan(m.ifindex, m.family, vid, match m.attributes[i].state
                                                                      case Some(s) => s
                                                                      case None => 0)
  {
    LastRunIs(m.attributes, i, vid);
    assert DecodedAt(before, m, m.attributes, after, (m.ifindex, vid));
  }

  /** After a deletion no run's VLAN is found. */
  lemma LookupFindsNone(before: map<Key, Vlan>, m: Message, after: map<Key, Vlan>, i: nat, vid: int)
    requires Decoded(before, m, m.attributes, after) && m.deleted && i < |m.attributes|
    requires match m.attributes[i]
             case Unknown => false
             case Entry(lo, Some(hi), _) => lo <= vid <= hi
             case Entry(lo, None, _) => vid == lo
    ensures (m.ifindex, vid) !in after
  {
    assert Holds(m.attributes[i], vid);
    assert DecodedAt(before, m, m.attributes, after, (m.ifindex, vid));
  }

  /** What no run holds, and what is another interface's, is as before. */
  lemma LookupKeeps(before: map<Key, Vlan>, m: Message, after: map<Key, Vlan>, ifindex: int, vid: int)
    requires Decoded(before, m, m.attributes, after)
    requires ifindex != m.ifindex || forall j :: 0 <= j < |m.attributes| ==>
               match m.attributes[j]
               case Unknown => true
               case Entry(lo, Some(hi), _) => vid < lo || hi < vid
               case Entry(lo, None, _) => vid != lo
    ensures (ifindex, vid) in after <==> (ifindex, vid) in before
    ensures (ifindex, vid) in before ==> after[(ifindex, vid)] == before[(ifindex, vid)]
  {
    assert DecodedAt(before, m, m.attributes, after, (ifindex, vid));
  }

  lemma LastRunIs(attributes: seq<Attribute>, i: nat, vid: int)
    requires i < |attributes| && Holds(attributes[i], vid)
    requires forall j :: i < j < |attributes| ==> !Holds(attributes[j], vid)
    ensures LastRun(attributes, vid) == i
  {}

  /** A run of three VLANs in an empty cache. */
  method RunOfThree() returns (r: Option<Vlan>, outside: Option<Vlan>)
    ensures r == Some(Vlan(1, 7, 11, 3)) && outside == None
  {
    var cache := new VlanCache();
    var m := Message(false, 1, 7, [Entry(10, Some(12), Some(3))]);
    Parse(cache, m);
    LookupFinds(map[], m, Table(cache.items), 0, 11);
    LookupKeeps(map[], m, Table(cache.items), 1, 13);
    r := cache.Get(1, 11);
    outside := cache.Get(1, 13);
  }
}
