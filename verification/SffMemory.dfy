/**
 The memory of a pluggable transceiver (section 7.6 of SFF-8436): 256 directly addressed bytes, of which
 the upper 128 show one of many pages, selected by the byte at address 127. The driver presents it as one
 flat image.
 */
module SffMemory {
  import opened Common

  const PAGE_SIZE := 128
  const PAGE_SELECT := 127
  const PAGES := 256
  const IMAGE_SIZE := PAGE_SIZE * (1 + PAGES)

  datatype Memory = Memory(lower: seq<Byte>, upper: seq<seq<Byte>>) {
    ghost predicate Shape() {
      |lower| == PAGE_SIZE && |upper| == PAGES && forall p | 0 <= p < PAGES :: |upper[p]| == PAGE_SIZE
    }

    function Page(): Byte
      requires Shape()
    {
      lower[PAGE_SELECT]
    }
  }

  // -------------------------------------------------------------------------
  // The module's own addressing
  // -------------------------------------------------------------------------

  function Splice(s: seq<Byte>, at: nat, data: seq<Byte>): (r: seq<Byte>)
    requires at + |data| <= |s|
    ensures |r| == |s|
  {
    s[..at] + data + s[at + |data|..]
  }

  /** A transaction of n bytes at `a` stays within the lower or the upper half. */
  predicate InHalf(a: nat, n: nat) {
    a + n <= PAGE_SIZE || (PAGE_SIZE <= a && a + n <= 2 * PAGE_SIZE)
  }

  function Peek(m: Memory, a: nat): Byte
    requires m.Shape() && a < 2 * PAGE_SIZE
  {
    if a < PAGE_SIZE then m.lower[a] else m.upper[m.Page()][a - PAGE_SIZE]
  }

  function Peeks(m: Memory, a: nat, n: nat): (r: seq<Byte>)
    requires m.Shape() && InHalf(a, n)
    ensures |r| == n
  {
    if a + n <= PAGE_SIZE then m.lower[a..a + n] else m.upper[m.Page()][a - PAGE_SIZE..a - PAGE_SIZE + n]
  }

  lemma PeeksAt(m: Memory, a: nat, n: nat, i: nat)
    requires m.Shape() && InHalf(a, n) && i < n
    ensures Peeks(m, a, n)[i] == Peek(m, a + i)
  {}

  function Poke(m: Memory, a: nat, data: seq<Byte>): (r: Memory)
    requires m.Shape() && InHalf(a, |data|)
    ensures r.Shape()
  {
    if a + |data| <= PAGE_SIZE then m.(lower := Splice(m.lower, a, data))
    else m.(upper := m.upper[m.Page() := Splice(m.upper[m.Page()], a - PAGE_SIZE, data)])
  }

  // -------------------------------------------------------------------------
  // The flat image
  // -------------------------------------------------------------------------

  datatype Place = Place(page: nat, addr: nat)

  /** Page and address of a flat offset. */
  function Translate(off: nat): Place {
    if off < PAGE_SIZE then Place(0, off)
    else Place(off / PAGE_SIZE - 1, PAGE_SIZE + off % PAGE_SIZE)
  }

  function Untranslate(p: Place): nat {
    if p.addr < PAGE_SIZE then p.addr else PAGE_SIZE * (p.page + 1) + p.addr - PAGE_SIZE
  }

  /** A byte of the lower half is on no page in particular; a byte of the upper half is on one. */
  predicate Canonical(p: Place) {
    p.addr < 2 * PAGE_SIZE && p.page < PAGES && (p.addr < PAGE_SIZE ==> p.page == 0)
  }

  /** Translation is a bijection between the flat offsets and the bytes of the module. */
  lemma TranslateBijective(off: nat, p: Place)
    ensures off < IMAGE_SIZE ==> Canonical(Translate(off)) && Untranslate(Translate(off)) == off
    ensures Canonical(p) ==> Untranslate(p) < IMAGE_SIZE && Translate(Untranslate(p)) == p
    ensures off + 1 < IMAGE_SIZE && (off + 1) % PAGE_SIZE != 0 ==>
              Translate(off + 1) == Translate(off).(addr := Translate(off).addr + 1)
  {}

  function FlatAt(m: Memory, off: nat): Byte
    requires m.Shape() && off < IMAGE_SIZE
  {
    var p := Translate(off);
    if p.addr < PAGE_SIZE then m.lower[p.addr] else m.upper[p.page][p.addr - PAGE_SIZE]
  }

  function Flat(m: Memory): (r: seq<Byte>)
    requires m.Shape()
    ensures |r| == IMAGE_SIZE
    ensures forall o | 0 <= o < IMAGE_SIZE :: r[o] == FlatAt(m, o)
  {
    seq(IMAGE_SIZE, o requires 0 <= o < IMAGE_SIZE => FlatAt(m, o))
  }

  /** The image determines the memory. */
  lemma FlatInjective(m: Memory, n: Memory)
    requires m.Shape() && n.Shape() && Flat(m) == Flat(n)
    ensures m == n
  {
    forall a | 0 <= a < PAGE_SIZE ensures m.lower[a] == n.lower[a] {
      assert Flat(m)[a] == Flat(n)[a];
    }
    forall p | 0 <= p < PAGES ensures m.upper[p] == n.upper[p] {
      forall a | 0 <= a < PAGE_SIZE ensures m.upper[p][a] == n.upper[p][a] {
        var o := PAGE_SIZE * (p + 1) + a;
        TranslateBijective(o, Place(p, a + PAGE_SIZE));
        assert Flat(m)[o] == Flat(n)[o];
      }
    }
  }

  /** n bytes from `off` lie in one chunk: in the lower half or on one page. */
  predicate InChunk(off: nat, n: nat) {
    n > 0 && off + n <= IMAGE_SIZE && off / PAGE_SIZE == (off + n - 1) / PAGE_SIZE
  }

  /** The memory with a page selected for the transfer of a chunk; page 0 is left alone. */
  function Selected(m: Memory, page: nat): (r: Memory)
    requires m.Shape() && page < PAGES
    ensures r.Shape()
  {
    if page > 0 then Poke(m, PAGE_SELECT, [page]) else m
  }

  lemma ChunkInHalf(off: nat, n: nat)
    requires InChunk(off, n)
    ensures var p := Translate(off); p.page < PAGES && InHalf(p.addr, n)
  {}

  /** Reading a chunk through its selected page reads the flat image. */
  lemma ChunkReads(m: Memory, off: nat, n: nat)
    requires m.Shape() && m.Page() == 0 && InChunk(off, n)
    ensures var p := Translate(off);
            p.page < PAGES && InHalf(p.addr, n) &&
            Peeks(Selected(m, p.page), p.addr, n) == Flat(m)[off..off + n]
  {
    ChunkInHalf(off, n);
    var p := Translate(off);
    var s := Selected(m, p.page);
    forall i | 0 <= i < n ensures Peeks(s, p.addr, n)[i] == FlatAt(m, off + i) {
      assert Translate(off + i) == Place(p.page, p.addr + i);
    }
  }

  /** The memory with page 0 selected again after the transfer of a chunk. */
  function Deselected(m: Memory, page: nat): (r: Memory)
    requires m.Shape()
    ensures r.Shape()
  {
    if page > 0 then Poke(m, PAGE_SELECT, [0]) else m
  }

  /** The memory after a chunk was selected, written and deselected. */
  function Written(m: Memory, off: nat, n: nat, data: seq<Byte>): (r: Memory)
    requires m.Shape() && InChunk(off, n) && |data| <= n
    ensures r.Shape()
  {
    ChunkInHalf(off, n);
    var p := Translate(off);
    Deselected(Poke(Selected(m, p.page), p.addr, data), p.page)
  }

  /** Writing a chunk through its selected page and deselecting writes the flat image, and nothing else. */
  lemma ChunkWrites(m: Memory, off: nat, n: nat, data: seq<Byte>)
    requires m.Shape() && m.Page() == 0 && InChunk(off, n) && |data| <= n
    ensures Flat(Written(m, off, n, data)) == Splice(Flat(m), off, data)
  {
    forall o | 0 <= o < IMAGE_SIZE ensures Flat(Written(m, off, n, data))[o] == Splice(Flat(m), off, data)[o] {
      ChunkWritesAt(m, off, n, data, o);
    }
  }

  lemma SpliceAt(s: seq<Byte>, at: nat, data: seq<Byte>, i: nat)
    requires at + |data| <= |s| && i < |s|
    ensures Splice(s, at, data)[i] == if at <= i < at + |data| then data[i - at] else s[i]
  {}

  lemma ChunkWritesAt(m: Memory, off: nat, n: nat, data: seq<Byte>, o: nat)
    requires m.Shape() && m.Page() == 0 && InChunk(off, n) && |data| <= n && o < IMAGE_SIZE
    ensures FlatAt(Written(m, off, n, data), o) == if off <= o < off + |data| then data[o - off] else FlatAt(m, o)
  {
    hide Splice;
    ChunkInHalf(off, n);
    var p, q := Translate(off), Translate(o);
    if data == [] {
      assert data[..0] == data;
      NothingPoked(Selected(m, p.page), p.addr, data);
      SelectDeselect(m, p.page);
    } else if off < PAGE_SIZE {
      if o < PAGE_SIZE {
        SpliceAt(m.lower, off, data, o);
      }
    } else if o < PAGE_SIZE {
      SelectDeselect(m, p.page);
    } else {
      if p.page > 0 {
        SelectsPage(m, p.page);
      }
      SpliceAt(m.upper[p.page], p.addr - PAGE_SIZE, data, q.addr - PAGE_SIZE);
      assert q.page == p.page ==> q.addr - p.addr == o - off;
      assert q.page != p.page ==> !(off <= o < off + |data|);
    }
  }

  lemma SelectsPage(m: Memory, page: nat)
    requires m.Shape() && 0 < page < PAGES
    ensures Selected(m, page).Page() == page
    ensures Selected(m, page).upper == m.upper
  {}

  /** Two adjacent splices are one. */
  lemma SpliceTwice(s: seq<Byte>, at: nat, a: seq<Byte>, b: seq<Byte>)
    requires at + |a| + |b| <= |s|
    ensures Splice(Splice(s, at, a), at + |a|, b) == Splice(s, at, a + b)
  {}

  /** Two adjacent writes within one half are one. */
  lemma PokeTwice(m: Memory, at: nat, a: seq<Byte>, b: seq<Byte>)
    requires m.Shape() && InHalf(at, |a| + |b|)
    ensures InHalf(at, |a|) && InHalf(at + |a|, |b|) && InHalf(at, |a + b|)
    ensures Poke(Poke(m, at, a), at + |a|, b) == Poke(m, at, a + b)
  {
    if at + |a| + |b| <= PAGE_SIZE {
      SpliceTwice(m.lower, at, a, b);
    } else {
      SpliceTwice(m.upper[m.Page()], at - PAGE_SIZE, a, b);
      var m1 := Poke(m, at, a);
      assert m1.Page() == m.Page();
    }
  }

  lemma SplicePrefixes(s: seq<Byte>, at: nat, data: seq<Byte>, j: nat, k: nat)
    requires at + |data| <= |s| && j <= |data| && k <= |data|
    ensures Splice(Splice(s, at, data[..j]), at, data[..k]) == Splice(s, at, data[..if j <= k then k else j])
  {}

  /** Writing a prefix of some data over another prefix of it leaves the longer one. */
  lemma PokePrefixes(m: Memory, at: nat, data: seq<Byte>, j: nat, k: nat)
    requires m.Shape() && InHalf(at, |data|) && j <= |data| && k <= |data|
    ensures InHalf(at, j) && InHalf(at, k)
    ensures Poke(Poke(m, at, data[..j]), at, data[..k]) == Poke(m, at, data[..if j <= k then k else j])
  {
    hide Splice;
    if at + |data| <= PAGE_SIZE {
      SplicePrefixes(m.lower, at, data, j, k);
    } else if at + j > PAGE_SIZE && at + k > PAGE_SIZE {
      SplicePrefixes(m.upper[m.Page()], at - PAGE_SIZE, data, j, k);
    } else {
      NothingPoked(m, at, data);
      NothingPoked(Poke(m, at, data[..j]), at, data);
    }
  }

  lemma NothingPoked(m: Memory, a: nat, data: seq<Byte>)
    requires m.Shape() && InHalf(a, |data|)
    ensures InHalf(a, 0) && Poke(m, a, data[..0]) == m
  {
    if a <= PAGE_SIZE {
      assert Splice(m.lower, a, data[..0]) == m.lower;
    } else {
      var u := m.upper[m.Page()];
      assert Splice(u, a - PAGE_SIZE, data[..0]) == u;
    }
  }

  lemma SelectDeselect(m: Memory, page: nat)
    requires m.Shape() && m.Page() == 0 && page < PAGES
    ensures Deselected(Selected(m, page), page) == m
  {
    if page > 0 {
      assert Deselected(Selected(m, page), page).lower == m.lower;
    }
  }

  lemma PeeksConcat(m: Memory, a: nat, i: nat, j: nat)
    requires m.Shape() && InHalf(a, i + j)
    ensures InHalf(a, i) && InHalf(a + i, j) && Peeks(m, a, i) + Peeks(m, a + i, j) == Peeks(m, a, i + j)
  {}

  /** What a transfer of a chunk of data left, if it moved r bytes or failed with r < 0. */
  ghost predicate Stored(before: seq<Byte>, after: seq<Byte>, off: nat, data: seq<Byte>, r: int, exact: bool) {
    && |before| == |after| && off + |data| <= |before|
    && exists k: nat :: r <= k <= |data| && (exact ==> k == if r < 0 then 0 else r) &&
                        after == Splice(before, off, data[..k])
  }

  lemma StoredPrefix(before: seq<Byte>, off: nat, data: seq<Byte>, k: nat, r: int, exact: bool)
    requires off + |data| <= |before| && r <= k <= |data|
    requires exact ==> k == if r < 0 then 0 else r
    ensures Stored(before, Splice(before, off, data[..k]), off, data, r, exact)
  {}
}
