/**
 Where the bytes of a write land in the flat image. A write that covers byte 127 selects a page on its way; if
 that is not page 0, the bytes that follow in the upper half land on the page selected.
 */
module SffImage {
  import opened Common
  import opened SffMemory

  /** A write does not change the page register: it leaves byte 127 alone or writes zero to it. */
  predicate Clean(off: nat, data: seq<Byte>) {
    off <= PAGE_SELECT < off + |data| ==> data[PAGE_SELECT - off] == 0
  }

  /** The image after a complete write to a module that showed page 0. */
  function Landed(f: seq<Byte>, off: nat, data: seq<Byte>): (r: seq<Byte>)
    requires |f| == IMAGE_SIZE && off + |data| <= IMAGE_SIZE
    ensures |r| == IMAGE_SIZE
  {
    if off >= PAGE_SIZE || off + |data| <= PAGE_SIZE then Splice(f, off, data)
    else
      var k := PAGE_SIZE - off;
      var shown := Splice(f, off, data[..k]);
      if |data| <= k + PAGE_SIZE then Splice(shown, UpperAt(data[k - 1]), data[k..])
      else
        var upper := Splice(shown, UpperAt(data[k - 1]), data[k..k + PAGE_SIZE]);
        Splice(upper, 2 * PAGE_SIZE, data[k + PAGE_SIZE..])[PAGE_SELECT := 0]
  }

  /** Where a page starts in the image. */
  function UpperAt(page: Byte): (r: nat)
    ensures PAGE_SIZE <= r <= IMAGE_SIZE - PAGE_SIZE
  {
    PAGE_SIZE * (1 + page)
  }

  // -------------------------------------------------------------------------
  // One chunk, whatever page is shown
  // -------------------------------------------------------------------------

  /** The image after one chunk of a write. */
  function ChunkLanded(f: seq<Byte>, off: nat, data: seq<Byte>): (r: seq<Byte>)
    requires |f| == IMAGE_SIZE && InChunk(off, |data|)
    ensures |r| == IMAGE_SIZE
  {
    if off < PAGE_SIZE then Splice(f, off, data)
    else if off < 2 * PAGE_SIZE then
      var page := f[PAGE_SELECT];
      Splice(f, UpperAt(page) + off - PAGE_SIZE, data)
    else Splice(f, off, data)[PAGE_SELECT := 0]
  }

  lemma ChunkLands(m: Memory, off: nat, data: seq<Byte>)
    requires m.Shape() && InChunk(off, |data|)
    ensures Flat(Written(m, off, |data|, data)) == ChunkLanded(Flat(m), off, data)
  {
    var w := Written(m, off, |data|, data);
    ChunkInHalf(off, |data|);
    forall o | 0 <= o < IMAGE_SIZE ensures Flat(w)[o] == ChunkLanded(Flat(m), off, data)[o] {
      if off < PAGE_SIZE {
        LowerLands(m, off, data, o);
      } else if off < 2 * PAGE_SIZE {
        ShownLands(m, off, data, o);
      } else {
        PagedLands(m, off, data, o);
      }
    }
  }

  lemma LowerLands(m: Memory, off: nat, data: seq<Byte>, o: nat)
    requires m.Shape() && InChunk(off, |data|) && off < PAGE_SIZE && o < IMAGE_SIZE
    ensures Flat(Written(m, off, |data|, data))[o] == Splice(Flat(m), off, data)[o]
  {
    SpliceAt(Flat(m), off, data, o);
    if o < PAGE_SIZE {
      SpliceAt(m.lower, off, data, o);
    }
  }

  lemma ShownLands(m: Memory, off: nat, data: seq<Byte>, o: nat)
    requires m.Shape() && InChunk(off, |data|) && PAGE_SIZE <= off < 2 * PAGE_SIZE && o < IMAGE_SIZE
    ensures Flat(Written(m, off, |data|, data))[o] == ChunkLanded(Flat(m), off, data)[o]
  {
    hide Splice;
    var page, at, q := m.Page(), off - PAGE_SIZE, Translate(o);
    assert Translate(off) == Place(0, off);
    assert Written(m, off, |data|, data) == Poke(m, off, data);
    SpliceAt(Flat(m), UpperAt(page) + at, data, o);
    if o >= PAGE_SIZE {
      SpliceAt(m.upper[page], at, data, q.addr - PAGE_SIZE);
    }
  }

  lemma PagedLands(m: Memory, off: nat, data: seq<Byte>, o: nat)
    requires m.Shape() && InChunk(off, |data|) && 2 * PAGE_SIZE <= off && o < IMAGE_SIZE
    ensures Flat(Written(m, off, |data|, data))[o] == ChunkLanded(Flat(m), off, data)[o]
  {
    hide Splice;
    var p, q := Translate(off), Translate(o);
    SelectsPage(m, p.page);
    var s := Selected(m, p.page);
    assert Written(m, off, |data|, data) == Deselected(Poke(s, p.addr, data), p.page);
    SpliceAt(Flat(m), off, data, o);
    if o < PAGE_SIZE {
      SpliceAt(m.lower, PAGE_SELECT, [p.page], o);
      SpliceAt(s.lower, PAGE_SELECT, [0], o);
    } else {
      SpliceAt(m.upper[p.page], p.addr - PAGE_SIZE, data, q.addr - PAGE_SIZE);
      assert q.page == p.page ==> q.addr - p.addr == o - off;
      assert q.page != p.page ==> !(off <= o < off + |data|);
    }
  }

  // -------------------------------------------------------------------------
  // Chunk after chunk
  // -------------------------------------------------------------------------

  /** A splice elsewhere leaves a byte alone, and then setting that byte can wait. */
  lemma SetLater(f: seq<Byte>, i: nat, b: Byte, at: nat, data: seq<Byte>)
    requires i < at && at + |data| <= |f|
    ensures Splice(f[i := b], at, data)[i := b] == Splice(f, at, data)[i := b]
  {}

  lemma NothingToSet(f: seq<Byte>, i: nat)
    requires i < |f|
    ensures f[i := f[i]] == f
  {}

  lemma NoSplice(f: seq<Byte>, at: nat, data: seq<Byte>)
    requires at <= |f| && data == []
    ensures Splice(f, at, data) == f
  {}

  /** The next chunk lands behind what has landed. */
  lemma LandsNext(f: seq<Byte>, off: nat, a: seq<Byte>, b: seq<Byte>)
    requires |f| == IMAGE_SIZE && f[PAGE_SELECT] == 0 && off + |a| + |b| <= IMAGE_SIZE
    requires InChunk(off + |a|, |b|) && (a == [] || (off + |a|) % PAGE_SIZE == 0)
    ensures ChunkLanded(Landed(f, off, a), off + |a|, b) == Landed(f, off, a + b)
  {
    hide Landed, ChunkLanded;
    if off >= PAGE_SIZE {
      LandsUpper(f, off, a, b);
    } else if off + |a| < PAGE_SIZE {
      LandsLower(f, off, a, b);
    } else if off + |a| == PAGE_SIZE {
      LandsShown(f, off, a, b);
    } else {
      LandsPaged(f, off, a, b);
    }
  }

  lemma LandsLower(f: seq<Byte>, off: nat, a: seq<Byte>, b: seq<Byte>)
    requires |f| == IMAGE_SIZE && a == [] && off + |b| <= PAGE_SIZE && InChunk(off, |b|)
    ensures ChunkLanded(Landed(f, off, a), off + |a|, b) == Landed(f, off, a + b)
  {
    hide Splice;
    NoSplice(f, off, a);
    assert a + b == b;
  }

  lemma LandsUpper(f: seq<Byte>, off: nat, a: seq<Byte>, b: seq<Byte>)
    requires |f| == IMAGE_SIZE && f[PAGE_SELECT] == 0 && off + |a| + |b| <= IMAGE_SIZE
    requires InChunk(off + |a|, |b|) && off >= PAGE_SIZE
    ensures ChunkLanded(Landed(f, off, a), off + |a|, b) == Landed(f, off, a + b)
  {
    hide Splice;
    var g := Splice(f, off, a);
    SpliceAt(f, off, a, PAGE_SELECT);
    SpliceTwice(f, off, a, b);
    SpliceAt(g, off + |a|, b, PAGE_SELECT);
    NothingToSet(Splice(g, off + |a|, b), PAGE_SELECT);
  }

  lemma LandsShown(f: seq<Byte>, off: nat, a: seq<Byte>, b: seq<Byte>)
    requires |f| == IMAGE_SIZE && off < PAGE_SIZE && off + |a| == PAGE_SIZE && 0 < |b| <= PAGE_SIZE
    ensures ChunkLanded(Landed(f, off, a), off + |a|, b) == Landed(f, off, a + b)
  {
    hide Splice;
    SpliceAt(f, off, a, PAGE_SELECT);
    assert (a + b)[..|a|] == a && (a + b)[|a|..] == b && (a + b)[|a| - 1] == a[|a| - 1];
  }

  lemma LandsPaged(f: seq<Byte>, off: nat, a: seq<Byte>, b: seq<Byte>)
    requires |f| == IMAGE_SIZE && off < PAGE_SIZE && off + |a| >= 2 * PAGE_SIZE
    requires off + |a| + |b| <= IMAGE_SIZE && InChunk(off + |a|, |b|)
    ensures ChunkLanded(Landed(f, off, a), off + |a|, b) == Landed(f, off, a + b)
  {
    hide Splice;
    var k := PAGE_SIZE - off;
    var upper := Splice(Splice(f, off, a[..k]), UpperAt(a[k - 1]), a[k..k + PAGE_SIZE]);
    var rest := a[k + PAGE_SIZE..];
    assert (a + b)[..k] == a[..k] && (a + b)[k..k + PAGE_SIZE] == a[k..k + PAGE_SIZE];
    assert (a + b)[k + PAGE_SIZE..] == rest + b;
    SpliceTwice(upper, 2 * PAGE_SIZE, rest, b);
    if rest == [] {
      NoSplice(upper, 2 * PAGE_SIZE, rest);
      assert a[k..k + PAGE_SIZE] == a[k..];
    } else {
      SetLater(Splice(upper, 2 * PAGE_SIZE, rest), PAGE_SELECT, 0, off + |a|, b);
    }
  }

  // -------------------------------------------------------------------------
  // Clean writes, and others
  // -------------------------------------------------------------------------

  /** A clean write lands where it should. */
  lemma CleanLands(f: seq<Byte>, off: nat, data: seq<Byte>)
    requires |f| == IMAGE_SIZE && off + |data| <= IMAGE_SIZE && Clean(off, data)
    ensures Landed(f, off, data) == Splice(f, off, data)
  {
    hide Splice;
    if off < PAGE_SIZE < off + |data| {
      var k := PAGE_SIZE - off;
      SpliceTwice(f, off, data[..k], data[k..]);
      assert data[..k] + data[k..] == data;
      if |data| > k + PAGE_SIZE {
        var upper, rest := data[k..k + PAGE_SIZE], data[k + PAGE_SIZE..];
        SpliceTwice(f, off, data[..k], upper);
        SpliceTwice(f, off, data[..k] + upper, rest);
        assert data[..k] + upper + rest == data;
        SpliceAt(f, off, data, PAGE_SELECT);
        NothingToSet(Splice(f, off, data), PAGE_SELECT);
      }
    }
  }

  /** The page register after a complete write. */
  lemma PageAfter(f: seq<Byte>, off: nat, data: seq<Byte>)
    requires |f| == IMAGE_SIZE && f[PAGE_SELECT] == 0 && off + |data| <= IMAGE_SIZE
    ensures Landed(f, off, data)[PAGE_SELECT] ==
            if off <= PAGE_SELECT < off + |data| <= 2 * PAGE_SIZE then data[PAGE_SELECT - off] else 0
  {
    hide Splice;
    if off >= PAGE_SIZE || off + |data| <= PAGE_SIZE {
      SpliceAt(f, off, data, PAGE_SELECT);
    } else {
      var k := PAGE_SIZE - off;
      SpliceAt(f, off, data[..k], PAGE_SELECT);
      if |data| <= k + PAGE_SIZE {
        SpliceAt(Splice(f, off, data[..k]), UpperAt(data[k - 1]), data[k..], PAGE_SELECT);
      }
    }
  }

  /** A write that selects another page and goes on leaves the byte at the start of the upper half alone. */
  lemma FirstUpperMissed(f: seq<Byte>, off: nat, data: seq<Byte>)
    requires |f| == IMAGE_SIZE && off < PAGE_SIZE < off + |data| <= IMAGE_SIZE && !Clean(off, data)
    ensures Landed(f, off, data)[PAGE_SIZE] == f[PAGE_SIZE]
  {
    hide Splice;
    var k := PAGE_SIZE - off;
    var shown := Splice(f, off, data[..k]);
    SpliceAt(f, off, data[..k], PAGE_SIZE);
    if |data| <= k + PAGE_SIZE {
      SpliceAt(shown, UpperAt(data[k - 1]), data[k..], PAGE_SIZE);
    } else {
      SpliceAt(shown, UpperAt(data[k - 1]), data[k..k + PAGE_SIZE], PAGE_SIZE);
      SpliceAt(Splice(shown, UpperAt(data[k - 1]), data[k..k + PAGE_SIZE]), 2 * PAGE_SIZE, data[k + PAGE_SIZE..], PAGE_SIZE);
    }
  }

  /** A memory that shows page 0 and has this byte at the start of every page. */
  function Filled(b: Byte): (m: Memory)
    ensures m.Shape() && m.Page() == 0 && Flat(m)[PAGE_SIZE] == b
  {
    var m := Memory(seq(PAGE_SIZE, _ => 0), seq(PAGES, _ => seq(PAGE_SIZE, _ => b)));
    assert Flat(m)[PAGE_SIZE] == FlatAt(m, PAGE_SIZE);
    m
  }

  /**
   A complete write changes exactly its range of the image, whatever the module held, exactly if it leaves the page
   register alone or ends within the lower half.
   */
  lemma LandsIff(off: nat, data: seq<Byte>)
    requires off + |data| <= IMAGE_SIZE
    ensures (forall m: Memory :: m.Shape() && m.Page() == 0 ==> Landed(Flat(m), off, data) == Splice(Flat(m), off, data))
            <==> Clean(off, data) || off + |data| <= PAGE_SIZE
  {
    hide Splice, Flat;
    if Clean(off, data) || off + |data| <= PAGE_SIZE {
      forall m: Memory | m.Shape() && m.Page() == 0
        ensures Landed(Flat(m), off, data) == Splice(Flat(m), off, data)
      {
        if off + |data| > PAGE_SIZE {
          CleanLands(Flat(m), off, data);
        }
      }
    } else {
      var wanted: int := data[PAGE_SIZE - off];
      var m := Filled((wanted + 1) % 256);
      FirstUpperMissed(Flat(m), off, data);
      SpliceAt(Flat(m), off, data, PAGE_SIZE);
      assert m.Shape() && m.Page() == 0 && Landed(Flat(m), off, data) != Splice(Flat(m), off, data);
    }
  }

  /** Two bytes at offset 127: the second lands at the start of the page that the first one selects. */
  lemma TwoBytes(m: Memory, page: Byte, b: Byte)
    requires m.Shape()
    ensures Landed(Flat(m), PAGE_SELECT, [page, b]) == Flat(m)[PAGE_SELECT := page][UpperAt(page) := b]
  {
    var f := Flat(m);
    assert [page, b][..1] == [page] && [page, b][1..] == [b];
    var g: seq<Byte> := f[PAGE_SELECT := page];
    assert Splice(f, PAGE_SELECT, [page]) == g;
    assert Splice(g, UpperAt(page), [b]) == g[UpperAt(page) := b];
  }
}
