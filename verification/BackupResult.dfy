/** What a backup holds, and how far that is what its documentation says. */
module BackupResult {
  import opened BackupTree
  import opened BackupCreate

  ghost predicate OnlyDirs(t: Tree) {
    forall p <- t :: t[p].Dir?
  }

  /**
   Apart from directories, the backup holds exactly the entries at or below some path to keep and at or below no
   path to drop, as they are in the source.
   */
  lemma BackedUp(src: Tree, dst0: Tree, conffiles: seq<Path>, p: Path)
    requires WellFormed(src) && WellFormed(dst0) && Compatible(src, dst0) && OnlyDirs(dst0)
    ensures var t := Created(src, dst0, conffiles);
            && (p in t && !t[p].Dir? <==> p in src && !src[p].Dir? && Under(src, AllKeeps(src, conffiles), p) &&
                                          !Under(src, AllDrops(src), p))
            && (p in t && !t[p].Dir? ==> t[p] == src[p])
  {
    hide AllKeeps, AllDrops;
    var ks := AllKeeps(src, conffiles);
    if p in src && Above(src, ks, p) {
      var k :| k in ks && Effective(src, k) && Covers(p, k) && p != k;
      DirsAbove(src, k, p);
    }
  }

  /**
   Directories come with the attributes of the source, unless they were there before and are only passed through on
   the way to a path to keep; and everything in the backup lies in a directory of it.
   */
  lemma BackedUpDirs(src: Tree, dst0: Tree, conffiles: seq<Path>, p: Path)
    requires WellFormed(src) && WellFormed(dst0) && Compatible(src, dst0)
    ensures var t := Created(src, dst0, conffiles);
            && WellFormed(t)
            && (p in t && (p !in dst0 || Under(src, AllKeeps(src, conffiles), p)) && p in src ==> t[p] == src[p])
            && (p in t && !(p in src && Under(src, AllKeeps(src, conffiles), p)) && p in dst0 ==> t[p] == dst0[p])
            && (p in t ==> p in src || p in dst0)
  {
    var ks, ds := AllKeeps(src, conffiles), AllDrops(src);
    hide AllKeeps, AllDrops;
    var t := Created(src, dst0, conffiles);
    forall q, n: nat | q in t && 0 < n < |q| ensures q[..n] in t && t[q[..n]].Dir? {
      assert Covers(q[..n], q);
      InDirectory(src, dst0, ks, q, q[..n]);
      if d :| d in ds && Effective(src, d) && Covers(d, q[..n]) {
        CoversTransitive(d, q[..n], q);
      }
    }
  }

  lemma InDirectory(src: Tree, dst0: Tree, ks: set<Path>, q: Path, p: Path)
    requires WellFormed(src) && WellFormed(dst0) && Compatible(src, dst0)
    requires q in Kept(src, dst0, ks) && Covers(p, q) && p != [] && p != q
    ensures p in Kept(src, dst0, ks) && Kept(src, dst0, ks)[p].Dir?
  {
    if q in dst0 {
      DirsAbove(dst0, q, p);
    } else {
      DirsAbove(src, q, p);
      if k :| k in ks && Effective(src, k) && Covers(k, q) {
        CoversLinear(k, p, q);
        assert Under(src, ks, p) || Above(src, ks, p);
      } else {
        var k :| k in ks && Effective(src, k) && Covers(q, k);
        CoversTransitive(p, q, k);
        assert Above(src, ks, p);
      }
    }
  }

  // -------------------------------------------------------------------------
  // Order
  // -------------------------------------------------------------------------

  /** The package lists count up to the first that is no file. */
  lemma {:induction false} PackageKeepsUntil(src: Tree, conffiles: seq<Path>, n: nat)
    requires n <= |conffiles| && (n < |conffiles| ==> !IsFile(src, conffiles[n]))
    requires forall i :: 0 <= i < n ==> IsFile(src, conffiles[i])
    ensures forall k :: k in PackageKeeps(src, conffiles) <==>
                        exists i :: 0 <= i < n && k in Keeps(LinesOf(src, conffiles[i]))
  {
    if n > 0 {
      PackageKeepsUntil(src, conffiles[1..], n - 1);
      forall k
        ensures (exists i :: 0 <= i < n && k in Keeps(LinesOf(src, conffiles[i]))) <==>
                k in Keeps(LinesOf(src, conffiles[0])) ||
                exists i :: 0 <= i < n - 1 && k in Keeps(LinesOf(src, conffiles[1..][i]))
      {
        if i :| 0 < i < n && k in Keeps(LinesOf(src, conffiles[i])) {
          assert conffiles[1..][i - 1] == conffiles[i];
        }
      }
    }
  }

  lemma {:induction false} PackageKeepsAll(src: Tree, conffiles: seq<Path>)
    requires forall f <- conffiles :: IsFile(src, f)
    ensures forall k :: k in PackageKeeps(src, conffiles) <==> exists f <- conffiles :: k in Keeps(LinesOf(src, f))
  {
    if conffiles != [] {
      PackageKeepsAll(src, conffiles[1..]);
    }
  }

  /** The order of the package lists, and that of lines within any list, makes no difference. */
  lemma OrderOfLists(src: Tree, dst0: Tree, conffiles: seq<Path>, others: seq<Path>)
    requires forall f <- conffiles :: IsFile(src, f)
    requires multiset(conffiles) == multiset(others)
    ensures Created(src, dst0, conffiles) == Created(src, dst0, others)
  {
    forall f ensures f in conffiles <==> f in others {
      assert f in multiset(conffiles) <==> f in multiset(others);
    }
    PackageKeepsAll(src, conffiles);
    PackageKeepsAll(src, others);
    assert PackageKeeps(src, conffiles) == PackageKeeps(src, others);
  }

  /** These are the files that are read as lists. */
  predicate IsList(conffiles: seq<Path>, p: Path) {
    p in conffiles || p == SYSTEM_BACKUP_FILE || p == USER_BACKUP_FILE
  }

  /** The same file systems, but for the order of lines in list files. */
  ghost predicate Reordered(src: Tree, other: Tree, conffiles: seq<Path>) {
    && src.Keys == other.Keys
    && forall p <- src ::
         if IsList(conffiles, p) && src[p].File?
         then other[p].File? && multiset(Lines(src[p].content)) == multiset(Lines(other[p].content))
         else other[p] == src[p]
  }

  lemma SameLines(lines: seq<string>, others: seq<string>)
    requires multiset(lines) == multiset(others)
    ensures Keeps(lines) == Keeps(others) && Drops(lines) == Drops(others)
  {
    forall s ensures s in lines <==> s in others {
      assert s in multiset(lines) <==> s in multiset(others);
    }
  }

  lemma SameList(src: Tree, other: Tree, conffiles: seq<Path>, p: Path)
    requires Reordered(src, other, conffiles) && IsList(conffiles, p)
    ensures IsFile(src, p) <==> IsFile(other, p)
    ensures Keeps(LinesOf(src, p)) == Keeps(LinesOf(other, p)) && Drops(LinesOf(src, p)) == Drops(LinesOf(other, p))
  {
    if IsFile(src, p) {
      SameLines(LinesOf(src, p), LinesOf(other, p));
    }
  }

  lemma {:induction false} SamePackageKeeps(src: Tree, other: Tree, conffiles: seq<Path>, rest: seq<Path>)
    requires Reordered(src, other, conffiles) && forall p <- rest :: p in conffiles
    ensures PackageKeeps(src, rest) == PackageKeeps(other, rest)
  {
    if rest != [] {
      SameList(src, other, conffiles, rest[0]);
      SamePackageKeeps(src, other, conffiles, rest[1..]);
    }
  }

  /** Sources that differ in the order of lines of their lists give backups that differ in these lists only. */
  lemma OrderOfLines(src: Tree, other: Tree, dst0: Tree, conffiles: seq<Path>)
    requires Reordered(src, other, conffiles)
    ensures var t, u := Created(src, dst0, conffiles), Created(other, dst0, conffiles);
            t.Keys == u.Keys && forall p <- t :: IsList(conffiles, p) || t[p] == u[p]
  {
    SamePackageKeeps(src, other, conffiles, conffiles);
    SameList(src, other, conffiles, SYSTEM_BACKUP_FILE);
    SameList(src, other, conffiles, USER_BACKUP_FILE);
    SameResult(src, other, dst0, conffiles, AllKeeps(src, conffiles), AllDrops(src));
  }

  lemma SameResult(src: Tree, other: Tree, dst0: Tree, conffiles: seq<Path>, ks: set<Path>, ds: set<Path>)
    requires Reordered(src, other, conffiles)
    ensures var t, u := Without(src, Kept(src, dst0, ks), ds), Without(other, Kept(other, dst0, ks), ds);
            t.Keys == u.Keys && forall p <- t :: IsList(conffiles, p) || t[p] == u[p]
  {
    forall p: Path ensures Effective(src, p) <==> Effective(other, p) {}
    forall p: Path
      ensures Under(src, ks, p) <==> Under(other, ks, p)
      ensures Above(src, ks, p) <==> Above(other, ks, p)
      ensures Under(src, ds, p) <==> Under(other, ds, p)
    {}
    hide Under, Above, Effective;
  }

  // -------------------------------------------------------------------------
  // The user's list of paths to drop
  // -------------------------------------------------------------------------

  /** As documented: both lists of paths to drop always count. */
  ghost function Documented(src: Tree, dst0: Tree, conffiles: seq<Path>): Tree {
    Without(src, Kept(src, dst0, AllKeeps(src, conffiles)),
            Drops(LinesOf(src, SYSTEM_BACKUP_FILE)) + Drops(LinesOf(src, USER_BACKUP_FILE)))
  }

  /**
   One of these paths to drop exists, and is below or above a path to keep that exists, or above something that the
   backup directory held before.
   */
  ghost predicate Concerns(src: Tree, dst0: Tree, ks: set<Path>, ds: set<Path>) {
    exists d <- ds :: Effective(src, d) && Hits(src, dst0, ks, d)
  }

  ghost predicate Hits(src: Tree, dst0: Tree, ks: set<Path>, d: Path) {
    || (exists k <- ks :: Effective(src, k) && (Covers(d, k) || Covers(k, d)))
    || (exists p <- dst0 :: Covers(d, p))
  }

  /** A path to drop removes something exactly if it hits a path to keep or something that was there. */
  lemma HitsIff(src: Tree, dst0: Tree, ks: set<Path>, d: Path)
    requires Effective(src, d)
    ensures Hits(src, dst0, ks, d) <==> exists p <- Kept(src, dst0, ks) :: Covers(d, p)
  {
    var kept := Kept(src, dst0, ks);
    if p :| p in kept && Covers(d, p) {
      if k :| k in ks && Effective(src, k) && Covers(k, p) {
        CoversLinear(d, k, p);
      } else if k :| k in ks && Effective(src, k) && Covers(p, k) {
        CoversTransitive(d, p, k);
      }
    }
    if k :| k in ks && Effective(src, k) && Covers(k, d) {
      assert Under(src, ks, d) && d in kept && Covers(d, d);
    }
    if k :| k in ks && Effective(src, k) && Covers(d, k) {
      assert Under(src, ks, k) && k in kept;
    }
    if p :| p in dst0 && Covers(d, p) {
      assert p in kept;
    }
  }

  lemma DropsNothingIff(src: Tree, dst0: Tree, ks: set<Path>, ds: set<Path>)
    ensures Without(src, Kept(src, dst0, ks), ds) == Kept(src, dst0, ks) <==> !Concerns(src, dst0, ks, ds)
  {
    hide Kept, Hits;
    var kept := Kept(src, dst0, ks);
    forall d <- ds | Effective(src, d) ensures Hits(src, dst0, ks, d) <==> exists p <- kept :: Covers(d, p) {
      HitsIff(src, dst0, ks, d);
    }
    if d :| d in ds && Effective(src, d) && Hits(src, dst0, ks, d) {
      var p :| p in kept && Covers(d, p);
      assert Under(src, ds, p) && p !in Without(src, kept, ds);
    } else {
      forall p <- kept ensures !Under(src, ds, p) {}
    }
  }

  /**
   The user's paths to drop are honoured exactly if there is a system list, or none of them concerns a path to keep
   or anything that was in the backup directory.
   */
  lemma UserDropsHonoured(src: Tree, dst0: Tree, conffiles: seq<Path>)
    ensures Created(src, dst0, conffiles) == Documented(src, dst0, conffiles) <==>
            IsFile(src, SYSTEM_BACKUP_FILE) ||
            !Concerns(src, dst0, AllKeeps(src, conffiles), Drops(LinesOf(src, USER_BACKUP_FILE)))
  {
    hide Kept, Under, AllKeeps, Lines, Concerns;
    if !IsFile(src, SYSTEM_BACKUP_FILE) {
      var user := Drops(LinesOf(src, USER_BACKUP_FILE));
      NoLines();
      assert AllDrops(src) == {} && {} + user == user;
      NothingUnder(src);
      assert Created(src, dst0, conffiles) == Kept(src, dst0, AllKeeps(src, conffiles));
      DropsNothingIff(src, dst0, AllKeeps(src, conffiles), user);
    }
  }

  /** The installer supplies a system list where there is none, and so the user's paths to drop are honoured. */
  lemma InstallerHonours(src: Tree, list: Node, dst0: Tree, conffiles: seq<Path>)
    requires list.File?
    ensures var supplied := if IsFile(src, SYSTEM_BACKUP_FILE) then src else src[SYSTEM_BACKUP_FILE := list];
            Created(supplied, dst0, conffiles) == Documented(supplied, dst0, conffiles)
  {
    UserDropsHonoured(if IsFile(src, SYSTEM_BACKUP_FILE) then src else src[SYSTEM_BACKUP_FILE := list], dst0, conffiles);
  }

  lemma NothingUnder(src: Tree)
    ensures forall p :: !Under(src, {}, p)
  {}

  /** Without a system list, an entry that the user lists both to keep and to drop is kept. */
  lemma UserDropIgnored(src: Tree, dst0: Tree, conffiles: seq<Path>, p: Path)
    requires Effective(src, p) && !IsFile(src, SYSTEM_BACKUP_FILE)
    requires p in Keeps(LinesOf(src, USER_BACKUP_FILE)) && p in Drops(LinesOf(src, USER_BACKUP_FILE))
    ensures p in Created(src, dst0, conffiles) && p !in Documented(src, dst0, conffiles)
  {
    hide Keeps, Drops, Lines, PackageKeeps;
    NoLines();
    NothingUnder(src);
    assert Under(src, AllKeeps(src, conffiles), p);
  }

  lemma ListLines()
    ensures Lines("-a\n/a\n") == ["-a", "/a"]
  {
    assert "-a\n/a\n"[1..] == "a\n/a\n" && "a\n/a\n"[1..] == "\n/a\n" && "\n/a\n"[1..] == "/a\n";
    assert "/a\n"[1..] == "a\n" && "a\n"[1..] == "\n" && "\n"[1..] == "";
    assert "" + ['/'] == "/" && "/" + ['a'] == "/a" && "" + ['-'] == "-" && "-" + ['a'] == "-a";
    assert LinesFrom("/a\n", "") == LinesFrom("a\n", "/");
    assert LinesFrom("a\n", "/") == LinesFrom("\n", "/a");
    assert LinesFrom("\n", "/a") == ["/a"] + LinesFrom("", "");
    assert LinesFrom("-a\n/a\n", "") == LinesFrom("a\n/a\n", "-");
    assert LinesFrom("a\n/a\n", "-") == LinesFrom("\n/a\n", "-a");
  }

  lemma ListParse()
    ensures Parse("-a") == Drop(["a"]) && Parse("/a") == Keep(["a"])
  {
    assert "a"[1..] == "" && "/a"[1..] == "a" && "-a"[1..] == "a" && "" + ['a'] == "a";
    assert SplitFrom("a", "") == SplitFrom("", "a");
    assert Split("/a") == Component("") + SplitFrom("a", "");
  }

  /** Such an entry, in a file system whose user list holds just these two lines. */
  lemma UserDropIgnoredInstance()
    ensures var src: Tree := map[["a"] := File("", 0), ["etc"] := Dir(0), ["etc", "default"] := Dir(0),
                                 USER_BACKUP_FILE := File("-a\n/a\n", 0)];
            ["a"] in Created(src, map[], []) && ["a"] !in Documented(src, map[], [])
  {
    var src: Tree := map[["a"] := File("", 0), ["etc"] := Dir(0), ["etc", "default"] := Dir(0),
                         USER_BACKUP_FILE := File("-a\n/a\n", 0)];
    hide Parse, Lines;
    ListLines();
    ListParse();
    var lines := ["-a", "/a"];
    assert LinesOf(src, USER_BACKUP_FILE) == lines;
    assert "-a" in lines && "/a" in lines;
    UserDropIgnored(src, map[], [], ["a"]);
  }
}
