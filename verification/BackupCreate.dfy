/**
 Collecting a backup: lines that name paths to keep, copied with the directories above them, and lines that
 name paths to drop, removed afterwards.
 */
module BackupCreate {
  import opened BackupTree

  const SYSTEM_BACKUP_FILE: Path := ["etc", "default", "system-backup.txt"]
  const USER_BACKUP_FILE: Path := ["etc", "default", "user-backup.txt"]

  // -------------------------------------------------------------------------
  // The result, whatever the order of lines
  // -------------------------------------------------------------------------

  /** Links are not followed, and what does not exist cannot be named. */
  predicate Effective(src: Tree, k: Path) {
    k in src && !src[k].Link?
  }

  ghost predicate Under(src: Tree, ks: set<Path>, p: Path) {
    exists k <- ks :: Effective(src, k) && Covers(k, p)
  }

  ghost predicate Above(src: Tree, ks: set<Path>, p: Path) {
    p != [] && exists k <- ks :: Effective(src, k) && Covers(p, k) && p != k
  }

  ghost function Kept(src: Tree, dst0: Tree, ks: set<Path>): Tree {
    map p | p in src.Keys + dst0.Keys &&
            (p in dst0 || (p in src && (Under(src, ks, p) || Above(src, ks, p)))) ::
      if p in src && (Under(src, ks, p) || p !in dst0) then src[p] else dst0[p]
  }

  ghost function Without(src: Tree, dst: Tree, ds: set<Path>): Tree {
    map p | p in dst && !Under(src, ds, p) :: dst[p]
  }

  function LinesOf(t: Tree, p: Path): seq<string> {
    if IsFile(t, p) then Lines(t[p].content) else []
  }

  /** The lists of the packages are read up to the first that is no file. */
  function PackageKeeps(src: Tree, conffiles: seq<Path>): set<Path> {
    if conffiles == [] || !IsFile(src, conffiles[0]) then {}
    else Keeps(LinesOf(src, conffiles[0])) + PackageKeeps(src, conffiles[1..])
  }

  function AllKeeps(src: Tree, conffiles: seq<Path>): set<Path> {
    PackageKeeps(src, conffiles) + Keeps(LinesOf(src, SYSTEM_BACKUP_FILE)) + Keeps(LinesOf(src, USER_BACKUP_FILE))
  }

  /** The user's list of paths to drop counts only if there is a system list. */
  function AllDrops(src: Tree): set<Path> {
    Drops(LinesOf(src, SYSTEM_BACKUP_FILE)) +
    (if IsFile(src, SYSTEM_BACKUP_FILE) then Drops(LinesOf(src, USER_BACKUP_FILE)) else {})
  }

  ghost function Created(src: Tree, dst0: Tree, conffiles: seq<Path>): Tree {
    Without(src, Kept(src, dst0, AllKeeps(src, conffiles)), AllDrops(src))
  }

  // -------------------------------------------------------------------------
  // The script
  // -------------------------------------------------------------------------

  class Backup {
    const src: Tree
    ghost const dst0: Tree
    var dst: Tree

    ghost predicate Valid()
      reads this
    {
      WellFormed(src) && WellFormed(dst) && WellFormed(dst0) && Compatible(src, dst0) && Compatible(src, dst)
    }

    constructor (src: Tree, dst0: Tree)
      requires WellFormed(src) && WellFormed(dst0) && Compatible(src, dst0)
      ensures Valid() && this.src == src && this.dst0 == dst0 && dst == dst0
    {
      this.src := src;
      this.dst0 := dst0;
      dst := dst0;
    }

    /** Makes a directory and those above it, with the attributes they have in the source. */
    method CpPathWithAttr(p: Path)
      requires Valid() && IsDir(src, p)
      modifies this
      ensures Valid() && dst == WithDirs(src, old(dst), p)
      decreases |p|
    {
      if IsDir(dst, p) {
        DirsThere(src, dst, p);
        return;
      }
      DirsStep(src, dst, p);
      DirsWellFormed(src, dst, p);
      CpPathWithAttr(Parent(p));
      dst := dst[p := Dir(src[p].attr)];
    }

    method AddToBackup(p: Path)
      requires Valid() && p != []
      modifies this
      ensures Valid()
      ensures dst == if Effective(src, p) then Copied(src, old(dst), p) else old(dst)
    {
      if p in src && src[p].Link? {
        return;
      }
      if p !in src {
        return;
      }
      CopiedWellFormed(src, dst, p);
      CpPathWithAttr(Parent(p));
      dst := dst + map q | q in src && Covers(p, q) :: src[q];
    }

    method RemoveFromBackup(p: Path)
      requires Valid() && p != []
      modifies this
      ensures Valid()
      ensures dst == if Effective(src, p) then Removed(old(dst), p) else old(dst)
    {
      if p in src && src[p].Link? {
        return;
      }
      if p !in src {
        return;
      }
      RemovedWellFormed(src, dst, p);
      dst := map q | q in dst && !Covers(p, q) :: dst[q];
    }

    /** A list is read line by line, in either of two modes: paths to keep, or paths to drop. */
    method ParseFile(list: Path, add: bool, ghost ks: set<Path>, ghost base: Tree)
      requires Valid() && NoRoot(LinesOf(src, list))
      requires dst == if add then Kept(src, dst0, ks) else Without(src, base, ks)
      modifies this
      ensures Valid()
      ensures dst == if add then Kept(src, dst0, ks + Keeps(LinesOf(src, list)))
                     else Without(src, base, ks + Drops(LinesOf(src, list)))
    {
      hide Kept, Without, Copied, Removed, Keeps, Drops, Parse, Lines, WellFormed, Compatible, Effective;
      NoLines();
      if !IsFile(src, list) {
        assert ks + {} == ks;
        return;
      }
      var lines := Lines(src[list].content);
      assert lines[..0] == [] && ks + {} == ks;
      for i := 0 to |lines|
        invariant Valid()
        invariant dst == if add then Kept(src, dst0, ks + Keeps(lines[..i])) else Without(src, base, ks + Drops(lines[..i]))
      {
        KeepsOne(lines, i);
        ghost var sofar := ks + if add then Keeps(lines[..i]) else Drops(lines[..i]);
        match Parse(lines[i]) {
          case Keep(p) =>
            if add {
              KeptStep(src, dst0, sofar, p);
              assert ks + Keeps(lines[..i + 1]) == sofar + {p};
              AddToBackup(p);
            }
          case Drop(p) =>
            if !add {
              WithoutStep(src, base, sofar, p);
              assert ks + Drops(lines[..i + 1]) == sofar + {p};
              RemoveFromBackup(p);
            }
          case Other =>
        }
      }
      assert lines[..|lines|] == lines;
    }

    /** Everything to keep is copied before anything is dropped. */
    method CreateBackup(conffiles: seq<Path>)
      requires Valid() && dst == dst0 && ListsOk(src, conffiles)
      modifies this
      ensures Valid() && dst == Created(src, dst0, conffiles)
    {
      hide Kept, Without, Keeps, Drops, WellFormed, Compatible, Lines, NoRoot;
      ghost var ks: set<Path> := {};
      KeptNothing(src, dst0);
      var i := 0;
      while i < |conffiles| && IsFile(src, conffiles[i])
        invariant 0 <= i <= |conffiles|
        invariant Valid() && dst == Kept(src, dst0, ks)
        invariant PackageKeeps(src, conffiles) == ks + PackageKeeps(src, conffiles[i..])
      {
        ParseFile(conffiles[i], true, ks, map[]);
        ks := ks + Keeps(LinesOf(src, conffiles[i]));
        i := i + 1;
      }
      NoLines();
      assert PackageKeeps(src, conffiles) == ks;
      if IsFile(src, SYSTEM_BACKUP_FILE) {
        ParseFile(SYSTEM_BACKUP_FILE, true, ks, map[]);
      }
      assert ks + {} == ks;
      ks := ks + Keeps(LinesOf(src, SYSTEM_BACKUP_FILE));
      if IsFile(src, USER_BACKUP_FILE) {
        ParseFile(USER_BACKUP_FILE, true, ks, map[]);
      }
      assert ks + {} == ks;
      assert dst == Kept(src, dst0, AllKeeps(src, conffiles));
      ghost var base := dst;
      ghost var ds: set<Path> := {};
      WithoutNothing(src, base);
      assert ds + {} == ds;
      if IsFile(src, SYSTEM_BACKUP_FILE) {
        ParseFile(SYSTEM_BACKUP_FILE, false, ds, base);
      }
      ds := ds + Drops(LinesOf(src, SYSTEM_BACKUP_FILE));
      if IsFile(src, SYSTEM_BACKUP_FILE) {
        ParseFile(USER_BACKUP_FILE, false, ds, base);
        ds := ds + Drops(LinesOf(src, USER_BACKUP_FILE));
      }
      assert ds == AllDrops(src);
    }
  }

  lemma NoLines()
    ensures Keeps([]) == {} && Drops([]) == {}
  {}

  lemma KeptNothing(src: Tree, dst0: Tree)
    requires Compatible(src, dst0)
    ensures Kept(src, dst0, {}) == dst0
  {}

  lemma WithoutNothing(src: Tree, dst: Tree)
    ensures Without(src, dst, {}) == dst
  {}

  ghost predicate ListsOk(src: Tree, conffiles: seq<Path>) {
    && NoRoot(LinesOf(src, SYSTEM_BACKUP_FILE)) && NoRoot(LinesOf(src, USER_BACKUP_FILE))
    && forall f <- conffiles :: NoRoot(LinesOf(src, f))
  }

  /** No line of a list names the root directory. */
  ghost predicate NoRoot(lines: seq<string>) {
    forall s <- lines :: Parse(s) != Keep([]) && Parse(s) != Drop([])
  }

  lemma KeepsOne(lines: seq<string>, i: nat)
    requires i < |lines|
    ensures var line := Parse(lines[i]);
            && Keeps(lines[..i + 1]) == (if line.Keep? then Keeps(lines[..i]) + {line.path} else Keeps(lines[..i]))
            && Drops(lines[..i + 1]) == (if line.Drop? then Drops(lines[..i]) + {line.path} else Drops(lines[..i]))
  {
    assert lines[..i + 1] == lines[..i] + [lines[i]];
  }

  // -------------------------------------------------------------------------
  // One line
  // -------------------------------------------------------------------------

  /** The entry and all below it, with the directories above. */
  ghost function Copied(src: Tree, dst: Tree, k: Path): Tree
    requires k != []
  {
    WithDirs(src, dst, Parent(k)) + map q | q in src && Covers(k, q) :: src[q]
  }

  function Removed(dst: Tree, d: Path): Tree {
    map q | q in dst && !Covers(d, q) :: dst[q]
  }

  lemma CopiedWellFormed(src: Tree, dst: Tree, k: Path)
    requires WellFormed(src) && WellFormed(dst) && Compatible(src, dst) && k in src
    ensures k != [] && IsDir(src, Parent(k))
    ensures WellFormed(Copied(src, dst, k)) && Compatible(src, Copied(src, dst, k))
  {
    var mid, t := WithDirs(src, dst, Parent(k)), Copied(src, dst, k);
    DirsWellFormed(src, dst, Parent(k));
    if |k| > 1 { DirsAbove(src, k, Parent(k)); }
    forall q, n: nat | q in t && 0 < n < |q| ensures q[..n] in t && t[q[..n]].Dir? {
      assert Covers(q[..n], q);
      if q in src && Covers(k, q) {
        DirsAbove(src, q, q[..n]);
        CoversLinear(k, q[..n], q);
        CoversParent(q[..n], k);
      } else {
        DirsAbove(mid, q, q[..n]);
      }
    }
  }

  lemma RemovedWellFormed(src: Tree, dst: Tree, d: Path)
    requires WellFormed(dst) && Compatible(src, dst)
    ensures WellFormed(Removed(dst, d)) && Compatible(src, Removed(dst, d))
  {
    var t := Removed(dst, d);
    forall q, n: nat | q in t && 0 < n < |q| ensures q[..n] in t && t[q[..n]].Dir? {
      assert Covers(q[..n], q);
      DirsAbove(dst, q, q[..n]);
      if Covers(d, q[..n]) { CoversTransitive(d, q[..n], q); }
    }
  }

  lemma UnderOne(src: Tree, ks: set<Path>, k: Path, p: Path)
    ensures Under(src, ks + {k}, p) <==> Under(src, ks, p) || (Effective(src, k) && Covers(k, p))
    ensures Above(src, ks + {k}, p) <==> Above(src, ks, p) || (p != [] && Effective(src, k) && Covers(p, k) && p != k)
  {}

  lemma KeptStep(src: Tree, dst0: Tree, ks: set<Path>, k: Path)
    requires k != []
    ensures Kept(src, dst0, ks + {k}) ==
            if Effective(src, k) then Copied(src, Kept(src, dst0, ks), k) else Kept(src, dst0, ks)
  {
    hide Under, Above;
    forall p: Path ensures Covers(p, k) <==> Covers(p, Parent(k)) || p == k { CoversParent(p, k); }
    forall p: Path ensures Under(src, ks + {k}, p) <==> Under(src, ks, p) || (Effective(src, k) && Covers(k, p))
      ensures Above(src, ks + {k}, p) <==> Above(src, ks, p) || (p != [] && Effective(src, k) && Covers(p, k) && p != k)
    {
      UnderOne(src, ks, k, p);
    }
  }

  lemma WithoutStep(src: Tree, dst: Tree, ds: set<Path>, d: Path)
    ensures Without(src, dst, ds + {d}) ==
            if Effective(src, d) then Removed(Without(src, dst, ds), d) else Without(src, dst, ds)
  {
    hide Under;
    forall p: Path ensures Under(src, ds + {d}, p) <==> Under(src, ds, p) || (Effective(src, d) && Covers(d, p)) {
      UnderOne(src, ds, d, p);
    }
  }

  // -------------------------------------------------------------------------
  // Directories
  // -------------------------------------------------------------------------

  /** Missing directories down to this one are added. */
  ghost function WithDirs(src: Tree, dst: Tree, p: Path): Tree {
    dst + map q | q in src && q != [] && Covers(q, p) && q !in dst :: src[q]
  }

  lemma DirsThere(src: Tree, dst: Tree, p: Path)
    requires WellFormed(dst) && IsDir(dst, p)
    ensures WithDirs(src, dst, p) == dst
  {
    forall q | q in src && q != [] && Covers(q, p) ensures q in dst {
      if q != p { DirsAbove(dst, p, q); }
    }
  }

  lemma DirsStep(src: Tree, dst: Tree, p: Path)
    requires WellFormed(src) && WellFormed(dst) && Compatible(src, dst) && IsDir(src, p) && !IsDir(dst, p)
    ensures IsDir(src, Parent(p)) && p !in dst && src[p] == Dir(src[p].attr)
    ensures WithDirs(src, dst, p) == WithDirs(src, dst, Parent(p))[p := src[p]]
  {
    hide WellFormed;
    if |p| > 1 { DirsAbove(src, p, Parent(p)); }
    forall q: Path ensures Covers(q, p) <==> Covers(q, Parent(p)) || q == p {
      CoversParent(q, p);
    }
  }

  lemma DirsWellFormed(src: Tree, dst: Tree, p: Path)
    requires WellFormed(src) && WellFormed(dst) && Compatible(src, dst)
    ensures WellFormed(WithDirs(src, dst, p)) && Compatible(src, WithDirs(src, dst, p))
  {
    var t := WithDirs(src, dst, p);
    forall q, n: nat | q in t && 0 < n < |q| ensures q[..n] in t && t[q[..n]].Dir? {
      assert Covers(q[..n], q);
      if q in dst {
        DirsAbove(dst, q, q[..n]);
      } else {
        DirsAbove(src, q, q[..n]);
        CoversTransitive(q[..n], q, p);
      }
    }
  }
}
