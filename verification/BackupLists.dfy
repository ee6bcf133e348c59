/** What the lines of a list file say: list files and paths that are written down are read back as they were. */
module BackupLists {
  import opened BackupTree
  import opened BackupCreate
  import opened BackupResult

  /** A name of a directory entry. */
  predicate Name(s: string) {
    s != "" && '/' !in s
  }

  /** A path as it is written: a slash before each name. */
  function Written(p: Path): string {
    if p == [] then "" else "/" + p[0] + Written(p[1..])
  }

  lemma {:induction false} SplitName(name: string, rest: string, part: string)
    requires '/' !in name && (rest == "" || rest[0] == '/')
    ensures SplitFrom(name + rest, part) == SplitFrom(rest, part + name)
  {
    if name == "" {
      assert name + rest == rest && part + name == part;
    } else {
      assert (name + rest)[0] == name[0] && (name + rest)[1..] == name[1..] + rest;
      SplitName(name[1..], rest, part + [name[0]]);
      assert part + [name[0]] + name[1..] == part + name;
    }
  }

  /** Whatever part of a name came before, the names of a written path follow. */
  lemma {:induction false} SplitWritten(p: Path, part: string)
    requires forall s <- p :: Name(s)
    ensures SplitFrom(Written(p), part) == (if part == "" then [] else [part]) + p
  {
    if p == [] {
      assert Component(part) + p == Component(part);
    } else {
      assert p[0] in p && Name(p[0]);
      var tail := p[0] + Written(p[1..]);
      assert Written(p) == "/" + p[0] + Written(p[1..]);
      assert Written(p)[0] == '/' && Written(p)[1..] == tail;
      SplitName(p[0], Written(p[1..]), "");
      assert "" + p[0] == p[0];
      SplitWritten(p[1..], p[0]);
      assert [p[0]] + p[1..] == p;
      assert SplitFrom(Written(p), part) == Component(part) + SplitFrom(tail, "");
    }
  }

  /** A line that is a path keeps it, and after a minus sign, with or without its first slash, drops it. */
  lemma LineOfPath(p: Path)
    requires p != [] && forall s <- p :: Name(s)
    ensures Parse(Written(p)) == Keep(p)
    ensures Parse("-" + Written(p)) == Drop(p)
    ensures Parse("-" + Written(p)[1..]) == Drop(p)
  {
    SplitWritten(p, "");
    var w := Written(p);
    assert w[0] == '/' && ("-" + w)[1..] == w && ("-" + w[1..])[1..] == w[1..];
    assert SplitFrom(w, "") == Component("") + SplitFrom(w[1..], "");
  }

  /** Every other line says nothing. */
  lemma LineOfNothing(s: string)
    ensures Parse(s) == Other <==> s == "" || (s[0] != '/' && s[0] != '-')
  {}

  // -------------------------------------------------------------------------
  // Lines
  // -------------------------------------------------------------------------

  function Unlines(lines: seq<string>): string {
    if lines == [] then "" else lines[0] + "\n" + Unlines(lines[1..])
  }

  lemma {:induction false} LinesLine(line: string, rest: string, part: string)
    requires '\n' !in line
    ensures LinesFrom(line + "\n" + rest, part) == [part + line] + LinesFrom(rest, "")
  {
    var s := line + "\n" + rest;
    if line == "" {
      assert s[0] == '\n' && s[1..] == rest && part + line == part;
    } else {
      assert s[0] == line[0] && s[1..] == line[1..] + "\n" + rest;
      LinesLine(line[1..], rest, part + [line[0]]);
      assert part + [line[0]] + line[1..] == part + line;
    }
  }

  lemma {:induction false} LinesTail(tail: string, part: string)
    requires '\n' !in tail
    ensures LinesFrom(tail, part) == []
  {
    if tail != "" {
      LinesTail(tail[1..], part + [tail[0]]);
    }
  }

  /** Lines are read in order; what follows the last newline is not read. */
  lemma {:induction false} LinesOfUnlines(lines: seq<string>, tail: string)
    requires (forall s <- lines :: '\n' !in s) && '\n' !in tail
    ensures Lines(Unlines(lines) + tail) == lines
  {
    if lines == [] {
      assert Unlines(lines) + tail == tail;
      LinesTail(tail, "");
    } else {
      var rest := Unlines(lines[1..]) + tail;
      assert Unlines(lines) + tail == lines[0] + "\n" + rest;
      LinesLine(lines[0], rest, "");
      LinesOfUnlines(lines[1..], tail);
      assert "" + lines[0] == lines[0] && [lines[0]] + lines[1..] == lines;
    }
  }

  // -------------------------------------------------------------------------
  // Files named in a list
  // -------------------------------------------------------------------------

  lemma KeepsListed(lines: seq<string>, p: Path)
    requires p != [] && (forall s <- p :: Name(s)) && Written(p) in lines
    ensures p in Keeps(lines)
  {
    LineOfPath(p);
  }

  lemma DropsListed(lines: seq<string>, p: Path)
    requires p != [] && (forall s <- p :: Name(s)) && "-" + Written(p) in lines
    ensures p in Drops(lines)
  {
    LineOfPath(p);
  }

  /** A list that is read for paths to keep. */
  predicate ReadList(src: Tree, conffiles: seq<Path>, list: Path) {
    || list == ["etc", "default", "system-backup.txt"]
    || list == ["etc", "default", "user-backup.txt"]
    || exists n: nat :: n < |conffiles| && conffiles[n] == list && forall i :: 0 <= i <= n ==> IsFile(src, conffiles[i])
  }

  lemma {:induction false} ReadListKeeps(src: Tree, conffiles: seq<Path>, n: nat)
    requires n < |conffiles| && forall i :: 0 <= i <= n ==> IsFile(src, conffiles[i])
    ensures Keeps(LinesOf(src, conffiles[n])) <= PackageKeeps(src, conffiles)
  {
    if n > 0 {
      ReadListKeeps(src, conffiles[1..], n - 1);
    }
  }

  lemma ReadListCounts(src: Tree, conffiles: seq<Path>, list: Path)
    requires ReadList(src, conffiles, list)
    ensures Keeps(LinesOf(src, list)) <= AllKeeps(src, conffiles)
  {
    hide Keeps;
    if n: nat :| n < |conffiles| && conffiles[n] == list && forall i :: 0 <= i <= n ==> IsFile(src, conffiles[i]) {
      ReadListKeeps(src, conffiles, n);
    }
  }

  /**
   A file at or below a path that is written in some list is in the backup, if neither the system's list nor the
   user's has a line that starts with a minus sign.
   */
  lemma ListedIsKept(src: Tree, dst0: Tree, conffiles: seq<Path>, list: Path, lines: seq<string>, k: Path, p: Path)
    requires WellFormed(src) && WellFormed(dst0) && Compatible(src, dst0) && OnlyDirs(dst0)
    requires k != [] && (forall s <- k :: Name(s)) && Written(k) in lines
    requires (forall s <- lines :: '\n' !in s) && ReadList(src, conffiles, list)
    requires IsFile(src, list) && src[list].content == Unlines(lines)
    requires Effective(src, k) && Covers(k, p) && IsFile(src, p)
    requires forall s <- LinesOf(src, SYSTEM_BACKUP_FILE) + LinesOf(src, USER_BACKUP_FILE) :: s == "" || s[0] != '-'
    ensures var t := Created(src, dst0, conffiles); p in t && t[p] == src[p]
  {
    LinesOfUnlines(lines, "");
    assert Unlines(lines) + "" == Unlines(lines);
    KeepsListed(lines, k);
    ReadListCounts(src, conffiles, list);
    assert Under(src, AllKeeps(src, conffiles), p);
    NoDrops(LinesOf(src, SYSTEM_BACKUP_FILE));
    NoDrops(LinesOf(src, USER_BACKUP_FILE));
    NothingUnder(src);
    assert AllDrops(src) == {};
    BackedUp(src, dst0, conffiles, p);
  }

  lemma NoDrops(lines: seq<string>)
    requires forall s <- lines :: s == "" || s[0] != '-'
    ensures Drops(lines) == {}
  {}

  /**
   A path that is written after a minus sign in the system's list, or in the user's if there is a system list, is not
   in the backup, nor is anything below it.
   */
  lemma DroppedIsGone(src: Tree, dst0: Tree, conffiles: seq<Path>, list: Path, lines: seq<string>, d: Path, p: Path)
    requires d != [] && (forall s <- d :: Name(s)) && "-" + Written(d) in lines
    requires (forall s <- lines :: '\n' !in s) && IsFile(src, ["etc", "default", "system-backup.txt"])
    requires list == ["etc", "default", "system-backup.txt"] || list == ["etc", "default", "user-backup.txt"]
    requires IsFile(src, list) && src[list].content == Unlines(lines)
    requires Effective(src, d) && Covers(d, p)
    ensures p !in Created(src, dst0, conffiles)
  {
    LinesOfUnlines(lines, "");
    assert Unlines(lines) + "" == Unlines(lines);
    DropsListed(lines, d);
    assert Under(src, AllDrops(src), p);
  }
}
