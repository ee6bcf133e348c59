/** What a restored target holds: the backup, and every target file that had to give way. */
module BackupConserved {
  import opened BackupTree
  import opened BackupCreate
  import opened BackupResult
  import opened BackupRestore

  /** The backup has the old configuration of one FRR daemon and no integrated one. */
  predicate Legacy(backup: Tree) {
    IsFile(backup, ZEBRA) && !IsFile(backup, FRR)
  }

  function AsideOf(f: Path): Path
    requires f != []
  {
    Suffixed(f, SuffixFor(f))
  }

  /** The suffixed names that are needed are free. */
  ghost predicate NoCollisions(backup: Tree, target: Tree) {
    forall f <- backup :: f != [] && Differs(backup, target, f) ==> AsideOf(f) !in target && AsideOf(f) !in backup
  }

  ghost predicate Enumerates(files: seq<Path>, backup: Tree) {
    && (forall f :: f in files <==> IsFile(backup, f))
    && (forall i, j :: 0 <= i < j < |files| ==> files[i] != files[j])
  }

  // -------------------------------------------------------------------------
  // Suffixed names
  // -------------------------------------------------------------------------

  lemma SuffixesDiffer(a: string, b: string)
    ensures a + "-default" != b + ".default"
  {
    assert (a + "-default")[|a + "-default"| - 8] == '-';
    assert (b + ".default")[|b + ".default"| - 8] == '.';
  }

  lemma SameSuffix(a: string, b: string, s: string)
    requires a + s == b + s
    ensures a == b
  {
    assert a == (a + s)[..|a + s| - |s|];
    assert b == (b + s)[..|b + s| - |s|];
  }

  lemma AsidesDiffer(f: Path, g: Path)
    requires f != [] && g != [] && AsideOf(f) == AsideOf(g)
    ensures f == g
  {
    var n := |f| - 1;
    assert |AsideOf(f)| == |f| && |AsideOf(g)| == |g|;
    assert Parent(f) == AsideOf(f)[..n] && Parent(g) == AsideOf(g)[..n];
    assert f == Parent(f) + [f[n]] && g == Parent(g) + [g[n]];
    assert f[n] + SuffixFor(f) == AsideOf(f)[n] && g[n] + SuffixFor(g) == AsideOf(g)[n];
    if SuffixFor(f) == SuffixFor(g) {
      SameSuffix(f[n], g[n], SuffixFor(f));
    } else if SuffixFor(f) == "-default" {
      SuffixesDiffer(f[n], g[n]);
    } else {
      SuffixesDiffer(g[n], f[n]);
    }
  }

  // -------------------------------------------------------------------------
  // Renaming
  // -------------------------------------------------------------------------

  ghost predicate Surviving(backup: Tree, t0: Tree, files: seq<Path>, t: Tree)
    requires [] !in files
  {
    forall f <- files :: Differs(backup, t0, f) ==> AsideOf(f) in t && t[AsideOf(f)] == t0[f] && f !in t
  }

  ghost predicate Untouched(backup: Tree, t0: Tree, files: seq<Path>, t: Tree) {
    forall p <- t0 :: !(p in files && Differs(backup, t0, p)) ==> p in t && t[p] == t0[p]
  }

  ghost predicate NothingElse(backup: Tree, t0: Tree, files: seq<Path>, t: Tree)
    requires [] !in files
  {
    forall p <- t :: p in t0 || exists f <- files :: Differs(backup, t0, f) && p == AsideOf(f)
  }

  /** The target after the differing ones of these files were renamed. */
  ghost predicate SetAside(backup: Tree, t0: Tree, files: seq<Path>, t: Tree)
    requires [] !in files
  {
    Surviving(backup, t0, files, t) && Untouched(backup, t0, files, t) && NothingElse(backup, t0, files, t)
  }

  lemma {:induction false} Renaming(backup: Tree, t0: Tree, files: seq<Path>)
    requires [] !in files && NoCollisions(backup, t0) && !Legacy(backup)
    requires forall f <- files :: IsFile(backup, f)
    requires forall i, j :: 0 <= i < j < |files| ==> files[i] != files[j]
    ensures var r := RenameAll(backup, t0, files); r.ok && SetAside(backup, t0, files, r.target)
  {
    if files != [] {
      var n := |files| - 1;
      Renaming(backup, t0, files[..n]);
      assert [] !in files[..n];
      RenamingOne(backup, t0, files[..n], files[n], RenameAll(backup, t0, files[..n]));
      assert files[..n] + [files[n]] == files;
    }
  }

  lemma RenamingOne(backup: Tree, t0: Tree, files: seq<Path>, f: Path, r: Run)
    requires [] !in files && f != [] && NoCollisions(backup, t0) && !Legacy(backup)
    requires (forall g <- files :: IsFile(backup, g)) && IsFile(backup, f) && f !in files
    requires r.ok && SetAside(backup, t0, files, r.target)
    ensures var r' := RenameOne(backup, r, f); r'.ok && SetAside(backup, t0, files + [f], r'.target)
  {
    hide SetAside, NoCollisions, AsideOf, SuffixFor;
    StillDiffers(backup, t0, files, f, r.target);
    if Differs(backup, t0, f) {
      assert RenameOne(backup, r, f) == Move(r.(suffix := SuffixFor(f)), f, AsideOf(f)) by { IsAside(f); }
      MovedAside(backup, t0, files, f, r.target);
    } else {
      NotMoved(backup, t0, files, f, r.target);
    }
  }

  lemma IsAside(f: Path)
    requires f != []
    ensures AsideOf(f) == Suffixed(f, SuffixFor(f))
  {}

  lemma StillDiffers(backup: Tree, t0: Tree, files: seq<Path>, f: Path, t: Tree)
    requires [] !in files && f != [] && NoCollisions(backup, t0)
    requires (forall g <- files :: IsFile(backup, g)) && IsFile(backup, f) && f !in files
    requires SetAside(backup, t0, files, t)
    ensures Differs(backup, t, f) <==> Differs(backup, t0, f)
  {
    hide AsideOf;
  }

  lemma NotMoved(backup: Tree, t0: Tree, files: seq<Path>, f: Path, t: Tree)
    requires [] !in files && f != [] && SetAside(backup, t0, files, t) && !Differs(backup, t0, f)
    ensures SetAside(backup, t0, files + [f], t)
  {
    hide AsideOf, Differs;
  }

  lemma MovedAside(backup: Tree, t0: Tree, files: seq<Path>, f: Path, t: Tree)
    requires [] !in files && f != [] && NoCollisions(backup, t0)
    requires (forall g <- files :: IsFile(backup, g)) && IsFile(backup, f) && f !in files
    requires SetAside(backup, t0, files, t) && Differs(backup, t0, f)
    ensures f in t && f != AsideOf(f)
    ensures SetAside(backup, t0, files + [f], (t - {f})[AsideOf(f) := t[f]])
  {
    Apart(backup, t0, f);
    assert f in t && t[f] == t0[f] by { hide AsideOf, Surviving, NothingElse; }
    MovedSurviving(backup, t0, files, f, t);
    MovedElse(backup, t0, files, f, t);
    hide AsideOf, Surviving, NothingElse, Differs;
  }

  lemma MovedSurviving(backup: Tree, t0: Tree, files: seq<Path>, f: Path, t: Tree)
    requires [] !in files && f != [] && NoCollisions(backup, t0)
    requires (forall g <- files :: IsFile(backup, g)) && IsFile(backup, f) && f !in files
    requires Surviving(backup, t0, files, t) && Differs(backup, t0, f) && f in t && t[f] == t0[f]
    ensures Surviving(backup, t0, files + [f], (t - {f})[AsideOf(f) := t[f]])
  {
    Apart(backup, t0, f);
    forall g <- files | Differs(backup, t0, g) ensures AsideOf(g) != AsideOf(f) && AsideOf(g) != f && AsideOf(f) != g {
      if AsideOf(g) == AsideOf(f) { AsidesDiffer(f, g); }
      Apart(backup, t0, g);
    }
    hide AsideOf, Differs;
  }

  lemma MovedElse(backup: Tree, t0: Tree, files: seq<Path>, f: Path, t: Tree)
    requires [] !in files && f != [] && NothingElse(backup, t0, files, t) && Differs(backup, t0, f) && f in t
    ensures NothingElse(backup, t0, files + [f], (t - {f})[AsideOf(f) := t[f]])
  {
    hide AsideOf, Differs;
    var t' := (t - {f})[AsideOf(f) := t[f]];
    forall p <- t' ensures p in t0 || exists g <- files + [f] :: Differs(backup, t0, g) && p == AsideOf(g) {
      if p == AsideOf(f) {
        assert f in files + [f];
      } else if p !in t0 {
        var g :| g in files && Differs(backup, t0, g) && p == AsideOf(g);
        assert g in files + [f];
      }
    }
  }

  lemma Apart(backup: Tree, t0: Tree, f: Path)
    requires f != [] && NoCollisions(backup, t0) && Differs(backup, t0, f)
    ensures f in t0 && f != AsideOf(f) && AsideOf(f) !in t0 && AsideOf(f) !in backup
  {}

  // -------------------------------------------------------------------------
  // Main results
  // -------------------------------------------------------------------------

  /**
   What a restore promises: it completes, the backup is in place except for hidden entries at the top, every target
   file that differed has survived under its other name, everything else is as it was, and nothing else appears.
   */
  ghost predicate Conserved(backup: Tree, target: Tree, files: seq<Path>)
    requires [] !in files
  {
    var r := RenameAll(backup, target, files);
    var t := r.target + Shown(backup);
    && r.ok
    && (forall p <- backup :: !Hidden(p) ==> p in t && t[p] == backup[p])
    && (forall f <- backup :: f != [] && Differs(backup, target, f) ==> AsideOf(f) in t && t[AsideOf(f)] == target[f])
    && (forall p <- target :: p !in backup ==> p in t && t[p] == target[p])
    && (forall p <- t :: p in target || p in backup ||
                         exists f <- backup :: f != [] && Differs(backup, target, f) && p == AsideOf(f))
  }

  /** In whatever order the files are found, unless the backup holds legacy FRR configuration, all is conserved. */
  lemma RestoreConserves(backup: Tree, target: Tree, files: seq<Path>)
    requires [] !in backup && Enumerates(files, backup) && NoCollisions(backup, target) && !Legacy(backup)
    ensures [] !in files && Conserved(backup, target, files)
  {
    Renaming(backup, target, files);
    var t := RenameAll(backup, target, files).target + Shown(backup);
    forall f <- backup | Differs(backup, target, f) ensures f in files && AsideOf(f) !in Shown(backup) {
      assert AsideOf(f) !in backup;
    }
  }

  /** A differing file below etc/sudoers.d survives under a name that sudo does not read. */
  lemma SudoersSurvivor(backup: Tree, target: Tree, files: seq<Path>, rest: Path, name: string)
    requires [] !in files && Conserved(backup, target, files)
    requires var p := ["etc", "sudoers.d"] + rest + [name]; Differs(backup, target, p)
    ensures var t := RenameAll(backup, target, files).target + Shown(backup);
            var p := ["etc", "sudoers.d"] + rest + [name];
            var q := ["etc", "sudoers.d"] + rest + [name + ".default"];
            q in t && t[q] == target[p]
  {
    var p := ["etc", "sudoers.d"] + rest + [name];
    assert p[0] == "etc" && p[1] == "sudoers.d" && Parent(p) == ["etc", "sudoers.d"] + rest;
    assert AsideOf(p) == ["etc", "sudoers.d"] + rest + [name + ".default"];
  }

  lemma InSudoers(dir: Path)
    ensures |dir| >= 2 && dir[0] == "etc" && dir[1] == "sudoers.d" ==> ["etc", "sudoers.d"] <= dir
  {}

  /** Every other differing file survives under its name with another ending. */
  lemma OtherSurvivor(backup: Tree, target: Tree, files: seq<Path>, dir: Path, name: string)
    requires [] !in files && Conserved(backup, target, files)
    requires !(["etc", "sudoers.d"] <= dir) && Differs(backup, target, dir + [name])
    ensures var t := RenameAll(backup, target, files).target + Shown(backup);
            dir + [name + "-default"] in t && t[dir + [name + "-default"]] == target[dir + [name]]
  {
    var p := dir + [name];
    assert Parent(p) == dir;
    InSudoers(dir);
    assert AsideOf(p) == dir + [name + "-default"];
  }

  /** What is below a top-level name without a leading dot is in place; other names are not touched by the copy. */
  lemma InPlace(backup: Tree, target: Tree, files: seq<Path>, top: string, rest: Path)
    requires [] !in files && Conserved(backup, target, files) && [top] + rest in backup
    ensures var t := RenameAll(backup, target, files).target + Shown(backup);
            if top == "" || top[0] != '.' then [top] + rest in t && t[[top] + rest] == backup[[top] + rest]
            else [top] + rest !in Shown(backup)
  {
    assert ([top] + rest)[0] == top;
  }

  /** A file kept from the old system is in the new one as it was. */
  lemma UpgradeKeeps(src: Tree, dst0: Tree, conffiles: seq<Path>, backup: Tree, target: Tree, files: seq<Path>, p: Path)
    requires WellFormed(src) && WellFormed(dst0) && Compatible(src, dst0) && OnlyDirs(dst0)
    requires IsFile(src, p) && !Hidden(p)
    requires Under(src, AllKeeps(src, conffiles), p) && !Under(src, AllDrops(src), p)
    requires var c := Created(src, dst0, conffiles); p in c ==> p in backup && backup[p] == c[p]
    requires [] !in backup && Enumerates(files, backup) && NoCollisions(backup, target) && !Legacy(backup)
    ensures [] !in files
    ensures var t := RenameAll(backup, target, files).target + Shown(backup); p in t && t[p] == src[p]
  {
    hide Created, Under, AllKeeps, AllDrops, RenameAll, NoCollisions, Enumerates;
    BackedUp(src, dst0, conffiles, p);
    RestoreConserves(backup, target, files);
  }

  // -------------------------------------------------------------------------
  // Legacy configuration
  // -------------------------------------------------------------------------

  /** Whether the target's integrated configuration is there, before and after the branch has been taken. */
  ghost predicate Standing(t0: Tree, r: Run, done: bool) {
    (FRR in r.target ==> FRR in t0) && (done ==> FRR in t0 && FRR !in r.target)
  }

  lemma AsideIsNotConf(f: Path)
    requires f != []
    ensures AsideOf(f) != FRR && AsideOf(f) != VTYSH
  {
    var n := |f| - 1;
    assert AsideOf(f)[n] == f[n] + SuffixFor(f);
    assert AsideOf(f)[n][|AsideOf(f)[n]| - 1] == 't';
    assert FRR[2][|FRR[2]| - 1] == 'f' && VTYSH[2][|VTYSH[2]| - 1] == 'f';
  }

  lemma StandingStep(backup: Tree, t0: Tree, r: Run, f: Path, done: bool)
    requires Legacy(backup) && IsFile(backup, f) && f != [] && r.ok && Standing(t0, r, done)
    ensures var r' := RenameOne(backup, r, f); r'.ok ==> Standing(t0, r', done || f == ZEBRA)
  {
    hide Suffixed, AsideOf;
    AsideIsNotConf(f);
    IsAside(f);
  }

  lemma {:induction false} StandingRun(backup: Tree, t0: Tree, files: seq<Path>)
    requires Legacy(backup) && [] !in files && forall f <- files :: IsFile(backup, f)
    ensures var r := RenameAll(backup, t0, files); r.ok ==> Standing(t0, r, ZEBRA in files)
  {
    if files != [] {
      var n := |files| - 1;
      StandingRun(backup, t0, files[..n]);
      var r := RenameAll(backup, t0, files[..n]);
      assert files == files[..n] + [files[n]];
      if r.ok {
        StandingStep(backup, t0, r, files[n], ZEBRA in files[..n]);
      }
    }
  }

  /** In whatever order the files are found, all is conserved exactly if there is no legacy configuration. */
  lemma ConservedIff(backup: Tree, target: Tree, files: seq<Path>)
    requires [] !in backup && Enumerates(files, backup) && NoCollisions(backup, target)
    requires FRR in backup ==> backup[FRR].File?
    ensures [] !in files
    ensures Conserved(backup, target, files) <==>
            !IsFile(backup, ["etc", "frr", "zebra.conf"]) || IsFile(backup, ["etc", "frr", "frr.conf"])
  {
    if Legacy(backup) {
      StandingRun(backup, target, files);
    } else {
      RestoreConserves(backup, target, files);
    }
  }

  /** The integrated configuration is gone, and its other name holds what was another file. */
  ghost predicate Overwritten(t0: Tree, t: Tree, s: string) {
    FRR !in t && VTYSH in t0 && Suffixed(FRR, s) in t && t[Suffixed(FRR, s)] == t0[VTYSH]
  }

  predicate Suffix(s: string) {
    s == "-default" || s == ".default"
  }

  ghost predicate LegacyDone(t0: Tree, r: Run) {
    exists s :: Suffix(s) && Overwritten(t0, r.target, s)
  }

  /** Before and after the branch for legacy configuration has been taken. */
  ghost predicate LegacyInv(t0: Tree, r: Run, done: bool) {
    && (r.suffix == "" || Suffix(r.suffix))
    && (VTYSH in r.target ==> VTYSH in t0 && r.target[VTYSH] == t0[VTYSH])
    && (done ==> LegacyDone(t0, r))
  }

  lemma AsideIsNew(f: Path, s: string)
    requires f != [] && f != FRR && Suffix(s)
    ensures AsideOf(f) != FRR && AsideOf(f) != VTYSH && AsideOf(f) != Suffixed(FRR, s)
  {
    AsideIsNotConf(f);
    var n := |f| - 1;
    assert f == Parent(f) + [f[n]];
    assert AsideOf(f)[n] == f[n] + SuffixFor(f);
    if AsideOf(f) == Suffixed(FRR, s) {
      assert |f| == 3 && AsideOf(f)[0] == f[0] && AsideOf(f)[1] == f[1];
      if s == "-default" { SameSuffix(f[2], FRR[2], s); } else { SuffixesDiffer(f[2], FRR[2]); }
    }
  }

  lemma LegacyStep(backup: Tree, t0: Tree, r: Run, f: Path, done: bool)
    requires Legacy(backup) && IsFile(backup, f) && f != [] && f != FRR
    requires forall s :: Suffix(s) ==> Suffixed(FRR, s) !in backup
    requires r.ok && LegacyInv(t0, r, done)
    ensures var r' := RenameOne(backup, r, f); r'.ok ==> LegacyInv(t0, r', done || f == ZEBRA)
  {
    hide Suffixed, AsideOf;
    var r1 := if f == ZEBRA then DisableIntegrated(r) else r;
    if f == ZEBRA && r1.ok {
      DisablingOverwrites(t0, r);
      assert Suffix(r.suffix) && Overwritten(t0, r1.target, r.suffix);
    }
    if r1.ok && Differs(backup, r1.target, f) {
      forall s | Suffix(s) ensures AsideOf(f) != Suffixed(FRR, s) && AsideOf(f) != FRR && AsideOf(f) != VTYSH {
        AsideIsNew(f, s);
      }
      IsAside(f);
      assert Suffix(SuffixFor(f)) && AsideOf(f) != VTYSH by { AsideIsNew(f, "-default"); }
      if RenameOne(backup, r, f).ok && (done || f == ZEBRA) {
        var s :| Suffix(s) && Overwritten(t0, r1.target, s);
        AsideIsNew(f, s);
        StaysOverwritten(t0, r1.target, s, f, AsideOf(f));
      }
    }
  }

  lemma StaysOverwritten(t0: Tree, t: Tree, s: string, a: Path, b: Path)
    requires Overwritten(t0, t, s) && a in t && a != Suffixed(FRR, s) && b != Suffixed(FRR, s) && b != FRR
    ensures Overwritten(t0, (t - {a})[b := t[a]], s)
  {
    hide Suffixed;
  }

  lemma DisablingOverwrites(t0: Tree, r: Run)
    requires r.ok && LegacyInv(t0, r, false) && DisableIntegrated(r).ok
    ensures Suffix(r.suffix) && Overwritten(t0, DisableIntegrated(r).target, r.suffix)
    ensures VTYSH !in DisableIntegrated(r).target
  {
    assert Suffixed(FRR, "") == FRR by {
      assert FRR[2] + "" == FRR[2];
    }
  }

  lemma {:induction false} LegacyRun(backup: Tree, t0: Tree, files: seq<Path>)
    requires Legacy(backup) && [] !in files && forall f <- files :: IsFile(backup, f)
    requires forall s :: Suffix(s) ==> Suffixed(FRR, s) !in backup
    ensures var r := RenameAll(backup, t0, files); r.ok ==> LegacyInv(t0, r, ZEBRA in files)
  {
    if files != [] {
      var n := |files| - 1;
      LegacyRun(backup, t0, files[..n]);
      var r := RenameAll(backup, t0, files[..n]);
      assert files == files[..n] + [files[n]];
      if r.ok {
        LegacyStep(backup, t0, r, files[n], ZEBRA in files[..n]);
      }
    }
  }

  /**
   With legacy configuration in the backup, restoring either stops half-way, or the target ends without the
   integrated configuration that it had: what bears its other name is the other file.
   */
  lemma LegacyLoses(backup: Tree, target: Tree, files: seq<Path>)
    requires Legacy(backup) && [] !in backup && Enumerates(files, backup) && FRR !in backup
    requires forall s :: Suffix(s) ==> Suffixed(FRR, s) !in backup
    ensures [] !in files
    ensures var r := RenameAll(backup, target, files);
            var t := r.target + Shown(backup);
            r.ok ==>
              && ["etc", "frr", "frr.conf"] in target && ["etc", "frr", "frr.conf"] !in t
              && ["etc", "frr", "vtysh.conf"] in target
              && exists s <- {"-default", ".default"} ::
                   ["etc", "frr", "frr.conf" + s] in t && t[["etc", "frr", "frr.conf" + s]] == target[["etc", "frr", "vtysh.conf"]]
  {
    StandingRun(backup, target, files);
    LegacyRun(backup, target, files);
    var r := RenameAll(backup, target, files);
    if r.ok {
      var s :| Suffix(s) && Overwritten(target, r.target, s);
      assert Overwritten(target, r.target + Shown(backup), s);
      assert s in {"-default", ".default"} && Suffixed(FRR, s) == ["etc", "frr", "frr.conf" + s];
    }
  }

  /** A file that differs and is found first makes the suffix; then both files go to the one name. */
  lemma LegacyCompletes(backup: Tree, target: Tree, f: Path)
    requires Legacy(backup) && f != [] && f != FRR && f != VTYSH && f != ZEBRA && Differs(backup, target, f)
    requires FRR in target && VTYSH in target && ZEBRA !in target
    requires AsideOf(f) != f && AsideOf(f) != ZEBRA && Suffix(SuffixFor(f))
    ensures RenameAll(backup, target, [f, ZEBRA]).ok
  {
    AsideIsNotConf(f);
    IsAside(f);
    hide AsideOf, SuffixFor;
    assert [f, ZEBRA][..1] == [f] && [f][..0] == [];
    assert RenameAll(backup, target, []) == Run(target, "", true);
    var r := RenameAll(backup, target, [f]);
    assert r == Run((target - {f})[AsideOf(f) := target[f]], SuffixFor(f), true);
    SuffixMoves(r.suffix);
    assert ZEBRA !in DisableIntegrated(r).target;
  }

  lemma SuffixMoves(s: string)
    requires Suffix(s)
    ensures Suffixed(FRR, s) != FRR && Suffixed(FRR, s) != VTYSH && Suffixed(FRR, s) != ZEBRA
  {
    var name := FRR[2] + s;
    assert Suffixed(FRR, s)[2] == name && name[|name| - 1] == 't';
    assert FRR[2][|FRR[2]| - 1] == 'f' && VTYSH[2][|VTYSH[2]| - 1] == 'f' && ZEBRA[2][|ZEBRA[2]| - 1] == 'f';
  }

  const LEGACY_BACKUP: Tree :=
    map[["etc"] := Dir(0), ["etc", "frr"] := Dir(0), ["a"] := File("1", 0), ZEBRA := File("z", 0)]

  const DEFAULT_TARGET: Tree :=
    map[["etc"] := Dir(0), ["etc", "frr"] := Dir(0), ["a"] := File("2", 0), FRR := File("f", 0), VTYSH := File("v", 0)]

  lemma LegacyInstanceFits()
    ensures Enumerates([["a"], ZEBRA], LEGACY_BACKUP)
    ensures Differs(LEGACY_BACKUP, DEFAULT_TARGET, ["a"]) && AsideOf(["a"]) == ["a-default"]
    ensures NoCollisions(LEGACY_BACKUP, DEFAULT_TARGET)
  {
    var files: seq<Path> := [["a"], ZEBRA];
    assert files[0] == ["a"] && files[1] == ZEBRA && ["a"] in files && ZEBRA in files;
    assert "1" != "2" && "a" + "-default" == "a-default";
  }

  /** Such a backup and target: the restore completes, and the integrated configuration is lost. */
  lemma LegacyInstance()
    ensures var files: seq<Path> := [["a"], ZEBRA];
            && [] !in files && Enumerates(files, LEGACY_BACKUP) && NoCollisions(LEGACY_BACKUP, DEFAULT_TARGET)
            && RenameAll(LEGACY_BACKUP, DEFAULT_TARGET, files).ok
            && !Conserved(LEGACY_BACKUP, DEFAULT_TARGET, files)
  {
    hide RenameAll, Conserved, NoCollisions, Enumerates, AsideOf, Differs;
    LegacyInstanceFits();
    LegacyCompletes(LEGACY_BACKUP, DEFAULT_TARGET, ["a"]);
    ConservedIff(LEGACY_BACKUP, DEFAULT_TARGET, [["a"], ZEBRA]);
  }
}
