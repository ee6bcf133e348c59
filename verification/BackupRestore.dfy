/**
 Restoring a backup: target files that differ are renamed out of the way, then the backup is copied over. The
 script ends at the first command that fails.
 */
module BackupRestore {
  import opened BackupTree

  const ZEBRA: Path := ["etc", "frr", "zebra.conf"]
  const FRR: Path := ["etc", "frr", "frr.conf"]
  const VTYSH: Path := ["etc", "frr", "vtysh.conf"]

  /** The target, the suffix chosen last, and whether no command has failed. */
  datatype Run = Run(target: Tree, suffix: string, ok: bool)

  function Suffixed(p: Path, suffix: string): Path
    requires p != []
  {
    Parent(p) + [p[|p| - 1] + suffix]
  }

  /** sudo ignores only files with a dot in their name. */
  function SuffixFor(p: Path): string {
    if |p| > 2 && p[0] == "etc" && p[1] == "sudoers.d" then ".default" else "-default"
  }

  /** Moving fails for want of a source, and onto itself. */
  function Move(r: Run, a: Path, b: Path): Run {
    if !r.ok then r
    else if a !in r.target || a == b then r.(ok := false)
    else r.(target := (r.target - {a})[b := r.target[a]])
  }

  predicate Differs(backup: Tree, target: Tree, p: Path) {
    IsFile(backup, p) && IsFile(target, p) && backup[p].content != target[p].content
  }

  /** Both integrated configuration files are moved to the one name, with whatever suffix is current. */
  function DisableIntegrated(r: Run): Run {
    Move(Move(r, FRR, Suffixed(FRR, r.suffix)), VTYSH, Suffixed(FRR, r.suffix))
  }

  function RenameOne(backup: Tree, r: Run, f: Path): Run
    requires f != []
  {
    var r1 := if f == ZEBRA && !IsFile(backup, FRR) then DisableIntegrated(r) else r;
    if !r1.ok || !Differs(backup, r1.target, f) then r1
    else Move(r1.(suffix := SuffixFor(f)), f, Suffixed(f, SuffixFor(f)))
  }

  function RenameAll(backup: Tree, target: Tree, files: seq<Path>): Run
    requires [] !in files
  {
    if files == [] then Run(target, "", true)
    else
      var r := RenameAll(backup, target, files[..|files| - 1]);
      if r.ok then RenameOne(backup, r, files[|files| - 1]) else r
  }

  /** Names that the shell's star does not expand to. */
  predicate Hidden(p: Path) {
    p != [] && p[0] != "" && p[0][0] == '.'
  }

  function Shown(backup: Tree): Tree {
    map p | p in backup && !Hidden(p) :: backup[p]
  }

  // -------------------------------------------------------------------------
  // The script
  // -------------------------------------------------------------------------

  class Restore {
    const backup: Tree
    var target: Tree
    var suffix: string

    constructor (backup: Tree, target: Tree)
      ensures this.backup == backup && this.target == target && suffix == ""
    {
      this.backup, this.target, suffix := backup, target, "";
    }

    method Mv(a: Path, b: Path) returns (ok: bool)
      modifies this`target
      ensures Run(target, suffix, ok) == Move(Run(old(target), suffix, true), a, b)
    {
      if a !in target || a == b {
        return false;
      }
      target := (target - {a})[b := target[a]];
      return true;
    }

    method RenameExisting(f: Path) returns (ok: bool)
      requires IsFile(backup, f) && f != []
      modifies this
      ensures Run(target, suffix, ok) == RenameOne(backup, Run(old(target), old(suffix), true), f)
    {
      if f == ZEBRA {
        if !IsFile(backup, FRR) {
          ok := Mv(FRR, Suffixed(FRR, suffix));
          if !ok {
            return;
          }
          ok := Mv(VTYSH, Suffixed(FRR, suffix));
          if !ok {
            return;
          }
        }
      }
      if !IsFile(target, f) {
        return true;
      }
      if backup[f].content == target[f].content {
        return true;
      }
      if |f| > 2 && f[0] == "etc" && f[1] == "sudoers.d" {
        suffix := ".default";
      } else {
        suffix := "-default";
      }
      ok := Mv(f, Suffixed(f, suffix));
    }

    method RenameFiles(files: seq<Path>) returns (ok: bool)
      requires suffix == "" && [] !in files && forall f <- files :: IsFile(backup, f)
      modifies this
      ensures Run(target, suffix, ok) == RenameAll(backup, old(target), files)
    {
      hide RenameOne;
      var i := 0;
      assert files[..0] == [];
      while i < |files|
        invariant 0 <= i <= |files|
        invariant Run(target, suffix, true) == RenameAll(backup, old(target), files[..i])
      {
        assert files[..i + 1][..i] == files[..i];
        ok := RenameExisting(files[i]);
        if !ok {
          FailsForGood(backup, old(target), files, i + 1);
          return;
        }
        i := i + 1;
      }
      assert files[..|files|] == files;
      ok := true;
    }

    /** One top-level entry after the other. */
    method CopyBack(names: seq<string>)
      requires [] !in backup && (forall p <- backup :: !Hidden(p) ==> p[0] in names)
      requires forall n <- names :: !Hidden([n])
      modifies this`target
      ensures target == old(target) + Shown(backup)
    {
      hide CopiedBack, Shown;
      CopiedNone(backup, target);
      for j := 0 to |names|
        invariant target == old(target) + CopiedBack(backup, names[..j])
      {
        CopiedOne(backup, old(target), names, j);
        target := target + map p | p in backup && p[0] == names[j] :: backup[p];
      }
      assert names[..|names|] == names;
      CopiedAll(backup, names);
    }

    /** `files` are the regular files of the backup as they are found, `names` its top-level entries. */
    method RestoreBackup(files: seq<Path>, names: seq<string>) returns (ok: bool)
      requires suffix == "" && [] !in files && forall f <- files :: IsFile(backup, f)
      requires [] !in backup && (forall p <- backup :: !Hidden(p) ==> p[0] in names)
      requires forall n <- names :: !Hidden([n])
      modifies this
      ensures var r := RenameAll(backup, old(target), files);
              ok == r.ok && target == if ok then r.target + Shown(backup) else r.target
    {
      hide RenameAll, Shown;
      ok := RenameFiles(files);
      if ok {
        CopyBack(names);
      }
    }
  }

  function CopiedBack(backup: Tree, names: seq<string>): Tree
    requires [] !in backup
  {
    map p | p in backup && p[0] in names :: backup[p]
  }

  lemma CopiedNone(backup: Tree, t: Tree)
    requires [] !in backup
    ensures t + CopiedBack(backup, []) == t
  {}

  lemma CopiedOne(backup: Tree, t: Tree, names: seq<string>, j: nat)
    requires [] !in backup && j < |names|
    ensures t + CopiedBack(backup, names[..j + 1]) ==
            t + CopiedBack(backup, names[..j]) + map p | p in backup && p[0] == names[j] :: backup[p]
  {
    assert names[..j + 1] == names[..j] + [names[j]];
    assert CopiedBack(backup, names[..j + 1]) ==
           CopiedBack(backup, names[..j]) + map p | p in backup && p[0] == names[j] :: backup[p];
  }

  lemma CopiedAll(backup: Tree, names: seq<string>)
    requires [] !in backup && (forall p <- backup :: !Hidden(p) ==> p[0] in names)
    requires forall n <- names :: !Hidden([n])
    ensures CopiedBack(backup, names) == Shown(backup)
  {
    forall p | p in backup && p[0] in names ensures !Hidden(p) {
      assert !Hidden([p[0]]);
    }
  }

  lemma {:induction false} FailsForGood(backup: Tree, target: Tree, files: seq<Path>, n: nat)
    requires [] !in files && n <= |files|
    requires [] !in files[..n]
    requires !RenameAll(backup, target, files[..n]).ok
    ensures RenameAll(backup, target, files) == RenameAll(backup, target, files[..n])
  {
    if n == |files| {
      assert files[..n] == files;
    } else {
      assert files[..|files| - 1][..n] == files[..n];
      FailsForGood(backup, target, files[..|files| - 1], n);
    }
  }
}
