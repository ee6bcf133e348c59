/** File systems as finite trees; the root directory is not listed. */
module BackupTree {
  type Path = seq<string>

  datatype Node =
    | File(content: string, attr: nat)
    | Dir(attr: nat)
    | Link(to: string)

  type Tree = map<Path, Node>

  /** A path is below, or is, another. */
  predicate Covers(k: Path, p: Path) {
    k <= p
  }

  /** Everything above an entry is a directory. */
  ghost predicate WellFormed(t: Tree) {
    [] !in t && forall p, n: nat {:trigger p[..n]} :: p in t && 0 < n < |p| ==> p[..n] in t && t[p[..n]].Dir?
  }

  /** Two trees do not disagree about what is a directory. */
  ghost predicate Compatible(t: Tree, u: Tree) {
    forall p :: p in t && p in u ==> (t[p].Dir? <==> u[p].Dir?)
  }

  predicate IsFile(t: Tree, p: Path) {
    p in t && t[p].File?
  }

  predicate IsDir(t: Tree, p: Path) {
    p == [] || (p in t && t[p].Dir?)
  }

  function Parent(p: Path): Path
    requires p != []
  {
    p[..|p| - 1]
  }

  lemma DirsAbove(t: Tree, p: Path, q: Path)
    requires WellFormed(t) && p in t && Covers(q, p) && q != [] && q != p
    ensures q in t && t[q].Dir?
  {
    assert q == p[..|q|];
  }

  lemma CoversParent(q: Path, p: Path)
    requires p != []
    ensures Covers(q, p) <==> Covers(q, Parent(p)) || q == p
  {}

  lemma CoversTransitive(k: Path, q: Path, p: Path)
    requires Covers(k, q) && Covers(q, p)
    ensures Covers(k, p)
  {}

  /** Two paths above the same one are one above the other. */
  lemma CoversLinear(k: Path, q: Path, p: Path)
    requires Covers(k, p) && Covers(q, p)
    ensures Covers(k, q) || Covers(q, k)
  {}

  // -------------------------------------------------------------------------
  // List files
  // -------------------------------------------------------------------------

  datatype Line = Keep(path: Path) | Drop(path: Path) | Other

  /** The components of a path; empty ones do not count. */
  function Split(s: string): Path {
    SplitFrom(s, "")
  }

  function SplitFrom(s: string, part: string): Path {
    if s == "" then Component(part)
    else if s[0] == '/' then Component(part) + SplitFrom(s[1..], "")
    else SplitFrom(s[1..], part + [s[0]])
  }

  function Component(part: string): Path {
    if part == "" then [] else [part]
  }

  function Parse(s: string): Line {
    if s == "" then Other
    else if s[0] == '#' then Other
    else if s[0] == '-' then Drop(Split(s[1..]))
    else if s[0] == '/' then Keep(Split(s))
    else Other
  }

  /** Only lines that end in a newline are read. */
  function Lines(content: string): seq<string> {
    LinesFrom(content, "")
  }

  function LinesFrom(s: string, part: string): seq<string> {
    if s == "" then []
    else if s[0] == '\n' then [part] + LinesFrom(s[1..], "")
    else LinesFrom(s[1..], part + [s[0]])
  }

  function Keeps(lines: seq<string>): set<Path> {
    set s <- lines | Parse(s).Keep? :: Parse(s).path
  }

  function Drops(lines: seq<string>): set<Path> {
    set s <- lines | Parse(s).Drop? :: Parse(s).path
  }
}
