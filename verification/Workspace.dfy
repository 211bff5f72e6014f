/**
 The workspace as the patch engine sees it: a map from paths to files and directories.

 A path is a parent (a list of directory names) and a final name, so that the engine
 can form sibling names. File text is the text that reading the file returns.
 */
module Workspace {
  import opened Results

  datatype Path = Path(parent: seq<string>, name: string)

  datatype Node = File(text: string) | Directory

  type Tree = map<Path, Node>

  /** The name of a staged write or of a backup carries the hexadecimal form of a UUID. */
  const UUID_HEX_LENGTH := 32

  type Uuid = s: string | |s| == UUID_HEX_LENGTH witness "00000000000000000000000000000000"

  function TmpName(target: Path, uuid: Uuid): Path {
    Path(target.parent, "." + target.name + ".bh_tmp_" + uuid)
  }

  function BakName(target: Path, uuid: Uuid): Path {
    Path(target.parent, "." + target.name + ".bh_bak_" + uuid)
  }

  /** The last characters of a name, where a fresh name carries its UUID. */
  function Tag(p: Path): string {
    if |p.name| < UUID_HEX_LENGTH then p.name else p.name[|p.name| - UUID_HEX_LENGTH..]
  }

  /** Whether `p` is named after one of `uuids`. */
  predicate Fresh(p: Path, uuids: seq<Uuid>) {
    Tag(p) in uuids
  }

  lemma TagOfFreshName(target: Path, uuid: Uuid)
    ensures Tag(TmpName(target, uuid)) == uuid
    ensures Tag(BakName(target, uuid)) == uuid
  {
    assert ("." + target.name + ".bh_tmp_" + uuid)[|"." + target.name + ".bh_tmp_"|..] == uuid;
    assert ("." + target.name + ".bh_bak_" + uuid)[|"." + target.name + ".bh_bak_"|..] == uuid;
  }

  // ---------------------------------------------------------------------
  // Directories
  // ---------------------------------------------------------------------

  /** The first `depth` directories above a path, from the outermost one on. */
  function AboveTo(p: Path, depth: nat): set<Path> {
    set k | 0 <= k < |p.parent| && k < depth :: Path(p.parent[..k], p.parent[k])
  }

  /** The directories above a path. */
  function Above(p: Path): set<Path> {
    AboveTo(p, |p.parent|)
  }

  /** A file stands where a directory above the path has to be. */
  predicate FileAbove(tree: Tree, p: Path) {
    exists d :: d in Above(p) && d in tree && tree[d].File?
  }

  /** `mkdir` of each missing one of `dirs`. */
  function WithDirs(tree: Tree, dirs: set<Path>): Tree {
    tree + map d | d in dirs - tree.Keys :: Directory
  }

  /** A tree that a file system can hold: whatever is above a path is a directory. */
  ghost predicate Closed(tree: Tree) {
    forall p, d :: p in tree && d in Above(p) ==> d in tree && tree[d].Directory?
  }

  function FilesOf(tree: Tree): Tree {
    map p | p in tree && tree[p].File? :: tree[p]
  }

  /** `after` is `before` with nothing new but directories out of `dirs`. */
  ghost predicate OnlyDirectoriesAdded(before: Tree, after: Tree, dirs: set<Path>) {
    && (forall p :: p in before ==> p in after && after[p] == before[p])
    && (forall p :: p in after && p !in before ==> p in dirs && after[p].Directory?)
  }

  lemma DirsInTwoSteps(tree: Tree, a: set<Path>, b: set<Path>)
    ensures WithDirs(WithDirs(tree, a), b) == WithDirs(tree, a + b)
  {
  }

  /** No path is above itself, and what is above something above a path is above the path. */
  lemma AboveIsStrict(p: Path, d: Path)
    requires d in Above(p)
    ensures |d.parent| < |p.parent| && Above(d) <= Above(p) && p !in Above(d) && d != p && p !in Above(p)
  {
    var k :| 0 <= k < |p.parent| && d == Path(p.parent[..k], p.parent[k]);
    forall e | e in Above(d)
      ensures e in Above(p)
    {
      var j :| 0 <= j < |d.parent| && e == Path(d.parent[..j], d.parent[j]);
      assert d.parent[..j] == p.parent[..j];
    }
    assert forall e :: e in Above(p) ==> |e.parent| < |p.parent|;
    assert forall e :: e in Above(d) ==> |e.parent| < |d.parent|;
  }

  // ---------------------------------------------------------------------
  // Primitive file operations
  // ---------------------------------------------------------------------

  /** `a.rename(b)` for an existing file `a`. */
  function Rename(tree: Tree, a: Path, b: Path): Tree
    requires a in tree
  {
    (tree - {a})[b := tree[a]]
  }

  /** `_cleanup_path`: unlink a file; leave a directory or a missing path alone. */
  function Cleanup(tree: Tree, p: Path): Tree {
    if p in tree && tree[p].File? then tree - {p} else tree
  }

  /** Paths that carry none of the names in `uuids`. */
  function UserView(tree: Tree, uuids: seq<Uuid>): Tree {
    map p | p in tree && !Fresh(p, uuids) :: tree[p]
  }
}
