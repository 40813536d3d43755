/**
 * The part of POSIX path handling that the config loader relies on:
 * `os.path.dirname`, which keeps everything before the last separator
 * and then drops the separators that trail it (unless nothing else is left).
 */
module PosixPath {

  const Sep: char := '/'

  /** The index of the last separator in `p`, or -1 when there is none (`str.rfind`). */
  function LastSep(p: string): (i: int)
    ensures -1 <= i < |p|
    ensures i >= 0 ==> p[i] == Sep
    ensures forall j :: i < j < |p| ==> p[j] != Sep
  {
    if p == [] then -1
    else if p[|p| - 1] == Sep then |p| - 1
    else LastSep(p[..|p| - 1])
  }

  predicate AllSeps(s: string) {
    forall j :: 0 <= j < |s| ==> s[j] == Sep
  }

  /** `s.rstrip('/')`: the longest prefix of `s` that does not end in a separator. */
  function StripTrailingSeps(s: string): (t: string)
    ensures t <= s
    ensures t == [] || t[|t| - 1] != Sep
    ensures forall j :: |t| <= j < |s| ==> s[j] == Sep
  {
    if s != [] && s[|s| - 1] == Sep then StripTrailingSeps(s[..|s| - 1]) else s
  }

  /** `os.path.dirname` on POSIX. */
  function Dirname(p: string): (d: string)
    ensures d <= p
    ensures d != [] <==> Sep in p
  {
    var head := p[..LastSep(p) + 1];
    if head != [] && !AllSeps(head) then StripTrailingSeps(head) else head
  }

  /** The directory part of `dir/name` is `dir`, for a directory written without a trailing separator. */
  lemma DirnameOfChild(dir: string, name: string)
    requires dir != [] && dir[|dir| - 1] != Sep
    requires Sep !in name
    ensures Dirname(dir + [Sep] + name) == dir
  {
    var p := dir + [Sep] + name;
    var i := LastSep(p);
    assert p[|dir|] == Sep;
    assert i == |dir|;
    var head := p[..i + 1];
    assert head == dir + [Sep];
    assert !AllSeps(head) by { assert head[|dir| - 1] != Sep; }
    assert head[..|head| - 1] == dir;
  }

  /** A file directly under the root has the root as its directory. */
  lemma DirnameOfRootChild(name: string)
    requires Sep !in name
    ensures Dirname([Sep] + name) == [Sep]
  {
  }

  /** `dirname(dirname(root/bin/exe))` is `root`: the parent of the executable's directory. */
  lemma GrandparentOf(root: string, bin: string, exe: string)
    requires root != [] && root[|root| - 1] != Sep
    requires bin != [] && Sep !in bin
    requires Sep !in exe
    ensures Dirname(Dirname(root + [Sep] + bin + [Sep] + exe)) == root
  {
    var dir := root + [Sep] + bin;
    assert dir[|dir| - 1] == bin[|bin| - 1];
    DirnameOfChild(dir, exe);
    assert root + [Sep] + bin + [Sep] + exe == dir + [Sep] + exe;
    DirnameOfChild(root, bin);
  }
}
