/** The `files` dictionaries passed from the code generator to the GitHub
    manager: file path to file content, in insertion order (Python dicts
    iterate in the order their keys were first assigned). */
module FileSets {

  type FileSet = seq<(string, string)>

  function Paths(fs: FileSet): (r: seq<string>)
    ensures |r| == |fs|
    ensures forall i :: 0 <= i < |fs| ==> r[i] == fs[i].0
  {
    if fs == [] then [] else [fs[0].0] + Paths(fs[1..])
  }

  /** A dictionary never holds the same key twice. */
  ghost predicate UniquePaths(fs: FileSet) {
    forall i, j :: 0 <= i < j < |fs| ==> fs[i].0 != fs[j].0
  }

  /** The dictionary as a map; a later entry for a path overrides an earlier one. */
  function ToMap(fs: FileSet): (m: map<string, string>)
    ensures forall i :: 0 <= i < |fs| ==> fs[i].0 in m
    ensures forall p :: p in m ==> p in Paths(fs)
  {
    if fs == [] then map[]
    else ToMap(fs[..|fs| - 1])[fs[|fs| - 1].0 := fs[|fs| - 1].1]
  }

  /** Adding one more entry to a prefix updates the map with it. */
  lemma ToMapStep(fs: FileSet, i: nat)
    requires i < |fs|
    ensures ToMap(fs[..i + 1]) == ToMap(fs[..i])[fs[i].0 := fs[i].1]
  {
    assert fs[..i + 1][..i] == fs[..i];
  }

  /** Writing the prefix and then one more entry over a map is writing the
      longer prefix. */
  lemma MergeStep(m: map<string, string>, fs: FileSet, i: nat)
    requires i < |fs|
    ensures m + ToMap(fs[..i + 1]) == (m + ToMap(fs[..i]))[fs[i].0 := fs[i].1]
  {
    ToMapStep(fs, i);
  }

  /** With distinct paths, an entry's path is not among the earlier ones. */
  lemma NotYetWritten(fs: FileSet, i: nat)
    requires UniquePaths(fs) && i < |fs|
    ensures fs[i].0 !in ToMap(fs[..i])
  {
    var ps := Paths(fs[..i]);
    assert forall q :: q in ps ==> exists j :: 0 <= j < i && fs[j].0 == q;
  }

  /** Where `path` sits among the entries, if it is there. */
  function IndexOfPath(fs: FileSet, path: string): (r: int)
    ensures r == -1 <==> path !in Paths(fs)
    ensures r != -1 ==> 0 <= r < |fs| && fs[r].0 == path
  {
    if fs == [] then -1
    else if fs[0].0 == path then 0
    else var k := IndexOfPath(fs[1..], path); if k == -1 then -1 else k + 1
  }

  /** `d[path] = content`: overwrite the entry for `path` in place, or append one. */
  function Put(fs: FileSet, path: string, content: string): (r: FileSet)
    ensures path !in Paths(fs) ==> r == fs + [(path, content)]
    ensures path in Paths(fs) ==> Paths(r) == Paths(fs)
    ensures path in Paths(fs) ==> forall i :: 0 <= i < |fs| && fs[i].0 != path ==> r[i] == fs[i]
    ensures path in Paths(fs) ==> exists i :: 0 <= i < |r| && r[i] == (path, content)
  {
    var k := IndexOfPath(fs, path);
    if k == -1 then fs + [(path, content)] else fs[k := (path, content)]
  }
}
