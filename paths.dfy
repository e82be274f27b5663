/**
 * `PathBuf` as the archiver uses it: a list of components. `join` appends one component and
 * `parent` drops the last one (there is none for the empty path).
 */
module Paths {
  import opened Wrappers
  import opened Strings

  type Path = seq<String>

  /** `Path::join` with a single relative component. */
  function Join(p: Path, name: String): (r: Path)
    ensures |r| == |p| + 1 && r[..|p|] == p && r[|p|] == name
  {
    p + [name]
  }

  /** `Path::parent` */
  function Parent(p: Path): (r: Option<Path>)
    ensures r.Some? <==> p != []
    ensures r.Some? ==> Join(r.value, p[|p| - 1]) == p
  {
    if p == [] then None else Some(p[..|p| - 1])
  }

  /** A joined path's parent is the path it was joined onto. */
  lemma ParentOfJoin(p: Path, name: String)
    ensures Parent(Join(p, name)) == Some(p)
  {
    assert Join(p, name)[..|p|] == p;
  }

  /** `Path::join` with a relative path of several components. */
  function Append(p: Path, q: Path): (r: Path)
    ensures |r| == |p| + |q| && r[..|p|] == p && r[|p|..] == q
    ensures q != [] ==> Parent(r) == Some(p + Parent(q).value)
  {
    assert q != [] ==> (p + q)[..|p + q| - 1] == p + q[..|q| - 1];
    p + q
  }
}
