/**
 * Filesystem paths as `std::path` sees them: a sequence of components.
 * `absolute` stands for a leading root component, `parts` for the normal
 * components after it. Component-wise comparison is what makes
 * `Path::ends_with("cpu")` false for ".../cpuset".
 */
module Paths {

  datatype Path = Path(absolute: bool, parts: seq<string>)

  /** The empty path `Path::new("")`: no root, no components. */
  predicate IsEmpty(p: Path) {
    !p.absolute && p.parts == []
  }

  /** `Path::new(name)` for a name that holds no separator. */
  function Component(name: string): (p: Path)
    ensures !p.absolute
    ensures name == "" <==> p.parts == []
    ensures name != "" ==> p.parts == [name]
  {
    if name == "" then Path(false, []) else Path(false, [name])
  }

  /**
   * `Path::ends_with(child)`: the components of `child` are the trailing
   * components of `p`. A rooted child only matches the whole of a rooted path.
   */
  predicate EndsWith(p: Path, child: Path) {
    if child.absolute then p.absolute && p.parts == child.parts
    else |child.parts| <= |p.parts| && p.parts[|p.parts| - |child.parts|..] == child.parts
  }

  /** `p.ends_with(name)` for a controller name such as "cpu" or "net_cls,net_prio". */
  predicate EndsWithName(p: Path, name: string) {
    EndsWith(p, Component(name))
  }

  /** A non-empty name is matched against the last component only, and exactly. */
  lemma EndsWithNameIsLastComponent(p: Path, name: string)
    requires name != ""
    ensures EndsWithName(p, name) <==> |p.parts| > 0 && p.parts[|p.parts| - 1] == name
  {
  }

  /** `PathBuf::join(p)`: a rooted `p` replaces the base; a relative one is appended. */
  function Join(base: Path, p: Path): (r: Path)
    ensures p.absolute ==> r == p
    ensures !p.absolute ==> r.absolute == base.absolute && |r.parts| == |base.parts| + |p.parts|
    ensures !p.absolute ==> r.parts[..|base.parts|] == base.parts && r.parts[|base.parts|..] == p.parts
  {
    if p.absolute then p else Path(base.absolute, base.parts + p.parts)
  }

  /** Joining a relative path gives a path that ends with it. */
  lemma JoinEndsWith(base: Path, p: Path)
    requires !p.absolute
    ensures EndsWith(Join(base, p), p)
  {
    var r := Join(base, p);
    assert r.parts == base.parts + p.parts;
    assert r.parts[|r.parts| - |p.parts|..] == p.parts;
  }
}
