/**
 * Where a crate lives: `<root>/<prefix><c0>/<c0[c1]>/<name>`, where `c0` and `c1`
 * are the first two characters of the name. Both forms the repository carries are
 * modelled: the free functions `crate_rpath` / `crate_path` and the methods of
 * `CrateDir`. None of them touches the filesystem; the only error is an empty name.
 */
module Sharding {
  import opened Wrappers
  import opened Layout

  /** `crate_rpath`: the three components below the root. */
  function CrateRPath(prefix: string, name: string): (r: Result<Path, DirError>)
    ensures r.Err? <==> name == []
    ensures r.Err? ==> r.error == BadCrateName(name)
    ensures r.Ok? ==> |r.value| == 3 && r.value[0] == prefix + [name[0]] && r.value[2] == name
    ensures r.Ok? ==> 1 <= |r.value[1]| <= 2 && r.value[1] <= name && (|r.value[1]| == 2 <==> |name| >= 2)
  {
    if name == [] then Err(BadCrateName(name))
    else
      var nibble := if |name| >= 2 then [name[0], name[1]] else [name[0]];
      Ok([prefix + [name[0]], nibble, name])
  }

  /** `crate_path`: the root followed by `crate_rpath`, with its error passed on. */
  function CratePath(root: Path, prefix: string, name: string): (r: Result<Path, DirError>)
    ensures r.Err? <==> CrateRPath(prefix, name).Err?
    ensures r.Err? ==> r.error == BadCrateName(name)
    ensures r.Ok? ==> |r.value| == |root| + 3 && r.value[..|root|] == root && r.value[|root|..] == CrateRPath(prefix, name).value
  {
    match CrateRPath(prefix, name)
    case Err(e) => Err(e)
    case Ok(rel) => Ok(root + rel)
  }

  /** `CrateDir`: a root and the shard prefix of its top-level directories. */
  datatype CrateDir = CrateDir(root: Path, prefix: string)

  /** `CrateDir::crate_first`: the first character, as a string. */
  function CrateFirst(name: string): (r: Result<string, DirError>)
    ensures r.Err? <==> name == []
    ensures r.Err? ==> r.error == BadCrateName(name)
    ensures r.Ok? ==> |r.value| == 1 && r.value <= name
  {
    if name == [] then Err(BadCrateName(name)) else Ok([name[0]])
  }

  /** `CrateDir::section_name`: the prefix and the first character. */
  function SectionName(dir: CrateDir, name: string): (r: Result<string, DirError>)
    ensures r.Err? <==> name == []
    ensures r.Err? ==> r.error == BadCrateName(name)
    ensures r.Ok? ==> |r.value| == |dir.prefix| + 1 && dir.prefix <= r.value && r.value[|dir.prefix|] == name[0]
  {
    match CrateFirst(name)
    case Err(e) => Err(e)
    case Ok(first) => Ok(dir.prefix + first)
  }

  /** `CrateDir::subsection_name`: the first one or two characters. */
  function SubsectionName(name: string): (r: Result<string, DirError>)
    ensures r.Err? <==> name == []
    ensures r.Err? ==> r.error == BadCrateName(name)
    ensures r.Ok? ==> 1 <= |r.value| <= 2 && r.value <= name && (|r.value| == 2 <==> |name| >= 2)
  {
    match CrateFirst(name)
    case Err(e) => Err(e)
    case Ok(first) => if |name| >= 2 then Ok(first + [name[1]]) else Ok(first)
  }

  /** `CrateDir::path_to`: section, subsection and crate directory, below the root. */
  function PathTo(dir: CrateDir, name: string): (r: Result<Path, DirError>)
    ensures r.Err? <==> name == []
    ensures r.Err? ==> r.error == BadCrateName(name)
    ensures r.Ok? ==> r.value == [SectionName(dir, name).value, SubsectionName(name).value, name]
  {
    match SectionName(dir, name)
    case Err(e) => Err(e)
    case Ok(section) =>
      match SubsectionName(name)
      case Err(e) => Err(e)
      case Ok(subsection) => Ok([section, subsection, name])
  }

  /** `CrateDir::path_to_file`. */
  function PathToFile(dir: CrateDir, name: string, file: string): (r: Result<Path, DirError>)
    ensures r.Err? <==> name == []
    ensures r.Err? ==> r.error == BadCrateName(name)
    ensures r.Ok? ==> r.value == PathTo(dir, name).value + [file]
  {
    match PathTo(dir, name)
    case Err(e) => Err(e)
    case Ok(p) => Ok(p + [file])
  }

  /** `CrateDir::abs_path_to`. */
  function AbsPathTo(dir: CrateDir, name: string): (r: Result<Path, DirError>)
    ensures r.Err? <==> name == []
    ensures r.Err? ==> r.error == BadCrateName(name)
    ensures r.Ok? ==> r.value == dir.root + PathTo(dir, name).value
  {
    match PathTo(dir, name)
    case Err(e) => Err(e)
    case Ok(p) => Ok(dir.root + p)
  }

  /** `CrateDir::abs_path_to_file`: the root, then `path_to_file`. */
  function AbsPathToFile(dir: CrateDir, name: string, file: string): (r: Result<Path, DirError>)
    ensures r.Err? <==> name == []
    ensures r.Err? ==> r.error == BadCrateName(name)
    ensures r.Ok? ==> r.value == dir.root + PathToFile(dir, name, file).value
  {
    match AbsPathTo(dir, name)
    case Err(e) => Err(e)
    case Ok(p) => Ok(p + [file])
  }

  /** The two implementations of the naming scheme agree: `CrateDir::path_to` is
   *  `crate_rpath`, and `abs_path_to` is `crate_path`, for every name. */
  lemma NamingSchemesAgree(dir: CrateDir, name: string)
    ensures PathTo(dir, name) == CrateRPath(dir.prefix, name)
    ensures AbsPathTo(dir, name) == CratePath(dir.root, dir.prefix, name)
  {
    if name != [] {
      var p := CrateRPath(dir.prefix, name).value;
      assert SubsectionName(name).value == p[1];
      assert PathTo(dir, name).value == p;
      var q := CratePath(dir.root, dir.prefix, name).value;
      assert q == q[..|dir.root|] + q[|dir.root|..];
    }
  }
}
