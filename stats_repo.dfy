/**
 * `StatsRepo`: the statistics repository rooted at a directory whose top level is
 * sharded under the prefix `crates-`. It enumerates the crates it holds and maps a
 * crate name to its directory and to the JSON files kept there.
 *
 * Decoding of `versions.json` and `results.json` is an oracle: `Disk` gives, per
 * file path, the decoded list or the load error; a path it does not list cannot
 * be opened (`NotFound`).
 */
module Repo {
  import opened Wrappers
  import opened Strings
  import opened Layout
  import opened Streams
  import opened Validators
  import opened Traversal
  import opened Results
  import Sharding

  /** The shard prefix `StatsRepo` hard-codes. */
  const CratePrefix: string := "crates-"

  datatype StatsRepoConfig = StatsRepoConfig(root: Path)
  datatype TargetsConfig = TargetsConfig(rustc: Option<seq<string>>)
  datatype Config = Config(statsRepo: StatsRepoConfig, targets: Option<TargetsConfig>)

  datatype StatsRepo = StatsRepo(root: Path, rustcs: seq<string>)

  /** `from_config`: the configured root, and the configured rustc list, where a
   *  missing `targets` table or a missing `rustc` key both mean none. */
  function FromConfig(c: Config): (r: StatsRepo)
    ensures r.root == c.statsRepo.root
    ensures c.targets.None? ==> r.rustcs == []
    ensures c.targets.Some? && c.targets.value.rustc.None? ==> r.rustcs == []
    ensures c.targets.Some? && c.targets.value.rustc.Some? ==> r.rustcs == c.targets.value.rustc.value
  {
    var rustcs := match c.targets
      case None => []
      case Some(t) => match t.rustc
        case None => []
        case Some(l) => l;
    StatsRepo(c.statsRepo.root, rustcs)
  }

  /** The part of `crate_names_iterator` below one accepted section `s`: its
   *  subsections, each expanded into its crates. Below an accepted section it is
   *  what `CrateDir::crate_ids` finds there: descending into `crates-<s>/<sub>`
   *  reaches the directory that recomputing the section from `sub` names. */
  function SectionExpansion(repo: StatsRepo, fs: Fs, s: string): (r: seq<Item>)
    ensures var dir := Sharding.CrateDir(repo.root, CratePrefix);
      Ok(s) in SectionIds(dir, fs) ==>
        r == FlatMap(SubsectionsOf(dir, fs, s), id => CrateExpansion(dir, fs, id))
  {
    var dir := Sharding.CrateDir(repo.root, CratePrefix);
    var subs := SubsectionsOf(dir, fs, s);
    var h := sub => LevelItems(CrateLevel, fs, repo.root + [CratePrefix + s, sub], sub);
    assert Ok(s) in SectionIds(dir, fs) ==>
      FlatMap(subs, id => CrateExpansion(dir, fs, id)) == FlatMap(subs, h) by {
      if Ok(s) in SectionIds(dir, fs) {
        SectionIdShape(dir, fs, s);
        forall i | 0 <= i < |subs| && subs[i].Ok?
          ensures CrateExpansion(dir, fs, subs[i].value) == h(subs[i].value)
        {
          var sub := subs[i].value;
          InLevelItems(SubSectionLevel, fs, dir.root + [dir.prefix + s], s, subs[i]);
          assert s <= sub;
          assert [sub[0]] == s;
        }
        FlatMapCongruence(subs, id => CrateExpansion(dir, fs, id), h);
      }
    }
    FlatMap(LevelItems(SubSectionLevel, fs, repo.root + [CratePrefix + s], s), h)
  }

  /** `crate_names_iterator`: sections of the root, each expanded into its
   *  subsections, each expanded into its crates; errors pass through unexpanded.
   *  It yields exactly the stream of `CrateDir::crate_ids` on the same root with
   *  the prefix `crates-`. */
  function CrateNamesIterator(repo: StatsRepo, fs: Fs): (r: seq<Item>)
    ensures r == CrateIds(Sharding.CrateDir(repo.root, CratePrefix), fs)
  {
    var dir := Sharding.CrateDir(repo.root, CratePrefix);
    var ids := SectionIds(dir, fs);
    var f := id => SubsectionsOf(dir, fs, id);
    var g := id => CrateExpansion(dir, fs, id);
    FlatMapAssoc(ids, f, g);
    assert forall i | 0 <= i < |ids| && ids[i].Ok? ::
      FlatMap(f(ids[i].value), g) == SectionExpansion(repo, fs, ids[i].value);
    FlatMapCongruence(ids, v => FlatMap(f(v), g), s => SectionExpansion(repo, fs, s));
    FlatMap(LevelItems(SectionLevel, fs, repo.root, CratePrefix), s => SectionExpansion(repo, fs, s))
  }

  /** Errors of the statistics repository. `RepoIo` is declared by the source
   *  for `root()`, which cannot fail. */
  datatype LoadError = LoadIo(kind: IoErrorKind) | SerdeJson
  datatype RepoError = RepoIo(kind: IoErrorKind) | CrateDirError(dirError: DirError) | ResultsError(load: LoadError) | VersionsError(load: LoadError)

  /** `crate_names`: the crate names of the whole tree, sorted; entries outside
   *  the section prefix are skipped, any other error stops it. A success is a
   *  sorted permutation of the names the traversal yields, duplicates kept. */
  function CrateNames(repo: StatsRepo, fs: Fs): (r: Result<seq<string>, RepoError>)
    ensures r.Ok? ==> Sorted(r.value) && multiset(r.value) == multiset(OkValues(CrateNamesIterator(repo, fs)))
  {
    var items := CrateNamesIterator(repo, fs);
    CollectDropped(items);
    match Collect(DropNonSection(items))
    case Err(e) => Err(CrateDirError(e))
    case Ok(names) => Ok(Sort(names))
  }

  /** `crate_names` fails exactly when the traversal yields an error other than
   *  `NonSection`, and then with the first such error. */
  lemma CrateNamesSpec(repo: StatsRepo, fs: Fs)
    ensures var items := CrateNamesIterator(repo, fs);
      CrateNames(repo, fs).Ok? <==> forall i | 0 <= i < |items| :: items[i].Ok? || IsNonSection(items[i])
    ensures var items := CrateNamesIterator(repo, fs);
      CrateNames(repo, fs).Err? ==>
        CrateNames(repo, fs).error.CrateDirError? &&
        var e := CrateNames(repo, fs).error.dirError;
        !e.NonSection? && exists i | 0 <= i < |items| :: items[i] == Err(e) && forall j | 0 <= j < i :: items[j].Ok? || IsNonSection(items[j])
  {
    CollectDropped(CrateNamesIterator(repo, fs));
  }

  lemma {:induction false} InOkValues(xs: seq<Item>, v: string)
    requires v in OkValues(xs)
    ensures Ok(v) in xs
  {
    if xs[0].Ok? && xs[0].value == v {
    } else {
      InOkValues(xs[1..], v);
    }
  }

  /** Every name `crate_names` lists is non-empty and filed under the section its
   *  first character names, so `crate_path` of it succeeds. */
  lemma ListedNamesHavePaths(repo: StatsRepo, fs: Fs, name: string)
    requires CrateNames(repo, fs).Ok? && name in CrateNames(repo, fs).value
    ensures name != [] && Ok([name[0]]) in LevelItems(SectionLevel, fs, repo.root, CratePrefix)
    ensures CratePath(repo, name).Ok?
  {
    var items := CrateNamesIterator(repo, fs);
    assert name in multiset(OkValues(items));
    InOkValues(items, name);
    CrateIdsSound(Sharding.CrateDir(repo.root, CratePrefix), fs, name);
  }

  /** A repository holding `crates-a/ab/abc` and `crates-b/bc/bcc`, with a stray
   *  `README` at the top and the sections listed out of order. */
  const TwoShardTree: Fs := map[
    [] := Listed([Ok(RawName("crates-b", true)), Ok(RawName("README", true)), Ok(RawName("crates-a", true))]),
    ["crates-a"] := Listed([Ok(RawName("ab", true))]),
    ["crates-a", "ab"] := Listed([Ok(RawName("abc", true))]),
    ["crates-b"] := Listed([Ok(RawName("bc", true))]),
    ["crates-b", "bc"] := Listed([Ok(RawName("bcc", true))])]

  /** The top level of that tree: two sections and the stray file. */
  lemma TwoShardSections()
    ensures LevelItems(SectionLevel, TwoShardTree, [], CratePrefix)
      == [Ok("b"), Err(NonSection("README", CratePrefix, [])), Ok("a")]
  {
    assert "crates-a"[7..] == "a" && "crates-b"[7..] == "b";
  }

  /** Below a section of that tree: its one subsection, holding its one crate. */
  lemma TwoShardSection(rustcs: seq<string>, c: string, sub: string, name: string)
    requires (c, sub, name) == ("a", "ab", "abc") || (c, sub, name) == ("b", "bc", "bcc")
    ensures SectionExpansion(StatsRepo([], rustcs), TwoShardTree, c) == [Ok(name)]
  {
    if c == "a" {
      TwoShardLevels("crates-a", "a", "ab", "abc");
    } else {
      TwoShardLevels("crates-b", "b", "bc", "bcc");
    }
    var section := CratePrefix + c;
    assert [] + [section] == [section] && [] + [section, sub] == [section, sub];
    SingleCrateSection(StatsRepo([], rustcs), TwoShardTree, c, sub, name);
  }

  /** The two levels below section `section` of that tree. */
  lemma TwoShardLevels(section: string, c: string, sub: string, name: string)
    requires (section, c, sub, name) == ("crates-a", "a", "ab", "abc") || (section, c, sub, name) == ("crates-b", "b", "bc", "bcc")
    ensures CratePrefix + c == section
    ensures LevelItems(SubSectionLevel, TwoShardTree, [section], c) == [Ok(sub)]
    ensures LevelItems(CrateLevel, TwoShardTree, [section, sub], sub) == [Ok(name)]
  {
    assert ReadDir(TwoShardTree, [section]) == Listed([Ok(RawName(sub, true))]);
    assert ReadDir(TwoShardTree, [section, sub]) == Listed([Ok(RawName(name, true))]);
  }

  /** A section holding one subsection that holds one crate expands to that crate. */
  lemma SingleCrateSection(repo: StatsRepo, fs: Fs, c: string, sub: string, name: string)
    requires LevelItems(SubSectionLevel, fs, repo.root + [CratePrefix + c], c) == [Ok(sub)]
    requires LevelItems(CrateLevel, fs, repo.root + [CratePrefix + c, sub], sub) == [Ok(name)]
    ensures SectionExpansion(repo, fs, c) == [Ok(name)]
  {
    var h := sub => LevelItems(CrateLevel, fs, repo.root + [CratePrefix + c, sub], sub);
    assert FlatMap([Ok(sub)], h) == h(sub) + FlatMap([], h);
  }

  /** Flattening the top level of that tree, given what each section expands to. */
  lemma TwoShardFlattened(f: string -> seq<Item>)
    requires f("a") == [Ok("abc")] && f("b") == [Ok("bcc")]
    ensures var stray := Err(NonSection("README", CratePrefix, []));
      FlatMap([Ok("b"), stray, Ok("a")], f) == [Ok("bcc"), stray, Ok("abc")]
  {
    var stray := Err(NonSection("README", CratePrefix, []));
    var xs: seq<Item> := [Ok("b"), stray, Ok("a")];
    assert xs[1..] == [stray, Ok("a")] && xs[1..][1..] == [Ok("a")] && xs[1..][1..][1..] == [];
    assert FlatMap(xs[1..][1..], f) == [Ok("abc")] + FlatMap([], f);
    assert FlatMap(xs[1..], f) == [stray] + FlatMap(xs[1..][1..], f);
  }

  /** The traversal of that tree: the crate of `crates-b`, the stray file, the
   *  crate of `crates-a`, in listing order. */
  lemma TwoShardIterator(rustcs: seq<string>)
    ensures CrateNamesIterator(StatsRepo([], rustcs), TwoShardTree)
      == [Ok("bcc"), Err(NonSection("README", CratePrefix, [])), Ok("abc")]
  {
    TwoShardSections();
    TwoShardSection(rustcs, "a", "ab", "abc");
    TwoShardSection(rustcs, "b", "bc", "bcc");
    TwoShardFlattened(s => SectionExpansion(StatsRepo([], rustcs), TwoShardTree, s));
  }

  /** The traversal of that tree, with the stray file dropped and the names
   *  collected in traversal order. */
  lemma TwoShardCollected()
    ensures Collect(DropNonSection([Ok("bcc"), Err(NonSection("README", CratePrefix, [])), Ok("abc")]))
      == Ok(["bcc", "abc"])
  {
    var stray := Err(NonSection("README", CratePrefix, []));
    var items: seq<Item> := [Ok("bcc"), stray, Ok("abc")];
    assert items[1..] == [stray, Ok("abc")] && items[1..][1..] == [Ok("abc")] && items[1..][1..][1..] == [];
    assert DropNonSection(items[1..][1..]) == [Ok("abc")] + DropNonSection([]);
    assert DropNonSection(items) == [Ok("bcc"), Ok("abc")];
    var kept: seq<Item> := [Ok("bcc"), Ok("abc")];
    assert kept[0].Ok? && kept[1].Ok?;
    var names := Collect(kept).value;
    assert |names| == 2 && names[0] == "bcc" && names[1] == "abc";
    assert names == ["bcc", "abc"];
  }

  /** On that tree `crate_names` lists both crates, sorted, and passes over the
   *  stray file. */
  lemma TwoShardCrateNames(rustcs: seq<string>)
    ensures CrateNames(StatsRepo([], rustcs), TwoShardTree) == Ok(["abc", "bcc"])
  {
    TwoShardIterator(rustcs);
    TwoShardCollected();
    CrateNamesOfCollected(StatsRepo([], rustcs), TwoShardTree, ["bcc", "abc"]);
    TwoShardSorted();
  }

  /** `crate_names` is the sorted collection, whenever the collection succeeds. */
  lemma CrateNamesOfCollected(repo: StatsRepo, fs: Fs, names: seq<string>)
    requires Collect(DropNonSection(CrateNamesIterator(repo, fs))) == Ok(names)
    ensures CrateNames(repo, fs) == Ok(Sort(names))
  {
  }

  /** The two names of that tree, sorted. */
  lemma TwoShardSorted()
    ensures Sort(["bcc", "abc"]) == ["abc", "bcc"]
  {
    assert Sort(["abc"]) == ["abc"];
    assert Le("abc", "bcc");
  }

  /** `StatsRepo::crate_path`: `crate_path` of the free functions under the root
   *  with the prefix `crates-`; an empty name is a crate-directory error. */
  function CratePath(repo: StatsRepo, name: string): (r: Result<Path, RepoError>)
    ensures r.Err? <==> name == []
    ensures r.Err? ==> r.error == CrateDirError(BadCrateName(name))
    ensures r.Ok? ==> r.value == repo.root + [CratePrefix + [name[0]], Sharding.SubsectionName(name).value, name]
  {
    Sharding.NamingSchemesAgree(Sharding.CrateDir(repo.root, CratePrefix), name);
    match Sharding.CratePath(repo.root, CratePrefix, name)
    case Err(e) => Err(CrateDirError(e))
    case Ok(p) => Ok(p)
  }

  /** `crate_file_path`: a file inside the crate's directory. */
  function CrateFilePath(repo: StatsRepo, name: string, file: string): (r: Result<Path, RepoError>)
    ensures r.Err? <==> name == []
    ensures r.Err? ==> r.error == CrateDirError(BadCrateName(name))
    ensures r.Ok? ==> |r.value| == |repo.root| + 4 && r.value[..|r.value| - 1] == CratePath(repo, name).value && r.value[|r.value| - 1] == file
  {
    match CratePath(repo, name)
    case Err(e) => Err(e)
    case Ok(p) => Ok(p + [file])
  }

  const VersionsFile: string := "versions.json"
  const ResultsFile: string := "results.json"
  const IndexFile: string := "index.html"

  /** `crate_versions_path`. */
  function VersionsPath(repo: StatsRepo, name: string): (r: Result<Path, RepoError>)
    ensures r.Err? <==> name == []
    ensures r.Ok? ==> r.value == CratePath(repo, name).value + ["versions.json"]
  {
    CrateFilePath(repo, name, VersionsFile)
  }

  /** `crate_results_path`. */
  function ResultsPath(repo: StatsRepo, name: string): (r: Result<Path, RepoError>)
    ensures r.Err? <==> name == []
    ensures r.Ok? ==> r.value == CratePath(repo, name).value + ["results.json"]
  {
    CrateFilePath(repo, name, ResultsFile)
  }

  /** `crate_index_path`. */
  function IndexPath(repo: StatsRepo, name: string): (r: Result<Path, RepoError>)
    ensures r.Err? <==> name == []
    ensures r.Ok? ==> r.value == CratePath(repo, name).value + ["index.html"]
  {
    CrateFilePath(repo, name, IndexFile)
  }

  /** The three files of a crate are distinct files of the same directory, and
   *  two different crates never share a file. */
  lemma CrateFilesDistinct(repo: StatsRepo, name: string, other: string)
    requires name != [] && other != []
    ensures var v, r, x := VersionsPath(repo, name).value, ResultsPath(repo, name).value, IndexPath(repo, name).value;
      v[..|v| - 1] == r[..|r| - 1] == x[..|x| - 1] && v != r && r != x && v != x
    ensures name != other ==>
      && VersionsPath(repo, name) != VersionsPath(repo, other)
      && ResultsPath(repo, name) != ResultsPath(repo, other)
      && IndexPath(repo, name) != IndexPath(repo, other)
  {
    var v, r, x := VersionsPath(repo, name).value, ResultsPath(repo, name).value, IndexPath(repo, name).value;
    assert v[|v| - 1] != r[|r| - 1] by { assert VersionsFile[0] != ResultsFile[0]; }
    assert r[|r| - 1] != x[|x| - 1] by { assert ResultsFile[0] != IndexFile[0]; }
    assert v[|v| - 1] != x[|x| - 1] by { assert VersionsFile[0] != IndexFile[0]; }
    if name != other {
      assert CratePath(repo, name).value[|repo.root| + 2] != CratePath(repo, other).value[|repo.root| + 2];
      assert VersionsPath(repo, name).value[|repo.root| + 2] == name;
      assert VersionsPath(repo, other).value[|repo.root| + 2] == other;
      assert ResultsPath(repo, name).value[|repo.root| + 2] == name;
      assert ResultsPath(repo, other).value[|repo.root| + 2] == other;
      assert IndexPath(repo, name).value[|repo.root| + 2] == name;
      assert IndexPath(repo, other).value[|repo.root| + 2] == other;
    }
  }

  /** One version of a crate as `versions.json` lists it; the other fields of
   *  the record are not modelled. */
  datatype VersionInfo = VersionInfo(crateName: string, num: string)
  type VersionList = seq<VersionInfo>

  /** What reading and decoding each JSON file gives. */
  datatype Disk = Disk(dirs: Fs, versionFiles: map<Path, Result<VersionList, LoadError>>, resultFiles: map<Path, Result<ResultList, LoadError>>)

  /** `versions::from_file` / `results::from_file`: a file not on disk fails to open. */
  function LoadFile<T>(files: map<Path, Result<T, LoadError>>, p: Path): (r: Result<T, LoadError>)
    ensures p !in files ==> r == Err(LoadIo(NotFound))
    ensures p in files ==> r == files[p]
  {
    if p in files then files[p] else Err(LoadIo(NotFound))
  }

  /** `crate_versions`: the decoded `versions.json`; a bad name fails before any
   *  file is read, a load failure is a versions error. */
  function CrateVersions(repo: StatsRepo, disk: Disk, name: string): (r: Result<VersionList, RepoError>)
    ensures name == [] ==> r == Err(CrateDirError(BadCrateName(name)))
    ensures name != [] ==> var p := VersionsPath(repo, name).value;
      && (r.Ok? <==> p in disk.versionFiles && disk.versionFiles[p].Ok?)
      && (r.Ok? ==> r.value == disk.versionFiles[p].value)
      && (r.Err? ==> r.error.VersionsError? && (p in disk.versionFiles ==> disk.versionFiles[p] == Err(r.error.load)))
      && (p !in disk.versionFiles ==> r == Err(VersionsError(LoadIo(NotFound))))
  {
    match VersionsPath(repo, name)
    case Err(e) => Err(e)
    case Ok(p) =>
      match LoadFile(disk.versionFiles, p)
      case Err(e) => Err(VersionsError(e))
      case Ok(l) => Ok(l)
  }

  /** `crate_results`: the decoded `results.json`; a bad name fails before any
   *  file is read, a load failure is a results error. */
  function CrateResults(repo: StatsRepo, disk: Disk, name: string): (r: Result<ResultList, RepoError>)
    ensures name == [] ==> r == Err(CrateDirError(BadCrateName(name)))
    ensures name != [] ==> var p := ResultsPath(repo, name).value;
      && (r.Ok? <==> p in disk.resultFiles && disk.resultFiles[p].Ok?)
      && (r.Ok? ==> r.value == disk.resultFiles[p].value)
      && (r.Err? ==> r.error.ResultsError? && (p in disk.resultFiles ==> disk.resultFiles[p] == Err(r.error.load)))
      && (p !in disk.resultFiles ==> r == Err(ResultsError(LoadIo(NotFound))))
  {
    match ResultsPath(repo, name)
    case Err(e) => Err(e)
    case Ok(p) =>
      match LoadFile(disk.resultFiles, p)
      case Err(e) => Err(ResultsError(e))
      case Ok(l) => Ok(l)
  }
}
