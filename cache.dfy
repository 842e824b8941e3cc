/**
 * `StatsRepoCache`: a memoizing front of one `StatsRepo`. Names, paths and
 * version lists are remembered once fetched successfully; results are remembered
 * too, and a results file that does not exist is remembered as absent.
 *
 * The repository and the files on disk are fixed for the cache's life; the ghost
 * counter `repoCalls` counts every query forwarded to the repository.
 */
module Cache {
  import opened Wrappers
  import opened Layout
  import opened Results
  import Repo

  datatype CacheError =
    | CacheIo(kind: IoErrorKind)
    | ProvisionFail(what: string)
    | ResultNotExists(name: string)
    | StatsRepoError(repoError: Repo.RepoError)

  /** A repository answer as the cache passes it on: `?` turns its error into `StatsRepoError`. */
  function Lift<T>(r: Result<T, Repo.RepoError>): (c: Result<T, CacheError>)
    ensures c.Ok? <==> r.Ok?
    ensures r.Ok? ==> c.value == r.value
    ensures c.Err? ==> c.error.StatsRepoError? && c.error.repoError == r.error
    ensures c.Err? ==> !c.error.CacheIo? && !c.error.ResultNotExists? && !c.error.ProvisionFail?
  {
    match r
    case Ok(v) => Ok(v)
    case Err(e) => Err(StatsRepoError(e))
  }

  /** Passing a repository answer on loses nothing: different answers stay
   *  different, and a lifted answer is never mistaken for the cache's own errors. */
  lemma LiftKeepsAnswersApart<T>(a: Result<T, Repo.RepoError>, b: Result<T, Repo.RepoError>)
    ensures Lift(a) == Lift(b) <==> a == b
  {
    if Lift(a) == Lift(b) && a.Err? {
      assert Lift(a).error.repoError == a.error;
    }
  }

  /** What an absent results file makes the repository report. */
  const ResultsNotFound: Repo.RepoError := Repo.ResultsError(Repo.LoadIo(NotFound))

  class StatsRepoCache {
    const repo: Repo.StatsRepo
    const disk: Repo.Disk
    var names: Option<seq<string>>
    var paths: map<string, Path>
    var versions: map<string, Repo.VersionList>
    var results: map<string, Option<ResultList>>
    ghost var repoCalls: nat

    /** Every remembered answer is the repository's own answer. */
    ghost predicate Valid()
      reads this
    {
      && (names.Some? ==> Repo.CrateNames(repo, disk.dirs) == Ok(names.value))
      && (forall c | c in paths :: Repo.CratePath(repo, c) == Ok(paths[c]))
      && (forall c | c in versions :: Repo.CrateVersions(repo, disk, c) == Ok(versions[c]))
      && (forall c | c in results && results[c].Some? :: Repo.CrateResults(repo, disk, c) == Ok(results[c].value))
      && (forall c | c in results && results[c].None? :: Repo.CrateResults(repo, disk, c) == Err(ResultsNotFound))
    }

    /** `for_repo`: everything empty, nothing asked yet. */
    constructor ForRepo(repo: Repo.StatsRepo, disk: Repo.Disk)
      ensures Valid() && this.repo == repo && this.disk == disk
      ensures names == None && paths == map[] && versions == map[] && results == map[]
      ensures repoCalls == 0
    {
      this.repo := repo;
      this.disk := disk;
      names := None;
      paths := map[];
      versions := map[];
      results := map[];
      repoCalls := 0;
    }

    /** `crate_names`: asks the repository only while no list is remembered, and
     *  remembers only a successful list. */
    method CrateNames() returns (r: Result<seq<string>, CacheError>)
      requires Valid()
      modifies this
      ensures Valid()
      ensures r == Lift(Repo.CrateNames(repo, disk.dirs))
      ensures old(names).Some? ==> names == old(names) && repoCalls == old(repoCalls)
      ensures old(names).None? ==> repoCalls == old(repoCalls) + 1 && names == (if r.Ok? then Some(r.value) else None)
      ensures paths == old(paths) && versions == old(versions) && results == old(results)
    {
      if names.None? {
        repoCalls := repoCalls + 1;
        var fetched := Repo.CrateNames(repo, disk.dirs);
        if fetched.Err? {
          return Err(StatsRepoError(fetched.error));
        }
        names := Some(fetched.value);
      }
      r := Ok(names.value);
    }

    /** `crate_path`: memoizes successes per name; a failure is passed on and not remembered. */
    method CratePath(name: string) returns (r: Result<Path, CacheError>)
      requires Valid()
      modifies this
      ensures Valid()
      ensures r == Lift(Repo.CratePath(repo, name))
      ensures name in old(paths) ==> paths == old(paths) && repoCalls == old(repoCalls)
      ensures name !in old(paths) ==>
        repoCalls == old(repoCalls) + 1 && paths == (if r.Ok? then old(paths)[name := r.value] else old(paths))
      ensures names == old(names) && versions == old(versions) && results == old(results)
    {
      if name !in paths {
        repoCalls := repoCalls + 1;
        var fetched := Repo.CratePath(repo, name);
        if fetched.Err? {
          return Err(StatsRepoError(fetched.error));
        }
        paths := paths[name := fetched.value];
      }
      r := Ok(paths[name]);
    }

    /** `crate_versions`: memoizes successes per name; there is no negative cache,
     *  so a failing name is asked again on every call. */
    method CrateVersions(name: string) returns (r: Result<Repo.VersionList, CacheError>)
      requires Valid()
      modifies this
      ensures Valid()
      ensures r == Lift(Repo.CrateVersions(repo, disk, name))
      ensures name in old(versions) ==> versions == old(versions) && repoCalls == old(repoCalls)
      ensures name !in old(versions) ==>
        repoCalls == old(repoCalls) + 1 && versions == (if r.Ok? then old(versions)[name := r.value] else old(versions))
      ensures names == old(names) && paths == old(paths) && results == old(results)
    {
      if name !in versions {
        repoCalls := repoCalls + 1;
        var fetched := Repo.CrateVersions(repo, disk, name);
        if fetched.Err? {
          return Err(StatsRepoError(fetched.error));
        }
        versions := versions[name := fetched.value];
      }
      r := Ok(versions[name]);
    }

    /** `crate_results`: a remembered entry answers without the repository,
     *  `ResultNotExists` for a remembered absence; otherwise the repository is
     *  asked once, a success is remembered, a missing file is remembered as absent
     *  but reported as the I/O error on this call, and any other failure is passed
     *  on and not remembered. */
    method CrateResults(name: string) returns (r: Result<ResultList, CacheError>)
      requires Valid()
      modifies this
      ensures Valid()
      ensures name in old(results) ==>
        && results == old(results) && repoCalls == old(repoCalls)
        && r == (if old(results)[name].Some? then Ok(old(results)[name].value) else Err(ResultNotExists(name)))
      ensures name !in old(results) ==>
        var fetched := Repo.CrateResults(repo, disk, name);
        && repoCalls == old(repoCalls) + 1
        && (fetched.Ok? ==> r == Ok(fetched.value) && results == old(results)[name := Some(fetched.value)])
        && (fetched == Err(ResultsNotFound) ==> r == Err(CacheIo(NotFound)) && results == old(results)[name := None])
        && (fetched.Err? && fetched != Err(ResultsNotFound) ==> r == Err(StatsRepoError(fetched.error)) && results == old(results))
      ensures names == old(names) && paths == old(paths) && versions == old(versions)
      ensures r.Ok? <==> Repo.CrateResults(repo, disk, name).Ok?
      ensures r.Ok? ==> Repo.CrateResults(repo, disk, name) == Ok(r.value)
      ensures r.Err? && (r.error.CacheIo? || r.error.ResultNotExists?) ==> Repo.CrateResults(repo, disk, name) == Err(ResultsNotFound)
      ensures r.Err? ==> !r.error.ProvisionFail?
    {
      if name in results {
        match results[name]
        case Some(list) => r := Ok(list);
        case None => r := Err(ResultNotExists(name));
      } else {
        repoCalls := repoCalls + 1;
        var fetched := Repo.CrateResults(repo, disk, name);
        match fetched
        case Ok(list) =>
          results := results[name := Some(list)];
          r := Ok(list);
        case Err(e) =>
          if e == ResultsNotFound {
            results := results[name := None];
            r := Err(CacheIo(NotFound));
          } else {
            r := Err(StatsRepoError(e));
          }
      }
    }
  }

  /** Two calls of `crate_names` give the same answer; after a success the second
   *  call does not reach the repository, after a failure it asks again. `calls`
   *  counts the repository queries. */
  method NamesAskedOnceOnSuccess(repo: Repo.StatsRepo, disk: Repo.Disk)
    returns (first: Result<seq<string>, CacheError>, second: Result<seq<string>, CacheError>, ghost calls: nat)
    ensures first == second == Lift(Repo.CrateNames(repo, disk.dirs))
    ensures calls == (if first.Ok? then 1 else 2)
  {
    var cache := new StatsRepoCache.ForRepo(repo, disk);
    first := cache.CrateNames();
    second := cache.CrateNames();
    calls := cache.repoCalls;
  }

  /** A crate without a results file: the first call reports the I/O error, every
   *  later call `ResultNotExists`, and the repository is asked only once. */
  method MissingResultsRemembered(repo: Repo.StatsRepo, disk: Repo.Disk, name: string)
    returns (first: Result<ResultList, CacheError>, second: Result<ResultList, CacheError>,
             third: Result<ResultList, CacheError>, ghost calls: nat)
    requires name != [] && Repo.ResultsPath(repo, name).value !in disk.resultFiles
    ensures first == Err(CacheIo(NotFound))
    ensures second == third == Err(ResultNotExists(name))
    ensures calls == 1
  {
    var cache := new StatsRepoCache.ForRepo(repo, disk);
    first := cache.CrateResults(name);
    second := cache.CrateResults(name);
    third := cache.CrateResults(name);
    calls := cache.repoCalls;
  }

  /** A version list that fails to load is asked for again on every call: each
   *  call reaches the repository. */
  method VersionsNotNegativelyCached(repo: Repo.StatsRepo, disk: Repo.Disk, name: string)
    returns (first: Result<Repo.VersionList, CacheError>, second: Result<Repo.VersionList, CacheError>, ghost calls: nat)
    requires name != [] && Repo.VersionsPath(repo, name).value !in disk.versionFiles
    ensures first == second == Err(StatsRepoError(Repo.VersionsError(Repo.LoadIo(NotFound))))
    ensures calls == 2
  {
    var cache := new StatsRepoCache.ForRepo(repo, disk);
    first := cache.CrateVersions(name);
    second := cache.CrateVersions(name);
    calls := cache.repoCalls;
  }
}
