# rust-vmatrix statistics repository, modelled in Dafny

rust-vmatrix keeps build results for very many crates in one directory tree. The
tree is sharded so that no directory has to list every crate:

    <root>/<prefix><c0>/<c0[c1]>/<crate>/{versions.json, results.json, index.html}

Here `c0` is the first character of the crate name, and `c0[c1]` is its first one
or two characters. The statistics repository always uses the prefix `crates-`.

This project models the core of that system:

- **Naming** (`Sharding`). A crate name maps to its three path components. The
  free functions `crate_rpath`/`crate_path` and the `CrateDir` methods are both
  modelled and proved to agree. The only error is an empty name.
- **Enumeration with in-band errors.**
  - The filesystem is a map from paths (sequences of components) to a listing. A
    listing is either a failure to open or a sequence of entries. Each entry is a
    read error or a name with a "valid Unicode" flag. A path missing from the map
    does not exist.
  - `InBandDirIterator` is a class with the states unopened / open / failed
    (`DirStream`).
  - The three validating iterators are one class, `LevelIterator`, with a level
    constant (`Validators`). Their per-entry checks are functions.
  - A stream is modelled as the finite sequence of items it yields. `flat_map`,
    the `NonSection` filter and `collect` are functions on those sequences
    (`Streams`).
  - The depth-first traversals of `CrateDir` are in `Traversal`.
  - The older eager `sections_in` / `subsections_in` / `crates_in` are loops
    (`Validators`). They are proved equal to collecting the lazy streams.
- **StatsRepo** (`Repo`). Configuration defaults, `crate_names_iterator` (proved
  equal to `CrateDir::crate_ids` with prefix `crates-`), the sorted `crate_names`,
  the crate file paths, and loading of the JSON files. Decoding is an oracle map
  from file path to decoded list or load error.
- **StatsRepoCache** (`Cache`). A class with the four memo tables of the source
  and a ghost count of repository calls. Its invariant says that every
  remembered answer is the repository's own answer.
- **Results** (`Results`). The per-rustc verdict of one record, and the
  binary-search lookup of a version.
- **Report grouping** (`LoadVersions`). The loop of `examples/load_versions.rs`
  that groups a crate's records into runs of equal result.

The three near-identical directory modules of the repository share one model:
`src/stats_repo/cratedir.rs`, `src/crate_dir.rs` and `src/cratedir.rs`. The two
result modules, `src/result_list.rs` and `src/results/`, also share one.

Text follows Rust's `str` semantics:
- Strings are sequences of Unicode scalar values.
- `str::len` is the UTF-8 byte length (`Strings.ByteLen`). The validators use it.
- `chars()` is indexing into the sequence. Name derivation uses it.
- `String`'s `Ord` compares UTF-8 bytes, which is the same order as comparing code
  points lexicographically (`Strings.Compare`).

The model follows the code:
- The section and subsection checks count bytes, not characters.
- The crate check inside `crate_ids` expects the whole subsection id as its
  prefix, not just the first character.
- The empty-name error is `BadCrateName`.
- `crate_names` drives its own nested iterator rather than `CrateDir::crate_ids`.
  The two are proved to produce the same stream.

## Model

| member | source | states |
|---|---|---|
| Sharding.CrateRPath | src/stats_repo/cratedir.rs:7-19 | fails with `BadCrateName(name)` exactly when the name is empty; otherwise three components: prefix plus first char, a non-empty prefix of the name of at most two chars (two iff the name has two), and the name |
| Sharding.CratePath | src/stats_repo/cratedir.rs:21-28 | fails exactly when `crate_rpath` fails, with the same error; otherwise the root followed by the `crate_rpath` components |
| Sharding.CrateFirst | src/crate_dir.rs:64-66 | `BadCrateName` iff empty, else the one-character prefix of the name |
| Sharding.SectionName | src/crate_dir.rs:68-70 | `BadCrateName` iff empty, else the shard prefix followed by the name's first character |
| Sharding.SubsectionName | src/crate_dir.rs:72-78 | `BadCrateName` iff empty, else a non-empty prefix of the name of at most two characters, two iff the name has two |
| Sharding.PathTo | src/crate_dir.rs:80-82 | the only error is an empty name; otherwise `[section_name, subsection_name, name]` |
| Sharding.PathToFile | src/crate_dir.rs:84-86 | `path_to` with the file name appended; same error condition |
| Sharding.AbsPathTo | src/crate_dir.rs:88-90 | the root followed by `path_to`; same error condition |
| Sharding.AbsPathToFile | src/crate_dir.rs:92-94 | the root followed by `path_to_file`; same error condition |
| Sharding.NamingSchemesAgree | src/cratedir.rs:56-77 | for every name, `CrateDir::path_to` equals `crate_rpath` and `abs_path_to` equals `crate_path`, errors included |
| DirStream.InBandDirIterator.constructor | src/cratedir.rs:79-86 | creating the iterator opens nothing (`opens == 0`); the items it will yield are exactly the directory's listing, or its open error alone |
| DirStream.InBandDirIterator.Next | src/crate_dir.rs:154-178 | the directory is opened on the first call and never again (`opens == 1`); each call returns the next remaining item or `None` at the end; a failed state stays failed |
| DirStream.OpenFailureOnce | src/stats_repo/cratedir.rs:106-126 | on a directory that cannot be opened, the first `next` yields the open error and the later calls yield `None`; after three calls the directory has been opened exactly once |
| DirStream.ListingInOrder | src/stats_repo/cratedir.rs:121-125 | a listed directory yields its entries in order, then `None`; after three calls it has been opened exactly once |
| Validators.ClassifySection | src/stats_repo/cratedir.rs:150-169 | a read error becomes `IoError`, a non-Unicode name `NotUnicode`; accepted iff the name is the prefix plus exactly one UTF-8 byte, yielding that one-character suffix; `NonSection` iff the name lacks the prefix; any other prefixed name is `BadSection` |
| Validators.ClassifySubSection | src/crate_dir.rs:229-244 | read error → `IoError`, non-Unicode → `NotUnicode`; accepted iff at most two UTF-8 bytes and starting with the section id, yielding the name; otherwise `BadSubSection` |
| Validators.ClassifyCrate | src/cratedir.rs:194-209 | read error → `IoError`, non-Unicode → `NotUnicode`; accepted iff the name starts with the subsection id, yielding the name; otherwise `BadCrate` |
| Validators.LevelItems | src/cratedir.rs:128-147 | one item per raw entry of the directory; an accepted entry is a valid-Unicode name that starts with the level's prefix |
| Validators.LevelItemsShape | src/cratedir.rs:128-147 | a validating iterator yields exactly one item per directory entry, and a directory that cannot be opened yields its `IoError` alone |
| Validators.LevelIterator.constructor | src/stats_repo/cratedir.rs:136-148 | wraps a fresh, unopened `InBandDirIterator` on the same root; the items to come are the validator applied to every entry |
| Validators.LevelIterator.Next | src/crate_dir.rs:194-213 | each call yields the validation of the next raw item, or `None` at the end; bad entries do not stop the stream |
| Validators.SectionsIn | src/stats_repo/cratedir.rs:30-48 | the loop returns exactly the collection of the section stream with `NonSection` items dropped; on success every section is one single-byte character |
| Validators.SubsectionsIn | src/stats_repo/cratedir.rs:50-67 | the loop returns exactly the collection of the subsection stream, so it aborts at the first failing entry; on success every name starts with the prefix and has at most two bytes |
| Validators.CratesIn | src/stats_repo/cratedir.rs:69-86 | the loop returns exactly the collection of the crate stream, so it aborts at the first failing entry; on success every name starts with the prefix |
| Streams.FlatMap | src/crate_dir.rs:110-119 | every error of the outer stream is passed through into the flattened stream |
| Streams.FlatMapSnoc | src/crate_dir.rs:110-119 | in the error-passing `flat_map`, an `Err` item contributes exactly itself and an `Ok(v)` item exactly its expansion |
| Streams.FlatMapOrigin | src/stats_repo.rs:41-57 | every item of a flattened stream is an error of the outer stream or an item of the expansion of one of its `Ok` values |
| Streams.DropNonSection | src/stats_repo.rs:64 | the filter keeps exactly the items that are not `NonSection`: every kept item comes from the input, and every input item that is not `NonSection` is kept |
| Streams.Collect | src/stats_repo.rs:65 | `collect` into a `Result` succeeds iff every item is `Ok`, and then holds every value in order; otherwise it holds the first error |
| Streams.CollectDropped | src/stats_repo.rs:63-65 | filtering out `NonSection` and collecting succeeds iff every item is `Ok` or `NonSection`, yielding all `Ok` values in order; otherwise it fails with the first error that is not `NonSection` |
| Traversal.SectionIds | src/crate_dir.rs:96-98 | one item per raw entry of the root; an accepted section id is one character of one UTF-8 byte, and the entry it came from is the prefix followed by that id |
| Traversal.SectionNames | src/crate_dir.rs:100-103 | one output per section item, errors unchanged; each accepted id comes back as the full entry name: the prefix plus one character |
| Traversal.SubsectionsOf | src/crate_dir.rs:105-108 | every subsection accepted inside a section starts with the section id and is at most two UTF-8 bytes long |
| Traversal.CratesOf | src/crate_dir.rs:121-126 | every crate accepted inside a subsection starts with the subsection id; no item of it is `BadCrateName` |
| Traversal.CrateExpansion | src/crate_dir.rs:128-142 | an empty subsection id expands to the single `BadCrateName` error of `crate_first`, and only an empty id does; any other id expands to the crates of section `id[0]` and subsection `id` |
| Traversal.SubsectionIdsSound | src/crate_dir.rs:110-119 | every subsection id `subsection_ids` accepts is non-empty, at most two bytes long, and starts with an accepted section id |
| Traversal.CrateIdsNeverBadCrateName | src/crate_dir.rs:135-137 | no item of `crate_ids` is `BadCrateName`: the `crate_first` failure branch is unreachable for accepted subsection ids |
| Traversal.CrateIdsSound | src/crate_dir.rs:128-142 | every crate `crate_ids` yields is non-empty and starts with an accepted subsection id; its first character names an accepted section, which is the section `section_name` derives for it |
| Traversal.PathToAccepted | src/crate_dir.rs:197-213 | for a name whose subsection part is ASCII, each component of `path_to` passes the validator of its level |
| Traversal.NonAsciiSectionRejected | src/crate_dir.rs:202-207 | a name whose first character is not ASCII gets a section directory that the section validator rejects as `BadSection`, because `section_name` counts characters and the validator counts bytes |
| Traversal.SingleCrateTree | src/crate_dir.rs:121-142 | a tree made of just the directories `path_to` names for one crate enumerates to exactly that crate |
| Traversal.EnumerationLooserThanPathTo | src/crate_dir.rs:260-275 | the crate `abc` filed under subsection `a` is enumerated, although `path_to("abc")` names subsection `ab`, so enumeration and `path_to` do not round-trip in general |
| Repo.FromConfig | src/stats_repo.rs:26-31 | the configured root; the configured rustc list, or the empty list when the `targets` table or its `rustc` key is absent |
| Repo.SectionExpansion | src/stats_repo.rs:41-57 | for an accepted section `s`, the inner expansion of `crates-<s>` is the subsection stream of `s` flattened through `CrateDir`'s per-subsection crate expansion |
| Repo.CrateNamesIterator | src/stats_repo.rs:38-58 | the nested `crate_names_iterator` (prefix `crates-`, descending into `crates-<s>/<sub>`) yields exactly the stream of `CrateDir::crate_ids` on the same root and prefix |
| Repo.CrateNames | src/stats_repo.rs:60-71 | on success the list is sorted and is a permutation of the traversal's names, duplicates kept |
| Repo.CrateNamesSpec | src/stats_repo.rs:60-71 | `crate_names` fails exactly when the traversal yields an error other than `NonSection`, and then with the first such error; it succeeds exactly when every other item is a name |
| Repo.TwoShardIterator | src/stats_repo.rs:38-58 | on a tree with `crates-a/ab/abc`, `crates-b/bc/bcc` and a stray top-level `README`, the traversal yields the two crates in listing order and reports `README` as `NonSection` |
| Repo.TwoShardCrateNames | src/stats_repo.rs:60-71 | on that tree `crate_names` returns `["abc", "bcc"]`: the stray file is passed over and the names are sorted |
| Repo.ListedNamesHavePaths | src/stats_repo.rs:73-78 | every listed name is non-empty and sits under an accepted section named by its first character, so `crate_path` of it succeeds |
| Repo.CratePath | src/stats_repo.rs:73-78 | `root/crates-<c0>/<c0[c1]>/<name>`; an empty name is `CrateDirError(BadCrateName)` |
| Repo.CrateFilePath | src/stats_repo.rs:80-86 | the crate directory with one more component, the file name; same error condition |
| Repo.VersionsPath | src/stats_repo.rs:88-93 | fails exactly for an empty name; otherwise the crate directory followed by `versions.json` |
| Repo.ResultsPath | src/stats_repo.rs:95-100 | fails exactly for an empty name; otherwise the crate directory followed by `results.json` |
| Repo.IndexPath | src/stats_repo.rs:102-107 | fails exactly for an empty name; otherwise the crate directory followed by `index.html` |
| Repo.CrateFilesDistinct | src/stats_repo.rs:88-107 | `versions.json`, `results.json` and `index.html` of a crate are three distinct files in the same directory, and two different crates never share a file |
| Repo.CrateVersions | src/stats_repo.rs:109-114 | an empty name fails with the path error before any file is read; otherwise the decoded `versions.json`, with a missing file or bad content as `VersionsError` |
| Repo.CrateResults | src/stats_repo.rs:116-121 | an empty name fails with the path error before any file is read; otherwise the decoded `results.json`, with a missing file or bad content as `ResultsError` |
| Strings.ByteLen | src/stats_repo/cratedir.rs:40 | the UTF-8 length, between the character count and four times it |
| Strings.AsciiByteLen | src/stats_repo/cratedir.rs:60 | for ASCII text the byte length is the character count |
| Strings.ByteLenOne | src/stats_repo/cratedir.rs:159 | a suffix of one byte is exactly one ASCII character |
| Strings.Compare | src/result_list.rs:88 | `Equal` exactly when the two strings are equal |
| Strings.CompareFlip | src/result_list.rs:88 | `a` sorts before `b` exactly when `b` sorts after `a` |
| Strings.LeTotal | src/stats_repo.rs:66-69 | any two names are ordered one way or the other, as sorting needs |
| Strings.LtTrans | src/stats_repo.rs:66-69 | the strict order is transitive |
| Strings.Sort | src/stats_repo.rs:66-69 | sorting yields an ordered permutation of its input |
| Results.RustcResult | src/results/result_info.rs:18-30 | `Fail` iff the rustc is in the fail list, even when it is also in the pass list; `Pass` iff it is in the pass list and not in the fail list; `Unknown` iff in neither |
| Results.VersionCmp | src/results/result_info.rs:33-38 | `Equal` iff `num` is the version; `Less`/`Greater` by plain string order |
| Results.TenSortsBeforeNine | src/result_list.rs:84-89 | string order is not version order: `"1.10.0"` sorts before `"1.9.0"` |
| Results.SearchByNum | src/result_list.rs:47 | a found index always holds a record whose `num` is the version; on a list sorted by `num` that contains the version, the search finds one |
| Results.RustcResultOf | src/results/result_list.rs:11-24 | `Unknown` whenever no record has the version, whatever the order (so for an empty list); any other answer is the result of a record with that version; on a sorted list containing the version, the answer is the result of a record with that version |
| Cache.Lift | src/stats_repo_cache.rs:110-112 | a success stays a success with the same value; a repository error becomes `StatsRepoError` carrying that error, never `IoError`, `ResultNotExists` or `ProvisionFail` |
| Cache.LiftKeepsAnswersApart | src/stats_repo_cache.rs:110-112 | the conversion loses nothing: two repository answers convert to the same cache answer exactly when they are equal |
| Cache.StatsRepoCache.ForRepo | src/stats_repo_cache.rs:14-22 | a new cache holds nothing and has asked the repository nothing |
| Cache.StatsRepoCache.CrateNames | src/stats_repo_cache.rs:29-38 | the answer is the repository's; the repository is asked only while no list is remembered; only a success is remembered, so a failure is retried; the other tables are untouched |
| Cache.StatsRepoCache.CratePath | src/stats_repo_cache.rs:40-52 | the answer is the repository's; a remembered name does not reach the repository; only successes are remembered; the other tables are untouched |
| Cache.StatsRepoCache.CrateVersions | src/stats_repo_cache.rs:54-66 | the answer is the repository's; only successes are remembered, with no negative cache; the other tables are untouched |
| Cache.StatsRepoCache.CrateResults | src/stats_repo_cache.rs:68-99 | a remembered entry answers without the repository: `ResultNotExists` for an absence. Otherwise the repository is asked once: a success is stored; a missing file is stored as absent but reported as `IoError(NotFound)` on this call; any other error is passed on and not stored. `ProvisionFail` never occurs |
| Cache.NamesAskedOnceOnSuccess | src/stats_repo_cache.rs:30-34 | two calls of `crate_names` give the same answer, which is the repository's; they reach the repository once if it succeeds and twice if it fails |
| Cache.MissingResultsRemembered | src/stats_repo_cache.rs:76-94 | for a crate without `results.json`, the first call gives `IoError(NotFound)` and the next two `ResultNotExists`; the three calls reach the repository once |
| Cache.VersionsNotNegativelyCached | src/stats_repo_cache.rs:58-59 | a missing version list fails with the same error on both calls, and both calls reach the repository |
| LoadVersions.Runs | examples/load_versions.rs:27-53 | at most one run per record, and no runs exactly when there are no records |
| LoadVersions.Blocks | examples/load_versions.rs:27-53 | at most one block per record of the crate, and no blocks exactly when the crate has no records |
| LoadVersions.BlocksAreRuns | examples/load_versions.rs:32-53 | the blocks are the maximal runs of equal result: one block per run, in order; each record lies in its run's block, which carries the record's result; a run's first record gives `min` and its last record `max`; neighbouring blocks differ |
| LoadVersions.GroupRuns | examples/load_versions.rs:21-53 | the loop builds exactly those blocks; `saw_pass` holds iff some record's result is `Pass`; a non-empty list is required because the final push unwraps |
| LoadVersions.RangeText | examples/load_versions.rs:59 | the text is the lone version exactly when `min == max`; otherwise it is `min -> max` |
| LoadVersions.ReportCrate | examples/load_versions.rs:20-56 | a crate whose results cannot be had, or none of whose records passes, gives no report; otherwise its report is its blocks |

## Left out

- Real filesystem calls are not modelled. `fs::read_dir`, `File::open` and
  `read_to_string` become the directory map and the file oracle. Any listing
  order is allowed, and every property holds for every order.
- JSON and TOML decoding (serde) is not modelled. Each file is an oracle entry
  holding the decoded list, `SerdeJson`, or an I/O error kind.
- Only `crate` and `num` of each version record are modelled. The record's
  other fields are plain decoded data that no core operation reads.
- The existence and is-directory checks of `StatsRepoConfig::root_path` are
  left out, because they are filesystem queries.
- Error message text, `Display` and `From` plumbing are not modelled. Errors keep
  only their variant and the name, prefix and root they carry. A non-Unicode
  `OsString` keeps its lossy text.
- HTML rendering and the console programs are left out. This covers
  `src/pages/index.rs`, `examples/load_config.rs` and `examples/iter_test.rs`.
  It also covers the outer loops, printing and colouring of
  `examples/load_versions.rs`.
- `root()` and `rustcs()` of `StatsRepo` and `StatsRepoCache` are plain accessors.
  The first cannot fail. They are modelled by the `root` and `rustcs` fields.
  The unused `RepoIo` variant stands for the error `root()` declares.
- `version()` is the `num` field itself and has no member of its own.
- `PathBuf::join` semantics for absolute components or components containing
  separators are not modelled. Paths are sequences of components.
- Which of several records with the same `num` `binary_search_by` returns is not
  pinned down. `Results.SearchByNum` guarantees only that the record it returns
  matches.
- Borrow lifetimes of `StatsRepoCache<'a>` are not modelled. The code is
  single-threaded.
- The filesystem snapshot is fixed for each iterator and for the cache. Changes
  made to the tree while a traversal runs are not modelled.
- LoadVersions.GroupRuns: an empty results list makes the source panic at the
  final `unwrap`, so the model requires a non-empty list. It does not model the
  panic itself.
- LoadVersions.ReportCrate: for the same reason it requires a successful results
  list to be non-empty. The panic on an empty list is not modelled.
- Repo.LoadFile: reading and decoding a file is an oracle lookup, so it has no
  property of its own beyond the lookup. `NotFound` for a file the disk lacks is
  stated through `Repo.CrateVersions` and `Repo.CrateResults`.
