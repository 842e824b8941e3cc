/**
 * The data the sharded crate directory is made of: paths, the raw entries a
 * directory listing yields, the error enum the three cratedir snapshots share,
 * and an abstract filesystem against which every traversal is evaluated.
 */
module Layout {
  import opened Wrappers

  /** A path as its sequence of components; `PathBuf::join` appends components. */
  type Path = seq<string>

  /** The `std::io::ErrorKind`s the code distinguishes (only NotFound matters to it). */
  datatype IoErrorKind = NotFound | PermissionDenied | OtherIo

  /** A directory entry's file name: its text and whether the `OsString` is valid Unicode. */
  datatype RawName = RawName(text: string, unicode: bool)

  /** One item of `fs::ReadDir`: an entry, or the error reading that entry. */
  type DirItem = Result<RawName, IoErrorKind>

  /** What `fs::read_dir` does for one path: fail to open, or list entries in OS order. */
  datatype Listing = OpenFailed(kind: IoErrorKind) | Listed(items: seq<DirItem>)

  /** The directory tree, by path. The order of each listing is whatever the OS gives. */
  type Fs = map<Path, Listing>

  /** `fs::read_dir(p)`; a path the map does not know fails to open with NotFound. */
  function ReadDir(fs: Fs, p: Path): Listing {
    if p in fs then fs[p] else OpenFailed(NotFound)
  }

  /** The variant tags of `cratedir::Error` / `CrateDirError` (the three snapshots agree). */
  datatype DirError =
    | NotUnicode(name: string)
    | IoError(kind: IoErrorKind)
    | BadSection(entry: string, prefix: string, root: Path)
    | NonSection(entry: string, prefix: string, root: Path)
    | BadSubSection(entry: string, prefix: string, root: Path)
    | BadCrate(entry: string, prefix: string, root: Path)
    | BadCrateName(crateName: string)

  /** A value of the in-band error streams: a validated name, or the error for one entry. */
  type Item = Result<string, DirError>
}
