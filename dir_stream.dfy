/**
 * `InBandDirIterator`: a directory listing that opens lazily, on the first `next`,
 * and reports a failure to open as one in-band error followed by the end of the
 * stream. The filesystem is the snapshot `fs` the iterator was created against;
 * the ghost counter `opens` records every call of `fs::read_dir`.
 */
module DirStream {
  import opened Wrappers
  import opened Layout

  /** Everything an iterator over `l` yields in its life: the open error alone, or the entries. */
  function StreamItems(l: Listing): seq<DirItem> {
    match l
    case OpenFailed(k) => [Err(k)]
    case Listed(items) => items
  }

  /** `inner: Option<Result<ReadDir, ()>>`: not yet opened, open on the entries
   *  still to come, or failed to open. */
  datatype DirState = Unopened | Open(rest: seq<DirItem>) | Failed

  class InBandDirIterator {
    const fs: Fs
    const root: Path
    var inner: DirState
    ghost var opens: nat

    ghost predicate Valid()
      reads this
    {
      && opens == (if inner.Unopened? then 0 else 1)
      && (inner.Failed? ==> ReadDir(fs, root).OpenFailed?)
      && (inner.Open? ==>
            var l := ReadDir(fs, root);
            l.Listed? && |inner.rest| <= |l.items| && inner.rest == l.items[|l.items| - |inner.rest|..])
    }

    /** The items later calls of `Next` will return, in order. */
    ghost function Remaining(): seq<DirItem>
      reads this
      requires Valid()
    {
      match inner
      case Unopened => StreamItems(ReadDir(fs, root))
      case Open(rest) => rest
      case Failed => []
    }

    /** `InBandDirIterator::new`: remembers the root and touches nothing. */
    constructor (fs: Fs, root: Path)
      ensures Valid() && this.fs == fs && this.root == root
      ensures inner == Unopened && opens == 0
      ensures Remaining() == StreamItems(ReadDir(fs, root))
    {
      this.fs := fs;
      this.root := root;
      inner := Unopened;
      opens := 0;
    }

    /** `Iterator::next`: opens the directory on the first call only, then hands
     *  out the remaining items one at a time. */
    method Next() returns (item: Option<DirItem>)
      requires Valid()
      modifies this
      ensures Valid() && opens == 1
      ensures old(inner).Failed? ==> inner.Failed?
      ensures old(Remaining()) == [] ==> item == None && Remaining() == []
      ensures old(Remaining()) != [] ==> item == Some(old(Remaining())[0]) && Remaining() == old(Remaining())[1..]
    {
      if inner.Unopened? {
        opens := opens + 1;
        match ReadDir(fs, root)
        case OpenFailed(k) =>
          // the stashed error is returned by this call only
          inner := Failed;
          item := Some(Err(k));
          return;
        case Listed(items) =>
          inner := Open(items);
      }
      if inner.Open? {
        var rest := inner.rest;
        if rest == [] {
          item := None;
        } else {
          item := Some(rest[0]);
          inner := Open(rest[1..]);
        }
      } else {
        item := None;
      }
    }
  }

  /** A directory that cannot be opened yields its error on the first call, then
   *  the end of the stream on every later call; `opens` counts the `read_dir` calls. */
  method OpenFailureOnce(fs: Fs, root: Path, k: IoErrorKind)
    returns (first: Option<DirItem>, second: Option<DirItem>, third: Option<DirItem>, ghost opens: nat)
    requires ReadDir(fs, root) == OpenFailed(k)
    ensures first == Some(Err(k)) && second == None && third == None
    ensures opens == 1
  {
    var it := new InBandDirIterator(fs, root);
    first := it.Next();
    second := it.Next();
    third := it.Next();
    opens := it.opens;
  }

  /** A listed directory yields its entries in order, then the end of the stream,
   *  and is read with one `read_dir` call. */
  method ListingInOrder(fs: Fs, root: Path, a: DirItem, b: DirItem)
    returns (first: Option<DirItem>, second: Option<DirItem>, third: Option<DirItem>, ghost opens: nat)
    requires ReadDir(fs, root) == Listed([a, b])
    ensures first == Some(a) && second == Some(b) && third == None
    ensures opens == 1
  {
    var it := new InBandDirIterator(fs, root);
    first := it.Next();
    second := it.Next();
    third := it.Next();
    opens := it.opens;
  }
}
