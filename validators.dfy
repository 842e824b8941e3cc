/**
 * The three per-level checks of the sharded layout, as the lazy validating
 * iterators (`SectionIterator`, `SubSectionIterator`, `CrateIterator`) and as the
 * older eager functions (`sections_in`, `subsections_in`, `crates_in`).
 *
 * The lazy form turns every raw directory item into exactly one output item and
 * never stops early; the eager form returns the first error it meets.
 */
module Validators {
  import opened Wrappers
  import opened Strings
  import opened Layout
  import opened DirStream
  import opened Streams

  /** Section check: the entry must be `prefix` followed by exactly one UTF-8 byte. */
  function ClassifySection(prefix: string, root: Path, item: DirItem): (r: Item)
    ensures item.Err? ==> r == Err(IoError(item.error))
    ensures item.Ok? && !item.value.unicode ==> r == Err(NotUnicode(item.value.text))
    ensures r.Ok? <==>
      item.Ok? && item.value.unicode && prefix <= item.value.text
      && ByteLen(item.value.text[|prefix|..]) == 1
    ensures r.Ok? ==> item.value.text == prefix + r.value && |r.value| == 1
    ensures item.Ok? && item.value.unicode && !(prefix <= item.value.text) ==>
      r == Err(NonSection(item.value.text, prefix, root))
    ensures item.Ok? && item.value.unicode && prefix <= item.value.text && !r.Ok? ==>
      r == Err(BadSection(item.value.text, prefix, root))
  {
    match item
    case Err(k) => Err(IoError(k))
    case Ok(n) =>
      if !n.unicode then Err(NotUnicode(n.text))
      else if prefix <= n.text then
        var c := n.text[|prefix|..];
        if ByteLen(c) == 1 then
          ByteLenOne(c);
          assert n.text == prefix + c;
          Ok(c)
        else Err(BadSection(n.text, prefix, root))
      else Err(NonSection(n.text, prefix, root))
  }

  /** Subsection check: at most two UTF-8 bytes, starting with the section id. */
  function ClassifySubSection(prefix: string, root: Path, item: DirItem): (r: Item)
    ensures item.Err? ==> r == Err(IoError(item.error))
    ensures item.Ok? && !item.value.unicode ==> r == Err(NotUnicode(item.value.text))
    ensures r.Ok? <==>
      item.Ok? && item.value.unicode && ByteLen(item.value.text) <= 2 && prefix <= item.value.text
    ensures r.Ok? ==> r.value == item.value.text && |r.value| <= 2
    ensures item.Ok? && item.value.unicode && !r.Ok? ==> r == Err(BadSubSection(item.value.text, prefix, root))
  {
    match item
    case Err(k) => Err(IoError(k))
    case Ok(n) =>
      if !n.unicode then Err(NotUnicode(n.text))
      else if ByteLen(n.text) <= 2 && prefix <= n.text then Ok(n.text)
      else Err(BadSubSection(n.text, prefix, root))
  }

  /** Crate check: the entry must start with the subsection id. */
  function ClassifyCrate(prefix: string, root: Path, item: DirItem): (r: Item)
    ensures item.Err? ==> r == Err(IoError(item.error))
    ensures item.Ok? && !item.value.unicode ==> r == Err(NotUnicode(item.value.text))
    ensures r.Ok? <==> item.Ok? && item.value.unicode && prefix <= item.value.text
    ensures r.Ok? ==> r.value == item.value.text
    ensures item.Ok? && item.value.unicode && !r.Ok? ==> r == Err(BadCrate(item.value.text, prefix, root))
  {
    match item
    case Err(k) => Err(IoError(k))
    case Ok(n) =>
      if !n.unicode then Err(NotUnicode(n.text))
      else if prefix <= n.text then Ok(n.text)
      else Err(BadCrate(n.text, prefix, root))
  }

  /** Which of the three validating iterators. */
  datatype Level = SectionLevel | SubSectionLevel | CrateLevel

  function Classify(level: Level, prefix: string, root: Path, item: DirItem): Item {
    match level
    case SectionLevel => ClassifySection(prefix, root, item)
    case SubSectionLevel => ClassifySubSection(prefix, root, item)
    case CrateLevel => ClassifyCrate(prefix, root, item)
  }

  /** No validator ever reports a bad crate name: that error belongs to name derivation. */
  lemma ClassifyNeverBadCrateName(level: Level, prefix: string, root: Path, item: DirItem)
    ensures var r := Classify(level, prefix, root, item); r.Err? ==> !r.error.BadCrateName?
  {
  }

  /** The validator applied item by item. */
  function Classified(level: Level, prefix: string, root: Path, items: seq<DirItem>): seq<Item> {
    seq(|items|, i requires 0 <= i < |items| => Classify(level, prefix, root, items[i]))
  }

  /** Everything one validating iterator over `root` yields: one item per raw
   *  item, an accepted name only for a Unicode entry that starts with `prefix`. */
  function LevelItems(level: Level, fs: Fs, root: Path, prefix: string): (r: seq<Item>)
    ensures |r| == |StreamItems(ReadDir(fs, root))|
    ensures forall i | 0 <= i < |r| && r[i].Ok? ::
      StreamItems(ReadDir(fs, root))[i].Ok? && StreamItems(ReadDir(fs, root))[i].value.unicode
      && prefix <= StreamItems(ReadDir(fs, root))[i].value.text
  {
    Classified(level, prefix, root, StreamItems(ReadDir(fs, root)))
  }

  /** One output per raw item, whatever the item; a directory that cannot be
   *  opened yields its error once and nothing else. */
  lemma LevelItemsShape(level: Level, fs: Fs, root: Path, prefix: string)
    ensures ReadDir(fs, root).Listed? ==> |LevelItems(level, fs, root, prefix)| == |ReadDir(fs, root).items|
    ensures ReadDir(fs, root).OpenFailed? ==>
      LevelItems(level, fs, root, prefix) == [Err(IoError(ReadDir(fs, root).kind))]
  {
  }

  /** The validating iterators (`SectionIterator`, `SubSectionIterator`,
   *  `CrateIterator`): each wraps an `InBandDirIterator` and maps its items. */
  class LevelIterator {
    const level: Level
    const root: Path
    const prefix: string
    const inner: InBandDirIterator

    ghost predicate Valid()
      reads this, inner
    {
      inner.Valid() && inner.root == root
    }

    ghost function Remaining(): seq<Item>
      reads this, inner
      requires Valid()
    {
      Classified(level, prefix, root, inner.Remaining())
    }

    constructor (level: Level, fs: Fs, root: Path, prefix: string)
      ensures Valid() && fresh(inner)
      ensures this.level == level && this.root == root && this.prefix == prefix
      ensures inner.opens == 0
      ensures Remaining() == LevelItems(level, fs, root, prefix)
    {
      this.level := level;
      this.root := root;
      this.prefix := prefix;
      inner := new InBandDirIterator(fs, root);
    }

    method Next() returns (item: Option<Item>)
      requires Valid()
      modifies inner
      ensures Valid() && inner.opens == 1
      ensures old(Remaining()) == [] ==> item == None && Remaining() == []
      ensures old(Remaining()) != [] ==> item == Some(old(Remaining())[0]) && Remaining() == old(Remaining())[1..]
    {
      ghost var before := inner.Remaining();
      var d := inner.Next();
      match d
      case None => item := None;
      case Some(x) =>
        item := Some(Classify(level, prefix, root, x));
        assert Classified(level, prefix, root, before[1..]) == Classified(level, prefix, root, before)[1..];
    }
  }

  /** `sections_in`: the one-character suffixes of the prefixed entries, in listing
   *  order, skipping unprefixed entries and stopping at the first other error. */
  method SectionsIn(fs: Fs, root: Path, prefix: string) returns (r: Result<seq<string>, DirError>)
    ensures r == Collect(DropNonSection(LevelItems(SectionLevel, fs, root, prefix)))
    ensures r.Ok? ==> forall s | s in r.value :: |s| == 1 && ByteLen(s) == 1
  {
    var all := LevelItems(SectionLevel, fs, root, prefix);
    match ReadDir(fs, root)
    case OpenFailed(k) =>
      return Err(IoError(k));
    case Listed(items) =>
      var sections := [];
      assert |all| == |items|;
      for i := 0 to |items|
        invariant Collect(DropNonSection(all[..i])) == Ok(sections)
      {
        assert all[i] == ClassifySection(prefix, root, items[i]);
        assert all[..i + 1] == all[..i] + [all[i]];
        CollectStep(all[..i], all[i]);
        match items[i]
        case Err(k) =>
          CollectErrorSticks(all[..i + 1], all[i + 1..]);
          assert all == all[..i + 1] + all[i + 1..];
          return Err(IoError(k));
        case Ok(n) =>
          if !n.unicode {
            CollectErrorSticks(all[..i + 1], all[i + 1..]);
            assert all == all[..i + 1] + all[i + 1..];
            return Err(NotUnicode(n.text));
          }
          if prefix <= n.text {
            var c := n.text[|prefix|..];
            if ByteLen(c) == 1 {
              sections := sections + [c];
            } else {
              CollectErrorSticks(all[..i + 1], all[i + 1..]);
              assert all == all[..i + 1] + all[i + 1..];
              return Err(BadSection(n.text, prefix, root));
            }
          }
      }
      assert all[..|items|] == all;
      CollectedSections(all, sections);
      return Ok(sections);
  }

  /** `subsections_in`: every entry, in order, if each is at most two bytes and
   *  starts with `prefix`; otherwise the first failure. */
  method SubsectionsIn(fs: Fs, root: Path, prefix: string) returns (r: Result<seq<string>, DirError>)
    ensures r == Collect(LevelItems(SubSectionLevel, fs, root, prefix))
    ensures r.Ok? ==> forall s | s in r.value :: prefix <= s && ByteLen(s) <= 2
  {
    var all := LevelItems(SubSectionLevel, fs, root, prefix);
    match ReadDir(fs, root)
    case OpenFailed(k) =>
      return Err(IoError(k));
    case Listed(items) =>
      var subsections := [];
      assert |all| == |items|;
      for i := 0 to |items|
        invariant |subsections| == i
        invariant forall j | 0 <= j < i :: all[j] == Ok(subsections[j])
      {
        assert all[i] == ClassifySubSection(prefix, root, items[i]);
        match items[i]
        case Err(k) =>
          CollectFirstErr(all, i);
          return Err(IoError(k));
        case Ok(n) =>
          if !n.unicode {
            CollectFirstErr(all, i);
            return Err(NotUnicode(n.text));
          }
          if ByteLen(n.text) <= 2 && prefix <= n.text {
            subsections := subsections + [n.text];
          } else {
            CollectFirstErr(all, i);
            return Err(BadSubSection(n.text, prefix, root));
          }
      }
      assert forall j | 0 <= j < |all| :: all[j].Ok?;
      assert Collect(all).value == subsections;
      return Ok(subsections);
  }

  /** `crates_in`: every entry, in order, if each starts with `prefix`; otherwise
   *  the first failure. */
  method CratesIn(fs: Fs, root: Path, prefix: string) returns (r: Result<seq<string>, DirError>)
    ensures r == Collect(LevelItems(CrateLevel, fs, root, prefix))
    ensures r.Ok? ==> forall s | s in r.value :: prefix <= s
  {
    var all := LevelItems(CrateLevel, fs, root, prefix);
    match ReadDir(fs, root)
    case OpenFailed(k) =>
      return Err(IoError(k));
    case Listed(items) =>
      var crates := [];
      assert |all| == |items|;
      for i := 0 to |items|
        invariant |crates| == i
        invariant forall j | 0 <= j < i :: all[j] == Ok(crates[j])
      {
        assert all[i] == ClassifyCrate(prefix, root, items[i]);
        match items[i]
        case Err(k) =>
          CollectFirstErr(all, i);
          return Err(IoError(k));
        case Ok(n) =>
          if !n.unicode {
            CollectFirstErr(all, i);
            return Err(NotUnicode(n.text));
          }
          if prefix <= n.text {
            crates := crates + [n.text];
          } else {
            CollectFirstErr(all, i);
            return Err(BadCrate(n.text, prefix, root));
          }
      }
      assert forall j | 0 <= j < |all| :: all[j].Ok?;
      assert Collect(all).value == crates;
      return Ok(crates);
  }

  /** Collecting stops at the first error: with only `Ok` items before index `i`,
   *  the collection is the error at `i`. */
  lemma {:induction false} CollectFirstErr(xs: seq<Item>, i: nat)
    requires i < |xs| && xs[i].Err?
    requires forall j | 0 <= j < i :: xs[j].Ok?
    ensures Collect(xs) == Err(xs[i].error)
  {
    if i > 0 {
      assert forall j | 0 <= j < i - 1 :: xs[1..][j] == xs[j + 1];
      CollectFirstErr(xs[1..], i - 1);
    }
  }

  lemma {:induction false} DropAppend(xs: seq<Item>, x: Item)
    ensures DropNonSection(xs + [x]) == DropNonSection(xs) + DropNonSection([x])
  {
    if xs != [] {
      assert (xs + [x])[1..] == xs[1..] + [x];
      DropAppend(xs[1..], x);
    } else {
      assert xs + [x] == [x];
    }
  }

  lemma {:induction false} DropAppendAll(xs: seq<Item>, ys: seq<Item>)
    ensures DropNonSection(xs + ys) == DropNonSection(xs) + DropNonSection(ys)
  {
    if xs != [] {
      assert (xs + ys)[0] == xs[0] && (xs + ys)[1..] == xs[1..] + ys;
      DropAppendAll(xs[1..], ys);
    } else {
      assert xs + ys == ys;
    }
  }

  /** Collecting one more item: a `NonSection` changes nothing, another error ends
   *  the collection, a value is appended. */
  lemma CollectStep(xs: seq<Item>, x: Item)
    ensures Collect(DropNonSection(xs + [x])) ==
      match Collect(DropNonSection(xs))
      case Err(e) => Err(e)
      case Ok(vs) =>
        if IsNonSection(x) then Ok(vs) else if x.Err? then Err(x.error) else Ok(vs + [x.value])
  {
    DropAppend(xs, x);
    var d := DropNonSection(xs);
    assert [x][1..] == [];
    if IsNonSection(x) {
      assert d + DropNonSection([x]) == d;
    } else {
      assert DropNonSection([x]) == [x];
      var c := Collect(d + [x]);
      assert (d + [x])[|d|] == x;
      if Collect(d).Err? {
        var i :| 0 <= i < |d| && d[i] == Err(Collect(d).error) && forall j | 0 <= j < i :: d[j].Ok?;
        assert (d + [x])[i] == d[i];
        var k :| 0 <= k < |d + [x]| && (d + [x])[k] == Err(c.error) && forall j | 0 <= j < k :: (d + [x])[j].Ok?;
        assert k == i;
      } else if x.Err? {
        var k :| 0 <= k < |d + [x]| && (d + [x])[k] == Err(c.error) && forall j | 0 <= j < k :: (d + [x])[j].Ok?;
        assert k == |d|;
      } else {
        assert c.value == Collect(d).value + [x.value];
      }
    }
  }

  /** Once a prefix of the stream fails to collect, so does the whole stream. */
  lemma CollectErrorSticks(xs: seq<Item>, ys: seq<Item>)
    requires Collect(DropNonSection(xs)).Err?
    ensures Collect(DropNonSection(xs + ys)) == Collect(DropNonSection(xs))
  {
    DropAppendAll(xs, ys);
    CollectErrAppend(DropNonSection(xs), DropNonSection(ys));
  }

  lemma {:induction false} CollectErrAppend(d: seq<Item>, e: seq<Item>)
    requires Collect(d).Err?
    ensures Collect(d + e) == Collect(d)
  {
    assert (d + e)[0] == d[0];
    if d[0].Ok? {
      assert (d + e)[1..] == d[1..] + e;
      CollectErrAppend(d[1..], e);
    }
  }

  lemma CollectedSections(all: seq<Item>, sections: seq<string>)
    requires forall i | 0 <= i < |all| :: all[i].Ok? ==> |all[i].value| == 1 && ByteLen(all[i].value) == 1
    requires Collect(DropNonSection(all)) == Ok(sections)
    ensures forall s | s in sections :: |s| == 1 && ByteLen(s) == 1
  {
    CollectDropped(all);
    OkValuesFrom(all, sections);
  }

  lemma OkValuesFrom(all: seq<Item>, vs: seq<string>)
    requires vs == OkValues(all)
    ensures forall s | s in vs :: exists i | 0 <= i < |all| :: all[i] == Ok(s)
  {
    if all != [] {
      OkValuesFrom(all[1..], OkValues(all[1..]));
      forall s | s in OkValues(all[1..]) ensures exists i | 0 <= i < |all| :: all[i] == Ok(s) {
        var i :| 0 <= i < |all[1..]| && all[1..][i] == Ok(s);
        assert all[i + 1] == Ok(s);
      }
    }
  }
}
