/**
 * `CrateDir`'s depth-first enumeration of the tree: sections of the root, the
 * subsections of each accepted section, the crates of each accepted subsection.
 * Each level is a validating stream; errors are passed up as single items and
 * never expanded.
 */
module Traversal {
  import opened Wrappers
  import opened Strings
  import opened Layout
  import opened DirStream
  import opened Streams
  import opened Validators
  import opened Sharding

  /** `CrateDir::section_ids`: an accepted id is the one-byte character that
   *  follows the prefix in the name of the root's entry at the same position. */
  function SectionIds(dir: CrateDir, fs: Fs): (r: seq<Item>)
    ensures |r| == |StreamItems(ReadDir(fs, dir.root))|
    ensures forall i | 0 <= i < |r| && r[i].Ok? ::
      |r[i].value| == 1 && ByteLen(r[i].value) == 1
      && StreamItems(ReadDir(fs, dir.root))[i] == Ok(RawName(dir.prefix + r[i].value, true))
  {
    LevelItems(SectionLevel, fs, dir.root, dir.prefix)
  }

  /** `CrateDir::section_names`: each accepted section id with the prefix put back,
   *  which is exactly the name of the directory entry it came from. */
  function SectionNames(dir: CrateDir, fs: Fs): (r: seq<Item>)
    ensures |r| == |SectionIds(dir, fs)|
    ensures forall i | 0 <= i < |r| :: r[i].Err? <==> SectionIds(dir, fs)[i].Err?
    ensures forall i | 0 <= i < |r| && r[i].Err? :: r[i] == SectionIds(dir, fs)[i]
    ensures forall i | 0 <= i < |r| && r[i].Ok? ::
      StreamItems(ReadDir(fs, dir.root))[i] == Ok(RawName(r[i].value, true))
      && |r[i].value| == |dir.prefix| + 1 && dir.prefix <= r[i].value
  {
    var ids := SectionIds(dir, fs);
    seq(|ids|, i requires 0 <= i < |ids| => match ids[i] case Err(e) => Err(e) case Ok(s) => Ok(dir.prefix + s))
  }

  /** `CrateDir::subsections_in`: the subsection stream of one section directory;
   *  an accepted id is an entry name of at most two bytes that starts with the
   *  section id. */
  function SubsectionsOf(dir: CrateDir, fs: Fs, sectionId: string): (r: seq<Item>)
    ensures forall y | y in r && y.Ok? :: sectionId <= y.value && ByteLen(y.value) <= 2
  {
    var r := LevelItems(SubSectionLevel, fs, dir.root + [dir.prefix + sectionId], sectionId);
    assert forall i | 0 <= i < |r| :: r[i] == ClassifySubSection(sectionId, dir.root + [dir.prefix + sectionId], StreamItems(ReadDir(fs, dir.root + [dir.prefix + sectionId]))[i]);
    r
  }

  /** `CrateDir::subsection_ids`. */
  function SubsectionIds(dir: CrateDir, fs: Fs): seq<Item> {
    FlatMap(SectionIds(dir, fs), id => SubsectionsOf(dir, fs, id))
  }

  /** `CrateDir::crates_in`: the crate stream of one subsection directory; an
   *  accepted crate is an entry name that starts with the subsection id. */
  function CratesOf(dir: CrateDir, fs: Fs, sectionId: string, subsectionId: string): (r: seq<Item>)
    ensures forall y | y in r && y.Ok? :: subsectionId <= y.value
    ensures forall y | y in r && y.Err? :: !y.error.BadCrateName?
  {
    var root := dir.root + [dir.prefix + sectionId, subsectionId];
    var r := LevelItems(CrateLevel, fs, root, subsectionId);
    assert forall i | 0 <= i < |r| :: r[i] == ClassifyCrate(subsectionId, root, StreamItems(ReadDir(fs, root))[i]);
    r
  }

  /** What one accepted subsection id expands to in `crate_ids`: its crates, found
   *  in the section named after the id's first character. Only an empty id, which
   *  no subsection stream accepts, makes `crate_first` fail. */
  function CrateExpansion(dir: CrateDir, fs: Fs, subsectionId: string): (r: seq<Item>)
    ensures subsectionId == [] <==> r == [Err(BadCrateName([]))]
    ensures subsectionId != [] ==> r == CratesOf(dir, fs, [subsectionId[0]], subsectionId)
  {
    match CrateFirst(subsectionId)
    case Err(e) => [Err(e)]
    case Ok(first) => CratesOf(dir, fs, first, subsectionId)
  }

  /** `CrateDir::crate_ids`. */
  function CrateIds(dir: CrateDir, fs: Fs): seq<Item> {
    FlatMap(SubsectionIds(dir, fs), id => CrateExpansion(dir, fs, id))
  }

  lemma InLevelItems(level: Level, fs: Fs, root: Path, prefix: string, y: Item)
    requires y in LevelItems(level, fs, root, prefix)
    ensures exists k | 0 <= k < |StreamItems(ReadDir(fs, root))| ::
      y == Classify(level, prefix, root, StreamItems(ReadDir(fs, root))[k])
  {
    var items := LevelItems(level, fs, root, prefix);
    var k :| 0 <= k < |items| && items[k] == y;
  }

  /** An accepted section id is a single one-byte character. */
  lemma SectionIdShape(dir: CrateDir, fs: Fs, s: string)
    requires Ok(s) in SectionIds(dir, fs)
    ensures |s| == 1 && ByteLen(s) == 1
  {
    InLevelItems(SectionLevel, fs, dir.root, dir.prefix, Ok(s));
  }

  /** Every accepted subsection id is non-empty, at most two bytes long, and begins
   *  with the id of a section that was accepted; so `crate_first` of it cannot
   *  fail and names that very section. */
  lemma {:induction false} SubsectionIdsSound(dir: CrateDir, fs: Fs, sub: string)
    requires Ok(sub) in SubsectionIds(dir, fs)
    ensures sub != [] && ByteLen(sub) <= 2
    ensures CrateFirst(sub) == Ok([sub[0]]) && Ok([sub[0]]) in SectionIds(dir, fs)
  {
    var ids := SectionIds(dir, fs);
    var f := id => SubsectionsOf(dir, fs, id);
    FlatMapOrigin(ids, f, Ok(sub));
    var i :| 0 <= i < |ids| && ids[i].Ok? && Ok(sub) in f(ids[i].value);
    var s := ids[i].value;
    assert |s| == 1 by {
      SectionIdShape(dir, fs, s);
    }
    assert s <= sub && ByteLen(sub) <= 2;
    assert [sub[0]] == s;
  }

  /** No validator ever reports `BadCrateName`. */
  lemma LevelItemsNoBadCrateName(level: Level, fs: Fs, root: Path, prefix: string, y: Item)
    requires y in LevelItems(level, fs, root, prefix) && y.Err?
    ensures !y.error.BadCrateName?
  {
    InLevelItems(level, fs, root, prefix, y);
    var k :| 0 <= k < |StreamItems(ReadDir(fs, root))| && y == Classify(level, prefix, root, StreamItems(ReadDir(fs, root))[k]);
    ClassifyNeverBadCrateName(level, prefix, root, StreamItems(ReadDir(fs, root))[k]);
  }

  lemma {:induction false} SubsectionIdsNoBadCrateName(dir: CrateDir, fs: Fs, y: Item)
    requires y in SubsectionIds(dir, fs) && y.Err?
    ensures !y.error.BadCrateName?
  {
    var ids := SectionIds(dir, fs);
    var f := id => SubsectionsOf(dir, fs, id);
    FlatMapOrigin(ids, f, y);
    if y in ids {
      LevelItemsNoBadCrateName(SectionLevel, fs, dir.root, dir.prefix, y);
    } else {
      var i :| 0 <= i < |ids| && ids[i].Ok? && y in f(ids[i].value);
      var s := ids[i].value;
      LevelItemsNoBadCrateName(SubSectionLevel, fs, dir.root + [dir.prefix + s], s, y);
    }
  }

  /** No item of `crate_ids` is `BadCrateName`: the branch of `crate_ids` that
   *  reports it is unreachable. */
  lemma {:induction false} CrateIdsNeverBadCrateName(dir: CrateDir, fs: Fs, y: Item)
    requires y in CrateIds(dir, fs)
    ensures y.Err? ==> !y.error.BadCrateName?
  {
    var subs := SubsectionIds(dir, fs);
    var g := id => CrateExpansion(dir, fs, id);
    FlatMapOrigin(subs, g, y);
    if y.Err? && y in subs {
      SubsectionIdsNoBadCrateName(dir, fs, y);
    } else {
      var i :| 0 <= i < |subs| && subs[i].Ok? && y in g(subs[i].value);
      var sub := subs[i].value;
      SubsectionIdsSound(dir, fs, sub);
      if y.Err? {
        LevelItemsNoBadCrateName(CrateLevel, fs, dir.root + [dir.prefix + [sub[0]], sub], sub, y);
      }
    }
  }

  /** Every enumerated crate is non-empty, begins with an accepted subsection id,
   *  and lies in the section its own first character names: the section part of
   *  `path_to` is right for every enumerated crate. */
  lemma {:induction false} CrateIdsSound(dir: CrateDir, fs: Fs, c: string)
    requires Ok(c) in CrateIds(dir, fs)
    ensures c != [] && Ok([c[0]]) in SectionIds(dir, fs)
    ensures exists sub :: Ok(sub) in SubsectionIds(dir, fs) && sub <= c
    ensures SectionName(dir, c) == Ok(dir.prefix + [c[0]])
  {
    var subs := SubsectionIds(dir, fs);
    var g := id => CrateExpansion(dir, fs, id);
    FlatMapOrigin(subs, g, Ok(c));
    var i :| 0 <= i < |subs| && subs[i].Ok? && Ok(c) in g(subs[i].value);
    var sub := subs[i].value;
    SubsectionIdsSound(dir, fs, sub);
    InLevelItems(CrateLevel, fs, dir.root + [dir.prefix + [sub[0]], sub], sub, Ok(c));
    assert sub <= c;
    assert c[0] == sub[0];
  }

  /** For a name whose subsection is ASCII, each component of `path_to` passes the
   *  validator of its level, checked against the id the traversal would pass down. */
  lemma PathToAccepted(dir: CrateDir, name: string)
    requires name != [] && IsAscii(SubsectionName(name).value)
    ensures var p := PathTo(dir, name).value;
      && ClassifySection(dir.prefix, dir.root, Ok(RawName(p[0], true))) == Ok([name[0]])
      && ClassifySubSection([name[0]], dir.root + [p[0]], Ok(RawName(p[1], true))) == Ok(p[1])
      && ClassifyCrate(p[1], dir.root + [p[0], p[1]], Ok(RawName(name, true))) == Ok(name)
  {
    var p := PathTo(dir, name).value;
    AsciiByteLen(p[1]);
    assert p[0][|dir.prefix|..] == [name[0]];
    assert (name[0] as int) < 0x80 by {
      assert p[1][0] == name[0];
    }
  }

  /** A name whose first character is not ASCII gets a section directory that the
   *  section validator rejects: `section_name` counts characters while the
   *  validator counts bytes. */
  lemma NonAsciiSectionRejected(dir: CrateDir, name: string)
    requires name != [] && (name[0] as int) >= 0x80
    ensures var section := SectionName(dir, name).value;
      ClassifySection(dir.prefix, dir.root, Ok(RawName(section, true))) == Err(BadSection(section, dir.prefix, dir.root))
  {
    var section := SectionName(dir, name).value;
    assert section[|dir.prefix|..] == [name[0]];
    NonAsciiHeadByteLen([name[0]]);
  }

  /** The directories `path_to` names, and nothing else, make a tree whose
   *  enumeration yields exactly that crate. */
  lemma SingleCrateTree(dir: CrateDir, name: string)
    requires name != [] && IsAscii(SubsectionName(name).value)
    ensures var p := PathTo(dir, name).value;
      var fs := map[
        dir.root := Listed([Ok(RawName(p[0], true))]),
        dir.root + [p[0]] := Listed([Ok(RawName(p[1], true))]),
        dir.root + [p[0], p[1]] := Listed([Ok(RawName(name, true))])];
      CrateIds(dir, fs) == [Ok(name)]
  {
    var p := PathTo(dir, name).value;
    var fs := map[
      dir.root := Listed([Ok(RawName(p[0], true))]),
      dir.root + [p[0]] := Listed([Ok(RawName(p[1], true))]),
      dir.root + [p[0], p[1]] := Listed([Ok(RawName(name, true))])];
    PathToAccepted(dir, name);
    var c0 := [name[0]];
    assert p[0] == dir.prefix + c0;
    assert |dir.root + [p[0]]| != |dir.root| && |dir.root + [p[0], p[1]]| != |dir.root|;
    assert |dir.root + [p[0], p[1]]| != |dir.root + [p[0]]|;
    assert SectionIds(dir, fs) == [Ok(c0)];
    assert SubsectionsOf(dir, fs, c0) == [Ok(p[1])];
    assert SubsectionIds(dir, fs) == [Ok(p[1])] by {
      assert FlatMap([Ok(c0)], id => SubsectionsOf(dir, fs, id)) == SubsectionsOf(dir, fs, c0) + FlatMap([], id => SubsectionsOf(dir, fs, id));
    }
    assert CrateFirst(p[1]) == Ok(c0);
    assert CrateExpansion(dir, fs, p[1]) == [Ok(name)];
    assert FlatMap([Ok(p[1])], id => CrateExpansion(dir, fs, id)) == CrateExpansion(dir, fs, p[1]) + FlatMap([], id => CrateExpansion(dir, fs, id));
  }

  /** Enumeration is looser than `path_to`: a crate `abc` filed under the
   *  one-character subsection `a` is accepted, although `path_to("abc")` names
   *  the subsection `ab`. */
  lemma EnumerationLooserThanPathTo()
    ensures var dir := CrateDir([], "crates-");
      var fs := map[
        [] := Listed([Ok(RawName("crates-a", true))]),
        ["crates-a"] := Listed([Ok(RawName("a", true))]),
        ["crates-a", "a"] := Listed([Ok(RawName("abc", true))])];
      CrateIds(dir, fs) == [Ok("abc")] && PathTo(dir, "abc") == Ok(["crates-a", "ab", "abc"])
  {
    var dir := CrateDir([], "crates-");
    var fs := map[
      [] := Listed([Ok(RawName("crates-a", true))]),
      ["crates-a"] := Listed([Ok(RawName("a", true))]),
      ["crates-a", "a"] := Listed([Ok(RawName("abc", true))])];
    assert "crates-" <= "crates-a";
    assert "crates-a"[|"crates-"|..] == "a";
    assert SectionIds(dir, fs) == [Ok("a")];
    assert [] + ["crates-" + "a"] == ["crates-a"] by {
      assert "crates-" + "a" == "crates-a";
    }
    assert SubsectionsOf(dir, fs, "a") == [Ok("a")];
    assert SubsectionIds(dir, fs) == [Ok("a")] by {
      assert FlatMap([Ok("a")], id => SubsectionsOf(dir, fs, id)) == SubsectionsOf(dir, fs, "a") + FlatMap([], id => SubsectionsOf(dir, fs, id));
    }
    assert [] + ["crates-" + "a", "a"] == ["crates-a", "a"] by {
      assert "crates-" + "a" == "crates-a";
    }
    assert "a" <= "abc";
    assert CratesOf(dir, fs, "a", "a") == [Ok("abc")];
    assert CrateExpansion(dir, fs, "a") == [Ok("abc")];
    assert FlatMap([Ok("a")], id => CrateExpansion(dir, fs, id)) == CrateExpansion(dir, fs, "a") + FlatMap([], id => CrateExpansion(dir, fs, id));
    assert CrateIds(dir, fs) == [Ok("abc")];
    assert SectionName(dir, "abc") == Ok("crates-a");
    assert SubsectionName("abc") == Ok("ab") by {
      assert CrateFirst("abc") == Ok("a");
      assert "a" + ["abc"[1]] == "ab";
    }
  }
}
