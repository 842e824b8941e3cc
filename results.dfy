/**
 * Test results of one crate: per published version, the rustc releases it was
 * seen to build with and to fail with, and the lookup of one (version, rustc)
 * cell. Both snapshots (`src/result_list.rs` and `src/results/`) behave alike
 * and share this module.
 */
module Results {
  import opened Wrappers
  import opened Strings

  datatype ResultType = Pass | Fail | Unknown

  /** One record of `results.json`. */
  datatype ResultInfo = ResultInfo(crateName: string, num: string, rustcFail: seq<string>, rustcPass: seq<string>)

  /** The decoded `results.json`: records, expected in ascending `num` order. */
  type ResultList = seq<ResultInfo>

  /** `ResultInfo::rustc_result`: a recorded failure wins over a recorded pass. */
  function RustcResult(info: ResultInfo, rustc: string): (r: ResultType)
    ensures r == Fail <==> rustc in info.rustcFail
    ensures r == Pass <==> rustc in info.rustcPass && rustc !in info.rustcFail
    ensures r == Unknown <==> rustc !in info.rustcPass && rustc !in info.rustcFail
  {
    if rustc in info.rustcFail then Fail
    else if rustc in info.rustcPass then Pass
    else Unknown
  }

  /** `ResultInfo::version_cmp`: the record's `num` against a version, as plain
   *  strings, not as semantic versions. */
  function VersionCmp(info: ResultInfo, version: string): (r: Ordering)
    ensures r == Equal <==> info.num == version
    ensures r == Less <==> Lt(info.num, version)
    ensures r == Greater <==> Lt(version, info.num)
  {
    CompareFlip(info.num, version);
    Compare(info.num, version)
  }

  /** String order is not version order: release 1.10.0 sorts before 1.9.0. */
  lemma TenSortsBeforeNine()
    ensures Lt("1.10.0", "1.9.0")
  {
    assert "1.10.0"[1..] == ".10.0" && "1.9.0"[1..] == ".9.0";
    assert ".10.0"[1..] == "10.0" && ".9.0"[1..] == "9.0";
    assert Compare("10.0", "9.0") == Less;
  }

  /** The order `binary_search_by(version_cmp)` needs: ascending `num`. */
  predicate SortedByNum(list: ResultList) {
    forall i, j | 0 <= i < j < |list| :: Le(list[i].num, list[j].num)
  }

  /** `binary_search_by(|probe| probe.version_cmp(v))`: the index of a record whose
   *  `num` is `version`, if the search meets one. On a sorted list it meets one
   *  whenever one exists; on any list it never reports a record that does not match. */
  method SearchByNum(list: ResultList, version: string) returns (found: Option<nat>)
    ensures found.Some? ==> found.value < |list| && list[found.value].num == version
    ensures SortedByNum(list) && (exists i | 0 <= i < |list| :: list[i].num == version) ==> found.Some?
  {
    var lo, hi := 0, |list|;
    while lo < hi
      invariant 0 <= lo <= hi <= |list|
      invariant SortedByNum(list) ==> forall i | 0 <= i < lo :: Lt(list[i].num, version)
      invariant SortedByNum(list) ==> forall i | hi <= i < |list| :: Lt(version, list[i].num)
      decreases hi - lo
    {
      var mid := lo + (hi - lo) / 2;
      match VersionCmp(list[mid], version)
      case Equal =>
        return Some(mid);
      case Less =>
        if SortedByNum(list) {
          forall i | 0 <= i <= mid
            ensures Lt(list[i].num, version)
          {
            if i < mid {
              LeLtTrans(list[i].num, list[mid].num, version);
            }
          }
        }
        lo := mid + 1;
      case Greater =>
        if SortedByNum(list) {
          forall i | mid <= i < |list|
            ensures Lt(version, list[i].num)
          {
            if mid < i {
              LtLeTrans(version, list[mid].num, list[i].num);
            }
          }
        }
        hi := mid;
    }
    return None;
  }

  /** `ResultList::rustc_result`: the result of the record found for `version`,
   *  Unknown when none is found. */
  method RustcResultOf(list: ResultList, version: string, rustc: string) returns (r: ResultType)
    ensures (forall i | 0 <= i < |list| :: list[i].num != version) ==> r == Unknown
    ensures r != Unknown ==> exists i | 0 <= i < |list| :: list[i].num == version && RustcResult(list[i], rustc) == r
    ensures SortedByNum(list) && (exists i | 0 <= i < |list| :: list[i].num == version) ==>
      exists i | 0 <= i < |list| :: list[i].num == version && RustcResult(list[i], rustc) == r
  {
    var found := SearchByNum(list, version);
    if found.Some? {
      r := RustcResult(list[found.value], rustc);
    } else {
      r := Unknown;
    }
  }
}
