/**
 * The report of `examples/load_versions.rs` for one crate and one rustc: the
 * crate's records, in list order, grouped into maximal runs of equal result,
 * each run shown as the range of versions it spans.
 */
module LoadVersions {
  import opened Wrappers
  import opened Results
  import Cache

  /** A maximal run of records with the same result, from version `min` to `max`. */
  datatype ResultBlock = ResultBlock(result: ResultType, min: string, max: string)

  /** The result of each record for one rustc, in list order. */
  function ResultsFor(recs: ResultList, rustc: string): (rs: seq<ResultType>)
    ensures |rs| == |recs|
    ensures forall i | 0 <= i < |recs| :: rs[i] == RustcResult(recs[i], rustc)
  {
    seq(|recs|, i requires 0 <= i < |recs| => RustcResult(recs[i], rustc))
  }

  /** The version of each record, in list order. */
  function Nums(recs: ResultList): (vs: seq<string>)
    ensures |vs| == |recs|
    ensures forall i | 0 <= i < |recs| :: vs[i] == recs[i].num
  {
    seq(|recs|, i requires 0 <= i < |recs| => recs[i].num)
  }

  /** The blocks of a sequence of results and versions, built one record at a
   *  time: a record extends the last block when its result is that block's, and
   *  opens a new block otherwise. */
  function Runs(rs: seq<ResultType>, vs: seq<string>): (r: seq<ResultBlock>)
    requires |rs| == |vs|
    ensures |r| <= |rs|
    ensures r == [] <==> rs == []
  {
    if rs == [] then []
    else
      var m := |rs| - 1;
      var prev := Runs(rs[..m], vs[..m]);
      if prev != [] && prev[|prev| - 1].result == rs[m] then prev[..|prev| - 1] + [prev[|prev| - 1].(max := vs[m])]
      else prev + [ResultBlock(rs[m], vs[m], vs[m])]
  }

  /** The blocks the report shows for one crate and one rustc. */
  function Blocks(recs: ResultList, rustc: string): (b: seq<ResultBlock>)
    ensures |b| <= |recs|
    ensures b == [] <==> recs == []
  {
    Runs(ResultsFor(recs, rustc), Nums(recs))
  }

  /** The index of the run record `i` belongs to: the number of places up to `i`
   *  where the result changes. */
  function RunIndex(rs: seq<ResultType>, i: nat): (k: nat)
    requires i < |rs|
    ensures k <= i
  {
    if i == 0 then 0 else RunIndex(rs, i - 1) + (if rs[i] != rs[i - 1] then 1 else 0)
  }

  /** Record `i` ends its run: it is the last record, or the next one's result differs. */
  predicate EndsRun(rs: seq<ResultType>, i: nat)
    requires i < |rs|
  {
    i == |rs| - 1 || rs[i] != rs[i + 1]
  }

  /** Record `i` starts its run: it is the first record, or the previous one's result differs. */
  predicate StartsRun(rs: seq<ResultType>, i: nat)
    requires i < |rs|
  {
    i == 0 || rs[i] != rs[i - 1]
  }

  lemma {:induction false} RunIndexPrefix(rs: seq<ResultType>, ss: seq<ResultType>, i: nat)
    requires i < |rs| && i < |ss| && rs[..i + 1] == ss[..i + 1]
    ensures RunIndex(rs, i) == RunIndex(ss, i)
  {
    assert rs[i] == rs[..i + 1][i];
    if i > 0 {
      assert rs[i - 1] == rs[..i + 1][i - 1] && ss[i - 1] == ss[..i + 1][i - 1];
      assert rs[..i] == rs[..i + 1][..i] && ss[..i] == ss[..i + 1][..i];
      RunIndexPrefix(rs, ss, i - 1);
    }
  }

  lemma {:induction false} RunIndexMonotone(rs: seq<ResultType>, i: nat, j: nat)
    requires i <= j < |rs|
    ensures RunIndex(rs, i) <= RunIndex(rs, j)
    decreases j - i
  {
    if i < j {
      RunIndexMonotone(rs, i, j - 1);
    }
  }

  lemma SamePrefixRunIndex(rs: seq<ResultType>, m: nat, i: nat)
    requires i < m <= |rs|
    ensures RunIndex(rs[..m], i) == RunIndex(rs, i)
  {
    assert rs[..m][..i + 1] == rs[..i + 1];
    RunIndexPrefix(rs[..m], rs, i);
  }

  /** `Runs` of a sequence of more than one element, in terms of `Runs` of the
   *  sequence without its last element. */
  lemma RunsLast(rs: seq<ResultType>, vs: seq<string>)
    requires |rs| == |vs| > 1
    ensures var m := |rs| - 1;
      var b, prev := Runs(rs, vs), Runs(rs[..m], vs[..m]);
      var p := |prev|;
      && p > 0
      && (prev[p - 1].result == rs[m] ==>
            |b| == p && (forall k | 0 <= k < p - 1 :: b[k] == prev[k]) && b[p - 1] == prev[p - 1].(max := vs[m]))
      && (prev[p - 1].result != rs[m] ==>
            |b| == p + 1 && (forall k | 0 <= k < p :: b[k] == prev[k]) && b[p] == ResultBlock(rs[m], vs[m], vs[m]))
  {
    var m := |rs| - 1;
    var prev := Runs(rs[..m], vs[..m]);
    assert prev != [];
    var p := |prev|;
    if prev[p - 1].result == rs[m] {
      assert Runs(rs, vs) == prev[..p - 1] + [prev[p - 1].(max := vs[m])];
    } else {
      assert Runs(rs, vs) == prev + [ResultBlock(rs[m], vs[m], vs[m])];
    }
  }

  /** There is one block per run, and the last block holds the last record's result. */
  lemma {:induction false} RunsCount(rs: seq<ResultType>, vs: seq<string>)
    requires |rs| == |vs| > 0
    ensures |Runs(rs, vs)| == RunIndex(rs, |rs| - 1) + 1
    ensures Runs(rs, vs)[|Runs(rs, vs)| - 1].result == rs[|rs| - 1]
    decreases |rs|
  {
    var m := |rs| - 1;
    if m > 0 {
      var prev := Runs(rs[..m], vs[..m]);
      RunsCount(rs[..m], vs[..m]);
      RunsLast(rs, vs);
      SamePrefixRunIndex(rs, m, m - 1);
      assert prev[|prev| - 1].result == rs[m - 1];
      if rs[m] == rs[m - 1] {
        assert RunIndex(rs, m) == RunIndex(rs, m - 1);
      } else {
        assert RunIndex(rs, m) == RunIndex(rs, m - 1) + 1;
      }
    }
  }

  /** Record `i` lies in the block of its run, which carries its result. */
  lemma {:induction false} RunsResultAt(rs: seq<ResultType>, vs: seq<string>, i: nat)
    requires |rs| == |vs| && i < |rs|
    ensures RunIndex(rs, i) < |Runs(rs, vs)| && Runs(rs, vs)[RunIndex(rs, i)].result == rs[i]
    decreases |rs|
  {
    var m := |rs| - 1;
    RunsCount(rs, vs);
    RunIndexMonotone(rs, i, m);
    if i < m {
      RunsResultAt(rs[..m], vs[..m], i);
      RunsCount(rs[..m], vs[..m]);
      RunsLast(rs, vs);
      SamePrefixRunIndex(rs, m, i);
      SamePrefixRunIndex(rs, m, m - 1);
      RunIndexMonotone(rs, i, m - 1);
    }
  }

  /** Neighbouring blocks differ in result. */
  lemma {:induction false} RunsAdjacentDiffer(rs: seq<ResultType>, vs: seq<string>, k: nat)
    requires |rs| == |vs| && k + 1 < |Runs(rs, vs)|
    ensures Runs(rs, vs)[k].result != Runs(rs, vs)[k + 1].result
    decreases |rs|
  {
    var m := |rs| - 1;
    var prev := Runs(rs[..m], vs[..m]);
    RunsKeepResult(rs, vs, k);
    if k + 1 < |prev| {
      RunsAdjacentDiffer(rs[..m], vs[..m], k);
      RunsKeepResult(rs, vs, k + 1);
    } else {
      RunsNewBlock(rs, vs);
    }
  }

  /** Appending a record keeps the result of every block there was. */
  lemma RunsKeepResult(rs: seq<ResultType>, vs: seq<string>, k: nat)
    requires |rs| == |vs| > 1 && k < |Runs(rs[..|rs| - 1], vs[..|rs| - 1])|
    ensures k < |Runs(rs, vs)| && Runs(rs, vs)[k].result == Runs(rs[..|rs| - 1], vs[..|rs| - 1])[k].result
  {
    RunsLast(rs, vs);
  }

  /** When appending a record adds a block, that block's result differs from the
   *  block before it. */
  lemma RunsNewBlock(rs: seq<ResultType>, vs: seq<string>)
    requires |rs| == |vs| > 1 && |Runs(rs, vs)| > |Runs(rs[..|rs| - 1], vs[..|rs| - 1])|
    ensures var p := |Runs(rs[..|rs| - 1], vs[..|rs| - 1])|;
      |Runs(rs, vs)| == p + 1 && Runs(rs, vs)[p].result != Runs(rs[..|rs| - 1], vs[..|rs| - 1])[p - 1].result
  {
    RunsLast(rs, vs);
  }


  /** The first record of each run gives its block's `min`. */
  lemma {:induction false} RunsMinAt(rs: seq<ResultType>, vs: seq<string>, i: nat)
    requires |rs| == |vs| && i < |rs| && StartsRun(rs, i)
    ensures RunIndex(rs, i) < |Runs(rs, vs)| && Runs(rs, vs)[RunIndex(rs, i)].min == vs[i]
    decreases |rs|, 1
  {
    if i == |rs| - 1 > 0 {
      RunsMinLast(rs, vs);
    } else if i < |rs| - 1 {
      RunsMinBefore(rs, vs, i);
    }
  }

  /** `RunsMinAt` for a last record that starts a run of its own: it opens a new block. */
  lemma RunsMinLast(rs: seq<ResultType>, vs: seq<string>)
    requires |rs| == |vs| > 1 && rs[|rs| - 1] != rs[|rs| - 2]
    ensures var m := |rs| - 1;
      RunIndex(rs, m) < |Runs(rs, vs)| && Runs(rs, vs)[RunIndex(rs, m)].min == vs[m]
  {
    var m := |rs| - 1;
    var prev := Runs(rs[..m], vs[..m]);
    RunsCount(rs[..m], vs[..m]);
    SamePrefixRunIndex(rs, m, m - 1);
    assert RunIndex(rs, m) == |prev|;
    assert prev[|prev| - 1].result == rs[m - 1];
    RunsLast(rs, vs);
  }

  /** `RunsMinAt` for a run that starts before the last record: appending the last
   *  record keeps that block's `min`. */
  lemma {:induction false} RunsMinBefore(rs: seq<ResultType>, vs: seq<string>, i: nat)
    requires |rs| == |vs| && i < |rs| - 1 && StartsRun(rs, i)
    ensures RunIndex(rs, i) < |Runs(rs, vs)| && Runs(rs, vs)[RunIndex(rs, i)].min == vs[i]
    decreases |rs|, 0
  {
    var m := |rs| - 1;
    var k := RunIndex(rs, i);
    assert k < |Runs(rs[..m], vs[..m])| && Runs(rs[..m], vs[..m])[k].min == vs[i] by {
      assert i == 0 || (rs[..m][i] == rs[i] && rs[..m][i - 1] == rs[i - 1]);
      RunsMinAt(rs[..m], vs[..m], i);
      SamePrefixRunIndex(rs, m, i);
      assert vs[..m][i] == vs[i];
    }
    RunsKeepMin(rs, vs, k);
  }

  /** Appending a record keeps the `min` of every block there was. */
  lemma RunsKeepMin(rs: seq<ResultType>, vs: seq<string>, k: nat)
    requires |rs| == |vs| > 1 && k < |Runs(rs[..|rs| - 1], vs[..|rs| - 1])|
    ensures k < |Runs(rs, vs)| && Runs(rs, vs)[k].min == Runs(rs[..|rs| - 1], vs[..|rs| - 1])[k].min
  {
    RunsLast(rs, vs);
  }



  /** The last record of each run gives its block's `max`. */
  lemma {:induction false} RunsMaxAt(rs: seq<ResultType>, vs: seq<string>, i: nat)
    requires |rs| == |vs| && i < |rs| && EndsRun(rs, i)
    ensures RunIndex(rs, i) < |Runs(rs, vs)| && Runs(rs, vs)[RunIndex(rs, i)].max == vs[i]
    decreases |rs|, 1
  {
    var m := |rs| - 1;
    RunsCount(rs, vs);
    if m > 0 {
      RunsLast(rs, vs);
      if i < m {
        RunsMaxBefore(rs, vs, i);
      }
    }
  }

  /** `RunsMaxAt` for a run that ends before the last record: appending the last
   *  record leaves that run's block as it was. */
  lemma {:induction false} RunsMaxBefore(rs: seq<ResultType>, vs: seq<string>, i: nat)
    requires |rs| == |vs| && i < |rs| - 1 && rs[i] != rs[i + 1]
    ensures RunIndex(rs, i) < |Runs(rs, vs)| && Runs(rs, vs)[RunIndex(rs, i)].max == vs[i]
    decreases |rs|, 0
  {
    var m := |rs| - 1;
    var k := RunIndex(rs, i);
    // The run of record `i` has the same index and block without the last record.
    assert k < |Runs(rs[..m], vs[..m])| && Runs(rs[..m], vs[..m])[k].max == vs[i] by {
      assert EndsRun(rs[..m], i);
      RunsMaxAt(rs[..m], vs[..m], i);
      SamePrefixRunIndex(rs, m, i);
      assert vs[..m][i] == vs[i];
    }
    // That block is not the last one, or the last record starts a new block.
    RunsPrefixLast(rs, vs);
    if i < m - 1 {
      RunIndexStrict(rs, i, m - 1);
    }
    RunsKeepClosed(rs, vs, k);
  }

  /** A change of result after record `i` puts every later record in a later run. */
  lemma RunIndexStrict(rs: seq<ResultType>, i: nat, j: nat)
    requires i < j < |rs| && rs[i] != rs[i + 1]
    ensures RunIndex(rs, i) < RunIndex(rs, j)
  {
    assert RunIndex(rs, i + 1) == RunIndex(rs, i) + 1;
    RunIndexMonotone(rs, i + 1, j);
  }

  /** The runs without the last record: the last of them is the run of the
   *  record before the last, and carries its result. */
  lemma RunsPrefixLast(rs: seq<ResultType>, vs: seq<string>)
    requires |rs| == |vs| > 1
    ensures var m := |rs| - 1;
      var prev := Runs(rs[..m], vs[..m]);
      |prev| == RunIndex(rs, m - 1) + 1 && prev[|prev| - 1].result == rs[m - 1]
  {
    var m := |rs| - 1;
    RunsCount(rs[..m], vs[..m]);
    SamePrefixRunIndex(rs, m, m - 1);
    assert rs[..m][m - 1] == rs[m - 1];
  }

  /** Appending a record keeps every block before the last one, and keeps the last
   *  one too when the appended record's result differs from the one before it. */
  lemma RunsKeepClosed(rs: seq<ResultType>, vs: seq<string>, k: nat)
    requires |rs| == |vs| > 1
    requires k < |Runs(rs[..|rs| - 1], vs[..|rs| - 1])| - 1 || (k == |Runs(rs[..|rs| - 1], vs[..|rs| - 1])| - 1 && rs[|rs| - 2] != rs[|rs| - 1])
    ensures k < |Runs(rs, vs)| && Runs(rs, vs)[k] == Runs(rs[..|rs| - 1], vs[..|rs| - 1])[k]
  {
    if k == |Runs(rs[..|rs| - 1], vs[..|rs| - 1])| - 1 {
      RunsPrefixLast(rs, vs);
    }
    RunsLast(rs, vs);
  }

  /** The blocks of a crate's report are exactly the runs of equal result in its
   *  records: one block per run, in order; each record lies in the block of its
   *  run, which carries the record's result; a run's first record gives the
   *  block's `min` and its last record the block's `max`; neighbouring blocks
   *  differ in result. */
  lemma BlocksAreRuns(recs: ResultList, rustc: string)
    requires |recs| > 0
    ensures var rs, b := ResultsFor(recs, rustc), Blocks(recs, rustc);
      && |b| == RunIndex(rs, |recs| - 1) + 1
      && (forall i | 0 <= i < |recs| :: RunIndex(rs, i) < |b| && b[RunIndex(rs, i)].result == RustcResult(recs[i], rustc))
      && (forall i | 0 <= i < |recs| && StartsRun(rs, i) :: b[RunIndex(rs, i)].min == recs[i].num)
      && (forall i | 0 <= i < |recs| && EndsRun(rs, i) :: b[RunIndex(rs, i)].max == recs[i].num)
      && (forall k | 0 <= k < |b| - 1 :: b[k].result != b[k + 1].result)
  {
    var rs, vs := ResultsFor(recs, rustc), Nums(recs);
    RunsCount(rs, vs);
    forall i | 0 <= i < |recs|
      ensures RunIndex(rs, i) < |Runs(rs, vs)| && Runs(rs, vs)[RunIndex(rs, i)].result == rs[i]
    {
      RunsResultAt(rs, vs, i);
    }
    forall i | 0 <= i < |recs| && StartsRun(rs, i)
      ensures Runs(rs, vs)[RunIndex(rs, i)].min == vs[i]
    {
      RunsMinAt(rs, vs, i);
    }
    forall i | 0 <= i < |recs| && EndsRun(rs, i)
      ensures Runs(rs, vs)[RunIndex(rs, i)].max == vs[i]
    {
      RunsMaxAt(rs, vs, i);
    }
    forall k | 0 <= k < |Runs(rs, vs)| - 1
      ensures Runs(rs, vs)[k].result != Runs(rs, vs)[k + 1].result
    {
      RunsAdjacentDiffer(rs, vs, k);
    }
  }

  /** The grouping loop of `main` for one crate: returns the blocks and whether
   *  any record passed. The final block is pushed unconditionally, which would
   *  panic on an empty list; the list must therefore be non-empty. */
  method GroupRuns(recs: ResultList, rustc: string) returns (bundles: seq<ResultBlock>, sawPass: bool)
    requires |recs| > 0
    ensures bundles == Blocks(recs, rustc)
    ensures sawPass <==> exists i | 0 <= i < |recs| :: RustcResult(recs[i], rustc) == Pass
  {
    bundles := [];
    var lastState: Option<ResultType> := None;
    var blockMin: Option<string> := None;
    var blockMax: Option<string> := None;
    sawPass := false;
    for i := 0 to |recs|
      invariant lastState.None? <==> i == 0
      invariant blockMin.Some? == lastState.Some? && blockMax.Some? == lastState.Some?
      invariant i == 0 ==> bundles == []
      invariant i > 0 ==> bundles + [ResultBlock(lastState.value, blockMin.value, blockMax.value)] == Blocks(recs[..i], rustc)
      invariant sawPass <==> exists j | 0 <= j < i :: RustcResult(recs[j], rustc) == Pass
    {
      var v := recs[i];
      var myResult := RustcResult(v, rustc);
      if myResult == Pass {
        sawPass := true;
      }
      if lastState.None? {
        BlocksFirst(recs, rustc);
        lastState := Some(myResult);
        blockMin := Some(v.num);
        blockMax := Some(v.num);
      } else if lastState.value == myResult {
        BlocksStep(recs, rustc, i, bundles, ResultBlock(lastState.value, blockMin.value, blockMax.value));
        blockMax := Some(v.num);
      } else {
        BlocksStep(recs, rustc, i, bundles, ResultBlock(lastState.value, blockMin.value, blockMax.value));
        bundles := bundles + [ResultBlock(lastState.value, blockMin.value, blockMax.value)];
        lastState := Some(myResult);
        blockMin := Some(v.num);
        blockMax := Some(v.num);
      }
    }
    assert recs[..|recs|] == recs;
    bundles := bundles + [ResultBlock(lastState.value, blockMin.value, blockMax.value)];
  }

  /** The blocks of the first `i + 1` records, from those of the first `i`: the
   *  record extends the last block when its result is that block's, and opens a
   *  new block otherwise. */
  lemma BlocksStep(recs: ResultList, rustc: string, i: nat, done: seq<ResultBlock>, last: ResultBlock)
    requires 0 < i < |recs| && Blocks(recs[..i], rustc) == done + [last]
    ensures var r, v := RustcResult(recs[i], rustc), recs[i].num;
      && (last.result == r ==> Blocks(recs[..i + 1], rustc) == done + [last.(max := v)])
      && (last.result != r ==> Blocks(recs[..i + 1], rustc) == done + [last, ResultBlock(r, v, v)])
  {
    var rs, vs := ResultsFor(recs[..i + 1], rustc), Nums(recs[..i + 1]);
    assert rs[..i] == ResultsFor(recs[..i], rustc);
    assert vs[..i] == Nums(recs[..i]);
    assert rs[i] == RustcResult(recs[i], rustc) && vs[i] == recs[i].num;
    var prev := done + [last];
    assert prev[..|prev| - 1] == done;
  }

  /** The blocks of the first record alone. */
  lemma BlocksFirst(recs: ResultList, rustc: string)
    requires 0 < |recs|
    ensures var r, v := RustcResult(recs[0], rustc), recs[0].num;
      Blocks(recs[..1], rustc) == [ResultBlock(r, v, v)]
  {
    assert ResultsFor(recs[..1], rustc)[..0] == [];
  }

  /** The text a block is printed as: the version alone for a one-version block,
   *  otherwise `min -> max`. */
  function RangeText(b: ResultBlock): (r: string)
    ensures r == b.min <==> b.min == b.max
    ensures b.min <= r
    ensures b.min != b.max ==> r[|b.min|..] == " -> " + b.max
  {
    if b.min == b.max then b.min else b.min + " -> " + b.max
  }

  /** One crate's part of the report: nothing when its results cannot be had or
   *  no record passes, otherwise its blocks. */
  method ReportCrate(results: Result<ResultList, Cache.CacheError>, rustc: string) returns (report: Option<seq<ResultBlock>>)
    requires results.Ok? ==> |results.value| > 0
    ensures report.Some? <==> results.Ok? && exists i | 0 <= i < |results.value| :: RustcResult(results.value[i], rustc) == Pass
    ensures report.Some? ==> report.value == Blocks(results.value, rustc)
  {
    if results.Err? {
      return None;
    }
    var bundles, sawPass := GroupRuns(results.value, rustc);
    if !sawPass {
      return None;
    }
    report := Some(bundles);
  }
}
