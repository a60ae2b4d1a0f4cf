/** Folding the frontier down to the fan-in, pass by pass, before the final merge. */
module Cascade {
  import opened Rows
  import opened StableOrder
  import opened Scratch
  import opened Merge

  /** How many chunks of `fan` runs, the last perhaps shorter, `n` runs make. */
  function Groups(n: nat, fan: nat): (g: nat)
    requires fan >= 2
    ensures g <= n && (n >= 2 ==> g < n)
  {
    if n == 0 then 0 else 1 + Groups(n - Min(fan, n), fan)
  }

  lemma {:induction false} GroupsBound(n: nat, fan: nat, m: nat)
    requires fan >= 2
    ensures Groups(n, fan) <= m <==> n <= fan * m
    decreases n
  {
    if m == 0 {
      assert fan * m == 0;
    } else {
      assert fan * m == fan * (m - 1) + fan;
      if n <= fan {
        MulMonotone(fan, 0, fan, m - 1);
      } else {
        GroupsBound(n - fan, fan, m - 1);
      }
    }
  }

  function Pow(b: nat, e: nat): nat {
    if e == 0 then 1 else b * Pow(b, e - 1)
  }

  lemma MulMonotone(a: nat, b: nat, c: nat, d: nat)
    requires a <= c && b <= d
    ensures a * b <= c * d
  {
    assert c * d == a * b + a * (d - b) + (c - a) * d;
  }

  /** Passes until at most `fan` runs are left. */
  function Depth(n: nat, fan: nat): nat
    requires fan >= 2
  {
    if n <= fan then 0 else 1 + Depth(Groups(n, fan), fan)
  }

  /** The cascade takes exactly the least p with n <= fan^(p + 1) passes. */
  lemma {:induction false} DepthIsLeast(n: nat, fan: nat, p: nat)
    requires fan >= 2
    ensures n <= Pow(fan, p + 1) <==> Depth(n, fan) <= p
    decreases n
  {
    if n <= fan {
      PowPositive(fan, p);
      MulMonotone(fan, 1, fan, Pow(fan, p));
    } else if p > 0 {
      DepthIsLeast(Groups(n, fan), fan, p - 1);
      GroupsBound(n, fan, Pow(fan, p));
    } else {
      assert Pow(fan, 1) == fan * Pow(fan, 0) == fan;
    }
  }

  /** `passes` is the least p for which `runs` are at most fan^(p + 1). */
  ghost predicate LeastPasses(runs: nat, fan: nat, passes: nat) {
    runs <= Pow(fan, passes + 1) && (passes > 0 ==> runs > Pow(fan, passes))
  }

  lemma DepthIsLeastPasses(n: nat, fan: nat)
    requires fan >= 2
    ensures LeastPasses(n, fan, Depth(n, fan))
  {
    DepthIsLeast(n, fan, Depth(n, fan));
    if Depth(n, fan) > 0 {
      DepthIsLeast(n, fan, Depth(n, fan) - 1);
    }
  }

  lemma {:induction false} PowPositive(b: nat, e: nat)
    requires b > 0
    ensures Pow(b, e) > 0
  {
    if e > 0 {
      PowPositive(b, e - 1);
    }
  }

  lemma MulAssociates(a: nat, b: nat, c: nat)
    ensures a * (b * c) == (a * b) * c
  {
  }

  lemma {:induction false} PowAdd(b: nat, d: nat, e: nat)
    ensures Pow(b, d + e) == Pow(b, d) * Pow(b, e)
  {
    if d > 0 {
      PowAdd(b, d - 1, e);
      MulAssociates(b, Pow(b, d - 1), Pow(b, e));
    }
  }

  lemma {:induction false} PowMonotone(b: nat, c: nat, e: nat)
    requires b <= c
    ensures Pow(b, e) <= Pow(c, e)
  {
    if e > 0 {
      PowMonotone(b, c, e - 1);
      MulMonotone(b, Pow(b, e - 1), c, Pow(c, e - 1));
    }
  }

  /** A frontier has at most 64 entries, so five passes always suffice. */
  lemma FivePassesSuffice(n: nat, fan: nat)
    requires n <= 64 && fan >= 2
    ensures Depth(n, fan) <= 5
  {
    PowMonotone(2, fan, 6);
    assert Pow(2, 6) == 64;
    DepthIsLeast(n, fan, 5);
  }

  ghost predicate Distinct(paths: seq<Path>) {
    forall i, j | 0 <= i < j < |paths| :: paths[i] != paths[j]
  }

  /** `paths` are exactly the files on disk, each once, each a finished run. */
  ghost predicate Live(paths: seq<Path>, files: map<Path, RunFile>) {
    Distinct(paths) && AllFinished(paths, files) && PathSet(paths) == files.Keys
  }

  lemma {:induction false} PathSetSize(paths: seq<Path>)
    requires Distinct(paths)
    ensures |PathSet(paths)| == |paths|
  {
    if paths == [] {
      assert PathSet(paths) == {};
    } else {
      var last, rest := paths[|paths| - 1], paths[..|paths| - 1];
      PathSetSize(rest);
      assert last !in PathSet(rest);
      assert PathSet(paths) == PathSet(rest) + {last} by {
        assert paths == rest + [last];
        PathSetConcat(rest, [last]);
        assert PathSet([last]) == {last} by { assert [last][0] == last; }
      }
    }
  }

  /** No file yet carries the name of group `group` of pass `pass` or a later one. */
  ghost predicate NamesFree(files: map<Path, RunFile>, pass: nat, group: nat) {
    forall p | p in files && p.Merged? :: p.pass < pass || (p.pass == pass && p.group < group)
  }

  ghost function AllRows(paths: seq<Path>, files: map<Path, RunFile>): seq<Row>
    requires AllFinished(paths, files)
  {
    Flatten(Contents(paths, files))
  }

  lemma AllRowsConcat(a: seq<Path>, b: seq<Path>, files: map<Path, RunFile>)
    requires AllFinished(a, files) && AllFinished(b, files)
    ensures AllFinished(a + b, files) && AllRows(a + b, files) == AllRows(a, files) + AllRows(b, files)
  {
    assert Contents(a + b, files) == Contents(a, files) + Contents(b, files);
    FlattenConcat(Contents(a, files), Contents(b, files));
  }

  lemma AllRowsSame(paths: seq<Path>, before: map<Path, RunFile>, after: map<Path, RunFile>)
    requires AllFinished(paths, before)
    requires forall i | 0 <= i < |paths| :: paths[i] in after && after[paths[i]] == before[paths[i]]
    ensures AllFinished(paths, after) && AllRows(paths, after) == AllRows(paths, before)
  {
    assert Contents(paths, after) == Contents(paths, before);
  }

  lemma LiveParts(done: seq<Path>, group: seq<Path>, tail: seq<Path>, files: map<Path, RunFile>)
    requires Live(done + group + tail, files)
    ensures AllFinished(done, files) && AllFinished(group, files) && AllFinished(tail, files)
    ensures forall i, j | 0 <= i < |done| && 0 <= j < |group| :: done[i] != group[j]
    ensures forall i, j | 0 <= i < |tail| && 0 <= j < |group| :: tail[i] != group[j]
    ensures forall i, j | 0 <= i < |done| && 0 <= j < |tail| :: done[i] != tail[j]
    ensures Distinct(done) && Distinct(tail)
  {
    var all := done + group + tail;
    forall i | 0 <= i < |done| ensures done[i] == all[i] {}
    forall i | 0 <= i < |group| ensures group[i] == all[|done| + i] {}
    forall i | 0 <= i < |tail| ensures tail[i] == all[|done| + |group| + i] {}
  }

  /** The files after the group was merged into `out`. */
  ghost function Replaced(group: seq<Path>, out: Path, files: map<Path, RunFile>): map<Path, RunFile>
    requires AllFinished(group, files)
  {
    var merged := StableSort(AllRows(group, files));
    (files - PathSet(group))[out := RunFile(|merged|, merged)]
  }

  /** The live runs are `paths`, and the stable sort of all their rows is `sorted`. */
  ghost predicate Holding(paths: seq<Path>, files: map<Path, RunFile>, sorted: seq<Row>) {
    Live(paths, files) && StableSort(AllRows(paths, files)) == sorted
  }

  lemma UntouchedRows(done: seq<Path>, group: seq<Path>, tail: seq<Path>, out: Path, files: map<Path, RunFile>)
    requires Live(done + group + tail, files) && out !in files && AllFinished(group, files)
    requires AllFinished(done, files) && AllFinished(tail, files)
    ensures var after := Replaced(group, out, files);
      && AllFinished(done, after) && AllRows(done, after) == AllRows(done, files)
      && AllFinished(tail, after) && AllRows(tail, after) == AllRows(tail, files)
  {
    LiveParts(done, group, tail, files);
    AllRowsSame(done, files, Replaced(group, out, files));
    AllRowsSame(tail, files, Replaced(group, out, files));
  }

  lemma SingleRun(path: Path, files: map<Path, RunFile>)
    requires path in files && Finished(files[path])
    ensures AllRows([path], files) == files[path].rows
  {
    assert Contents([path], files) == [files[path].rows];
    FlattenSnoc([], files[path].rows);
    assert [] + [files[path].rows] == [files[path].rows];
  }

  lemma MergedRows(group: seq<Path>, out: Path, files: map<Path, RunFile>)
    requires AllFinished(group, files)
    ensures var after := Replaced(group, out, files);
      AllFinished([out], after) && AllRows([out], after) == StableSort(AllRows(group, files))
  {
    StableSortIsStable(AllRows(group, files));
    SingleRun(out, Replaced(group, out, files));
  }

  /** Merging a contiguous group into a fresh file keeps the stable sort of all
      live rows, and keeps the files on disk exactly the live runs. */
  lemma GroupMerged(done: seq<Path>, group: seq<Path>, tail: seq<Path>, out: Path, files: map<Path, RunFile>,
                    sorted: seq<Row>)
    requires Holding(done + group + tail, files, sorted) && out !in files && AllFinished(group, files)
    ensures Holding(done + [out] + tail, Replaced(group, out, files), sorted)
  {
    var after := Replaced(group, out, files);
    LiveParts(done, group, tail, files);
    UntouchedRows(done, group, tail, out, files);
    MergedRows(group, out, files);
    AllRowsAround(done, [out], tail, after);
    AllRowsAround(done, group, tail, files);
    SortSegmentFirst(AllRows(done, files), AllRows(group, files), AllRows(tail, files));
    GroupKeys(done, group, tail, out, files, after);
  }

  lemma AllRowsAround(a: seq<Path>, b: seq<Path>, c: seq<Path>, files: map<Path, RunFile>)
    requires AllFinished(a, files) && AllFinished(b, files) && AllFinished(c, files)
    ensures AllFinished(a + b + c, files)
    ensures AllRows(a + b + c, files) == AllRows(a, files) + AllRows(b, files) + AllRows(c, files)
  {
    AllRowsConcat(a, b, files);
    AllRowsConcat(a + b, c, files);
  }

  lemma PathSetConcat(a: seq<Path>, b: seq<Path>)
    ensures PathSet(a + b) == PathSet(a) + PathSet(b)
  {
    forall p ensures p in PathSet(a + b) <==> p in PathSet(a) + PathSet(b) {
      if p in PathSet(a) {
        var i :| 0 <= i < |a| && a[i] == p;
        assert (a + b)[i] == p;
      }
      if p in PathSet(b) {
        var i :| 0 <= i < |b| && b[i] == p;
        assert (a + b)[|a| + i] == p;
      }
    }
  }

  lemma GroupKeys(done: seq<Path>, group: seq<Path>, tail: seq<Path>, out: Path, files: map<Path, RunFile>,
                  after: map<Path, RunFile>)
    requires Live(done + group + tail, files) && out !in files
    requires after.Keys == files.Keys - PathSet(group) + {out}
    ensures Distinct(done + [out] + tail) && PathSet(done + [out] + tail) == after.Keys
  {
    LiveParts(done, group, tail, files);
    PathSetConcat(done, [out]);
    PathSetConcat(done + [out], tail);
    PathSetConcat(done, group);
    PathSetConcat(done + group, tail);
    assert PathSet([out]) == {out} by {
      assert [out][0] == out;
    }
    assert PathSet(done) !! PathSet(group) && PathSet(tail) !! PathSet(group);
  }

  /** A group has no more rows than all live runs together. */
  lemma GroupFits(done: seq<Path>, group: seq<Path>, tail: seq<Path>, files: map<Path, RunFile>, sorted: seq<Row>)
    requires Holding(done + group + tail, files, sorted)
    ensures AllFinished(group, files) && |Reference(false, AllRows(group, files))| <= |sorted|
  {
    LiveParts(done, group, tail, files);
    AllRowsAround(done, group, tail, files);
    StableSortMultiset(AllRows(group, files));
    StableSortMultiset(AllRows(done + group + tail, files));
  }

  /** Fold the next group of a pass into one run; a single run stays as it is. */
  method FoldGroup(disk: Disk, budget: Budget, layout: Layout, pass: nat, next: seq<Path>, group: seq<Path>,
                   ghost tail: seq<Path>, ghost sorted: seq<Row>)
    returns (result: Outcome<Path>)
    requires group != [] && Holding(next + group + tail, disk.files, sorted) && NamesFree(disk.files, pass, |next|)
    modifies disk, budget
    ensures Explained(result, disk.faults - old(disk.faults),
                      Since(old(budget.refusals), budget.refusals), |sorted| >= U64_LIMIT)
    ensures budget.held == old(budget.held)
    ensures |group| == 1 ==>
      result == Ok(group[0]) && disk.files == old(disk.files) && disk.appended == old(disk.appended)
    ensures result.Ok? ==> Holding(next + [result.value] + tail, disk.files, sorted)
    ensures result.Ok? ==> NamesFree(disk.files, pass, |next| + 1)
  {
    if |group| == 1 {
      assert group == [group[0]];
      return Ok(group[0]);
    }
    var out := Merged(pass, |next|);
    LiveParts(next, group, tail, disk.files);
    GroupMerged(next, group, tail, out, disk.files, sorted);
    GroupFits(next, group, tail, disk.files, sorted);
    var merged := MergeGroupToFile(disk, budget, layout, group, out, false);
    if !merged.Ok? {
      return merged.Failure();
    }
    assert disk.files == Replaced(group, out, old(disk.files));
    result := Ok(out);
  }

  lemma Regroup(next: seq<Path>, runs: seq<Path>, at: nat, end: nat, out: Path)
    requires at <= end <= |runs|
    ensures next + runs[at..] == next + runs[at..end] + runs[end..]
    ensures next + [out] + runs[end..] == (next + [out]) + runs[end..]
  {
  }

  lemma GroupsStep(n: nat, fan: nat, at: nat, end: nat)
    requires fan >= 2 && at < n && end == at + Min(fan, n - at)
    ensures Groups(n - at, fan) == 1 + Groups(n - end, fan)
  {
  }

  /** Fold the group that starts at `at` and append the outcome to the runs of
      the next pass. */
  method FoldNext(disk: Disk, budget: Budget, layout: Layout, pass: nat, next: seq<Path>, runs: seq<Path>, at: nat,
                  fan: nat,
                  ghost sorted: seq<Row>)
    returns (result: Outcome<seq<Path>>, end: nat)
    requires fan >= 2 && at < |runs|
    requires Holding(next + runs[at..], disk.files, sorted) && NamesFree(disk.files, pass, |next|)
    modifies disk, budget
    ensures Explained(result, disk.faults - old(disk.faults),
                      Since(old(budget.refusals), budget.refusals), |sorted| >= U64_LIMIT)
    ensures budget.held == old(budget.held)
    ensures at < end <= |runs| && end - at <= fan && Groups(|runs| - at, fan) == 1 + Groups(|runs| - end, fan)
    ensures result.Ok? ==> Holding(result.value + runs[end..], disk.files, sorted)
    ensures result.Ok? ==> |result.value| == |next| + 1 && NamesFree(disk.files, pass, |result.value|)
  {
    hide Holding, NamesFree;
    end := at + Min(fan, |runs| - at);
    GroupsStep(|runs|, fan, at, end);
    Regroup(next, runs, at, end, runs[at]);
    var folded := FoldGroup(disk, budget, layout, pass, next, runs[at..end], runs[end..], sorted);
    if !folded.Ok? {
      return folded.Failure(), end;
    }
    result := Ok(next + [folded.value]);
  }

  lemma PassStarts(files: map<Path, RunFile>, pass: nat, group: nat)
    requires NamesFree(files, pass, group)
    ensures NamesFree(files, pass + 1, 0)
  {
  }

  /** One pass: fold each group of `fan` runs into one. */
  method Pass(disk: Disk, budget: Budget, layout: Layout, runs: seq<Path>, fan: nat, pass: nat, ghost sorted: seq<Row>)
    returns (result: Outcome<seq<Path>>)
    requires fan >= 2 && Holding(runs, disk.files, sorted) && NamesFree(disk.files, pass, 0)
    modifies disk, budget
    ensures Explained(result, disk.faults - old(disk.faults),
                      Since(old(budget.refusals), budget.refusals), |sorted| >= U64_LIMIT)
    ensures budget.held == old(budget.held)
    ensures result.Ok? ==> Holding(result.value, disk.files, sorted)
    ensures result.Ok? ==> NamesFree(disk.files, pass + 1, 0) && |result.value| == Groups(|runs|, fan)
  {
    hide Holding, NamesFree;
    var next: seq<Path> := [];
    var at := 0;
    assert next + runs[at..] == runs;
    while at < |runs|
      invariant at <= |runs| && |next| + Groups(|runs| - at, fan) == Groups(|runs|, fan)
      invariant Holding(next + runs[at..], disk.files, sorted) && NamesFree(disk.files, pass, |next|)
      invariant budget.held == old(budget.held)
      invariant disk.faults == old(disk.faults) && budget.refusals == old(budget.refusals)
    {
      var end: nat;
      result, end := FoldNext(disk, budget, layout, pass, next, runs, at, fan, sorted);
      if !result.Ok? {
        return;
      }
      next := result.value;
      at := end;
    }
    assert next + runs[at..] == next;
    PassStarts(disk.files, pass, |next|);
    result := Ok(next);
  }

  /** All passes: fold the runs until at most `fan` are left. */
  method Fold(disk: Disk, budget: Budget, layout: Layout, frontier: seq<Path>, fan: nat, ghost sorted: seq<Row>)
    returns (result: Outcome<seq<Path>>, passes: nat)
    requires fan >= 2 && Holding(frontier, disk.files, sorted) && NamesFree(disk.files, 0, 0)
    modifies disk, budget
    ensures Explained(result, disk.faults - old(disk.faults),
                      Since(old(budget.refusals), budget.refusals), |sorted| >= U64_LIMIT)
    ensures budget.held == old(budget.held)
    ensures result.Ok? ==> Holding(result.value, disk.files, sorted)
    ensures result.Ok? ==> |result.value| <= fan && passes == Depth(|frontier|, fan)
    ensures passes <= Depth(|frontier|, fan)
  {
    var runs := frontier;
    passes := 0;
    while |runs| > fan
      invariant Holding(runs, disk.files, sorted) && NamesFree(disk.files, passes, 0)
      invariant budget.held == old(budget.held)
      invariant disk.faults == old(disk.faults) && budget.refusals == old(budget.refusals)
      invariant passes + Depth(|runs|, fan) == Depth(|frontier|, fan)
      decreases |runs|
    {
      var folded := Pass(disk, budget, layout, runs, fan, passes, sorted);
      if !folded.Ok? {
        return folded, passes;
      }
      runs := folded.value;
      passes := passes + 1;
    }
    result := Ok(runs);
  }
}
