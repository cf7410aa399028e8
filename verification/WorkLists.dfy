/** How a work-list of files is divided: shards by package or by count (runner/shard.go) and the
    partitions of a pipeline stage (pipeline/partition.go). */
module WorkLists {
  import opened Selections
  import opened Sorting
  import opened Wrappers

  type File = string

  function Flatten(shards: seq<seq<File>>): seq<File> {
    if shards == [] then [] else Flatten(shards[..|shards| - 1]) + shards[|shards| - 1]
  }

  /** The directory of a clean slash-separated path. */
  function Dir(path: File): string {
    if path == "" then "."
    else if path[|path| - 1] == '/' then (if |path| == 1 then "/" else path[..|path| - 1])
    else Dir(path[..|path| - 1])
  }

  /** What stands before the last slash is the directory; a bare name is in the current one. */
  lemma {:induction false} DirIs(dir: File, base: File)
    requires '/' !in base
    ensures dir != "" ==> Dir(dir + "/" + base) == dir
    ensures Dir("/" + base) == "/" && Dir(base) == "."
  {
    if base == "" {
      assert dir + "/" + base == dir + "/" && "/" + base == "/";
      assert (dir + "/")[..|dir|] == dir;
    } else {
      var front, last := base[..|base| - 1], base[|base| - 1];
      assert last in base && forall c :: c in front ==> c in base;
      DirIs(dir, front);
      assert (dir + "/" + base)[..|dir + "/" + base| - 1] == dir + "/" + front;
      assert ("/" + base)[..|"/" + base| - 1] == "/" + front;
    }
  }

  function FileOf(dir: string): File -> Option<File> {
    (f: File) => if Dir(f) == dir then Some(f) else None
  }

  /** The files of a directory are those of the list that are in it, each as often as there and in that order. */
  lemma {:induction false} FilesInOrder(files: seq<File>, dir: string) returns (at: seq<nat>)
    ensures Picks(files, FileOf(dir), FilesIn(files, dir), at)
  {
    hide Dir;
    if files == [] {
      at := [];
      PicksNone(FileOf(dir));
    } else {
      var front, last := files[..|files| - 1], files[|files| - 1];
      at := FilesInOrder(front, dir);
      at := PicksOneMore(front, FileOf(dir), FilesIn(front, dir), at, last);
      assert front + [last] == files;
    }
  }

  function FilesIn(files: seq<File>, dir: string): seq<File> {
    if files == [] then []
    else
      var front, last := files[..|files| - 1], files[|files| - 1];
      FilesIn(front, dir) + if Dir(last) == dir then [last] else []
  }

  ghost predicate Distinct(names: seq<string>) {
    forall i, j :: 0 <= i < j < |names| ==> names[i] != names[j]
  }

  /** One shard per directory, in directory order; each holds all files of its directory, in the
      order of the list. */
  ghost predicate GroupedBy(files: seq<File>, dirs: seq<string>, shards: seq<seq<File>>) {
    && Distinct(dirs) && Sorted(dirs, StringLe)
    && |dirs| == |shards| && (forall k :: 0 <= k < |shards| ==> shards[k] == FilesIn(files, dirs[k]) && shards[k] != [])
    && (forall f :: f in files ==> Dir(f) in dirs)
  }

  lemma {:induction false} NoFilesIn(files: seq<File>, dir: string)
    requires forall i :: 0 <= i < |files| ==> Dir(files[i]) != dir
    ensures FilesIn(files, dir) == []
  {
    if files != [] {
      NoFilesIn(files[..|files| - 1], dir);
    }
  }

  /** The directories found so far, in order of discovery, each with its files. */
  ghost predicate Grouping(files: seq<File>, found: seq<string>, groups: map<string, seq<File>>) {
    && Distinct(found)
    && (forall d :: d in groups <==> d in found)
    && (forall d :: d in groups ==> groups[d] == FilesIn(files, d) && groups[d] != [])
    && (forall j :: 0 <= j < |files| ==> Dir(files[j]) in found)
  }

  lemma GroupingStep(files: seq<File>, f: File, found: seq<string>, groups: map<string, seq<File>>)
    requires Grouping(files, found, groups)
    ensures var dir := Dir(f);
            if dir in groups then Grouping(files + [f], found, groups[dir := groups[dir] + [f]])
            else Grouping(files + [f], found + [dir], groups[dir := [f]])
  {
    hide Dir, FilesIn;
    forall d ensures FilesIn(files + [f], d) == FilesIn(files, d) + if Dir(f) == d then [f] else [] {
      OneMoreFile(files, f, d);
    }
    if Dir(f) !in groups {
      NoFilesIn(files, Dir(f));
      assert [] + [f] == [f];
    } else {
      assert FilesIn(files, Dir(f)) + [f] != [];
    }
    forall d ensures FilesIn(files, d) + [] == FilesIn(files, d) {
    }
  }

  lemma OneMoreFile(files: seq<File>, f: File, dir: string)
    ensures FilesIn(files + [f], dir) == FilesIn(files, dir) + if Dir(f) == dir then [f] else []
  {
    hide Dir;
    assert (files + [f])[..|files|] == files;
  }

  method GroupByPackage(files: seq<File>) returns (shards: seq<seq<File>>, ghost dirs: seq<string>)
    ensures GroupedBy(files, dirs, shards)
    ensures multiset(Flatten(shards)) == multiset(files)
  {
    hide Dir, FilesIn, GroupedBy, Flatten;
    var groups: map<string, seq<File>> := map[];
    var found: seq<string> := [];
    for i := 0 to |files|
      invariant Grouping(files[..i], found, groups)
    {
      var f := files[i];
      var dir := Dir(f);
      assert files[..i + 1] == files[..i] + [f];
      GroupingStep(files[..i], f, found, groups);
      if dir !in groups {
        found := found + [dir];
        groups := groups[dir := []];
      }
      assert [] + [f] == [f];
      groups := groups[dir := groups[dir] + [f]];
    }
    assert files[..|files|] == files;
    shards, dirs := CollectGroups(files, found, groups);
    GroupingCovers(files, dirs, shards);
  }

  method CollectGroups(files: seq<File>, found: seq<string>, groups: map<string, seq<File>>)
    returns (shards: seq<seq<File>>, ghost dirs: seq<string>)
    requires Grouping(files, found, groups)
    ensures GroupedBy(files, dirs, shards)
  {
    hide FilesIn, Dir, StringLe, Insert;
    StringLeTotal();
    SortCorrect(found, StringLe);
    var sorted := StableSort(found, StringLe);
    DistinctPermutes(found, sorted);
    shards, dirs := [], sorted;
    for k := 0 to |sorted|
      invariant |shards| == k
      invariant forall j :: 0 <= j < k ==> shards[j] == FilesIn(files, sorted[j]) && shards[j] != []
    {
      assert sorted[k] in found;
      shards := shards + [groups[sorted[k]]];
    }
  }

  lemma DistinctPermutes(a: seq<string>, b: seq<string>)
    requires Distinct(a) && multiset(a) == multiset(b)
    ensures Distinct(b) && forall d :: d in a <==> d in b
  {
    forall d ensures d in a <==> d in b {
      assert d in multiset(a) <==> d in multiset(b);
    }
    forall d ensures multiset(a)[d] <= 1 {
      DistinctOnce(a, d);
    }
    forall i, j | 0 <= i < j < |b| ensures b[i] != b[j] {
      assert b == b[..j] + ([b[j]] + b[j + 1..]);
      assert b[i] in multiset(b[..j]);
      assert multiset(b)[b[j]] == multiset(b[..j])[b[j]] + multiset([b[j]] + b[j + 1..])[b[j]];
    }
  }

  lemma {:induction false} DistinctOnce(a: seq<string>, d: string)
    requires Distinct(a)
    ensures multiset(a)[d] <= 1
  {
    if a != [] {
      var front, last := a[..|a| - 1], a[|a| - 1];
      DistinctOnce(front, d);
      assert a == front + [last];
      assert last !in front;
    }
  }

  method BatchFiles(files: seq<File>, size: int) returns (shards: seq<seq<File>>)
    ensures Flatten(shards) == files
    ensures var n := if size < 1 then 1 else size;
            forall k :: 0 <= k < |shards| ==> 0 < |shards[k]| <= n && (k < |shards| - 1 ==> |shards[k]| == n)
  {
    var n := if size < 1 then 1 else size;
    shards := [];
    var i := 0;
    while i < |files|
      invariant 0 <= i && (i <= |files| || shards != [])
      invariant Flatten(shards) == files[..if i <= |files| then i else |files|]
      invariant forall k :: 0 <= k < |shards| ==>
                  0 < |shards[k]| <= n && (i <= |files| || k < |shards| - 1 ==> |shards[k]| == n)
    {
      var end := if i + n > |files| then |files| else i + n;
      var more := shards + [files[i..end]];
      assert more[..|more| - 1] == shards;
      assert files[..i] + files[i..end] == files[..end];
      shards := more;
      i := i + n;
    }
    assert files[..|files|] == files;
  }

  /** Dividing by package or by count covers the work-list exactly: every file is in the shards as
      often as in the list, and no shard is empty. */
  method ShardFiles(files: seq<File>, byPackage: bool, batch: int) returns (shards: seq<seq<File>>)
    ensures multiset(Flatten(shards)) == multiset(files)
    ensures forall k :: 0 <= k < |shards| ==> shards[k] != []
    ensures byPackage ==> exists dirs :: GroupedBy(files, dirs, shards)
    ensures !byPackage ==> Flatten(shards) == files
  {
    if byPackage {
      ghost var dirs;
      shards, dirs := GroupByPackage(files);
    } else {
      shards := BatchFiles(files, batch);
    }
  }

  lemma {:induction false} FilesInCount(files: seq<File>, dir: string, f: File)
    ensures multiset(FilesIn(files, dir))[f] == if Dir(f) == dir then multiset(files)[f] else 0
  {
    if files != [] {
      FilesInCount(files[..|files| - 1], dir, f);
      assert files == files[..|files| - 1] + [files[|files| - 1]];
    }
  }

  lemma {:induction false} GroupCount(files: seq<File>, dirs: seq<string>, shards: seq<seq<File>>, f: File)
    requires Distinct(dirs) && |dirs| == |shards|
    requires forall k :: 0 <= k < |shards| ==> shards[k] == FilesIn(files, dirs[k])
    ensures multiset(Flatten(shards))[f] == if Dir(f) in dirs then multiset(files)[f] else 0
  {
    if dirs != [] {
      var n := |dirs| - 1;
      GroupCount(files, dirs[..n], shards[..n], f);
      FilesInCount(files, dirs[n], f);
      assert dirs == dirs[..n] + [dirs[n]];
    }
  }

  lemma GroupingCovers(files: seq<File>, dirs: seq<string>, shards: seq<seq<File>>)
    requires GroupedBy(files, dirs, shards)
    ensures multiset(Flatten(shards)) == multiset(files)
  {
    forall f ensures multiset(Flatten(shards))[f] == multiset(files)[f] {
      GroupCount(files, dirs, shards, f);
      if Dir(f) !in dirs {
        assert f !in files && f !in multiset(files);
      }
    }
  }

  /** Two shards never share a file, when the work-list has no duplicates: editing them
      concurrently touches different files. */
  lemma {:induction false} ShardsAreDisjoint(files: seq<File>, shards: seq<seq<File>>, i: nat, j: nat, f: File)
    requires multiset(Flatten(shards)) == multiset(files)
    requires i < j < |shards| && f in shards[i] && f in shards[j]
    ensures multiset(files)[f] >= 2
  {
    FlattenAtLeast(shards, i, j, f);
  }

  lemma {:induction false} FlattenAtLeast(shards: seq<seq<File>>, i: nat, j: nat, f: File)
    requires i < j < |shards| && f in shards[i] && f in shards[j]
    ensures multiset(Flatten(shards))[f] >= 2
  {
    var last := |shards| - 1;
    if j < last {
      FlattenAtLeast(shards[..last], i, j, f);
    } else {
      FlattenHas(shards[..last], i, f);
      assert f in multiset(shards[last]);
    }
  }

  lemma {:induction false} FlattenHas(shards: seq<seq<File>>, i: nat, f: File)
    requires i < |shards| && f in shards[i]
    ensures multiset(Flatten(shards))[f] >= 1
  {
    var last := |shards| - 1;
    if i < last {
      FlattenHas(shards[..last], i, f);
    } else {
      assert f in multiset(shards[last]);
    }
  }

  // ----- Stage partitions: slices of one backing array -----

  const MAX_PARTITIONS: nat := 10

  /** A Go slice of the backing array, from `lo` up to `hi`. */
  datatype Slice = Slice(lo: nat, hi: nat)

  /** The slices lie side by side from the first file up to the n-th. */
  ghost predicate Tiles(parts: seq<Slice>, n: nat) {
    if parts == [] then n == 0
    else
      var last := parts[|parts| - 1];
      Tiles(parts[..|parts| - 1], last.lo) && last.lo < last.hi == n
  }

  lemma {:induction false} TilesAt(parts: seq<Slice>, n: nat, k: nat)
    requires Tiles(parts, n) && k < |parts|
    ensures Tiles(parts[..k], parts[k].lo) && parts[k].lo < parts[k].hi <= n
    ensures parts[k].hi == if k + 1 < |parts| then parts[k + 1].lo else n
  {
    var last := |parts| - 1;
    if k < last {
      TilesAt(parts[..last], parts[last].lo, k);
      assert parts[..last][..k] == parts[..k];
    }
  }

  /** Appends a slice's elements in place: the capacity of `merged` reaches to the end of the backing
      array, so Go writes into that array instead of copying it. */
  method AppendInPlace(backing: array<File>, merged: Slice, extra: Slice) returns (out: Slice)
    requires merged.lo <= merged.hi <= extra.lo <= extra.hi <= backing.Length
    modifies backing
    ensures out == Slice(merged.lo, merged.hi + (extra.hi - extra.lo))
    ensures backing[merged.lo..out.hi] == old(backing[merged.lo..merged.hi]) + old(backing[extra.lo..extra.hi])
    ensures backing[..merged.lo] == old(backing[..merged.lo]) && backing[out.hi..] == old(backing[out.hi..])
    ensures extra.lo == merged.hi ==> backing[..] == old(backing[..])
  {
    var shift := extra.lo - merged.hi;
    for j := 0 to extra.hi - extra.lo
      invariant forall k :: 0 <= k < backing.Length && !(merged.hi <= k < merged.hi + j) ==>
                  backing[k] == old(backing[k])
      invariant forall k :: merged.hi <= k < merged.hi + j ==> backing[k] == old(backing[k + shift])
    {
      backing[merged.hi + j] := backing[extra.lo + j];
    }
    out := Slice(merged.lo, merged.hi + (extra.hi - extra.lo));
    Shifted(old(backing[..]), backing[..], merged, extra);
  }

  /** What a list holds after the cells of one slice were copied behind another. */
  lemma Shifted(was: seq<File>, now: seq<File>, merged: Slice, extra: Slice)
    requires merged.lo <= merged.hi <= extra.lo <= extra.hi <= |was| == |now|
    requires forall k :: 0 <= k < |was| && !(merged.hi <= k < merged.hi + (extra.hi - extra.lo)) ==> now[k] == was[k]
    requires forall k :: merged.hi <= k < merged.hi + (extra.hi - extra.lo) ==>
               now[k] == was[k + (extra.lo - merged.hi)]
    ensures var hi := merged.hi + (extra.hi - extra.lo);
            && now[merged.lo..hi] == was[merged.lo..merged.hi] + was[extra.lo..extra.hi]
            && now[..merged.lo] == was[..merged.lo] && now[hi..] == was[hi..]
            && (extra.lo == merged.hi ==> now == was)
  {
    var n, hi := extra.hi - extra.lo, merged.hi + (extra.hi - extra.lo);
    forall k | 0 <= k < n ensures now[merged.hi..hi][k] == was[extra.lo..extra.hi][k] {
      assert now[merged.hi + k] == was[merged.hi + k + (extra.lo - merged.hi)];
    }
    assert now[merged.hi..hi] == was[extra.lo..extra.hi];
    assert now[merged.lo..merged.hi] == was[merged.lo..merged.hi];
    assert now[merged.lo..hi] == now[merged.lo..merged.hi] + now[merged.hi..hi];
  }

  /** At most ten groups, which together are the input in order. The append that merges the excess
      groups overwrites the input's own backing array, but every cell with the value it had. */
  method SplitIntoPartitions(matches: array<File>, maxPer: nat) returns (parts: seq<Slice>)
    requires maxPer > 0
    modifies matches
    ensures matches[..] == old(matches[..])
    ensures Tiles(parts, matches.Length) && |parts| <= 10
    ensures forall k :: 0 <= k < |parts| - 1 ==> parts[k].hi - parts[k].lo == maxPer
    ensures 0 < |parts| < 10 ==> parts[|parts| - 1].hi - parts[|parts| - 1].lo <= maxPer
  {
    var n := matches.Length;
    parts := [];
    var i := 0;
    while i < n
      invariant 0 <= i && Tiles(parts, if i < n then i else n)
      invariant forall k :: 0 <= k < |parts| ==> parts[k].hi - parts[k].lo <= maxPer
      invariant forall k :: 0 <= k < |parts| && (k < |parts| - 1 || i <= n) ==> parts[k].hi - parts[k].lo == maxPer
    {
      var end := if i + maxPer > n then n else i + maxPer;
      var more := parts + [Slice(i, end)];
      assert more[..|parts|] == parts;
      parts := more;
      i := i + maxPer;
    }
    if |parts| > MAX_PARTITIONS {
      var last := MAX_PARTITIONS - 1;
      var merged := parts[last];
      TilesAt(parts, n, last);
      for k := MAX_PARTITIONS to |parts|
        invariant matches[..] == old(matches[..])
        invariant merged == Slice(parts[last].lo, parts[k - 1].hi) && merged.lo < merged.hi
      {
        TilesAt(parts, n, k - 1);
        TilesAt(parts, n, k);
        merged := AppendInPlace(matches, merged, parts[k]);
      }
      KeptTiles(parts, n, merged);
      parts := parts[..MAX_PARTITIONS][last := merged];
    }
  }

  /** With everything from the last partition on merged into it, the partitions still cover the list. */
  lemma KeptTiles(parts: seq<Slice>, n: nat, merged: Slice)
    requires Tiles(parts, n) && |parts| > MAX_PARTITIONS
    requires merged == Slice(parts[MAX_PARTITIONS - 1].lo, parts[|parts| - 1].hi) && merged.lo < merged.hi
    ensures Tiles(parts[..MAX_PARTITIONS][MAX_PARTITIONS - 1 := merged], n)
  {
    var last := MAX_PARTITIONS - 1;
    TilesAt(parts, n, |parts| - 1);
    TilesAt(parts, n, last);
    assert parts[..MAX_PARTITIONS][last := merged][..last] == parts[..last];
  }

  function Contents(files: seq<File>, parts: seq<Slice>): seq<seq<File>>
    requires forall k :: 0 <= k < |parts| ==> parts[k].lo <= parts[k].hi <= |files|
  {
    seq(|parts|, k requires 0 <= k < |parts| => files[parts[k].lo..parts[k].hi])
  }

  /** Side-by-side slices put together are the whole list. */
  lemma {:induction false} TilesConcatenate(files: seq<File>, parts: seq<Slice>, n: nat)
    requires Tiles(parts, n) && n <= |files|
    ensures forall k :: 0 <= k < |parts| ==> parts[k].lo <= parts[k].hi <= |files|
    ensures Flatten(Contents(files, parts)) == files[..n]
  {
    if parts != [] {
      var last := |parts| - 1;
      TilesConcatenate(files, parts[..last], parts[last].lo);
      assert Contents(files, parts)[..last] == Contents(files, parts[..last]);
      assert files[..parts[last].lo] + files[parts[last].lo..n] == files[..n];
    }
  }
}
