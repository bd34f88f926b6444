/**
 * `validate_downloaded_files` of AirfoilData_Get.py: the .dat names of the
 * directory (case-sensitive suffix), a histogram of their sizes in 500-byte
 * ranges, and the size of the random sample. The size lookup of a name is
 * an oracle `size(name)`: `None` where `os.path.getsize` raises `OSError`.
 */
module Validation {
  import opened Wrappers
  import opened Text

  const BucketWidth: nat := 500
  const MaxSample: nat := 10

  /** The range `"{lo}-{hi} bytes"` a size is counted under. */
  datatype SizeRange = SizeRange(lo: nat, hi: nat)

  /** What the function reports, by its three exits. */
  datatype Report =
    | NoDirectory
    | NoDatFiles
    | Summary(datFiles: seq<string>, stats: map<SizeRange, nat>, sampleSize: nat)

  /** `f.endswith('.dat')`, case-sensitive. */
  predicate IsDatFile(name: string)
  {
    EndsWith(name, ".dat")
  }

  /** `[f for f in os.listdir(directory) if f.endswith('.dat')]` */
  function DatFiles(listing: seq<string>): (r: seq<string>)
    ensures forall f :: f in r <==> f in listing && IsDatFile(f)
    ensures multiset(r) <= multiset(listing)
  {
    Filter(listing, IsDatFile)
  }

  /** `(size // 500) * 500` and that plus 499. */
  function BucketOf(size: nat): (b: SizeRange)
    ensures b.lo % BucketWidth == 0 && b.lo <= size <= b.hi && b.hi == b.lo + BucketWidth - 1
  {
    var lo := (size / BucketWidth) * BucketWidth;
    SizeRange(lo, lo + BucketWidth - 1)
  }

  /** The ranges do not overlap: a size has only one range whose bounds hold it. */
  lemma BucketUnique(size: nat, lo: nat)
    requires lo % BucketWidth == 0 && lo <= size < lo + BucketWidth
    ensures BucketOf(size) == SizeRange(lo, lo + BucketWidth - 1)
  {
    var q := lo / BucketWidth;
    assert lo == q * BucketWidth;
    assert q * BucketWidth <= size < (q + 1) * BucketWidth;
    assert size / BucketWidth == q;
  }

  /** The histogram after the names of `names`, counted in order. */
  function Histogram(names: seq<string>, size: string -> Option<nat>): map<SizeRange, nat>
  {
    if names == [] then map[]
    else
      var h := Histogram(names[..|names| - 1], size);
      match size(names[|names| - 1])
      case None => h
      case Some(s) =>
        var b := BucketOf(s);
        h[b := (if b in h then h[b] else 0) + 1]
  }

  /** How many of `names` have a size. */
  function Found(names: seq<string>, size: string -> Option<nat>): (n: nat)
    ensures n <= |names|
  {
    if names == [] then 0
    else Found(names[..|names| - 1], size) + (if size(names[|names| - 1]).Some? then 1 else 0)
  }

  /** How many of `names` have a size in range `b`. */
  function CountIn(names: seq<string>, size: string -> Option<nat>, b: SizeRange): (n: nat)
    ensures n <= Found(names, size)
  {
    if names == [] then 0
    else
      var last := size(names[|names| - 1]);
      CountIn(names[..|names| - 1], size, b) + (if last.Some? && BucketOf(last.value) == b then 1 else 0)
  }

  /** `min(10, len(dat_files))` */
  function SampleSize(n: nat): (k: nat)
    ensures k <= MaxSample && k <= n
    ensures k == MaxSample || k == n
  {
    if n < MaxSample then n else MaxSample
  }

  ghost function PickKey(m: map<SizeRange, nat>): (k: SizeRange)
    requires m != map[]
    ensures k in m
  {
    var k :| k in m; k
  }

  /** The sum of the counts of a histogram. */
  ghost function Total(m: map<SizeRange, nat>): nat
    decreases |m|
  {
    if m == map[] then 0
    else
      var k := PickKey(m);
      assert |m - {k}| < |m| by { assert (m - {k}).Keys == m.Keys - {k}; }
      m[k] + Total(m - {k})
  }

  /** The sum can be taken starting from any key. */
  lemma {:induction false} TotalWithout(m: map<SizeRange, nat>, k: SizeRange)
    requires k in m
    ensures Total(m) == m[k] + Total(m - {k})
    decreases |m|
  {
    var j := PickKey(m);
    if j != k {
      assert (m - {j}).Keys == m.Keys - {j};
      assert (m - {k}).Keys == m.Keys - {k};
      TotalWithout(m - {j}, k);
      TotalWithout(m - {k}, j);
      assert m - {j} - {k} == m - {k} - {j};
    }
  }

  /** The histogram and the count after one more name, from those before it. */
  lemma HistogramStep(names: seq<string>, i: nat, size: string -> Option<nat>)
    requires i < |names|
    ensures var h := Histogram(names[..i], size);
      Histogram(names[..i + 1], size) ==
        match size(names[i])
        case None => h
        case Some(s) => h[BucketOf(s) := (if BucketOf(s) in h then h[BucketOf(s)] else 0) + 1]
    ensures Found(names[..i + 1], size) == Found(names[..i], size) + (if size(names[i]).Some? then 1 else 0)
  {
    assert names[..i + 1][..i] == names[..i];
  }

  /** `size_stats[r] = size_stats.get(r, 0) + 1` adds one to the sum. */
  lemma TotalIncrement(m: map<SizeRange, nat>, k: SizeRange)
    ensures Total(m[k := (if k in m then m[k] else 0) + 1]) == Total(m) + 1
  {
    var m' := m[k := (if k in m then m[k] else 0) + 1];
    TotalWithout(m', k);
    if k in m {
      TotalWithout(m, k);
      assert m' - {k} == m - {k};
    } else {
      assert m' - {k} == m;
    }
  }

  /** The counts of the histogram add up to the number of names whose size lookup succeeded. */
  lemma {:induction false} HistogramTotal(names: seq<string>, size: string -> Option<nat>)
    ensures Total(Histogram(names, size)) == Found(names, size)
  {
    if names != [] {
      var init := names[..|names| - 1];
      HistogramTotal(init, size);
      var s := size(names[|names| - 1]);
      if s.Some? {
        TotalIncrement(Histogram(init, size), BucketOf(s.value));
      }
    }
  }

  /** Each range present holds exactly the names whose size falls in it; absent ranges hold none. */
  lemma {:induction false} HistogramCounts(names: seq<string>, size: string -> Option<nat>, b: SizeRange)
    ensures var h := Histogram(names, size);
      && (b in h <==> CountIn(names, size, b) > 0)
      && (b in h ==> h[b] == CountIn(names, size, b))
  {
    if names != [] {
      HistogramCounts(names[..|names| - 1], size, b);
    }
  }

  /**
   * `validate_downloaded_files(directory)`. `dirExists` is
   * `os.path.exists(directory)` and `listing` is `os.listdir(directory)`.
   */
  method ValidateDownloadedFiles(dirExists: bool, listing: seq<string>, size: string -> Option<nat>)
    returns (v: Report)
    ensures !dirExists ==> v == NoDirectory
    ensures dirExists && DatFiles(listing) == [] ==> v == NoDatFiles
    ensures dirExists && DatFiles(listing) != [] ==>
      v == Summary(DatFiles(listing), Histogram(DatFiles(listing), size), SampleSize(|DatFiles(listing)|))
    ensures v.Summary? ==> Total(v.stats) == Found(v.datFiles, size) && v.sampleSize <= |v.datFiles|
  {
    if !dirExists {
      return NoDirectory;
    }
    var datFiles := DatFiles(listing);
    if datFiles == [] {
      return NoDatFiles;
    }
    var sizeStats: map<SizeRange, nat> := map[];
    var i := 0;
    while i < |datFiles|
      invariant 0 <= i <= |datFiles|
      invariant sizeStats == Histogram(datFiles[..i], size)
      invariant Total(sizeStats) == Found(datFiles[..i], size)
    {
      HistogramStep(datFiles, i, size);
      var s := size(datFiles[i]);
      if s.Some? {
        var sizeRange := BucketOf(s.value);
        TotalIncrement(sizeStats, sizeRange);
        sizeStats := sizeStats[sizeRange := (if sizeRange in sizeStats then sizeStats[sizeRange] else 0) + 1];
      }
      i := i + 1;
    }
    assert datFiles[..i] == datFiles;
    v := Summary(datFiles, sizeStats, SampleSize(|datFiles|));
  }
}
