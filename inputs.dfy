/**
 * Input-file bookkeeping of the data pipeline: sharding a sorted file list
 * across input hosts, reading the document count that a record file's name
 * carries, finding where to resume reading after a number of batches, and
 * checking the dataset configurations.
 */
module Inputs {

  import opened Wrappers
  import opened Text
  import opened Shapes

  /** The exceptions these operations raise. */
  datatype InputError =
    | NoMatchingFiles        // ValueError: the glob matched nothing
    | ZeroSliceStep          // ValueError: a slice with step 0
    | UnsupportedType(kind: string)  // ValueError: a dataset type other than "video" or "text"
    | NoDatasets             // IndexError: `datasets[0]` on an empty list
    | EmptyShare             // IndexError: `data[0]` on an empty share of text files

  // ---------------------------------------------------------------------------
  // Sorting file names (Python's `sorted` on `str`: lexicographic by code point)
  // ---------------------------------------------------------------------------

  /** Python's `a <= b` on strings. */
  predicate NameLeq(a: string, b: string)
    decreases |a|
  {
    |a| == 0 || (|b| > 0 && (a[0] < b[0] || (a[0] == b[0] && NameLeq(a[1..], b[1..]))))
  }

  lemma NameLeqTotal(a: string, b: string)
    ensures NameLeq(a, b) || NameLeq(b, a)
    decreases |a|
  {
    if |a| > 0 && |b| > 0 && a[0] == b[0] {
      NameLeqTotal(a[1..], b[1..]);
    }
  }

  lemma NameLeqTransitive(a: string, b: string, c: string)
    requires NameLeq(a, b) && NameLeq(b, c)
    ensures NameLeq(a, c)
    decreases |a|
  {
    if |a| > 0 && |b| > 0 && |c| > 0 && a[0] == b[0] == c[0] {
      NameLeqTransitive(a[1..], b[1..], c[1..]);
    }
  }

  predicate SortedNames(s: seq<string>)
  {
    forall i, j :: 0 <= i < j < |s| ==> NameLeq(s[i], s[j])
  }

  function Insert(x: string, s: seq<string>): (r: seq<string>)
    requires SortedNames(s)
    ensures SortedNames(r)
    ensures |r| == |s| + 1
    ensures multiset(r) == multiset(s) + multiset{x}
    decreases |s|
  {
    if s == [] then [x]
    else if NameLeq(x, s[0]) then
      BelowAll(x, s);
      [x] + s
    else
      NameLeqTotal(x, s[0]);
      var rest := Insert(x, s[1..]);
      HeadBelowRest(x, s, rest);
      assert s == [s[0]] + s[1..];
      [s[0]] + rest
  }

  /** A name no greater than the head of a sorted list is no greater than any of its names. */
  lemma BelowAll(x: string, s: seq<string>)
    requires SortedNames(s) && |s| >= 1 && NameLeq(x, s[0])
    ensures forall j :: 0 <= j < |s| ==> NameLeq(x, s[j])
  {
    forall j | 0 < j < |s| ensures NameLeq(x, s[j]) {
      NameLeqTransitive(x, s[0], s[j]);
    }
  }

  /** The head of a sorted list is no greater than any name of its tail with `x >= head` inserted. */
  lemma HeadBelowRest(x: string, s: seq<string>, rest: seq<string>)
    requires SortedNames(s) && |s| >= 1 && NameLeq(s[0], x)
    requires multiset(rest) == multiset(s[1..]) + multiset{x}
    ensures forall j :: 0 <= j < |rest| ==> NameLeq(s[0], rest[j])
  {
    forall j | 0 <= j < |rest| ensures NameLeq(s[0], rest[j]) {
      assert rest[j] in multiset(rest);
      if rest[j] != x {
        assert rest[j] in multiset(s[1..]);
        var k :| 0 <= k < |s[1..]| && s[1..][k] == rest[j];
        assert s[k + 1] == rest[j];
      }
    }
  }

  /** Python's `sorted(names)`: an ordered permutation of the names. */
  function Sort(s: seq<string>): (r: seq<string>)
    ensures SortedNames(r)
    ensures |r| == |s|
    ensures multiset(r) == multiset(s)
  {
    if s == [] then []
    else
      assert s == [s[0]] + s[1..];
      Insert(s[0], Sort(s[1..]))
  }

  // ---------------------------------------------------------------------------
  // split_files
  // ---------------------------------------------------------------------------

  /** Python's `files[start::step]` for a non-negative start and a positive step. */
  function Stride<T>(files: seq<T>, start: nat, step: nat): seq<T>
    requires step >= 1
    decreases |files| - start
  {
    if start >= |files| then [] else [files[start]] + Stride(files, start + step, step)
  }

  /**
   * `split_files`: `matched` is what the glob returned and `shuffle` stands
   * for the seeded `random.shuffle`, an arbitrary function of the sorted
   * list (nothing here requires it to be a permutation); the file list is sorted, shuffled
   * when the seed is non-zero, and every `sliceCount`-th file from
   * `sliceIndex` on is this host's share.
   */
  function SplitFiles(matched: seq<string>, sliceIndex: nat, sliceCount: nat, seed: int,
                      shuffle: seq<string> -> seq<string>): (r: Result<seq<string>, InputError>)
    ensures matched == [] <==> r == Failure(NoMatchingFiles)
    ensures matched != [] && sliceCount == 0 <==> r == Failure(ZeroSliceStep)
    ensures r.Success? ==> sliceCount >= 1 &&
                           r.value == Stride(if seed == 0 then Sort(matched) else shuffle(Sort(matched)), sliceIndex, sliceCount)
  {
    if matched == [] then Failure(NoMatchingFiles)
    else
      var files := Sort(matched);
      var files := if seed != 0 then shuffle(files) else files;
      if sliceCount == 0 then Failure(ZeroSliceStep)
      else Success(Stride(files, sliceIndex, sliceCount))
  }

  /** Element `j` of a stride is the file at position `start + j * step`, and the stride holds every such position. */
  lemma {:induction false} StrideAt<T>(files: seq<T>, start: nat, step: nat, j: nat)
    requires step >= 1
    ensures j < |Stride(files, start, step)| <==> start + j * step < |files|
    ensures j < |Stride(files, start, step)| ==> Stride(files, start, step)[j] == files[start + j * step]
    decreases |files| - start
  {
    if start < |files| && j > 0 {
      StrideAt(files, start + step, step, j - 1);
      assert (start + step) + (j - 1) * step == start + j * step;
    } else if start >= |files| {
      assert j * step >= 0;
    }
  }

  /** With seed 0, this host's share is exactly the sorted files at positions congruent to `sliceIndex`, in order. */
  lemma SplitFilesUnshuffled(matched: seq<string>, sliceIndex: nat, sliceCount: nat,
                             shuffle: seq<string> -> seq<string>, j: nat)
    requires matched != [] && sliceCount >= 1
    ensures SplitFiles(matched, sliceIndex, sliceCount, 0, shuffle).Success?
    ensures var share := SplitFiles(matched, sliceIndex, sliceCount, 0, shuffle).value;
      (j < |share| <==> sliceIndex + j * sliceCount < |matched|) &&
      (j < |share| ==> share[j] == Sort(matched)[sliceIndex + j * sliceCount])
  {
    StrideAt(Sort(matched), sliceIndex, sliceCount, j);
  }

  /**
   * The strides `files[i::step]` for `i < step` partition the positions of
   * the list: position `p` is element `j` of stride `i` exactly when
   * `i == p % step` and `j == p / step`.
   */
  lemma StridePartition<T>(files: seq<T>, step: nat, p: nat, i: nat, j: nat)
    requires step >= 1 && p < |files| && i < step
    ensures (j < |Stride(files, i, step)| && i + j * step == p) <==> (i == p % step && j == p / step)
    ensures i == p % step && j == p / step ==> Stride(files, i, step)[j] == files[p]
  {
    StrideAt(files, i, step, j);
    if i + j * step == p {
      DivModUnique(p, step, j, i);
    }
    if i == p % step && j == p / step {
      assert p == (p / step) * step + p % step;
    }
  }

  /**
   * The shares of the hosts `0 .. sliceCount-1`, all computed with the same
   * seed, partition the listed files: every call succeeds, and each position
   * of the list is held by exactly one host, host `p % sliceCount`, as its
   * file number `p / sliceCount`.
   */
  lemma SplitFilesPartition(matched: seq<string>, sliceCount: nat, seed: int,
                            shuffle: seq<string> -> seq<string>, p: nat, i: nat, j: nat)
    requires matched != [] && sliceCount >= 1 && i < sliceCount
    requires p < |if seed == 0 then Sort(matched) else shuffle(Sort(matched))|
    ensures SplitFiles(matched, i, sliceCount, seed, shuffle).Success?
    ensures var listed := if seed == 0 then Sort(matched) else shuffle(Sort(matched));
      var share := SplitFiles(matched, i, sliceCount, seed, shuffle).value;
      ((j < |share| && i + j * sliceCount == p) <==> (i == p % sliceCount && j == p / sliceCount))
      && (i == p % sliceCount && j == p / sliceCount ==> share[j] == listed[p])
  {
    var listed := if seed == 0 then Sort(matched) else shuffle(Sort(matched));
    StridePartition(listed, sliceCount, p, i, j);
  }

  // ---------------------------------------------------------------------------
  // _get_number_of_documents: the regular expression `_(\d{1,}).tfrecords$`
  // ---------------------------------------------------------------------------

  /** Start of the longest all-digit suffix of `s`. */
  function DigitRunStart(s: string): (k: nat)
    ensures k <= |s|
    ensures AllDigits(s[k..])
    ensures k > 0 ==> !IsDigit(s[k - 1])
    decreases |s|
  {
    if |s| == 0 || !IsDigit(s[|s| - 1]) then |s|
    else
      var k := DigitRunStart(s[..|s| - 1]);
      DigitsExtend(s, k);
      k
  }

  /** A digit run followed by one more digit is a digit run. */
  lemma DigitsExtend(s: string, k: nat)
    requires 1 <= |s| && k <= |s| - 1 && IsDigit(s[|s| - 1])
    requires AllDigits(s[..|s| - 1][k..])
    ensures AllDigits(s[k..])
  {
    var init := s[..|s| - 1];
    forall i | 0 <= i < |s| - k ensures IsDigit(s[k..][i]) {
      if k + i < |s| - 1 {
        assert s[k..][i] == init[k..][i];
      }
    }
  }

  /**
   * The regular expression matches with its `_` at position `p`: a non-empty
   * run of digits follows, then any one character, then "tfrecords" at the
   * very end.
   */
  predicate MatchesAt(name: string, p: nat)
  {
    p + 12 <= |name| && name[p] == '_' && AllDigits(name[p + 1..|name| - 10])
    && name[|name| - 9..] == "tfrecords"
  }

  /** `_get_number_of_documents`: the document count a file name carries, or None. */
  function DocumentCount(name: string): (r: Option<nat>)
    ensures r.Some? ==> |name| >= 12 && name[|name| - 9..] == "tfrecords"
  {
    if |name| < 10 || name[|name| - 9..] != "tfrecords" then None
    else
      var body := name[..|name| - 10];
      var k := DigitRunStart(body);
      if k == |body| || k == 0 || body[k - 1] != '_' then None
      else Some(DecimalValue(body[k..]))
  }

  /**
   * The parser agrees with the regular expression: it returns a count
   * exactly when the pattern matches, and then the count is the decimal
   * value of the matched digit run.
   */
  lemma DocumentCountMatches(name: string)
    ensures DocumentCount(name).Some? <==> exists p: nat :: MatchesAt(name, p)
    ensures forall p: nat :: MatchesAt(name, p) ==>
      DocumentCount(name) == Some(DecimalValue(name[p + 1..|name| - 10]))
  {
    if DocumentCount(name).Some? {
      var body := name[..|name| - 10];
      var k := DigitRunStart(body);
      assert name[k..|name| - 10] == body[k..];
      assert MatchesAt(name, k - 1);
    }
    forall p: nat | MatchesAt(name, p)
      ensures DocumentCount(name) == Some(DecimalValue(name[p + 1..|name| - 10]))
    {
      var body := name[..|name| - 10];
      var k := DigitRunStart(body);
      assert body[p + 1..] == name[p + 1..|name| - 10];
      assert k == p + 1;
    }
  }

  /** A name written as `<prefix>_<n><c>tfrecords` reads back as `n`. */
  lemma DocumentCountRoundTrip(prefix: string, n: nat, c: char)
    ensures DocumentCount(prefix + "_" + DecimalDigits(n) + [c] + "tfrecords") == Some(n)
  {
    var digits := DecimalDigits(n);
    var name := prefix + "_" + digits + [c] + "tfrecords";
    var p := |prefix|;
    assert name[p + 1..|name| - 10] == digits;
    assert name[|name| - 9..] == "tfrecords";
    assert MatchesAt(name, p);
    DocumentCountMatches(name);
    DecimalRoundTrip(n);
  }

  // ---------------------------------------------------------------------------
  // _get_skip_index
  // ---------------------------------------------------------------------------

  // The skip search is stated for any file-name parser `nameCount`; the
  // source's is `_get_number_of_documents`, that is `DocumentCount` above.

  /** Index of the first file whose name carries no document count, or `|files|`. */
  function FirstUncounted(files: seq<string>, nameCount: string -> Option<nat>): (r: nat)
    ensures r <= |files|
    ensures r < |files| ==> nameCount(files[r]).None?
    ensures forall i :: 0 <= i < r ==> nameCount(files[i]).Some?
  {
    if files == [] || nameCount(files[0]).None? then 0
    else 1 + FirstUncounted(files[1..], nameCount)
  }

  /**
   * The count the skip search uses for file `i`: the one in its name, or
   * else the count found by reading the first file that lacks one.
   * `byIteration` stands for reading a file record by record.
   */
  function EffectiveCount(files: seq<string>, nameCount: string -> Option<nat>, byIteration: string -> nat, i: nat): nat
    requires i < |files|
  {
    match nameCount(files[i])
    case Some(d) => d
    case None => byIteration(files[FirstUncounted(files, nameCount)])
  }

  /** Every file lacking a count in its name is charged the same count: that of the first such file. */
  lemma UncountedShareCount(files: seq<string>, nameCount: string -> Option<nat>, byIteration: string -> nat, i: nat, j: nat)
    requires i < |files| && j < |files|
    requires nameCount(files[i]).None? && nameCount(files[j]).None?
    ensures EffectiveCount(files, nameCount, byIteration, i) == EffectiveCount(files, nameCount, byIteration, j)
         == byIteration(files[FirstUncounted(files, nameCount)])
    ensures FirstUncounted(files, nameCount) <= i && FirstUncounted(files, nameCount) <= j
  {
  }

  /** The position `itertools.cycle` moves to from `pos` in a list of `n` files. */
  function NextPos(n: nat, pos: nat): (r: nat)
    requires pos < n
    ensures r < n
  {
    if pos + 1 == n then 0 else pos + 1
  }

  /** Position in a list of `n` files after `k` steps of `itertools.cycle`. */
  function CyclePos(n: nat, k: nat): (r: nat)
    requires n >= 1
    ensures r < n
  {
    if k == 0 then 0 else NextPos(n, CyclePos(n, k - 1))
  }

  /** Steps of the cycle from `pos` forward to `target`. */
  function Distance(n: nat, pos: nat, target: nat): (r: nat)
    requires pos < n && target < n
    ensures r == 0 <==> pos == target
  {
    if pos <= target then target - pos else n - pos + target
  }

  /** Every step of the cycle that does not start at `target` comes one closer to it. */
  lemma DistanceStep(n: nat, pos: nat, target: nat)
    requires pos < n && target < n && pos != target
    ensures Distance(n, NextPos(n, pos), target) == Distance(n, pos, target) - 1
  {
  }

  /** Documents in the first `k` files of the endlessly repeated file list. */
  function CycleSum(files: seq<string>, nameCount: string -> Option<nat>, byIteration: string -> nat, k: nat): nat
    requires |files| >= 1
  {
    if k == 0 then 0
    else CycleSum(files, nameCount, byIteration, k - 1) + EffectiveCount(files, nameCount, byIteration, CyclePos(|files|, k - 1))
  }

  /**
   * The count of file `count` in the skip search: the one in its name, or
   * else the remembered by-iteration count, which the first file lacking a
   * count in its name sets.
   */
  method CountOf(files: seq<string>, nameCount: string -> Option<nat>, byIteration: string -> nat, count: nat, globalCount: Option<nat>)
    returns (docs: nat, globalCount': Option<nat>)
    requires count < |files|
    requires globalCount.Some? ==> FirstUncounted(files, nameCount) < |files| && globalCount.value == byIteration(files[FirstUncounted(files, nameCount)])
    requires globalCount.None? ==> forall t :: 0 <= t < count ==> nameCount(files[t]).Some?
    ensures docs == EffectiveCount(files, nameCount, byIteration, count)
    ensures globalCount'.Some? ==> FirstUncounted(files, nameCount) < |files| && globalCount'.value == byIteration(files[FirstUncounted(files, nameCount)])
    ensures globalCount'.None? ==> globalCount.None? && nameCount(files[count]).Some?
  {
    globalCount' := globalCount;
    var parsed := nameCount(files[count]);
    if parsed.Some? {
      docs := parsed.value;
    } else if globalCount.None? {
      assert FirstUncounted(files, nameCount) == count;
      globalCount' := Some(byIteration(files[count]));
      docs := globalCount'.value;
    } else {
      docs := globalCount.value;
    }
  }

  /**
   * The state of the skip search after `steps` files: `count` is the cycle
   * position, `cumsum` the documents passed, and a remembered by-iteration
   * count is that of the first file lacking a count in its name; while none
   * is remembered, every file passed had a count in its name.
   */
  ghost predicate ScanState(files: seq<string>, nameCount: string -> Option<nat>, byIteration: string -> nat, count: nat, steps: nat, cumsum: nat, globalCount: Option<nat>)
    requires |files| >= 1
  {
    && count == CyclePos(|files|, steps)
    && (steps < |files| ==> count == steps)
    && cumsum == CycleSum(files, nameCount, byIteration, steps)
    && (globalCount.Some? ==> FirstUncounted(files, nameCount) < |files| && globalCount.value == byIteration(files[FirstUncounted(files, nameCount)]))
    && (globalCount.None? ==> forall t :: 0 <= t < steps && t < |files| ==> nameCount(files[t]).Some?)
  }

  /**
   * One file of the skip search: the count of the file at the current cycle
   * position, and the search's state carried one file further.
   */
  method Advance(files: seq<string>, nameCount: string -> Option<nat>, byIteration: string -> nat, count: nat, ghost steps: nat, ghost cumsum: nat, globalCount: Option<nat>)
    returns (docs: nat, globalCount': Option<nat>)
    requires |files| >= 1 && ScanState(files, nameCount, byIteration, count, steps, cumsum, globalCount)
    ensures docs == EffectiveCount(files, nameCount, byIteration, count)
    ensures ScanState(files, nameCount, byIteration, NextPos(|files|, count), steps + 1, cumsum + docs, globalCount')
  {
    docs, globalCount' := CountOf(files, nameCount, byIteration, count, globalCount);
  }

  /** The file at cycle step `steps` holds document `nBatches` when the sum passes it there. */
  lemma PassesTarget(files: seq<string>, nameCount: string -> Option<nat>, byIteration: string -> nat, nBatches: nat, steps: nat, prevCumsum: nat, docs: nat)
    requires |files| >= 1 && prevCumsum == CycleSum(files, nameCount, byIteration, steps)
    requires docs == EffectiveCount(files, nameCount, byIteration, CyclePos(|files|, steps))
    requires prevCumsum <= nBatches < prevCumsum + docs
    ensures CycleSum(files, nameCount, byIteration, steps) <= nBatches < CycleSum(files, nameCount, byIteration, steps + 1)
    ensures nBatches - prevCumsum < EffectiveCount(files, nameCount, byIteration, CyclePos(|files|, steps))
  {
  }

  /**
   * `_get_skip_index`: walks the repeated file list, summing document
   * counts, until the sum passes `nBatches`. The result names the file in
   * which the `nBatches`-th document lies and the offset inside it. The
   * ghost `steps` is how many files were passed on the way.
   */
  method SkipIndex(files: seq<string>, nBatches: nat, nameCount: string -> Option<nat>, byIteration: string -> nat)
    returns (skipIdx: nat, remainder: nat, ghost steps: nat)
    requires exists i :: 0 <= i < |files| && EffectiveCount(files, nameCount, byIteration, i) > 0
    ensures skipIdx < |files|
    ensures remainder < EffectiveCount(files, nameCount, byIteration, skipIdx)
    ensures CyclePos(|files|, steps) == skipIdx
    ensures CycleSum(files, nameCount, byIteration, steps) <= nBatches < CycleSum(files, nameCount, byIteration, steps + 1)
    ensures remainder == nBatches - CycleSum(files, nameCount, byIteration, steps)
  {
    var n := |files|;
    ghost var target :| 0 <= target < n && EffectiveCount(files, nameCount, byIteration, target) > 0;
    var count := 0;
    var prevCumsum := 0;
    var cumsum := 0;
    var globalCount: Option<nat> := None;
    skipIdx, remainder, steps := 0, 0, 0;
    while true
      invariant ScanState(files, nameCount, byIteration, count, steps, cumsum, globalCount)
      invariant cumsum <= nBatches
      decreases nBatches - cumsum, Distance(n, count, target)
    {
      prevCumsum := cumsum;
      var docs;
      docs, globalCount := Advance(files, nameCount, byIteration, count, steps, cumsum, globalCount);
      cumsum := cumsum + docs;
      if cumsum == nBatches {
        remainder := 0;
        skipIdx := count + 1;
      } else if cumsum > nBatches {
        remainder := nBatches - prevCumsum;
        skipIdx := count;
        PassesTarget(files, nameCount, byIteration, nBatches, steps, prevCumsum, docs);
        break;
      }
      if count != target {
        DistanceStep(n, count, target);
      }
      count := NextPos(n, count);
      steps := steps + 1;
    }
  }

  // ---------------------------------------------------------------------------
  // dataset: the type check and the weights
  // ---------------------------------------------------------------------------

  datatype DatasetConfig = DatasetConfig(kind: string, path: string, weight: real)

  /**
   * What the builders share out: `glob` is what the file-system glob returns
   * for a path, and `seed` is `data_seed * shuffle_input_filenames`.
   */
  datatype Sharding = Sharding(glob: string -> seq<string>, sliceIndex: nat, sliceCount: nat, seed: int,
                               shuffle: seq<string> -> seq<string>)

  /** This host's share of the files a path matches, as `split_files` computes it. */
  function Share(path: string, sh: Sharding): Result<seq<string>, InputError>
  {
    SplitFiles(sh.glob(path), sh.sliceIndex, sh.sliceCount, sh.seed, sh.shuffle)
  }

  /** A built dataset: its path and the share of files it reads. */
  datatype Source = VideoSource(path: string, files: seq<string>) | TextSource(path: string, files: seq<string>)

  /** One dataset is used as it is; several are sampled with their weights. */
  datatype DatasetPlan = Single(source: Source) | Mixture(sources: seq<Source>, weights: seq<real>)

  predicate Supported(c: DatasetConfig)
  {
    c.kind == "video" || c.kind == "text"
  }

  /**
   * `dataset_video` and `dataset_text` as far as they can fail: both call
   * `split_files` on the path, and the text builder then reads `data[0]`,
   * an IndexError when this host's share is empty.
   */
  function Build(c: DatasetConfig, sh: Sharding): (r: Result<Source, InputError>)
    requires Supported(c)
    ensures sh.glob(c.path) == [] ==> r == Failure(NoMatchingFiles)
    ensures r.Success? <==> Share(c.path, sh).Success? && (c.kind == "text" ==> Share(c.path, sh).value != [])
    ensures Share(c.path, sh).Failure? ==> r == Failure(Share(c.path, sh).error)
    ensures r.Success? ==>
              && r.value.path == c.path
              && r.value.files == Share(c.path, sh).value
              && (r.value.VideoSource? <==> c.kind == "video")
  {
    match Share(c.path, sh)
    case Failure(e) => Failure(e)
    case Success(files) =>
      if c.kind == "video" then Success(VideoSource(c.path, files))
      else if files == [] then Failure(EmptyShare)
      else Success(TextSource(c.path, files))
  }

  /** A configuration whose type is supported and whose builder returns. */
  predicate Builds(c: DatasetConfig, sh: Sharding)
  {
    Supported(c) && Build(c, sh).Success?
  }

  /** The exception a configuration that does not build raises: the type check comes before the builder. */
  function ConfigError(c: DatasetConfig, sh: Sharding): InputError
    requires !Builds(c, sh)
  {
    if !Supported(c) then UnsupportedType(c.kind) else Build(c, sh).error
  }

  /** The sources and weights collected so far are those of the first `n` configurations, every one of which builds. */
  ghost predicate BuiltUpTo(configs: seq<DatasetConfig>, n: nat, sh: Sharding, datasets: seq<Source>, weights: seq<real>)
  {
    && n <= |configs|
    && |weights| == |datasets| == n
    && (forall k :: 0 <= k < n ==> Builds(configs[k], sh))
    && (forall k :: 0 <= k < n ==> datasets[k] == Build(configs[k], sh).value && weights[k] == configs[k].weight)
  }

  lemma BuiltUpToNext(configs: seq<DatasetConfig>, n: nat, sh: Sharding, datasets: seq<Source>, weights: seq<real>)
    requires BuiltUpTo(configs, n, sh, datasets, weights) && n < |configs| && Builds(configs[n], sh)
    ensures BuiltUpTo(configs, n + 1, sh, datasets + [Build(configs[n], sh).value], weights + [configs[n].weight])
  {
    var d := datasets + [Build(configs[n], sh).value];
    var w := weights + [configs[n].weight];
    forall k | 0 <= k < n + 1
      ensures Builds(configs[k], sh)
      ensures d[k] == Build(configs[k], sh).value && w[k] == configs[k].weight
    {
      if k < n {
        assert d[k] == datasets[k] && w[k] == weights[k];
      }
    }
  }

  /** Configuration `i` is the first that does not build, and `e` is its exception. */
  ghost predicate FirstFailure(configs: seq<DatasetConfig>, sh: Sharding, i: nat, e: InputError)
  {
    && i < |configs|
    && !Builds(configs[i], sh)
    && e == ConfigError(configs[i], sh)
    && forall k :: 0 <= k < i ==> Builds(configs[k], sh)
  }

  /**
   * The loop of `dataset`: checks the type of each configuration and builds
   * its source, in order, collecting the weights; the first configuration
   * that fails raises its exception.
   */
  method BuildSources(configs: seq<DatasetConfig>, sh: Sharding) returns (r: Result<(seq<Source>, seq<real>), InputError>)
    ensures r.Success? <==> forall i :: 0 <= i < |configs| ==> Builds(configs[i], sh)
    ensures r.Failure? ==> exists i :: FirstFailure(configs, sh, i, r.error)
    ensures r.Success? ==> BuiltUpTo(configs, |configs|, sh, r.value.0, r.value.1)
  {
    var weights: seq<real> := [];
    var datasets: seq<Source> := [];
    var i := 0;
    while i < |configs|
      invariant BuiltUpTo(configs, i, sh, datasets, weights)
    {
      var c := configs[i];
      if c.kind != "video" && c.kind != "text" {
        assert FirstFailure(configs, sh, i, UnsupportedType(c.kind));
        return Failure(UnsupportedType(c.kind));
      }
      var built := Build(c, sh);
      if built.Failure? {
        assert FirstFailure(configs, sh, i, built.error);
        return Failure(built.error);
      }
      BuiltUpToNext(configs, i, sh, datasets, weights);
      datasets := datasets + [built.value];
      weights := weights + [c.weight];
      i := i + 1;
    }
    r := Success((datasets, weights));
  }

  /**
   * `dataset`: builds the sources of all configurations; one is used as it
   * is, several are sampled with their weights, and an empty configuration
   * list fails on `datasets[0]`.
   */
  method Dataset(configs: seq<DatasetConfig>, sh: Sharding) returns (r: Result<DatasetPlan, InputError>)
    ensures r.Failure? <==> configs == [] || exists i :: 0 <= i < |configs| && !Builds(configs[i], sh)
    ensures r.Failure? && configs != [] ==>
              exists i :: (0 <= i < |configs| && !Builds(configs[i], sh)
                           && r.error == ConfigError(configs[i], sh)
                           && forall k :: 0 <= k < i ==> Builds(configs[k], sh))
    ensures configs == [] ==> r == Failure(NoDatasets)
    ensures r.Success? && |configs| == 1 ==> r.value == Single(Build(configs[0], sh).value)
    ensures r.Success? && |configs| > 1 ==>
              && r.value.Mixture?
              && |r.value.sources| == |r.value.weights| == |configs|
              && forall k :: 0 <= k < |configs| ==>
                   r.value.sources[k] == Build(configs[k], sh).value && r.value.weights[k] == configs[k].weight
  {
    var built := BuildSources(configs, sh);
    if built.Failure? {
      ghost var i :| FirstFailure(configs, sh, i, built.error);
      return Failure(built.error);
    }
    var (datasets, weights) := built.value;
    if |datasets| > 1 {
      r := Success(Mixture(datasets, weights));
    } else if |datasets| == 1 {
      r := Success(Single(datasets[0]));
    } else {
      r := Failure(NoDatasets);
    }
  }
}
