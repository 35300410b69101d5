/**
 * The processor map of the input reader: for one input shape, which
 * processors read each slice of it. Processors are bucketed by the slice
 * they need; each bucket is a row of `slots` entries, filled in processor
 * order, and an entry left at -1 is an error.
 */
module TrainLayout {

  import opened Wrappers
  import opened Train
  import opened Shapes

  /** The row-major position of a slice coordinate among the slices of a shape. */
  function RowMajor(coord: seq<nat>, shape: seq<nat>): (r: nat)
    requires InSlices(coord, shape)
    ensures r < Size(shape)
    decreases |shape|
  {
    if shape == [] then 0
    else
      var n := |shape| - 1;
      var outer := RowMajor(coord[..n], shape[..n]);
      MulMonotonic(outer + 1, Size(shape[..n]), shape[n]);
      outer * shape[n] + coord[n]
  }

  /** Distinct slice coordinates have distinct row-major positions. */
  lemma {:induction false} RowMajorInjective(a: seq<nat>, b: seq<nat>, shape: seq<nat>)
    requires InSlices(a, shape) && InSlices(b, shape)
    ensures RowMajor(a, shape) == RowMajor(b, shape) <==> a == b
    decreases |shape|
  {
    if shape != [] && RowMajor(a, shape) == RowMajor(b, shape) {
      var n := |shape| - 1;
      DivModUnique(RowMajor(a, shape), shape[n], RowMajor(a[..n], shape[..n]), a[n]);
      DivModUnique(RowMajor(b, shape), shape[n], RowMajor(b[..n], shape[..n]), b[n]);
      RowMajorInjective(a[..n], b[..n], shape[..n]);
      assert a == a[..n] + [a[n]] && b == b[..n] + [b[n]];
    }
  }

  /**
   * The row-major position splits at the batch dimension: the batch index
   * times the number of slices of one batch row, plus the position within
   * that row.
   */
  lemma {:induction false} RowMajorLeading(coord: seq<nat>, shape: seq<nat>)
    requires |shape| >= 1 && InSlices(coord, shape)
    ensures RowMajor(coord, shape) == coord[0] * Size(shape[1..]) + RowMajor(coord[1..], shape[1..])
    decreases |shape|
  {
    var n := |shape| - 1;
    if n == 0 {
      assert shape[1..] == [] && coord[1..] == [];
      assert shape[..0] == [] && coord[..0] == [];
    } else {
      var c, s := coord[..n], shape[..n];
      RowMajorLeading(c, s);
      var rest, restShape := coord[1..], shape[1..];
      assert rest[..n - 1] == c[1..] && restShape[..n - 1] == s[1..];
      assert restShape[n - 1] == shape[n] && rest[n - 1] == coord[n];
      var a: int, b: int := Size(s[1..]), RowMajor(c[1..], s[1..]);
      var c0: int, h: int := coord[0], shape[n];
      assert RowMajor(rest, restShape) == b * h + coord[n];
      assert Size(restShape) == a * h;
      assert RowMajor(coord, shape) == (c0 * a + b) * h + coord[n];
      Regroup(c0, a, b, h, coord[n]);
    }
  }

  /** Moving the batch index out of a nested row-major position. */
  lemma Regroup(c: int, a: int, b: int, h: int, d: int)
    ensures (c * a + b) * h + d == c * (a * h) + (b * h + d)
  {
    calc {
      (c * a + b) * h + d;
      (c * a) * h + b * h + d;
    }
  }

  /**
   * Sub-batch `i` reads row `i` of the map (`pnum_map[sub_batch_i, ...]`):
   * the buckets of a slice lie in the block of its batch index, and there
   * are `Holders` such blocks.
   */
  lemma SubBatchOfSlice(coord: seq<nat>, shape: seq<nat>)
    requires |shape| >= 1 && InSlices(coord, shape)
    ensures Size(shape[1..]) >= 1
    ensures RowMajor(coord, shape) / Size(shape[1..]) == coord[0] < Holders(false, shape)
  {
    SizePositive(shape[1..]);
    RowMajorLeading(coord, shape);
    DivModUnique(RowMajor(coord, shape), Size(shape[1..]), coord[0], RowMajor(coord[1..], shape[1..]));
  }

  /** A slice coordinate: one index per dimension, below that dimension's slice count. */
  predicate InSlices(coord: seq<nat>, shape: seq<nat>)
  {
    |coord| == |shape| && forall i :: 0 <= i < |coord| ==> coord[i] < shape[i]
  }

  /** The bucket of each processor: the row-major position of the slice it reads. */
  function Buckets(coords: seq<seq<nat>>, shapeList: seq<nat>): (r: seq<nat>)
    requires forall p :: 0 <= p < |coords| ==> InSlices(coords[p], shapeList)
    ensures |r| == |coords|
    ensures forall p :: 0 <= p < |r| ==> r[p] < Size(shapeList)
  {
    seq(|coords|, p requires 0 <= p < |coords| => RowMajor(coords[p], shapeList))
  }

  /** Two processors share a bucket exactly when they read the same slice. */
  lemma BucketsShareSlice(coords: seq<seq<nat>>, shapeList: seq<nat>)
    requires forall p :: 0 <= p < |coords| ==> InSlices(coords[p], shapeList)
    ensures forall p, q :: 0 <= p < |coords| && 0 <= q < |coords| ==>
              (Buckets(coords, shapeList)[p] == Buckets(coords, shapeList)[q] <==> coords[p] == coords[q])
  {
    forall p, q | 0 <= p < |coords| && 0 <= q < |coords| {
      RowMajorInjective(coords[p], coords[q], shapeList);
    }
  }

  /**
   * Number of entries per bucket: the processor count divided by the number
   * of buckets, floored; no buckets at all is a division by zero.
   */
  function SlotsPerBucket(processors: nat, shapeList: seq<nat>): (r: Result<nat, TrainError>)
    ensures r.Failure? <==> Size(shapeList) == 0
    ensures r.Success? ==> r.value * Size(shapeList) <= processors < (r.value + 1) * Size(shapeList)
  {
    var buckets := Size(shapeList);
    if buckets == 0 then Failure(ZeroDivisionError)
    else
      var slots := processors / buckets;
      assert processors == slots * buckets + processors % buckets;
      Success(slots)
  }

  /** The processors among `bucketOf`'s that fall in bucket `b`, in processor order. */
  function Members(bucketOf: seq<nat>, b: nat): (r: seq<nat>)
    ensures forall k :: 0 <= k < |r| ==> r[k] < |bucketOf| && bucketOf[r[k]] == b
    ensures forall k, l :: 0 <= k < l < |r| ==> r[k] < r[l]
    ensures forall p :: 0 <= p < |bucketOf| && bucketOf[p] == b ==> p in r
    decreases |bucketOf|
  {
    if bucketOf == [] then []
    else
      var n := |bucketOf| - 1;
      var before := Members(bucketOf[..n], b);
      if bucketOf[n] == b then before + [n] else before
  }

  /** Entry `j` of bucket `b` once every processor is placed: its `j`-th member, or -1 when it has fewer. */
  function Entry(bucketOf: seq<nat>, b: nat, j: nat): int
  {
    var members := Members(bucketOf, b);
    if j < |members| then members[j] else -1
  }

  /** Placing one more processor adds it to its own bucket only. */
  lemma MembersSnoc(bucketOf: seq<nat>, p: nat, b: nat)
    ensures Members(bucketOf + [p], b) == if p == b then Members(bucketOf, b) + [|bucketOf|] else Members(bucketOf, b)
  {
    assert (bucketOf + [p])[..|bucketOf|] == bucketOf;
  }

  /** The map holds, at every entry, the entry the placement of `placed` processors gives. */
  ghost predicate MapsPlacement(m: array2<int>, placed: seq<nat>)
    reads m
  {
    forall b, j :: 0 <= b < m.Length0 && 0 <= j < m.Length1 ==> m[b, j] == Entry(placed, b, j)
  }

  /**
   * Builds the processor map: a `buckets` by `slots` array of -1, then each
   * processor in turn takes the first -1 entry of its bucket's row; a
   * processor whose row is already full is not recorded.
   */
  method NewPnumMap(bucketOf: seq<nat>, buckets: nat, slots: nat) returns (m: array2<int>)
    requires forall p :: 0 <= p < |bucketOf| ==> bucketOf[p] < buckets
    ensures fresh(m) && m.Length0 == buckets && m.Length1 == slots
    ensures forall b, j :: 0 <= b < buckets && 0 <= j < slots ==> m[b, j] == Entry(bucketOf, b, j)
  {
    m := new int[buckets, slots]((b, j) => -1);
    for p := 0 to |bucketOf|
      invariant MapsPlacement(m, bucketOf[..p])
    {
      assert bucketOf[..p + 1] == bucketOf[..p] + [bucketOf[p]];
      Place(m, bucketOf[..p], bucketOf[p]);
    }
    assert bucketOf[..|bucketOf|] == bucketOf;
  }

  /** Placing one more processor fills exactly the first free entry of its own row. */
  lemma EntrySnoc(placed: seq<nat>, row: nat, b: nat, j: nat)
    ensures Entry(placed + [row], b, j) ==
              if b == row && j == |Members(placed, row)| then |placed| else Entry(placed, b, j)
  {
    MembersSnoc(placed, row, b);
  }

  /** Processor `|placed|` takes the first -1 entry of row `row`, if the row has one. */
  method Place(m: array2<int>, placed: seq<nat>, row: nat)
    requires row < m.Length0 && MapsPlacement(m, placed)
    modifies m
    ensures MapsPlacement(m, placed + [row])
  {
    forall b, j | 0 <= b < m.Length0 && 0 <= j < m.Length1 {
      EntrySnoc(placed, row, b, j);
    }
    var idx := 0;
    while idx < m.Length1
      invariant 0 <= idx <= m.Length1
      invariant idx <= |Members(placed, row)|
      invariant MapsPlacement(m, placed)
    {
      if m[row, idx] == -1 {
        assert idx == |Members(placed, row)|;
        m[row, idx] := |placed|;
        return;
      }
      idx := idx + 1;
    }
  }

  /** `np.any(pnum_map == -1)`. */
  method HasUnfilledEntry(m: array2<int>) returns (r: bool)
    ensures r <==> exists b, j :: 0 <= b < m.Length0 && 0 <= j < m.Length1 && m[b, j] == -1
  {
    for b := 0 to m.Length0
      invariant forall b', j :: 0 <= b' < b && 0 <= j < m.Length1 ==> m[b', j] != -1
    {
      for j := 0 to m.Length1
        invariant forall j' :: 0 <= j' < j ==> m[b, j'] != -1
      {
        if m[b, j] == -1 {
          return true;
        }
      }
    }
    r := false;
  }

  /** The map is complete exactly when every bucket has at least `slots` members. */
  lemma {:induction false} CompleteIffFull(bucketOf: seq<nat>, buckets: nat, slots: nat)
    ensures (exists b, j :: 0 <= b < buckets && 0 <= j < slots && Entry(bucketOf, b, j) == -1)
        <==> (exists b :: 0 <= b < buckets && |Members(bucketOf, b)| < slots)
  {
    if b :| 0 <= b < buckets && |Members(bucketOf, b)| < slots {
      assert Entry(bucketOf, b, slots - 1) == -1;
    }
    if b, j :| 0 <= b < buckets && 0 <= j < slots && Entry(bucketOf, b, j) == -1 {
      assert |Members(bucketOf, b)| <= j;
    }
  }

  /**
   * The processor map of one input: every bucket must fill its row,
   * otherwise a ValueError.
   */
  method PnumMap(bucketOf: seq<nat>, buckets: nat, slots: nat) returns (r: Result<array2<int>, TrainError>)
    requires forall p :: 0 <= p < |bucketOf| ==> bucketOf[p] < buckets
    ensures r.Failure? <==> exists b :: 0 <= b < buckets && |Members(bucketOf, b)| < slots
    ensures r.Failure? ==> r.error == ValueError
    ensures r.Success? ==>
      fresh(r.value) && r.value.Length0 == buckets && r.value.Length1 == slots && forall b, j :: 0 <= b < buckets && 0 <= j < slots ==> r.value[b, j] == Members(bucketOf, b)[j]
  {
    var m := NewPnumMap(bucketOf, buckets, slots);
    var unfilled := HasUnfilledEntry(m);
    CompleteIffFull(bucketOf, buckets, slots);
    if unfilled {
      return Failure(ValueError);
    }
    r := Success(m);
  }

  /** Each processor appears at most once in the finished map, and only in its own bucket. */
  lemma EntriesDistinct(bucketOf: seq<nat>, b: nat, j: nat, c: nat, k: nat)
    requires Entry(bucketOf, b, j) != -1
    requires Entry(bucketOf, b, j) == Entry(bucketOf, c, k)
    ensures b == c && j == k
    ensures bucketOf[Entry(bucketOf, b, j)] == b
  {
  }

  /**
   * The processor map of one input shape: `coords[p]` is the slice
   * coordinate of processor `p` (its slice begin divided by the slice shape,
   * as the mesh computes it) and `shapeList` the number of slices along each
   * dimension. The map has one row per slice, in row-major order, of
   * `num_cores // prod(shape_list)` entries.
   */
  method ShapePnumMap(coords: seq<seq<nat>>, shapeList: seq<nat>) returns (r: Result<array2<int>, TrainError>)
    requires forall p :: 0 <= p < |coords| ==> InSlices(coords[p], shapeList)
    ensures SlotsPerBucket(|coords|, shapeList).Failure? ==> r == Failure(ZeroDivisionError)
    ensures r.Failure? <==>
              || SlotsPerBucket(|coords|, shapeList).Failure?
              || exists b :: 0 <= b < Size(shapeList) &&
                   |Members(Buckets(coords, shapeList), b)| < SlotsPerBucket(|coords|, shapeList).value
    ensures r.Success? ==>
              && fresh(r.value)
              && r.value.Length0 == Size(shapeList)
              && r.value.Length1 == SlotsPerBucket(|coords|, shapeList).value
              && forall p, j :: 0 <= p < |coords| && 0 <= j < r.value.Length1 ==>
                   var q := r.value[RowMajor(coords[p], shapeList), j];
                   0 <= q < |coords| && coords[q] == coords[p]
  {
    var slots := SlotsPerBucket(|coords|, shapeList);
    if slots.Failure? {
      return Failure(ZeroDivisionError);
    }
    var bucketOf := Buckets(coords, shapeList);
    BucketsShareSlice(coords, shapeList);
    r := PnumMap(bucketOf, Size(shapeList), slots.value);
    if r.Success? {
      forall p, j | 0 <= p < |coords| && 0 <= j < r.value.Length1
        ensures 0 <= r.value[RowMajor(coords[p], shapeList), j] < |coords|
        ensures coords[r.value[RowMajor(coords[p], shapeList), j]] == coords[p]
      {
        assert bucketOf[p] == RowMajor(coords[p], shapeList);
        assert !(|Members(bucketOf, bucketOf[p])| < slots.value);
        var q := Members(bucketOf, bucketOf[p])[j];
        assert bucketOf[q] == bucketOf[p];
      }
    }
  }
}
