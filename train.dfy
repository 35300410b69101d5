/**
 * Bookkeeping of the training driver: the capture-once placeholder, the host
 * id read back from a device string, the batch-size checks of the input
 * reader, the per-processor slice cache and the trainable-parameter count.
 */
module Train {

  import opened Wrappers
  import opened Text
  import opened Shapes

  /** The exceptions these operations raise. */
  datatype TrainError = RuntimeError | ValueError | IndexError | ZeroDivisionError

  // ---------------------------------------------------------------------------
  // CapturedObject
  // ---------------------------------------------------------------------------

  /** A placeholder that can be filled once and read only after it was filled. */
  class CapturedObject<T> {
    var obj: Option<T>
    var captured: bool

    ghost predicate Valid()
      reads this
    {
      captured <==> obj.Some?
    }

    constructor ()
      ensures Valid() && !captured && obj == None
    {
      obj := None;
      captured := false;
    }

    /** `capture`: the first call stores `o`; every later call raises and changes nothing. */
    method Capture(o: T) returns (r: Result<(), TrainError>)
      requires Valid()
      modifies this
      ensures Valid()
      ensures old(captured) ==> r == Failure(RuntimeError) && obj == old(obj) && captured
      ensures !old(captured) ==> r == Success(()) && obj == Some(o) && captured
    {
      if captured {
        return Failure(RuntimeError);
      }
      captured := true;
      obj := Some(o);
      r := Success(());
    }

    /** `get`: raises before any capture, and afterwards returns exactly what was captured. */
    method Get() returns (r: Result<T, TrainError>)
      requires Valid()
      ensures !captured <==> r == Failure(RuntimeError)
      ensures captured ==> r == Success(obj.value)
    {
      if !captured {
        return Failure(RuntimeError);
      }
      r := Success(obj.value);
    }
  }

  /** The life of one placeholder: a read before the capture fails, a second capture fails, the read returns the first object. */
  method CaptureOnce<T>(first: T, second: T)
    returns (early: Result<T, TrainError>, again: Result<(), TrainError>, late: Result<T, TrainError>)
    ensures early == Failure(RuntimeError)
    ensures again == Failure(RuntimeError)
    ensures late == Success(first)
  {
    var c := new CapturedObject<T>();
    early := c.Get();
    var ok := c.Capture(first);
    again := c.Capture(second);
    late := c.Get();
  }

  // ---------------------------------------------------------------------------
  // Host id of a device string
  // ---------------------------------------------------------------------------

  /**
   * `HOST_ID_TO_TF_DEVICE.format(hostId)`; lower-casing it, as the host-id
   * parser does, changes only the "CPU" of its tail.
   */
  function HostDevice(hostId: nat): (r: string)
    ensures Lower(r) == DeviceHead + DecimalDigits(hostId) + DeviceTail
  {
    LowerDevice(DecimalDigits(hostId));
    "/job:worker/task:" + DecimalDigits(hostId) + "/device:CPU:0"
  }

  /**
   * `int(host_device.lower().split("/task:")[1].split("/device:")[0])`:
   * a device string without "/task:" fails the `[1]`, and a field that is
   * not a number fails the `int`.
   */
  function HostId(device: string): (r: Result<nat, TrainError>)
    ensures r == Failure(IndexError) <==> !Contains(Lower(device), "/task:")
  {
    var parts := Split(Lower(device), "/task:");
    SplitPieces(Lower(device), "/task:");
    if |parts| < 2 then Failure(IndexError)
    else
      match ParseNat(Split(parts[1], "/device:")[0])
      case None => Failure(ValueError)
      case Some(n) => Success(n)
  }

  const DeviceHead := "/job:worker/task:"
  const DeviceTail := "/device:cpu:0"

  /** Lower-casing the device template around a digit string touches only the "CPU" of its tail. */
  lemma LowerDevice(digits: string)
    requires AllDigits(digits)
    ensures Lower("/job:worker/task:" + digits + "/device:CPU:0") == DeviceHead + digits + DeviceTail
  {
  }

  /** Splitting at the first occurrence of the separator. */
  lemma SplitOnce(s: string, sep: string, i: nat)
    requires |sep| >= 1 && i < |s| && Find(s, sep) == i
    requires Find(s[i + |sep|..], sep) == |s[i + |sep|..]|
    ensures Split(s, sep) == [s[..i], s[i + |sep|..]]
  {
  }

  /** A mismatch at one character rules an occurrence out. */
  lemma Mismatch(s: string, pat: string, i: nat, k: nat)
    requires k < |pat| && (i + k < |s| ==> s[i + k] != pat[k])
    ensures !OccursAt(s, pat, i)
  {
    if i + |pat| <= |s| {
      assert s[i..i + |pat|][k] == s[i + k];
    }
  }

  /** Up to position 11 the head of a device string has no '/' followed by 't'. */
  lemma HeadHasNoEarlierTask(i: nat)
    requires i < 11
    ensures DeviceHead[i] != '/' || DeviceHead[i + 1] != 't'
  {
    if i > 0 {
      assert DeviceHead[..11][1..] == "job:worker";
      assert DeviceHead[i] in "job:worker";
    }
  }

  /** The first "/task:" of a lower-cased device string is the one in its head. */
  lemma TaskFound(digits: string)
    ensures Find(DeviceHead + digits + DeviceTail, "/task:") == 11
  {
    var low := DeviceHead + digits + DeviceTail;
    assert OccursAt(low, "/task:", 11) by {
      assert low[11..17] == DeviceHead[11..17];
    }
    forall i: nat | i < 11 ensures !OccursAt(low, "/task:", i) {
      HeadHasNoEarlierTask(i);
      assert low[i] == DeviceHead[i] && low[i + 1] == DeviceHead[i + 1];
      if DeviceHead[i] != '/' {
        Mismatch(low, "/task:", i, 0);
      } else {
        Mismatch(low, "/task:", i, 1);
      }
    }
    FindIs(low, "/task:", 11);
  }

  /** After the host number there is no further "/task:". */
  lemma NoTaskAfter(digits: string)
    requires AllDigits(digits)
    ensures Find(digits + DeviceTail, "/task:") == |digits + DeviceTail|
  {
    var rest := digits + DeviceTail;
    forall i: nat ensures !OccursAt(rest, "/task:", i) {
      if i < |digits| {
        assert IsDigit(rest[i]);
        Mismatch(rest, "/task:", i, 0);
      } else if i == |digits| {
        assert rest[i + 1] == 'd';
        Mismatch(rest, "/task:", i, 1);
      } else {
        if i < |rest| {
          assert rest[i] == "device:cpu:0"[i - |digits| - 1];
          assert '/' !in "device:cpu:0";
        }
        Mismatch(rest, "/task:", i, 0);
      }
    }
    NotFound(rest, "/task:");
  }

  /** Splitting a lower-cased device string on "/task:" leaves the host number at the head of the second piece. */
  lemma TaskSplit(digits: string)
    requires AllDigits(digits)
    ensures Split(DeviceHead + digits + DeviceTail, "/task:") == [DeviceHead[..11], digits + DeviceTail]
  {
    var low := DeviceHead + digits + DeviceTail;
    var rest := digits + DeviceTail;
    assert low[17..] == rest by {
      assert |DeviceHead| == 17;
    }
    assert low[..11] == DeviceHead[..11];
    TaskFound(digits);
    NoTaskAfter(digits);
    SplitOnce(low, "/task:", 11);
  }

  /** The first "/device:" after the host number ends it. */
  lemma DeviceSplit(digits: string)
    requires AllDigits(digits)
    ensures Split(digits + DeviceTail, "/device:")[0] == digits
  {
    var rest := digits + DeviceTail;
    assert OccursAt(rest, "/device:", |digits|) by {
      assert rest[|digits|..|digits| + 8] == DeviceTail[..8];
    }
    forall i: nat | i < |digits| ensures !OccursAt(rest, "/device:", i) {
      assert IsDigit(rest[i]);
      Mismatch(rest, "/device:", i, 0);
    }
    FindIs(rest, "/device:", |digits|);
    assert rest[..|digits|] == digits;
  }

  /** The device string of host `n` reads back as `n`. */
  lemma HostIdRoundTrip(n: nat)
    ensures HostId(HostDevice(n)) == Success(n)
  {
    var digits := DecimalDigits(n);
    TaskSplit(digits);
    DeviceSplit(digits);
    DecimalRoundTrip(n);
  }

  // ---------------------------------------------------------------------------
  // Batch size checks of the input reader
  // ---------------------------------------------------------------------------

  /** The error the shape check loop raises on `shapes[i..]`, if any, against batch size `batch`. */
  function ShapeCheck(shapes: seq<seq<nat>>, batch: nat, i: nat): (r: Option<TrainError>)
    requires i <= |shapes|
    ensures r.None? <==> forall k :: i <= k < |shapes| ==> |shapes[k]| >= 1 && shapes[k][0] == batch
    decreases |shapes| - i
  {
    if i == |shapes| then None
    else if |shapes[i]| == 0 then Some(IndexError)
    else if shapes[i][0] != batch then Some(ValueError)
    else ShapeCheck(shapes, batch, i + 1)
  }

  /**
   * The batch size of the input reader: the leading dimension of the first
   * input shape, which every input shape must share.
   */
  function BatchSize(shapes: seq<seq<nat>>): (r: Result<nat, TrainError>)
    ensures r.Success? <==>
      |shapes| >= 1 && |shapes[0]| >= 1 && forall k :: 0 <= k < |shapes| ==> |shapes[k]| >= 1 && shapes[k][0] == shapes[0][0]
    ensures r.Success? ==> r.value == shapes[0][0]
    ensures r == Failure(ValueError) ==>
      |shapes| >= 1 && |shapes[0]| >= 1 && exists k :: 0 <= k < |shapes| && |shapes[k]| >= 1 && shapes[k][0] != shapes[0][0]
  {
    if |shapes| == 0 || |shapes[0]| == 0 then Failure(IndexError)
    else
      match ShapeCheck(shapes, shapes[0][0], 0)
      case Some(e) =>
        FirstMismatch(shapes, shapes[0][0], 0);
        Failure(e)
      case None => Success(shapes[0][0])
  }

  lemma {:induction false} FirstMismatch(shapes: seq<seq<nat>>, batch: nat, i: nat)
    requires i <= |shapes|
    ensures ShapeCheck(shapes, batch, i) == Some(ValueError) ==>
      exists k :: i <= k < |shapes| && |shapes[k]| >= 1 && shapes[k][0] != batch
    decreases |shapes| - i
  {
    if i < |shapes| && |shapes[i]| >= 1 && shapes[i][0] == batch {
      FirstMismatch(shapes, batch, i + 1);
    }
  }

  /**
   * How many hosts read a sub-batch (`len(hosts_to_hold_ds)`): one when
   * sampling, otherwise one per row of the first input's processor map,
   * that is one per slice of its batch dimension: the map's slices, taken
   * a whole batch row at a time.
   */
  function Holders(sampling: bool, firstShapeList: seq<nat>): (r: nat)
    requires |firstShapeList| >= 1
    ensures sampling ==> r == 1
    ensures !sampling ==> r == firstShapeList[0]
    ensures !sampling ==> r * Size(firstShapeList[1..]) == Size(firstShapeList)
  {
    SizeCons(firstShapeList);
    if sampling then 1 else firstShapeList[0]
  }

  /**
   * The per-host batch: `batch // len(hosts_to_hold_ds)`; the division must
   * be exact.
   */
  function SubBatchSize(batch: nat, sampling: bool, firstShapeList: seq<nat>): (r: Result<nat, TrainError>)
    requires |firstShapeList| >= 1
    ensures Holders(sampling, firstShapeList) == 0 <==> r == Failure(ZeroDivisionError)
    ensures r.Success? <==>
              Holders(sampling, firstShapeList) >= 1 && exists k: nat :: k * Holders(sampling, firstShapeList) == batch
    ensures r.Success? ==> r.value * Holders(sampling, firstShapeList) == batch
    ensures sampling ==> r == Success(batch)
  {
    var holders := Holders(sampling, firstShapeList);
    if holders == 0 then Failure(ZeroDivisionError)
    else
      var sub := batch / holders;
      if sub * holders != batch then
        assert !exists k: nat :: k * holders == batch by {
          forall k: nat | k * holders == batch ensures false {
            DivModUnique(batch, holders, k, 0);
          }
        }
        Failure(ValueError)
      else Success(sub)
  }

  // ---------------------------------------------------------------------------
  // Slice cache of the input reader
  // ---------------------------------------------------------------------------

  type Begin = seq<nat>

  /** The cache key of a slice begin: when sampling, the batch coordinate is always 0. */
  function CacheKey(begin: Begin, sampling: bool): (r: Result<Begin, TrainError>)
    ensures !sampling ==> r == Success(begin)
    ensures sampling && |begin| == 0 ==> r == Failure(IndexError)
    ensures sampling && |begin| >= 1 ==>
      r.Success? && |r.value| == |begin| && r.value[0] == 0 && r.value[1..] == begin[1..]
  {
    if !sampling then Success(begin)
    else if |begin| == 0 then Failure(IndexError)
    else Success(begin[0 := 0])
  }

  /**
   * Two begins read the same slice of the sub-batch: when sampling the batch
   * coordinate does not matter, otherwise every coordinate does.
   */
  predicate SameSlice(a: Begin, b: Begin, sampling: bool)
  {
    if sampling then |a| == |b| && |a| >= 1 && a[1..] == b[1..] else a == b
  }

  /** Two begins with keys have the same key exactly when they read the same slice. */
  lemma CacheKeyShares(a: Begin, b: Begin, sampling: bool)
    ensures CacheKey(a, sampling).Success? && CacheKey(b, sampling).Success? ==>
              (CacheKey(a, sampling) == CacheKey(b, sampling) <==> SameSlice(a, b, sampling))
  {
    if sampling && SameSlice(a, b, sampling) {
      var ka, kb := a[0 := 0], b[0 := 0];
      forall i | 0 <= i < |a| ensures ka[i] == kb[i] {
        if i > 0 {
          assert a[i] == a[1..][i - 1] && b[i] == b[1..][i - 1];
        }
      }
      assert ka == kb;
    }
  }

  /**
   * The slice-cache loop as written: slices are numbered in the order they
   * are created; `handedOut[i]` is the slice handed to the i-th processor.
   * On a cache hit the loop hands out the most recently created slice.
   */
  function CacheAsWritten(keys: seq<Begin>): (r: (seq<nat>, seq<Begin>))
    ensures |r.0| == |keys|
    ensures forall i :: 0 <= i < |keys| ==> r.0[i] < |r.1|
    decreases |keys|
  {
    if keys == [] then ([], [])
    else
      var prev := CacheAsWritten(keys[..|keys| - 1]);
      var handedOut := prev.0;
      var created := prev.1;
      var key := keys[|keys| - 1];
      if key in created then (handedOut + [|created| - 1], created)
      else (handedOut + [|created|], created + [key])
  }

  /** The loop above, over the processors of one sub-batch. */
  method LayOutSlicesAsWritten(keys: seq<Begin>) returns (handedOut: seq<nat>, created: seq<Begin>)
    ensures (handedOut, created) == CacheAsWritten(keys)
  {
    var cache: map<Begin, nat> := map[];
    var last: nat := 0;
    handedOut, created := [], [];
    for i := 0 to |keys|
      invariant (handedOut, created) == CacheAsWritten(keys[..i])
      invariant cache.Keys == set k | k in created
      invariant created != [] ==> last == |created| - 1
    {
      assert keys[..i + 1][..i] == keys[..i];
      var key := keys[i];
      if key in cache {
        handedOut := handedOut + [last];
        continue;
      }
      last := |created|;
      created := created + [key];
      cache := cache[key := last];
      handedOut := handedOut + [last];
    }
    assert keys[..|keys|] == keys;
  }

  /** With slice begins A, B, A the third processor is handed B's slice. */
  lemma CacheAsWrittenMisassigns(a: Begin, b: Begin)
    requires a != b
    ensures var r := CacheAsWritten([a, b, a]);
      r.1[r.0[2]] == b != a
  {
    assert [a, b, a][..2] == [a, b];
    assert [a, b][..1] == [a];
    assert [a][..0] == [];
    var r0 := CacheAsWritten([]);
    assert r0 == ([], []);
    var r1 := CacheAsWritten([a]);
    assert r1.0 == [0] && r1.1 == [a];
    var r2 := CacheAsWritten([a, b]);
    assert b !in r1.1;
    assert r2.0 == [0, 1] && r2.1 == [a, b];
    assert a in r2.1;
  }

  /**
   * The slice cache as intended, after the first `i` processors: each was
   * handed a slice of its own begin, no begin was sliced twice, exactly the
   * begins seen so far were sliced, and the cache maps each to its slice.
   */
  ghost predicate CacheLaidOut(keys: seq<Begin>, i: nat, cache: map<Begin, nat>, handedOut: seq<nat>, created: seq<Begin>)
    requires i <= |keys|
  {
    && |handedOut| == i
    && (forall k :: 0 <= k < i ==> handedOut[k] < |created| && created[handedOut[k]] == keys[k])
    && (forall p, q :: 0 <= p < q < |created| ==> created[p] != created[q])
    && (forall k :: k in created <==> k in keys[..i])
    && (forall k :: k in cache <==> k in created)
    && (forall k :: k in cache ==> cache[k] < |created| && created[cache[k]] == k)
  }

  /** A cache hit hands out the slice cached for the processor's own begin. */
  lemma CacheHit(keys: seq<Begin>, i: nat, cache: map<Begin, nat>, handedOut: seq<nat>, created: seq<Begin>)
    requires i < |keys| && CacheLaidOut(keys, i, cache, handedOut, created) && keys[i] in cache
    ensures CacheLaidOut(keys, i + 1, cache, handedOut + [cache[keys[i]]], created)
  {
    assert keys[..i + 1] == keys[..i] + [keys[i]];
  }

  /** A miss slices the new begin once, caches it and hands it out. */
  lemma CacheMiss(keys: seq<Begin>, i: nat, cache: map<Begin, nat>, handedOut: seq<nat>, created: seq<Begin>)
    requires i < |keys| && CacheLaidOut(keys, i, cache, handedOut, created) && keys[i] !in cache
    ensures CacheLaidOut(keys, i + 1, cache[keys[i] := |created|], handedOut + [|created|], created + [keys[i]])
  {
    assert keys[..i + 1] == keys[..i] + [keys[i]];
  }

  /**
   * The slice cache as intended: a hit hands out the slice created for that
   * same begin. Every processor gets a slice of its own begin, and no begin
   * is sliced twice.
   */
  method LayOutSlices(keys: seq<Begin>) returns (handedOut: seq<nat>, created: seq<Begin>)
    ensures |handedOut| == |keys|
    ensures forall i :: 0 <= i < |keys| ==> handedOut[i] < |created| && created[handedOut[i]] == keys[i]
    ensures forall i, j :: 0 <= i < j < |created| ==> created[i] != created[j]
    ensures forall k :: k in created <==> k in keys
  {
    var cache: map<Begin, nat> := map[];
    handedOut, created := [], [];
    for i := 0 to |keys|
      invariant CacheLaidOut(keys, i, cache, handedOut, created)
    {
      var key := keys[i];
      if key in cache {
        CacheHit(keys, i, cache, handedOut, created);
        handedOut := handedOut + [cache[key]];
        continue;
      }
      CacheMiss(keys, i, cache, handedOut, created);
      cache := cache[key := |created|];
      created := created + [key];
      handedOut := handedOut + [|created| - 1];
    }
    assert keys[..|keys|] == keys;
  }

  /**
   * The slice cache of one input over its processors' begins: each begin is
   * keyed, then laid out as intended. An empty begin while sampling fails
   * with `IndexError` before any slice is handed out.
   */
  method LayOutBegins(begins: seq<Begin>, sampling: bool) returns (r: Result<(seq<nat>, seq<Begin>), TrainError>)
    ensures r.Failure? <==> sampling && exists i :: 0 <= i < |begins| && |begins[i]| == 0
    ensures r.Failure? ==> r.error == IndexError
    ensures r.Success? ==>
              && |r.value.0| == |begins|
              && forall i :: 0 <= i < |begins| ==>
                   r.value.0[i] < |r.value.1| && CacheKey(begins[i], sampling) == Success(r.value.1[r.value.0[i]])
    ensures r.Success? ==>
              forall i, j :: 0 <= i < |begins| && 0 <= j < |begins| ==>
                (r.value.0[i] == r.value.0[j] <==> SameSlice(begins[i], begins[j], sampling))
  {
    if sampling && exists i :: 0 <= i < |begins| && |begins[i]| == 0 {
      return Failure(IndexError);
    }
    var keys := seq(|begins|, i requires 0 <= i < |begins| => CacheKey(begins[i], sampling).value);
    var handedOut, created := LayOutSlices(keys);
    forall i, j | 0 <= i < |begins| && 0 <= j < |begins|
      ensures handedOut[i] == handedOut[j] <==> SameSlice(begins[i], begins[j], sampling)
    {
      CacheKeyShares(begins[i], begins[j], sampling);
    }
    r := Success((handedOut, created));
  }

  // ---------------------------------------------------------------------------
  // Trainable-parameter count
  // ---------------------------------------------------------------------------

  /** Number of entries of all these tensors together. */
  function TotalSize(shapes: seq<seq<nat>>): nat
  {
    if shapes == [] then 0 else TotalSize(shapes[..|shapes| - 1]) + Size(shapes[|shapes| - 1])
  }

  /** The count over a list of variables is the sum of the counts over its parts. */
  lemma {:induction false} TotalSizeAppend(a: seq<seq<nat>>, b: seq<seq<nat>>)
    ensures TotalSize(a + b) == TotalSize(a) + TotalSize(b)
    decreases |b|
  {
    if b == [] {
      assert a + b == a;
    } else {
      var init := b[..|b| - 1];
      TotalSizeAppend(a, init);
      assert (a + b)[..|a + b| - 1] == a + init;
    }
  }

  /** The parameter count loop of the model function, over the variables' dimension sizes. */
  method TotalParameters(shapes: seq<seq<nat>>) returns (total: nat)
    ensures total == TotalSize(shapes)
  {
    total := 0;
    for v := 0 to |shapes|
      invariant total == TotalSize(shapes[..v])
    {
      var dims := shapes[v];
      var parameters := 1;
      for d := 0 to |dims|
        invariant parameters == Size(dims[..d])
      {
        assert dims[..d + 1][..d] == dims[..d];
        parameters := parameters * dims[d];
      }
      assert dims[..|dims|] == dims;
      assert shapes[..v + 1][..v] == shapes[..v];
      total := total + parameters;
    }
    assert shapes[..|shapes|] == shapes;
  }
}
