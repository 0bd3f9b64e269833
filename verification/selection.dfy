/** Choosing which clip fills which grid slot (`create_balanced_video_list`
    and the capping and shuffling the other scripts do inline).

    The `random` module is replaced by oracle inputs: `draws` are the pool
    indices `random.choices` picks, and `swaps` are the indices
    `random.shuffle` picks. CPython's shuffle is the Fisher-Yates loop
    `for i in reversed(range(1, n)): j = randbelow(i + 1); x[i], x[j] = x[j], x[i]`,
    so `swaps[i]` is the `j` drawn when position `i` is visited and must lie
    in `0..i`. */
module Selection {
  import opened Basics

  /** The clips found under one task folder, in discovery order. */
  datatype TaskGroup = TaskGroup(name: string, videos: seq<Path>)

  /** A clip together with the task it was found under. */
  datatype Tagged = Tagged(video: Path, task: string)

  function TotalVideos(groups: seq<TaskGroup>): nat
  {
    if |groups| == 0 then 0 else |groups[0].videos| + TotalVideos(groups[1..])
  }

  function TagAll(videos: seq<Path>, task: string): (r: seq<Tagged>)
  {
    seq(|videos|, i requires 0 <= i < |videos| => Tagged(videos[i], task))
  }

  /** Every clip tagged with its task: group after group, each group's clips
      in order. */
  function Flatten(groups: seq<TaskGroup>): (all: seq<Tagged>)
    ensures |all| == TotalVideos(groups)
  {
    if |groups| == 0 then [] else TagAll(groups[0].videos, groups[0].name) + Flatten(groups[1..])
  }

  /** A tagged clip is in the flattened list exactly when its group lists it. */
  lemma {:induction false} FlattenMembers(groups: seq<TaskGroup>, t: Tagged)
    ensures t in Flatten(groups) <==>
      exists g :: 0 <= g < |groups| && groups[g].name == t.task && t.video in groups[g].videos
  {
    if |groups| > 0 {
      FlattenMembers(groups[1..], t);
      var head := TagAll(groups[0].videos, groups[0].name);
      assert t in head <==> groups[0].name == t.task && t.video in groups[0].videos by {
        if t in head {
          var i :| 0 <= i < |head| && head[i] == t;
          assert t.video == groups[0].videos[i];
        }
        if groups[0].name == t.task && t.video in groups[0].videos {
          var i :| 0 <= i < |groups[0].videos| && groups[0].videos[i] == t.video;
          assert head[i] == t;
        }
      }
      if t in Flatten(groups[1..]) {
        var g :| 0 <= g < |groups[1..]| && groups[1..][g].name == t.task && t.video in groups[1..][g].videos;
        assert groups[g + 1] == groups[1..][g];
      }
      if exists g :: 0 <= g < |groups| && groups[g].name == t.task && t.video in groups[g].videos {
        var g :| 0 <= g < |groups| && groups[g].name == t.task && t.video in groups[g].videos;
        if g > 0 {
          assert groups[1..][g - 1] == groups[g];
        }
      }
    }
  }

  /** Flattening follows group order: a list of groups split in two
      flattens to the two halves' flattenings, one after the other. */
  lemma {:induction false} FlattenAppend(a: seq<TaskGroup>, b: seq<TaskGroup>)
    ensures Flatten(a + b) == Flatten(a) + Flatten(b)
  {
    if |a| > 0 {
      assert (a + b)[1..] == a[1..] + b;
      FlattenAppend(a[1..], b);
    } else {
      assert a + b == b;
    }
  }

  /** `if max_videos and len(xs) > max_videos: xs = xs[:max_videos]`. `None`
      and `0` are falsy and leave the list alone; a negative cap is truthy,
      always smaller than the length, and drops that many clips from the
      end, as Python's negative slice does. */
  function Cap<T>(xs: seq<T>, maxVideos: Option<int>): (r: seq<T>)
    ensures r <= xs
    ensures maxVideos.None? || maxVideos.value == 0 ==> r == xs
    ensures maxVideos.Some? && maxVideos.value > 0 ==> |r| == Min(maxVideos.value, |xs|)
    ensures maxVideos.Some? && maxVideos.value < 0 ==> |r| == Max(0, |xs| + maxVideos.value)
  {
    match maxVideos
    case None => xs
    case Some(k) => if k != 0 && |xs| > k then PyPrefix(xs, k) else xs
  }

  /** `x[i], x[j] = x[j], x[i]`. */
  function Swap<T>(xs: seq<T>, i: nat, j: nat): (r: seq<T>)
    requires i < |xs| && j < |xs|
    ensures |r| == |xs|
    ensures multiset(r) == multiset(xs)
  {
    xs[i := xs[j]][j := xs[i]]
  }

  /** The oracle gives one in-range draw per position of an `n`-element list. */
  predicate SwapsFit(n: nat, swaps: seq<nat>)
  {
    |swaps| == n && forall i :: 0 <= i < n ==> swaps[i] <= i
  }

  /** The Fisher-Yates loop run over positions `i-1` down to 1. */
  function ShuffleBelow<T>(xs: seq<T>, i: nat, swaps: seq<nat>): (r: seq<T>)
    requires i <= |xs| && SwapsFit(|xs|, swaps)
    ensures |r| == |xs|
    ensures multiset(r) == multiset(xs)
    ensures forall k :: i <= k < |xs| ==> r[k] == xs[k]
    decreases i
  {
    if i <= 1 then xs
    else ShuffleBelow(Swap(xs, i - 1, swaps[i - 1]), i - 1, swaps)
  }

  /** `random.shuffle(xs)` with the oracle's draws. */
  function Shuffle<T>(xs: seq<T>, swaps: seq<nat>): (r: seq<T>)
    requires SwapsFit(|xs|, swaps)
    ensures |r| == |xs|
    ensures multiset(r) == multiset(xs)
  {
    ShuffleBelow(xs, |xs|, swaps)
  }

  /** Drawing `j = i` at every step leaves the list as it was. */
  lemma {:induction false} ShuffleWithoutMoves<T>(xs: seq<T>, i: nat, swaps: seq<nat>)
    requires i <= |xs| && SwapsFit(|xs|, swaps)
    requires forall k :: 0 <= k < |xs| ==> swaps[k] == k
    ensures ShuffleBelow(xs, i, swaps) == xs
    decreases i
  {
    if i > 1 {
      assert Swap(xs, i - 1, swaps[i - 1]) == xs;
      ShuffleWithoutMoves(xs, i - 1, swaps);
    }
  }

  /** Slots the pool cannot fill on its own. */
  function Shortfall(poolSize: nat, slots: nat): nat
  {
    if poolSize < slots then slots - poolSize else 0
  }

  /** `random.choices(pool, k=|draws|)`: pick `i` is `pool[draws[i]]`, where
      `draws[i]` stands for `floor(random() * len(pool))`. On an empty pool
      that index is 0, and the indexing raises `IndexError`. */
  function Choices<T>(pool: seq<T>, draws: seq<nat>): (r: Result<seq<T>>)
    ensures r.Success? ==> |r.value| == |draws|
    ensures r.Success? ==> forall t :: t in r.value ==> t in pool
    ensures |pool| == 0 && |draws| > 0 ==> r == Failure(IndexError)
    ensures (forall i :: 0 <= i < |draws| ==> draws[i] < |pool|) ==> r.Success?
    decreases |draws|
  {
    if |draws| == 0 then Success([])
    else if draws[0] >= |pool| then Failure(IndexError)
    else
      match Choices(pool, draws[1..])
      case Failure(f) => Failure(f)
      case Success(rest) => Success([pool[draws[0]]] + rest)
  }

  /** The oracle supplies the draws `random.choices` makes for the
      shortfall: indices into the pool, or 0 when the pool is empty. */
  predicate DrawsFit(poolSize: nat, slots: nat, draws: seq<nat>)
  {
    && |draws| == Shortfall(poolSize, slots)
    && (forall i :: 0 <= i < |draws| ==> draws[i] < poolSize || (poolSize == 0 && draws[i] == 0))
  }

  /** The capped pool of tagged clips. */
  function Pool(groups: seq<TaskGroup>, maxVideos: Option<int>): seq<Tagged>
  {
    Cap(Flatten(groups), maxVideos)
  }

  /** The pool, topped up with the drawn repeats when it is short of `slots`. */
  function Extended(pool: seq<Tagged>, slots: nat, draws: seq<nat>): (ext: Result<seq<Tagged>>)
    requires DrawsFit(|pool|, slots, draws)
    ensures ext.Failure? <==> |pool| == 0 && slots > 0
    ensures ext.Failure? ==> ext.fault == IndexError
    ensures ext.Success? ==> |ext.value| == (if |pool| < slots then slots else |pool|)
    ensures ext.Success? ==> pool <= ext.value
    ensures ext.Success? ==> forall t :: t in ext.value ==> t in pool
  {
    if |pool| < slots then
      match Choices(pool, draws)
      case Failure(f) => Failure(f)
      case Success(extra) =>
        assert forall t :: t in pool + extra ==> t in pool || t in extra;
        Success(pool + extra)
    else Success(pool)
  }

  function Videos(ts: seq<Tagged>): (vs: seq<Path>)
  {
    seq(|ts|, i requires 0 <= i < |ts| => ts[i].video)
  }

  /** `random.shuffle` when asked for, the list as it stands otherwise. */
  function MaybeShuffle<T>(xs: seq<T>, shuffle: bool, swaps: seq<nat>): (r: seq<T>)
    requires shuffle ==> SwapsFit(|xs|, swaps)
    ensures |r| == |xs|
    ensures multiset(r) == multiset(xs)
    ensures !shuffle ==> r == xs
  {
    if shuffle then Shuffle(xs, swaps) else xs
  }

  /** The pool topped up, mixed and cut to `slots` entries. */
  function Arrange(pool: seq<Tagged>, slots: nat, shuffle: bool, draws: seq<nat>, swaps: seq<nat>): (r: Result<seq<Tagged>>)
    requires DrawsFit(|pool|, slots, draws)
    requires shuffle ==> SwapsFit(|pool| + Shortfall(|pool|, slots), swaps)
    ensures r.Failure? <==> |pool| == 0 && slots > 0
    ensures r.Failure? ==> r.fault == IndexError
    ensures r.Success? ==> |r.value| == slots
    ensures r.Success? ==> forall t :: t in r.value ==> t in pool
    ensures r.Success? && |pool| <= slots ==> multiset(r.value) == multiset(Extended(pool, slots, draws).value)
    ensures r.Success? && !shuffle ==> r.value == Extended(pool, slots, draws).value[..slots]
  {
    var ext := Extended(pool, slots, draws);
    if ext.Failure? then Failure(ext.fault)
    else
      var mixed := MaybeShuffle(ext.value, shuffle, swaps);
      ArrangedFromPool(pool, ext.value, slots, mixed);
      Success(mixed[..slots])
  }

  /** Cutting a mix of the topped-up list keeps only pool entries, and
      keeps all of them when nothing is cut. */
  lemma ArrangedFromPool(pool: seq<Tagged>, ext: seq<Tagged>, slots: nat, mixed: seq<Tagged>)
    requires forall t :: t in ext ==> t in pool
    requires multiset(mixed) == multiset(ext)
    requires slots <= |mixed|
    ensures forall t :: t in mixed[..slots] ==> t in pool
    ensures |mixed| == slots ==> multiset(mixed[..slots]) == multiset(ext)
  {
    forall t | t in mixed[..slots]
      ensures t in pool
    {
      assert t in mixed;
      assert t in multiset(ext);
    }
    if |mixed| == slots {
      assert mixed[..slots] == mixed;
    }
  }

  /** `create_balanced_video_list(task_videos, (rows, cols), max_videos, shuffle)`:
      the clip paths for the `rows * cols` slots in row-major order. */
  function BalancedSelection(groups: seq<TaskGroup>, slots: nat, maxVideos: Option<int>, shuffle: bool,
                             draws: seq<nat>, swaps: seq<nat>): (res: Result<seq<Path>>)
    requires DrawsFit(|Pool(groups, maxVideos)|, slots, draws)
    requires shuffle ==> SwapsFit(|Pool(groups, maxVideos)| + Shortfall(|Pool(groups, maxVideos)|, slots), swaps)
    ensures res.Success? <==> |Pool(groups, maxVideos)| > 0 || slots == 0
    ensures res.Failure? ==> res.fault == IndexError
    ensures res.Success? ==> |res.value| == slots
    ensures res.Success? ==> forall v :: v in res.value ==> v in Videos(Pool(groups, maxVideos))
  {
    match Arrange(Pool(groups, maxVideos), slots, shuffle, draws, swaps)
    case Failure(f) => Failure(f)
    case Success(ts) =>
      var vs := Videos(ts);
      assert forall v :: v in vs ==> v in Videos(Pool(groups, maxVideos)) by {
        var pool := Pool(groups, maxVideos);
        forall v | v in vs ensures v in Videos(pool) {
          var i :| 0 <= i < |vs| && vs[i] == v;
          assert ts[i] in pool;
          var j :| 0 <= j < |pool| && pool[j] == ts[i];
          assert Videos(pool)[j] == v;
        }
      }
      Success(vs)
  }

  /** When the pool does not outnumber the slots, every pooled clip gets at
      least one slot, shuffled or not. */
  lemma EveryPooledClipIsPlaced(pool: seq<Tagged>, slots: nat, shuffle: bool,
                                draws: seq<nat>, swaps: seq<nat>, t: Tagged)
    requires DrawsFit(|pool|, slots, draws)
    requires shuffle ==> SwapsFit(|pool| + Shortfall(|pool|, slots), swaps)
    requires |pool| <= slots
    requires t in pool
    ensures Arrange(pool, slots, shuffle, draws, swaps).Success?
    ensures t in Arrange(pool, slots, shuffle, draws, swaps).value
  {
    var ext := Extended(pool, slots, draws).value;
    assert t in ext;
    assert t in multiset(ext);
    assert t in multiset(Arrange(pool, slots, shuffle, draws, swaps).value);
  }

  /** Without shuffling, the slots take the pool in order, followed by the
      drawn repeats. */
  lemma UnshuffledOrder(pool: seq<Tagged>, slots: nat, draws: seq<nat>, swaps: seq<nat>)
    requires DrawsFit(|pool|, slots, draws)
    requires 0 < |pool| <= slots
    ensures Choices(pool, draws).Success?
    ensures Arrange(pool, slots, false, draws, swaps) == Success(pool + Choices(pool, draws).value)
  {
    var ext := Extended(pool, slots, draws).value;
    if |pool| == slots {
      assert Choices(pool, draws) == Success([]);
      assert pool + [] == pool;
    }
    assert ext[..slots] == ext;
  }

  /** The cap is taken before any randomness: the pool is the first
      `max_videos` clips in group-then-file order. */
  lemma CapKeepsDiscoveryPrefix(groups: seq<TaskGroup>, k: int)
    requires k > 0
    ensures Pool(groups, Some(k)) == Flatten(groups)[..Min(k, |Flatten(groups)|)]
  {
  }
}
