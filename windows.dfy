/** Sliding windows over one sequence: the start positions
    `range(0, n - w, stride)`, the label slice of each window and its
    majority label `bincount(...).index(max(...))`. */
module Windows {
  import opened Results
  import opened Pose
  import opened Annotation
  import opened Text

  /** `range(k, stop, step)` for a positive step. */
  function RangeFrom(k: int, stop: int, step: nat): (r: seq<int>)
    requires step >= 1
    ensures forall i :: 0 <= i < |r| ==> k <= r[i] < stop
    decreases stop - k
  {
    if k < stop then [k] + RangeFrom(k + step, stop, step) else []
  }

  /** Element `i` of `range(k, stop, step)` is `k + i * step`. */
  lemma {:induction false} RangeFromElements(k: int, stop: int, step: nat)
    requires step >= 1
    ensures forall i :: 0 <= i < |RangeFrom(k, stop, step)| ==> RangeFrom(k, stop, step)[i] == k + i * step
    decreases stop - k
  {
    if k < stop {
      var rest := RangeFrom(k + step, stop, step);
      RangeFromElements(k + step, stop, step);
      forall i | 1 <= i < |rest| + 1
        ensures RangeFrom(k, stop, step)[i] == k + i * step
      {
        assert RangeFrom(k, stop, step)[i] == rest[i - 1];
        assert (i - 1) * step + step == i * step;
      }
    }
  }

  /** `range(0, stop, step)`. */
  function Range(stop: int, step: nat): seq<int>
    requires step >= 1
  {
    RangeFrom(0, stop, step)
  }

  lemma {:induction false} RangeFromLength(k: int, stop: int, step: nat)
    requires step >= 1
    ensures k >= stop ==> |RangeFrom(k, stop, step)| == 0
    ensures k < stop ==> (|RangeFrom(k, stop, step)| - 1) * step < stop - k <= |RangeFrom(k, stop, step)| * step
    decreases stop - k
  {
    if k < stop {
      var rest := RangeFrom(k + step, stop, step);
      RangeFromLength(k + step, stop, step);
      assert (|rest| - 1) * step + step == |rest| * step;
    }
  }

  /** The window starts: `0, stride, 2 * stride, ...`, all strictly below
      `n - w`; their number is the least `c` with `c * stride >= n - w`
      (that is, `ceil((n - w) / stride)`) when `n > w`, and none otherwise. */
  lemma RangeSpec(stop: int, step: nat)
    requires step >= 1
    ensures stop <= 0 ==> |Range(stop, step)| == 0
    ensures stop > 0 ==> (|Range(stop, step)| - 1) * step < stop <= |Range(stop, step)| * step
    ensures forall i :: 0 <= i < |Range(stop, step)| ==> Range(stop, step)[i] == i * step
    ensures forall i :: 0 <= i < |Range(stop, step)| ==> 0 <= Range(stop, step)[i] < stop
    ensures forall i, j :: 0 <= i < j < |Range(stop, step)| ==> Range(stop, step)[i] < Range(stop, step)[j]
  {
    RangeFromLength(0, stop, step);
    RangeFromElements(0, stop, step);
    var r := Range(stop, step);
    forall i, j | 0 <= i < j < |r|
      ensures r[i] < r[j]
    {
      MulStrict(i, j, step);
    }
  }

  lemma MulStrict(i: nat, j: nat, step: nat)
    requires i < j && step >= 1
    ensures i * step < j * step
  {
    assert j * step == i * step + (j - i) * step;
  }

  /** The last full window, starting at `n - w`, is never among the starts. */
  lemma LastFullWindowDropped(n: int, w: int, stride: nat)
    requires stride >= 1
    ensures n - w !in Range(n - w, stride)
  {
    RangeSpec(n - w, stride);
  }

  /** 780 frames, windows of 16, stride 1: 764 windows. */
  lemma FullSequenceWindowCount()
    ensures |Range(MaxFrames - 16, 1)| == 764
  {
    RangeSpec(MaxFrames - 16, 1);
  }

  /** `max(xs)`. */
  function MaxOf(xs: seq<nat>): nat
    requires |xs| > 0
    decreases |xs|
  {
    if |xs| == 1 then xs[0]
    else
      var rest := MaxOf(xs[1..]);
      if xs[0] >= rest then xs[0] else rest
  }

  /** `max(xs)` is an element of `xs` and no element is larger. */
  lemma {:induction false} MaxOfSpec(xs: seq<nat>)
    requires |xs| > 0
    ensures MaxOf(xs) in xs && forall i :: 0 <= i < |xs| ==> xs[i] <= MaxOf(xs)
    decreases |xs|
  {
    if |xs| > 1 {
      MaxOfSpec(xs[1..]);
      assert forall i :: 1 <= i < |xs| ==> xs[i] == xs[1..][i - 1];
    }
  }

  /** `np.bincount(ls)`: entry `v` counts the occurrences of `v`, up to the
      largest value present. */
  function Bincount(ls: seq<nat>): (counts: seq<nat>)
    requires |ls| > 0
  {
    seq(MaxOf(ls) + 1, v => multiset(ls)[v])
  }

  lemma BincountSpec(ls: seq<nat>)
    requires |ls| > 0
    ensures |Bincount(ls)| == MaxOf(ls) + 1
    ensures forall v :: 0 <= v < |Bincount(ls)| ==> Bincount(ls)[v] == multiset(ls)[v]
  {
  }

  /** The first index of a largest entry of `xs`, scanning from `i` with
      `best` the earliest maximum so far. */
  function FirstMaxFrom(xs: seq<nat>, i: nat, best: nat): nat
    requires best < |xs|
    decreases |xs| - i
  {
    if i >= |xs| then best
    else if xs[i] > xs[best] then FirstMaxFrom(xs, i + 1, i)
    else FirstMaxFrom(xs, i + 1, best)
  }

  lemma {:induction false} FirstMaxFromSpec(xs: seq<nat>, i: nat, best: nat)
    requires best < i <= |xs|
    requires forall k :: 0 <= k < i ==> xs[k] <= xs[best]
    requires forall k :: 0 <= k < best ==> xs[k] < xs[best]
    ensures FirstMaxFrom(xs, i, best) < |xs|
    ensures forall k :: 0 <= k < |xs| ==> xs[k] <= xs[FirstMaxFrom(xs, i, best)]
    ensures forall k :: 0 <= k < FirstMaxFrom(xs, i, best) ==> xs[k] < xs[FirstMaxFrom(xs, i, best)]
    decreases |xs| - i
  {
    if i < |xs| {
      if xs[i] > xs[best] {
        FirstMaxFromSpec(xs, i + 1, i);
      } else {
        FirstMaxFromSpec(xs, i + 1, best);
      }
    }
  }

  /** The majority label: the first index of the largest bincount entry. */
  function Majority(ls: seq<nat>): nat
    requires |ls| > 0
  {
    FirstMaxFrom(Bincount(ls), 1, 0)
  }

  /** The scan computes `counts.index(max(counts))`, as the source writes it. */
  lemma MajorityIsIndexOfMax(ls: seq<nat>)
    requires |ls| > 0
    ensures MaxOf(Bincount(ls)) in Bincount(ls)
    ensures Majority(ls) == IndexOf(Bincount(ls), MaxOf(Bincount(ls))).value
  {
    var counts := Bincount(ls);
    var r := Majority(ls);
    MaxOfSpec(counts);
    FirstMaxFromSpec(counts, 1, 0);
    var top := MaxOf(counts);
    var j := IndexOf(counts, top).value;
    assert counts[r] == top;
  }

  /** The majority label is a label of the window, no label occurs more
      often, and every smaller label occurs strictly less often: ties go to
      the lowest index. */
  lemma MajorityIsLowestMode(ls: seq<nat>)
    requires |ls| > 0
    ensures Majority(ls) in ls
    ensures forall v: nat :: multiset(ls)[v] <= multiset(ls)[Majority(ls)]
    ensures forall v: nat :: v < Majority(ls) ==> multiset(ls)[v] < multiset(ls)[Majority(ls)]
  {
    var counts := Bincount(ls);
    var m := Majority(ls);
    BincountSpec(ls);
    MaxOfSpec(ls);
    FirstMaxFromSpec(counts, 1, 0);
    assert ls[0] in ls;
    assert counts[ls[0]] >= 1;
    assert multiset(ls)[m] >= 1;
    forall v: nat ensures multiset(ls)[v] <= multiset(ls)[m] {
      if v >= |counts| {
        assert v !in ls;
      }
    }
  }

  /** `[3, 3, 5, 5]` has majority label 3, not 5. */
  lemma MajorityTieExample()
    ensures Majority([3, 3, 5, 5]) == 3
  {
    var ls: seq<nat> := [3, 3, 5, 5];
    MajorityIsLowestMode(ls);
    assert multiset(ls)[3] == 2 && multiset(ls)[5] == 2;
    var m := Majority(ls);
    assert m == 3 || m == 5;
  }

  /** One window: its frames, per-frame labels, source file and inclusive
      first and last frame numbers. Its majority label is `Majority(labels)`. */
  datatype Window = Window(poses: seq<Frame>, labels: seq<nat>, source: string, first: int, last: int)

  /** `gt[start : start + w]` for `start >= 0`: cut short at the end of `gt`. */
  function LabelSlice(gt: seq<nat>, start: nat, w: nat): (r: seq<nat>)
    ensures start + w <= |gt| ==> r == gt[start..start + w]
    ensures start < |gt| && w >= 1 <==> |r| > 0
    ensures |r| <= w && forall k :: 0 <= k < |r| ==> start + k < |gt| && r[k] == gt[start + k]
  {
    var lo, hi := SliceIndex(start, |gt|), SliceIndex(start + w, |gt|);
    gt[lo..if hi > lo then hi else lo]
  }

  /** The window that starts at frame `start`; its label slice is empty (and
      `max()` raises) once `start` is past the label array. */
  function MakeWindow(name: string, frames: seq<Frame>, gt: seq<nat>, start: nat, w: nat)
    : (r: Result<Window, BuildError>)
    requires start + w <= |frames|
    ensures w >= 1 ==> (r.Ok? <==> start < |gt|)
    ensures r.Ok? ==> |r.value.labels| > 0
  {
    var labels := LabelSlice(gt, start, w);
    if |labels| == 0 then Err(EmptyLabelWindow(start))
    else Ok(Window(frames[start..start + w], labels, name, start, start + w - 1))
  }

  /** What a window holds: frames `[start, start + w)`, the labels of those
      frames (cut short at the end of the label array) and
      `last == start + w - 1`. */
  lemma MakeWindowSpec(name: string, frames: seq<Frame>, gt: seq<nat>, start: nat, w: nat)
    requires start + w <= |frames| && w >= 1
    ensures MakeWindow(name, frames, gt, start, w).Ok? <==> start < |gt|
    ensures MakeWindow(name, frames, gt, start, w).Ok? ==>
      var win := MakeWindow(name, frames, gt, start, w).value;
      && win.poses == frames[start..start + w] && |win.poses| == w
      && win.source == name && win.first == start && win.last == start + w - 1
      && (start + w <= |gt| ==> win.labels == gt[start..start + w])
      && 1 <= |win.labels| <= w
      && (forall k :: 0 <= k < |win.labels| ==> win.labels[k] == gt[start + k])
  {
  }
}
