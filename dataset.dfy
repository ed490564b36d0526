/** The window builder `Dataset_shrec22`: the annotation loop with its name
    filter, file cap and missing-file rule, the per-file sliding window, the
    six list fields it fills, `__len__`, `__getitem__`, and the names of the
    files the arrays are saved to. */
module Dataset {
  import opened Results
  import opened Text
  import opened Numbers
  import opened Annotation
  import opened Pose
  import opened Windows

  /** The files the builder reads, as a map from path to lines; a path that
      is not a key is a file that does not exist. */
  type Files = map<string, seq<string>>

  /** The list fields, as values: per window its frames, frame labels,
      source file name and (first, last) frame numbers, and per ingested
      file all of its frames. The majority-label list is determined by the
      frame labels (`Majority` of each) and is kept by the class alone. */
  datatype Acc = Acc(sequence: seq<seq<Frame>>, labelsWindow: seq<seq<nat>>,
                     allFilePoses: seq<seq<Frame>>, sources: seq<string>, frameIndices: seq<(int, int)>)

  function EmptyAcc(): Acc { Acc([], [], [], [], []) }

  /** The per-window lists have one entry per window. */
  predicate Aligned(acc: Acc)
  {
    && |acc.labelsWindow| == |acc.sequence|
    && |acc.sources| == |acc.sequence|
    && |acc.frameIndices| == |acc.sequence|
  }

  /** Window `i`, read across the five lists. */
  function WindowAt(acc: Acc, i: nat): Window
    requires Aligned(acc) && i < |acc.sequence|
  {
    Window(acc.sequence[i], acc.labelsWindow[i], acc.sources[i],
           acc.frameIndices[i].0, acc.frameIndices[i].1)
  }

  /** The five appends of one window. */
  function AddWindow(acc: Acc, win: Window): (r: Acc)
    requires Aligned(acc)
  {
    acc.(sequence := acc.sequence + [win.poses], labelsWindow := acc.labelsWindow + [win.labels],
         sources := acc.sources + [win.source],
         frameIndices := acc.frameIndices + [(win.first, win.last)])
  }

  /** The five lists with the windows `ws` appended, in order. */
  function AppendAll(acc: Acc, ws: seq<Window>): (r: Acc)
    requires Aligned(acc)
    ensures Aligned(r) && |r.sequence| == |acc.sequence| + |ws| && r.allFilePoses == acc.allFilePoses
  {
    acc.(sequence := acc.sequence + seq(|ws|, i requires 0 <= i < |ws| => ws[i].poses),
         labelsWindow := acc.labelsWindow + seq(|ws|, i requires 0 <= i < |ws| => ws[i].labels),
         sources := acc.sources + seq(|ws|, i requires 0 <= i < |ws| => ws[i].source),
         frameIndices := acc.frameIndices + seq(|ws|, i requires 0 <= i < |ws| => (ws[i].first, ws[i].last)))
  }

  /** After appending, the earlier windows are unchanged and the new ones
      follow in order. */
  lemma AppendAllAt(acc: Acc, ws: seq<Window>, i: nat)
    requires Aligned(acc) && i < |acc.sequence| + |ws|
    ensures WindowAt(AppendAll(acc, ws), i) == if i < |acc.sequence| then WindowAt(acc, i) else ws[i - |acc.sequence|]
  {
  }

  /** Appending one window and then the rest is appending them all. */
  lemma AppendAllCons(acc: Acc, win: Window, ws: seq<Window>)
    requires Aligned(acc)
    ensures Aligned(AddWindow(acc, win))
    ensures AppendAll(AddWindow(acc, win), ws) == AppendAll(acc, [win] + ws)
  {
    var l, r := AppendAll(AddWindow(acc, win), ws), AppendAll(acc, [win] + ws);
    assert l.sequence == r.sequence;
    assert l.labelsWindow == r.labelsWindow;
    assert l.sources == r.sources;
    assert l.frameIndices == r.frameIndices;
  }

  lemma AppendAllNone(acc: Acc)
    requires Aligned(acc)
    ensures AppendAll(acc, []) == acc
  {
    var r := AppendAll(acc, []);
    assert r.sequence == acc.sequence && r.labelsWindow == acc.labelsWindow;
    assert r.sources == acc.sources && r.frameIndices == acc.frameIndices;
  }

  /** Every window start lies inside the label array. */
  predicate StartsWithin(starts: seq<int>, n: nat)
  {
    forall k :: 0 <= k < |starts| ==> starts[k] < n
  }

  lemma StartsWithinCons(x: int, rest: seq<int>, n: nat)
    ensures StartsWithin([x] + rest, n) <==> x < n && StartsWithin(rest, n)
  {
    var xs := [x] + rest;
    assert xs[0] == x;
    assert forall k :: 1 <= k < |xs| ==> xs[k] == rest[k - 1];
    if !StartsWithin(rest, n) {
      var k :| 0 <= k < |rest| && rest[k] >= n;
      assert xs[k + 1] == rest[k];
    }
  }

  /** The windows of one file from start `start` on: one per start of
      `range(start, n - w, stride)`, cut by `MakeWindow`. */
  function FileWindowsFrom(name: string, frames: seq<Frame>, gt: seq<nat>, w: nat, stride: nat, start: nat)
    : (ws: seq<Window>)
    requires w >= 1 && stride >= 1
    requires StartsWithin(RangeFrom(start, |frames| - w, stride), |gt|)
    ensures |ws| == |RangeFrom(start, |frames| - w, stride)|
  {
    var starts := RangeFrom(start, |frames| - w, stride);
    seq(|starts|, k requires 0 <= k < |starts| => MakeWindow(name, frames, gt, starts[k], w).value)
  }

  lemma FileWindowsFromCons(name: string, frames: seq<Frame>, gt: seq<nat>, w: nat, stride: nat, start: nat)
    requires w >= 1 && stride >= 1 && start < |frames| - w
    requires StartsWithin(RangeFrom(start, |frames| - w, stride), |gt|)
    ensures StartsWithin(RangeFrom(start + stride, |frames| - w, stride), |gt|)
    ensures MakeWindow(name, frames, gt, start, w).Ok?
    ensures FileWindowsFrom(name, frames, gt, w, stride, start)
      == [MakeWindow(name, frames, gt, start, w).value] + FileWindowsFrom(name, frames, gt, w, stride, start + stride)
  {
    var starts := RangeFrom(start, |frames| - w, stride);
    var rest := RangeFrom(start + stride, |frames| - w, stride);
    assert starts == [start] + rest;
    StartsWithinCons(start, rest, |gt|);
    var l := FileWindowsFrom(name, frames, gt, w, stride, start);
    var r := FileWindowsFrom(name, frames, gt, w, stride, start + stride);
    assert forall k :: 1 <= k < |l| ==> l[k] == r[k - 1];
  }

  /** The sliding-window loop over one file's frames from window start
      `start` on, appending each window in turn. */
  function Slide(acc: Acc, name: string, frames: seq<Frame>, gt: seq<nat>, w: nat, stride: nat, start: nat)
    : (r: Result<Acc, BuildError>)
    requires Aligned(acc) && stride >= 1
    ensures r.Ok? ==> Aligned(r.value) && r.value.allFilePoses == acc.allFilePoses
    decreases |frames| - w - start
  {
    if start < |frames| - w then
      var win := MakeWindow(name, frames, gt, start, w);
      if win.Err? then Err(win.error)
      else Slide(AddWindow(acc, win.value), name, frames, gt, w, stride, start + stride)
    else Ok(acc)
  }

  /** Past the last start the sliding-window loop stops. */
  lemma SlideEnds(acc: Acc, name: string, frames: seq<Frame>, gt: seq<nat>, w: nat, stride: nat, start: nat)
    requires Aligned(acc) && stride >= 1
    requires start >= |frames| - w
    ensures Slide(acc, name, frames, gt, w, stride, start) == Ok(acc)
  {
  }

  /** A window that cannot be made ends the loop with its error. */
  lemma SlideRaises(acc: Acc, name: string, frames: seq<Frame>, gt: seq<nat>, w: nat, stride: nat, start: nat)
    requires Aligned(acc) && stride >= 1
    requires start < |frames| - w && MakeWindow(name, frames, gt, start, w).Err?
    ensures Slide(acc, name, frames, gt, w, stride, start) == Err(MakeWindow(name, frames, gt, start, w).error)
  {
  }

  /** A window that is made is appended, and the loop goes on at the next
      start. */
  lemma SlideAdvances(acc: Acc, name: string, frames: seq<Frame>, gt: seq<nat>, w: nat, stride: nat, start: nat,
                      win: Window)
    requires Aligned(acc) && stride >= 1
    requires start < |frames| - w && MakeWindow(name, frames, gt, start, w) == Ok(win)
    ensures Slide(acc, name, frames, gt, w, stride, start) == Slide(AddWindow(acc, win), name, frames, gt, w, stride, start + stride)
  {
  }

  lemma {:induction false} SlideFromSpec(acc: Acc, name: string, frames: seq<Frame>, gt: seq<nat>,
                                         w: nat, stride: nat, start: nat)
    requires Aligned(acc) && w >= 1 && stride >= 1
    ensures Slide(acc, name, frames, gt, w, stride, start).Ok? <==>
      StartsWithin(RangeFrom(start, |frames| - w, stride), |gt|)
    ensures Slide(acc, name, frames, gt, w, stride, start).Ok? ==>
      Slide(acc, name, frames, gt, w, stride, start).value
        == AppendAll(acc, FileWindowsFrom(name, frames, gt, w, stride, start))
    decreases |frames| - w - start
  {
    var starts := RangeFrom(start, |frames| - w, stride);
    if start < |frames| - w {
      var win := MakeWindow(name, frames, gt, start, w);
      var rest := RangeFrom(start + stride, |frames| - w, stride);
      assert starts == [start] + rest;
      StartsWithinCons(start, rest, |gt|);
      if win.Ok? {
        SlideFromSpec(AddWindow(acc, win.value), name, frames, gt, w, stride, start + stride);
        if StartsWithin(starts, |gt|) {
          FileWindowsFromCons(name, frames, gt, w, stride, start);
          AppendAllCons(acc, win.value, FileWindowsFrom(name, frames, gt, w, stride, start + stride));
        }
      }
    } else {
      AppendAllNone(acc);
    }
  }

  /** One file's windows: one per start in `range(0, n - w, stride)`, in that
      order, appended after the windows already there. It fails only when a
      start lies past the label array, which cannot happen for a file of at
      most `|gt| + w` frames. */
  lemma SlideSpec(acc: Acc, name: string, frames: seq<Frame>, gt: seq<nat>, w: nat, stride: nat)
    requires Aligned(acc) && w >= 1 && stride >= 1
    ensures Slide(acc, name, frames, gt, w, stride, 0).Ok? <==> StartsWithin(Range(|frames| - w, stride), |gt|)
    ensures |frames| <= |gt| + w ==> Slide(acc, name, frames, gt, w, stride, 0).Ok?
    ensures Slide(acc, name, frames, gt, w, stride, 0).Ok? ==>
      Slide(acc, name, frames, gt, w, stride, 0).value == AppendAll(acc, FileWindows(name, frames, gt, w, stride))
  {
    SlideFromSpec(acc, name, frames, gt, w, stride, 0);
  }

  /** With a window size of 0 every label slice is empty, so the loop
      raises at its first start and adds nothing when there is none. */
  lemma SlideZeroWidth(acc: Acc, name: string, frames: seq<Frame>, gt: seq<nat>, stride: nat)
    requires Aligned(acc) && stride >= 1
    ensures Slide(acc, name, frames, gt, 0, stride, 0) == if |frames| > 0 then Err(EmptyLabelWindow(0)) else Ok(acc)
  {
  }

  /** The windows of one file. */
  function FileWindows(name: string, frames: seq<Frame>, gt: seq<nat>, w: nat, stride: nat): seq<Window>
    requires w >= 1 && stride >= 1
    requires StartsWithin(Range(|frames| - w, stride), |gt|)
  {
    FileWindowsFrom(name, frames, gt, w, stride, 0)
  }

  /** Window `k` of a file starts at frame `k * stride`, the `k`-th start
      of the loop, holds frames `[k * stride, k * stride + w)` of the file and
      their labels, and names the file. */
  lemma FileWindowsSpec(name: string, frames: seq<Frame>, gt: seq<nat>, w: nat, stride: nat, k: nat)
    requires w >= 1 && stride >= 1
    requires StartsWithin(Range(|frames| - w, stride), |gt|)
    requires k < |FileWindows(name, frames, gt, w, stride)|
    ensures var win := FileWindows(name, frames, gt, w, stride)[k];
      && win.first == Range(|frames| - w, stride)[k] == k * stride
      && win.last == win.first + w - 1 && win.source == name
      && win.first + w < |frames|
      && win.poses == frames[win.first .. win.first + w]
      && 1 <= |win.labels| <= w
      && (forall i :: 0 <= i < |win.labels| ==> win.labels[i] == gt[win.first + i])
      && (win.first + w <= |gt| ==> win.labels == gt[win.first .. win.first + w])
  {
    var starts := Range(|frames| - w, stride);
    RangeFromElements(0, |frames| - w, stride);
    MakeWindowSpec(name, frames, gt, starts[k], w);
  }

  /** The builder's arguments: the data directory, window size and stride,
      the name filter (`None` when no file names are given) and the file cap. */
  datatype Config = Config(dataDir: string, w: nat, stride: nat, filter: Option<set<string>>, maxFiles: Option<int>)

  /** A positive window size and stride. With either one 0 no window is
      kept: `range` rejects a zero step and `max()` an empty label slice. */
  predicate ValidConfig(cfg: Config) { cfg.w >= 1 && cfg.stride >= 1 }

  predicate Admitted(cfg: Config, name: string) { cfg.filter.None? || name in cfg.filter.value }

  predicate CapReached(cfg: Config, processed: nat) { cfg.maxFiles.Some? && processed >= cfg.maxFiles.value }

  function AnnotationsPath(dataDir: string): string { PathJoin(dataDir, "annotations.txt") }

  function PosePath(dataDir: string, name: string): string { PathJoin(dataDir, name + ".txt") }

  /** One ingested file: its frames join `all_file_poses`, then its windows
      are appended. */
  function AddFile(acc: Acc, name: string, frames: seq<Frame>, gt: seq<nat>, w: nat, stride: nat)
    : (r: Result<Acc, BuildError>)
    requires Aligned(acc)
    ensures r.Ok? ==> Aligned(r.value) && stride >= 1
    ensures r.Ok? ==> r.value.allFilePoses == acc.allFilePoses + [frames]
    ensures stride == 0 ==> r == Err(ZeroStride)
  {
    if stride == 0 then Err(ZeroStride)
    else Slide(acc.(allFilePoses := acc.allFilePoses + [frames]), name, frames, gt, w, stride, 0)
  }

  /** What one annotation line does to the loop. */
  datatype Step = Raise(error: BuildError) | Skip | Stop | Added(acc: Acc)

  /** The body of the annotation loop for one line, with `processed` files
      counted so far: read the line, skip it if the filter excludes it, stop
      at the cap, then process the file it names. */
  function StepLine(acc: Acc, processed: nat, files: Files, cfg: Config, line: string): (r: Step)
    requires Aligned(acc)
    ensures r.Added? ==> Aligned(r.acc)
  {
    var parsed := ParseLine(line);
    if parsed.Err? then Raise(parsed.error)
    else if !Admitted(cfg, parsed.value.0) then Skip
    else if CapReached(cfg, processed) then Stop
    else StepFile(acc, files, cfg.dataDir, cfg.w, cfg.stride, parsed.value.0, parsed.value.1)
  }

  /** The rest of the loop body for the file `name` with gesture tokens
      `toks`: build its label array, skip it if its pose file is missing,
      read the pose file and add the file. */
  function StepFile(acc: Acc, files: Files, dataDir: string, w: nat, stride: nat, name: string, toks: seq<string>)
    : (r: Step)
    requires Aligned(acc)
    ensures r.Added? ==> Aligned(r.acc)
    ensures !r.Stop?
  {
    var gt := LabelArray(toks);
    if gt.Err? then Raise(gt.error)
    else if PosePath(dataDir, name) !in files then Skip
    else
      var frames := ParsePoseFile(files[PosePath(dataDir, name)]);
      if frames.Err? then Raise(frames.error)
      else
        var out := AddFile(acc, name, frames.value, gt.value, w, stride);
        if out.Err? then Raise(out.error) else Added(out.value)
  }

  /** A step that adds a file adds an admitted file whose label array and
      pose file read, and the result is that file's `AddFile`. */
  lemma StepLineAdded(acc: Acc, processed: nat, files: Files, cfg: Config, line: string)
    requires Aligned(acc)
    requires StepLine(acc, processed, files, cfg, line).Added?
    ensures var parsed := ParseLine(line);
      && parsed.Ok? && Admitted(cfg, parsed.value.0) && !CapReached(cfg, processed)
      && LabelArray(parsed.value.1).Ok?
      && PosePath(cfg.dataDir, parsed.value.0) in files
      && ParsePoseFile(files[PosePath(cfg.dataDir, parsed.value.0)]).Ok?
      && AddFile(acc, parsed.value.0, ParsePoseFile(files[PosePath(cfg.dataDir, parsed.value.0)]).value,
                 LabelArray(parsed.value.1).value, cfg.w, cfg.stride)
         == Ok(StepLine(acc, processed, files, cfg, line).acc)
  {
  }

  /** The annotation loop over `lines`: a raising line ends it with the
      error, the cap ends it, an added file is counted. */
  function Ingest(acc: Acc, processed: nat, files: Files, cfg: Config, lines: seq<string>)
    : Result<(Acc, nat), BuildError>
    requires Aligned(acc)
    decreases |lines|
  {
    if |lines| == 0 then Ok((acc, processed))
    else
      match StepLine(acc, processed, files, cfg, lines[0])
      case Raise(e) => Err(e)
      case Skip => Ingest(acc, processed, files, cfg, lines[1..])
      case Stop => Ok((acc, processed))
      case Added(next) => Ingest(next, processed + 1, files, cfg, lines[1..])
  }

  /** `__init__` from the annotations file on: missing, it raises. */
  function Build(acc: Acc, files: Files, cfg: Config): Result<(Acc, nat), BuildError>
    requires Aligned(acc)
  {
    if AnnotationsPath(cfg.dataDir) !in files then Err(AnnotationsNotFound)
    else Ingest(acc, 0, files, cfg, files[AnnotationsPath(cfg.dataDir)])
  }

  /** The largest count the cap allows: `max_files`, or 0 when it is negative. */
  function CapBound(m: int): nat { if m < 0 then 0 else m }

  /** The counter counts exactly the files whose frames were appended (a
      missing pose file is skipped without counting), and never passes the
      cap. */
  lemma {:induction false} IngestCounts(acc: Acc, processed: nat, files: Files, cfg: Config, lines: seq<string>)
    requires Aligned(acc)
    ensures var r := Ingest(acc, processed, files, cfg, lines);
      r.Ok? ==>
        && Aligned(r.value.0)
        && r.value.1 >= processed
        && r.value.1 - processed == |r.value.0.allFilePoses| - |acc.allFilePoses|
        && (cfg.maxFiles.Some? && processed <= CapBound(cfg.maxFiles.value) ==> r.value.1 <= CapBound(cfg.maxFiles.value))
    decreases |lines|
  {
    if |lines| > 0 {
      IngestCons(acc, processed, files, cfg, lines);
      var step := StepLine(acc, processed, files, cfg, lines[0]);
      if step.Added? {
        StepLineAddsFile(acc, processed, files, cfg, lines[0]);
        IngestCounts(step.acc, processed + 1, files, cfg, lines[1..]);
      } else if step.Skip? {
        IngestCounts(acc, processed, files, cfg, lines[1..]);
      }
    }
  }

  /** A step that adds a file was below the cap and adds one entry to
      `all_file_poses`. */
  lemma StepLineAddsFile(acc: Acc, processed: nat, files: Files, cfg: Config, line: string)
    requires Aligned(acc)
    requires StepLine(acc, processed, files, cfg, line).Added?
    ensures !CapReached(cfg, processed)
    ensures |StepLine(acc, processed, files, cfg, line).acc.allFilePoses| == |acc.allFilePoses| + 1
  {
    StepLineAdded(acc, processed, files, cfg, line);
  }

  /** What every window the builder keeps satisfies: its file passed the
      filter, its label slice is non-empty, no longer than `w` and made of
      label indices, `last == first + w - 1`, and it is one of its file's
      windows: the pose file exists and reads, `first` is a start of the
      loop over it, and the frames are that file's frames from `first` on. */
  predicate GoodWindow(win: Window, files: Files, cfg: Config)
  {
    && Admitted(cfg, win.source)
    && win.last == win.first + cfg.w - 1
    && 1 <= |win.labels| <= cfg.w
    && (forall i :: 0 <= i < |win.labels| ==> IsLabel(win.labels[i]))
    && PosePath(cfg.dataDir, win.source) in files
    && cfg.stride >= 1
    && var fs := ParsePoseFile(files[PosePath(cfg.dataDir, win.source)]);
       && fs.Ok? && InFile(win, fs.value, cfg.w, cfg.stride)
  }

  /** `first` is a start of the loop over `frames` and the window holds the
      `w` frames from there. */
  predicate InFile(win: Window, frames: seq<Frame>, w: nat, stride: nat)
    requires stride >= 1
  {
    && win.first in Range(|frames| - w, stride)
    && 0 <= win.first && win.first + w <= |frames|
    && win.poses == frames[win.first .. win.first + w]
  }

  predicate AllGood(acc: Acc, files: Files, cfg: Config)
    requires Aligned(acc)
  {
    forall i :: 0 <= i < |acc.sequence| ==> GoodWindow(WindowAt(acc, i), files, cfg)
  }

  /** Appending good windows keeps every window good. */
  lemma AppendAllGood(acc: Acc, ws: seq<Window>, files: Files, cfg: Config)
    requires Aligned(acc) && AllGood(acc, files, cfg)
    requires forall k :: 0 <= k < |ws| ==> GoodWindow(ws[k], files, cfg)
    ensures AllGood(AppendAll(acc, ws), files, cfg)
  {
    var out := AppendAll(acc, ws);
    forall i | 0 <= i < |out.sequence| ensures GoodWindow(WindowAt(out, i), files, cfg) {
      AppendAllAt(acc, ws, i);
    }
  }

  /** The window made at a start of the loop over an admitted file with a
      readable pose file, inside the label array, is good. */
  lemma MadeWindowGood(name: string, frames: seq<Frame>, gt: seq<nat>, files: Files, cfg: Config, start: nat)
    requires ValidConfig(cfg)
    requires Admitted(cfg, name) && PosePath(cfg.dataDir, name) in files
    requires ParsePoseFile(files[PosePath(cfg.dataDir, name)]) == Ok(frames)
    requires forall j :: 0 <= j < |gt| ==> IsLabel(gt[j])
    requires start in Range(|frames| - cfg.w, cfg.stride)
    requires start + cfg.w < |frames| && start < |gt|
    ensures MakeWindow(name, frames, gt, start, cfg.w).Ok?
    ensures GoodWindow(MakeWindow(name, frames, gt, start, cfg.w).value, files, cfg)
  {
    MakeWindowSpec(name, frames, gt, start, cfg.w);
    var win := MakeWindow(name, frames, gt, start, cfg.w).value;
    forall j | 0 <= j < |win.labels| ensures IsLabel(win.labels[j]) {
      assert win.labels[j] == gt[start + j];
    }
  }

  /** Every window of an admitted file with a readable pose file is good. */
  lemma FileWindowGood(name: string, frames: seq<Frame>, gt: seq<nat>, files: Files, cfg: Config, k: nat)
    requires ValidConfig(cfg)
    requires Admitted(cfg, name) && PosePath(cfg.dataDir, name) in files
    requires ParsePoseFile(files[PosePath(cfg.dataDir, name)]) == Ok(frames)
    requires forall j :: 0 <= j < |gt| ==> IsLabel(gt[j])
    requires StartsWithin(Range(|frames| - cfg.w, cfg.stride), |gt|)
    requires k < |FileWindows(name, frames, gt, cfg.w, cfg.stride)|
    ensures GoodWindow(FileWindows(name, frames, gt, cfg.w, cfg.stride)[k], files, cfg)
  {
    var starts := Range(|frames| - cfg.w, cfg.stride);
    RangeSpec(|frames| - cfg.w, cfg.stride);
    assert starts[k] in starts;
    MadeWindowGood(name, frames, gt, files, cfg, starts[k]);
  }

  /** Adding an admitted file that has a pose file keeps every window good;
      with a window size of 0 it adds no window at all. */
  lemma AddFileGood(acc: Acc, name: string, frames: seq<Frame>, gt: seq<nat>, files: Files, cfg: Config)
    requires Aligned(acc) && AllGood(acc, files, cfg)
    requires Admitted(cfg, name) && PosePath(cfg.dataDir, name) in files
    requires ParsePoseFile(files[PosePath(cfg.dataDir, name)]) == Ok(frames)
    requires forall k :: 0 <= k < |gt| ==> IsLabel(gt[k])
    requires AddFile(acc, name, frames, gt, cfg.w, cfg.stride).Ok?
    ensures AllGood(AddFile(acc, name, frames, gt, cfg.w, cfg.stride).value, files, cfg)
  {
    var acc1 := acc.(allFilePoses := acc.allFilePoses + [frames]);
    assert AllGood(acc1, files, cfg) by {
      forall i | 0 <= i < |acc1.sequence| ensures WindowAt(acc1, i) == WindowAt(acc, i) { }
    }
    if cfg.w == 0 {
      SlideZeroWidth(acc1, name, frames, gt, cfg.stride);
    } else {
      SlideSpec(acc1, name, frames, gt, cfg.w, cfg.stride);
      var ws := FileWindows(name, frames, gt, cfg.w, cfg.stride);
      forall k | 0 <= k < |ws| ensures GoodWindow(ws[k], files, cfg) {
        FileWindowGood(name, frames, gt, files, cfg, k);
      }
      AppendAllGood(acc1, ws, files, cfg);
    }
  }

  lemma {:induction false} IngestGood(acc: Acc, processed: nat, files: Files, cfg: Config, lines: seq<string>)
    requires Aligned(acc) && AllGood(acc, files, cfg)
    ensures var r := Ingest(acc, processed, files, cfg, lines);
      r.Ok? ==> Aligned(r.value.0) && AllGood(r.value.0, files, cfg)
    decreases |lines|
  {
    if |lines| > 0 {
      IngestCons(acc, processed, files, cfg, lines);
      var step := StepLine(acc, processed, files, cfg, lines[0]);
      if step.Added? {
        StepLineKeepsGood(acc, processed, files, cfg, lines[0]);
        IngestGood(step.acc, processed + 1, files, cfg, lines[1..]);
      } else if step.Skip? {
        IngestGood(acc, processed, files, cfg, lines[1..]);
      }
    }
  }

  /** A step that adds a file keeps every window good. */
  lemma StepLineKeepsGood(acc: Acc, processed: nat, files: Files, cfg: Config, line: string)
    requires Aligned(acc) && AllGood(acc, files, cfg)
    requires StepLine(acc, processed, files, cfg, line).Added?
    ensures AllGood(StepLine(acc, processed, files, cfg, line).acc, files, cfg)
  {
    StepLineAdded(acc, processed, files, cfg, line);
    var parsed := ParseLine(line);
    LabelArrayShape(parsed.value.1);
    var frames := ParsePoseFile(files[PosePath(cfg.dataDir, parsed.value.0)]).value;
    AddFileGood(acc, parsed.value.0, frames, LabelArray(parsed.value.1).value, files, cfg);
  }

  /** The name filter built from `file_names`: their roots without extension. */
  function NameFilter(fileNames: Option<seq<string>>): (r: Option<set<string>>)
    ensures r.Some? <==> fileNames.Some?
  {
    if fileNames.None? then None
    else Some(set f | f in fileNames.value :: SplitExtRoot(f))
  }

  /** A sequence may be named with or without its `.txt` extension. */
  lemma NameFilterAdmits(fileNames: seq<string>, name: string)
    requires |name| > 0 && name[0] != '.' && '/' !in name
    requires name + ".txt" in fileNames || ('.' !in name && name in fileNames)
    ensures var f := NameFilter(Some(fileNames)); f.Some? && name in f.value
  {
    if name + ".txt" in fileNames {
      SplitExtTxt(name);
    } else {
      SplitExtNoDot(name);
    }
  }

  /** The annotation lines a filter `names` keeps: those naming an admitted
      file, and those that do not parse (they still raise). */
  function KeepAdmitted(lines: seq<string>, names: set<string>): (r: seq<string>)
    ensures |r| <= |lines|
    ensures forall l :: l in r <==> l in lines && (ParseLine(l).Err? || ParseLine(l).value.0 in names)
    decreases |lines|
  {
    if |lines| == 0 then []
    else
      var parsed := ParseLine(lines[0]);
      var rest := KeepAdmitted(lines[1..], names);
      if parsed.Err? || parsed.value.0 in names then [lines[0]] + rest else rest
  }

  /** The loop after a first line that adds a file or is skipped. */
  lemma IngestCons(acc: Acc, processed: nat, files: Files, cfg: Config, lines: seq<string>)
    requires Aligned(acc) && |lines| > 0
    ensures var step := StepLine(acc, processed, files, cfg, lines[0]);
      && (step.Added? ==> Ingest(acc, processed, files, cfg, lines) == Ingest(step.acc, processed + 1, files, cfg, lines[1..]))
      && (step.Skip? ==> Ingest(acc, processed, files, cfg, lines) == Ingest(acc, processed, files, cfg, lines[1..]))
      && (step.Stop? ==> Ingest(acc, processed, files, cfg, lines) == Ok((acc, processed)))
      && (step.Raise? ==> Ingest(acc, processed, files, cfg, lines) == Err(step.error))
  {
  }

  /** A line the filter keeps steps as it would without the filter. */
  lemma StepLineKept(acc: Acc, processed: nat, files: Files, cfg: Config, line: string, names: set<string>)
    requires Aligned(acc) && cfg.filter == Some(names)
    requires ParseLine(line).Err? || ParseLine(line).value.0 in names
    ensures StepLine(acc, processed, files, cfg, line) == StepLine(acc, processed, files, cfg.(filter := None), line)
  {
  }

  /** A parsed line naming a file outside the filter is skipped. */
  lemma StepLineDropped(acc: Acc, processed: nat, files: Files, cfg: Config, line: string, names: set<string>)
    requires Aligned(acc) && cfg.filter == Some(names)
    requires ParseLine(line).Ok? && ParseLine(line).value.0 !in names
    ensures StepLine(acc, processed, files, cfg, line) == Skip
  {
  }

  /** Filtering by name is the same as running the unfiltered loop over the
      lines the filter keeps: skipped lines neither count towards the cap nor
      contribute windows. */
  lemma {:induction false} FilterAsPreselection(acc: Acc, processed: nat, files: Files, cfg: Config,
                                               lines: seq<string>, names: set<string>)
    requires Aligned(acc) && cfg.filter == Some(names)
    ensures Ingest(acc, processed, files, cfg, lines)
         == Ingest(acc, processed, files, cfg.(filter := None), KeepAdmitted(lines, names))
    decreases |lines|
  {
    if |lines| > 0 {
      var parsed := ParseLine(lines[0]);
      var kept := KeepAdmitted(lines, names);
      var rest := KeepAdmitted(lines[1..], names);
      var step := StepLine(acc, processed, files, cfg, lines[0]);
      IngestCons(acc, processed, files, cfg, lines);
      if parsed.Err? || parsed.value.0 in names {
        assert kept == [lines[0]] + rest;
        assert kept[0] == lines[0] && kept[1..] == rest;
        StepLineKept(acc, processed, files, cfg, lines[0], names);
        IngestCons(acc, processed, files, cfg.(filter := None), kept);
        if step.Added? {
          FilterAsPreselection(step.acc, processed + 1, files, cfg, lines[1..], names);
        } else if step.Skip? {
          FilterAsPreselection(acc, processed, files, cfg, lines[1..], names);
        }
      } else {
        assert kept == rest;
        StepLineDropped(acc, processed, files, cfg, lines[0], names);
        FilterAsPreselection(acc, processed, files, cfg, lines[1..], names);
      }
    }
  }

  /** `__init__` from empty lists: a missing annotations file raises; on
      success the lists are aligned, every window is a good window of an
      admitted file, the count is the number of files whose frames were
      kept, it never passes a given cap, and a window size or stride of 0
      leaves no window. */
  lemma BuildSpec(files: Files, cfg: Config)
    ensures AnnotationsPath(cfg.dataDir) !in files ==> Build(EmptyAcc(), files, cfg) == Err(AnnotationsNotFound)
    ensures var r := Build(EmptyAcc(), files, cfg);
      r.Ok? ==>
        && Aligned(r.value.0)
        && AllGood(r.value.0, files, cfg)
        && r.value.1 == |r.value.0.allFilePoses|
        && (cfg.maxFiles.Some? ==> r.value.1 <= CapBound(cfg.maxFiles.value))
        && (!ValidConfig(cfg) ==> |r.value.0.sequence| == 0)
  {
    if AnnotationsPath(cfg.dataDir) in files {
      var lines := files[AnnotationsPath(cfg.dataDir)];
      IngestCounts(EmptyAcc(), 0, files, cfg, lines);
      IngestGood(EmptyAcc(), 0, files, cfg, lines);
      var r := Build(EmptyAcc(), files, cfg);
      if r.Ok? && |r.value.0.sequence| > 0 {
        assert GoodWindow(WindowAt(r.value.0, 0), files, cfg);
      }
    }
  }
}
