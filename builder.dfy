/** `Dataset_shrec22` as an object: its list fields, filled in place by the
    annotation loop and the sliding-window loop, `__len__`, `__getitem__`
    and the names of the `.npy` files the arrays are saved to. */
module Builder {
  import opened Results
  import opened Text
  import opened Numbers
  import opened Annotation
  import opened Pose
  import opened Windows
  import opened Dataset

  /** `maj` holds the majority label of each (non-empty) label slice of `lw`. */
  predicate MajoritiesOf(lw: seq<seq<nat>>, maj: seq<nat>)
  {
    && |lw| == |maj|
    && forall i :: 0 <= i < |lw| ==> |lw[i]| > 0 && maj[i] == Majority(lw[i])
  }

  /** How the loop goes on after one annotation line. */
  datatype Outcome = Raised(error: BuildError) | Skipped | Stopped | Appended

  /** How a step of the loop shows to the caller of the loop body. */
  function OutcomeOf(step: Step): (o: Outcome)
    ensures o.Raised? <==> step.Raise?
    ensures o.Raised? ==> o.error == step.error
    ensures o.Skipped? <==> step.Skip?
    ensures o.Stopped? <==> step.Stop?
  {
    match step
    case Raise(e) => Raised(e)
    case Skip => Skipped
    case Stop => Stopped
    case Added(_) => Appended
  }

  class WindowDataset {
    const w: nat
    const stride: nat
    var sequence: seq<seq<Frame>>
    var labelsWindow: seq<seq<nat>>
    var majority: seq<nat>   // the source's `label` list (a reserved word here)
    var allFilePoses: seq<seq<Frame>>
    var windowSourceFiles: seq<string>
    var windowFrameIndices: seq<(int, int)>
    var lenData: nat

    /** The five lists the loop appends to, as one value. */
    function State(): Acc
      reads this
    {
      Acc(sequence, labelsWindow, allFilePoses, windowSourceFiles, windowFrameIndices)
    }

    /** The lists are aligned and `majority[i]` is the majority label of the
        (non-empty) `labelsWindow[i]`. */
    predicate Valid()
      reads this
    {
      && Aligned(State())
      && MajoritiesOf(labelsWindow, majority)
    }

    /** After `__init__`: `len_data` is the number of windows. */
    predicate Loaded()
      reads this
    {
      Valid() && lenData == |sequence|
    }

    /** The storage containers, all empty. */
    constructor (w: nat, stride: nat)
      ensures Valid() && State() == EmptyAcc() && majority == [] && lenData == 0
      ensures this.w == w && this.stride == stride
    {
      this.w := w;
      this.stride := stride;
      sequence, labelsWindow, majority, allFilePoses := [], [], [], [];
      windowSourceFiles, windowFrameIndices := [], [];
      lenData := 0;
    }

    /** The appends for one window: its frames, its source name, its
        majority label, its label slice and its (first, last) frame numbers. */
    method AppendWindow(win: Window)
      requires Valid() && |win.labels| > 0
      modifies this
      ensures State() == AddWindow(old(State()), win)
      ensures majority == old(majority) + [Majority(win.labels)]
      ensures Valid()
    {
      sequence := sequence + [win.poses];
      windowSourceFiles := windowSourceFiles + [win.source];
      majority := majority + [Majority(win.labels)];
      labelsWindow := labelsWindow + [win.labels];
      windowFrameIndices := windowFrameIndices + [(win.first, win.last)];
    }

    /** The sliding-window loop over one file's frames: for each start in
        `range(0, len(frames) - w, stride)` append the window; a zero stride
        and an empty label slice raise. */
    method SlideFile(name: string, frames: seq<Frame>, gt: seq<nat>) returns (err: Option<BuildError>)
      requires Valid()
      modifies this
      ensures Valid()
      ensures stride == 0 ==> err == Some(ZeroStride) && State() == old(State())
      ensures stride >= 1 ==> var s := Slide(old(State()), name, frames, gt, w, stride, 0);
        if s.Ok? then err.None? && State() == s.value else err == Some(s.error)
    {
      if stride == 0 {
        return Some(ZeroStride);
      }
      var start: nat := 0;
      ghost var acc := State();
      while start < |frames| - w
        invariant Valid() && State() == acc
        invariant Slide(acc, name, frames, gt, w, stride, start) == Slide(old(State()), name, frames, gt, w, stride, 0)
        decreases |frames| - w - start
      {
        var win := MakeWindow(name, frames, gt, start, w);
        if win.Err? {
          SlideRaises(acc, name, frames, gt, w, stride, start);
          return Some(win.error);
        }
        SlideAdvances(acc, name, frames, gt, w, stride, start, win.value);
        AppendWindow(win.value);
        acc := AddWindow(acc, win.value);
        start := start + stride;
      }
      SlideEnds(acc, name, frames, gt, w, stride, start);
      return None;
    }

    /** The rest of the loop body for the file `name` with gesture tokens
        `toks`: build its label array, skip it if its pose file is missing,
        read the pose file, append its frames to `all_file_poses` and slide
        over it. It does what `StepFile` describes to the lists. */
    method ProcessFile(dataDir: string, files: Files, name: string, toks: seq<string>) returns (outcome: Outcome)
      requires Valid()
      modifies this
      ensures Valid()
      ensures var step := StepFile(old(State()), files, dataDir, w, stride, name, toks);
        && outcome == OutcomeOf(step)
        && (step.Skip? ==> State() == old(State()))
        && (step.Added? ==> State() == step.acc)
    {
      var gt := BuildLabels(toks);
      if gt.Err? {
        return Raised(gt.error);
      }
      var posePath := PosePath(dataDir, name);
      if posePath !in files {
        return Skipped;
      }
      var frames := ReadPoses(files[posePath]);
      if frames.Err? {
        return Raised(frames.error);
      }
      allFilePoses := allFilePoses + [frames.value];
      var err := SlideFile(name, frames.value, gt.value);
      if err.Some? {
        return Raised(err.value);
      }
      return Appended;
    }

    /** The body of the annotation loop for one line, with `processed` files
        counted so far: read the line, skip it if the filter excludes it,
        stop at the cap, else process its file. It does what `StepLine`
        describes to the lists. */
    method ProcessLine(dataDir: string, files: Files, filter: Option<set<string>>, maxFiles: Option<int>,
                       processed: nat, line: string) returns (outcome: Outcome)
      requires Valid()
      modifies this
      ensures Valid()
      ensures var step := StepLine(old(State()), processed, files, Config(dataDir, w, stride, filter, maxFiles), line);
        && outcome == OutcomeOf(step)
        && (step.Skip? || step.Stop? ==> State() == old(State()))
        && (step.Added? ==> State() == step.acc)
    {
      ghost var cfg := Config(dataDir, w, stride, filter, maxFiles);
      ghost var step := StepLine(State(), processed, files, cfg, line);
      var parsed := ParseLine(line);
      if parsed.Err? {
        assert step == Raise(parsed.error);
        return Raised(parsed.error);
      }
      var name := parsed.value.0;
      if filter.Some? && name !in filter.value {
        assert step == Skip;
        return Skipped;
      }
      if maxFiles.Some? && processed >= maxFiles.value {
        assert step == Stop;
        return Stopped;
      }
      assert step == StepFile(State(), files, dataDir, w, stride, name, parsed.value.1);
      outcome := ProcessFile(dataDir, files, name, parsed.value.1);
    }

    /** Turn `i` of the annotation loop over `lines`, with `processed`
        files counted so far: the loop ends here with the error raised or at
        the cap, or goes on from line `i + 1` in the new state with the count
        `processed'`, one more when the line's file was added. */
    method LoadLine(dataDir: string, files: Files, filter: Option<set<string>>, maxFiles: Option<int>,
                    processed: nat, lines: seq<string>, i: nat) returns (outcome: Outcome, processed': nat)
      requires Valid() && i < |lines|
      modifies this
      ensures Valid()
      ensures processed' == if outcome.Appended? then processed + 1 else processed
      ensures var cfg := Config(dataDir, w, stride, filter, maxFiles);
        var before := Ingest(old(State()), processed, files, cfg, lines[i..]);
        && (outcome.Raised? ==> before == Err(outcome.error))
        && (outcome.Stopped? ==> before == Ok((State(), processed)))
        && (outcome.Skipped? || outcome.Appended? ==> before == Ingest(State(), processed', files, cfg, lines[i + 1..]))
    {
      IngestCons(State(), processed, files, Config(dataDir, w, stride, filter, maxFiles), lines[i..]);
      assert lines[i..][0] == lines[i] && lines[i..][1..] == lines[i + 1..];
      outcome := ProcessLine(dataDir, files, filter, maxFiles, processed, lines[i]);
      processed' := if outcome.Appended? then processed + 1 else processed;
    }

    /** `__init__` from the annotations file on, on the lists as they are:
        it ends as `Build` does, with the lists it describes and the number
        of files processed; on success `len_data` is the number of windows. */
    method Load(dataDir: string, files: Files, fileNames: Option<seq<string>>, maxFiles: Option<int>)
      returns (r: Result<nat, BuildError>)
      requires Valid()
      modifies this
      ensures var cfg := Config(dataDir, w, stride, NameFilter(fileNames), maxFiles);
        Build(old(State()), files, cfg) == (if r.Ok? then Ok((State(), r.value)) else Err(r.error))
      ensures r.Ok? ==> Loaded()
    {
      var filter := NameFilter(fileNames);
      ghost var cfg := Config(dataDir, w, stride, filter, maxFiles);
      var annotations := AnnotationsPath(dataDir);
      if annotations !in files {
        return Err(AnnotationsNotFound);
      }
      var lines := files[annotations];
      var processed: nat := 0;
      var i := 0;
      while i < |lines|
        invariant i <= |lines|
        invariant Valid()
        invariant Ingest(State(), processed, files, cfg, lines[i..]) == Build(old(State()), files, cfg)
      {
        var outcome;
        outcome, processed := LoadLine(dataDir, files, filter, maxFiles, processed, lines, i);
        if outcome.Raised? {
          return Err(outcome.error);
        } else if outcome.Stopped? {
          break;
        }
        i := i + 1;
      }
      lenData := |sequence|;
      r := Ok(processed);
    }

    /** `__len__`: the number of windows, which is `len_data` once loaded. */
    function Len(): (n: nat)
      reads this
      ensures Loaded() ==> n == lenData
      ensures Valid() ==> n == |labelsWindow| == |majority| == |windowSourceFiles| == |windowFrameIndices|
    {
      |sequence|
    }

    /** `__getitem__`: window `idx` as (frames, majority label, label
        slice), with Python's indexing from the end for `-len <= idx < 0`;
        `None` where the list indexing raises `IndexError`. The label given
        is the majority label of the label slice given. */
    function GetItem(idx: int): (r: Option<(seq<Frame>, nat, seq<nat>)>)
      reads this
      requires Valid()
      ensures r.Some? <==> -(Len() as int) <= idx < Len()
      ensures r.Some? ==> |r.value.2| > 0 && r.value.1 == Majority(r.value.2)
      ensures r.Some? ==>
        var k := if idx < 0 then idx + Len() else idx;
        r.value.0 == WindowAt(State(), k).poses && r.value.2 == WindowAt(State(), k).labels
    {
      if -|sequence| <= idx < |sequence| then
        var k := if idx < 0 then idx + |sequence| else idx;
        Some((sequence[k], majority[k], labelsWindow[k]))
      else None
    }
  }

  /** Indexing from the end reaches the same window as indexing from the front. */
  lemma GetItemFromEnd(d: WindowDataset, i: nat)
    requires d.Valid() && i < d.Len()
    ensures d.GetItem(i - d.Len()) == d.GetItem(i)
  {
  }

  /** `np.array(labels_window, dtype=np.int64)` in the save: numpy builds a
      two-dimensional array only when every label row has the same length,
      and raises otherwise. */
  function LabelsWindowArray(rows: seq<seq<nat>>): (r: Result<seq<seq<nat>>, BuildError>)
    ensures r.Ok? <==> forall i, j :: 0 <= i < |rows| && 0 <= j < |rows| ==> |rows[i]| == |rows[j]|
    ensures r.Ok? ==> r.value == rows
    ensures r.Err? ==> r.error == RaggedLabelWindows
  {
    if forall i :: 0 <= i < |rows| ==> |rows[i]| == |rows[0]| then Ok(rows) else Err(RaggedLabelWindows)
  }

  /** A window cut short by the end of the 780-entry label array next to a
      full one makes the save raise. */
  lemma LabelsWindowArrayRagged()
    ensures LabelsWindowArray([[NonGesture, NonGesture], [NonGesture]]) == Err(RaggedLabelWindows)
  {
    var rows := [[NonGesture, NonGesture], [NonGesture]];
    assert |rows[0]| != |rows[1]|;
  }

  /** `Dataset_shrec22(data_dir, data_set, w, stride, file_names, max_files,
      save)`: fresh empty lists, then the annotation loop, then with `save`
      the conversion of the label windows for `np.save`. It raises where
      `Build` raises, and with `save` also when the label windows are
      ragged. On success every window is a good window of an admitted file,
      the lists are aligned, each label is its window's majority label,
      `len_data` is the number of windows and the file count is the number
      of files whose frames were kept, bounded by a given cap. A window
      size or stride of 0 keeps no window. */
  method Construct(dataDir: string, files: Files, w: nat, stride: nat,
                   fileNames: Option<seq<string>>, maxFiles: Option<int>, save: bool)
    returns (d: WindowDataset, r: Result<nat, BuildError>)
    ensures fresh(d) && d.w == w && d.stride == stride
    ensures var b := Build(EmptyAcc(), files, Config(dataDir, w, stride, NameFilter(fileNames), maxFiles));
      && (b.Ok? ==> d.State() == b.value.0)
      && r == (if b.Err? then Err(b.error)
               else if save && LabelsWindowArray(b.value.0.labelsWindow).Err? then Err(RaggedLabelWindows)
               else Ok(b.value.1))
    ensures AnnotationsPath(dataDir) !in files ==> r == Err(AnnotationsNotFound)
    ensures r.Ok? ==>
      && d.Loaded()
      && AllGood(d.State(), files, Config(dataDir, w, stride, NameFilter(fileNames), maxFiles))
      && r.value == |d.allFilePoses|
      && (maxFiles.Some? ==> r.value <= CapBound(maxFiles.value))
      && (w == 0 || stride == 0 ==> d.Len() == 0)
  {
    d := new WindowDataset(w, stride);
    r := d.Load(dataDir, files, fileNames, maxFiles);
    BuildSpec(files, Config(dataDir, w, stride, NameFilter(fileNames), maxFiles));
    if save && r.Ok? {
      var rows := LabelsWindowArray(d.labelsWindow);
      if rows.Err? {
        r := Err(rows.error);
      }
    }
  }

  /** The name of one saved array: `{data_set}_{kind}_w{w}_s{stride}.npy`. */
  function ArrayFile(dataSet: string, kind: string, w: nat, stride: nat): string
  {
    dataSet + "_" + kind + "_w" + NatToString(w) + "_s" + NatToString(stride) + ".npy"
  }

  function SequenceFile(dataSet: string, w: nat, stride: nat): string { ArrayFile(dataSet, "sequence", w, stride) }

  function LabelsFile(dataSet: string, w: nat, stride: nat): string { ArrayFile(dataSet, "labels", w, stride) }

  function LabelsWindowFile(dataSet: string, w: nat, stride: nat): string { ArrayFile(dataSet, "labels_window", w, stride) }

  /** The name of one saved index array: `{data_set}_{kind}_s{stride}.npy`. */
  function IndexFile(dataSet: string, kind: string, stride: nat): string
  {
    dataSet + "_" + kind + "_s" + NatToString(stride) + ".npy"
  }

  function SourceFilesFile(dataSet: string, stride: nat): string { IndexFile(dataSet, "window_source_file_indices", stride) }

  function FrameIndicesFile(dataSet: string, stride: nat): string { IndexFile(dataSet, "window_frame_indices", stride) }

  /** Where an array is saved: next to the script. */
  function SavePath(scriptDir: string, fileName: string): string { PathJoin(scriptDir, fileName) }

  /** After the data set name and `_` comes the kind; after the kind and
      `_w`, the first digit of the window size. */
  lemma ArrayFileAt(dataSet: string, kind: string, w: nat, stride: nat, k: nat)
    requires k < |kind|
    ensures ArrayFile(dataSet, kind, w, stride)[|dataSet| + 1 + k] == kind[k]
    ensures ArrayFile(dataSet, kind, w, stride)[|dataSet| + |kind| + 3] == NatToString(w)[0]
    ensures |ArrayFile(dataSet, kind, w, stride)| > |dataSet| + |kind| + 3
  {
  }

  lemma IndexFileAt(dataSet: string, kind: string, stride: nat, k: nat)
    requires k < |kind|
    ensures IndexFile(dataSet, kind, stride)[|dataSet| + 1 + k] == kind[k]
    ensures |IndexFile(dataSet, kind, stride)| > |dataSet| + |kind| + 1
  {
  }

  /** The three files the save writes and the two index files of the
      helpers `__init__` never calls never overwrite one another. */
  lemma SaveNamesDistinct(dataSet: string, w: nat, stride: nat)
    ensures SequenceFile(dataSet, w, stride) != LabelsFile(dataSet, w, stride)
    ensures SequenceFile(dataSet, w, stride) != LabelsWindowFile(dataSet, w, stride)
    ensures SequenceFile(dataSet, w, stride) != SourceFilesFile(dataSet, stride)
    ensures SequenceFile(dataSet, w, stride) != FrameIndicesFile(dataSet, stride)
    ensures LabelsFile(dataSet, w, stride) != LabelsWindowFile(dataSet, w, stride)
    ensures LabelsFile(dataSet, w, stride) != SourceFilesFile(dataSet, stride)
    ensures LabelsFile(dataSet, w, stride) != FrameIndicesFile(dataSet, stride)
    ensures LabelsWindowFile(dataSet, w, stride) != SourceFilesFile(dataSet, stride)
    ensures LabelsWindowFile(dataSet, w, stride) != FrameIndicesFile(dataSet, stride)
    ensures SourceFilesFile(dataSet, stride) != FrameIndicesFile(dataSet, stride)
  {
    var sq, lb, lw, sf, fi := "sequence", "labels", "labels_window", "window_source_file_indices", "window_frame_indices";
    ArrayKindsDiffer(dataSet, sq, lb, 0, w, stride);
    ArrayKindsDiffer(dataSet, sq, lw, 0, w, stride);
    LabelsNamesDiffer(dataSet, w, stride);
    ArrayIndexDiffer(dataSet, sq, sf, w, stride);
    ArrayIndexDiffer(dataSet, sq, fi, w, stride);
    ArrayIndexDiffer(dataSet, lb, sf, w, stride);
    ArrayIndexDiffer(dataSet, lb, fi, w, stride);
    ArrayIndexDiffer(dataSet, lw, sf, w, stride);
    ArrayIndexDiffer(dataSet, lw, fi, w, stride);
    IndexKindsDiffer(dataSet, sf, fi, stride);
  }

  /** Array files whose kinds differ at a common position differ. */
  lemma ArrayKindsDiffer(dataSet: string, kind1: string, kind2: string, k: nat, w: nat, stride: nat)
    requires k < |kind1| && k < |kind2| && kind1[k] != kind2[k]
    ensures ArrayFile(dataSet, kind1, w, stride) != ArrayFile(dataSet, kind2, w, stride)
  {
    ArrayFileAt(dataSet, kind1, w, stride, k);
    ArrayFileAt(dataSet, kind2, w, stride, k);
    DifferAt(ArrayFile(dataSet, kind1, w, stride), ArrayFile(dataSet, kind2, w, stride), |dataSet| + 1 + k);
  }

  /** Index files whose kinds differ in length differ. */
  lemma IndexKindsDiffer(dataSet: string, kind1: string, kind2: string, stride: nat)
    requires |kind1| != |kind2|
    ensures IndexFile(dataSet, kind1, stride) != IndexFile(dataSet, kind2, stride)
  {
    assert |IndexFile(dataSet, kind1, stride)| - |kind1| == |IndexFile(dataSet, kind2, stride)| - |kind2|;
  }

  /** An array file and an index file whose kinds start differently differ. */
  lemma ArrayIndexDiffer(dataSet: string, kind1: string, kind2: string, w: nat, stride: nat)
    requires |kind1| > 0 && |kind2| > 0 && kind1[0] != kind2[0]
    ensures ArrayFile(dataSet, kind1, w, stride) != IndexFile(dataSet, kind2, stride)
  {
    ArrayFileAt(dataSet, kind1, w, stride, 0);
    IndexFileAt(dataSet, kind2, stride, 0);
    DifferAt(ArrayFile(dataSet, kind1, w, stride), IndexFile(dataSet, kind2, stride), |dataSet| + 1);
  }

  /** `labels` is a prefix of `labels_window`: after it comes the window
      size's first digit in one name and `_` in the other. */
  lemma LabelsNamesDiffer(dataSet: string, w: nat, stride: nat)
    ensures LabelsFile(dataSet, w, stride) != LabelsWindowFile(dataSet, w, stride)
  {
    var lb, lw := LabelsFile(dataSet, w, stride), LabelsWindowFile(dataSet, w, stride);
    ArrayFileAt(dataSet, "labels", w, stride, 0);
    ArrayFileAt(dataSet, "labels_window", w, stride, 8);
    assert IsDigit(lb[|dataSet| + 9]);
    DifferAt(lb, lw, |dataSet| + 9);
  }

  lemma DifferAt(a: string, b: string, k: nat)
    requires k < |a| && k < |b| && a[k] != b[k]
    ensures a != b
  {
  }

  /** An array file name splits into its fixed prefix, the window size and
      what follows the window size. */
  lemma ArrayFileSplit(dataSet: string, kind: string, w: nat, stride: nat)
    ensures ArrayFile(dataSet, kind, w, stride)
         == (dataSet + "_" + kind + "_w") + (NatToString(w) + ['_'] + ("s" + NatToString(stride) + ".npy"))
  {
  }

  /** An array file name determines the window size and stride. */
  lemma ArrayFileInjective(dataSet: string, kind: string, w1: nat, s1: nat, w2: nat, s2: nat)
    requires ArrayFile(dataSet, kind, w1, s1) == ArrayFile(dataSet, kind, w2, s2)
    ensures w1 == w2 && s1 == s2
  {
    ArrayFileSplit(dataSet, kind, w1, s1);
    ArrayFileSplit(dataSet, kind, w2, s2);
    var u1, u2 := "s" + NatToString(s1) + ".npy", "s" + NatToString(s2) + ".npy";
    CancelPrefix(dataSet + "_" + kind + "_w", NatToString(w1) + ['_'] + u1, NatToString(w2) + ['_'] + u2);
    DigitRunPrefix(NatToString(w1), '_', u1, NatToString(w2), '_', u2);
    NatToStringInjective(w1, w2);
    assert u1 == "s" + (NatToString(s1) + ['.'] + "npy");
    assert u2 == "s" + (NatToString(s2) + ['.'] + "npy");
    CancelPrefix("s", NatToString(s1) + ['.'] + "npy", NatToString(s2) + ['.'] + "npy");
    DigitRunPrefix(NatToString(s1), '.', "npy", NatToString(s2), '.', "npy");
    NatToStringInjective(s1, s2);
  }
}
