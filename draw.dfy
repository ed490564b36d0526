/** The image generator's bookkeeping: the style directory and image file
    names `draw_image` writes to, its skip rule for existing images, the
    joint colour choice, and the task list `construct_image` hands to the
    worker pool. The drawing itself is not modelled. */
module Draw {
  import opened Results
  import opened Text
  import opened Numbers
  import opened Pose

  /** The first 26 keys of the colour dictionary, in order. */
  const LeadingColorNames: seq<string> := [
    "green", "dimgray", "blue", "brown", "chartreuse", "chocolate", "coral", "crimson", "blueviolet",
    "darkblue", "darkgreen", "firebrick", "gold", "teal", "grey", "indigo", "steelblue", "indianred",
    "goldenrod", "darkred", "darkorange", "magenta", "maroon", "navy", "olive", "orange"]

  /** All 38 keys of the colour dictionary, in order. */
  const ColorNames: seq<string> := LeadingColorNames + [
    "orchid", "pink", "plum", "purple", "red", "cornflowerblue", "sienna", "darkkhaki", "tan",
    "dodgerblue", "darkseagreen", "cadetblue"]

  /** Dictionary keys are unique: the leading 26 are pairwise different. */
  lemma LeadingColorNamesDistinct()
    ensures forall i, j :: 0 <= i < j < |LeadingColorNames| ==> LeadingColorNames[i] != LeadingColorNames[j]
  {
  }

  /** `plt_colors`: the first 26 of them, one per joint. */
  function Palette(): (p: seq<string>)
    ensures |p| == Joints && p <= ColorNames
  {
    ColorNames[..Joints]
  }

  /** The 26 palette colours are pairwise different, so no two joints of a
      frame are drawn in the same colour. */
  lemma PaletteDistinct()
    ensures forall i, j :: 0 <= i < j < |Palette()| ==> Palette()[i] != Palette()[j]
  {
    assert Palette() == LeadingColorNames;
    LeadingColorNamesDistinct();
  }

  /** `j % len(plt_colors)`: the colour index of joint `j`. It is a valid
      palette index, and each of the 26 joints gets its own index. */
  function ColorIndex(j: nat): (c: nat)
    ensures c < |Palette()|
    ensures j < Joints ==> c == j
    ensures c == j - (j / Joints) * Joints
  {
    j % |Palette()|
  }

  /** Two different joints of a frame are drawn in two different colours. */
  lemma JointColorsDistinct(i: nat, j: nat)
    requires i < j < Joints
    ensures Palette()[ColorIndex(i)] != Palette()[ColorIndex(j)]
  {
    PaletteDistinct();
  }

  /** The plot style of `draw_image`: line style, line width, marker and
      marker size as the text f-strings print for them, and the cell size. */
  datatype Style = Style(linestyle: string, linewidth: string, marker: string, markersize: string,
                         cellHeight: nat, cellWidth: nat)

  /** The style directory before the replaces:
      `{base}/{linestyle}*{linewidth}_{marker}*{markersize}_3x1_{3 * h}x{w}`. */
  function RawStyleDir(base: string, s: Style): string
  {
    base + "/" + s.linestyle + "*" + s.linewidth + "_" + s.marker + "*" + s.markersize + "_"
      + "3x1" + "_" + NatToString(3 * s.cellHeight) + "x" + NatToString(s.cellWidth)
  }

  /** `.replace("*", "_").replace("**", "__")` on the whole path. */
  function StyleDir(base: string, s: Style): string
  {
    ReplaceAll(ReplaceAll(RawStyleDir(base, s), "*", "_"), "**", "__")
  }

  /** The style directory is the raw one with every `*` (the two separators
      and any in `base` or the style fields) turned into `_`: same length,
      no `*` left, every other character kept; the second replace never
      matches. */
  lemma StyleDirSpec(base: string, s: Style)
    ensures var raw, dir := RawStyleDir(base, s), StyleDir(base, s);
      && |dir| == |raw|
      && '*' !in dir
      && (forall i :: 0 <= i < |raw| ==> dir[i] == if raw[i] == '*' then '_' else raw[i])
      && dir == ReplaceAll(raw, "*", "_")
  {
    var raw := RawStyleDir(base, s);
    var once := ReplaceAll(raw, "*", "_");
    ReplaceChar(raw, '*', '_');
    assert '*' !in once by {
      forall i | 0 <= i < |once| ensures once[i] != '*' {
      }
    }
    ReplaceAbsent(once, "**", "__");
  }

  /** `{pid + 1}_label{lab}.png`: window numbers start at 1. */
  function FileName(pid: nat, lab: int): string
  {
    NatToString(pid + 1) + "_label" + IntToString(lab) + ".png"
  }

  /** `os.path.join(style_dir, file_name)`. */
  function ImagePath(dir: string, pid: nat, lab: int): string
  {
    PathJoin(dir, FileName(pid, lab))
  }

  /** A file name splits into the digits of `pid + 1`, `_` and the rest. */
  lemma FileNameShape(pid: nat, lab: int)
    ensures FileName(pid, lab) == NatToString(pid + 1) + ['_'] + ("label" + (IntToString(lab) + ".png"))
  {
  }

  /** A file name determines its window index and label. */
  lemma FileNameInjective(pid1: nat, lab1: int, pid2: nat, lab2: int)
    requires FileName(pid1, lab1) == FileName(pid2, lab2)
    ensures pid1 == pid2 && lab1 == lab2
  {
    var d1, d2 := NatToString(pid1 + 1), NatToString(pid2 + 1);
    var t1, t2 := IntToString(lab1), IntToString(lab2);
    FileNameShape(pid1, lab1);
    FileNameShape(pid2, lab2);
    DigitRunPrefix(d1, '_', "label" + (t1 + ".png"), d2, '_', "label" + (t2 + ".png"));
    NatToStringInjective(pid1 + 1, pid2 + 1);
    CancelPrefix("label", t1 + ".png", t2 + ".png");
    CancelSuffix(t1, t2, ".png");
    IntRoundTrip(lab1);
    IntRoundTrip(lab2);
  }

  /** In one style directory, different windows get different image paths. */
  lemma ImagePathsDistinct(dir: string, pid1: nat, lab1: int, pid2: nat, lab2: int)
    requires pid1 != pid2
    ensures ImagePath(dir, pid1, lab1) != ImagePath(dir, pid2, lab2)
  {
    var n1, n2 := FileName(pid1, lab1), FileName(pid2, lab2);
    assert n1[0] == NatToString(pid1 + 1)[0] && n2[0] == NatToString(pid2 + 1)[0];
    if ImagePath(dir, pid1, lab1) == ImagePath(dir, pid2, lab2) {
      if |dir| == 0 || dir[|dir| - 1] == '/' {
        CancelPrefix(dir, n1, n2);
      } else {
        CancelPrefix(dir + "/", n1, n2);
      }
      FileNameInjective(pid1, lab1, pid2, lab2);
    }
  }

  /** What `draw_image` does to the set of existing paths: it creates the
      style directory, then skips when the image exists and `override` is
      off, and otherwise saves the image. The flag says whether it drew. */
  function DrawEffect(paths: set<string>, dir: string, img: string, override: bool): (r: (set<string>, bool))
    ensures dir in r.0 && img in r.0 && paths <= r.0 && r.0 <= paths + {dir, img}
    ensures r.1 <==> override || img !in paths + {dir}
    ensures !r.1 ==> r.0 == paths + {dir}
  {
    var made := paths + {dir};
    if img in made && !override then (made, false) else (made + {img}, true)
  }

  /** Without `override`, drawing the same window again draws nothing and
      changes nothing. */
  lemma DrawTwiceSkips(paths: set<string>, dir: string, img: string)
    ensures var first := DrawEffect(paths, dir, img, false);
      DrawEffect(first.0, dir, img, false) == (first.0, false)
  {
    var first := DrawEffect(paths, dir, img, false);
    assert first.0 + {dir} == first.0;
  }

  /** The file system as far as `draw_image` sees it: the paths that exist. */
  class ImageStore {
    var paths: set<string>

    constructor (paths: set<string>)
      ensures this.paths == paths
    {
      this.paths := paths;
    }

    /** `draw_image` for window `pid` with majority label `lab`: make the
        style directory, skip an existing image unless `override`, else save
        it (the plotting is not modelled). */
    method DrawImage(pid: nat, lab: int, base: string, style: Style, override: bool) returns (drawn: bool)
      modifies this
      ensures (paths, drawn) == DrawEffect(old(paths), StyleDir(base, style), ImagePath(StyleDir(base, style), pid, lab), override)
    {
      var dir := StyleDir(base, style);
      if dir !in paths {
        paths := paths + {dir};
      }
      assert paths == old(paths) + {dir};
      var img := ImagePath(dir, pid, lab);
      if img in paths && !override {
        return false;
      }
      paths := paths + {img};
      return true;
    }
  }

  /** One worker task: window index, window, label and the drawing options. */
  datatype Task = Task(idx: nat, window: seq<Frame>, lab: int, base: string, bgColor: string,
                       override: bool, style: Style)

  /** The task list of `construct_image`: task `i` carries index `i`,
      window `i` and `labels[i]`. `None` where `labels[idx]` raises
      `IndexError`, that is when there are fewer labels than windows. */
  method ConstructTasks(windows: seq<seq<Frame>>, labels: seq<int>, base: string, bgColor: string,
                        override: bool, style: Style)
    returns (r: Option<seq<Task>>)
    ensures r.Some? <==> |labels| >= |windows|
    ensures r.Some? ==> |r.value| == |windows| && forall i :: 0 <= i < |windows| ==>
      r.value[i] == Task(i, windows[i], labels[i], base, bgColor, override, style)
  {
    var tasks: seq<Task> := [];
    for idx := 0 to |windows|
      invariant |tasks| == idx
      invariant idx <= |labels| || idx == 0
      invariant forall i :: 0 <= i < idx ==> i < |labels| && tasks[i] == Task(i, windows[i], labels[i], base, bgColor, override, style)
    {
      if idx >= |labels| {
        return None;
      }
      tasks := tasks + [Task(idx, windows[idx], labels[idx], base, bgColor, override, style)];
    }
    return Some(tasks);
  }

  /** The tasks of one run draw to pairwise different image paths. */
  lemma TaskPathsDistinct(tasks: seq<Task>, dir: string, i: nat, j: nat)
    requires forall k :: 0 <= k < |tasks| ==> tasks[k].idx == k
    requires i < j < |tasks|
    ensures ImagePath(dir, tasks[i].idx, tasks[i].lab) != ImagePath(dir, tasks[j].idx, tasks[j].lab)
  {
    ImagePathsDistinct(dir, tasks[i].idx, tasks[i].lab, tasks[j].idx, tasks[j].lab);
  }

  /** `num_workers`, defaulting to one less than the number of CPUs but at
      least one. */
  function NumWorkers(numWorkers: Option<int>, cpuCount: int): (n: int)
    ensures numWorkers.Some? ==> n == numWorkers.value
    ensures numWorkers.None? ==> n >= 1 && n >= cpuCount - 1 && (n == 1 || n == cpuCount - 1)
  {
    if numWorkers.Some? then numWorkers.value
    else if cpuCount - 1 > 1 then cpuCount - 1 else 1
  }
}
