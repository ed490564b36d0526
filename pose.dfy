/** The pose files: one line per frame, `meta;meta;x0;y0;z0;x1;...;z25;`
    (joint-major), read into frames of shape (3 axes, 26 joints). */
module Pose {
  import opened Results
  import opened Text

  const Joints: nat := 26
  const Axes: nat := 3

  /** A coordinate, as its token; the float64 conversion is not modelled. */
  type Coord = string

  /** One frame: for each axis X, Y, Z, the values of the 26 joints. */
  type Frame = seq<seq<Coord>>

  predicate IsFrame(f: Frame)
  {
    |f| == Axes && forall c :: 0 <= c < Axes ==> |f[c]| == Joints
  }

  /** `np.reshape(xs, (26, 3))`: row `j` holds the three values of joint `j`. */
  function ReshapeJoints<T>(xs: seq<T>): (m: seq<seq<T>>)
    requires |xs| == Joints * Axes
    ensures |m| == Joints && forall j :: 0 <= j < Joints ==> m[j] == xs[Axes * j .. Axes * j + Axes]
  {
    seq(Joints, j requires 0 <= j < Joints => xs[Axes * j .. Axes * j + Axes])
  }

  /** `m.transpose()` of a matrix whose rows all have `cols` entries. */
  function Transpose<T>(m: seq<seq<T>>, cols: nat): seq<seq<T>>
    requires forall r :: 0 <= r < |m| ==> |m[r]| == cols
  {
    seq(cols, c requires 0 <= c < cols => seq(|m|, r requires 0 <= r < |m| => m[r][c]))
  }

  /** `pose_line.split(";")[2:-1]`: the tokens between the two metadata
      fields and the last field. */
  function CoordTokens(line: string): (r: seq<string>)
    ensures |r| == if |Split(line, ';')| >= 3 then |Split(line, ';')| - 3 else 0
  {
    var toks := Split(line, ';');
    if |toks| >= 3 then toks[2..|toks| - 1] else []
  }

  /** One pose line: reshaped to (26, 3) and transposed to (3, 26). It
      succeeds exactly when 78 coordinate tokens remain; value `c` of joint
      `j` is token `2 + 3 * j + c` of the line. */
  function ParsePoseLine(line: string): (r: Result<Frame, BuildError>)
    ensures r.Ok? <==> |Split(line, ';')| == 2 + Joints * Axes + 1
    ensures r.Err? ==> r.error == BadPoseLine(|CoordTokens(line)|)
    ensures r.Ok? ==> IsFrame(r.value)
  {
    var coords := CoordTokens(line);
    if |coords| != Joints * Axes then Err(BadPoseLine(|coords|))
    else Ok(Transpose(ReshapeJoints(coords), Axes))
  }

  /** Entry `c` of joint `j` of a read frame is token `2 + 3 * j + c`. */
  lemma ParsePoseLineAt(line: string, c: nat, j: nat)
    requires ParsePoseLine(line).Ok? && c < Axes && j < Joints
    ensures 2 + Axes * j + c < |Split(line, ';')|
    ensures ParsePoseLine(line).value[c][j] == Split(line, ';')[2 + Axes * j + c]
  {
    var toks := Split(line, ';');
    var coords := CoordTokens(line);
    var k := Axes * j + c;
    assert k < Joints * Axes;
    var m := ReshapeJoints(coords);
    assert m[j] == coords[Axes * j .. Axes * j + Axes];
    assert ParsePoseLine(line).value[c][j] == m[j][c] == coords[k];
    assert coords[k] == toks[2 + k];
  }

  /** A read frame holds the line's coordinate tokens, joint by joint. */
  lemma ParsePoseLineSpec(line: string)
    requires ParsePoseLine(line).Ok?
    ensures forall c, j :: 0 <= c < Axes && 0 <= j < Joints ==>
      ParsePoseLine(line).value[c][j] == Split(line, ';')[2 + Axes * j + c]
  {
    forall c, j | 0 <= c < Axes && 0 <= j < Joints
      ensures ParsePoseLine(line).value[c][j] == Split(line, ';')[2 + Axes * j + c]
    {
      ParsePoseLineAt(line, c, j);
    }
  }

  /** The coordinate tokens of a frame in file order: joint by joint, X, Y, Z. */
  function JointMajor(f: Frame): (r: seq<Coord>)
    requires IsFrame(f)
    ensures |r| == Joints * Axes
  {
    seq(Joints * Axes, i requires 0 <= i < Joints * Axes => f[i % Axes][i / Axes])
  }

  /** Token `3 * j + c` of the joint-major order is value `c` of joint `j`. */
  lemma JointMajorIndex(j: nat, c: nat)
    requires c < Axes
    ensures (Axes * j + c) % Axes == c && (Axes * j + c) / Axes == j
  {
  }

  /** A pose line as the recording tool writes it. */
  function FormatPoseLine(meta0: string, meta1: string, f: Frame, last: string): string
    requires IsFrame(f)
  {
    Join([meta0, meta1] + JointMajor(f) + [last], ';')
  }

  /** Reading a written frame back gives the frame, when no field holds a `;`. */
  lemma PoseLineRoundTrip(meta0: string, meta1: string, f: Frame, last: string)
    requires IsFrame(f)
    requires ';' !in meta0 && ';' !in meta1 && ';' !in last
    requires forall c, j :: 0 <= c < Axes && 0 <= j < Joints ==> ';' !in f[c][j]
    ensures ParsePoseLine(FormatPoseLine(meta0, meta1, f, last)) == Ok(f)
  {
    var body := JointMajor(f);
    var ts := [meta0, meta1] + body + [last];
    forall i | 0 <= i < |ts| ensures ';' !in ts[i] {
      if 2 <= i < |ts| - 1 {
        assert ts[i] == body[i - 2] == f[(i - 2) % Axes][(i - 2) / Axes];
      }
    }
    SplitJoin(ts, ';');
    var line := FormatPoseLine(meta0, meta1, f, last);
    assert Split(line, ';') == ts;
    assert CoordTokens(line) == body;
    assert |ts| == 2 + Joints * Axes + 1;
    assert ParsePoseLine(line).Ok?;
    var g := ParsePoseLine(line).value;
    forall c | 0 <= c < Axes ensures g[c] == f[c] {
      forall j | 0 <= j < Joints ensures g[c][j] == f[c][j] {
        ParsePoseLineAt(line, c, j);
        assert g[c][j] == ts[2 + Axes * j + c] == body[Axes * j + c];
        JointMajorIndex(j, c);
      }
      assert |g[c]| == |f[c]|;
    }
    assert |g| == |f|;
    assert g == f;
  }

  /** The frame loop of one pose file from line `i` on, appending to `acc`;
      the first malformed line stops it. */
  function PosesFrom(acc: seq<Frame>, lines: seq<string>, i: nat): Result<seq<Frame>, BuildError>
    decreases |lines| - i
  {
    if i >= |lines| then Ok(acc)
    else
      var f := ParsePoseLine(lines[i]);
      if f.Err? then Err(f.error) else PosesFrom(acc + [f.value], lines, i + 1)
  }

  /** All frames of a pose file. */
  function ParsePoseFile(lines: seq<string>): Result<seq<Frame>, BuildError>
  {
    PosesFrom([], lines, 0)
  }

  /** The loop from line `i` on reads when every remaining line is well formed. */
  lemma {:induction false} PosesFromOk(acc: seq<Frame>, lines: seq<string>, i: nat)
    requires i <= |lines|
    ensures PosesFrom(acc, lines, i).Ok? <==>
      forall k :: i <= k < |lines| ==> ParsePoseLine(lines[k]).Ok?
    decreases |lines| - i
  {
    if i < |lines| {
      var f := ParsePoseLine(lines[i]);
      if f.Ok? {
        PosesFromOk(acc + [f.value], lines, i + 1);
      } else {
        assert PosesFrom(acc, lines, i) == Err(f.error);
      }
    }
  }

  /** A read loop appends one frame per remaining line, frame by frame. */
  lemma {:induction false} PosesFromValues(acc: seq<Frame>, lines: seq<string>, i: nat)
    requires i <= |lines| && PosesFrom(acc, lines, i).Ok?
    ensures var fs := PosesFrom(acc, lines, i).value;
      && |fs| == |acc| + |lines| - i && fs[..|acc|] == acc
      && forall k :: i <= k < |lines| ==> ParsePoseLine(lines[k]) == Ok(fs[|acc| + k - i])
    decreases |lines| - i
  {
    if i < |lines| {
      var f := ParsePoseLine(lines[i]);
      var acc' := acc + [f.value];
      assert PosesFrom(acc, lines, i) == PosesFrom(acc', lines, i + 1);
      PosesFromValues(acc', lines, i + 1);
      var fs := PosesFrom(acc, lines, i).value;
      assert fs[..|acc'|] == acc';
      assert fs[..|acc|] == acc'[..|acc|] == acc;
      assert fs[|acc|] == acc'[|acc|] == f.value;
      forall k | i < k < |lines| ensures ParsePoseLine(lines[k]) == Ok(fs[|acc| + k - i]) {
        assert |acc| + k - i == |acc'| + k - (i + 1);
      }
    }
  }

  lemma PosesFromSpec(acc: seq<Frame>, lines: seq<string>, i: nat)
    requires i <= |lines|
    ensures PosesFrom(acc, lines, i).Ok? <==>
      forall k :: i <= k < |lines| ==> ParsePoseLine(lines[k]).Ok?
    ensures PosesFrom(acc, lines, i).Ok? ==>
      var fs := PosesFrom(acc, lines, i).value;
      && |fs| == |acc| + |lines| - i && fs[..|acc|] == acc
      && forall k :: i <= k < |lines| ==> ParsePoseLine(lines[k]) == Ok(fs[|acc| + k - i])
  {
    PosesFromOk(acc, lines, i);
    if PosesFrom(acc, lines, i).Ok? {
      PosesFromValues(acc, lines, i);
    }
  }

  /** A pose file is read when every line is well formed, and then it has
      one frame per line, frame `k` read from line `k`. */
  lemma ParsePoseFileSpec(lines: seq<string>)
    ensures ParsePoseFile(lines).Ok? <==> forall k :: 0 <= k < |lines| ==> ParsePoseLine(lines[k]).Ok?
    ensures ParsePoseFile(lines).Ok? ==>
      && |ParsePoseFile(lines).value| == |lines|
      && (forall k :: 0 <= k < |lines| ==> IsFrame(ParsePoseFile(lines).value[k]))
      && forall k :: 0 <= k < |lines| ==> ParsePoseLine(lines[k]) == Ok(ParsePoseFile(lines).value[k])
  {
    PosesFromSpec([], lines, 0);
    if ParsePoseFile(lines).Ok? {
      var fs := ParsePoseFile(lines).value;
      forall k | 0 <= k < |lines| ensures IsFrame(fs[k]) {
        assert ParsePoseLine(lines[k]) == Ok(fs[k]);
      }
    }
  }

  /** Reading a pose file frame by frame, as the source's loop does. */
  method ReadPoses(lines: seq<string>) returns (r: Result<seq<Frame>, BuildError>)
    ensures r == ParsePoseFile(lines)
  {
    var frames: seq<Frame> := [];
    for i := 0 to |lines|
      invariant PosesFrom(frames, lines, i) == ParsePoseFile(lines)
    {
      var f := ParsePoseLine(lines[i]);
      if f.Err? {
        return Err(f.error);
      }
      frames := frames + [f.value];
    }
    r := Ok(frames);
  }
}
