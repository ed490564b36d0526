/** The annotation file: one line per sequence,
    `file_name;label;start;end;label;start;end;...`, turned into a per-frame
    label array of 780 entries by stamping each span's label over its frames. */
module Annotation {
  import opened Results
  import opened Text
  import opened Numbers

  /** Room in the per-frame label array: the longest sequence assumed. */
  const MaxFrames: nat := 780

  /** The 16 gesture names and, last, the non-gesture name; a label is an
      index into this table. */
  const LabelMap: seq<string> := [
    "ONE", "TWO", "THREE", "FOUR", "OK", "MENU", "LEFT", "RIGHT",
    "CIRCLE", "V", "CROSS", "GRAB", "PINCH", "DENY", "WAVE", "KNOB",
    "nongesture"
  ]

  /** The label of frames no span covers. */
  const NonGesture: nat := 16

  predicate IsLabel(v: nat) { v < |LabelMap| }

  lemma LabelMapDistinct()
    ensures |LabelMap| == 17 && LabelMap[NonGesture] == "nongesture"
    ensures forall i, j :: 0 <= i < j < |LabelMap| ==> LabelMap[i] != LabelMap[j]
  {
  }

  /** `label_map.index(name)`; `None` where Python raises `ValueError`. */
  function LabelIndex(name: string): (r: Option<nat>)
    ensures r.Some? <==> name in LabelMap
    ensures r.Some? ==> IsLabel(r.value) && LabelMap[r.value] == name
  {
    IndexOf(LabelMap, name)
  }

  /** Every name in the table is found at its own position. */
  lemma LabelIndexOfName(i: nat)
    requires i < |LabelMap|
    ensures LabelIndex(LabelMap[i]) == Some(i)
  {
    LabelMapDistinct();
  }

  /** `raw.strip('\n').split(";")`, then `line.remove('')` when `'' in line`. */
  function Tokenize(raw: string): seq<string>
  {
    RemoveFirst(Split(Strip(raw, {'\n'}), ';'), "")
  }

  /** Only the first empty token is removed; a later empty token (an empty
      field in the middle, a second trailing `;`) survives. */
  lemma TokenizeDropsFirstEmpty(raw: string, i: nat)
    requires var toks := Split(Strip(raw, {'\n'}), ';');
      i < |toks| && toks[i] == "" && "" !in toks[..i]
    ensures var toks := Split(Strip(raw, {'\n'}), ';');
      Tokenize(raw) == toks[..i] + toks[i + 1..]
  {
    var toks := Split(Strip(raw, {'\n'}), ';');
    forall k | 0 <= k < i ensures toks[k] != "" {
      assert toks[k] == toks[..i][k];
    }
    RemoveFirstAt(toks, "", i);
  }

  /** A line's file name (token 0) and its gesture tokens (from token 1 on). */
  function ParseLine(raw: string): (r: Result<(string, seq<string>), BuildError>)
    ensures r.Ok? <==> |Tokenize(raw)| > 0
    ensures r.Ok? ==> r.value.0 == Tokenize(raw)[0] && r.value.1 == Tokenize(raw)[1..]
    ensures r.Err? ==> r.error == EmptyAnnotationLine
  {
    var toks := Tokenize(raw);
    if |toks| == 0 then Err(EmptyAnnotationLine) else Ok((toks[0], toks[1..]))
  }

  /** Exactly the lines that are empty once their newlines are stripped have
      no file name (`line[0]` raises). */
  lemma ParseLineFailsOnBlank(raw: string)
    ensures ParseLine(raw).Err? <==> Strip(raw, {'\n'}) == ""
  {
    var s := Strip(raw, {'\n'});
    var toks := Split(s, ';');
    if s == "" {
      assert toks == [""];
    } else if |toks| == 1 {
      JoinSplit(s, ';');
      assert toks == [s];
      assert "" !in toks;
    } else {
      assert |Tokenize(raw)| >= |toks| - 1;
    }
  }

  /** One `(label, start, end)` triplet: the label's index and the two frame
      numbers as written (the end is inclusive). */
  datatype Span = Span(gesture: nat, start: int, end: int)

  /** The triplet at `idx`: `int()` of the start, then of the end, then the
      label lookup, each failing as Python does. */
  function ParseTriplet(toks: seq<string>, idx: nat): (r: Result<Span, BuildError>)
    requires idx < |toks|
    ensures r.Ok? ==>
      && idx + 2 < |toks| && IsLabel(r.value.gesture)
      && LabelMap[r.value.gesture] == toks[idx]
      && ParseInt(toks[idx + 1]) == Some(r.value.start)
      && ParseInt(toks[idx + 2]) == Some(r.value.end)
    ensures r.Ok? <==>
      && idx + 2 < |toks| && toks[idx] in LabelMap
      && ParseInt(toks[idx + 1]).Some? && ParseInt(toks[idx + 2]).Some?
    ensures idx + 1 >= |toks| ==> r == Err(MissingSpanToken(idx + 1))
    ensures idx + 1 < |toks| && ParseInt(toks[idx + 1]).None? ==> r == Err(NotAnInteger(toks[idx + 1]))
    ensures (idx + 2 < |toks| && ParseInt(toks[idx + 1]).Some? && ParseInt(toks[idx + 2]).Some?
             && toks[idx] !in LabelMap) ==> r == Err(UnknownLabel(toks[idx]))
  {
    if idx + 1 >= |toks| then Err(MissingSpanToken(idx + 1))
    else
      match ParseInt(toks[idx + 1])
      case None => Err(NotAnInteger(toks[idx + 1]))
      case Some(s) =>
        if idx + 2 >= |toks| then Err(MissingSpanToken(idx + 2))
        else
          match ParseInt(toks[idx + 2])
          case None => Err(NotAnInteger(toks[idx + 2]))
          case Some(e) =>
            match LabelIndex(toks[idx])
            case None => Err(UnknownLabel(toks[idx]))
            case Some(v) => Ok(Span(v, s, e))
  }

  /** A Python slice bound on a sequence of length `n`: negative counts from
      the end, and both ends are clamped into `[0, n]`. */
  function SliceIndex(i: int, n: nat): (r: nat)
    ensures r <= n
    ensures 0 <= i <= n ==> r == i
  {
    if i < 0 then (if i + n < 0 then 0 else i + n) else if i > n then n else i
  }

  /** Where `gt[start : end + 1]` begins, and how many entries it has. */
  function SliceLo(sp: Span, n: nat): nat { SliceIndex(sp.start, n) }

  function SliceLength(sp: Span, n: nat): (len: nat)
    ensures SliceLo(sp, n) + len <= n
  {
    var lo, hi := SliceIndex(sp.start, n), SliceIndex(sp.end + 1, n);
    if hi > lo then hi - lo else 0
  }

  /** `len([v] * (end - start + 1))`. */
  function RhsLength(sp: Span): nat
  {
    if sp.end - sp.start + 1 > 0 then sp.end - sp.start + 1 else 0
  }

  /** Numpy accepts the assignment when the lengths agree or the right-hand
      side has one element (it is broadcast). */
  predicate Fits(sp: Span, n: nat)
  {
    RhsLength(sp) == SliceLength(sp, n) || RhsLength(sp) == 1
  }

  /** Frame `i` is one the slice assignment overwrites. */
  predicate Covers(sp: Span, i: int, n: nat)
  {
    SliceLo(sp, n) <= i < SliceLo(sp, n) + SliceLength(sp, n)
  }

  /** `gt[start : end + 1] = [label] * (end - start + 1)`. */
  function Stamp(gt: seq<nat>, sp: Span): (r: Result<seq<nat>, BuildError>)
    ensures r.Ok? <==> Fits(sp, |gt|)
    ensures r.Ok? ==> |r.value| == |gt|
    ensures r.Err? ==> r.error == SpanShapeMismatch(sp.start, sp.end)
  {
    if Fits(sp, |gt|) then
      Ok(seq(|gt|, i requires 0 <= i < |gt| => if Covers(sp, i, |gt|) then sp.gesture else gt[i]))
    else Err(SpanShapeMismatch(sp.start, sp.end))
  }

  /** A span inside the array that is not reversed by more than one frame is
      accepted and covers exactly frames `start..end`. */
  lemma InRangeSpan(sp: Span, n: nat)
    requires 0 <= sp.start <= sp.end + 1 && sp.end < n
    ensures Fits(sp, n)
    ensures forall i :: Covers(sp, i, n) <==> sp.start <= i <= sp.end
  {
  }

  /** A span that starts inside the array and runs past its end is refused. */
  lemma OverrunSpan(sp: Span, n: nat)
    requires 0 <= sp.start < n <= sp.end
    ensures !Fits(sp, n)
  {
  }

  /** The per-frame labels before any span is stamped. */
  function InitialLabels(): seq<nat> { seq(MaxFrames, _ => NonGesture) }

  /** The triplet loop over the gesture tokens from `idx` on, stamping into `gt`. */
  function StampFrom(gt: seq<nat>, toks: seq<string>, idx: nat): Result<seq<nat>, BuildError>
    decreases |toks| - idx
  {
    if idx >= |toks| then Ok(gt)
    else
      match ParseTriplet(toks, idx)
      case Err(e) => Err(e)
      case Ok(sp) =>
        match Stamp(gt, sp)
        case Err(e) => Err(e)
        case Ok(g) => StampFrom(g, toks, idx + 3)
  }

  /** The per-frame label array of one annotation line's gesture tokens. */
  function LabelArray(toks: seq<string>): Result<seq<nat>, BuildError>
  {
    StampFrom(InitialLabels(), toks, 0)
  }

  predicate AllLabels(spans: seq<Span>)
  {
    forall j :: 0 <= j < |spans| ==> IsLabel(spans[j].gesture)
  }

  lemma AllLabelsCons(sp: Span, spans: seq<Span>)
    requires IsLabel(sp.gesture) && AllLabels(spans)
    ensures AllLabels([sp] + spans)
  {
    forall j | 0 <= j < |spans| + 1 ensures IsLabel(([sp] + spans)[j].gesture) {
      if j > 0 {
        assert ([sp] + spans)[j] == spans[j - 1];
      }
    }
  }

  /** The triplets from `idx` on, parsed; the first failure if one fails. */
  function ParseSpans(toks: seq<string>, idx: nat): (r: Result<seq<Span>, BuildError>)
    ensures r.Ok? ==> AllLabels(r.value)
    decreases |toks| - idx
  {
    if idx >= |toks| then Ok([])
    else
      var head := ParseTriplet(toks, idx);
      if head.Err? then Err(head.error)
      else
        var rest := ParseSpans(toks, idx + 3);
        if rest.Err? then rest
        else
          AllLabelsCons(head.value, rest.value);
          Ok([head.value] + rest.value)
  }

  /** The number of triplets read from `idx` on: one per started group of three. */
  function TripletCount(n: nat, idx: nat): nat
  {
    if idx >= n then 0 else (n - idx + 2) / 3
  }

  /** `j` is where a triplet starts when reading from `idx` in steps of three. */
  predicate TripletStart(idx: nat, j: nat)
    decreases j - idx
  {
    j == idx || (idx + 3 <= j && TripletStart(idx + 3, j))
  }

  lemma TripletStartStep(idx: nat, j: nat)
    ensures TripletStart(idx, j) && j != idx <==> TripletStart(idx + 3, j)
  {
  }

  /** The span list parses exactly when every triplet from `idx` on does. */
  lemma {:induction false} ParseSpansOk(toks: seq<string>, idx: nat)
    ensures ParseSpans(toks, idx).Ok? <==>
      forall j: nat :: TripletStart(idx, j) && j < |toks| ==> ParseTriplet(toks, j).Ok?
    decreases |toks| - idx
  {
    if idx >= |toks| {
      ParseSpansOkEnd(toks, idx);
    } else if ParseTriplet(toks, idx).Err? {
      ParseSpansOkFail(toks, idx);
    } else {
      ParseSpansOk(toks, idx + 3);
      ParseSpansOkStep(toks, idx);
    }
  }

  /** Past the end there is no triplet, and the empty list parses. */
  lemma ParseSpansOkEnd(toks: seq<string>, idx: nat)
    requires idx >= |toks|
    ensures ParseSpans(toks, idx).Ok? <==>
      forall j: nat :: TripletStart(idx, j) && j < |toks| ==> ParseTriplet(toks, j).Ok?
  {
  }

  /** A bad triplet at `idx` fails both sides. */
  lemma ParseSpansOkFail(toks: seq<string>, idx: nat)
    requires idx < |toks| && ParseTriplet(toks, idx).Err?
    ensures ParseSpans(toks, idx).Err?
    ensures exists j: nat :: TripletStart(idx, j) && j < |toks| && !ParseTriplet(toks, j).Ok?
  {
    assert TripletStart(idx, idx);
  }

  /** One step of `ParseSpansOk`: past a good first triplet, the triplets
      from `idx` are that one and the triplets from `idx + 3`. */
  lemma ParseSpansOkStep(toks: seq<string>, idx: nat)
    requires idx < |toks| && ParseTriplet(toks, idx).Ok?
    requires ParseSpans(toks, idx + 3).Ok? <==>
      forall j: nat :: TripletStart(idx + 3, j) && j < |toks| ==> ParseTriplet(toks, j).Ok?
    ensures ParseSpans(toks, idx).Ok? <==>
      forall j: nat :: TripletStart(idx, j) && j < |toks| ==> ParseTriplet(toks, j).Ok?
  {
    forall j: nat | j < |toks|
      ensures TripletStart(idx, j) && j != idx <==> TripletStart(idx + 3, j)
    {
      TripletStartStep(idx, j);
    }
  }

  /** Triplet number `m` when reading from `idx`: the one at `idx + 3 * m`. */
  function TripletAt(toks: seq<string>, idx: nat, m: nat): Result<Span, BuildError>
  {
    if idx + 3 * m < |toks| then ParseTriplet(toks, idx + 3 * m) else Err(MissingSpanToken(idx + 3 * m))
  }

  lemma TripletAtStep(toks: seq<string>, idx: nat, m: nat)
    requires m > 0
    ensures TripletAt(toks, idx, m) == TripletAt(toks, idx + 3, m - 1)
  {
    assert idx + 3 * m == (idx + 3) + 3 * (m - 1);
  }

  /** Span `m` of `spans` is triplet number `m` from `idx`. */
  predicate SpansAt(toks: seq<string>, idx: nat, spans: seq<Span>)
  {
    forall m: nat :: m < |spans| ==> TripletAt(toks, idx, m) == Ok(spans[m])
  }

  /** A parsed span list holds one span per triplet, in order. */
  lemma {:induction false} ParseSpansValues(toks: seq<string>, idx: nat)
    requires ParseSpans(toks, idx).Ok?
    ensures |ParseSpans(toks, idx).value| == TripletCount(|toks|, idx)
    ensures SpansAt(toks, idx, ParseSpans(toks, idx).value)
    decreases |toks| - idx
  {
    if idx < |toks| {
      ParseSpansValues(toks, idx + 3);
      TripletCountStep(|toks|, idx);
      assert TripletAt(toks, idx, 0) == ParseTriplet(toks, idx);
      SpansAtCons(toks, idx, ParseTriplet(toks, idx).value, ParseSpans(toks, idx + 3).value);
    }
  }

  /** A span for the triplet at `idx` in front of the spans from `idx + 3`. */
  lemma SpansAtCons(toks: seq<string>, idx: nat, head: Span, rest: seq<Span>)
    requires TripletAt(toks, idx, 0) == Ok(head)
    requires SpansAt(toks, idx + 3, rest)
    ensures SpansAt(toks, idx, [head] + rest)
  {
    var spans := [head] + rest;
    forall m: nat | m < |spans|
      ensures TripletAt(toks, idx, m) == Ok(spans[m])
    {
      if m > 0 {
        assert spans[m] == rest[m - 1];
        TripletAtStep(toks, idx, m);
      }
    }
  }

  lemma TripletCountStep(n: nat, idx: nat)
    requires idx < n
    ensures TripletCount(n, idx) == TripletCount(n, idx + 3) + 1
  {
  }

  /** Stamping a list of spans in order; the first refused one stops it. */
  function StampSpans(gt: seq<nat>, spans: seq<Span>): Result<seq<nat>, BuildError>
    decreases |spans|
  {
    if |spans| == 0 then Ok(gt)
    else
      match Stamp(gt, spans[0])
      case Err(e) => Err(e)
      case Ok(g) => StampSpans(g, spans[1..])
  }

  /** The interleaved parse-and-stamp loop succeeds only when every triplet
      parses, and then it is stamping the parsed spans in order. */
  lemma {:induction false} StampFromSpans(gt: seq<nat>, toks: seq<string>, idx: nat)
    ensures StampFrom(gt, toks, idx).Ok? ==> ParseSpans(toks, idx).Ok?
    ensures ParseSpans(toks, idx).Ok? ==>
      StampFrom(gt, toks, idx) == StampSpans(gt, ParseSpans(toks, idx).value)
    decreases |toks| - idx
  {
    if idx < |toks| && ParseTriplet(toks, idx).Ok? {
      var sp := ParseTriplet(toks, idx).value;
      if Stamp(gt, sp).Ok? {
        StampFromSpans(Stamp(gt, sp).value, toks, idx + 3);
        if ParseSpans(toks, idx).Ok? {
          assert ParseSpans(toks, idx).value[1..] == ParseSpans(toks, idx + 3).value;
        }
      } else if ParseSpans(toks, idx).Ok? {
        assert ParseSpans(toks, idx).value[0] == sp;
      }
    }
  }

  /** Stamping keeps the length and only ever writes label indices. */
  lemma {:induction false} StampSpansLabels(gt: seq<nat>, spans: seq<Span>)
    requires forall k :: 0 <= k < |gt| ==> IsLabel(gt[k])
    requires AllLabels(spans)
    ensures StampSpans(gt, spans).Ok? ==> |StampSpans(gt, spans).value| == |gt|
    ensures StampSpans(gt, spans).Ok? ==>
      forall k :: 0 <= k < |gt| ==> IsLabel(StampSpans(gt, spans).value[k])
    decreases |spans|
  {
    if |spans| > 0 && Stamp(gt, spans[0]).Ok? {
      StampSpansLabels(Stamp(gt, spans[0]).value, spans[1..]);
    }
  }

  /** Span `j` covers frame `k` and no later span does. */
  predicate LastCover(spans: seq<Span>, j: int, k: int, n: nat)
  {
    && 0 <= j < |spans| && Covers(spans[j], k, n)
    && forall j' :: j < j' < |spans| ==> !Covers(spans[j'], k, n)
  }

  /** Last write wins: a frame no span covers keeps its value, and a covered
      frame holds the label of the last span (in line order) covering it. */
  lemma {:induction false} StampSpansLastWins(gt: seq<nat>, spans: seq<Span>, k: nat)
    requires StampSpans(gt, spans).Ok? && k < |gt|
    ensures |StampSpans(gt, spans).value| == |gt|
    ensures (forall j :: 0 <= j < |spans| ==> !Covers(spans[j], k, |gt|)) ==>
      StampSpans(gt, spans).value[k] == gt[k]
    ensures forall j :: LastCover(spans, j, k, |gt|) ==> StampSpans(gt, spans).value[k] == spans[j].gesture
    decreases |spans|
  {
    if |spans| > 0 {
      var g := Stamp(gt, spans[0]).value;
      StampSpansLastWins(g, spans[1..], k);
      forall j | LastCover(spans, j, k, |gt|)
        ensures StampSpans(gt, spans).value[k] == spans[j].gesture
      {
        if j == 0 {
          assert forall j' :: 0 <= j' < |spans| - 1 ==> !Covers(spans[1..][j'], k, |gt|) by {
            forall j' | 0 <= j' < |spans| - 1 ensures !Covers(spans[1..][j'], k, |gt|) {
              assert spans[1..][j'] == spans[j' + 1];
            }
          }
        } else {
          assert spans[1..][j - 1] == spans[j];
          assert forall j' :: j - 1 < j' < |spans| - 1 ==> !Covers(spans[1..][j'], k, |gt|) by {
            forall j' | j - 1 < j' < |spans| - 1 ensures !Covers(spans[1..][j'], k, |gt|) {
              assert spans[1..][j'] == spans[j' + 1];
            }
          }
        }
      }
      if forall j :: 0 <= j < |spans| ==> !Covers(spans[j], k, |gt|) {
        assert !Covers(spans[0], k, |gt|);
        assert forall j :: 0 <= j < |spans| - 1 ==> spans[1..][j] == spans[j + 1];
      }
    }
  }

  /** The label array of an annotation line has 780 entries, each a label
      index in 0..16. */
  lemma LabelArrayShape(toks: seq<string>)
    requires LabelArray(toks).Ok?
    ensures |LabelArray(toks).value| == MaxFrames
    ensures forall k :: 0 <= k < MaxFrames ==> IsLabel(LabelArray(toks).value[k])
  {
    StampFromSpans(InitialLabels(), toks, 0);
    StampSpansLabels(InitialLabels(), ParseSpans(toks, 0).value);
  }

  /** The label array in terms of the line's parsed spans: 16 where no span
      covers the frame, otherwise the label of the last covering span. */
  lemma LabelArrayLastWins(toks: seq<string>, k: nat)
    requires LabelArray(toks).Ok? && k < MaxFrames
    ensures ParseSpans(toks, 0).Ok? && |LabelArray(toks).value| == MaxFrames
    ensures var spans := ParseSpans(toks, 0).value;
      (forall j :: 0 <= j < |spans| ==> !Covers(spans[j], k, MaxFrames)) ==>
      LabelArray(toks).value[k] == NonGesture
    ensures var spans := ParseSpans(toks, 0).value;
      forall j :: LastCover(spans, j, k, MaxFrames) ==> LabelArray(toks).value[k] == spans[j].gesture
  {
    StampFromSpans(InitialLabels(), toks, 0);
    StampSpansLastWins(InitialLabels(), ParseSpans(toks, 0).value, k);
  }

  /** A line's label array exists only when every one of its triplets
      parses: an unknown gesture name or a bad number anywhere refuses the line. */
  lemma LabelArrayNeedsAllTriplets(toks: seq<string>)
    requires LabelArray(toks).Ok?
    ensures forall j: nat :: TripletStart(0, j) && j < |toks| ==>
      ParseTriplet(toks, j).Ok? && toks[j] in LabelMap
  {
    StampFromSpans(InitialLabels(), toks, 0);
    ParseSpansOk(toks, 0);
  }

  /** The slice assignment on the label array, in place. */
  method StampSpan(gt: array<nat>, sp: Span) returns (ok: bool)
    modifies gt
    ensures Stamp(old(gt[..]), sp) == if ok then Ok(gt[..]) else Err(SpanShapeMismatch(sp.start, sp.end))
  {
    var n := gt.Length;
    if !Fits(sp, n) {
      return false;
    }
    var lo, len := SliceLo(sp, n), SliceLength(sp, n);
    for i := lo to lo + len
      invariant forall k :: 0 <= k < n ==> gt[k] == if lo <= k < i then sp.gesture else old(gt[k])
    {
      gt[i] := sp.gesture;
    }
    assert gt[..] == Stamp(old(gt[..]), sp).value;
    ok := true;
  }

  /** The label array of one line, built as the source builds it: an array
      filled with the non-gesture label, then each triplet in turn parsed and
      stamped in place. */
  method BuildLabels(toks: seq<string>) returns (r: Result<seq<nat>, BuildError>)
    ensures r == LabelArray(toks)
  {
    var gt := new nat[MaxFrames](_ => NonGesture);
    assert gt[..] == InitialLabels();
    var idx := 0;
    while idx < |toks|
      invariant StampFrom(gt[..], toks, idx) == LabelArray(toks)
      decreases |toks| - idx
    {
      var parsed := ParseTriplet(toks, idx);
      if parsed.Err? {
        return Err(parsed.error);
      }
      var ok := StampSpan(gt, parsed.value);
      if !ok {
        return Err(SpanShapeMismatch(parsed.value.start, parsed.value.end));
      }
      idx := idx + 3;
    }
    r := Ok(gt[..]);
  }
}
