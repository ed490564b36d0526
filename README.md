# SHREC 2022 window builder and image bookkeeping, in Dafny

This project models the two pieces of the SHREC 2022 gesture pipeline that
have a precise meaning, and proves properties of the model.

**The window builder `Dataset_shrec22`.** It reads `annotations.txt`. Each
line is `file_name;label;start;end;...` and is processed as follows:

- The line is split on `;` and its first empty token is dropped.
- A 780-entry per-frame label array is built. It starts filled with label 16
  (`nongesture`), and each `(label, start, end)` triplet is stamped over it
  in place.
- The sequence's pose file is read. Each line's 78 coordinate tokens are
  reshaped to (26, 3) and transposed to (3, 26).
- A window of `w` frames is slid over the file with step `stride`. For each
  window it appends the frames, the source name, the majority label, the
  label slice and the `(first, last)` frame numbers to parallel list fields.

The model also covers:

- the name filter, the `max_files` cap and the rule that a missing pose file
  is skipped without being counted;
- `__len__` and `__getitem__`;
- the names of the `.npy` files the arrays are saved to, and the save's
  refusal of label windows of unequal length.

**The image generator's bookkeeping (`draw_image`, `construct_image`).** This
covers:

- the style directory;
- the image file name `{pid + 1}_label{label}.png`;
- the rule that skips an existing image unless `override` is set;
- the colour index of each joint;
- the task list handed to the worker pool;
- the default number of workers.

Modules, in dependency order:

| module | file | content |
|---|---|---|
| `Results` | results.dfy | `Option`, `Result` and the builder's error cases. Each error is the Python exception raised at that point. |
| `Text` | text.dfy | `split`/`join`, `strip`, `list.remove`, `list.index`, `str.replace`, POSIX `os.path.join` and `os.path.splitext`. |
| `Numbers` | numbers.dfy | `str()` of integers and `int()` of tokens. |
| `Annotation` | annotation.dfy | Line tokenising, triplet parsing and the label array. The array is built both as a function and by an in-place method on an `array<nat>`. |
| `Pose` | pose.dfy | Reading a pose line and the frame loop over a pose file. |
| `Windows` | windows.dfy | `range(0, n - w, stride)`, `bincount`, the majority label and one window. |
| `Dataset` | dataset.dfy | The annotation loop and the sliding-window loop as functions on the list fields, with their invariants. |
| `Builder` | builder.dfy | The class `WindowDataset` with its list fields. Its methods run the two loops in place and are proved to do what the `Dataset` functions describe. Also `__len__`, `__getitem__` and the save names. |
| `Draw` | draw.dfy | Paths, the skip rule against a set of existing paths (class `ImageStore`), colours and tasks. |

The file system is an input:

- `Files` maps each path that exists to its lines.
- `draw_image` sees a set of existing paths.
- The script directory, `cpu_count()` and the coordinates' text are parameters.

Where the documentation and the code disagree, the model follows the code.

- The window starts come from `range(0, n - w, stride)`. That range stops
  before `n - w`, so the last full window is never emitted.
- With 780 frames, `w = 16` and `stride = 1` that gives 764 windows, not 765
  (`Windows.FullSequenceWindowCount`).
- Nothing is emitted when `n <= w`.

The builder's docstring says `max_files` counts files "after any filtering".
The code also leaves uncounted a file whose pose file is missing, and the
model does the same.

## Model

| member | source | states |
|---|---|---|
| Text.Split | shrec22/prepare_window/shrec22_prepare_window.py:93 | `split(";")` gives at least one piece, and no piece contains the separator |
| Text.JoinSplit | shrec22/prepare_window/shrec22_prepare_window.py:93 | joining the pieces of a split with the separator gives back the string |
| Text.SplitJoin | shrec22/prepare_window/shrec22_prepare_window.py:122 | splitting a join of separator-free pieces gives back exactly those pieces |
| Text.TrimLeft | shrec22/prepare_window/shrec22_prepare_window.py:93 | the result is a suffix of the input, every dropped character is in the set, and the first kept one is not |
| Text.TrimRight | shrec22/prepare_window/shrec22_prepare_window.py:93 | the result is a prefix of the input, every dropped character is in the set, and the last kept one is not |
| Text.Strip | shrec22/prepare_window/shrec22_prepare_window.py:93 | `strip('\n')` leaves no stripped character at either end, leaves a string without one unchanged, and is an infix of the input with only stripped characters cut from either side |
| Text.TrimLeftPadded | shrec22/prepare_window/shrec22_prepare_window.py:110-111 | `lstrip` cuts exactly a leading run of stripped characters in front of a kept one |
| Text.TrimRightPadded | shrec22/prepare_window/shrec22_prepare_window.py:110-111 | `rstrip` cuts exactly a trailing run of stripped characters after a kept one |
| Text.StripPadded | shrec22/prepare_window/shrec22_prepare_window.py:110-111 | stripping a padded middle that neither starts nor ends with a stripped character gives exactly that middle |
| Text.RemoveFirst | shrec22/prepare_window/shrec22_prepare_window.py:94-95 | `if '' in line: line.remove('')` leaves a line without `''` unchanged and otherwise removes exactly one token |
| Text.RemoveFirstCount | shrec22/prepare_window/shrec22_prepare_window.py:94-95 | the removal takes one occurrence out of the multiset of tokens and changes nothing else |
| Text.RemoveFirstAt | shrec22/prepare_window/shrec22_prepare_window.py:94-95 | only the first occurrence goes: the result is the tokens before it, then the tokens after it |
| Text.IndexOf | shrec22/prepare_window/shrec22_prepare_window.py:112 | `list.index` succeeds exactly when the element is present, and then gives its first position |
| Text.ReplaceAll | shrec22/draw/shrec22_draw_3stack.py:98 | `str.replace`; specified by `Text.ReplaceChar` (a one-character pattern) and `Text.ReplaceAbsent` (a pattern that never occurs) |
| Text.ReplaceChar | shrec22/draw/shrec22_draw_3stack.py:98 | replacing one character by another keeps the length and changes exactly the positions that held it |
| Text.ReplaceAbsent | shrec22/draw/shrec22_draw_3stack.py:98 | a pattern whose first character never occurs leaves the string unchanged |
| Text.PathJoin | shrec22/prepare_window/shrec22_prepare_window.py:114 | POSIX `os.path.join`: an absolute second part wins, otherwise exactly one `/` ends up between the two parts |
| Text.LastIndexOf | shrec22/prepare_window/shrec22_prepare_window.py:85 | the last position of a character, found exactly when it occurs |
| Text.SplitExtRoot | shrec22/prepare_window/shrec22_prepare_window.py:85 | `splitext(f)[0]` is a prefix of the name, and is either the whole name or stops at the last `.` of the last path component, with no `/` after it |
| Text.SplitExtTxt | shrec22/prepare_window/shrec22_prepare_window.py:83-86 | a plain name given as `name.txt` loses exactly its extension |
| Text.SplitExtNoDot | shrec22/prepare_window/shrec22_prepare_window.py:83-86 | a name without a dot is its own root |
| Numbers.DigitChar | shrec22/draw/shrec22_draw_3stack.py:103 | the character of a decimal digit is a digit and has that value |
| Numbers.NatToString | shrec22/draw/shrec22_draw_3stack.py:103 | `str(n)` is a non-empty digit string with no leading zero |
| Numbers.IntToString | shrec22/draw/shrec22_draw_3stack.py:103 | `str(i)` starts with `-` exactly when `i` is negative, and is all digits otherwise |
| Numbers.DigitsOfNat | shrec22/draw/shrec22_draw_3stack.py:103 | the digits `str(n)` writes denote `n` |
| Numbers.NatToStringInjective | shrec22/draw/shrec22_draw_3stack.py:103 | different numbers have different decimal texts |
| Numbers.DigitRunPrefix | shrec22/draw/shrec22_draw_3stack.py:103 | a digit run that ends at a non-digit is determined by the text it starts |
| Numbers.ParseInt | shrec22/prepare_window/shrec22_prepare_window.py:110-111 | `int(token)` only accepts a token that is not blank once stripped, and reads a token without whitespace as `ParseSigned` does |
| Numbers.ParseSigned | shrec22/prepare_window/shrec22_prepare_window.py:110-111 | a token reads exactly when it is one or more digits, optionally after one `-` or `+`; digits read as the number they denote, and `+` changes nothing |
| Numbers.ParseIntPadded | shrec22/prepare_window/shrec22_prepare_window.py:110-111 | `int()` ignores whitespace around the numeral: a padded token reads as its unpadded middle |
| Numbers.StripNumeral | shrec22/prepare_window/shrec22_prepare_window.py:110-111 | a numeral has no whitespace for `int()` to strip |
| Numbers.SignedRoundTrip | shrec22/prepare_window/shrec22_prepare_window.py:110-111 | reading back the text `str(i)` gives `i` |
| Numbers.ParseSignedNegative | shrec22/prepare_window/shrec22_prepare_window.py:110-111 | a minus sign before a digit run reads as the negated number |
| Numbers.IntRoundTrip | shrec22/prepare_window/shrec22_prepare_window.py:110-111 | `int(str(i)) == i` for every integer |
| Annotation.LabelMapDistinct | shrec22/prepare_window/shrec22_prepare_window.py:73-77 | the table has 17 pairwise different names, and `nongesture` is at index 16 |
| Annotation.LabelIndex | shrec22/prepare_window/shrec22_prepare_window.py:112 | `label_map.index(name)` succeeds exactly for the 17 names, with a label index whose table entry is that name |
| Annotation.LabelIndexOfName | shrec22/prepare_window/shrec22_prepare_window.py:73-77 | every name is found at its own position |
| Annotation.Tokenize | shrec22/prepare_window/shrec22_prepare_window.py:93-95 | `raw.strip('\n').split(";")` less its first `''`; specified by `Annotation.TokenizeDropsFirstEmpty` |
| Annotation.TokenizeDropsFirstEmpty | shrec22/prepare_window/shrec22_prepare_window.py:93-95 | tokenising removes the first empty token only; later empty tokens stay in place |
| Annotation.ParseLine | shrec22/prepare_window/shrec22_prepare_window.py:93-104 | the file name is token 0 and the gesture tokens start at token 1; a line with no token raises |
| Annotation.ParseLineFailsOnBlank | shrec22/prepare_window/shrec22_prepare_window.py:96 | `line[0]` raises exactly for the lines that are empty once their newlines are stripped |
| Annotation.ParseTriplet | shrec22/prepare_window/shrec22_prepare_window.py:108-112 | a triplet parses exactly when its two integer tokens exist and read and its name is in the table, and then gives that label and those numbers; otherwise it raises the first error in the order the code meets them: a missing token, a bad integer, an unknown name |
| Annotation.SliceIndex | shrec22/prepare_window/shrec22_prepare_window.py:112 | a Python slice bound is clamped into the array and is itself when already inside |
| Annotation.SliceLength | shrec22/prepare_window/shrec22_prepare_window.py:112 | the slice `gt[s : e + 1]` lies within the array |
| Annotation.Stamp | shrec22/prepare_window/shrec22_prepare_window.py:112 | the slice assignment succeeds exactly when numpy accepts the shapes, keeps the length, and otherwise raises the shape error |
| Annotation.InRangeSpan | shrec22/prepare_window/shrec22_prepare_window.py:112 | a span inside the array is accepted and overwrites exactly frames `s..e` |
| Annotation.OverrunSpan | shrec22/prepare_window/shrec22_prepare_window.py:112 | a span that starts inside the array and runs past frame 779 is refused |
| Annotation.AllLabelsCons | shrec22/prepare_window/shrec22_prepare_window.py:108-112 | adding a triplet with a label index in front keeps every triplet's label a label index |
| Annotation.ParseSpans | shrec22/prepare_window/shrec22_prepare_window.py:108-111 | every parsed triplet's label is a label index |
| Annotation.ParseSpansOk | shrec22/prepare_window/shrec22_prepare_window.py:108-112 | the triplet list parses exactly when the triplet at every start `idx, idx + 3, ...` inside the line parses |
| Annotation.ParseSpansOkEnd | shrec22/prepare_window/shrec22_prepare_window.py:108 | past the end of the line there is no triplet and the empty list parses |
| Annotation.ParseSpansOkFail | shrec22/prepare_window/shrec22_prepare_window.py:108-112 | a bad triplet at the start fails the list, and is a failing triplet |
| Annotation.ParseSpansOkStep | shrec22/prepare_window/shrec22_prepare_window.py:108-112 | past a good first triplet, the list parses exactly when the triplets after it do |
| Annotation.ParseSpansValues | shrec22/prepare_window/shrec22_prepare_window.py:108-112 | a parsed list holds one span per started group of three tokens, and span `m` is the triplet at `idx + 3m` |
| Annotation.TripletAtStep | shrec22/prepare_window/shrec22_prepare_window.py:108 | triplet `m` from `idx` is triplet `m - 1` from `idx + 3` |
| Annotation.SpansAtCons | shrec22/prepare_window/shrec22_prepare_window.py:108-112 | the span of the first triplet in front of the spans of the later ones are the spans of the whole line |
| Annotation.TripletStartStep | shrec22/prepare_window/shrec22_prepare_window.py:108 | the triplet starts from `idx` other than `idx` are the starts from `idx + 3` |
| Annotation.TripletCountStep | shrec22/prepare_window/shrec22_prepare_window.py:108 | one more triplet starts at `idx` than at `idx + 3` |
| Annotation.StampFromSpans | shrec22/prepare_window/shrec22_prepare_window.py:108-112 | the interleaved parse-and-stamp loop succeeds only if every triplet parses, and then it stamps the parsed triplets in line order |
| Annotation.StampFrom | shrec22/prepare_window/shrec22_prepare_window.py:107-112 | the interleaved parse-and-stamp loop; specified by `Annotation.StampFromSpans` and `Annotation.StampSpansLastWins` |
| Annotation.LabelArray | shrec22/prepare_window/shrec22_prepare_window.py:107-112 | the label array of a line; specified by `Annotation.LabelArrayShape`, `Annotation.LabelArrayLastWins` and `Annotation.LabelArrayNeedsAllTriplets` |
| Annotation.StampSpansLabels | shrec22/prepare_window/shrec22_prepare_window.py:107-112 | stamping keeps the length and only ever writes label indices |
| Annotation.StampSpansLastWins | shrec22/prepare_window/shrec22_prepare_window.py:108-112 | an uncovered frame keeps its value, and a covered frame holds the label of the last triplet covering it |
| Annotation.LabelArrayShape | shrec22/prepare_window/shrec22_prepare_window.py:107-112 | the label array has 780 entries, each in 0..16 |
| Annotation.LabelArrayLastWins | shrec22/prepare_window/shrec22_prepare_window.py:107-112 | a frame no triplet covers is 16, and a covered frame holds the label of the last covering triplet |
| Annotation.LabelArrayNeedsAllTriplets | shrec22/prepare_window/shrec22_prepare_window.py:107-112 | a line has a label array only when every triplet in it parses, so every gesture name in it is in the table |
| Annotation.StampSpan | shrec22/prepare_window/shrec22_prepare_window.py:112 | the in-place slice assignment on the array does what `Stamp` describes, including its refusal |
| Annotation.BuildLabels | shrec22/prepare_window/shrec22_prepare_window.py:107-112 | the in-place triplet loop on a 780-entry array gives the label array or the first error |
| Pose.ReshapeJoints | shrec22/prepare_window/shrec22_prepare_window.py:123 | row `j` of the (26, 3) reshape holds tokens `3j .. 3j + 2` |
| Pose.CoordTokens | shrec22/prepare_window/shrec22_prepare_window.py:122 | `split(";")[2:-1]` has three tokens fewer than the split, and none when the split has fewer than three |
| Pose.ParsePoseLine | shrec22/prepare_window/shrec22_prepare_window.py:122-124 | a pose line reads exactly when 78 coordinate tokens remain, and then gives a (3, 26) frame; otherwise it raises with the token count |
| Pose.ParsePoseLineAt | shrec22/prepare_window/shrec22_prepare_window.py:122-124 | value `c` of joint `j` is token `2 + 3j + c` of the line |
| Pose.ParsePoseLineSpec | shrec22/prepare_window/shrec22_prepare_window.py:122-124 | `frame[c][j] == tokens[2 + 3j + c]` for every axis and joint |
| Pose.JointMajor | shrec22/prepare_window/shrec22_prepare_window.py:122-123 | a frame's tokens in file order number 78 |
| Pose.PoseLineRoundTrip | shrec22/prepare_window/shrec22_prepare_window.py:122-124 | reading back a line written from a frame gives that frame, when no field holds a `;` |
| Pose.PosesFrom | shrec22/prepare_window/shrec22_prepare_window.py:119-125 | the frame loop from line `i`; specified by `Pose.PosesFromOk` and `Pose.PosesFromValues` |
| Pose.ParsePoseFile | shrec22/prepare_window/shrec22_prepare_window.py:119-125 | reading a pose file; specified by `Pose.ParsePoseFileSpec` |
| Pose.PosesFromOk | shrec22/prepare_window/shrec22_prepare_window.py:119-125 | the frame loop reads when every remaining line is well formed |
| Pose.PosesFromValues | shrec22/prepare_window/shrec22_prepare_window.py:119-125 | the frame loop appends one frame per remaining line, in order |
| Pose.PosesFromSpec | shrec22/prepare_window/shrec22_prepare_window.py:119-125 | both of the above together |
| Pose.ParsePoseFileSpec | shrec22/prepare_window/shrec22_prepare_window.py:119-125 | a pose file reads exactly when every line does, and then frame `k` is line `k` read |
| Pose.ReadPoses | shrec22/prepare_window/shrec22_prepare_window.py:119-125 | the imperative frame loop returns what `ParsePoseFile` describes |
| Windows.RangeFrom | shrec22/prepare_window/shrec22_prepare_window.py:129 | every element of `range(k, stop, step)` lies in `[k, stop)` |
| Windows.RangeFromElements | shrec22/prepare_window/shrec22_prepare_window.py:129 | element `i` of `range(k, stop, step)` is `k + i * step` |
| Windows.RangeFromLength | shrec22/prepare_window/shrec22_prepare_window.py:129 | the range is empty when `k >= stop`, and otherwise its length is the least count whose steps reach `stop` |
| Windows.Range | shrec22/prepare_window/shrec22_prepare_window.py:129 | `range(0, stop, step)`; specified by `Windows.RangeSpec` |
| Windows.RangeSpec | shrec22/prepare_window/shrec22_prepare_window.py:129-131 | the starts are `0, stride, 2 * stride, ...`, strictly increasing and all below `n - w`; there are `ceil((n - w) / stride)` of them when `n > w` and none otherwise |
| Windows.MulStrict | shrec22/prepare_window/shrec22_prepare_window.py:129 | multiplying by a positive step keeps strict order |
| Windows.LastFullWindowDropped | shrec22/prepare_window/shrec22_prepare_window.py:129 | the last full window, starting at `n - w`, is never among the starts |
| Windows.FullSequenceWindowCount | shrec22/prepare_window/shrec22_prepare_window.py:129 | 780 frames with windows of 16 and stride 1 give 764 windows |
| Windows.MaxOfSpec | shrec22/prepare_window/shrec22_prepare_window.py:138 | `max(xs)` is an element of `xs` and no element is larger |
| Windows.BincountSpec | shrec22/prepare_window/shrec22_prepare_window.py:137 | `bincount` has one entry per value up to the largest present, and entry `v` counts the occurrences of `v` |
| Windows.FirstMaxFromSpec | shrec22/prepare_window/shrec22_prepare_window.py:138 | the scan finds an index of a largest entry before which every entry is strictly smaller |
| Windows.MajorityIsIndexOfMax | shrec22/prepare_window/shrec22_prepare_window.py:137-138 | the majority label is `counts.index(max(counts))` |
| Windows.MajorityIsLowestMode | shrec22/prepare_window/shrec22_prepare_window.py:137-138 | the majority label occurs in the window, no label occurs more often, and every smaller label occurs strictly less often (ties go to the lowest index) |
| Windows.MajorityTieExample | shrec22/prepare_window/shrec22_prepare_window.py:137-138 | `[3, 3, 5, 5]` has majority label 3 |
| Windows.MaxOf | shrec22/prepare_window/shrec22_prepare_window.py:138 | `max(xs)`; specified by `Windows.MaxOfSpec` |
| Windows.Bincount | shrec22/prepare_window/shrec22_prepare_window.py:137 | `np.bincount`; specified by `Windows.BincountSpec` |
| Windows.Majority | shrec22/prepare_window/shrec22_prepare_window.py:137-138 | the majority label; specified by `Windows.MajorityIsIndexOfMax` and `Windows.MajorityIsLowestMode` |
| Windows.LabelSlice | shrec22/prepare_window/shrec22_prepare_window.py:136 | `gt[p : p + w]` is `w` labels from `p` when they exist, is cut short at the end of `gt`, and is empty exactly when `p` is past it |
| Windows.MakeWindow | shrec22/prepare_window/shrec22_prepare_window.py:130-140 | a window is made exactly when its label slice is non-empty; otherwise `max()` raises |
| Windows.MakeWindowSpec | shrec22/prepare_window/shrec22_prepare_window.py:130-140 | a window holds frames `[p, p + w)` and their labels, names its file, and has `last == first + w - 1` |
| Dataset.AppendAll | shrec22/prepare_window/shrec22_prepare_window.py:133-140 | appending windows to the five lists keeps them aligned, adds one entry per window and leaves `all_file_poses` alone |
| Dataset.AppendAllAt | shrec22/prepare_window/shrec22_prepare_window.py:133-140 | earlier windows are unchanged and the new ones follow in order |
| Dataset.AppendAllCons | shrec22/prepare_window/shrec22_prepare_window.py:133-140 | appending one window and then the rest is appending them all |
| Dataset.AppendAllNone | shrec22/prepare_window/shrec22_prepare_window.py:133-140 | appending no window changes nothing |
| Dataset.StartsWithinCons | shrec22/prepare_window/shrec22_prepare_window.py:129-136 | a list of starts lies inside the label array exactly when its first start and all the others do |
| Dataset.FileWindowsFrom | shrec22/prepare_window/shrec22_prepare_window.py:129-140 | one window per start of the range |
| Dataset.FileWindowsFromCons | shrec22/prepare_window/shrec22_prepare_window.py:129-140 | the windows from a start are that start's window followed by the windows from the next start |
| Dataset.Slide | shrec22/prepare_window/shrec22_prepare_window.py:129-140 | the sliding-window loop keeps the lists aligned and leaves `all_file_poses` alone |
| Dataset.SlideEnds | shrec22/prepare_window/shrec22_prepare_window.py:129 | past the last start the loop stops without change |
| Dataset.SlideRaises | shrec22/prepare_window/shrec22_prepare_window.py:136-138 | a window that cannot be made ends the loop with its error |
| Dataset.SlideAdvances | shrec22/prepare_window/shrec22_prepare_window.py:129-140 | a made window is appended and the loop goes on at the next start |
| Dataset.SlideFromSpec | shrec22/prepare_window/shrec22_prepare_window.py:129-140 | the loop succeeds exactly when every start lies inside the label array, and then it appends the file's windows in order |
| Dataset.SlideSpec | shrec22/prepare_window/shrec22_prepare_window.py:129-140 | the same from start 0; it cannot fail for a file of at most `len(gt) + w` frames |
| Dataset.SlideZeroWidth | shrec22/prepare_window/shrec22_prepare_window.py:136-138 | with `w == 0` the first window raises, and a file with no frames adds nothing |
| Dataset.FileWindowsSpec | shrec22/prepare_window/shrec22_prepare_window.py:129-140 | window `k` starts at `k * stride`, holds frames `[k * stride, k * stride + w)` of its file and their labels, and names the file |
| Dataset.AddFile | shrec22/prepare_window/shrec22_prepare_window.py:126-140 | an ingested file adds its frames to `all_file_poses`; a zero stride raises |
| Dataset.StepLine | shrec22/prepare_window/shrec22_prepare_window.py:92-142 | one turn of the annotation loop keeps the lists aligned |
| Dataset.StepFile | shrec22/prepare_window/shrec22_prepare_window.py:104-140 | processing a file keeps the lists aligned and never ends the loop through the cap |
| Dataset.StepLineAdded | shrec22/prepare_window/shrec22_prepare_window.py:92-142 | a line adds a file only if it parses, passes the filter and the cap, and its label array and pose file read; the result is that file added |
| Dataset.IngestCounts | shrec22/prepare_window/shrec22_prepare_window.py:90-142 | the counter counts exactly the files whose frames were kept, and never passes the cap |
| Dataset.StepLineAddsFile | shrec22/prepare_window/shrec22_prepare_window.py:101-142 | an added file was below the cap and adds one entry to `all_file_poses` |
| Dataset.AppendAllGood | shrec22/prepare_window/shrec22_prepare_window.py:133-140 | appending good windows keeps every window good |
| Dataset.MadeWindowGood | shrec22/prepare_window/shrec22_prepare_window.py:129-140 | a window made at a start of the loop over an admitted, readable file is good: its labels are label indices and its frames are the file's frames |
| Dataset.FileWindowGood | shrec22/prepare_window/shrec22_prepare_window.py:129-140 | every window of an admitted file with a readable pose file is good |
| Dataset.AddFileGood | shrec22/prepare_window/shrec22_prepare_window.py:126-140 | adding a file keeps every window good |
| Dataset.IngestGood | shrec22/prepare_window/shrec22_prepare_window.py:90-142 | the annotation loop keeps the lists aligned and every window good |
| Dataset.Ingest | shrec22/prepare_window/shrec22_prepare_window.py:90-142 | the annotation loop over the remaining lines; specified by `Dataset.IngestCounts`, `Dataset.IngestGood` and `Dataset.FilterAsPreselection` |
| Dataset.Build | shrec22/prepare_window/shrec22_prepare_window.py:79-142 | the constructor's work from the annotations file on; specified by `Dataset.BuildSpec` |
| Dataset.StepLineKeepsGood | shrec22/prepare_window/shrec22_prepare_window.py:92-142 | a line that adds a file keeps every window good |
| Dataset.NameFilter | shrec22/prepare_window/shrec22_prepare_window.py:83-88 | there is a filter exactly when file names are given |
| Dataset.NameFilterAdmits | shrec22/prepare_window/shrec22_prepare_window.py:83-88 | a sequence may be named with or without its `.txt` extension |
| Dataset.KeepAdmitted | shrec22/prepare_window/shrec22_prepare_window.py:99-100 | the lines the filter keeps are no more than the lines, and a line is kept exactly when it is one of the lines and either does not parse or names an admitted file |
| Dataset.IngestCons | shrec22/prepare_window/shrec22_prepare_window.py:92-142 | after its first line the loop raises, stops, or goes on with the rest of the lines |
| Dataset.StepLineKept | shrec22/prepare_window/shrec22_prepare_window.py:99-102 | a line the filter admits steps exactly as it would with no filter |
| Dataset.StepLineDropped | shrec22/prepare_window/shrec22_prepare_window.py:99-100 | a parsed line naming a file outside the filter is skipped before the cap is checked |
| Dataset.FilterAsPreselection | shrec22/prepare_window/shrec22_prepare_window.py:99-102 | filtering is the same as running the unfiltered loop over only the admitted lines, so skipped lines neither count towards the cap nor add windows |
| Dataset.BuildSpec | shrec22/prepare_window/shrec22_prepare_window.py:79-142 | a missing annotations file raises. On success: the lists are aligned, every window is good, the count is the number of files kept, the count stays within the cap, and `w` or `stride` 0 leaves no window |
| Builder.OutcomeOf | shrec22/prepare_window/shrec22_prepare_window.py:92-142 | a raise, skip or stop of a turn shows as such to the loop |
| Builder.WindowDataset.constructor | shrec22/prepare_window/shrec22_prepare_window.py:59-70 | the storage containers start empty and aligned |
| Builder.WindowDataset.AppendWindow | shrec22/prepare_window/shrec22_prepare_window.py:133-140 | the five appends of one window, with its majority label, keep the lists aligned |
| Builder.WindowDataset.SlideFile | shrec22/prepare_window/shrec22_prepare_window.py:129-140 | the in-place sliding-window loop ends in the state `Slide` describes or with its error; a zero stride raises |
| Builder.WindowDataset.ProcessFile | shrec22/prepare_window/shrec22_prepare_window.py:104-142 | the in-place file step does what `StepFile` describes: it raises, skips a missing pose file without change, or adds the file |
| Builder.WindowDataset.ProcessLine | shrec22/prepare_window/shrec22_prepare_window.py:92-142 | the in-place loop body does what `StepLine` describes |
| Builder.WindowDataset.LoadLine | shrec22/prepare_window/shrec22_prepare_window.py:92-142 | one turn of the in-place annotation loop: it raises, stops at the cap, or leaves the rest of the loop to run from the next line with the count raised by one for an added file |
| Builder.WindowDataset.Load | shrec22/prepare_window/shrec22_prepare_window.py:79-144 | the in-place annotation loop ends as `Build` does, with the lists it describes; afterwards `len_data` is the number of windows |
| Builder.WindowDataset.Len | shrec22/prepare_window/shrec22_prepare_window.py:152-153 | `__len__` is `len_data` once loaded and the length of every per-window list |
| Builder.WindowDataset.GetItem | shrec22/prepare_window/shrec22_prepare_window.py:155-156 | `__getitem__` succeeds exactly for `-len <= idx < len`, gives window `idx` (from the end for a negative index), and its label is the majority label of its label slice |
| Builder.GetItemFromEnd | shrec22/prepare_window/shrec22_prepare_window.py:155-156 | `d[i - len(d)]` is `d[i]` |
| Builder.LabelsWindowArray | shrec22/prepare_window/shrec22_prepare_window.py:166 | `np.array(labels_window, dtype=np.int64)` succeeds exactly when all label rows have the same length, keeps them, and otherwise raises |
| Builder.LabelsWindowArrayRagged | shrec22/prepare_window/shrec22_prepare_window.py:166 | a short label row next to a full one makes the save raise |
| Builder.Construct | shrec22/prepare_window/shrec22_prepare_window.py:51-170 | the constructor ends as `Build` from empty lists does, except that with `save` it raises for label windows of unequal length. On success: every window is good, the lists are aligned with their majority labels, `len_data` counts the windows, the file count stays within the cap, and `w` or `stride` 0 gives no window |
| Builder.ArrayFileAt | shrec22/prepare_window/shrec22_prepare_window.py:160-162 | an array file name has the kind after the data set and `_`, then the window size |
| Builder.IndexFileAt | shrec22/prepare_window/shrec22_prepare_window.py:178 | an index file name has the kind after the data set and `_` |
| Builder.SaveNamesDistinct | shrec22/prepare_window/shrec22_prepare_window.py:160-186 | the three files the save writes and the two index files of the unused helpers have pairwise different names |
| Builder.ArrayKindsDiffer | shrec22/prepare_window/shrec22_prepare_window.py:160-162 | array files of kinds that differ somewhere have different names |
| Builder.IndexKindsDiffer | shrec22/prepare_window/shrec22_prepare_window.py:178-186 | index files of kinds of different lengths have different names |
| Builder.ArrayIndexDiffer | shrec22/prepare_window/shrec22_prepare_window.py:160-186 | an array file and an index file whose kinds start differently have different names |
| Builder.LabelsNamesDiffer | shrec22/prepare_window/shrec22_prepare_window.py:161-162 | the `labels` and `labels_window` files have different names |
| Builder.ArrayFileSplit | shrec22/prepare_window/shrec22_prepare_window.py:160-162 | an array file name is its fixed prefix, the window size's digits, `_` and the rest |
| Builder.ArrayFileInjective | shrec22/prepare_window/shrec22_prepare_window.py:160-162 | an array file name determines the window size and the stride |
| Builder.ArrayFile | shrec22/prepare_window/shrec22_prepare_window.py:160-162 | `{data_set}_{kind}_w{w}_s{stride}.npy`; specified by `Builder.ArrayFileAt`, `Builder.ArrayFileSplit` and `Builder.ArrayFileInjective` |
| Builder.IndexFile | shrec22/prepare_window/shrec22_prepare_window.py:178-186 | `{data_set}_{kind}_s{stride}.npy`; specified by `Builder.IndexFileAt` and `Builder.IndexKindsDiffer` |
| Draw.Palette | shrec22/draw/shrec22_draw_3stack.py:113-115 | the palette is 26 colour names, taken from the front of the 38 |
| Draw.LeadingColorNamesDistinct | shrec22/draw/shrec22_draw_3stack.py:8-14 | the first 26 keys of the colour dictionary are pairwise different |
| Draw.PaletteDistinct | shrec22/draw/shrec22_draw_3stack.py:113-115 | the 26 palette colours are pairwise different |
| Draw.ColorIndex | shrec22/draw/shrec22_draw_3stack.py:121 | `j % len(plt_colors)` is a palette index, each of the 26 joints gets its own, and it is `j` less a multiple of 26 |
| Draw.JointColorsDistinct | shrec22/draw/shrec22_draw_3stack.py:115-121 | two different joints of a frame are drawn in different colours |
| Draw.StyleDirSpec | shrec22/draw/shrec22_draw_3stack.py:88-98 | the style directory is the raw one with every `*`, including any in the base path, turned into `_`. It has the same length and no `*` left, and the second replace is a no-op |
| Draw.StyleDir | shrec22/draw/shrec22_draw_3stack.py:88-98 | the style directory; specified by `Draw.StyleDirSpec` |
| Draw.FileNameShape | shrec22/draw/shrec22_draw_3stack.py:103 | a file name is the digits of `pid + 1`, `_`, then the rest |
| Draw.FileNameInjective | shrec22/draw/shrec22_draw_3stack.py:103 | a file name determines the window index and the label |
| Draw.FileName | shrec22/draw/shrec22_draw_3stack.py:103 | `{pid + 1}_label{label}.png`; specified by `Draw.FileNameShape` and `Draw.FileNameInjective` |
| Draw.ImagePath | shrec22/draw/shrec22_draw_3stack.py:103 | the image path in a style directory; specified by `Draw.ImagePathsDistinct` |
| Draw.ImagePathsDistinct | shrec22/draw/shrec22_draw_3stack.py:103 | in one style directory, different window indices give different image paths |
| Draw.DrawEffect | shrec22/draw/shrec22_draw_3stack.py:100-141 | `draw_image` always creates the style directory. It draws exactly when `override` is set or the image is absent, and afterwards the image exists. A skip changes nothing but the directory. |
| Draw.DrawTwiceSkips | shrec22/draw/shrec22_draw_3stack.py:104-105 | without `override`, drawing the same window again draws nothing and changes nothing |
| Draw.ImageStore.constructor | shrec22/draw/shrec22_draw_3stack.py:100-104 | the store starts with the given existing paths |
| Draw.ImageStore.DrawImage | shrec22/draw/shrec22_draw_3stack.py:100-141 | the in-place skip-or-save on the set of existing paths does what `DrawEffect` describes |
| Draw.ConstructTasks | shrec22/draw/shrec22_draw_3stack.py:214-229 | there is one task per window, in index order, and task `i` carries index `i`, window `i` and `labels[i]`. It fails exactly when there are fewer labels than windows |
| Draw.TaskPathsDistinct | shrec22/draw/shrec22_draw_3stack.py:214-229 | the tasks of one run draw to pairwise different image paths |
| Draw.NumWorkers | shrec22/draw/shrec22_draw_3stack.py:209-210 | a given worker count is kept; the default is `max(1, cpu_count() - 1)`, at least 1 |

## Left out

- Reading files: `open`, `readlines` and `os.path.isfile` become the `Files` map from existing paths to their lines.
- Saving arrays: `np.save`, `np.load` and the contents of the saved arrays are not modelled. The model keeps the file names and the one way the save can raise from the lists it models, a ragged `labels_window`.
- The save's float conversion of `sequence` is not modelled, and neither is a failure of `np.save` itself. The constructor's final `print` is left out: printing has no effect on the state. `script_dir` is a parameter of `Builder.SavePath`.
- Float conversion: `astype(np.float64)` is not modelled. Coordinates stay as their tokens (`Pose.Coord`), so a non-numeric token that Python rejects is accepted here.
- The `dtype=object` conversion of `all_file_poses` is not modelled. The field stays a list of per-file frame lists.
- Normalisation: the per-window min-max normalisation in `process_single_window` is floating-point arithmetic and is not modelled.
- Plotting: matplotlib rendering in `draw_image` is not modelled. Only its effect on the set of existing paths, one file written at the image path, is modelled.
- Concurrency: `multiprocessing.Pool`, `imap_unordered` and `tqdm` are left out. The model stops at the task list.
- The torch `Dataset` base class, `demo.py` and the `main()` and `__main__` blocks are not part of this model.
- Warnings: the missing-pose-file `print` is not modelled. The skip itself is.
- Numbers.ParseInt: accepts ASCII digits, one sign and ASCII whitespace only. Python's `int()` also accepts `_` separators and non-ASCII digits and spaces.
- Draw.Style: the line width and marker size are kept as the text the f-string prints for them, because printing a Python float is not modelled.
- Draw.ImageStore.DrawImage: `os.makedirs` also creates missing parent directories. The model records only the style directory.
- Dataset.Config: `w` and `stride` are natural numbers. The model does not cover a negative window size or stride, which Python accepts with its own slice and range rules.
- Builder.WindowDataset: the majority-label list `label` is kept by the class alone. The `Dataset.Acc` value describes only the other five lists, because `label` is determined by them.
- Builder.WindowDataset.SlideFile: the Python loop appends a window's first two entries before `max()` can raise for it. The model computes the window before appending anything. The difference cannot be observed, because the exception ends the constructor.
- Builder.Construct: the model does not say, in terms of frame counts, when the label windows are ragged. It does not prove that files of at most 780 frames always save.
