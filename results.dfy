/** Option and Result types, and the ways building the window dataset can fail.
    Each failure stands for the Python exception the pipeline raises there. */
module Results {

  datatype Option<+T> = None | Some(value: T)

  datatype Result<+T, +E> = Ok(value: T) | Err(error: E)

  /** Why building the window dataset stops. */
  datatype BuildError =
    | AnnotationsNotFound                 // FileNotFoundError: no annotations.txt
    | EmptyAnnotationLine                 // IndexError: `line[0]` of a blank line
    | MissingSpanToken(index: nat)        // IndexError: a triplet cut short
    | NotAnInteger(token: string)         // ValueError: `int(token)`
    | UnknownLabel(name: string)          // ValueError: `label_map.index(name)`
    | SpanShapeMismatch(start: int, end: int)  // ValueError: numpy broadcast in the slice assignment
    | BadPoseLine(size: nat)              // ValueError: cannot reshape `size` tokens into (26, 3)
    | EmptyLabelWindow(start: int)        // ValueError: `max()` of an empty bincount
    | ZeroStride                          // ValueError: `range()` with a zero step
    | RaggedLabelWindows                  // ValueError: `np.array` of label rows of unequal length
}
