/** Option and Result, the two failure-carrying datatypes the model uses. */
module Wrappers {

  /** A value that may be missing, such as the result of a parse that can fail. */
  datatype Option<+T> = None | Some(value: T)

  /** Either a computed value or the error that stopped the computation. */
  datatype Result<+T, +E> = Ok(value: T) | Err(error: E)
}

/** The exceptions that the import can raise inside its `try` block. */
module ImportErrors {

  datatype ImportError =
    /** `next(reader)` on a file that has no rows at all. */
    | StopIteration
    /** `row[index]` on a row that has `index` fields or fewer. */
    | RowIndexError(index: nat)
    /** `float(text)` rejected the field `text`. */
    | FloatValueError(text: string)
    /** A coordinate divided by a `w` field equal to zero. */
    | ZeroDivisionError
    /** `bm.verts[index]` on a mesh that has `index` vertices or fewer. */
    | VertIndexError(index: nat)
    /** `bm.faces.new` refused the face: a repeated vertex, or a face on the same vertices already exists. */
    | FaceValueError
}
