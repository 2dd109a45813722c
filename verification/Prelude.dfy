/** Types shared by every module of the model. */
module Prelude {

  datatype Option<+T> = None | Some(value: T)

  datatype Result<+T, +E> = Ok(value: T) | Err(error: E)

  /** A document: the code points of a UTF-8 file. */
  type Text = string

  /** SHA-256, kept symbolic: a digest is determined by, and determines, what was hashed. */
  datatype Digest = Sha256(preimage: Text)

  ghost predicate Distinct<T>(s: seq<T>) {
    forall i, j :: 0 <= i < j < |s| ==> s[i] != s[j]
  }
}
