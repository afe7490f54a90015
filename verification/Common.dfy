/** Datatypes shared by the components. */
module Common {

  datatype Option<+T> = None | Some(value: T)

  datatype Result<+T, +E> = Ok(value: T) | Err(error: E)

  type byte = b: int | 0 <= b < 256

  type Bytes = seq<byte>

  lemma SubSlice<T>(s: seq<T>, end: nat, a: nat, b: nat)
    requires a <= b <= end <= |s|
    ensures s[..end][a..b] == s[a..b]
  {
  }
}
