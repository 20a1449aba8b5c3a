/** What the other modules share. */
module Common {
  datatype Option<+T> = None | Some(value: T)

  type Byte = b: int | 0 <= b < 256

  const SECTOR_SIZE := 512
  // errno values
  const EPERM := 1
  const EINVAL := 22
  const ENOSPC := 28
  const ECANCELED := 125

  predicate Distinct(s: seq<nat>) {
    forall i, j :: 0 <= i < j < |s| ==> s[i] != s[j]
  }
}
