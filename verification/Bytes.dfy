/** Binary data. */
module Bytes {

  type Byte = x: int | 0 <= x < 256
  type Blob = seq<Byte>

  /** A hash without collisions. */
  ghost predicate Injective(sha: Blob -> string) {
    forall x, y :: sha(x) == sha(y) ==> x == y
  }
}
