/** What several modules share: optional values, lists without repetition, and the sizes of mbufs. */
module Common {
  datatype Option<T> = None | Some(value: T)

  ghost predicate NoDup(c: seq<nat>) { forall i, j :: 0 <= i < j < |c| ==> c[i] != c[j] }

  const MSIZE := 128
  const MLEN := 108
  const MHLEN := 100
  const MINCLSIZE := 208
  const MCLBYTES := 2048
}
