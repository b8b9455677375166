/** Options, integer widths and sequences, as used everywhere. */
module Basics {
  datatype Option<T> = None | Some(value: T)

  const TWO_TO_32 := 0x1_0000_0000
  const TWO_TO_64 := 0x1_0000_0000_0000_0000

  type uint32 = n: int | 0 <= n < TWO_TO_32
  type int64 = n: int | -0x8000_0000_0000_0000 <= n < 0x8000_0000_0000_0000

  ghost predicate Distinct(ids: seq<int>) {
    forall i, j :: 0 <= i < j < |ids| ==> ids[i] != ids[j]
  }

  function SetOf(s: seq<int>): set<int> { set x | x in s }

  lemma Overwritten<V>(m: map<int, V>, k: int, v: V)
    ensures m[k := v] - {k} == m - {k}
  {
  }

  lemma Rejoined<T>(front: seq<T>, middle: seq<T>, rest: seq<T>)
    ensures (front + middle) + rest == front + (middle + rest)
  {
  }
}
