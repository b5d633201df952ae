/** Vocabulary shared by every module of the project. */
module Prelude {
  datatype Option<+T> = None | Some(value: T)

  /** `slice` without any occurrence of `s`, in the original order. */
  function Without(slice: seq<string>, s: string): (r: seq<string>)
    ensures s !in r
    ensures forall x :: x != s ==> (x in r <==> x in slice)
    ensures s !in slice ==> r == slice
    ensures |r| <= |slice|
  {
    if slice == [] then []
    else if slice[0] == s then Without(slice[1..], s)
    else [slice[0]] + Without(slice[1..], s)
  }

  lemma {:induction false} WithoutAppend(a: seq<string>, b: seq<string>, s: string)
    ensures Without(a + b, s) == Without(a, s) + Without(b, s)
  {
    if a == [] {
      assert a + b == b;
    } else {
      assert (a + b)[1..] == a[1..] + b;
      WithoutAppend(a[1..], b, s);
    }
  }

  /** The ascending indices of the elements other than `s`. */
  function Kept(slice: seq<string>, s: string): (kept: seq<nat>)
    ensures forall j, k :: 0 <= j < k < |kept| ==> kept[j] < kept[k]
    ensures forall j :: 0 <= j < |kept| ==> kept[j] < |slice| && slice[kept[j]] != s
    ensures forall i :: 0 <= i < |slice| && slice[i] != s ==> i in kept
  {
    if slice == [] then []
    else
      var n := |slice| - 1;
      Kept(slice[..n], s) + if slice[n] == s then [] else [n]
  }

  /** The elements kept are those at these indices, one for each: order and multiplicity stay. */
  lemma {:induction false} WithoutByIndex(slice: seq<string>, s: string)
    ensures |Without(slice, s)| == |Kept(slice, s)|
    ensures forall j :: 0 <= j < |Kept(slice, s)| ==> Without(slice, s)[j] == slice[Kept(slice, s)[j]]
  {
    if slice != [] {
      var n := |slice| - 1;
      WithoutByIndex(slice[..n], s);
      WithoutAppend(slice[..n], [slice[n]], s);
      assert slice == slice[..n] + [slice[n]];
    }
  }
}
