/** Options, and lists without repetition by position. */
module Seqs {

  datatype Option<+T> = None | Some(value: T)

  ghost predicate NoDup<T>(xs: seq<T>) {
    forall i, j :: 0 <= i < j < |xs| ==> xs[i] != xs[j]
  }

  function Nth<T>(xs: seq<T>, i: int): (x: Option<T>) {
    if 0 <= i < |xs| then Some(xs[i]) else None
  }

  function Drop<T>(xs: seq<T>, i: nat): (ys: seq<T>)
    requires i < |xs|
  {
    xs[..i] + xs[i + 1..]
  }

  lemma DropMembers<T>(xs: seq<T>, i: nat)
    requires i < |xs| && NoDup(xs)
    ensures forall x :: x in Drop(xs, i) <==> x in xs && x != xs[i]
  {
    forall x | x in xs && x != xs[i] ensures x in Drop(xs, i) {
      var j :| 0 <= j < |xs| && xs[j] == x;
      assert Drop(xs, i)[if j < i then j else j - 1] == x;
    }
  }
}
