/** The contents of a linked list, as a sequence without repetitions. */
module ListContents {

  ghost predicate NoRepeats<T>(list: seq<T>) {
    forall i, j :: 0 <= i < j < |list| ==> list[i] != list[j]
  }

  ghost function Without<T>(list: seq<T>, i: nat): seq<T>
    requires i < |list|
  {
    list[..i] + list[i + 1..]
  }

  ghost function IndexOf<T>(list: seq<T>, x: T): (k: nat)
    requires x in list
    ensures k < |list| && list[k] == x
  {
    var k :| 0 <= k < |list| && list[k] == x;
    k
  }

  /** The list without its one occurrence of x. */
  ghost function Minus<T>(list: seq<T>, x: T): seq<T> {
    if x in list then Without(list, IndexOf(list, x)) else list
  }

  lemma WithoutMembers<T>(list: seq<T>, k: nat)
    requires NoRepeats(list) && k < |list|
    ensures NoRepeats(Without(list, k))
    ensures forall x :: x in Without(list, k) <==> x in list && x != list[k]
  {
    forall x | x in list && x != list[k] ensures x in Without(list, k) {
      var i :| 0 <= i < |list| && list[i] == x;
      assert Without(list, k)[if i < k then i else i - 1] == x;
    }
  }

  lemma MinusAt<T>(list: seq<T>, k: nat)
    requires NoRepeats(list) && k < |list|
    ensures Minus(list, list[k]) == Without(list, k)
  {
  }
}
