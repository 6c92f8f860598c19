/** Facts about the set of the elements of a sequence, shared by the trip listing and the forecast filter. */
module Collections {

  /** The set of the elements of a sequence. */
  function Elements<T(==,!new)>(s: seq<T>): (e: set<T>)
    ensures forall x :: x in e <==> x in s
    ensures |e| <= |s|
  {
    if s == [] then {} else {s[0]} + Elements(s[1..])
  }

  /** A sequence in which no element occurs twice has as many elements as its set. */
  lemma {:induction false} DistinctElementsCard<T(!new)>(s: seq<T>)
    requires forall i, j :: 0 <= i < j < |s| ==> s[i] != s[j]
    ensures |Elements(s)| == |s|
  {
    if s != [] {
      DistinctElementsCard(s[1..]);
      assert s[0] !in s[1..];
    }
  }

  lemma SubsetCard<T>(a: set<T>, b: set<T>)
    requires a <= b
    ensures |a| <= |b|
  {
    assert b == a + (b - a);
    assert a * (b - a) == {};
  }
}
