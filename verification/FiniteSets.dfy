/** Counting arguments. */
module FiniteSets {

  lemma SubsetOfSameSize<T>(part: set<T>, whole: set<T>)
    requires part <= whole
    ensures |part| == |whole| <==> part == whole
  {
    assert whole == part + (whole - part);
    assert |whole| == |part| + |whole - part|;
    assert |whole - part| == 0 <==> whole - part == {};
  }
}
