/** Cardinality facts about finite sets that the solver does not find on its own. */
module SetFacts {
  lemma Pick<T>(s: set<T>) returns (v: T)
    requires s != {}
    ensures v in s
  {
    v :| v in s;
  }

  lemma SubsetCard<T>(a: set<T>, b: set<T>)
    requires a <= b
    ensures |a| <= |b|
  {
    assert b == a + (b - a);
    assert |b| == |a| + |b - a|;
  }

  /** Two subsets that together outnumber the whole share an element. */
  lemma Overlap<T>(whole: set<T>, a: set<T>, b: set<T>) returns (v: T)
    requires a <= whole && b <= whole
    requires |a| + |b| > |whole|
    ensures v in a && v in b
  {
    SubsetCard(a + b, whole);
    assert |a| + |b| == |a + b| + |a * b|;
    v := Pick(a * b);
  }
}
