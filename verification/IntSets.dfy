/** Sets of numbers, as std::set keeps them: with a smallest element to start from. */
module IntSets {
  lemma {:induction false} SmallestExists(keys: set<int>)
    requires keys != {}
    ensures exists k :: k in keys && forall other :: other in keys ==> k <= other
    decreases |keys|
  {
    assert exists k :: k in keys;
    var k :| k in keys;
    if keys - {k} != {} {
      SmallestExists(keys - {k});
      var m :| m in keys - {k} && forall other :: other in keys - {k} ==> m <= other;
      assert forall other :: other in keys ==> other == k || other in keys - {k};
      var least := if k <= m then k else m;
      assert least in keys && forall other :: other in keys ==> least <= other;
    } else {
      assert keys == {k};
    }
  }

  lemma SubsetCardinality(a: set<int>, b: set<int>)
    requires a <= b
    ensures |a| <= |b|
  {
    assert |b| == |a| + |b - a|;
  }
}
