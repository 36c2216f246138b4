/** Lists of distinct string keys and the sets they stand for. */
module Keys {
  predicate Distinct(s: seq<string>) {
    forall i, j :: 0 <= i < j < |s| ==> s[i] != s[j]
  }

  function KeySet(s: seq<string>): set<string> {
    set k | k in s
  }

  lemma {:induction false} SizeOfDistinct(s: seq<string>)
    requires Distinct(s)
    ensures |KeySet(s)| == |s|
  {
    if s == [] {
      assert KeySet(s) == {};
    } else {
      SizeOfDistinct(s[1..]);
      assert s == [s[0]] + s[1..] && KeySet(s) == {s[0]} + KeySet(s[1..]) && s[0] !in KeySet(s[1..]);
    }
  }
}
