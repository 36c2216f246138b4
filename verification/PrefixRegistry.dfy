/** Longest-prefix selection, shared by the callback routes and the awaiting flows. */
module PrefixRegistry {

  /** Which keys an input selects, given as their positions in registration order. */
  ghost predicate IsBest(prefixes: seq<string>, matches: string -> bool, i: nat) {
    && i < |prefixes| && matches(prefixes[i])
    && (forall j :: 0 <= j < |prefixes| && matches(prefixes[j]) ==> |prefixes[j]| <= |prefixes[i]|)
    && (forall j :: 0 <= j < i && matches(prefixes[j]) ==> |prefixes[j]| < |prefixes[i]|)
  }

  /** Every match is a prefix of one text, so matches of one length are equal. */
  ghost predicate PrefixesOf(matches: string -> bool, text: string) {
    forall p: string :: matches(p) ==> p <= text
  }

  /** Any two best matches of two registries with the same prefixes, in whatever orders,
      have the same prefix. */
  lemma BestPrefixIgnoresOrder(
    prefixes: seq<string>, others: seq<string>, matches: string -> bool, text: string, i: nat, j: nat)
    requires PrefixesOf(matches, text) && multiset(prefixes) == multiset(others)
    requires IsBest(prefixes, matches, i) && IsBest(others, matches, j)
    ensures prefixes[i] == others[j]
  {
    assert prefixes[i] in multiset(others) && others[j] in multiset(prefixes);
    assert prefixes[i] in others && others[j] in prefixes;
    assert |prefixes[i]| == |others[j]|;
    assert prefixes[i] <= text && others[j] <= text;
    assert prefixes[i] == text[..|prefixes[i]|];
  }

  /** With a duplicated prefix the earliest registration wins. */
  lemma EarliestDuplicateWins(prefixes: seq<string>, matches: string -> bool, text: string, i: nat, j: nat)
    requires PrefixesOf(matches, text) && IsBest(prefixes, matches, i)
    requires j < |prefixes| && matches(prefixes[j]) && |prefixes[j]| == |prefixes[i]|
    ensures prefixes[j] == prefixes[i] && i <= j
  {
    assert prefixes[i] == text[..|prefixes[i]|] && prefixes[j] == text[..|prefixes[j]|];
  }
}
