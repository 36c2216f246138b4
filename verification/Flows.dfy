/** The awaiting-input flow registry of handlers/flows.py. */
module Flows {
  import opened Keys
  import opened PrefixRegistry
  import opened Wrappers

  datatype Flow = Flow(prefix: string, handler: int)

  /** `_matches`: a namespace ending in a colon matches what it starts, any other
      prefix only itself. */
  predicate Matches(prefix: string, awaiting: string) {
    if prefix != "" && prefix[|prefix| - 1] == ':' then prefix <= awaiting else awaiting == prefix
  }

  /** A registered namespace matches exactly what begins with it, and a key without a
      final colon exactly itself. */
  lemma MatchesExactlyWhen(name: string, awaiting: string)
    ensures Matches(name + ":", awaiting) <==> exists rest: string :: awaiting == name + ":" + rest
    ensures name == "" || name[|name| - 1] != ':' ==> (Matches(name, awaiting) <==> awaiting == name)
  {
    if name + ":" <= awaiting {
      assert awaiting == name + ":" + awaiting[|name| + 1..];
    }
  }

  function Prefixes(flows: seq<Flow>): seq<string> {
    seq(|flows|, i requires 0 <= i < |flows| => flows[i].prefix)
  }

  ghost predicate Selects(flows: seq<Flow>, awaiting: string, i: nat) {
    IsBest(Prefixes(flows), p => Matches(p, awaiting), i)
  }

  /** Permuting a registry with distinct prefixes never changes the flow, even when
      exact keys and namespaces are mixed. */
  lemma SelectionIgnoresOrder(flows: seq<Flow>, others: seq<Flow>, awaiting: string, i: nat, j: nat)
    requires multiset(flows) == multiset(others) && Distinct(Prefixes(flows))
    requires Selects(flows, awaiting, i) && Selects(others, awaiting, j)
    ensures flows[i] == others[j]
  {
    assert others[j] in multiset(flows);
    var k :| 0 <= k < |flows| && flows[k] == others[j];
    assert flows[i] in multiset(others);
    var l :| 0 <= l < |others| && others[l] == flows[i];
    var (p, q) := (Prefixes(flows), Prefixes(others));
    assert p[k] == q[j] && q[l] == p[i];
    assert |p[k]| <= |p[i]| && |q[l]| <= |q[j]|;
    EarliestDuplicateWins(p, x => Matches(x, awaiting), awaiting, i, k);
  }

  /** An exact key that matches always wins over the namespaces that match. */
  lemma ExactKeyWins(flows: seq<Flow>, awaiting: string, i: nat, k: nat)
    requires Selects(flows, awaiting, i) && k < |flows| && flows[k].prefix == awaiting
    ensures flows[i].prefix == awaiting
  {
    assert Prefixes(flows)[k] == awaiting;
    assert Matches(awaiting, awaiting);
  }

  class Registry {
    var flows: seq<Flow>

    constructor ()
      ensures flows == []
    {
      flows := [];
    }

    /** `register_flow`: false for the ValueError of an empty prefix. */
    method RegisterFlow(prefix: string, handler: int) returns (ok: bool)
      modifies this
      ensures ok <==> prefix != ""
      ensures flows == if ok then old(flows) + [Flow(prefix, handler)] else old(flows)
    {
      if prefix == "" {
        return false;
      }
      flows := flows + [Flow(prefix, handler)];
      return true;
    }

    /** `resolve_flow`: the best matching flow, the earliest among equals; None exactly
        if none matches. */
    method ResolveFlow(awaiting: string) returns (best: Option<Flow>, ghost at: nat)
      ensures best.None? <==> forall f <- flows :: !Matches(f.prefix, awaiting)
      ensures best.Some? ==> at < |flows| && best.value == flows[at] && Selects(flows, awaiting, at)
    {
      best, at := None, 0;
      var i := 0;
      while i < |flows|
        invariant i <= |flows|
        invariant best.None? ==> forall j :: 0 <= j < i ==> !Matches(flows[j].prefix, awaiting)
        invariant best.Some? ==> at < i && best.value == flows[at] && Matches(best.value.prefix, awaiting)
        invariant best.Some? ==> forall j :: 0 <= j < i && Matches(flows[j].prefix, awaiting) ==>
          |flows[j].prefix| <= |best.value.prefix| && (j < at ==> |flows[j].prefix| < |best.value.prefix|)
      {
        var flow := flows[i];
        if Matches(flow.prefix, awaiting) {
          if best.None? || |flow.prefix| > |best.value.prefix| {
            best, at := Some(flow), i;
          }
        }
        i := i + 1;
      }
    }
  }
}
