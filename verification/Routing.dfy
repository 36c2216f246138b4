/** The callback routing registry of services/routing.py. */
module Routing {
  import opened Keys
  import opened PrefixRegistry
  import opened Wrappers

  datatype Route = Route(prefix: string, handler: int, ownerOnly: bool)

  /** `data.startswith(prefix + ":")`. */
  predicate Matches(prefix: string, data: string) {
    prefix + ":" <= data
  }

  function Prefixes(routes: seq<Route>): seq<string> {
    seq(|routes|, i requires 0 <= i < |routes| => routes[i].prefix)
  }

  /** Route number `i` is what `data` dispatches to. */
  ghost predicate Selects(routes: seq<Route>, data: string, i: nat) {
    IsBest(Prefixes(routes), p => Matches(p, data), i)
  }

  /** `str.lstrip(":")`. */
  function StripColons(s: string): (r: string)
    ensures r == "" || r[0] != ':'
    ensures |r| <= |s| && s[|s| - |r|..] == r && forall i :: 0 <= i < |s| - |r| ==> s[i] == ':'
  {
    if s != "" && s[0] == ':' then StripColons(s[1..]) else s
  }

  /** What dispatching comes to: the unknown toast, the owner rejection, or a handler
      with the rest of the data. */
  datatype Verdict = Unknown | OwnerRejected | Handled(handler: int, action: string)

  lemma MatchedIsPrefix(p: string, data: string)
    requires Matches(p, data)
    ensures p <= data
  {
    assert (p + ":")[..|p|] == p;
  }

  lemma MatchesArePrefixes(data: string)
    ensures PrefixesOf(p => Matches(p, data), data)
  {
    forall p: string | Matches(p, data) ensures p <= data {
      MatchedIsPrefix(p, data);
    }
  }

  /** A route matches exactly the data made of its prefix, a colon and anything, and an
      action that does not begin with a colon comes out as it went in. */
  lemma ActionRoundTrip(prefix: string, action: string, data: string)
    ensures Matches(prefix, data) <==> exists rest: string :: data == prefix + ":" + rest
    ensures action == "" || action[0] != ':' ==> StripColons((prefix + ":" + action)[|prefix|..]) == action
  {
    if Matches(prefix, data) {
      assert data == prefix + ":" + data[|prefix| + 1..];
    }
    var sent := (prefix + ":" + action)[|prefix|..];
    assert sent == ":" + action && sent[1..] == action;
  }

  /** Permuting a registry with distinct prefixes never changes where data goes. */
  lemma SelectionIgnoresOrder(routes: seq<Route>, others: seq<Route>, data: string, i: nat, j: nat)
    requires multiset(routes) == multiset(others) && Distinct(Prefixes(routes))
    requires Selects(routes, data, i) && Selects(others, data, j)
    ensures routes[i] == others[j]
  {
    assert others[j] in multiset(routes);
    var k :| 0 <= k < |routes| && routes[k] == others[j];
    assert routes[i] in multiset(others);
    var l :| 0 <= l < |others| && others[l] == routes[i];
    MatchesArePrefixes(data);
    var (p, q) := (Prefixes(routes), Prefixes(others));
    assert p[k] == q[j] && q[l] == p[i];
    assert |p[k]| <= |p[i]| && |q[l]| <= |q[j]|;
    EarliestDuplicateWins(p, x => Matches(x, data), data, i, k);
    assert p[k] == p[i];
  }

  class Router {
    var routes: seq<Route>

    constructor ()
      ensures routes == []
    {
      routes := [];
    }

    /** `register`. */
    method Register(prefix: string, handler: int, ownerOnly: bool)
      modifies this
      ensures routes == old(routes) + [Route(prefix, handler, ownerOnly)]
    {
      routes := routes + [Route(prefix, handler, ownerOnly)];
    }

    /** `_longest_match`: the longest matching route, the earliest among equals; None
        exactly if none matches. */
    method LongestMatch(data: string) returns (best: Option<Route>, ghost at: nat)
      ensures best.None? <==> forall r <- routes :: !Matches(r.prefix, data)
      ensures best.Some? ==> at < |routes| && best.value == routes[at] && Selects(routes, data, at)
    {
      best, at := None, 0;
      var i := 0;
      while i < |routes|
        invariant i <= |routes|
        invariant best.None? ==> forall j :: 0 <= j < i ==> !Matches(routes[j].prefix, data)
        invariant best.Some? ==> at < i && best.value == routes[at] && Matches(best.value.prefix, data)
        invariant best.Some? ==> forall j :: 0 <= j < i && Matches(routes[j].prefix, data) ==>
          |routes[j].prefix| <= |best.value.prefix| && (j < at ==> |routes[j].prefix| < |best.value.prefix|)
      {
        var route := routes[i];
        if Matches(route.prefix, data) {
          if best.None? || |route.prefix| > |best.value.prefix| {
            best, at := Some(route), i;
          }
        }
        i := i + 1;
      }
    }

    /** `dispatch`. An owner-only handler runs for the owner alone, and the action is
        the data without the prefix and the colons after it. */
    method Dispatch(data: string, isOwner: bool) returns (v: Verdict, ghost at: nat)
      ensures v.Unknown? <==> forall r <- routes :: !Matches(r.prefix, data)
      ensures !v.Unknown? ==> at < |routes| && routes[at].prefix <= data && Selects(routes, data, at)
      ensures !v.Unknown? ==>
        v == if routes[at].ownerOnly && !isOwner then OwnerRejected
             else Handled(routes[at].handler, StripColons(data[|routes[at].prefix|..]))
    {
      var route, best := LongestMatch(data);
      at := best;
      if route.None? {
        return Unknown, at;
      }
      MatchedIsPrefix(route.value.prefix, data);
      if route.value.ownerOnly && !isOwner {
        return OwnerRejected, at;
      }
      return Handled(route.value.handler, StripColons(data[|route.value.prefix|..])), at;
    }
  }
}
