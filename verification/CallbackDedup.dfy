/** The duplicate-callback guard of bot.py. */
module CallbackDedup {

  /** A user and the callback data. */
  type Key = (int, string)

  datatype Callback = Callback(user: int, data: string, now: real) {
    function Key(): Key {
      (user, data)
    }
  }

  const DEDUP_WINDOW := 0.8
  const PRUNE_ABOVE := 5000

  /** Data of the routes that have their own lock and are never dropped here. */
  predicate Exempt(data: string) {
    "srs:" <= data || "query:" <= data || "tts:" <= data || "study:" <= data
  }

  /** The guard's question to a table of last accepted times. */
  predicate Accepts(t: map<Key, real>, c: Callback) {
    Exempt(c.data) || c.Key() !in t || c.now - t[c.Key()] >= DEDUP_WINDOW
  }

  function Recorded(t: map<Key, real>, c: Callback): map<Key, real> {
    if !Exempt(c.data) && Accepts(t, c) then t[c.Key() := c.now] else t
  }

  /** The table after a history of callbacks if nothing is ever pruned. */
  function History(cs: seq<Callback>): map<Key, real> {
    if cs == [] then map[] else Recorded(History(cs[..|cs| - 1]), cs[|cs| - 1])
  }

  predicate Processed(cs: seq<Callback>, i: nat)
    requires i < |cs|
  {
    Accepts(History(cs[..i]), cs[i])
  }

  /** A monotonic clock. */
  predicate Monotone(cs: seq<Callback>) {
    forall i, j :: 0 <= i <= j < |cs| ==> cs[i].now <= cs[j].now
  }

  /** A key's entry is never older than any of its processed callbacks. */
  lemma {:induction false} HistoryRemembers(cs: seq<Callback>, i: nat)
    requires Monotone(cs) && i < |cs| && !Exempt(cs[i].data) && Processed(cs, i)
    ensures cs[i].Key() in History(cs) && cs[i].now <= History(cs)[cs[i].Key()]
  {
    var before := cs[..|cs| - 1];
    if i < |before| {
      assert before[..i] == cs[..i];
      HistoryRemembers(before, i);
    }
  }

  /** Of one user's callbacks with the same data, any two that are processed are at
      least 0.8 s apart. */
  lemma ProcessedAreApart(cs: seq<Callback>, i: nat, j: nat)
    requires Monotone(cs) && i < j < |cs| && cs[i].Key() == cs[j].Key() && !Exempt(cs[i].data)
    requires Processed(cs, i) && Processed(cs, j)
    ensures cs[j].now - cs[i].now >= 0.8
  {
    assert cs[..j][..i] == cs[..i];
    HistoryRemembers(cs[..j], i);
  }

  /** A key's entry is the time of one of its processed callbacks. */
  lemma {:induction false} HistoryIsProcessed(cs: seq<Callback>, k: Key) returns (i: nat)
    requires k in History(cs)
    ensures i < |cs| && cs[i].Key() == k && Processed(cs, i) && History(cs)[k] == cs[i].now
  {
    i := |cs| - 1;
    var before := cs[..i];
    if History(cs) == History(before) || cs[i].Key() != k {
      i := HistoryIsProcessed(before, k);
      assert before[..i] == cs[..i];
    }
  }

  /** A callback is processed exactly if its route has its own lock or every processed
      callback of its key is at least 0.8 s back: one that was dropped delays nothing. */
  lemma ProcessedExactlyWhen(cs: seq<Callback>, j: nat)
    requires Monotone(cs) && j < |cs|
    ensures Processed(cs, j) <==>
      Exempt(cs[j].data) ||
      forall i: nat :: i < j && cs[i].Key() == cs[j].Key() && Processed(cs, i) ==> cs[j].now - cs[i].now >= 0.8
  {
    var before := cs[..j];
    if !Exempt(cs[j].data) {
      if Processed(cs, j) {
        forall i: nat | i < j && cs[i].Key() == cs[j].Key() && Processed(cs, i)
          ensures cs[j].now - cs[i].now >= 0.8
        {
          ProcessedAreApart(cs, i, j);
        }
      } else {
        var i := HistoryIsProcessed(before, cs[j].Key());
        assert before[..i] == cs[..i];
        assert cs[i] == before[i] && Processed(cs, i) && cs[j].now - cs[i].now < 0.8;
      }
    }
  }

  /** `table` is `full` without some entries that can no longer drop a callback. */
  ghost predicate PrunedFrom(table: map<Key, real>, full: map<Key, real>, clock: real) {
    && (forall k <- full :: full[k] <= clock)
    && (forall k <- table :: k in full && table[k] == full[k])
    && (forall k <- full :: k !in table ==> clock - full[k] > DEDUP_WINDOW)
  }

  /** The pruned table and the full history answer every later callback alike. */
  lemma SameAnswer(table: map<Key, real>, full: map<Key, real>, clock: real, c: Callback)
    requires PrunedFrom(table, full, clock) && clock <= c.now
    ensures Accepts(table, c) <==> Accepts(full, c)
    ensures PrunedFrom(Recorded(table, c), Recorded(full, c), c.now)
  {
  }

  class Dedup {
    var table: map<Key, real>

    constructor ()
      ensures table == map[]
    {
      table := map[];
    }

    /** The guard at the head of `callback_router`: a callback is processed exactly if
        the unpruned history would let it through. */
    method Accept(c: Callback, ghost full: map<Key, real>, ghost clock: real) returns (processed: bool)
      requires PrunedFrom(table, full, clock) && clock <= c.now
      modifies this
      ensures processed <==> Accepts(full, c)
      ensures PrunedFrom(table, Recorded(full, c), c.now)
    {
      SameAnswer(table, full, clock, c);
      if "srs:" <= c.data || "query:" <= c.data || "tts:" <= c.data || "study:" <= c.data {
        return true;
      }
      if c.Key() in table && c.now - table[c.Key()] < DEDUP_WINDOW {
        return false;
      }
      table := table[c.Key() := c.now];
      if |table| > PRUNE_ABOVE {
        Prune(c.now, Recorded(full, c));
      }
      return true;
    }

    /** Drop exactly the entries older than the window. */
    method Prune(now: real, ghost full: map<Key, real>)
      requires PrunedFrom(table, full, now)
      modifies this
      ensures PrunedFrom(table, full, now)
      ensures table == map k | k in old(table) && now - old(table)[k] <= DEDUP_WINDOW :: old(table)[k]
    {
      var cutoff := now - DEDUP_WINDOW;
      var rest := table.Keys;
      while rest != {}
        invariant rest <= table.Keys <= old(table).Keys
        invariant forall k <- table :: table[k] == old(table)[k]
        invariant forall k <- old(table) :: k !in table ==> old(table)[k] < cutoff
        invariant forall k <- table :: k !in rest ==> table[k] >= cutoff
        decreases rest
      {
        var k :| k in rest;
        rest := rest - {k};
        if table[k] < cutoff {
          table := table - {k};
        }
      }
    }
  }

  /** On every sequence of callbacks a fresh guard, pruned as it goes, decides as the
      history that is never pruned. */
  method ProcessAll(cs: seq<Callback>) returns (decisions: seq<bool>)
    requires Monotone(cs)
    ensures |decisions| == |cs| && forall i :: 0 <= i < |cs| ==> decisions[i] == Processed(cs, i)
  {
    var d := new Dedup();
    decisions := [];
    ghost var clock := if cs == [] then 0.0 else cs[0].now;
    while |decisions| < |cs|
      invariant |decisions| <= |cs| && (|decisions| < |cs| ==> clock <= cs[|decisions|].now)
      invariant PrunedFrom(d.table, History(cs[..|decisions|]), clock)
      invariant forall i :: 0 <= i < |decisions| ==> decisions[i] == Processed(cs, i)
    {
      var i := |decisions|;
      assert cs[..i + 1][..i] == cs[..i];
      var processed := d.Accept(cs[i], History(cs[..i]), clock);
      clock := cs[i].now;
      decisions := decisions + [processed];
    }
  }
}
