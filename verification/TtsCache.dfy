/** The voice cache of services/tts_cache.py: a bounded least-recently-used memory
    over a table of file ids over mp3 files, and its nightly purge. */
module TtsCache {
  import opened Keys
  import opened Text
  import opened Wrappers

  type Key = string
  type Path = string

  /** A row; the fields that never change after a put are kept as one `content`. */
  datatype Row = Row(content: string, lastUsed: int)

  /******* Recency *******/

  /** `order` without `key`. */
  function Without(order: seq<Key>, key: Key): seq<Key> {
    if order == [] then []
    else (if order[0] == key then [] else [order[0]]) + Without(order[1..], key)
  }

  /** `move_to_end` or a first insertion. */
  function Touch(order: seq<Key>, key: Key): seq<Key> {
    Without(order, key) + [key]
  }

  function WithoutAll(order: seq<Key>, keys: set<Key>): seq<Key> {
    if order == [] then []
    else (if order[0] in keys then [] else [order[0]]) + WithoutAll(order[1..], keys)
  }

  /** `popitem(last=False)` when over the cap. */
  function Trim(order: seq<Key>, cap: nat): seq<Key> {
    if |order| > cap then order[1..] else order
  }

  predicate IsSuffix(s: seq<Key>, t: seq<Key>) {
    |s| <= |t| && s == t[|t| - |s|..]
  }

  lemma {:induction false} WithoutKeeps(order: seq<Key>, key: Key)
    requires Distinct(order)
    ensures var r := Without(order, key);
      && Distinct(r) && (forall k :: k in r <==> k in order && k != key)
      && |r| == |order| - (if key in order then 1 else 0)
      && (key !in order ==> r == order)
  {
    if order != [] {
      WithoutKeeps(order[1..], key);
      assert order == [order[0]] + order[1..] && order[0] !in order[1..];
    }
  }

  lemma {:induction false} WithoutAllKeeps(order: seq<Key>, keys: set<Key>)
    requires Distinct(order)
    ensures var r := WithoutAll(order, keys);
      && Distinct(r) && (forall k :: k in r <==> k in order && k !in keys)
      && |r| <= |order|
  {
    if order != [] {
      WithoutAllKeeps(order[1..], keys);
      assert order == [order[0]] + order[1..] && order[0] !in order[1..];
    }
  }

  lemma {:induction false} WithoutConcat(a: seq<Key>, b: seq<Key>, key: Key)
    ensures Without(a + b, key) == Without(a, key) + Without(b, key)
  {
    if a == [] {
      assert a + b == b;
    } else {
      assert (a + b)[1..] == a[1..] + b;
      WithoutConcat(a[1..], b, key);
    }
  }

  lemma {:induction false} WithoutAllConcat(a: seq<Key>, b: seq<Key>, keys: set<Key>)
    ensures WithoutAll(a + b, keys) == WithoutAll(a, keys) + WithoutAll(b, keys)
  {
    if a == [] {
      assert a + b == b;
    } else {
      assert (a + b)[1..] == a[1..] + b;
      WithoutAllConcat(a[1..], b, keys);
    }
  }

  lemma TouchKeeps(order: seq<Key>, key: Key)
    requires Distinct(order)
    ensures Distinct(Touch(order, key)) && (forall k :: k in Touch(order, key) <==> k in order || k == key)
    ensures |Touch(order, key)| <= |order| + 1
    ensures key in order ==> |Touch(order, key)| == |order|
  {
    WithoutKeeps(order, key);
  }

  /** A bounded order that is a suffix of the unbounded one stays so under a touch. */
  lemma TouchSuffix(order: seq<Key>, full: seq<Key>, key: Key, cap: nat)
    requires IsSuffix(order, full) && Distinct(full)
    ensures IsSuffix(Trim(Touch(order, key), cap), Touch(full, key))
  {
    var older := full[..|full| - |order|];
    assert full == older + order;
    WithoutConcat(older, order, key);
    var (t, u) := (Touch(order, key), Touch(full, key));
    assert u == Without(older, key) + t;
  }

  lemma DropSuffix(order: seq<Key>, full: seq<Key>, keys: set<Key>)
    requires IsSuffix(order, full)
    ensures IsSuffix(WithoutAll(order, keys), WithoutAll(full, keys))
  {
    var older := full[..|full| - |order|];
    assert full == older + order;
    WithoutAllConcat(older, order, keys);
  }

  /******* Histories *******/

  /** What happened to the cache memory, newest last. */
  datatype Op = Used(key: Key) | Dropped(keys: set<Key>) | Cleared

  /** The keys used and not dropped since the last clear, by their last use. */
  function Recency(history: seq<Op>): seq<Key> {
    if history == [] then []
    else
      var before := Recency(history[..|history| - 1]);
      match history[|history| - 1]
      case Used(key) => Touch(before, key)
      case Dropped(keys) => WithoutAll(before, keys)
      case Cleared => []
  }

  /** One past the position of the last use of `key`, 0 if there is none. */
  function LastUse(history: seq<Op>, key: Key): nat {
    if history == [] then 0
    else if history[|history| - 1] == Used(key) then |history|
    else LastUse(history[..|history| - 1], key)
  }

  lemma {:induction false} LastUseBound(history: seq<Op>, key: Key)
    ensures LastUse(history, key) <= |history|
  {
    if history != [] {
      LastUseBound(history[..|history| - 1], key);
    }
  }

  predicate OrderedByUse(order: seq<Key>, history: seq<Op>) {
    forall i, j :: 0 <= i < j < |order| ==> LastUse(history, order[i]) < LastUse(history, order[j])
  }

  /** `Recency` lists distinct keys in the order of their last uses. */
  lemma {:induction false} RecencyIsByLastUse(history: seq<Op>)
    ensures Distinct(Recency(history)) && OrderedByUse(Recency(history), history)
  {
    if history != [] {
      var before := history[..|history| - 1];
      RecencyIsByLastUse(before);
      match history[|history| - 1]
      case Used(key) =>
        WithoutKeeps(Recency(before), key);
        WithoutOrdered(Recency(before), key, before);
        forall k ensures LastUse(before, k) < |history| {
          LastUseBound(before, k);
        }
      case Dropped(keys) =>
        WithoutAllKeeps(Recency(before), keys);
        WithoutAllOrdered(Recency(before), keys, before);
      case Cleared =>
    }
  }

  lemma {:induction false} WithoutOrdered(order: seq<Key>, key: Key, history: seq<Op>)
    requires Distinct(order) && OrderedByUse(order, history)
    ensures OrderedByUse(Without(order, key), history)
  {
    if order != [] {
      var rest := Without(order[1..], key);
      WithoutOrdered(order[1..], key, history);
      WithoutKeeps(order[1..], key);
      forall k <- rest ensures LastUse(history, order[0]) < LastUse(history, k) {
        var i :| 0 <= i < |order| - 1 && order[1..][i] == k;
        assert order[i + 1] == k;
      }
    }
  }

  lemma {:induction false} WithoutAllOrdered(order: seq<Key>, keys: set<Key>, history: seq<Op>)
    requires Distinct(order) && OrderedByUse(order, history)
    ensures OrderedByUse(WithoutAll(order, keys), history)
  {
    if order != [] {
      var rest := WithoutAll(order[1..], keys);
      WithoutAllOrdered(order[1..], keys, history);
      WithoutAllKeeps(order[1..], keys);
      forall k <- rest ensures LastUse(history, order[0]) < LastUse(history, k) {
        var i :| 0 <= i < |order| - 1 && order[1..][i] == k;
        assert order[i + 1] == k;
      }
    }
  }

  lemma LostIsEarlier(s: seq<Key>, t: seq<Key>, kept: Key, lost: Key) returns (j: nat, i: nat)
    requires IsSuffix(s, t) && kept in s && lost in t && lost !in s
    ensures j < i < |t| && t[j] == lost && t[i] == kept
  {
    var base := |t| - |s|;
    var x :| 0 <= x < |s| && s[x] == kept;
    i := base + x;
    j :| 0 <= j < |t| && t[j] == lost;
    assert s == t[base..];
  }

  /** What a bounded order keeps: every key it holds was used after every live key it
      lacks. */
  lemma KeepsTheMostRecent(order: seq<Key>, history: seq<Op>, kept: Key, lost: Key)
    requires IsSuffix(order, Recency(history))
    requires kept in order && lost in Recency(history) && lost !in order
    ensures LastUse(history, lost) < LastUse(history, kept)
  {
    RecencyIsByLastUse(history);
    var j, i := LostIsEarlier(order, Recency(history), kept, lost);
  }

  /******* Ages and sizes *******/

  /** `ORDER BY last_used_at ASC, cache_key ASC`. */
  predicate Older(table: map<Key, Row>, a: Key, b: Key)
    requires a in table && b in table
  {
    table[a].lastUsed < table[b].lastUsed || (table[a].lastUsed == table[b].lastUsed && TextLess(a, b))
  }

  /** `ordered` lists keys of the table, each once, oldest first. */
  predicate OldestFirst(ordered: seq<Key>, table: map<Key, Row>) {
    && (forall k <- ordered :: k in table) && Distinct(ordered)
    && forall i, j :: 0 <= i < j < |ordered| ==> Older(table, ordered[i], ordered[j])
  }

  /** The bytes of the mp3 files behind `keys`, 0 for a missing file. */
  function SizeOf(files: map<Path, nat>, path: Key -> Path, key: Key): nat {
    if path(key) in files then files[path(key)] else 0
  }

  function Total(files: map<Path, nat>, path: Key -> Path, keys: seq<Key>): nat {
    if keys == [] then 0 else Total(files, path, keys[..|keys| - 1]) + SizeOf(files, path, keys[|keys| - 1])
  }

  lemma {:induction false} TotalConcat(files: map<Path, nat>, path: Key -> Path, a: seq<Key>, b: seq<Key>)
    ensures Total(files, path, a + b) == Total(files, path, a) + Total(files, path, b)
  {
    if b == [] {
      assert a + b == a;
    } else {
      assert (a + b)[..|a + b| - 1] == a + b[..|b| - 1];
      TotalConcat(files, path, a, b[..|b| - 1]);
    }
  }

  lemma TotalStep(files: map<Path, nat>, path: Key -> Path, keys: seq<Key>, n: nat)
    requires n < |keys|
    ensures Total(files, path, keys[..n + 1]) == Total(files, path, keys[..n]) + SizeOf(files, path, keys[n])
  {
    assert keys[..n + 1][..n] == keys[..n];
  }

  /** The same total over a set of keys. */
  ghost function SetTotal(files: map<Path, nat>, path: Key -> Path, keys: set<Key>): nat {
    if keys == {} then 0
    else
      var k :| k in keys;
      SizeOf(files, path, k) + SetTotal(files, path, keys - {k})
  }

  /** Any key may be taken out first. */
  lemma {:induction false} SetTotalPick(files: map<Path, nat>, path: Key -> Path, keys: set<Key>, key: Key)
    requires key in keys
    ensures SetTotal(files, path, keys) == SizeOf(files, path, key) + SetTotal(files, path, keys - {key})
    decreases |keys|
  {
    var k :| k in keys && SetTotal(files, path, keys) == SizeOf(files, path, k) + SetTotal(files, path, keys - {k});
    if k != key {
      SetTotalPick(files, path, keys - {k}, key);
      SetTotalPick(files, path, keys - {key}, k);
      assert keys - {k} - {key} == keys - {key} - {k};
    }
  }

  lemma SetTotalAdd(files: map<Path, nat>, path: Key -> Path, keys: set<Key>, key: Key)
    requires key !in keys
    ensures SetTotal(files, path, keys + {key}) == SetTotal(files, path, keys) + SizeOf(files, path, key)
  {
    SetTotalPick(files, path, keys + {key}, key);
    assert keys + {key} - {key} == keys;
  }

  lemma {:induction false} TotalIsSetTotal(files: map<Path, nat>, path: Key -> Path, keys: seq<Key>)
    requires Distinct(keys)
    ensures Total(files, path, keys) == SetTotal(files, path, KeySet(keys))
  {
    if keys != [] {
      var (before, last) := (keys[..|keys| - 1], keys[|keys| - 1]);
      TotalIsSetTotal(files, path, before);
      assert keys == before + [last];
      assert KeySet(keys) == KeySet(before) + {last};
      SetTotalAdd(files, path, KeySet(before), last);
    } else {
      assert KeySet(keys) == {};
    }
  }

  /******* Ordered selection *******/

  function Insert(ordered: seq<Key>, key: Key, table: map<Key, Row>): seq<Key>
    requires key in table && forall k <- ordered :: k in table
  {
    if ordered == [] || Older(table, key, ordered[0]) then [key] + ordered
    else [ordered[0]] + Insert(ordered[1..], key, table)
  }

  lemma OlderTransitive(table: map<Key, Row>, a: Key, b: Key, c: Key)
    requires a in table && b in table && c in table && Older(table, a, b) && Older(table, b, c)
    ensures Older(table, a, c)
  {
    if TextLess(a, b) && TextLess(b, c) {
      TextLessTransitive(a, b, c);
    }
  }

  lemma {:induction false} InsertKeeps(ordered: seq<Key>, key: Key, table: map<Key, Row>)
    requires OldestFirst(ordered, table) && key in table && key !in ordered
    ensures OldestFirst(Insert(ordered, key, table), table)
    ensures KeySet(Insert(ordered, key, table)) == KeySet(ordered) + {key}
  {
    if ordered == [] {
    } else if Older(table, key, ordered[0]) {
      forall k <- ordered[1..] ensures Older(table, key, k) {
        OlderTransitive(table, key, ordered[0], k);
      }
      ConsKeys(key, ordered);
    } else {
      TextLessTotal(key, ordered[0]);
      InsertKeeps(ordered[1..], key, table);
      var rest := Insert(ordered[1..], key, table);
      forall k <- rest ensures k != ordered[0] && Older(table, ordered[0], k) {
        assert k in KeySet(rest);
      }
      ConsKeys(ordered[0], ordered[1..]);
      ConsKeys(ordered[0], rest);
      assert ordered == [ordered[0]] + ordered[1..];
    }
  }

  lemma ConsKeys(head: Key, rest: seq<Key>)
    ensures KeySet([head] + rest) == {head} + KeySet(rest)
  {
  }

  /** `SELECT cache_key ... ORDER BY last_used_at, cache_key` over the rows in `keys`. */
  method SelectOldestFirst(table: map<Key, Row>, keys: set<Key>) returns (ordered: seq<Key>)
    requires keys <= table.Keys
    ensures OldestFirst(ordered, table) && KeySet(ordered) == keys
  {
    ordered := [];
    var rest := keys;
    while rest != {}
      invariant rest <= keys && OldestFirst(ordered, table) && KeySet(ordered) == keys - rest
      decreases rest
    {
      var k :| k in rest;
      assert k !in KeySet(ordered);
      InsertKeeps(ordered, k, table);
      ordered := Insert(ordered, k, table);
      rest := rest - {k};
    }
  }

  /******* Dropping keys one at a time *******/

  lemma {:induction false} WithoutAllStep(order: seq<Key>, keys: set<Key>, key: Key)
    ensures Without(WithoutAll(order, keys), key) == WithoutAll(order, keys + {key})
  {
    if order != [] {
      WithoutAllStep(order[1..], keys, key);
      var head := if order[0] in keys then [] else [order[0]];
      WithoutConcat(head, WithoutAll(order[1..], keys), key);
      assert order[0] !in keys ==> head[1..] == [];
    }
  }

  lemma {:induction false} WithoutAllTwice(order: seq<Key>, a: set<Key>, b: set<Key>)
    ensures WithoutAll(WithoutAll(order, a), b) == WithoutAll(order, a + b)
  {
    if order != [] {
      WithoutAllTwice(order[1..], a, b);
      var head := if order[0] in a then [] else [order[0]];
      WithoutAllConcat(head, WithoutAll(order[1..], a), b);
      assert order[0] !in a ==> head[1..] == [];
    }
  }

  lemma {:induction false} WithoutNone(order: seq<Key>)
    ensures WithoutAll(order, {}) == order
  {
    if order != [] {
      WithoutNone(order[1..]);
    }
  }

  /******* The cache *******/

  const LRU_CAP := 3000

  /** A database fault in a lookup: the select fails, or only the stamp update. */
  datatype Fault = NoFault | SelectFails | UpdateFails

  /** The memory holds table rows up to their stamps, at most 3000 of them, in the
      order of their last uses, and every key it lacks was used less recently. */
  ghost predicate MemoryOk(lru: map<Key, Row>, order: seq<Key>, table: map<Key, Row>, history: seq<Op>) {
    && Distinct(order) && |order| <= 3000 && KeySet(order) == lru.Keys
    && (forall k <- lru :: k in table && lru[k].content == table[k].content)
    && IsSuffix(order, Recency(history))
    && KeySet(Recency(history)) <= table.Keys
  }

  /** `_lru[key] = row`, moved to the end, with the oldest entry popped over the cap. */
  function Stored(lru: map<Key, Row>, order: seq<Key>, key: Key, row: Row): map<Key, Row> {
    var touched := Touch(order, key);
    if |touched| > LRU_CAP then lru[key := row] - {touched[0]} else lru[key := row]
  }

  /** `written` is what the table row of `key` becomes while the memory gets `row`. */
  lemma RememberKeeps(
    lru: map<Key, Row>, order: seq<Key>, table: map<Key, Row>, history: seq<Op>, key: Key, row: Row, written: Row)
    requires MemoryOk(lru, order, table, history) && row.content == written.content
    ensures MemoryOk(
      Stored(lru, order, key, row), Trim(Touch(order, key), LRU_CAP), table[key := written], history + [Used(key)])
    ensures |Touch(order, key)| == |lru[key := row]|
    ensures key in Stored(lru, order, key, row) && Stored(lru, order, key, row)[key] == row
  {
    StoredKeys(lru, order, key, row);
    StoredSuffix(order, table[key := written], history, key);
    StoredContents(lru, order, table, key, row, written);
  }

  lemma Rewritten(table: map<Key, Row>, key: Key)
    requires key in table
    ensures table[key := table[key]] == table
  {
  }

  lemma StoredContents(
    lru: map<Key, Row>, order: seq<Key>, table: map<Key, Row>, key: Key, row: Row, written: Row)
    requires forall k <- lru :: k in table && lru[k].content == table[k].content
    requires row.content == written.content
    ensures forall k <- Stored(lru, order, key, row) ::
      k in table[key := written] && Stored(lru, order, key, row)[k].content == table[key := written][k].content
    ensures key in Stored(lru, order, key, row) ==> Stored(lru, order, key, row)[key] == row
  {
  }

  lemma StoredSuffix(order: seq<Key>, table: map<Key, Row>, history: seq<Op>, key: Key)
    requires IsSuffix(order, Recency(history)) && KeySet(Recency(history)) <= table.Keys && key in table
    ensures IsSuffix(Trim(Touch(order, key), LRU_CAP), Recency(history + [Used(key)]))
    ensures KeySet(Recency(history + [Used(key)])) <= table.Keys
  {
    RecencyTouched(table, history, key);
    TouchSuffix(order, Recency(history), key, LRU_CAP);
  }

  lemma StoredKeys(lru: map<Key, Row>, order: seq<Key>, key: Key, row: Row)
    requires Distinct(order) && |order| <= LRU_CAP && KeySet(order) == lru.Keys
    ensures var order' := Trim(Touch(order, key), LRU_CAP);
      && Distinct(order') && |order'| <= LRU_CAP && key in order'
      && KeySet(order') == Stored(lru, order, key, row).Keys
    ensures |Touch(order, key)| == |lru[key := row]|
  {
    var touched := Touch(order, key);
    TouchedKeys(order, key);
    TrimmedKeys(touched, key);
    WrittenKeys(lru, key, row, touched[0]);
  }

  lemma WrittenKeys(m: map<Key, Row>, key: Key, row: Row, gone: Key)
    ensures m[key := row].Keys == m.Keys + {key} && (m[key := row] - {gone}).Keys == m.Keys + {key} - {gone}
    ensures |m[key := row]| == |m.Keys + {key}|
  {
    assert m[key := row].Keys == m.Keys + {key};
  }

  /** Trimming drops the first key only, which is not the one just touched. */
  lemma TrimmedKeys(touched: seq<Key>, key: Key)
    requires Distinct(touched) && 0 < |touched| <= LRU_CAP + 1 && touched[|touched| - 1] == key
    ensures var r := Trim(touched, LRU_CAP);
      && Distinct(r) && |r| <= LRU_CAP && key in r
      && KeySet(r) == if |touched| > LRU_CAP then KeySet(touched) - {touched[0]} else KeySet(touched)
  {
    if |touched| > LRU_CAP {
      assert touched == [touched[0]] + touched[1..] && touched[0] !in touched[1..];
      assert touched[1..][|touched| - 2] == key;
    }
  }

  lemma TouchedKeys(order: seq<Key>, key: Key)
    requires Distinct(order)
    ensures Distinct(Touch(order, key)) && KeySet(Touch(order, key)) == KeySet(order) + {key}
    ensures |Touch(order, key)| == |KeySet(order) + {key}| <= |order| + 1
    ensures Touch(order, key)[|Touch(order, key)| - 1] == key
    ensures |Touch(order, key)| == |order| + 1 ==> key !in order
  {
    TouchKeeps(order, key);
    WithoutKeeps(order, key);
    SizeOfDistinct(Touch(order, key));
  }

  lemma RecencyTouched(table: map<Key, Row>, history: seq<Op>, key: Key)
    requires KeySet(Recency(history)) <= table.Keys && key in table
    ensures Recency(history + [Used(key)]) == Touch(Recency(history), key)
    ensures Distinct(Recency(history)) && KeySet(Recency(history + [Used(key)])) <= table.Keys
  {
    assert (history + [Used(key)])[..|history|] == history;
    RecencyIsByLastUse(history);
    TouchedKeys(Recency(history), key);
  }

  lemma DropKeeps(lru: map<Key, Row>, order: seq<Key>, table: map<Key, Row>, history: seq<Op>, keys: set<Key>)
    requires MemoryOk(lru, order, table, history)
    ensures MemoryOk(lru - keys, WithoutAll(order, keys), table - keys, history + [Dropped(keys)])
  {
    assert (history + [Dropped(keys)])[..|history|] == history;
    var full := Recency(history);
    RecencyIsByLastUse(history);
    DroppedKeys(order, keys);
    DroppedKeys(full, keys);
    DropSuffix(order, full, keys);
  }

  lemma DroppedKeys(order: seq<Key>, keys: set<Key>)
    requires Distinct(order)
    ensures var r := WithoutAll(order, keys);
      Distinct(r) && |r| <= |order| && KeySet(r) == KeySet(order) - keys
  {
    WithoutAllKeeps(order, keys);
  }

  /** The four stores of the cache, and what they are without some keys. */
  datatype Store = Store(table: map<Key, Row>, files: map<Path, nat>, lru: map<Key, Row>, order: seq<Key>)

  /** The deletable files that go with `keys`. */
  function FilesOf(keys: set<Key>, path: Key -> Path, undeletable: set<Path>): set<Path> {
    (set k | k in keys :: path(k)) - undeletable
  }

  function Drop(s: Store, keys: set<Key>, path: Key -> Path, undeletable: set<Path>): Store {
    Store(s.table - keys, s.files - FilesOf(keys, path, undeletable), s.lru - keys, WithoutAll(s.order, keys))
  }

  lemma DropTwice(s: Store, a: set<Key>, b: set<Key>, path: Key -> Path, undeletable: set<Path>)
    ensures Drop(Drop(s, a, path, undeletable), b, path, undeletable) == Drop(s, a + b, path, undeletable)
  {
    MinusTwice(s.table, a, b);
    MinusTwice(s.lru, a, b);
    MinusTwice(s.files, FilesOf(a, path, undeletable), FilesOf(b, path, undeletable));
    assert FilesOf(a + b, path, undeletable) == FilesOf(a, path, undeletable) + FilesOf(b, path, undeletable);
    WithoutAllTwice(s.order, a, b);
  }

  lemma DropNone(s: Store, path: Key -> Path, undeletable: set<Path>)
    ensures Drop(s, {}, path, undeletable) == s
  {
    WithoutNone(s.order);
  }

  class Cache {
    const path: Key -> Path
    const undeletable: set<Path>

    var lru: map<Key, Row>
    var order: seq<Key>
    var table: map<Key, Row>
    var files: map<Path, nat>
    ghost var history: seq<Op>

    ghost predicate Valid()
      reads this
    {
      MemoryOk(lru, order, table, history)
    }

    function State(): Store
      reads this
    {
      Store(table, files, lru, order)
    }

    /** `s` without `keys`, everywhere. */
    function Less(s: Store, keys: set<Key>): Store {
      Drop(s, keys, path, undeletable)
    }

    constructor (path: Key -> Path, undeletable: set<Path>, table: map<Key, Row>, files: map<Path, nat>)
      ensures Valid() && State() == Store(table, files, map[], []) && history == []
      ensures this.path == path && this.undeletable == undeletable
    {
      this.path, this.undeletable := path, undeletable;
      this.table, this.files := table, files;
      lru, order, history := map[], [], [];
      new;
      assert Recency([]) == [];
    }

    /** `_lru[key] = row; move_to_end; popitem(last=False)` over the cap. */
    method Remember(key: Key, row: Row)
      requires |Touch(order, key)| == |lru[key := row]|
      modifies this`lru, this`order, this`history
      ensures lru == Stored(old(lru), old(order), key, row) && order == Trim(Touch(old(order), key), LRU_CAP)
      ensures history == old(history) + [Used(key)]
    {
      lru := lru[key := row];
      order := Touch(order, key);
      if |lru| > LRU_CAP {
        lru := lru - {order[0]};
        order := order[1..];
      }
      history := history + [Used(key)];
    }

    /** `get_cached`. A memory hit does not touch the table; a table hit stamps it. */
    method GetCached(key: Key, now: int, fault: Fault) returns (row: Option<Row>)
      requires Valid()
      modifies this`lru, this`order, this`table, this`history
      ensures Valid()
      ensures row.Some? <==> key in old(table) && (key in old(lru) || !fault.SelectFails?)
      ensures row.Some? ==> row.value.content == old(table)[key].content
      ensures table ==
        if row.Some? && key !in old(lru) && fault.NoFault? then old(table)[key := old(table)[key].(lastUsed := now)]
        else old(table)
      ensures history == if row.Some? then old(history) + [Used(key)] else old(history)
      ensures order == if row.Some? then Trim(Touch(old(order), key), LRU_CAP) else old(order)
    {
      if key in lru {
        var hit := lru[key];
        RememberKeeps(lru, order, table, history, key, hit, table[key]);
        Rewritten(table, key);
        Remember(key, hit);
        return Some(hit);
      }
      if fault.SelectFails? || key !in table {
        return None;
      }
      row := ReadRow(key, now, fault.NoFault?);
    }

    /** The table half of `get_cached`; `stamped` if the update of the stamp succeeds. */
    method ReadRow(key: Key, now: int, stamped: bool) returns (row: Option<Row>)
      requires Valid() && key in table
      modifies this`lru, this`order, this`table, this`history
      ensures Valid() && row == Some(old(table)[key].(lastUsed := now))
      ensures table == if stamped then old(table)[key := row.value] else old(table)
      ensures history == old(history) + [Used(key)] && order == Trim(Touch(old(order), key), LRU_CAP)
    {
      var found := table[key].(lastUsed := now);
      RememberKeeps(lru, order, table, history, key, found, if stamped then found else table[key]);
      Rewritten(table, key);
      if stamped {
        table := table[key := found];
      }
      Remember(key, found);
      return Some(found);
    }

    /** `put_cached`; a database error ends it before memory is touched. */
    method PutCached(key: Key, content: string, now: int, dbOk: bool)
      requires Valid()
      modifies this`lru, this`order, this`table, this`history
      ensures Valid()
      ensures !dbOk ==> State() == old(State()) && history == old(history)
      ensures dbOk ==> table == old(table)[key := Row(content, now)] && key in lru && lru[key] == Row(content, now)
      ensures dbOk ==> history == old(history) + [Used(key)] && order == Trim(Touch(old(order), key), LRU_CAP)
    {
      if !dbOk {
        return;
      }
      var row := Row(content, now);
      RememberKeeps(lru, order, table, history, key, row, row);
      table := table[key := row];
      Remember(key, row);
    }

    /** `clear_lru`. */
    method ClearLru()
      requires Valid()
      modifies this`lru, this`order, this`history
      ensures Valid() && lru == map[] && order == [] && history == old(history) + [Cleared]
    {
      lru, order := map[], [];
      history := history + [Cleared];
    }

    /** `_delete_rows_and_files`: rows, then memory entries, then files. */
    method DeleteRowsAndFiles(keys: seq<Key>)
      requires Valid()
      modifies this
      ensures Valid() && State() == Less(old(State()), KeySet(keys))
    {
      DropNone(State(), path, undeletable);
      if keys == [] {
        assert KeySet(keys) == {};
        return;
      }
      table := table - KeySet(keys);
      ForgetAll(keys);
      UnlinkAll(keys);
      DropKeeps(old(lru), old(order), old(table), old(history), KeySet(keys));
      history := history + [Dropped(KeySet(keys))];
    }

    method ForgetAll(keys: seq<Key>)
      modifies this`lru, this`order
      ensures lru == old(lru) - KeySet(keys) && order == WithoutAll(old(order), KeySet(keys))
    {
      WithoutNone(order);
      assert KeySet(keys[..0]) == {};
      for i := 0 to |keys|
        invariant lru == old(lru) - KeySet(keys[..i]) && order == WithoutAll(old(order), KeySet(keys[..i]))
      {
        assert KeySet(keys[..i + 1]) == KeySet(keys[..i]) + {keys[i]};
        WithoutAllStep(old(order), KeySet(keys[..i]), keys[i]);
        lru := lru - {keys[i]};
        order := Without(order, keys[i]);
      }
      assert keys[..|keys|] == keys;
    }

    method UnlinkAll(keys: seq<Key>)
      modifies this`files
      ensures files == old(files) - FilesOf(KeySet(keys), path, undeletable)
    {
      for i := 0 to |keys|
        invariant files == old(files) - FilesOf(KeySet(keys[..i]), path, undeletable)
      {
        assert KeySet(keys[..i + 1]) == KeySet(keys[..i]) + {keys[i]};
        if path(keys[i]) !in undeletable {
          files := files - {path(keys[i])};
        }
      }
      assert keys[..|keys|] == keys;
    }

    /******* The purge *******/

    /** `SELECT cache_key ... WHERE last_used_at < ? ORDER BY last_used_at LIMIT ?`. Which
        of several rows with one stamp come first is left open. */
    method SelectExpired(batch: nat, cutoff: int) returns (keys: seq<Key>)
      ensures |keys| <= batch && Distinct(keys) && KeySet(keys) <= table.Keys
      ensures AllExpired(table, KeySet(keys), cutoff) && LeastUsedGone(table, KeySet(keys))
      ensures |keys| < batch ==> forall k <- table.Keys - KeySet(keys) :: table[k].lastUsed >= cutoff
    {
      var ordered := SelectOldestFirst(table, Expired(table, cutoff));
      var n := if |ordered| <= batch then |ordered| else batch;
      BatchIsOldest(table, ordered, n, cutoff);
      keys := ordered[..n];
      assert n == |ordered| ==> keys == ordered;
    }

    /** One round of pass 1 after `gone`: how many rows it deleted. */
    method ExpireBatch(batch: nat, cutoff: int, ghost first: Store, ghost gone: set<Key>)
      returns (n: nat, ghost gone': set<Key>)
      requires Valid() && gone <= first.table.Keys && State() == Less(first, gone)
      requires LeastUsedGone(first.table, gone) && AllExpired(first.table, gone, cutoff)
      modifies this
      ensures Valid() && gone' <= first.table.Keys && State() == Less(first, gone')
      ensures LeastUsedGone(first.table, gone') && AllExpired(first.table, gone', cutoff)
      ensures n <= batch && |gone'| == |gone| + n && |table| == |old(table)| - n
      ensures n < batch ==> AllFresh(table, cutoff)
    {
      var keys := SelectExpired(batch, cutoff);
      n, gone' := |keys|, gone + KeySet(keys);
      BatchStep(first.table, table, gone, keys, cutoff);
      DropTwice(first, gone, KeySet(keys), path, undeletable);
      if keys == [] {
        return n, gone;
      }
      DeleteRowsAndFiles(keys);
    }

    /** Pass 1: rows last used before `cutoff`, in batches, oldest first. The clock is
        checked before each batch, and the first `deadline` checks find time left. The
        pass leaves an expired row only after a whole batch for each of these checks. */
    method PurgeExpired(batch: nat, cutoff: int, deadline: Option<nat>)
      returns (count: nat, checks: nat, ghost gone: set<Key>, ghost batches: nat)
      requires Valid() && batch >= 1
      modifies this
      ensures Valid() && gone <= old(table).Keys && State() == Less(old(State()), gone) && count == |gone|
      ensures AllExpired(old(table), gone, cutoff) && LeastUsedGone(old(table), gone)
      ensures deadline.None? || batches < deadline.value ==> gone == Expired(old(table), cutoff)
      ensures deadline.None? || batches < deadline.value ==> AllFresh(table, cutoff)
      ensures checks == batches + 1 && batches * batch <= count < batches * batch + batch
      ensures deadline.Some? ==> batches <= deadline.value && (batches == deadline.value ==> count == batches * batch)
    {
      count, checks, gone, batches := 0, 0, {}, 0;
      DropNone(State(), path, undeletable);
      while true
        invariant Valid() && gone <= old(table).Keys && State() == Less(old(State()), gone) && count == |gone|
        invariant AllExpired(old(table), gone, cutoff) && LeastUsedGone(old(table), gone)
        invariant checks == batches && count == batches * batch
        invariant deadline.Some? ==> batches <= deadline.value
        decreases |table|
      {
        checks := checks + 1;
        if deadline.Some? && deadline.value < checks {
          return;
        }
        var n;
        n, gone := ExpireBatch(batch, cutoff, old(State()), gone);
        count := count + n;
        if n < batch {
          ExpiredGone(old(table), gone, cutoff);
          return;
        }
        OneMore(batches, batch);
        batches := batches + 1;
      }
    }

    method MeasureAll(ordered: seq<Key>) returns (sizes: map<Key, nat>, total: nat)
      ensures sizes.Keys == KeySet(ordered) && forall k <- sizes :: sizes[k] == SizeOf(files, path, k)
      ensures total == Total(files, path, ordered)
    {
      sizes, total := map[], 0;
      for i := 0 to |ordered|
        invariant sizes.Keys == KeySet(ordered[..i]) && forall k <- sizes :: sizes[k] == SizeOf(files, path, k)
        invariant total == Total(files, path, ordered[..i])
      {
        var size := SizeOf(files, path, ordered[i]);
        sizes := sizes[ordered[i] := size];
        total := total + size;
        TotalStep(files, path, ordered, i);
        assert ordered[..i + 1] == ordered[..i] + [ordered[i]];
      }
      assert ordered[..|ordered|] == ordered;
    }

    /** The shortest prefix of `ordered` that frees `over` bytes, else all of it. */
    method PickVictims(ordered: seq<Key>, sizes: map<Key, nat>, over: int) returns (n: nat)
      requires over > 0
      requires sizes.Keys == KeySet(ordered) && forall k <- sizes :: sizes[k] == SizeOf(files, path, k)
      ensures n <= |ordered| && (n == |ordered| || Total(files, path, ordered[..n]) >= over)
      ensures n > 0 ==> Total(files, path, ordered[..n - 1]) < over
    {
      n := 0;
      var freed := 0;
      while n < |ordered|
        invariant n <= |ordered| && freed == Total(files, path, ordered[..n]) < over
        invariant n > 0 ==> Total(files, path, ordered[..n - 1]) < over
      {
        assert ordered[n] in KeySet(ordered);
        TotalStep(files, path, ordered, n);
        freed := freed + sizes[ordered[n]];
        n := n + 1;
        if freed >= over {
          return;
        }
      }
    }

    /** Delete `victims` in chunks until done or late: the first `count` of them go. It
        stops short only when the chunks, one check each, have used up the checks left. */
    method DeleteVictims(victims: seq<Key>, batch: nat, deadline: Option<nat>, started: nat)
      returns (count: nat, ghost chunks: nat)
      requires Valid() && batch >= 1
      modifies this
      ensures Valid() && count <= |victims| && State() == Less(old(State()), KeySet(victims[..count]))
      ensures count == |victims| || (deadline.Some? && count == chunks * batch && deadline.value <= started + chunks)
      ensures count <= chunks * batch && (deadline.Some? && chunks > 0 ==> started + chunks <= deadline.value)
    {
      count, chunks := 0, 0;
      var checks := started;
      DropNone(State(), path, undeletable);
      assert KeySet(victims[..0]) == {};
      while count < |victims|
        invariant Valid() && count <= |victims| && (count == |victims| || count == chunks * batch)
        invariant count <= chunks * batch && checks == started + chunks
        invariant deadline.Some? && chunks > 0 ==> checks <= deadline.value
        invariant State() == Less(old(State()), KeySet(victims[..count]))
      {
        checks := checks + 1;
        if deadline.Some? && deadline.value < checks {
          return;
        }
        var end := if count + batch <= |victims| then count + batch else |victims|;
        var chunk := victims[count..end];
        NextChunk(victims, count, end);
        DropTwice(old(State()), KeySet(victims[..count]), KeySet(chunk), path, undeletable);
        DeleteRowsAndFiles(chunk);
        OneMore(chunks, batch);
        count, chunks := end, chunks + 1;
      }
    }

    /** Pass 2: while the files of the rows exceed `maxBytes`, evict the oldest rows. One
        check of the clock comes first and one before each of the `chunks`. */
    method PurgeOverCap(batch: nat, maxBytes: int, deadline: Option<nat>, started: nat)
      returns (count: nat, ghost gone: set<Key>, ghost chunks: nat)
      requires Valid() && batch >= 1
      modifies this
      ensures Valid() && gone <= old(table).Keys && State() == Less(old(State()), gone) && count == |gone|
      ensures Evicted(old(table), old(files), path, gone, maxBytes)
      ensures deadline.None? || count != chunks * batch || started + 1 + chunks < deadline.value
        ==> Fits(old(files), path, old(table).Keys - gone, maxBytes)
      ensures count <= chunks * batch && (deadline.Some? && chunks > 0 ==> started + 1 + chunks <= deadline.value)
    {
      count, gone, chunks := 0, {}, 0;
      DropNone(State(), path, undeletable);
      if deadline.Some? && deadline.value < started + 1 {
        return;
      }
      var ordered, n := PickOverCap(maxBytes);
      ghost var s := State();
      count, chunks := DeleteVictims(ordered[..n], batch, deadline, started + 1);
      TakeTwice(ordered, n, count);
      EvictionFacts(s.table, s.files, path, ordered, n, count, maxBytes);
      gone := KeySet(ordered[..count]);
    }

    /** The rows oldest first, and how many of them to evict. */
    method PickOverCap(maxBytes: int) returns (ordered: seq<Key>, n: nat)
      ensures OldestFirst(ordered, table) && KeySet(ordered) == table.Keys && n <= |ordered|
      ensures var over := Total(files, path, ordered) - maxBytes;
        && (n == |ordered| || Total(files, path, ordered[..n]) >= over)
        && (n > 0 ==> Total(files, path, ordered[..n - 1]) < over)
    {
      ordered := SelectOldestFirst(table, table.Keys);
      var sizes, total := MeasureAll(ordered);
      n := 0;
      if total - maxBytes > 0 {
        n := PickVictims(ordered, sizes, total - maxBytes);
      }
    }

    /** `purge_tts_cache`: pass 1 takes `first`, pass 2 `second`, each from table, memory
        and disk together and in order of age; `second` is never one row too many. With a
        deadline pass 1 stops short only after a whole batch for each check with time left,
        and pass 2 only when such checks are used up: one for each batch and each chunk
        and two for the ends. No more is deleted than the checks allow. */
    method PurgeTtsCache(batch: int, maxBytes: int, cutoff: int, deadline: Option<nat>)
      returns (
        expired: nat, overCap: nat, ghost first: set<Key>, ghost second: set<Key>,
        ghost batches: nat, ghost chunks: nat)
      requires Valid()
      modifies this
      ensures Valid()
      ensures first <= old(table).Keys && second <= old(table).Keys - first
      ensures State() == Less(old(State()), first + second)
      ensures expired == |first| && overCap == |second|
      ensures AllExpired(old(table), first, cutoff) && LeastUsedGone(old(table), first + second)
      ensures Evicted(old(table) - first, Less(old(State()), first).files, path, second, maxBytes)
      ensures deadline.None? || batches < deadline.value ==> first == Expired(old(table), cutoff)
      ensures deadline.None? || batches < deadline.value ==> AllFresh(table, cutoff)
      ensures batches * BatchSize(batch) <= expired
      ensures deadline.None? || overCap != chunks * BatchSize(batch) || batches + 2 + chunks < deadline.value
        ==> Fits(files, path, table.Keys, maxBytes)
      ensures deadline.Some? ==> expired + overCap <= deadline.value * BatchSize(batch)
    {
      var size := BatchSize(batch);
      var checks;
      expired, checks, first, batches := PurgeExpired(size, cutoff, deadline);
      ghost var s := State();
      overCap, second, chunks := PurgeOverCap(size, maxBytes, deadline, checks);
      PassesCompose(old(State()), first, second, path, undeletable, s, maxBytes);
      FreshShrinks(s.table, second, cutoff);
      if deadline.Some? {
        WithinChecks(expired, overCap, batches, chunks, size, deadline.value);
      }
    }
  }

  function BatchSize(batch: int): nat {
    if batch < 1 then 1 else batch
  }

  lemma OneMore(n: nat, batch: nat)
    ensures (n + 1) * batch == n * batch + batch
  {
  }

  /** Both passes together delete no more than a batch for each check with time left. */
  lemma WithinChecks(expired: nat, overCap: nat, batches: nat, chunks: nat, batch: nat, deadline: nat)
    requires expired < batches * batch + batch && overCap <= chunks * batch && batches <= deadline
    requires batches == deadline ==> expired == batches * batch
    requires chunks > 0 ==> batches + 2 + chunks <= deadline
    ensures expired + overCap <= deadline * batch
  {
    var left := if batches == deadline then 0 else deadline - batches - 1 - chunks;
    assert batches < deadline ==> deadline * batch == batches * batch + batch + chunks * batch + left * batch;
  }

  /** "Unused" means unused by the table: a voice just read is taken by pass 1 of the next
      purge exactly if it was read from memory and its last table access is older than
      the cutoff. */
  method HotKeyExpires(cache: Cache, key: Key, now: int, batch: int, maxBytes: int, cutoff: int)
    returns (row: Option<Row>, ghost expired: set<Key>)
    requires cache.Valid() && cutoff <= now
    modifies cache
    ensures key in expired <==> old(key in cache.lru && cache.table[key].lastUsed < cutoff)
    ensures key in expired ==> row.Some? && key !in cache.table && key !in cache.lru
    ensures row.Some? <==> key in old(cache.table)
  {
    row := cache.GetCached(key, now, NoFault);
    var n, m;
    ghost var evicted, batches, chunks;
    n, m, expired, evicted, batches, chunks := cache.PurgeTtsCache(batch, maxBytes, cutoff, None);
  }

  /** `e` is the most recently used key of `gone`. */
  predicate Newest(t: map<Key, Row>, gone: set<Key>, e: Key)
    requires gone <= t.Keys && e in gone
  {
    forall x <- gone :: x == e || Older(t, x, e)
  }

  lemma TakeTwice(ordered: seq<Key>, n: nat, count: nat)
    requires count <= n <= |ordered|
    ensures ordered[..n][..count] == ordered[..count]
  {
  }

  lemma NextChunk(victims: seq<Key>, start: nat, end: nat)
    requires start <= end <= |victims|
    ensures KeySet(victims[..end]) == KeySet(victims[..start]) + KeySet(victims[start..end])
  {
    assert victims[..end] == victims[..start] + victims[start..end];
  }

  lemma PrefixKeys(ordered: seq<Key>, n: nat)
    requires n <= |ordered| && Distinct(ordered)
    ensures Distinct(ordered[..n]) && KeySet(ordered[..n]) <= KeySet(ordered) && |KeySet(ordered[..n])| == n
    ensures KeySet(ordered) - KeySet(ordered[..n]) == KeySet(ordered[n..])
  {
    SizeOfDistinct(ordered[..n]);
    assert ordered == ordered[..n] + ordered[n..];
  }

  lemma TotalPrefix(files: map<Path, nat>, path: Key -> Path, ordered: seq<Key>, n: nat)
    requires n <= |ordered| && Distinct(ordered)
    ensures SetTotal(files, path, KeySet(ordered[n..]))
         == Total(files, path, ordered) - Total(files, path, ordered[..n])
  {
    TotalConcat(files, path, ordered[..n], ordered[n..]);
    assert ordered == ordered[..n] + ordered[n..];
    TotalIsSetTotal(files, path, ordered[n..]);
  }

  /** The files of `keys` take at most `maxBytes`, or there are no keys left. */
  ghost predicate Fits(files: map<Path, nat>, path: Key -> Path, keys: set<Key>, maxBytes: int) {
    SetTotal(files, path, keys) <= maxBytes || keys == {}
  }

  /** The rows `gone` from `t` are its oldest, and with the youngest of them still there
      the rest would not fit. */
  ghost predicate Evicted(
    t: map<Key, Row>, files: map<Path, nat>, path: Key -> Path, gone: set<Key>, maxBytes: int)
  {
    && gone <= t.Keys && OldestGone(t, gone)
    && forall e <- gone :: Newest(t, gone, e) ==> SetTotal(files, path, t.Keys - gone + {e}) > maxBytes
  }

  /** What deleting the first `count` of `n` victims achieves. */
  lemma EvictionFacts(
    t: map<Key, Row>, files: map<Path, nat>, path: Key -> Path, ordered: seq<Key>, n: nat, count: nat, maxBytes: int)
    requires OldestFirst(ordered, t) && KeySet(ordered) == t.Keys && count <= n <= |ordered|
    requires n > 0 ==> Total(files, path, ordered[..n - 1]) < Total(files, path, ordered) - maxBytes
    requires n == |ordered| || Total(files, path, ordered[..n]) >= Total(files, path, ordered) - maxBytes
    ensures Evicted(t, files, path, KeySet(ordered[..count]), maxBytes) && |KeySet(ordered[..count])| == count
    ensures count == n ==> Fits(files, path, t.Keys - KeySet(ordered[..count]), maxBytes)
  {
    PrefixKeys(ordered, count);
    TotalPrefix(files, path, ordered, count);
    PrefixIsOldest(t, ordered, count);
    var gone := KeySet(ordered[..count]);
    forall e <- gone | Newest(t, gone, e) ensures SetTotal(files, path, t.Keys - gone + {e}) > maxBytes {
      LastIsNewest(t, ordered, count, e);
      WithoutLast(files, path, ordered, n, count);
    }
  }

  lemma PrefixIsOldest(t: map<Key, Row>, ordered: seq<Key>, count: nat)
    requires OldestFirst(ordered, t) && KeySet(ordered) == t.Keys && count <= |ordered|
    ensures KeySet(ordered[..count]) <= t.Keys && OldestGone(t, KeySet(ordered[..count]))
  {
    var gone := KeySet(ordered[..count]);
    PrefixKeys(ordered, count);
    forall e <- gone, k <- t.Keys - gone ensures Older(t, e, k) {
      var i :| 0 <= i < count && ordered[i] == e;
      assert k in KeySet(ordered[count..]);
      var j :| 0 <= j < |ordered| - count && ordered[count..][j] == k;
      assert ordered[count + j] == k;
    }
  }

  lemma LastIsNewest(t: map<Key, Row>, ordered: seq<Key>, count: nat, e: Key)
    requires OldestFirst(ordered, t) && count <= |ordered| && e in KeySet(ordered[..count])
    requires KeySet(ordered[..count]) <= t.Keys && Newest(t, KeySet(ordered[..count]), e)
    ensures e == ordered[count - 1]
  {
    var last := ordered[count - 1];
    assert ordered[..count][count - 1] == last;
    var i :| 0 <= i < count && ordered[i] == e;
    if i < count - 1 {
      assert Older(t, e, last) && Older(t, last, e);
      TextLessTotal(e, last);
    }
  }

  /** With the last victim back, the rest no longer fits. */
  lemma WithoutLast(files: map<Path, nat>, path: Key -> Path, ordered: seq<Key>, n: nat, count: nat)
    requires Distinct(ordered) && 0 < count <= n <= |ordered|
    ensures SetTotal(files, path, KeySet(ordered) - KeySet(ordered[..count]) + {ordered[count - 1]})
         >= Total(files, path, ordered) - Total(files, path, ordered[..n - 1])
  {
    LastBack(ordered, count);
    TotalPrefix(files, path, ordered, count - 1);
    TotalGrows(files, path, ordered, count - 1, n - 1);
  }

  lemma LastBack(ordered: seq<Key>, count: nat)
    requires Distinct(ordered) && 0 < count <= |ordered|
    ensures KeySet(ordered) - KeySet(ordered[..count]) + {ordered[count - 1]} == KeySet(ordered[count - 1..])
  {
    PrefixKeys(ordered, count);
    ConsKeys(ordered[count - 1], ordered[count..]);
    assert ordered[count - 1..] == [ordered[count - 1]] + ordered[count..];
  }

  lemma TotalGrows(files: map<Path, nat>, path: Key -> Path, keys: seq<Key>, m: nat, n: nat)
    requires m <= n <= |keys|
    ensures Total(files, path, keys[..m]) <= Total(files, path, keys[..n])
  {
    TotalConcat(files, path, keys[..m], keys[m..n]);
    assert keys[..n] == keys[..m] + keys[m..n];
  }

  lemma OldestIsLeastUsed(t: map<Key, Row>, gone: set<Key>)
    requires gone <= t.Keys && OldestGone(t, gone)
    ensures LeastUsedGone(t, gone)
  {
    forall e <- gone, k <- t.Keys - gone ensures t[e].lastUsed <= t[k].lastUsed {
      assert Older(t, e, k);
    }
  }

  lemma TwoPasses(t: map<Key, Row>, first: set<Key>, second: set<Key>)
    requires first <= t.Keys && second <= (t - first).Keys
    requires LeastUsedGone(t, first) && LeastUsedGone(t - first, second)
    ensures LeastUsedGone(t, first + second) && |first + second| == |first| + |second|
  {
    var later := t - first;
    forall e <- first + second, k <- t.Keys - (first + second) ensures t[e].lastUsed <= t[k].lastUsed {
      assert k in later.Keys - second;
      if e !in first {
        assert later[e].lastUsed <= later[k].lastUsed;
      }
    }
    assert first !! second;
  }

  /** `s0` less `first` is `s`, and `second` is evicted from `s`. */
  lemma PassesCompose(
    s0: Store, first: set<Key>, second: set<Key>, path: Key -> Path, undeletable: set<Path>, s: Store,
    maxBytes: int)
    requires first <= s0.table.Keys && LeastUsedGone(s0.table, first) && s == Drop(s0, first, path, undeletable)
    requires Evicted(s.table, s.files, path, second, maxBytes)
    ensures second <= s0.table.Keys - first && LeastUsedGone(s0.table, first + second)
    ensures var s2 := Drop(s, second, path, undeletable);
      && s2 == Drop(s0, first + second, path, undeletable)
      && (Fits(s.files, path, s.table.Keys - second, maxBytes) ==> Fits(s2.files, path, s2.table.Keys, maxBytes))
  {
    OldestIsLeastUsed(s.table, second);
    TwoPasses(s0.table, first, second);
    DropTwice(s0, first, second, path, undeletable);
    var s2 := Drop(s, second, path, undeletable);
    assert s2.table.Keys == s.table.Keys - second;
    SetTotalShrinks(s.files, s2.files, path, s2.table.Keys);
  }

  lemma ExpiredGone(t: map<Key, Row>, gone: set<Key>, cutoff: int)
    requires gone <= t.Keys && AllExpired(t, gone, cutoff)
    requires AllFresh(t - gone, cutoff)
    ensures gone == Expired(t, cutoff)
  {
    forall k <- Expired(t, cutoff) ensures k in gone {
      assert k !in gone ==> k in t - gone;
    }
  }

  lemma FreshShrinks(t: map<Key, Row>, gone: set<Key>, cutoff: int)
    ensures AllFresh(t, cutoff) ==> AllFresh(t - gone, cutoff)
  {
  }

  lemma {:induction false} SetTotalShrinks(
    files: map<Path, nat>, fewer: map<Path, nat>, path: Key -> Path, keys: set<Key>)
    requires forall p <- fewer :: p in files && fewer[p] == files[p]
    ensures SetTotal(fewer, path, keys) <= SetTotal(files, path, keys)
    decreases |keys|
  {
    if keys != {} {
      var k :| k in keys;
      SetTotalPick(files, path, keys, k);
      SetTotalPick(fewer, path, keys, k);
      SetTotalShrinks(files, fewer, path, keys - {k});
      assert SizeOf(fewer, path, k) <= SizeOf(files, path, k);
    }
  }

  predicate AllExpired(t: map<Key, Row>, gone: set<Key>, cutoff: int)
    requires gone <= t.Keys
  {
    forall k <- gone :: t[k].lastUsed < cutoff
  }

  predicate AllFresh(t: map<Key, Row>, cutoff: int) {
    forall k <- t :: t[k].lastUsed >= cutoff
  }

  /** No row in `gone` was used later than a row outside it. */
  predicate LeastUsedGone(t: map<Key, Row>, gone: set<Key>)
    requires gone <= t.Keys
  {
    forall e <- gone, k <- t.Keys - gone :: t[e].lastUsed <= t[k].lastUsed
  }

  function Expired(t: map<Key, Row>, cutoff: int): set<Key> {
    set k | k in t && t[k].lastUsed < cutoff
  }

  /** Every row in `gone` is older than every row outside it. */
  predicate OldestGone(t: map<Key, Row>, gone: set<Key>)
    requires gone <= t.Keys
  {
    forall e <- gone, k <- t.Keys - gone :: Older(t, e, k)
  }

  lemma MinusTwice<K, V>(m: map<K, V>, a: set<K>, b: set<K>)
    ensures (m - a) - b == m - (a + b)
  {
  }

  lemma BatchStep(t: map<Key, Row>, now: map<Key, Row>, gone: set<Key>, keys: seq<Key>, cutoff: int)
    requires gone <= t.Keys && now == t - gone && Distinct(keys) && KeySet(keys) <= now.Keys
    requires LeastUsedGone(t, gone) && LeastUsedGone(now, KeySet(keys))
    requires AllExpired(t, gone, cutoff) && AllExpired(now, KeySet(keys), cutoff)
    ensures var all := gone + KeySet(keys);
      && LeastUsedGone(t, all) && AllExpired(t, all, cutoff)
      && |all| == |gone| + |keys| && |t - all| == |now| - |keys|
    ensures t - (gone + KeySet(keys)) == now - KeySet(keys)
    ensures keys == [] ==> gone + KeySet(keys) == gone
  {
    var more := KeySet(keys);
    SizeOfDistinct(keys);
    TwoPasses(t, gone, more);
    MinusTwice(t, gone, more);
    SizeOfMinus(now, more);
    ExpiredTogether(t, gone, more, cutoff);
  }

  lemma ExpiredTogether(t: map<Key, Row>, gone: set<Key>, more: set<Key>, cutoff: int)
    requires gone <= t.Keys && more <= (t - gone).Keys
    requires AllExpired(t, gone, cutoff) && AllExpired(t - gone, more, cutoff)
    ensures AllExpired(t, gone + more, cutoff)
  {
    forall k <- gone + more ensures t[k].lastUsed < cutoff {
      assert k in more ==> (t - gone)[k] == t[k];
    }
  }

  lemma SizeOfMinus(m: map<Key, Row>, keys: set<Key>)
    requires keys <= m.Keys
    ensures |m - keys| == |m| - |keys|
  {
    assert (m - keys).Keys == m.Keys - keys;
  }

  /** None of the first `n` of the expired keys was used later than another row. */
  lemma BatchIsOldest(table: map<Key, Row>, ordered: seq<Key>, n: nat, cutoff: int)
    requires OldestFirst(ordered, table) && n <= |ordered| && KeySet(ordered) == Expired(table, cutoff)
    ensures Distinct(ordered[..n]) && KeySet(ordered[..n]) <= KeySet(ordered)
    ensures LeastUsedGone(table, KeySet(ordered[..n]))
  {
    forall e <- KeySet(ordered[..n]), k <- table.Keys - KeySet(ordered[..n])
      ensures table[e].lastUsed <= table[k].lastUsed
    {
      var i :| 0 <= i < n && ordered[i] == e;
      assert e in KeySet(ordered);
      if k in KeySet(ordered) {
        var j :| 0 <= j < |ordered| && ordered[j] == k;
        assert j >= n;
      }
    }
  }
}
