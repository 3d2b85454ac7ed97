/** A Python `dict` with string keys: the keys in insertion order beside the
    key/value mapping. Assigning to a new key appends it to the order;
    assigning to an existing key replaces its value and keeps its place. */
module OrderedDict {
  import opened Wrappers

  predicate Distinct(ks: seq<string>) {
    forall i, j :: 0 <= i < j < |ks| ==> ks[i] != ks[j]
  }

  datatype RawDict<V> = RawDict(keys: seq<string>, values: map<string, V>) {
    /** Every key occurs once in the order, and the order lists exactly the
        keys of the mapping. */
    predicate Valid() {
      && Distinct(keys)
      && (forall k :: k in values ==> k in keys)
      && (forall k :: k in keys ==> k in values)
    }
  }

  type Dict<V> = d: RawDict<V> | d.Valid() witness RawDict([], map[])

  function EmptyDict<V>(): (d: Dict<V>)
    ensures d.keys == []
  {
    RawDict([], map[])
  }

  /** `d.get(k)`. */
  function Get<V>(d: Dict<V>, k: string): (r: Option<V>)
    ensures r.Some? <==> k in d.keys
  {
    if k in d.values then Some(d.values[k]) else None
  }

  /** `d.get(k, default)`. */
  function GetOr<V>(d: Dict<V>, k: string, default: V): V {
    Get(d, k).GetOr(default)
  }

  /** `d[k] = v`. */
  function Set<V>(d: Dict<V>, k: string, v: V): (r: Dict<V>)
    ensures r.keys == if k in d.keys then d.keys else d.keys + [k]
    ensures Get(r, k) == Some(v)
    ensures forall k' :: k' != k ==> Get(r, k') == Get(d, k')
  {
    RawDict(if k in d.values then d.keys else d.keys + [k], d.values[k := v])
  }

  /** Assigning a key twice is the second assignment alone. */
  lemma SetTwice<V>(d: Dict<V>, k: string, a: V, b: V)
    ensures Set(Set(d, k, a), k, b) == Set(d, k, b)
  {
    assert Set(Set(d, k, a), k, b).values == Set(d, k, b).values;
  }

  /** `list(d.items())`. */
  function Items<V>(d: Dict<V>): (items: seq<(string, V)>)
    ensures |items| == |d.keys|
    ensures forall i :: 0 <= i < |items| ==> items[i] == (d.keys[i], d.values[d.keys[i]])
  {
    seq(|d.keys|, i requires 0 <= i < |d.keys| => (d.keys[i], d.values[d.keys[i]]))
  }

  /** Assigns every pair of `log` in turn, starting from `d`. */
  function Replay<V>(d: Dict<V>, log: seq<(string, V)>): Dict<V>
    decreases |log|
  {
    if log == [] then d else Replay(Set(d, log[0].0, log[0].1), log[1..])
  }

  /** The value of the last pair of `log` that assigns `k`, if any. */
  function LastWrite<V>(log: seq<(string, V)>, k: string): (r: Option<V>)
    ensures r.None? <==> forall i :: 0 <= i < |log| ==> log[i].0 != k
    ensures r.Some? ==> (k, r.value) in log
  {
    if log == [] then None
    else if log[|log| - 1].0 == k then Some(log[|log| - 1].1)
    else
      var r := LastWrite(log[..|log| - 1], k);
      assert forall i :: 0 <= i < |log| - 1 ==> log[..|log| - 1][i] == log[i];
      r
  }

  /** The key order of a dict holding the keys `before` once the writes of
      `log` are made: `before`, then each new key at its first write. */
  function KeysAfter<V>(before: seq<string>, log: seq<(string, V)>): (ks: seq<string>)
    ensures forall k :: k in ks <==> k in before || exists i :: 0 <= i < |log| && log[i].0 == k
  {
    if log == [] then before
    else
      var ks := KeysAfter(before, log[..|log| - 1]);
      var k := log[|log| - 1].0;
      assert forall i :: 0 <= i < |log| - 1 ==> log[..|log| - 1][i] == log[i];
      if k in ks then ks else ks + [k]
  }

  lemma {:induction false} ReplayAppend<V>(d: Dict<V>, a: seq<(string, V)>, b: seq<(string, V)>)
    ensures Replay(d, a + b) == Replay(Replay(d, a), b)
    decreases |a|
  {
    if a != [] {
      assert (a + b)[0] == a[0];
      assert (a + b)[1..] == a[1..] + b;
      ReplayAppend(Set(d, a[0].0, a[0].1), a[1..], b);
    } else {
      assert a + b == b;
    }
  }

  lemma ReplaySnoc<V>(d: Dict<V>, log: seq<(string, V)>, k: string, v: V)
    ensures Replay(d, log + [(k, v)]) == Set(Replay(d, log), k, v)
  {
    ReplayAppend(d, log, [(k, v)]);
  }

  lemma ReplayPair<V>(d: Dict<V>, p: (string, V), q: (string, V))
    ensures Replay(d, [p, q]) == Set(Set(d, p.0, p.1), q.0, q.1)
  {
    assert [p][1..] == [];
    assert [p, q] == [p] + [(q.0, q.1)];
    ReplaySnoc(d, [p], q.0, q.1);
  }

  /** Last write wins: after replaying `log`, a key holds the value of the
      last pair that assigned it, or what it held before if none did. */
  lemma {:induction false} ReplayGet<V>(d: Dict<V>, log: seq<(string, V)>, k: string)
    ensures Get(Replay(d, log), k) == match LastWrite(log, k)
                                      case Some(v) => Some(v)
                                      case None => Get(d, k)
    decreases |log|
  {
    if log != [] {
      var n := |log| - 1;
      ReplayGet(d, log[..n], k);
      ReplayLast(d, log);
    }
  }

  /** The keys that were there keep their places, and the keys `log` adds
      follow in order of first assignment. */
  lemma {:induction false} ReplayKeys<V>(d: Dict<V>, log: seq<(string, V)>)
    ensures Replay(d, log).keys == KeysAfter(d.keys, log)
    decreases |log|
  {
    if log != [] {
      ReplayKeys(d, log[..|log| - 1]);
      ReplayLast(d, log);
      KeysAfterLast(d.keys, log);
    }
  }

  lemma KeysAfterLast<V>(before: seq<string>, log: seq<(string, V)>)
    requires log != []
    ensures var ks, k := KeysAfter(before, log[..|log| - 1]), log[|log| - 1].0;
            KeysAfter(before, log) == if k in ks then ks else ks + [k]
  {
  }

  /** The log of a loop: the logs of its passes, one after another. */
  function Concat<T>(ls: seq<seq<T>>): seq<T>
    decreases |ls|
  {
    if ls == [] then [] else Concat(ls[..|ls| - 1]) + ls[|ls| - 1]
  }

  /** One more pass appends its log. */
  lemma ConcatSnoc<T>(ls: seq<seq<T>>, i: nat)
    requires i < |ls|
    ensures Concat(ls[..i + 1]) == Concat(ls[..i]) + ls[i]
  {
    assert ls[..i + 1][..i] == ls[..i];
  }

  /** The log of two runs of passes, one after the other. */
  lemma {:induction false} ConcatAppend<T>(a: seq<seq<T>>, b: seq<seq<T>>)
    ensures Concat(a + b) == Concat(a) + Concat(b)
    decreases |b|
  {
    if b == [] {
      assert a + b == a;
    } else {
      var n := |b| - 1;
      assert (a + b)[..|a| + n] == a + b[..n];
      ConcatAppend(a, b[..n]);
    }
  }

  /** What any pass writes is in the loop's log. */
  lemma {:induction false} ConcatHas<T>(ls: seq<seq<T>>, k: nat, x: T)
    requires k < |ls| && x in ls[k]
    ensures x in Concat(ls)
    decreases |ls|
  {
    var n := |ls| - 1;
    if k < n {
      ConcatHas(ls[..n], k, x);
    }
  }

  /** The loop's log holds nothing that no pass wrote. */
  lemma {:induction false} ConcatFrom<T>(ls: seq<seq<T>>, x: T)
    requires x in Concat(ls)
    ensures exists k :: 0 <= k < |ls| && x in ls[k]
    decreases |ls|
  {
    var n := |ls| - 1;
    if x in Concat(ls[..n]) {
      ConcatFrom(ls[..n], x);
      var k :| 0 <= k < n && x in ls[..n][k];
      assert ls[..n][k] == ls[k];
    }
  }

  /** The keys a log assigns, in order, repeats included. */
  function KeysOf<V>(log: seq<(string, V)>): (ks: seq<string>)
    ensures |ks| == |log| && forall i :: 0 <= i < |log| ==> ks[i] == log[i].0
  {
    seq(|log|, i requires 0 <= i < |log| => log[i].0)
  }

  lemma DistinctAppend(a: seq<string>, b: seq<string>)
    requires Distinct(a) && Distinct(b)
    requires forall x :: x in a ==> x !in b
    ensures Distinct(a + b)
  {
    forall i, j | 0 <= i < j < |a + b| ensures (a + b)[i] != (a + b)[j] {
      if i < |a| && j >= |a| {
        assert (a + b)[i] in a && (a + b)[j] == b[j - |a|];
      }
    }
  }

  /** The keys before the last of a distinct sequence are distinct and do
      not include the last. */
  lemma DistinctLast(ks: seq<string>)
    requires Distinct(ks) && ks != []
    ensures Distinct(ks[..|ks| - 1]) && ks[|ks| - 1] !in ks[..|ks| - 1]
  {
    var n := |ks| - 1;
    forall j | 0 <= j < n ensures ks[..n][j] != ks[n] {
      assert ks[..n][j] == ks[j];
    }
  }

  lemma DistinctPrefix(a: seq<string>, b: seq<string>)
    requires Distinct(a + b)
    ensures Distinct(a)
  {
    assert forall i :: 0 <= i < |a| ==> (a + b)[i] == a[i];
  }

  /** Replaying a log is replaying all but its last pair, then assigning that. */
  lemma ReplayLast<V>(d: Dict<V>, log: seq<(string, V)>)
    requires log != []
    ensures Replay(d, log) == Set(Replay(d, log[..|log| - 1]), log[|log| - 1].0, log[|log| - 1].1)
  {
    var n := |log| - 1;
    assert log == log[..n] + [log[n]];
    ReplayAppend(d, log[..n], [log[n]]);
    assert [log[n]][1..] == [];
  }

  /** The keys of a log that assigns each key once: those of all but the last
      pair, which are distinct and do not include the last key, then the last key. */
  lemma KeysOfLast<V>(log: seq<(string, V)>)
    requires Distinct(KeysOf(log)) && log != []
    ensures KeysOf(log) == KeysOf(log[..|log| - 1]) + [log[|log| - 1].0]
    ensures Distinct(KeysOf(log[..|log| - 1])) && log[|log| - 1].0 !in KeysOf(log[..|log| - 1])
  {
    var n := |log| - 1;
    assert KeysOf(log[..n]) == KeysOf(log)[..n];
    DistinctLast(KeysOf(log));
    assert KeysOf(log) == KeysOf(log)[..n] + [log[n].0];
  }

  /** Replaying a log that assigns each key once keeps every key in the
      order of its assignment. */
  lemma {:induction false} ReplayDistinctKeys<V>(log: seq<(string, V)>)
    requires Distinct(KeysOf(log))
    ensures Replay(EmptyDict(), log).keys == KeysOf(log)
    decreases |log|
  {
    if log != [] {
      KeysOfLast(log);
      ReplayDistinctKeys(log[..|log| - 1]);
      ReplayLast(EmptyDict(), log);
    }
  }

  /** In a log that assigns each key once, the last write to a key is its only one. */
  lemma {:induction false} LastWriteDistinct<V>(log: seq<(string, V)>, i: nat)
    requires Distinct(KeysOf(log)) && i < |log|
    ensures LastWrite(log, log[i].0) == Some(log[i].1)
    decreases |log|
  {
    var n := |log| - 1;
    if i < n {
      KeysOfLast(log);
      assert KeysOf(log)[i] != KeysOf(log)[n];
      LastWriteDistinct(log[..n], i);
      assert log[..n][i] == log[i];
    }
  }

  /** ... and each key holds the value assigned to it. */
  lemma ReplayDistinctGet<V>(log: seq<(string, V)>, i: nat)
    requires Distinct(KeysOf(log)) && i < |log|
    ensures Get(Replay(EmptyDict(), log), log[i].0) == Some(log[i].1)
  {
    ReplayGet(EmptyDict(), log, log[i].0);
    LastWriteDistinct(log, i);
  }

  /** ... which is to say each pair of such a log is what its key holds. */
  lemma ReplayDistinctHas<V>(log: seq<(string, V)>, w: (string, V))
    requires Distinct(KeysOf(log)) && w in log
    ensures Get(Replay(EmptyDict(), log), w.0) == Some(w.1)
  {
    var i :| 0 <= i < |log| && log[i] == w;
    ReplayDistinctGet(log, i);
  }

  lemma KeysOfAppend<V>(a: seq<(string, V)>, b: seq<(string, V)>)
    ensures KeysOf(a + b) == KeysOf(a) + KeysOf(b)
  {
  }

  /** A log that never repeats a key replays into a dict whose items are
      that log. */
  lemma ItemsReplayDistinct<V>(log: seq<(string, V)>)
    requires Distinct(KeysOf(log))
    ensures Items(Replay(EmptyDict(), log)) == log
  {
    ReplayDistinctKeys(log);
    forall i | 0 <= i < |log| ensures Items(Replay(EmptyDict(), log))[i] == log[i] {
      ReplayDistinctGet(log, i);
    }
  }

  /** The value one key of a log that never repeats a key has after another
      key of it is assigned again. */
  lemma OverwriteGet<V>(log: seq<(string, V)>, i: nat, v: V, j: nat)
    requires Distinct(KeysOf(log)) && i < |log| && j < |log|
    ensures Get(Set(Replay(EmptyDict(), log), log[i].0, v), log[j].0) ==
            Get(Replay(EmptyDict(), log[i := (log[i].0, v)]), log[j].0)
  {
    var log' := log[i := (log[i].0, v)];
    assert KeysOf(log') == KeysOf(log);
    ReplayDistinctGet(log', j);
    if j != i {
      assert KeysOf(log)[j] != KeysOf(log)[i];
      ReplayDistinctGet(log, j);
    }
  }

  /** Assigning a key of a log that never repeats a key again gives the
      dict that log replays into with that value in place: the key keeps its
      first position. */
  lemma ReplayOverwrite<V>(log: seq<(string, V)>, i: nat, v: V)
    requires Distinct(KeysOf(log)) && i < |log|
    ensures Set(Replay(EmptyDict(), log), log[i].0, v) == Replay(EmptyDict(), log[i := (log[i].0, v)])
  {
    var r1, r2 := Set(Replay(EmptyDict(), log), log[i].0, v), Replay(EmptyDict(), log[i := (log[i].0, v)]);
    OverwriteKeys(log, i, v);
    forall k | k in r1.keys ensures Get(r1, k) == Get(r2, k) {
      OverwriteKey(log, i, v, k);
    }
    DictEqual(r1, r2);
  }

  lemma OverwriteKey<V>(log: seq<(string, V)>, i: nat, v: V, k: string)
    requires Distinct(KeysOf(log)) && i < |log| && k in KeysOf(log)
    ensures Get(Set(Replay(EmptyDict(), log), log[i].0, v), k) ==
            Get(Replay(EmptyDict(), log[i := (log[i].0, v)]), k)
  {
    var j :| 0 <= j < |log| && KeysOf(log)[j] == k;
    OverwriteGet(log, i, v, j);
  }

  lemma OverwriteKeys<V>(log: seq<(string, V)>, i: nat, v: V)
    requires Distinct(KeysOf(log)) && i < |log|
    ensures Set(Replay(EmptyDict(), log), log[i].0, v).keys == KeysOf(log)
    ensures Replay(EmptyDict(), log[i := (log[i].0, v)]).keys == KeysOf(log)
  {
    var log' := log[i := (log[i].0, v)];
    assert KeysOf(log') == KeysOf(log);
    ReplayDistinctKeys(log);
    ReplayDistinctKeys(log');
  }

  /** Two dicts with the same keys in the same order and the same value under
      each key are equal. */
  lemma DictEqual<V>(a: Dict<V>, b: Dict<V>)
    requires a.keys == b.keys
    requires forall k :: k in a.keys ==> Get(a, k) == Get(b, k)
    ensures a == b
  {
    assert a.values == b.values;
  }
}
