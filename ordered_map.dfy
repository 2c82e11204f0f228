/** `std::map<std::string, V>` as an association list kept in strictly ascending key
    order, which is also the order in which the C++ iterates over the map. */
module OrderedMap {

  datatype Option<T> = None | Some(value: T)

  datatype Entry<V> = Entry(key: string, value: V)

  /** `std::string`'s `operator<`: lexicographic by character, a proper prefix first. */
  predicate Less(a: string, b: string)
    decreases |a|
  {
    if |a| == 0 then |b| > 0
    else if |b| == 0 then false
    else if a[0] == b[0] then Less(a[1..], b[1..])
    else a[0] < b[0]
  }

  lemma {:induction false} LessIrreflexive(a: string)
    ensures !Less(a, a)
    decreases |a|
  {
    if |a| > 0 {
      LessIrreflexive(a[1..]);
    }
  }

  lemma {:induction false} LessTransitive(a: string, b: string, c: string)
    requires Less(a, b) && Less(b, c)
    ensures Less(a, c)
    decreases |a|
  {
    if |a| > 0 && a[0] == b[0] && b[0] == c[0] {
      LessTransitive(a[1..], b[1..], c[1..]);
    }
  }

  /** Any two different strings are ordered one way or the other. */
  lemma {:induction false} LessTotal(a: string, b: string)
    requires a != b
    ensures Less(a, b) || Less(b, a)
    decreases |a|
  {
    if |a| > 0 && |b| > 0 && a[0] == b[0] {
      assert a == [a[0]] + a[1..] && b == [b[0]] + b[1..];
      LessTotal(a[1..], b[1..]);
    }
  }

  lemma LessAsymmetric(a: string, b: string)
    requires Less(a, b)
    ensures !Less(b, a)
  {
    if Less(b, a) {
      LessTransitive(a, b, a);
      LessIrreflexive(a);
    }
  }

  /** The map's invariant: keys strictly ascending, hence unique. */
  predicate Sorted<V>(es: seq<Entry<V>>) {
    forall i, j :: 0 <= i < j < |es| ==> Less(es[i].key, es[j].key)
  }

  function Keys<V>(es: seq<Entry<V>>): (ks: set<string>)
    ensures forall k :: k in ks <==> exists i :: 0 <= i < |es| && es[i].key == k
  {
    set i | 0 <= i < |es| :: es[i].key
  }

  /** Every key in `ks` is above `k`. */
  predicate AllAbove(k: string, ks: set<string>) {
    forall k' :: k' in ks ==> Less(k, k')
  }

  /** Every key of `es` is below `k`. */
  predicate Below<V>(es: seq<Entry<V>>, k: string) {
    forall i :: 0 <= i < |es| ==> Less(es[i].key, k)
  }

  lemma KeysCons<V>(e: Entry<V>, rest: seq<Entry<V>>)
    ensures Keys([e] + rest) == {e.key} + Keys(rest)
  {
    var l := [e] + rest;
    forall k | k in Keys(rest) ensures k in Keys(l) {
      var i :| 0 <= i < |rest| && rest[i].key == k;
      assert l[i + 1].key == k;
    }
    forall k | k in Keys(l) ensures k in {e.key} + Keys(rest) {
      var i :| 0 <= i < |l| && l[i].key == k;
      if i > 0 {
        assert rest[i - 1].key == k;
      }
    }
    assert l[0].key == e.key;
  }

  /** The head of a sorted list is below every key of its tail. */
  lemma SortedTail<V>(es: seq<Entry<V>>)
    requires Sorted(es) && |es| > 0
    ensures Sorted(es[1..]) && AllAbove(es[0].key, Keys(es[1..]))
    ensures es == [es[0]] + es[1..] && Keys(es) == {es[0].key} + Keys(es[1..])
  {
    forall k | k in Keys(es[1..]) ensures Less(es[0].key, k) {
      var i :| 0 <= i < |es[1..]| && es[1..][i].key == k;
      assert es[i + 1].key == k;
    }
    assert es == [es[0]] + es[1..];
    KeysCons(es[0], es[1..]);
  }

  /** An entry below every key of a sorted list can go in front of it. */
  lemma SortedCons<V>(e: Entry<V>, rest: seq<Entry<V>>)
    requires Sorted(rest) && AllAbove(e.key, Keys(rest))
    ensures Sorted([e] + rest) && Keys([e] + rest) == {e.key} + Keys(rest)
  {
    var l := [e] + rest;
    forall i, j | 0 <= i < j < |l| ensures Less(l[i].key, l[j].key) {
      assert l[j] == rest[j - 1];
      assert rest[j - 1].key in Keys(rest);
    }
    KeysCons(e, rest);
  }

  /** The value stored under `k`, if any. */
  function Find<V>(es: seq<Entry<V>>, k: string): (r: Option<V>)
    ensures r.None? <==> k !in Keys(es)
    ensures r.Some? ==> exists i :: 0 <= i < |es| && es[i] == Entry(k, r.value)
  {
    if |es| == 0 then None
    else if es[0].key == k then Some(es[0].value)
    else Find(es[1..], k)
  }

  lemma {:induction false} FindSorted<V>(es: seq<Entry<V>>, i: nat)
    requires Sorted(es) && i < |es|
    ensures Find(es, es[i].key) == Some(es[i].value)
    decreases |es|
  {
    if i > 0 {
      LessIrreflexive(es[0].key);
      assert es[0].key != es[i].key;
      FindSorted(es[1..], i - 1);
    }
  }

  /** `m[k] = v`: overwrites the value of an existing key, otherwise adds the key in order. */
  function Insert<V>(es: seq<Entry<V>>, k: string, v: V): (r: seq<Entry<V>>)
    requires Sorted(es)
    ensures Sorted(r)
    decreases |es|, 1
  {
    if |es| == 0 then
      [Entry(k, v)] + es
    else if es[0].key == k then
      SortedTail(es);
      SortedCons(Entry(k, v), es[1..]);
      [Entry(k, v)] + es[1..]
    else if Less(k, es[0].key) then
      SortedTail(es);
      forall k' | k' in Keys(es) ensures Less(k, k') {
        if k' != es[0].key {
          LessTransitive(k, es[0].key, k');
        }
      }
      SortedCons(Entry(k, v), es);
      [Entry(k, v)] + es
    else
      var rest := Insert(es[1..], k, v);
      LessTotal(k, es[0].key);
      SortedTail(es);
      InsertKeys(es[1..], k, v);
      SortedCons(es[0], rest);
      [es[0]] + rest
  }

  /** `m[k] = v` adds `k` to the keys and leaves the others. */
  lemma {:induction false} InsertKeys<V>(es: seq<Entry<V>>, k: string, v: V)
    requires Sorted(es)
    ensures Keys(Insert(es, k, v)) == Keys(es) + {k}
    decreases |es|, 2
  {
    if |es| == 0 {
      KeysCons(Entry(k, v), es);
    } else {
      SortedTail(es);
      if es[0].key == k {
        KeysCons(Entry(k, v), es[1..]);
      } else if Less(k, es[0].key) {
        KeysCons(Entry(k, v), es);
      } else {
        InsertKeys(es[1..], k, v);
        KeysCons(es[0], Insert(es[1..], k, v));
      }
    }
  }

  /** `m.erase(k)`: drops the entry of `k`, if any, keeping the others in order. */
  function Remove<V>(es: seq<Entry<V>>, k: string): (r: seq<Entry<V>>)
    requires Sorted(es)
    ensures Sorted(r)
    ensures Keys(r) == Keys(es) - {k}
    ensures k in Keys(es) ==> |r| == |es| - 1
    ensures k !in Keys(es) ==> r == es
    decreases |es|
  {
    if |es| == 0 then es
    else
      SortedTail(es);
      if es[0].key == k then
        LessIrreflexive(k);
        es[1..]
      else
        var rest := Remove(es[1..], k);
        SortedCons(es[0], rest);
        [es[0]] + rest
  }

  /** After `m[k] = v`, `k` holds `v` and every other key keeps its value. */
  lemma {:induction false} FindInsert<V>(es: seq<Entry<V>>, k: string, v: V, k': string)
    requires Sorted(es)
    ensures Find(Insert(es, k, v), k') == if k' == k then Some(v) else Find(es, k')
    decreases |es|
  {
    if |es| > 0 && es[0].key != k && !Less(k, es[0].key) {
      SortedTail(es);
      FindInsert(es[1..], k, v, k');
    }
  }

  /** After `m.erase(k)`, `k` is gone and every other key keeps its value. */
  lemma {:induction false} FindRemove<V>(es: seq<Entry<V>>, k: string, k': string)
    requires Sorted(es)
    ensures Find(Remove(es, k), k') == if k' == k then None else Find(es, k')
    decreases |es|
  {
    if |es| > 0 {
      SortedTail(es);
      if es[0].key != k {
        FindRemove(es[1..], k, k');
      }
    }
  }

  /** Inserting entries one after another, as repeated `m[k] = v` does. */
  function InsertAll<V>(es: seq<Entry<V>>, pairs: seq<Entry<V>>): (r: seq<Entry<V>>)
    requires Sorted(es)
    ensures Sorted(r)
    decreases |pairs|
  {
    if |pairs| == 0 then es else InsertAll(Insert(es, pairs[0].key, pairs[0].value), pairs[1..])
  }

  /** The value of the last pair with key `k`, if any. */
  function LastWith<V>(pairs: seq<Entry<V>>, k: string): Option<V>
    decreases |pairs|
  {
    if |pairs| == 0 then None
    else if pairs[|pairs| - 1].key == k then Some(pairs[|pairs| - 1].value)
    else LastWith(pairs[..|pairs| - 1], k)
  }

  lemma {:induction false} InsertAllSnoc<V>(es: seq<Entry<V>>, pairs: seq<Entry<V>>, p: Entry<V>)
    requires Sorted(es)
    ensures InsertAll(es, pairs + [p]) == Insert(InsertAll(es, pairs), p.key, p.value)
    decreases |pairs|
  {
    if |pairs| > 0 {
      var es' := Insert(es, pairs[0].key, pairs[0].value);
      assert (pairs + [p])[1..] == pairs[1..] + [p];
      InsertAllSnoc(es', pairs[1..], p);
    }
  }

  /** After inserting `pairs`, a key holds the value of the last pair that names it — a
      later duplicate overwrites an earlier one — and keys no pair names keep their value. */
  lemma {:induction false} FindInsertAll<V>(es: seq<Entry<V>>, pairs: seq<Entry<V>>, k: string)
    requires Sorted(es)
    ensures Find(InsertAll(es, pairs), k) ==
      (if LastWith(pairs, k).Some? then LastWith(pairs, k) else Find(es, k))
    decreases |pairs|
  {
    if |pairs| > 0 {
      var last := pairs[|pairs| - 1];
      InsertAllSnoc(es, pairs[..|pairs| - 1], last);
      assert pairs[..|pairs| - 1] + [last] == pairs;
      FindInsertAll(es, pairs[..|pairs| - 1], k);
      FindInsert(InsertAll(es, pairs[..|pairs| - 1]), last.key, last.value, k);
    }
  }

  /** Inserting a key above every present key appends it. */
  lemma {:induction false} InsertAbove<V>(es: seq<Entry<V>>, k: string, v: V)
    requires Sorted(es) && Below(es, k)
    ensures Insert(es, k, v) == es + [Entry(k, v)]
    decreases |es|
  {
    if |es| > 0 {
      LessIrreflexive(k);
      LessAsymmetric(es[0].key, k);
      assert es[0].key != k && !Less(k, es[0].key);
      SortedTail(es);
      assert Below(es[1..], k) by {
        forall i | 0 <= i < |es[1..]| ensures Less(es[1..][i].key, k) {
          assert es[1..][i] == es[i + 1];
        }
      }
      InsertAbove(es[1..], k, v);
      assert Insert(es, k, v) == [es[0]] + Insert(es[1..], k, v);
      assert [es[0]] + (es[1..] + [Entry(k, v)]) == es + [Entry(k, v)];
    }
  }

  /** Moving the first of `pairs` over to the sorted prefix keeps everything in order. */
  lemma ShiftFirst<V>(es: seq<Entry<V>>, pairs: seq<Entry<V>>)
    requires Sorted(es + pairs) && |pairs| > 0
    ensures Below(es, pairs[0].key)
    ensures Sorted(es + [pairs[0]])
    ensures (es + [pairs[0]]) + pairs[1..] == es + pairs
  {
    var all := es + pairs;
    forall i | 0 <= i < |es| ensures Less(es[i].key, pairs[0].key) {
      assert all[i] == es[i] && all[|es|] == pairs[0];
    }
    var es' := es + [pairs[0]];
    assert es' == all[..|es| + 1];
    forall i, j | 0 <= i < j < |es'| ensures Less(es'[i].key, es'[j].key) {
      assert es'[i] == all[i] && es'[j] == all[j];
    }
    assert es' + pairs[1..] == all;
  }

  /** Inserting the first of `pairs` into a sorted `es` that `pairs` continues in order
      appends it. */
  lemma InsertNext<V>(es: seq<Entry<V>>, pairs: seq<Entry<V>>)
    requires Sorted(es) && Sorted(es + pairs) && |pairs| > 0
    ensures Insert(es, pairs[0].key, pairs[0].value) == es + [pairs[0]]
    ensures Sorted(es + [pairs[0]]) && (es + [pairs[0]]) + pairs[1..] == es + pairs
  {
    ShiftFirst(es, pairs);
    InsertAbove(es, pairs[0].key, pairs[0].value);
  }

  /** Inserting ascending entries in order rebuilds exactly those entries. */
  lemma {:induction false} InsertAllSorted<V>(es: seq<Entry<V>>, pairs: seq<Entry<V>>)
    requires Sorted(es) && Sorted(es + pairs)
    ensures InsertAll(es, pairs) == es + pairs
    decreases |pairs|
  {
    if |pairs| == 0 {
      assert es + pairs == es;
    } else {
      InsertNext(es, pairs);
      InsertAllSorted(es + [pairs[0]], pairs[1..]);
    }
  }

  /** Every entry after `m[k] = v` is the new one or an old one. */
  lemma {:induction false} InsertFrom<V>(es: seq<Entry<V>>, k: string, v: V)
    requires Sorted(es)
    ensures forall e :: e in Insert(es, k, v) ==> e == Entry(k, v) || e in es
    decreases |es|
  {
    if |es| > 0 && es[0].key != k && !Less(k, es[0].key) {
      InsertFrom(es[1..], k, v);
      assert Insert(es, k, v) == [es[0]] + Insert(es[1..], k, v);
      assert forall e :: e in es[1..] ==> e in es;
    } else if |es| > 0 && es[0].key == k {
      assert forall e :: e in es[1..] ==> e in es;
    }
  }

  /** Every entry after `m.erase(k)` was there before. */
  lemma {:induction false} RemoveFrom<V>(es: seq<Entry<V>>, k: string)
    requires Sorted(es)
    ensures forall e :: e in Remove(es, k) ==> e in es
    decreases |es|
  {
    if |es| > 0 {
      SortedTail(es);
      if es[0].key != k {
        RemoveFrom(es[1..], k);
      }
      assert forall e :: e in es[1..] ==> e in es;
    }
  }
}
