/**
 * A JavaScript plain object used as a dictionary: a sequence of key/value
 * entries in insertion order. Reading a key finds its entry; writing a key
 * replaces the value in place when the key is present and appends a new
 * entry otherwise, which is how `obj[key] = value` behaves for string keys.
 */
module Dict {
  import opened Wrappers

  datatype Entry<V> = Entry(key: string, value: V)

  type Dict<V> = seq<Entry<V>>

  /** The keys in insertion order (`Object.keys`). */
  function Keys<V>(d: Dict<V>): seq<string> {
    if d == [] then [] else [d[0].key] + Keys(d[1..])
  }

  /** The set of keys present. */
  function KeySet<V>(d: Dict<V>): set<string> {
    if d == [] then {} else {d[0].key} + KeySet(d[1..])
  }

  /** No key occurs twice, as in any JavaScript object. */
  predicate DistinctKeys<V>(d: Dict<V>) {
    d == [] || (d[0].key !in KeySet(d[1..]) && DistinctKeys(d[1..]))
  }

  /** `obj[key]`: the value stored under `key`, if any. */
  function Get<V>(d: Dict<V>, k: string): (r: Option<V>)
    ensures r.Some? <==> k in KeySet(d)
  {
    if d == [] then None
    else if d[0].key == k then Some(d[0].value)
    else Get(d[1..], k)
  }

  /** `obj[key] = value`: replaces the value in place, or appends a new entry. */
  function Put<V>(d: Dict<V>, k: string, v: V): Dict<V> {
    if d == [] then [Entry(k, v)]
    else if d[0].key == k then [Entry(k, v)] + d[1..]
    else [d[0]] + Put(d[1..], k, v)
  }

  lemma {:induction false} GetPutSame<V>(d: Dict<V>, k: string, v: V)
    ensures Get(Put(d, k, v), k) == Some(v)
  {
    if d != [] && d[0].key != k {
      GetPutSame(d[1..], k, v);
    }
  }

  lemma {:induction false} GetPutOther<V>(d: Dict<V>, k: string, v: V, k': string)
    requires k' != k
    ensures Get(Put(d, k, v), k') == Get(d, k')
  {
    if d != [] && d[0].key != k {
      GetPutOther(d[1..], k, v, k');
    }
  }

  /** Writing keeps the order of the existing keys and appends a new key at the end. */
  lemma {:induction false} KeysPut<V>(d: Dict<V>, k: string, v: V)
    ensures Keys(Put(d, k, v)) == if k in KeySet(d) then Keys(d) else Keys(d) + [k]
    ensures KeySet(Put(d, k, v)) == KeySet(d) + {k}
  {
    if d != [] && d[0].key != k {
      KeysPut(d[1..], k, v);
    }
  }

  lemma {:induction false} PutDistinct<V>(d: Dict<V>, k: string, v: V)
    requires DistinctKeys(d)
    ensures DistinctKeys(Put(d, k, v))
  {
    if d != [] && d[0].key != k {
      PutDistinct(d[1..], k, v);
      KeysPut(d[1..], k, v);
    }
  }

  /** What `Get` finds is an entry of the dictionary. */
  lemma {:induction false} GetIsEntry<V>(d: Dict<V>, k: string)
    requires Get(d, k).Some?
    ensures Entry(k, Get(d, k).value) in d
  {
    if d[0].key != k {
      GetIsEntry(d[1..], k);
    }
  }

  /** With distinct keys, every entry is what `Get` finds for its key. */
  lemma {:induction false} EntryIsGet<V>(d: Dict<V>, e: Entry<V>)
    requires DistinctKeys(d) && e in d
    ensures Get(d, e.key) == Some(e.value)
  {
    if d[0] != e {
      assert e in d[1..];
      EntryIsGet(d[1..], e);
      KeyOfEntry(d[1..], e);
    }
  }

  lemma {:induction false} KeyOfEntry<V>(d: Dict<V>, e: Entry<V>)
    requires e in d
    ensures e.key in KeySet(d)
  {
    if d[0] != e {
      assert e in d[1..];
      KeyOfEntry(d[1..], e);
    }
  }

  /** Every entry after a write is the written one or an entry from before. */
  lemma {:induction false} PutEntries<V>(d: Dict<V>, k: string, v: V)
    ensures forall e :: e in Put(d, k, v) ==> e == Entry(k, v) || e in d
  {
    if d != [] && d[0].key != k {
      PutEntries(d[1..], k, v);
    }
  }

  /** Writing a key twice keeps only the second value. */
  lemma {:induction false} PutPut<V>(d: Dict<V>, k: string, v1: V, v2: V)
    ensures Put(Put(d, k, v1), k, v2) == Put(d, k, v2)
  {
    if d != [] && d[0].key != k {
      PutPut(d[1..], k, v1, v2);
    }
  }
}
