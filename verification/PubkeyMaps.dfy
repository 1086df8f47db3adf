/** The collections keyed by public key in src/utils/pubkey.ts. Keys are any type with equality and
    the hash is any function of the key. */
module PubkeyMaps {
  import opened Wrappers

  datatype Entry<K, V> = Entry(key: K, value: V)

  /** One slot of the JavaScript Map from hash to bucket; the Map keeps insertion order. */
  datatype Bucket<K, V> = Bucket(hash: int, entries: seq<Entry<K, V>>)

  // ---------------------------------------------------------------- association lists

  /** Array.findIndex on the keys. */
  function IndexOf<K(==), V>(es: seq<Entry<K, V>>, key: K): (i: int)
    ensures -1 <= i < |es|
    ensures i >= 0 ==> es[i].key == key && forall j :: 0 <= j < i ==> es[j].key != key
    ensures i == -1 ==> forall j :: 0 <= j < |es| ==> es[j].key != key
  {
    if es == [] then -1
    else if es[0].key == key then 0
    else var i := IndexOf(es[1..], key); if i == -1 then -1 else i + 1
  }

  function ListGet<K(==), V>(es: seq<Entry<K, V>>, key: K): Option<V> {
    var i := IndexOf(es, key);
    if i == -1 then None else Some(es[i].value)
  }

  function ListSet<K(==), V>(es: seq<Entry<K, V>>, key: K, value: V): seq<Entry<K, V>> {
    var i := IndexOf(es, key);
    if i == -1 then es + [Entry(key, value)] else es[i := Entry(es[i].key, value)]
  }

  function ListDelete<K(==), V>(es: seq<Entry<K, V>>, key: K): seq<Entry<K, V>> {
    var i := IndexOf(es, key);
    if i == -1 then es else es[..i] + es[i + 1..]
  }

  ghost predicate DistinctKeys<K, V>(es: seq<Entry<K, V>>) {
    forall i, j :: 0 <= i < j < |es| ==> es[i].key != es[j].key
  }

  lemma {:induction false} IndexOfUnique<K, V>(es: seq<Entry<K, V>>, key: K, i: nat)
    requires DistinctKeys(es) && i < |es| && es[i].key == key
    ensures IndexOf(es, key) == i
  {}

  lemma {:induction false} ListSetLaws<K, V>(es: seq<Entry<K, V>>, key: K, value: V)
    requires DistinctKeys(es)
    ensures DistinctKeys(ListSet(es, key, value))
    ensures forall k :: ListGet(ListSet(es, key, value), k) == if k == key then Some(value) else ListGet(es, k)
  {
    var es' := ListSet(es, key, value);
    forall k ensures ListGet(es', k) == if k == key then Some(value) else ListGet(es, k) {
      var i := IndexOf(es, k);
      if k == key {
        IndexOfUnique(es', key, if i == -1 then |es| else i);
      } else if i >= 0 {
        IndexOfUnique(es', k, i);
      }
    }
  }

  lemma {:induction false} ListDeleteLaws<K, V>(es: seq<Entry<K, V>>, key: K)
    requires DistinctKeys(es)
    ensures DistinctKeys(ListDelete(es, key))
    ensures forall k :: ListGet(ListDelete(es, key), k) == if k == key then None else ListGet(es, k)
  {
    ListDeleteDistinct(es, key);
    forall k ensures ListGet(ListDelete(es, key), k) == if k == key then None else ListGet(es, k) {
      ListDeleteGet(es, key, k);
    }
  }

  lemma {:induction false} ListDeleteDistinct<K, V>(es: seq<Entry<K, V>>, key: K)
    requires DistinctKeys(es)
    ensures DistinctKeys(ListDelete(es, key))
  {}

  lemma {:induction false} ListDeleteGet<K, V>(es: seq<Entry<K, V>>, key: K, k: K)
    requires DistinctKeys(es)
    ensures ListGet(ListDelete(es, key), k) == if k == key then None else ListGet(es, k)
  {
    var es' := ListDelete(es, key);
    var d, i := IndexOf(es, key), IndexOf(es, k);
    ListDeleteDistinct(es, key);
    if d >= 0 && k != key && i >= 0 {
      var i' := if i < d then i else i - 1;
      assert es'[i'] == es[i];
      IndexOfUnique(es', k, i');
    }
  }

  // ---------------------------------------------------------------- buckets

  function BucketOf<K, V>(bs: seq<Bucket<K, V>>, h: int): (b: int)
    ensures -1 <= b < |bs|
    ensures b >= 0 ==> bs[b].hash == h
    ensures b == -1 ==> forall j :: 0 <= j < |bs| ==> bs[j].hash != h
  {
    if bs == [] then -1
    else if bs[0].hash == h then 0
    else var b := BucketOf(bs[1..], h); if b == -1 then -1 else b + 1
  }

  function BucketEntries<K, V>(bs: seq<Bucket<K, V>>, h: int): seq<Entry<K, V>> {
    var b := BucketOf(bs, h);
    if b == -1 then [] else bs[b].entries
  }

  function HashGet<K(==), V>(bs: seq<Bucket<K, V>>, h: int, key: K): Option<V> {
    ListGet(BucketEntries(bs, h), key)
  }

  function HashSet<K(==), V>(bs: seq<Bucket<K, V>>, h: int, key: K, value: V): seq<Bucket<K, V>> {
    var b := BucketOf(bs, h);
    if b == -1 then bs + [Bucket(h, [Entry(key, value)])]
    else bs[b := Bucket(h, ListSet(bs[b].entries, key, value))]
  }

  /** An emptied bucket leaves the Map. */
  function HashDelete<K(==), V>(bs: seq<Bucket<K, V>>, h: int, key: K): seq<Bucket<K, V>> {
    var b := BucketOf(bs, h);
    if b == -1 then bs else
    var es := ListDelete(bs[b].entries, key);
    if es == [] then bs[..b] + bs[b + 1..] else bs[b := Bucket(h, es)]
  }

  /** Every key sits once, in the bucket of its own hash, and there is one non-empty bucket a hash. */
  ghost predicate WellFormed<K(!new), V(!new)>(hash: K -> int, bs: seq<Bucket<K, V>>) {
    && (forall i, j :: 0 <= i < j < |bs| ==> bs[i].hash != bs[j].hash)
    && (forall i :: 0 <= i < |bs| ==> WellFormedBucket(hash, bs[i]))
  }

  ghost predicate WellFormedBucket<K(!new), V(!new)>(hash: K -> int, b: Bucket<K, V>) {
    && b.entries != []
    && DistinctKeys(b.entries)
    && forall i :: 0 <= i < |b.entries| ==> hash(b.entries[i].key) == b.hash
  }

  lemma {:induction false} BucketOfUnique<K(!new), V(!new)>(hash: K -> int, bs: seq<Bucket<K, V>>, h: int, b: nat)
    requires WellFormed(hash, bs) && b < |bs| && bs[b].hash == h
    ensures BucketOf(bs, h) == b
  {}

  lemma {:induction false} HashSetLaws<K(!new), V(!new)>(hash: K -> int, bs: seq<Bucket<K, V>>, key: K, value: V)
    requires WellFormed(hash, bs)
    ensures WellFormed(hash, HashSet(bs, hash(key), key, value))
    ensures forall k :: HashGet(HashSet(bs, hash(key), key, value), hash(k), k)
                       == if k == key then Some(value) else HashGet(bs, hash(k), k)
  {
    var h := hash(key);
    var b := BucketOf(bs, h);
    var bs' := HashSet(bs, h, key, value);
    ListSetLaws(BucketEntries(bs, h), key, value);
    assert WellFormed(hash, bs');
    forall k ensures HashGet(bs', hash(k), k) == if k == key then Some(value) else HashGet(bs, hash(k), k) {
      SetKeepsOtherBuckets(hash, bs, key, value, hash(k));
    }
  }

  lemma {:induction false} SetKeepsOtherBuckets<K(!new), V(!new)>(
    hash: K -> int, bs: seq<Bucket<K, V>>, key: K, value: V, h: int)
    requires WellFormed(hash, bs) && WellFormed(hash, HashSet(bs, hash(key), key, value))
    ensures BucketEntries(HashSet(bs, hash(key), key, value), h)
         == if h == hash(key) then ListSet(BucketEntries(bs, h), key, value) else BucketEntries(bs, h)
  {
    var b := BucketOf(bs, hash(key));
    if b >= 0 {
      ReplacedBucket(hash, bs, b, ListSet(bs[b].entries, key, value), h);
    } else {
      AddedBucket(hash, bs, Bucket(hash(key), [Entry(key, value)]), h);
    }
  }

  lemma {:induction false} ReplacedBucket<K(!new), V(!new)>(
    hash: K -> int, bs: seq<Bucket<K, V>>, d: nat, es: seq<Entry<K, V>>, h: int)
    requires WellFormed(hash, bs) && d < |bs| && WellFormed(hash, bs[d := Bucket(bs[d].hash, es)])
    ensures BucketEntries(bs[d := Bucket(bs[d].hash, es)], h) == if h == bs[d].hash then es else BucketEntries(bs, h)
  {
    var bs' := bs[d := Bucket(bs[d].hash, es)];
    var b := BucketOf(bs, h);
    if b >= 0 {
      BucketOfUnique(hash, bs', h, b);
    } else {
      var b' := BucketOf(bs', h);
      assert forall j :: 0 <= j < |bs'| ==> bs'[j].hash == bs[j].hash;
    }
  }

  lemma {:induction false} AddedBucket<K(!new), V(!new)>(
    hash: K -> int, bs: seq<Bucket<K, V>>, added: Bucket<K, V>, h: int)
    requires WellFormed(hash, bs + [added])
    ensures BucketEntries(bs + [added], h) == if h == added.hash then added.entries else BucketEntries(bs, h)
  {
    var b := BucketOf(bs, h);
    if h == added.hash {
      BucketOfUnique(hash, bs + [added], h, |bs|);
    } else if b >= 0 {
      BucketOfUnique(hash, bs + [added], h, b);
    }
  }

  lemma {:induction false} HashDeleteLaws<K(!new), V(!new)>(hash: K -> int, bs: seq<Bucket<K, V>>, key: K)
    requires WellFormed(hash, bs)
    ensures WellFormed(hash, HashDelete(bs, hash(key), key))
    ensures forall k :: HashGet(HashDelete(bs, hash(key), key), hash(k), k)
                       == if k == key then None else HashGet(bs, hash(k), k)
  {
    var h := hash(key);
    var bs' := HashDelete(bs, h, key);
    ListDeleteLaws(BucketEntries(bs, h), key);
    DeleteKeepsWellFormed(hash, bs, key);
    forall k ensures HashGet(bs', hash(k), k) == if k == key then None else HashGet(bs, hash(k), k) {
      DeleteKeepsOtherBuckets(hash, bs, key, hash(k));
    }
  }

  lemma {:induction false} DeleteKeepsWellFormed<K(!new), V(!new)>(hash: K -> int, bs: seq<Bucket<K, V>>, key: K)
    requires WellFormed(hash, bs)
    ensures WellFormed(hash, HashDelete(bs, hash(key), key))
  {
    ListDeleteLaws(BucketEntries(bs, hash(key)), key);
  }

  lemma {:induction false} DeleteKeepsOtherBuckets<K(!new), V(!new)>(
    hash: K -> int, bs: seq<Bucket<K, V>>, key: K, h: int)
    requires WellFormed(hash, bs)
    ensures BucketEntries(HashDelete(bs, hash(key), key), h)
         == if h == hash(key) then ListDelete(BucketEntries(bs, h), key) else BucketEntries(bs, h)
  {
    DeleteKeepsWellFormed(hash, bs, key);
    var d := BucketOf(bs, hash(key));
    if d >= 0 {
      var es := ListDelete(bs[d].entries, key);
      if es != [] {
        ReplacedBucket(hash, bs, d, es, h);
      } else {
        RemovedBucket(hash, bs, d, h);
      }
    }
  }

  lemma {:induction false} RemovedBucket<K(!new), V(!new)>(hash: K -> int, bs: seq<Bucket<K, V>>, d: nat, h: int)
    requires WellFormed(hash, bs) && d < |bs| && WellFormed(hash, bs[..d] + bs[d + 1..])
    ensures BucketEntries(bs[..d] + bs[d + 1..], h) == if h == bs[d].hash then [] else BucketEntries(bs, h)
  {
    var bs' := bs[..d] + bs[d + 1..];
    var b := BucketOf(bs, h);
    if h != bs[d].hash && b >= 0 {
      var b' := if b < d then b else b - 1;
      assert bs'[b'] == bs[b];
      BucketOfUnique(hash, bs', h, b');
    }
  }

  // ---------------------------------------------------------------- iteration order

  /** The entries in the order the iterator yields them. */
  function Flatten<K, V>(bs: seq<Bucket<K, V>>): seq<Entry<K, V>> {
    if bs == [] then [] else bs[0].entries + Flatten(bs[1..])
  }

  lemma {:induction false} FlattenAppend<K, V>(bs: seq<Bucket<K, V>>, b: Bucket<K, V>)
    ensures Flatten(bs + [b]) == Flatten(bs) + b.entries
  {
    if bs == [] {
      assert Flatten([b]) == b.entries + Flatten([]);
    } else {
      FlattenAppend(bs[1..], b);
      assert (bs + [b])[1..] == bs[1..] + [b];
    }
  }

  lemma {:induction false} ListGetAppend<K, V>(xs: seq<Entry<K, V>>, ys: seq<Entry<K, V>>, k: K)
    ensures ListGet(xs + ys, k) == if IndexOf(xs, k) >= 0 then ListGet(xs, k) else ListGet(ys, k)
  {
    var i, j := IndexOf(xs, k), IndexOf(ys, k);
    var zs := xs + ys;
    if i >= 0 {
      FirstIndex(zs, k, i);
    } else if j >= 0 {
      FirstIndex(zs, k, |xs| + j);
    }
  }

  lemma {:induction false} FirstIndex<K, V>(es: seq<Entry<K, V>>, k: K, i: nat)
    requires i < |es| && es[i].key == k && forall j :: 0 <= j < i ==> es[j].key != k
    ensures IndexOf(es, k) == i
  {}

  /** The iterator yields every key once, and yields what get returns. */
  lemma {:induction false} FlattenLaws<K(!new), V(!new)>(hash: K -> int, bs: seq<Bucket<K, V>>)
    requires WellFormed(hash, bs)
    ensures DistinctKeys(Flatten(bs))
    ensures forall k :: ListGet(Flatten(bs), k) == HashGet(bs, hash(k), k)
  {
    if bs != [] {
      FlattenLaws(hash, bs[1..]);
      FlattenStep(hash, bs);
    }
  }

  lemma {:induction false} OtherHash<K(!new), V(!new)>(hash: K -> int, bs: seq<Bucket<K, V>>, j: nat)
    requires bs != [] && WellFormed(hash, bs)
    requires forall k :: ListGet(Flatten(bs[1..]), k) == HashGet(bs[1..], hash(k), k)
    requires j < |Flatten(bs[1..])|
    ensures hash(Flatten(bs[1..])[j].key) != bs[0].hash
  {
    var ys, rest := Flatten(bs[1..]), bs[1..];
    var k := ys[j].key;
    assert ListGet(ys, k) == HashGet(rest, hash(k), k);
    assert IndexOf(ys, k) != -1;
    var b := BucketOf(rest, hash(k));
    assert b != -1;
    assert rest[b] == bs[b + 1];
  }

  lemma {:induction false} FlattenStep<K(!new), V(!new)>(hash: K -> int, bs: seq<Bucket<K, V>>)
    requires bs != [] && WellFormed(hash, bs)
    requires DistinctKeys(Flatten(bs[1..]))
    requires forall k :: ListGet(Flatten(bs[1..]), k) == HashGet(bs[1..], hash(k), k)
    ensures DistinctKeys(Flatten(bs))
    ensures forall k :: ListGet(Flatten(bs), k) == HashGet(bs, hash(k), k)
  {
    FlattenDistinct(hash, bs);
    forall k ensures ListGet(Flatten(bs), k) == HashGet(bs, hash(k), k) {
      FlattenGet(hash, bs, k);
    }
  }

  lemma {:induction false} FlattenGet<K(!new), V(!new)>(hash: K -> int, bs: seq<Bucket<K, V>>, k: K)
    requires bs != [] && WellFormed(hash, bs)
    requires ListGet(Flatten(bs[1..]), k) == HashGet(bs[1..], hash(k), k)
    ensures ListGet(Flatten(bs), k) == HashGet(bs, hash(k), k)
  {
    ListGetAppend(bs[0].entries, Flatten(bs[1..]), k);
    assert WellFormedBucket(hash, bs[0]);
  }

  lemma {:induction false} FlattenDistinct<K(!new), V(!new)>(hash: K -> int, bs: seq<Bucket<K, V>>)
    requires bs != [] && WellFormed(hash, bs)
    requires DistinctKeys(Flatten(bs[1..]))
    requires forall k :: ListGet(Flatten(bs[1..]), k) == HashGet(bs[1..], hash(k), k)
    ensures DistinctKeys(bs[0].entries + Flatten(bs[1..]))
  {
    var ys := Flatten(bs[1..]);
    forall j | 0 <= j < |ys| ensures hash(ys[j].key) != bs[0].hash {
      OtherHash(hash, bs, j);
    }
    assert WellFormedBucket(hash, bs[0]);
  }

  /** Two lists without repeated keys that answer alike hold the same entries. */
  lemma {:induction false} SameEntries<K(!new), V(!new)>(xs: seq<Entry<K, V>>, ys: seq<Entry<K, V>>)
    requires DistinctKeys(xs) && DistinctKeys(ys)
    requires forall k :: ListGet(xs, k) == ListGet(ys, k)
    ensures multiset(xs) == multiset(ys) && |xs| == |ys|
  {
    if xs == [] {
      assert ys != [] ==> ListGet(ys, ys[0].key) == ListGet(xs, ys[0].key);
    } else {
      var key := xs[0].key;
      ListDeleteLaws(xs, key);
      ListDeleteLaws(ys, key);
      SameEntries(ListDelete(xs, key), ListDelete(ys, key));
      assert ListGet(xs, key) == ListGet(ys, key);
      DeleteOne(xs, key);
      DeleteOne(ys, key);
    }
  }

  lemma {:induction false} DeleteOne<K, V>(es: seq<Entry<K, V>>, key: K)
    requires ListGet(es, key).Some? && DistinctKeys(es)
    ensures multiset(es) == multiset(ListDelete(es, key)) + multiset{Entry(key, ListGet(es, key).value)}
    ensures |es| == |ListDelete(es, key)| + 1
  {
    var i := IndexOf(es, key);
    assert es == es[..i] + [es[i]] + es[i + 1..];
  }

  lemma {:induction false} FlattenSet<K(!new), V(!new)>(hash: K -> int, bs: seq<Bucket<K, V>>, key: K, value: V)
    requires WellFormed(hash, bs)
    ensures multiset(Flatten(HashSet(bs, hash(key), key, value))) == multiset(ListSet(Flatten(bs), key, value))
    ensures |Flatten(HashSet(bs, hash(key), key, value))|
            == |Flatten(bs)| + if HashGet(bs, hash(key), key).None? then 1 else 0
  {
    FlattenLaws(hash, bs);
    HashSetLaws(hash, bs, key, value);
    FlattenLaws(hash, HashSet(bs, hash(key), key, value));
    ListSetLaws(Flatten(bs), key, value);
    SameEntries(Flatten(HashSet(bs, hash(key), key, value)), ListSet(Flatten(bs), key, value));
  }

  lemma {:induction false} FlattenDelete<K(!new), V(!new)>(hash: K -> int, bs: seq<Bucket<K, V>>, key: K)
    requires WellFormed(hash, bs)
    ensures multiset(Flatten(HashDelete(bs, hash(key), key))) == multiset(ListDelete(Flatten(bs), key))
    ensures |Flatten(HashDelete(bs, hash(key), key))|
            == |Flatten(bs)| - if HashGet(bs, hash(key), key).None? then 0 else 1
  {
    FlattenLaws(hash, bs);
    HashDeleteLaws(hash, bs, key);
    FlattenLaws(hash, HashDelete(bs, hash(key), key));
    ListDeleteLaws(Flatten(bs), key);
    SameEntries(Flatten(HashDelete(bs, hash(key), key)), ListDelete(Flatten(bs), key));
  }

  lemma {:induction false} DeleteEffect<K(!new), V(!new)>(hash: K -> int, bs: seq<Bucket<K, V>>, key: K)
    requires WellFormed(hash, bs)
    ensures WellFormed(hash, HashDelete(bs, hash(key), key))
    ensures |Flatten(HashDelete(bs, hash(key), key))|
            == |Flatten(bs)| - if HashGet(bs, hash(key), key).None? then 0 else 1
    ensures HashGet(bs, hash(key), key).None? ==> HashDelete(bs, hash(key), key) == bs
  {
    DeleteKeepsWellFormed(hash, bs, key);
    FlattenDelete(hash, bs, key);
    if HashGet(bs, hash(key), key).None? {
      AbsentDelete(hash, bs, key);
    }
  }

  lemma {:induction false} AbsentDelete<K(!new), V(!new)>(hash: K -> int, bs: seq<Bucket<K, V>>, key: K)
    requires WellFormed(hash, bs) && HashGet(bs, hash(key), key).None?
    ensures HashDelete(bs, hash(key), key) == bs
  {
    var b := BucketOf(bs, hash(key));
    if b >= 0 {
      assert WellFormedBucket(hash, bs[b]);
      assert bs[b := Bucket(hash(key), bs[b].entries)] == bs;
    }
  }

  // ---------------------------------------------------------------- any sequence of calls

  datatype Call<K, V> = CallSet(key: K, value: V) | CallGet(key: K) | CallHas(key: K) | CallDelete(key: K) | CallClear

  datatype Answer<V> = Nothing | Got(value: Option<V>) | Was(present: bool)

  function HashStep<K(==), V>(hash: K -> int, bs: seq<Bucket<K, V>>, call: Call<K, V>): (seq<Bucket<K, V>>, Answer<V>) {
    match call
    case CallSet(k, v) => (HashSet(bs, hash(k), k, v), Nothing)
    case CallGet(k) => (bs, Got(HashGet(bs, hash(k), k)))
    case CallHas(k) => (bs, Was(HashGet(bs, hash(k), k).Some?))
    case CallDelete(k) => (HashDelete(bs, hash(k), k), Was(HashGet(bs, hash(k), k).Some?))
    case CallClear => ([], Nothing)
  }

  /** PublicKeyMap.delete returns nothing; its answer here is what has would have said before. */
  function ListStep<K(==), V>(es: seq<Entry<K, V>>, call: Call<K, V>): (seq<Entry<K, V>>, Answer<V>) {
    match call
    case CallSet(k, v) => (ListSet(es, k, v), Nothing)
    case CallGet(k) => (es, Got(ListGet(es, k)))
    case CallHas(k) => (es, Was(IndexOf(es, k) != -1))
    case CallDelete(k) => (ListDelete(es, k), Was(IndexOf(es, k) != -1))
    case CallClear => ([], Nothing)
  }

  function HashRun<K(==), V>(
    hash: K -> int, bs: seq<Bucket<K, V>>, calls: seq<Call<K, V>>): (seq<Bucket<K, V>>, seq<Answer<V>>)
    decreases calls
  {
    if calls == [] then (bs, [])
    else
      var (next, answer) := HashStep(hash, bs, calls[0]);
      var (last, answers) := HashRun(hash, next, calls[1..]);
      (last, [answer] + answers)
  }

  function ListRun<K(==), V>(es: seq<Entry<K, V>>, calls: seq<Call<K, V>>): (seq<Entry<K, V>>, seq<Answer<V>>)
    decreases calls
  {
    if calls == [] then (es, [])
    else
      var (next, answer) := ListStep(es, calls[0]);
      var (last, answers) := ListRun(next, calls[1..]);
      (last, [answer] + answers)
  }

  /** The hash map and the list hold the same entries, each in good order. */
  ghost predicate Agree<K(!new), V(!new)>(hash: K -> int, bs: seq<Bucket<K, V>>, es: seq<Entry<K, V>>) {
    && WellFormed(hash, bs)
    && DistinctKeys(es)
    && forall k :: HashGet(bs, hash(k), k) == ListGet(es, k)
  }

  lemma {:induction false} AgreementIsEquality<K(!new), V(!new)>(
    hash: K -> int, bs: seq<Bucket<K, V>>, es: seq<Entry<K, V>>)
    requires Agree(hash, bs, es)
    ensures multiset(Flatten(bs)) == multiset(es) && |Flatten(bs)| == |es|
  {
    FlattenLaws(hash, bs);
    SameEntries(Flatten(bs), es);
  }

  lemma {:induction false} StepsAgree<K(!new), V(!new)>(
    hash: K -> int, bs: seq<Bucket<K, V>>, es: seq<Entry<K, V>>, call: Call<K, V>)
    requires Agree(hash, bs, es)
    ensures Agree(hash, HashStep(hash, bs, call).0, ListStep(es, call).0)
    ensures HashStep(hash, bs, call).1 == ListStep(es, call).1
  {
    match call
    case CallSet(k, v) => SetAgrees(hash, bs, es, k, v);
    case CallDelete(k) => DeleteAgrees(hash, bs, es, k);
    case _ =>
  }

  lemma {:induction false} SetAgrees<K(!new), V(!new)>(
    hash: K -> int, bs: seq<Bucket<K, V>>, es: seq<Entry<K, V>>, key: K, value: V)
    requires Agree(hash, bs, es)
    ensures Agree(hash, HashSet(bs, hash(key), key, value), ListSet(es, key, value))
  {
    HashSetLaws(hash, bs, key, value);
    ListSetLaws(es, key, value);
  }

  lemma {:induction false} DeleteAgrees<K(!new), V(!new)>(
    hash: K -> int, bs: seq<Bucket<K, V>>, es: seq<Entry<K, V>>, key: K)
    requires Agree(hash, bs, es)
    ensures Agree(hash, HashDelete(bs, hash(key), key), ListDelete(es, key))
  {
    HashDeleteLaws(hash, bs, key);
    ListDeleteLaws(es, key);
  }

  /** For every hash function and every sequence of calls the hash map answers as the list does, and
      ends well formed with exactly the list's entries. */
  lemma {:induction false} HashMapRefinesList<K(!new), V(!new)>(
    hash: K -> int, bs: seq<Bucket<K, V>>, es: seq<Entry<K, V>>, calls: seq<Call<K, V>>)
    requires Agree(hash, bs, es)
    ensures HashRun(hash, bs, calls).1 == ListRun(es, calls).1
    ensures Agree(hash, HashRun(hash, bs, calls).0, ListRun(es, calls).0)
    ensures multiset(Flatten(HashRun(hash, bs, calls).0)) == multiset(ListRun(es, calls).0)
    decreases calls
  {
    if calls == [] {
      AgreementIsEquality(hash, bs, es);
    } else {
      StepsAgree(hash, bs, es, calls[0]);
      HashMapRefinesList(hash, HashStep(hash, bs, calls[0]).0, ListStep(es, calls[0]).0, calls[1..]);
    }
  }

  /** In particular from the empty map. */
  lemma {:induction false} HashMapRefinesListFromEmpty<K(!new), V(!new)>(hash: K -> int, calls: seq<Call<K, V>>)
    ensures HashRun(hash, [], calls).1 == ListRun([], calls).1
    ensures WellFormed(hash, HashRun(hash, [], calls).0)
    ensures multiset(Flatten(HashRun(hash, [], calls).0)) == multiset(ListRun([], calls).0)
  {
    HashMapRefinesList(hash, [], [], calls);
  }

  // ---------------------------------------------------------------- the classes

  method FindIndex<K(==), V>(es: seq<Entry<K, V>>, key: K) returns (i: int)
    ensures i == IndexOf(es, key)
  {
    i := 0;
    while i < |es|
      invariant 0 <= i <= |es|
      invariant forall j :: 0 <= j < i ==> es[j].key != key
    {
      if es[i].key == key {
        FirstIndex(es, key, i);
        return;
      }
      i := i + 1;
    }
    i := -1;
  }

  /** The map backed by a list. */
  class PublicKeyMap<K(==), V> {
    var record: seq<Entry<K, V>>

    constructor ()
      ensures record == []
    {
      record := [];
    }

    method Set(key: K, value: V)
      modifies this
      ensures record == ListSet(old(record), key, value)
    {
      var index := FindIndex(record, key);
      if index != -1 {
        record := record[index := Entry(record[index].key, value)];
      } else {
        record := record + [Entry(key, value)];
      }
    }

    method Get(key: K) returns (value: Option<V>)
      ensures value == ListGet(record, key)
    {
      var index := FindIndex(record, key);
      if index != -1 {
        return Some(record[index].value);
      }
      return None;
    }

    method Has(key: K) returns (present: bool)
      ensures present == ListGet(record, key).Some?
    {
      var index := FindIndex(record, key);
      present := index != -1;
    }

    method Delete(key: K)
      modifies this
      ensures record == ListDelete(old(record), key)
    {
      var index := FindIndex(record, key);
      if index != -1 {
        record := record[..index] + record[index + 1..];
      }
    }

    method Clear()
      modifies this
      ensures record == []
    {
      record := [];
    }
  }

  function SetAll<K(==), V>(hash: K -> int, bs: seq<Bucket<K, V>>, es: seq<Entry<K, V>>): seq<Bucket<K, V>>
    decreases es
  {
    if es == [] then bs else SetAll(hash, HashSet(bs, hash(es[0].key), es[0].key, es[0].value), es[1..])
  }

  lemma {:induction false} SetAllSnoc<K, V>(hash: K -> int, bs: seq<Bucket<K, V>>, es: seq<Entry<K, V>>, e: Entry<K, V>)
    ensures SetAll(hash, bs, es + [e]) == HashSet(SetAll(hash, bs, es), hash(e.key), e.key, e.value)
    decreases es
  {
    if es == [] {
    } else {
      SetAllSnoc(hash, HashSet(bs, hash(es[0].key), es[0].key, es[0].value), es[1..], e);
      assert (es + [e])[1..] == es[1..] + [e];
    }
  }

  /** The map backed by hash buckets. */
  class PubkeyHashMap<K(==, !new), V(!new)> {
    const hash: K -> int
    var buckets: seq<Bucket<K, V>>
    var size: int

    ghost predicate Valid()
      reads this
    {
      WellFormed(hash, buckets) && size == |Flatten(buckets)|
    }

    constructor (hash: K -> int, entries: seq<Entry<K, V>>)
      ensures Valid() && this.hash == hash && buckets == SetAll(hash, [], entries)
    {
      this.hash := hash;
      buckets := [];
      size := 0;
      new;
      for i := 0 to |entries|
        invariant Valid() && this.hash == hash && buckets == SetAll(hash, [], entries[..i])
      {
        SetAllSnoc(hash, [], entries[..i], entries[i]);
        assert entries[..i + 1] == entries[..i] + [entries[i]];
        Set(entries[i].key, entries[i].value);
      }
      assert entries[..|entries|] == entries;
    }

    method Set(key: K, value: V)
      requires Valid()
      modifies this
      ensures Valid() && buckets == HashSet(old(buckets), hash(key), key, value)
      ensures size == old(size) + if HashGet(old(buckets), hash(key), key).None? then 1 else 0
    {
      HashSetLaws(hash, buckets, key, value);
      FlattenSet(hash, buckets, key, value);
      var h := hash(key);
      var b := BucketOf(buckets, h);
      if b == -1 {
        buckets := buckets + [Bucket(h, [Entry(key, value)])];
        size := size + 1;
      } else {
        var es := buckets[b].entries;
        var i := FindIndex(es, key);
        if i != -1 {
          buckets := buckets[b := Bucket(h, es[i := Entry(es[i].key, value)])];
        } else {
          buckets := buckets[b := Bucket(h, es + [Entry(key, value)])];
          size := size + 1;
        }
      }
    }

    method Get(key: K) returns (value: Option<V>)
      requires Valid()
      ensures value == HashGet(buckets, hash(key), key)
    {
      var b := BucketOf(buckets, hash(key));
      if b == -1 {
        return None;
      }
      var i := FindIndex(buckets[b].entries, key);
      if i == -1 {
        return None;
      }
      return Some(buckets[b].entries[i].value);
    }

    method Has(key: K) returns (present: bool)
      requires Valid()
      ensures present == HashGet(buckets, hash(key), key).Some?
    {
      var b := BucketOf(buckets, hash(key));
      if b == -1 {
        return false;
      }
      var i := FindIndex(buckets[b].entries, key);
      return i != -1;
    }

    method Delete(key: K) returns (present: bool)
      requires Valid()
      modifies this
      ensures Valid() && buckets == HashDelete(old(buckets), hash(key), key)
      ensures present == HashGet(old(buckets), hash(key), key).Some?
      ensures size == old(size) - if present then 1 else 0
    {
      DeleteEffect(hash, buckets, key);
      var h := hash(key);
      var b := BucketOf(buckets, h);
      if b == -1 {
        return false;
      }
      var es := buckets[b].entries;
      var i := FindIndex(es, key);
      if i == -1 {
        return false;
      }
      es := es[..i] + es[i + 1..];
      if es == [] {
        buckets := buckets[..b] + buckets[b + 1..];
      } else {
        buckets := buckets[b := Bucket(h, es)];
      }
      size := size - 1;
      return true;
    }

    method Clear()
      modifies this
      ensures Valid() && buckets == [] && size == 0
    {
      buckets := [];
      size := 0;
    }

    method IsEmpty() returns (empty: bool)
      requires Valid()
      ensures empty <==> forall k :: HashGet(buckets, hash(k), k).None?
    {
      FlattenLaws(hash, buckets);
      assert Flatten(buckets) != [] ==> ListGet(Flatten(buckets), Flatten(buckets)[0].key).Some?;
      empty := size == 0;
    }

    /** The iterator: buckets in insertion order, entries in order inside each. */
    method Entries() returns (es: seq<Entry<K, V>>)
      requires Valid()
      ensures es == Flatten(buckets) && |es| == size && DistinctKeys(es)
      ensures forall k :: ListGet(es, k) == HashGet(buckets, hash(k), k)
    {
      es := [];
      for b := 0 to |buckets|
        invariant es == Flatten(buckets[..b])
      {
        for i := 0 to |buckets[b].entries|
          invariant es == Flatten(buckets[..b]) + buckets[b].entries[..i]
        {
          es := es + [buckets[b].entries[i]];
        }
        FlattenAppend(buckets[..b], buckets[b]);
        assert buckets[..b + 1] == buckets[..b] + [buckets[b]];
      }
      assert buckets[..|buckets|] == buckets;
      FlattenLaws(hash, buckets);
    }
  }

  // ---------------------------------------------------------------- the set

  function Insert<K(==)>(items: seq<K>, item: K): seq<K> {
    if item in items then items else items + [item]
  }

  function InsertAll<K(==)>(items: seq<K>, more: seq<K>): seq<K>
    decreases more
  {
    if more == [] then items else InsertAll(Insert(items, more[0]), more[1..])
  }

  /** The list without repetitions, in the order of first occurrence. */
  function Unique<K(==)>(items: seq<K>): seq<K> { InsertAll([], items) }

  ghost predicate NoRepeats<K>(items: seq<K>) {
    forall i, j :: 0 <= i < j < |items| ==> items[i] != items[j]
  }

  lemma {:induction false} InsertedMembers<K>(items: seq<K>, more: seq<K>)
    ensures forall k :: k in InsertAll(items, more) <==> k in items || k in more
    decreases more
  {
    if more != [] {
      InsertedMembers(Insert(items, more[0]), more[1..]);
    }
  }

  lemma {:induction false} InsertAllLaws<K>(items: seq<K>, more: seq<K>)
    requires NoRepeats(items)
    ensures NoRepeats(InsertAll(items, more)) && items <= InsertAll(items, more)
    decreases more
  {
    if more != [] {
      InsertAllLaws(Insert(items, more[0]), more[1..]);
    }
  }

  /** Each element once, nothing else. */
  lemma {:induction false} UniqueLaws<K>(items: seq<K>)
    ensures NoRepeats(Unique(items))
    ensures forall k :: k in Unique(items) <==> k in items
  {
    InsertAllLaws([], items);
    InsertedMembers([], items);
  }

  lemma {:induction false} InsertAllSnoc<K>(items: seq<K>, more: seq<K>, k: K)
    ensures InsertAll(items, more + [k]) == Insert(InsertAll(items, more), k)
    decreases more
  {
    if more != [] {
      InsertAllSnoc(Insert(items, more[0]), more[1..], k);
      assert (more + [k])[1..] == more[1..] + [k];
    }
  }

  class PublicKeySet<K(==)> {
    var items: seq<K>

    constructor (items: seq<K>)
      ensures this.items == Unique(items)
    {
      this.items := [];
      new;
      for i := 0 to |items|
        invariant this.items == Unique(items[..i])
      {
        InsertAllSnoc([], items[..i], items[i]);
        assert items[..i + 1] == items[..i] + [items[i]];
        Add(items[i]);
      }
      assert items[..|items|] == items;
    }

    method Add(item: K)
      modifies this
      ensures items == Insert(old(items), item)
    {
      var present := Contains(item);
      if !present {
        items := items + [item];
      }
    }

    method Contains(item: K) returns (present: bool)
      ensures present <==> item in items
    {
      for i := 0 to |items|
        invariant item !in items[..i]
      {
        if items[i] == item {
          return true;
        }
      }
      return false;
    }
  }
}
