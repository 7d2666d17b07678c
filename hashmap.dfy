/**
 * The separately chained hash map of ds.h (ds_hm_declare and the ds_hm_*
 * macros): a table of buckets, each a dynamic array of key/value entries,
 * a hash function and an entry count.  The buckets are sequences that the
 * operations reassign; the hash function is a field fixed at construction
 * and key equality is Dafny equality (what _ds_eq_int, _ds_eq_long and
 * _ds_eq_string decide for their key types).
 */
module HashMap {
  import opened Wrappers
  import opened DynArray

  datatype Entry<K, V> = Entry(key: K, value: V)

  /** The value of the first entry of `b` whose key is `k`: the scan of ds_hm_try and ds_hm_get. */
  function BucketFind<K(==), V>(b: seq<Entry<K, V>>, k: K): Option<V>
  {
    if b == [] then None
    else if b[0].key == k then Some(b[0].value)
    else BucketFind(b[1..], k)
  }

  /** No key occurs twice in a bucket. */
  ghost predicate DistinctKeys<K, V>(b: seq<Entry<K, V>>)
  {
    forall x, y :: 0 <= x < y < |b| ==> b[x].key != b[y].key
  }

  /** Every entry sits in the bucket its key hashes to. */
  ghost predicate WellPlaced<K, V>(table: seq<seq<Entry<K, V>>>, hash: K -> nat)
  {
    forall i, j :: 0 <= i < |table| && 0 <= j < |table[i]| ==> hash(table[i][j].key) % |table| == i
  }

  /** What a lookup of `k` finds: nothing in an empty table, else the first match in its bucket. */
  function Lookup<K(==), V>(table: seq<seq<Entry<K, V>>>, hash: K -> nat, k: K): Option<V>
  {
    if |table| == 0 then None else BucketFind(table[hash(k) % |table|], k)
  }

  /** In a bucket without repeated keys, the scan finds `v` for `k` exactly when Entry(k, v) is in it. */
  lemma {:induction false} BucketFindMember<K, V>(b: seq<Entry<K, V>>, k: K)
    requires DistinctKeys(b)
    ensures forall v :: BucketFind(b, k) == Some(v) <==> Entry(k, v) in b
  {
    if b != [] {
      assert DistinctKeys(b[1..]) by {
        forall x, y | 0 <= x < y < |b[1..]| ensures b[1..][x].key != b[1..][y].key {
          assert b[1..][x] == b[x + 1] && b[1..][y] == b[y + 1];
        }
      }
      BucketFindMember(b[1..], k);
      assert b == [b[0]] + b[1..];
      if b[0].key == k {
        forall v | Entry(k, v) in b ensures v == b[0].value {
          var y :| 0 <= y < |b| && b[y] == Entry(k, v);
          assert b[y].key == b[0].key;
          assert y == 0;
        }
      }
    }
  }

  /** The scan finds nothing exactly when no entry has the key. */
  lemma {:induction false} BucketFindNone<K, V>(b: seq<Entry<K, V>>, k: K)
    ensures BucketFind(b, k).None? <==> forall j :: 0 <= j < |b| ==> b[j].key != k
  {
    if b != [] {
      BucketFindNone(b[1..], k);
      assert forall j :: 1 <= j < |b| ==> b[j] == b[1..][j - 1];
    }
  }

  /** Appending an entry whose key is absent keeps the keys distinct and adds exactly that key. */
  lemma AppendFresh<K, V>(b: seq<Entry<K, V>>, e: Entry<K, V>)
    requires DistinctKeys(b) && BucketFind(b, e.key).None?
    ensures DistinctKeys(b + [e])
    ensures forall k :: BucketFind(b + [e], k) == if k == e.key then Some(e.value) else BucketFind(b, k)
  {
    BucketFindNone(b, e.key);
    var c := b + [e];
    assert DistinctKeys(c) by {
      forall x, y | 0 <= x < y < |c| ensures c[x].key != c[y].key {
        if y < |b| {
          assert c[x] == b[x] && c[y] == b[y];
        }
      }
    }
    forall k ensures BucketFind(c, k) == if k == e.key then Some(e.value) else BucketFind(b, k) {
      BucketFindMember(b, k);
      BucketFindMember(c, k);
      if k == e.key {
        assert e in c;
      } else {
        forall v ensures Entry(k, v) in c <==> Entry(k, v) in b {
          assert Entry(k, v) != e;
        }
        BucketFindOfMembers(b, c, k);
      }
    }
  }

  /** Two buckets without repeated keys that hold the same entries for `k` give the same scan result. */
  lemma BucketFindOfMembers<K, V>(b: seq<Entry<K, V>>, c: seq<Entry<K, V>>, k: K)
    requires DistinctKeys(b) && DistinctKeys(c)
    requires forall v :: Entry(k, v) in c <==> Entry(k, v) in b
    ensures BucketFind(c, k) == BucketFind(b, k)
  {
    BucketFindMember(b, k);
    BucketFindMember(c, k);
    if BucketFind(b, k).Some? {
      assert Entry(k, BucketFind(b, k).value) in c;
    }
    if BucketFind(c, k).Some? {
      assert Entry(k, BucketFind(c, k).value) in b;
    }
  }

  /** Overwriting the value of entry `p` changes what is found for its key and nothing else. */
  lemma ReplaceValue<K, V>(b: seq<Entry<K, V>>, p: nat, v: V)
    requires DistinctKeys(b) && p < |b|
    ensures DistinctKeys(b[p := Entry(b[p].key, v)])
    ensures forall k :: BucketFind(b[p := Entry(b[p].key, v)], k) == (if k == b[p].key then Some(v) else BucketFind(b, k))
  {
    var c := b[p := Entry(b[p].key, v)];
    assert forall x :: 0 <= x < |c| ==> c[x].key == b[x].key;
    forall k ensures BucketFind(c, k) == if k == b[p].key then Some(v) else BucketFind(b, k) {
      BucketFindMember(c, k);
      if k == b[p].key {
        assert c[p] == Entry(k, v);
      } else {
        forall w ensures Entry(k, w) in c <==> Entry(k, w) in b {
          if Entry(k, w) in c {
            var x :| 0 <= x < |c| && c[x] == Entry(k, w);
            assert x != p && b[x] == c[x];
          }
          if Entry(k, w) in b {
            var x :| 0 <= x < |b| && b[x] == Entry(k, w);
            assert x != p && b[x] == c[x];
          }
        }
        BucketFindOfMembers(b, c, k);
      }
    }
  }

  /** Taking out entry `p` keeps the keys distinct. */
  lemma RemoveEntryDistinct<K, V>(b: seq<Entry<K, V>>, p: nat)
    requires DistinctKeys(b) && p < |b|
    ensures DistinctKeys(RemoveRange(b, p, 1))
  {
    var c := RemoveRange(b, p, 1);
    RemoveRangeElements(b, p, 1);
    forall x, y | 0 <= x < y < |c| ensures c[x].key != c[y].key {
      var x' := if x < p then x else x + 1;
      var y' := if y < p then y else y + 1;
      assert c[x] == b[x'] && c[y] == b[y'] && x' < y';
    }
  }

  /** Taking out entry `p` keeps exactly the entries other than b[p]. */
  lemma RemoveEntryMembers<K, V>(b: seq<Entry<K, V>>, p: nat, e: Entry<K, V>)
    requires p < |b| && e.key != b[p].key
    ensures e in RemoveRange(b, p, 1) <==> e in b
  {
    assert b == b[..p] + [b[p]] + b[p + 1..];
    assert e != b[p];
  }

  /** Taking out the entry of a key leaves no entry with that key. */
  lemma RemoveEntryKey<K, V>(b: seq<Entry<K, V>>, p: nat)
    requires DistinctKeys(b) && p < |b|
    ensures BucketFind(RemoveRange(b, p, 1), b[p].key).None?
  {
    var c := RemoveRange(b, p, 1);
    BucketFindNone(c, b[p].key);
    RemoveRangeElements(b, p, 1);
    forall j | 0 <= j < |c| ensures c[j].key != b[p].key {
      var j' := if j < p then j else j + 1;
      assert c[j] == b[j'] && j' != p;
    }
  }

  /** Taking out entry `p` does not change what the scan finds for another key. */
  lemma RemoveEntryOther<K, V>(b: seq<Entry<K, V>>, p: nat, k: K)
    requires DistinctKeys(b) && p < |b| && k != b[p].key
    ensures BucketFind(RemoveRange(b, p, 1), k) == BucketFind(b, k)
  {
    RemoveEntryDistinct(b, p);
    forall w ensures Entry(k, w) in RemoveRange(b, p, 1) <==> Entry(k, w) in b {
      RemoveEntryMembers(b, p, Entry(k, w));
    }
    BucketFindOfMembers(b, RemoveRange(b, p, 1), k);
  }

  /** Taking out entry `p` drops its key and changes nothing else. */
  lemma RemoveEntry<K, V>(b: seq<Entry<K, V>>, p: nat)
    requires DistinctKeys(b) && p < |b|
    ensures DistinctKeys(RemoveRange(b, p, 1))
    ensures forall k :: BucketFind(RemoveRange(b, p, 1), k) == (if k == b[p].key then None else BucketFind(b, k))
  {
    RemoveEntryDistinct(b, p);
    forall k ensures BucketFind(RemoveRange(b, p, 1), k) == if k == b[p].key then None else BucketFind(b, k) {
      if k == b[p].key {
        RemoveEntryKey(b, p);
      } else {
        RemoveEntryOther(b, p, k);
      }
    }
  }

  /**
   * What ds_hm_remove, as written, hands back for key `k` in bucket `b`:
   * a pointer to the slot where the entry was found, read after ds_da_remove
   * has already moved the next entry into that slot (or zeroed it).
   */
  function RemoveResultAsWritten<K(==), V>(b: seq<Entry<K, V>>, k: K, zero: V): (r: Option<V>)
    ensures r.None? <==> BucketFind(b, k).None?
  {
    var p := KeyIndex(b, k);
    BucketFindSkip(b, k, p);
    if p == |b| then None
    else
      var rest := RemoveRange(b, p, 1);
      Some(if p < |rest| then rest[p].value else zero)
  }

  /** The index of the first entry with key `k`, or |b| when there is none. */
  function KeyIndex<K(==), V>(b: seq<Entry<K, V>>, k: K): (p: nat)
    ensures p <= |b| && (p < |b| ==> b[p].key == k)
    ensures forall j :: 0 <= j < p ==> b[j].key != k
  {
    if b == [] then 0
    else if b[0].key == k then 0
    else 1 + KeyIndex(b[1..], k)
  }

  /** The pointer of ds_hm_remove does not lead to the removed value: two single-bucket counterexamples. */
  lemma RemoveResultAsWrittenIsWrong()
    ensures RemoveResultAsWritten([Entry(1, 7)], 1, 0) == Some(0)
    ensures BucketFind([Entry(1, 7)], 1) == Some(7)
    ensures RemoveResultAsWritten([Entry(1, 7), Entry(2, 8)], 1, 0) == Some(8)
  {
    assert KeyIndex([Entry(1, 7)], 1) == 0;
    assert KeyIndex([Entry(1, 7), Entry(2, 8)], 1) == 0;
  }

  /** The index of the first entry with key `k` locates what the scan finds. */
  lemma KeyIndexFind<K, V>(b: seq<Entry<K, V>>, k: K)
    ensures BucketFind(b, k) == if KeyIndex(b, k) < |b| then Some(b[KeyIndex(b, k)].value) else None
  {
    var p := KeyIndex(b, k);
    BucketFindSkip(b, k, p);
    if p < |b| {
      assert b[p..][0] == b[p];
    } else {
      assert b[p..] == [];
    }
  }

  /** Every bucket is well placed and free of repeated keys. */
  ghost predicate TableOk<K, V>(table: seq<seq<Entry<K, V>>>, hash: K -> nat)
  {
    WellPlaced(table, hash) && forall i :: 0 <= i < |table| ==> DistinctKeys(table[i])
  }

  /** The table answers every lookup as the map `m` does. */
  ghost predicate Represents<K(!new), V>(table: seq<seq<Entry<K, V>>>, hash: K -> nat, m: map<K, V>)
  {
    forall k :: Lookup(table, hash, k) == if k in m then Some(m[k]) else None
  }

  /**
   * Putting bucket `b` in place of bucket `h`, where `b` agrees with the old
   * bucket on every key but `k` and answers `res` for `k`, keeps the table
   * well formed and changes lookups of `k` alone.
   */
  lemma ReplaceBucket<K, V>(table: seq<seq<Entry<K, V>>>, hash: K -> nat, h: nat, b: seq<Entry<K, V>>, k: K, res: Option<V>)
    requires h < |table| && TableOk(table, hash)
    requires DistinctKeys(b) && hash(k) % |table| == h
    requires forall j :: 0 <= j < |b| ==> hash(b[j].key) % |table| == h
    requires forall k' :: BucketFind(b, k') == if k' == k then res else BucketFind(table[h], k')
    ensures TableOk(table[h := b], hash)
    ensures forall k' :: Lookup(table[h := b], hash, k') == if k' == k then res else Lookup(table, hash, k')
  {
    var t := table[h := b];
    forall k' ensures Lookup(t, hash, k') == if k' == k then res else Lookup(table, hash, k') {
      if hash(k') % |table| == h {
        assert Lookup(t, hash, k') == BucketFind(b, k');
      }
    }
  }

  /** A table that differs from one representing `m` only at `k`, where it answers `res`, represents `m` updated at `k`. */
  lemma RepresentsUpdate<K(!new), V>(table: seq<seq<Entry<K, V>>>, t: seq<seq<Entry<K, V>>>, hash: K -> nat, m: map<K, V>, k: K, res: Option<V>)
    requires Represents(table, hash, m)
    requires forall k' :: Lookup(t, hash, k') == if k' == k then res else Lookup(table, hash, k')
    ensures Represents(t, hash, if res.Some? then m[k := res.value] else m - {k})
  {
    var m' := if res.Some? then m[k := res.value] else m - {k};
    forall k' ensures Lookup(t, hash, k') == if k' in m' then Some(m'[k']) else None {
      assert Lookup(table, hash, k') == if k' in m then Some(m[k']) else None;
    }
  }

  /** Removing a present key from a map lowers its size by one. */
  lemma MapRemoveSize<K, V>(m: map<K, V>, k: K)
    requires k in m
    ensures |m - {k}| == |m| - 1
  {
    var rest := m - {k};
    assert rest.Keys == m.Keys - {k};
    assert m.Keys == rest.Keys + {k};
  }

  /** ds_da_append of entry `e` to the bucket of its hash in table `t`, as _ds_hm_resize does. */
  function AppendToBucket<K, V>(t: seq<seq<Entry<K, V>>>, hash: K -> nat, e: Entry<K, V>): (r: seq<seq<Entry<K, V>>>)
    requires |t| > 0
    ensures |r| == |t|
  {
    var h := hash(e.key) % |t|;
    t[h := t[h] + [e]]
  }

  /** The entries of `table` the resize loop has copied: buckets before `i`, and the first `j` entries of bucket `i`. */
  ghost function Moved<K, V>(table: seq<seq<Entry<K, V>>>, hash: K -> nat, i: nat, j: nat, k: K): Option<V>
    requires i <= |table| && (i < |table| ==> j <= |table[i]|)
  {
    if |table| == 0 then None
    else
      var home := hash(k) % |table|;
      if home < i then BucketFind(table[home], k)
      else if home == i && i < |table| then BucketFind(table[i][..j], k)
      else None
  }

  /** The new table answers lookups exactly for the entries copied so far. */
  ghost predicate MovedSoFar<K(!new), V>(grown: seq<seq<Entry<K, V>>>, table: seq<seq<Entry<K, V>>>, hash: K -> nat, i: nat, j: nat)
    requires i <= |table| && (i < |table| ==> j <= |table[i]|)
  {
    forall k :: Lookup(grown, hash, k) == Moved(table, hash, i, j, k)
  }

  /** Copying entry `j` of bucket `i` extends what the new table answers by exactly that entry. */
  lemma MoveStep<K(!new), V>(table: seq<seq<Entry<K, V>>>, hash: K -> nat, grown: seq<seq<Entry<K, V>>>, i: nat, j: nat)
    requires TableOk(table, hash) && i < |table| && j < |table[i]|
    requires |grown| > 0 && TableOk(grown, hash) && MovedSoFar(grown, table, hash, i, j)
    ensures TableOk(AppendToBucket(grown, hash, table[i][j]), hash)
    ensures MovedSoFar(AppendToBucket(grown, hash, table[i][j]), table, hash, i, j + 1)
  {
    var e := table[i][j];
    var h := hash(e.key) % |grown|;
    var next := AppendToBucket(grown, hash, e);
    assert table[i][..j + 1] == table[i][..j] + [e];
    assert hash(e.key) % |table| == i;
    assert DistinctKeys(table[i]);
    BucketFindNone(table[i][..j], e.key);
    assert BucketFind(grown[h], e.key).None? by {
      assert Lookup(grown, hash, e.key) == Moved(table, hash, i, j, e.key);
    }
    AppendFresh(grown[h], e);
    forall k ensures Lookup(next, hash, k) == Moved(table, hash, i, j + 1, k) {
      assert Lookup(grown, hash, k) == Moved(table, hash, i, j, k);
      BucketFindAppendAny(table[i][..j], e, k);
    }
  }

  /** Once bucket `i` is fully copied, the copied entries are those of the buckets before `i + 1`. */
  lemma NextBucket<K(!new), V>(table: seq<seq<Entry<K, V>>>, hash: K -> nat, grown: seq<seq<Entry<K, V>>>, i: nat)
    requires i < |table| && MovedSoFar(grown, table, hash, i, |table[i]|)
    ensures MovedSoFar(grown, table, hash, i + 1, 0)
  {
    assert table[i][..|table[i]|] == table[i];
    forall k ensures Lookup(grown, hash, k) == Moved(table, hash, i + 1, 0, k) {
      assert Lookup(grown, hash, k) == Moved(table, hash, i, |table[i]|, k);
    }
  }

  /** When every bucket is copied, the new table answers every lookup as the old one did. */
  lemma AllMoved<K(!new), V>(table: seq<seq<Entry<K, V>>>, hash: K -> nat, grown: seq<seq<Entry<K, V>>>, m: map<K, V>)
    requires Represents(table, hash, m) && MovedSoFar(grown, table, hash, |table|, 0)
    ensures Represents(grown, hash, m)
  {
    forall k ensures Lookup(grown, hash, k) == if k in m then Some(m[k]) else None {
      assert Lookup(grown, hash, k) == Moved(table, hash, |table|, 0, k);
      assert Lookup(table, hash, k) == if k in m then Some(m[k]) else None;
      if |table| > 0 {
        assert hash(k) % |table| < |table|;
      }
    }
  }

  /** The inner loop of _ds_hm_resize: every entry of bucket `i` appended to its bucket in `grown`. */
  method MoveBucket<K(!new), V>(table: seq<seq<Entry<K, V>>>, hash: K -> nat, grown: seq<seq<Entry<K, V>>>, i: nat)
    returns (next: seq<seq<Entry<K, V>>>)
    requires TableOk(table, hash) && i < |table|
    requires |grown| > 0 && TableOk(grown, hash) && MovedSoFar(grown, table, hash, i, 0)
    ensures |next| == |grown| && TableOk(next, hash) && MovedSoFar(next, table, hash, i + 1, 0)
  {
    next := grown;
    var b := table[i];
    var j := 0;
    while j < |b|
      invariant 0 <= j <= |b| && |next| == |grown|
      invariant TableOk(next, hash) && MovedSoFar(next, table, hash, i, j)
    {
      MoveStep(table, hash, next, i, j);
      next := AppendToBucket(next, hash, b[j]);
      j := j + 1;
    }
    NextBucket(table, hash, next, i);
  }

  /** The table _ds_hm_resize builds: `cap` empty buckets, then every entry of `table` moved in bucket order. */
  method Rehash<K(!new), V>(table: seq<seq<Entry<K, V>>>, hash: K -> nat, cap: nat) returns (grown: seq<seq<Entry<K, V>>>)
    requires TableOk(table, hash) && cap > 0
    ensures |grown| == cap && TableOk(grown, hash) && MovedSoFar(grown, table, hash, |table|, 0)
  {
    grown := seq(cap, _ => []);
    assert forall k :: BucketFind(grown[hash(k) % cap], k) == None;
    var i := 0;
    while i < |table|
      invariant 0 <= i <= |table| && |grown| == cap
      invariant TableOk(grown, hash) && MovedSoFar(grown, table, hash, i, 0)
    {
      grown := MoveBucket(table, hash, grown, i);
      i := i + 1;
    }
  }

  /** The bucket scan of ds_hm_try, ds_hm_get and ds_hm_set: the index of the first entry with key `k`, or |b|. */
  method ScanIndex<K(==), V>(b: seq<Entry<K, V>>, k: K) returns (i: nat)
    ensures i == KeyIndex(b, k)
  {
    i := 0;
    while i < |b|
      invariant 0 <= i <= |b|
      invariant forall j :: 0 <= j < i ==> b[j].key != k
      invariant KeyIndex(b, k) == i + KeyIndex(b[i..], k)
    {
      if b[i].key == k {
        assert b[i..][0] == b[i];
        return;
      }
      assert b[i..][1..] == b[i + 1..];
      i := i + 1;
    }
  }

  /** The bucket step of ds_hm_set: overwrite the value of the first entry with key `k`, or append a new entry. */
  method SetInBucket<K(==), V>(b: seq<Entry<K, V>>, k: K, v: V) returns (nb: seq<Entry<K, V>>, added: bool)
    requires DistinctKeys(b)
    ensures DistinctKeys(nb) && added == BucketFind(b, k).None?
    ensures forall k' :: BucketFind(nb, k') == if k' == k then Some(v) else BucketFind(b, k')
    ensures forall j :: 0 <= j < |nb| ==> nb[j] in b || nb[j].key == k
  {
    var i := ScanIndex(b, k);
    KeyIndexFind(b, k);
    if i < |b| {
      nb := b[i := Entry(b[i].key, v)];
      ReplaceValue(b, i, v);
      added := false;
      forall j | 0 <= j < |nb| ensures nb[j] in b || nb[j].key == k {
        if j != i {
          assert nb[j] == b[j];
        }
      }
    } else {
      nb := b + [Entry(k, v)];
      BucketFindNone(b, k);
      AppendFresh(b, Entry(k, v));
      added := true;
    }
  }

  /**
   * The bucket loop of ds_hm_remove: scan to the end without stopping,
   * take out each entry whose key is `k` and keep its value.  The value is
   * read before the entry is taken out; RemoveResultAsWritten is what the
   * source reads instead.
   */
  method RemoveFromBucket<K(==), V>(b: seq<Entry<K, V>>, k: K) returns (nb: seq<Entry<K, V>>, r: Option<V>)
    requires DistinctKeys(b)
    ensures DistinctKeys(nb) && r == BucketFind(b, k)
    ensures forall k' :: BucketFind(nb, k') == if k' == k then None else BucketFind(b, k')
    ensures forall j :: 0 <= j < |nb| ==> nb[j] in b
  {
    nb := b;
    ghost var at := 0;
    r := None;
    var i := 0;
    while i < |nb|
      invariant 0 <= i <= |nb| + (if r.Some? then 1 else 0)
      invariant DistinctKeys(nb)
      invariant r.None? ==> i <= |nb| && nb == b && forall j :: 0 <= j < i ==> b[j].key != k
      invariant r.Some? ==> at < |b| && b[at].key == k && r.value == b[at].value
      invariant r.Some? ==> nb == RemoveRange(b, at, 1)
      invariant r.Some? ==> forall j :: 0 <= j < |nb| ==> nb[j].key != k
    {
      if nb[i].key == k {
        r := Some(nb[i].value);
        at := i;
        RemoveEntry(nb, i);
        BucketFindNone(RemoveRange(nb, i, 1), k);
        nb := RemoveRange(nb, i, 1);
      }
      i := i + 1;
    }
    if r.Some? {
      BucketFindMember(b, k);
      assert b[at] in b;
      RemoveEntry(b, at);
      RemoveRangeElements(b, at, 1);
      forall j | 0 <= j < |nb| ensures nb[j] in b {
        assert nb[j] == b[if j < at then j else j + 1];
      }
    } else {
      BucketFindNone(b, k);
    }
  }

  class HashMap<K(==, !new), V> {
    var table: seq<seq<Entry<K, V>>>
    var size: nat
    /** The hash function (hfn) chosen for the key type. */
    const hash: K -> nat
    /** The zero value ds_hm_get answers for a missing key. */
    const zero: V
    /** The map the table represents. */
    ghost var contents: map<K, V>

    ghost predicate Valid()
      reads this
    {
      TableOk(table, hash) && Represents(table, hash, contents) && size == |contents|
    }

    /** A zero-initialised map: no table, no entries. */
    constructor (hash: K -> nat, zero: V)
      ensures Valid() && contents == map[] && table == [] && size == 0
      ensures this.hash == hash && this.zero == zero
    {
      this.hash := hash;
      this.zero := zero;
      table := [];
      size := 0;
      contents := map[];
    }

    /**
     * _ds_hm_resize: a new table of the capacity ds_da_reserve gives for
     * twice the old length (1 for an empty table), every entry appended to
     * the bucket of its hash.
     */
    method Resize()
      requires Valid()
      modifies this
      ensures Valid() && contents == old(contents) && size == old(size)
      ensures |table| == ReservedCapacity(0, if |old(table)| == 0 then 1 else 2 * |old(table)|)
    {
      var cap := ReservedCapacity(0, if |table| == 0 then 1 else 2 * |table|);
      var grown := Rehash(table, hash, cap);
      AllMoved(table, hash, grown, contents);
      table := grown;
    }

    /** ds_hm_try: the value stored for `k`, nothing for an absent key or an empty table. */
    method Try(k: K) returns (r: Option<V>)
      requires Valid()
      ensures r == if k in contents then Some(contents[k]) else None
      ensures |table| == 0 ==> r.None?
    {
      assert Lookup(table, hash, k) == if k in contents then Some(contents[k]) else None;
      if |table| == 0 {
        return None;
      }
      var b := table[hash(k) % |table|];
      var i := ScanIndex(b, k);
      KeyIndexFind(b, k);
      r := if i < |b| then Some(b[i].value) else None;
    }

    /** ds_hm_get: the value stored for `k`, the zero value when absent; the table must not be empty. */
    method Get(k: K) returns (r: V)
      requires Valid() && |table| > 0
      ensures r == if k in contents then contents[k] else zero
    {
      assert Lookup(table, hash, k) == if k in contents then Some(contents[k]) else None;
      var b := table[hash(k) % |table|];
      var i := ScanIndex(b, k);
      KeyIndexFind(b, k);
      r := if i < |b| then b[i].value else zero;
    }

    /**
     * ds_hm_set: grow first when the table is empty or holds 3/4 of its
     * length in entries, then overwrite the value of a matching entry or
     * append a new entry to the key's bucket.
     */
    method Set(k: K, v: V)
      requires Valid()
      modifies this
      ensures Valid()
      ensures contents == old(contents)[k := v]
      ensures size == if k in old(contents) then old(size) else old(size) + 1
      ensures |table| > 0
    {
      if |table| == 0 || 4 * size >= 3 * |table| {
        Resize();
      }
      var h := hash(k) % |table|;
      var b := table[h];
      assert Lookup(table, hash, k) == if k in contents then Some(contents[k]) else None;
      var nb, added := SetInBucket(b, k, v);
      if added {
        size := size + 1;
      }
      ReplaceBucket(table, hash, h, nb, k, Some(v));
      RepresentsUpdate(table, table[h := nb], hash, contents, k, Some(v));
      table := table[h := nb];
      contents := contents[k := v];
    }

    /**
     * ds_hm_remove, with the value read before the entry is taken out: the
     * matching entry leaves its bucket and the count drops.  The table must
     * not be empty.
     */
    method Remove(k: K) returns (r: Option<V>)
      requires Valid() && |table| > 0
      modifies this
      ensures Valid()
      ensures r == if k in old(contents) then Some(old(contents)[k]) else None
      ensures contents == old(contents) - {k}
      ensures size == if k in old(contents) then old(size) - 1 else old(size)
      ensures |table| == |old(table)|
    {
      var h := hash(k) % |table|;
      var b := table[h];
      assert Lookup(table, hash, k) == if k in contents then Some(contents[k]) else None;
      var nb;
      nb, r := RemoveFromBucket(b, k);
      if r.Some? {
        MapRemoveSize(contents, k);
        size := size - 1;
      }
      ReplaceBucket(table, hash, h, nb, k, None);
      RepresentsUpdate(table, table[h := nb], hash, contents, k, None);
      table := table[h := nb];
      contents := contents - {k};
    }
  }

  /** The first match after appending `e`: the old first match if any, else `e` if its key matches. */
  lemma {:induction false} BucketFindAppendAny<K, V>(b: seq<Entry<K, V>>, e: Entry<K, V>, k: K)
    ensures BucketFind(b + [e], k) ==
      if BucketFind(b, k).Some? then BucketFind(b, k) else if e.key == k then Some(e.value) else None
  {
    if b != [] {
      assert (b + [e])[1..] == b[1..] + [e];
      BucketFindAppendAny(b[1..], e, k);
    } else {
      assert [] + [e] == [e];
    }
  }

  /** Entries that do not match can be skipped: the scan result is that of the rest. */
  lemma {:induction false} BucketFindSkip<K, V>(b: seq<Entry<K, V>>, k: K, i: nat)
    requires i <= |b| && forall j :: 0 <= j < i ==> b[j].key != k
    ensures BucketFind(b, k) == BucketFind(b[i..], k)
  {
    if i > 0 {
      BucketFindSkip(b[1..], k, i - 1);
      assert b[1..][i - 1..] == b[i..];
    }
  }
}
