/**
 * PHP associative arrays with string keys, as ordered sequences of entries.
 *
 * A PHP array remembers insertion order; assigning to a key that is already
 * present overwrites the value but keeps the key at its first position.
 */
module PhpArray {
  import opened Wrappers
  import opened PhpValue
  import opened Search

  datatype Entry = Entry(key: string, val: Value)

  /** A PHP array: entries in insertion order. */
  type Assoc = seq<Entry>

  function KeyIs(k: string): Entry -> bool {
    (e: Entry) => e.key == k
  }

  /** `array_key_exists($k, $a)` */
  predicate KeyExists(a: Assoc, k: string) {
    exists i :: 0 <= i < |a| && a[i].key == k
  }

  /** No key occurs twice, which every array built by `Put` satisfies. */
  ghost predicate UniqueKeys(a: Assoc) {
    forall i, j :: 0 <= i < j < |a| ==> a[i].key != a[j].key
  }

  /** The keys of `a`, in order. */
  function Keys(a: Assoc): (ks: seq<string>)
    ensures |ks| == |a|
    ensures forall i :: 0 <= i < |a| ==> ks[i] == a[i].key
  {
    seq(|a|, i requires 0 <= i < |a| => a[i].key)
  }

  /** `$a[$k] ?? null` */
  function Get(a: Assoc, k: string): Value {
    match Find(a, KeyIs(k))
    case None => Null
    case Some(e) => e.val
  }

  /** `$a[$k] = $v`: overwrite the entry for `k` in place, or append a new one. */
  function Put(a: Assoc, k: string, v: Value): (r: Assoc)
    ensures KeyExists(a, k) ==> |r| == |a|
    ensures forall i | IsFirst(a, KeyIs(k), i) :: r == a[i := Entry(k, v)]
    ensures !KeyExists(a, k) ==> r == a + [Entry(k, v)]
  {
    match FirstIndex(a, KeyIs(k))
    case Some(i) => a[i := Entry(k, v)]
    case None => a + [Entry(k, v)]
  }

  /** The array as a key-to-value map, forgetting the order. */
  function AsMap(a: Assoc): (m: map<string, Value>)
    ensures forall k :: k in m <==> KeyExists(a, k)
    ensures forall k | k in m :: m[k] == Get(a, k)
  {
    map k | k in (set e | e in a :: e.key) :: Get(a, k)
  }

  /** With unique keys, the value stored under each entry's key is that entry's value. */
  lemma {:induction false} GetUnique(a: Assoc, i: int)
    requires UniqueKeys(a)
    requires 0 <= i < |a|
    ensures Get(a, a[i].key) == a[i].val
  {
    assert IsFirst(a, KeyIs(a[i].key), i);
  }

  /** After `Put`, the array holds `v` under `k`, every other key keeps its value,
      the key set grows by exactly `k`, and keys stay unique. */
  lemma {:induction false} PutSpec(a: Assoc, k: string, v: Value)
    ensures Get(Put(a, k, v), k) == v
    ensures forall j | j != k :: Get(Put(a, k, v), j) == Get(a, j)
    ensures forall j :: KeyExists(Put(a, k, v), j) <==> KeyExists(a, j) || j == k
    ensures UniqueKeys(a) ==> UniqueKeys(Put(a, k, v))
  {
    var r := Put(a, k, v);
    match FirstIndex(a, KeyIs(k))
    case Some(i) =>
      assert IsFirst(r, KeyIs(k), i);
      FirstIndexIsTheFirst(r, KeyIs(k), i);
      forall j | j != k
        ensures Get(r, j) == Get(a, j)
      {
        match FirstIndex(a, KeyIs(j))
        case Some(m) =>
          assert IsFirst(r, KeyIs(j), m);
          FirstIndexIsTheFirst(r, KeyIs(j), m);
        case None =>
          assert NoneMatch(r, KeyIs(j));
      }
      forall j
        ensures KeyExists(r, j) <==> KeyExists(a, j) || j == k
      {
        if KeyExists(a, j) {
          var m :| 0 <= m < |a| && a[m].key == j;
          assert r[m].key == j;
        }
        if KeyExists(r, j) {
          var m :| 0 <= m < |r| && r[m].key == j;
          assert a[m].key == j;
        }
      }
    case None =>
      assert IsFirst(r, KeyIs(k), |a|);
      FirstIndexIsTheFirst(r, KeyIs(k), |a|);
      forall j | j != k
        ensures Get(r, j) == Get(a, j)
      {
        FirstIndexAppend(a, Entry(k, v), KeyIs(j));
      }
      forall j
        ensures KeyExists(r, j) <==> KeyExists(a, j) || j == k
      {
        if KeyExists(a, j) {
          var m :| 0 <= m < |a| && a[m].key == j;
          assert r[m].key == j;
        }
      }
  }
}
