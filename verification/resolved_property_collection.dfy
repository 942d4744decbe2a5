/**
 * The ordered collection of resolved properties that a resolver fills, one
 * per constructor parameter, and its projection to a PHP array.
 */
module PropertyCollection {
  import opened Wrappers
  import opened PhpValue
  import opened Search
  import opened PhpArray
  import opened ResolvedProperties

  /** Items in push order. Names are not required to be distinct. */
  type Collection = seq<ResolvedProperty>

  function NameIs(k: string): ResolvedProperty -> bool {
    (p: ResolvedProperty) => p.name == k
  }

  /** Some item is named `k`. */
  ghost predicate Named(c: Collection, k: string) {
    exists i :: 0 <= i < |c| && c[i].name == k
  }

  /** No two items share a name. */
  ghost predicate UniqueNames(c: Collection) {
    forall i, j :: 0 <= i < j < |c| ==> c[i].name != c[j].name
  }

  /** Item `i` is the last one named as it is. */
  ghost predicate IsLastNamed(c: Collection, i: int) {
    && 0 <= i < |c|
    && forall j :: i < j < |c| ==> c[j].name != c[i].name
  }

  /** Position of the first item named `k`, or `|c|` when there is none. */
  function FirstPos(c: Collection, k: string): nat {
    match FirstIndex(c, NameIs(k))
    case Some(n) => n
    case None => |c|
  }

  /** `push`: append at the end, leaving the earlier items alone. */
  function Push(c: Collection, p: ResolvedProperty): (r: Collection)
    ensures |r| == |c| + 1
    ensures forall i :: 0 <= i < |c| ==> r[i] == c[i]
    ensures r[|c|] == p
  {
    c + [p]
  }

  /** `get`: the first item named `k`, or `None` (PHP `null`). */
  function Get(c: Collection, k: string): (r: Option<ResolvedProperty>)
    ensures r.Some? ==> r.value.name == k
    ensures forall i | IsFirst(c, NameIs(k), i) :: r == Some(c[i])
    ensures r.None? <==> !Named(c, k)
  {
    assert NoneMatch(c, NameIs(k)) <==> !Named(c, k);
    Find(c, NameIs(k))
  }

  /** `toAssocArray`: each item's name mapped to its effective value, in push order. */
  function ToAssocArray(c: Collection): (a: Assoc)
    ensures UniqueKeys(a)
    ensures forall k :: KeyExists(a, k) <==> Named(c, k)
    ensures |a| <= |c|
    ensures |c| > 0 ==> |a| > 0
    decreases |c|
  {
    if |c| == 0 then []
    else
      var prefix := c[..|c| - 1];
      var last := c[|c| - 1];
      var a := ToAssocArray(prefix);
      PutSpec(a, last.name, GetValue(last));
      assert forall k :: Named(c, k) <==> Named(prefix, k) || k == last.name by {
        forall k | Named(c, k) && k != last.name
          ensures Named(prefix, k)
        {
          var i :| 0 <= i < |c| && c[i].name == k;
          assert prefix[i].name == k;
        }
        forall k | Named(prefix, k)
          ensures Named(c, k)
        {
          var i :| 0 <= i < |prefix| && prefix[i].name == k;
          assert c[i].name == k;
        }
      }
      Put(a, last.name, GetValue(last))
  }

  /** `has`: `array_key_exists` on the projection, which holds exactly when
      some item is named `k`, whatever that item's effective value. */
  function Has(c: Collection, k: string): (r: bool)
    ensures r <==> Named(c, k)
  {
    KeyExists(ToAssocArray(c), k)
  }

  /** `setValue`: assign one field of the first item named `propName`. */
  function SetValue(c: Collection, propName: string, u: FieldUpdate): (r: Collection)
    requires Named(c, propName)
    ensures |r| == |c|
    ensures forall i | IsFirst(c, NameIs(propName), i) :: r == c[i := Assign(c[i], u)]
  {
    assert !NoneMatch(c, NameIs(propName));
    var i := FirstIndex(c, NameIs(propName)).value;
    c[i := Assign(c[i], u)]
  }

  /** `get(k)` returns the first item on which `isName(k)` holds. */
  lemma {:induction false} GetIsFirstIsName(c: Collection, k: string, i: int)
    requires 0 <= i < |c| && IsName(c[i], k)
    requires forall j :: 0 <= j < i ==> !IsName(c[j], k)
    ensures Get(c, k) == Some(c[i])
  {
    assert IsFirst(c, NameIs(k), i);
  }

  /** `get(k)` returns `null` exactly when `isName(k)` holds on no item. */
  lemma {:induction false} GetNoneIffNoIsName(c: Collection, k: string)
    ensures Get(c, k).None? <==> forall i :: 0 <= i < |c| ==> !IsName(c[i], k)
  {
    if Get(c, k).Some? {
      var i :| 0 <= i < |c| && c[i].name == k;
      assert IsName(c[i], k);
    }
  }

  /** `has(k)` holds exactly when `get(k)` is not `null`. */
  lemma {:induction false} HasIffGet(c: Collection, k: string)
    ensures Has(c, k) <==> Get(c, k).Some?
  {
  }

  /** The projection holds, under each name, the effective value of the LAST item with that name. */
  lemma {:induction false} ToAssocArrayValue(c: Collection, i: int)
    requires IsLastNamed(c, i)
    ensures PhpArray.Get(ToAssocArray(c), c[i].name) == GetValue(c[i])
    decreases |c|
  {
    var prefix := c[..|c| - 1];
    var last := c[|c| - 1];
    PutSpec(ToAssocArray(prefix), last.name, GetValue(last));
    if i < |c| - 1 {
      assert IsLastNamed(prefix, i);
      ToAssocArrayValue(prefix, i);
    }
  }

  /** A name absent from the collection reads as `null` in the projection. */
  lemma {:induction false} ToAssocArrayMissing(c: Collection, k: string)
    requires !Named(c, k)
    ensures PhpArray.Get(ToAssocArray(c), k) == Null
  {
    var a := ToAssocArray(c);
    assert NoneMatch(a, KeyIs(k));
  }

  /** Keys of `a` appear in the order of their first item in `c`, and each has one. */
  ghost predicate InFirstOccurrenceOrder(c: Collection, a: Assoc) {
    && (forall i, j :: 0 <= i < j < |a| ==> FirstPos(c, a[i].key) < FirstPos(c, a[j].key))
    && (forall i :: 0 <= i < |a| ==> FirstPos(c, a[i].key) < |c|)
  }

  /** Pushing an item moves no existing first position; a new name is first seen at the end. */
  lemma {:induction false} FirstPosPush(c: Collection, p: ResolvedProperty, k: string)
    ensures Named(c, k) ==> FirstPos(c + [p], k) == FirstPos(c, k) < |c|
    ensures !Named(c, k) && k == p.name ==> FirstPos(c + [p], k) == |c|
  {
    FirstIndexAppend(c, p, NameIs(k));
    if !Named(c, k) {
      assert NoneMatch(c, NameIs(k));
    } else {
      assert !NoneMatch(c, NameIs(k));
    }
  }

  /** Pushing an item moves no first position of a name already seen. */
  lemma {:induction false} FirstPosKept(prefix: Collection, last: ResolvedProperty, a: Assoc)
    requires forall i :: 0 <= i < |a| ==> FirstPos(prefix, a[i].key) < |prefix|
    ensures forall i :: 0 <= i < |a| ==> FirstPos(prefix + [last], a[i].key) == FirstPos(prefix, a[i].key)
  {
    forall i | 0 <= i < |a|
      ensures FirstPos(prefix + [last], a[i].key) == FirstPos(prefix, a[i].key)
    {
      var k := a[i].key;
      assert FirstIndex(prefix, NameIs(k)).Some?;
      assert prefix[FirstPos(prefix, k)].name == k;
      FirstPosPush(prefix, last, k);
    }
  }

  /** A push overwriting an existing key keeps the keys, and so their order. */
  lemma {:induction false} OrderStepOverwrite(prefix: Collection, last: ResolvedProperty, a: Assoc)
    requires InFirstOccurrenceOrder(prefix, a)
    requires KeyExists(a, last.name)
    requires forall i :: 0 <= i < |a| ==> FirstPos(prefix + [last], a[i].key) == FirstPos(prefix, a[i].key)
    ensures InFirstOccurrenceOrder(prefix + [last], Put(a, last.name, GetValue(last)))
  {
    var r := Put(a, last.name, GetValue(last));
    var m := FirstIndex(a, KeyIs(last.name)).value;
    assert r == a[m := Entry(last.name, GetValue(last))];
    assert forall i :: 0 <= i < |r| ==> r[i].key == a[i].key;
  }

  /** A push of a new name appends its key, first seen at the end. */
  lemma {:induction false} OrderStepAppend(prefix: Collection, last: ResolvedProperty, a: Assoc)
    requires InFirstOccurrenceOrder(prefix, a)
    requires !KeyExists(a, last.name)
    requires FirstPos(prefix + [last], last.name) == |prefix|
    requires forall i :: 0 <= i < |a| ==> FirstPos(prefix + [last], a[i].key) == FirstPos(prefix, a[i].key)
    ensures InFirstOccurrenceOrder(prefix + [last], Put(a, last.name, GetValue(last)))
  {
    var r := Put(a, last.name, GetValue(last));
    assert r == a + [Entry(last.name, GetValue(last))];
    assert forall i :: 0 <= i < |a| ==> r[i] == a[i];
  }

  /** One push keeps the projection's keys in first-occurrence order. */
  lemma {:induction false} ToAssocArrayOrderStep(c: Collection)
    requires |c| > 0
    requires InFirstOccurrenceOrder(c[..|c| - 1], ToAssocArray(c[..|c| - 1]))
    ensures InFirstOccurrenceOrder(c, ToAssocArray(c))
  {
    var prefix := c[..|c| - 1];
    var last := c[|c| - 1];
    var a := ToAssocArray(prefix);
    assert ToAssocArray(c) == Put(a, last.name, GetValue(last));
    assert c == prefix + [last];
    FirstPosKept(prefix, last, a);
    if KeyExists(a, last.name) {
      OrderStepOverwrite(prefix, last, a);
    } else {
      assert !Named(prefix, last.name);
      FirstPosPush(prefix, last, last.name);
      OrderStepAppend(prefix, last, a);
    }
  }

  /** Keys of the projection appear in the order of each name's first item. */
  lemma {:induction false} ToAssocArrayOrder(c: Collection)
    ensures InFirstOccurrenceOrder(c, ToAssocArray(c))
    decreases |c|
  {
    if |c| > 0 {
      ToAssocArrayOrder(c[..|c| - 1]);
      ToAssocArrayOrderStep(c);
    }
  }

  /** With distinct names, the projection is exactly one entry per item, in push order. */
  lemma {:induction false} ToAssocArrayDistinct(c: Collection)
    requires UniqueNames(c)
    ensures ToAssocArray(c) == seq(|c|, i requires 0 <= i < |c| => Entry(c[i].name, GetValue(c[i])))
    decreases |c|
  {
    if |c| > 0 {
      var prefix := c[..|c| - 1];
      var last := c[|c| - 1];
      ToAssocArrayDistinct(prefix);
      assert !Named(prefix, last.name);
    }
  }
}
