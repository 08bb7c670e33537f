/** Bounded tables with one entry per key, oldest first. */
module Tables {
  import opened Time

  const MAX_TRACKED: nat := 4096

  datatype Entry<+K, +V> = Entry(key: K, value: V)

  /** Where the key is, or the length when it is not. */
  function IndexOf<K(==), V>(v: seq<Entry<K, V>>, key: K): (i: nat)
    ensures i <= |v|
    ensures i < |v| ==> v[i].key == key
    ensures forall j :: 0 <= j < i ==> v[j].key != key
  {
    if v == [] || v[0].key == key then 0 else 1 + IndexOf(v[1..], key)
  }

  function Bound<T>(v: seq<T>): seq<T> {
    if |v| > MAX_TRACKED then v[1..] else v
  }

  function Upsert<K(==), V>(v: seq<Entry<K, V>>, e: Entry<K, V>): seq<Entry<K, V>> {
    var i := IndexOf(v, e.key);
    if i < |v| then v[i := e] else Bound(v + [e])
  }

  /** The table without one key. */
  function RemoveKey<K(==), V>(v: seq<Entry<K, V>>, key: K): (r: seq<Entry<K, V>>)
    ensures |r| <= |v|
    ensures forall e <- r :: e in v && e.key != key
    ensures forall e <- v :: e.key != key ==> e in r
  {
    if v == [] then []
    else if v[0].key == key then RemoveKey(v[1..], key) else [v[0]] + RemoveKey(v[1..], key)
  }

  ghost predicate IsTable<K, V>(v: seq<Entry<K, V>>) {
    |v| <= 4096 && forall i, j :: 0 <= i < j < |v| ==> v[i].key != v[j].key
  }

  method UpsertInPlace<K(==), V>(v: seq<Entry<K, V>>, e: Entry<K, V>) returns (r: seq<Entry<K, V>>)
    ensures r == Upsert(v, e)
  {
    var i := 0;
    while i < |v| && v[i].key != e.key
      invariant 0 <= i <= |v|
      invariant IndexOf(v, e.key) == i + IndexOf(v[i..], e.key)
    {
      assert v[i..][1..] == v[i + 1..];
      i := i + 1;
    }
    if i < |v| { return v[i := e]; }
    r := v + [e];
    if |r| > MAX_TRACKED { r := r[1..]; }
  }

  lemma {:induction false} UpsertKeepsTable<K, V>(v: seq<Entry<K, V>>, e: Entry<K, V>)
    requires IsTable(v)
    ensures IsTable(Upsert(v, e))
  {
    var i := IndexOf(v, e.key);
    if i == |v| { assert forall j :: 0 <= j < |v| ==> v[j].key != e.key; }
  }

  lemma {:induction false} RemoveKeyKeepsTable<K, V>(v: seq<Entry<K, V>>, key: K)
    requires IsTable(v)
    ensures IsTable(RemoveKey(v, key))
  {
    if v != [] {
      var tail := v[1..];
      assert forall i, j :: 0 <= i < j < |tail| ==> tail[i] == v[i + 1] && tail[j] == v[j + 1];
      RemoveKeyKeepsTable(tail, key);
      var rest := RemoveKey(tail, key);
      forall j | 0 <= j < |rest| ensures rest[j].key != v[0].key {
        var x := rest[j];
        assert x in rest;
        assert x in tail;
        var m :| 0 <= m < |tail| && tail[m] == x;
        assert v[0].key != v[m + 1].key;
      }
    }
  }

  /** What was just put in is what a look-up finds, and a look-up of another key finds what it
      found before unless the table was full and that key was the oldest. */
  lemma {:induction false} UpsertIsAnUpdate<K, V>(v: seq<Entry<K, V>>, e: Entry<K, V>, key: K)
    requires IsTable(v)
    ensures e in Upsert(v, e)
    ensures key != e.key && !(|v| == 4096 && IndexOf(v, e.key) == |v| && v[0].key == key) ==>
      forall x: Entry<K, V> :: x.key == key ==> (x in Upsert(v, e) <==> x in v)
  {
    var i := IndexOf(v, e.key);
    if i < |v| {
      assert v[i := e][i] == e;
      forall x: Entry<K, V> | x.key == key && key != e.key ensures x in v[i := e] <==> x in v {
        if x in v {
          var m :| 0 <= m < |v| && v[m] == x;
          assert v[i := e][m] == x;
        }
      }
    } else {
      var pushed := v + [e];
      assert pushed == [pushed[0]] + pushed[1..];
      assert forall x :: x in pushed <==> x in v || x == e;
      assert forall x :: x in pushed <==> x == pushed[0] || x in pushed[1..];
      if |pushed| > MAX_TRACKED {
        assert Bound(pushed) == pushed[1..] && pushed[1..][|v| - 1] == e;
        if key != e.key && v[0].key != key {
          forall x: Entry<K, V> | x.key == key ensures x in Bound(pushed) <==> x in v {}
        }
      }
    }
  }

  // -------------------------------------------------------------------------
  // What a table says after any number of changes
  // -------------------------------------------------------------------------

  datatype Change<+K, +V> = Put(key: K, value: V) | Take(key: K) | Clear

  /** The last thing said of a key, unless it has been withdrawn since. */
  function Latest<K(==), V>(changes: seq<Change<K, V>>, key: K): Option<V> {
    if changes == [] then None
    else
      match changes[|changes| - 1]
      case Put(k, v) => if k == key then Some(v) else Latest(changes[..|changes| - 1], key)
      case Take(k) => if k == key then None else Latest(changes[..|changes| - 1], key)
      case Clear => None
  }

  /** The keys put since the table was last emptied. */
  function KeysPut<K(==), V>(changes: seq<Change<K, V>>): set<K> {
    if changes == [] then {}
    else
      match changes[|changes| - 1]
      case Put(k, _) => KeysPut(changes[..|changes| - 1]) + {k}
      case Take(_) => KeysPut(changes[..|changes| - 1])
      case Clear => {}
  }

  function AfterChange<K(==), V>(v: seq<Entry<K, V>>, change: Change<K, V>): seq<Entry<K, V>> {
    match change
    case Put(k, x) => Upsert(v, Entry(k, x))
    case Take(k) => RemoveKey(v, k)
    case Clear => []
  }

  function AfterChanges<K(==), V>(changes: seq<Change<K, V>>): seq<Entry<K, V>> {
    if changes == [] then [] else AfterChange(AfterChanges(changes[..|changes| - 1]), changes[|changes| - 1])
  }

  /** What a look-up of the key finds. */
  function Found<K(==), V>(v: seq<Entry<K, V>>, key: K): Option<V> {
    var i := IndexOf(v, key);
    if i < |v| then Some(v[i].value) else None
  }

  lemma {:induction false} FoundIsIn<K, V>(v: seq<Entry<K, V>>, key: K)
    requires IsTable(v)
    ensures forall x :: Found(v, key) == Some(x) <==> Entry(key, x) in v
  {
  }

  ghost function KeysOf<K, V>(v: seq<Entry<K, V>>): set<K> { set e <- v :: e.key }

  lemma {:induction false} OneKeyEach<K, V>(v: seq<Entry<K, V>>)
    requires IsTable(v)
    ensures |KeysOf(v)| == |v|
  {
    if v != [] {
      var n := |v| - 1;
      OneKeyEach(v[..n]);
      assert v == v[..n] + [v[n]];
      assert KeysOf(v) == KeysOf(v[..n]) + {v[n].key};
      assert v[n].key !in KeysOf(v[..n]);
    }
  }

  lemma {:induction false} Subsets<K>(a: set<K>, b: set<K>)
    requires a <= b
    ensures |a| <= |b|
  {
    if a != {} {
      var k :| k in a;
      Subsets(a - {k}, b - {k});
    }
  }

  lemma {:induction false} RemovingLeavesTheOthers<K, V>(v: seq<Entry<K, V>>, key: K, other: K)
    requires IsTable(v)
    ensures Found(RemoveKey(v, key), other) == if other == key then None else Found(v, other)
  {
    RemoveKeyKeepsTable(v, key);
    FoundIsIn(v, other);
    FoundIsIn(RemoveKey(v, key), other);
    if Found(v, other).Some? && other != key { assert Entry(other, Found(v, other).value) in RemoveKey(v, key); }
    hide RemoveKey, IndexOf;
    if Found(RemoveKey(v, key), other).Some? { assert Entry(other, Found(RemoveKey(v, key), other).value) in v; }
  }

  /** Putting one entry: it is found, and of the others at most one is lost, from a full table. */
  lemma {:induction false} PuttingLeavesTheOthers<K, V>(v: seq<Entry<K, V>>, e: Entry<K, V>, other: K)
    requires IsTable(v)
    ensures Found(Upsert(v, e), e.key) == Some(e.value)
    ensures other != e.key ==> Found(Upsert(v, e), other) == Found(v, other) || Found(Upsert(v, e), other).None?
    ensures other != e.key && (|v| < MAX_TRACKED || e.key in KeysOf(v)) ==>
      Found(Upsert(v, e), other) == Found(v, other)
    ensures KeysOf(Upsert(v, e)) <= KeysOf(v) + {e.key}
  {
    UpsertKeepsTable(v, e);
    UpsertIsAnUpdate(v, e, other);
    UpsertIsAnUpdate(v, e, e.key);
    UpsertAddsNothing(v, e);
    FoundIsIn(v, other);
    FoundIsIn(Upsert(v, e), other);
    FoundIsIn(Upsert(v, e), e.key);
    hide Upsert;
    assert e == Entry(e.key, e.value);
    if e.key in KeysOf(v) { assert IndexOf(v, e.key) < |v|; }
    hide IndexOf;
    var after := Upsert(v, e);
    if Found(after, other).Some? && other != e.key { assert Entry(other, Found(after, other).value) in v; }
    if Found(v, other).Some? { assert Entry(other, Found(v, other).value) in v; }
  }

  lemma {:induction false} UpsertAddsNothing<K, V>(v: seq<Entry<K, V>>, e: Entry<K, V>)
    ensures forall x <- Upsert(v, e) :: x == e || x in v
  {
  }

  lemma {:induction false} AFullTableHoldsOthers<K, V>(v: seq<Entry<K, V>>, k: K, keys: set<K>)
    requires IsTable(v) && KeysOf(v) + {k} <= keys && |keys| <= MAX_TRACKED
    ensures |v| < MAX_TRACKED || k in KeysOf(v)
  {
    OneKeyEach(v);
    Subsets(KeysOf(v) + {k}, keys);
  }

  /** Whatever is found in a table is the last thing said of its key; and everything said and not
      withdrawn is found, as long as no more than 4096 keys were put since the table was empty. */
  lemma {:induction false} TheLatestIsFound<K, V>(changes: seq<Change<K, V>>, key: K)
    ensures IsTable(AfterChanges(changes)) && KeysOf(AfterChanges(changes)) <= KeysPut(changes)
    ensures Found(AfterChanges(changes), key) == Latest(changes, key)
            || (Found(AfterChanges(changes), key).None? && |KeysPut(changes)| > 4096)
  {
    if changes != [] {
      var front, last := changes[..|changes| - 1], changes[|changes| - 1];
      var v := AfterChanges(front);
      TheLatestIsFound(front, key);
      Subsets(KeysPut(front), KeysPut(front) + if last.Put? then {last.key} else {});
      match last
      case Put(k, x) =>
        UpsertKeepsTable(v, Entry(k, x));
        PuttingLeavesTheOthers(v, Entry(k, x), key);
        if |KeysPut(changes)| <= MAX_TRACKED { AFullTableHoldsOthers(v, k, KeysPut(changes)); }
        hide Upsert, IndexOf, IsTable, KeysOf;
      case Take(k) =>
        RemoveKeyKeepsTable(v, k);
        RemovingLeavesTheOthers(v, k, key);
        hide IndexOf, IsTable;
      case Clear =>
    }
  }
}
