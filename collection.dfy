/** The deduplicating, insertion-ordered `Set[T]` of pkg/collection: at most
    one item per string key, items kept in the order their keys first
    appeared. The mutex is not modelled (single-threaded model). */
module Collection {

  /** The value a `Set` holds: its items and the index of each key's item. */
  datatype Store<T> = Store(items: seq<T>, indexes: map<string, nat>) {

    /** Every key points at its own slot, and there are as many slots as keys. */
    ghost predicate Valid() {
      && |indexes| == |items|
      && (forall k :: k in indexes ==> indexes[k] < |items|)
      && (forall k1, k2 :: k1 in indexes && k2 in indexes && indexes[k1] == indexes[k2] ==> k1 == k2)
    }

    /** The item stored under `key`. */
    function Get(key: string): T
      requires key in indexes && indexes[key] < |items|
    {
      items[indexes[key]]
    }

    /** What `Set(key, item)` leaves behind: unchanged when `key` is known,
        otherwise `item` appended under the next index. */
    function Put(key: string, item: T): Store<T> {
      if key in indexes then this
      else Store(items + [item], indexes[key := |items|])
    }
  }

  function Empty<T>(): Store<T> {
    Store([], map[])
  }

  /** `Put` keeps a store valid, stores `item` only for a new key, and leaves
      every other key's item where it was. */
  lemma PutSpec<T>(s: Store<T>, key: string, item: T)
    requires s.Valid()
    ensures s.Put(key, item).Valid()
    ensures s.Put(key, item).indexes.Keys == s.indexes.Keys + {key}
    ensures s.Put(key, item).Get(key) == if key in s.indexes then s.Get(key) else item
    ensures forall k :: k in s.indexes ==> s.Put(key, item).Get(k) == s.Get(k)
  {
    if key !in s.indexes {
      PutFreshValid(s, key, item);
    }
  }

  /** A new key takes the next slot, which no other key points at. */
  lemma PutFreshValid<T>(s: Store<T>, key: string, item: T)
    requires s.Valid() && key !in s.indexes
    ensures s.Put(key, item).Valid()
  {
    var t := s.Put(key, item);
    assert |t.indexes| == |s.indexes| + 1;
    forall k1, k2 | k1 in t.indexes && k2 in t.indexes && t.indexes[k1] == t.indexes[k2]
      ensures k1 == k2
    {
      if k1 != key && k2 != key {
        assert s.indexes[k1] == s.indexes[k2];
      }
    }
  }

  /** Keys of a sequence of `(key, item)` requests. */
  function KeysOf<T>(kvs: seq<(string, T)>): (ks: set<string>)
    ensures forall i :: 0 <= i < |kvs| ==> kvs[i].0 in ks
    ensures forall k :: k in ks ==> exists i :: 0 <= i < |kvs| && kvs[i].0 == k
  {
    if kvs == [] then {}
    else
      var ks := KeysOf(kvs[..|kvs| - 1]) + {kvs[|kvs| - 1].0};
      assert forall i :: 0 <= i < |kvs| - 1 ==> kvs[..|kvs| - 1][i] == kvs[i];
      ks
  }

  /** Reference definition of the items: for each key, the item of its
      first request, in order of first request. */
  function FirstItems<T>(kvs: seq<(string, T)>): seq<T> {
    if kvs == [] then []
    else
      var init := kvs[..|kvs| - 1];
      if kvs[|kvs| - 1].0 in KeysOf(init) then FirstItems(init)
      else FirstItems(init) + [kvs[|kvs| - 1].1]
  }

  /** The store reached by issuing the requests `kvs` one after another. */
  function PutAll<T>(s: Store<T>, kvs: seq<(string, T)>): Store<T> {
    if kvs == [] then s else PutAll(s, kvs[..|kvs| - 1]).Put(kvs[|kvs| - 1].0, kvs[|kvs| - 1].1)
  }

  /** Starting empty, the items are exactly the first item of each key in
      first-request order, and the keys are exactly the requested keys. */
  lemma {:induction false} PutAllFirstItems<T>(kvs: seq<(string, T)>)
    ensures PutAll(Empty(), kvs).Valid()
    ensures PutAll(Empty(), kvs).items == FirstItems(kvs)
    ensures PutAll(Empty(), kvs).indexes.Keys == KeysOf(kvs)
  {
    if kvs != [] {
      var init := kvs[..|kvs| - 1];
      PutAllFirstItems(init);
      PutSpec(PutAll(Empty(), init), kvs[|kvs| - 1].0, kvs[|kvs| - 1].1);
    }
  }

  /** Issuing `a` then `b` is issuing `a + b`. */
  lemma {:induction false} PutAllAppend<T>(s: Store<T>, a: seq<(string, T)>, b: seq<(string, T)>)
    ensures PutAll(s, a + b) == PutAll(PutAll(s, a), b)
    decreases |b|
  {
    if b == [] {
      assert a + b == a;
    } else {
      var b' := b[..|b| - 1];
      assert (a + b)[..|a + b| - 1] == a + b';
      PutAllAppend(s, a, b');
    }
  }

  /** Starting empty, a key's item is the item of its first request. */
  lemma {:induction false} PutAllGet<T>(kvs: seq<(string, T)>, i: nat)
    requires i < |kvs| && forall j :: 0 <= j < i ==> kvs[j].0 != kvs[i].0
    ensures PutAll(Empty(), kvs).Valid()
    ensures kvs[i].0 in PutAll(Empty(), kvs).indexes
    ensures PutAll(Empty(), kvs).Get(kvs[i].0) == kvs[i].1
    decreases |kvs|
  {
    var init := kvs[..|kvs| - 1];
    var last := kvs[|kvs| - 1];
    assert PutAll(Empty(), kvs) == PutAll(Empty(), init).Put(last.0, last.1);
    if i == |kvs| - 1 {
      PutAllGetLast(kvs);
    } else {
      assert kvs[i] == init[i];
      assert forall j :: 0 <= j < i ==> init[j] == kvs[j];
      PutAllGet(init, i);
      PutKeeps(PutAll(Empty(), init), last.0, last.1, kvs[i].0);
    }
  }

  /** The last request's key, requested for the first time, gets its item. */
  lemma PutAllGetLast<T>(kvs: seq<(string, T)>)
    requires kvs != [] && forall j :: 0 <= j < |kvs| - 1 ==> kvs[j].0 != kvs[|kvs| - 1].0
    ensures PutAll(Empty(), kvs).Valid()
    ensures kvs[|kvs| - 1].0 in PutAll(Empty(), kvs).indexes
    ensures PutAll(Empty(), kvs).Get(kvs[|kvs| - 1].0) == kvs[|kvs| - 1].1
  {
    var init := kvs[..|kvs| - 1];
    var last := kvs[|kvs| - 1];
    assert forall j :: 0 <= j < |init| ==> init[j].0 != last.0;
    NotAmongKeys(init, last.0);
    PutAllFirstItems(init);
    PutNew(PutAll(Empty(), init), last.0, last.1);
  }

  /** A new key gets the item. */
  lemma PutNew<T>(s: Store<T>, key: string, item: T)
    requires s.Valid() && key !in s.indexes
    ensures s.Put(key, item).Valid() && key in s.Put(key, item).indexes && s.Put(key, item).Get(key) == item
  {
    PutSpec(s, key, item);
  }

  /** A known key keeps its item. */
  lemma PutKeeps<T>(s: Store<T>, key: string, item: T, k: string)
    requires s.Valid() && k in s.indexes
    ensures s.Put(key, item).Valid() && k in s.Put(key, item).indexes && s.Put(key, item).Get(k) == s.Get(k)
  {
    PutSpec(s, key, item);
  }

  /** The keys of `a + b` are those of `a` and those of `b`. */
  lemma KeysOfAppend<T>(a: seq<(string, T)>, b: seq<(string, T)>)
    ensures KeysOf(a + b) == KeysOf(a) + KeysOf(b)
  {
    forall k | k in KeysOf(a + b) ensures k in KeysOf(a) + KeysOf(b) {
      var i :| 0 <= i < |a + b| && (a + b)[i].0 == k;
      if i >= |a| {
        assert b[i - |a|].0 == k;
      }
    }
    forall k | k in KeysOf(a) ensures k in KeysOf(a + b) {
      var i :| 0 <= i < |a| && a[i].0 == k;
      assert (a + b)[i].0 == k;
    }
    forall k | k in KeysOf(b) ensures k in KeysOf(a + b) {
      var i :| 0 <= i < |b| && b[i].0 == k;
      assert (a + b)[|a| + i].0 == k;
    }
  }

  /** A key no request names is not among the keys. */
  lemma NotAmongKeys<T>(kvs: seq<(string, T)>, key: string)
    requires forall j :: 0 <= j < |kvs| ==> kvs[j].0 != key
    ensures key !in KeysOf(kvs)
  {
  }

  class Set<T> {
    var items: seq<T>
    var indexes: map<string, nat>

    function Model(): Store<T>
      reads this
    {
      Store(items, indexes)
    }

    ghost predicate Valid()
      reads this
    {
      Model().Valid()
    }

    /** `NewSet`. */
    constructor ()
      ensures Valid() && Model() == Empty()
    {
      items := [];
      indexes := map[];
    }

    /** Stores `item` under `key` unless the key is already present, and
        returns the item stored under `key`. */
    method Set(key: string, item: T) returns (r: T)
      requires Valid()
      modifies this
      ensures Valid()
      ensures Model() == old(Model()).Put(key, item)
      ensures key in indexes && r == Model().Get(key)
      ensures r == if key in old(indexes) then old(Model()).Get(key) else item
    {
      PutSpec(Model(), key, item);
      if key in indexes {
        return items[indexes[key]];
      }
      indexes := indexes[key := |items|];
      items := items + [item];
      r := item;
    }

    /** Like `Set`, but the item is built by calling `item` only when the key
        is absent; `invoked` records whether the supplier was called. */
    method SetLazy(key: string, item: () -> T) returns (r: T, ghost invoked: bool)
      requires Valid()
      modifies this
      ensures Valid()
      ensures invoked <==> key !in old(indexes)
      ensures invoked ==> Model() == old(Model()).Put(key, item()) && r == item()
      ensures !invoked ==> Model() == old(Model()) && r == old(Model()).Get(key)
      ensures key in indexes && r == Model().Get(key)
    {
      if key in indexes {
        return items[indexes[key]], false;
      }
      var created := item();
      PutSpec(Model(), key, created);
      indexes := indexes[key := |items|];
      items := items + [created];
      r, invoked := created, true;
    }

    /** All items, in first-insertion order. */
    function Items(): seq<T>
      reads this
    {
      items
    }
  }

  /** Setting `"foo"` to `"bar"` twice leaves exactly one item, `"bar"`. */
  method SetTwiceScenario() returns (items: seq<string>)
    ensures items == ["bar"]
  {
    var s := new Set<string>();
    var _ := s.Set("foo", "bar");
    var _ := s.Set("foo", "bar");
    items := s.Items();
  }

  /** Two lazy requests for `"foo"` call the supplier once and leave exactly
      one item, `"bar"`. */
  method SetLazyScenario() returns (items: seq<string>, ghost calls: nat)
    ensures items == ["bar"] && calls == 1
  {
    var s := new Set<string>();
    calls := 0;
    var supplier := () => "bar";
    var _, invoked := s.SetLazy("foo", supplier);
    calls := calls + (if invoked then 1 else 0);
    var _, invokedAgain := s.SetLazy("foo", supplier);
    calls := calls + (if invokedAgain then 1 else 0);
    items := s.Items();
  }
}
