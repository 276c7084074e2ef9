/**
 * A buffer of early messages: a min-heap ordered by key together with the set of keys it holds.
 * The heap is represented by its elements in the order in which they would be popped.
 */
module HeapBuffers {
  import opened Wrappers

  /** Keys compare lexicographically. */
  type Key = (nat, nat)

  predicate Less(a: Key, b: Key) {
    a.0 < b.0 || (a.0 == b.0 && a.1 < b.1)
  }

  /** Keys ascend strictly along the buffer. */
  ghost predicate Ascending<T(!new)>(key: T -> Key, buffer: seq<T>) {
    forall i, j :: 0 <= i < j < |buffer| ==> Less(key(buffer[i]), key(buffer[j]))
  }

  ghost predicate KeysOf<T(!new)>(key: T -> Key, buffer: seq<T>, keys: set<Key>) {
    && (forall i :: 0 <= i < |buffer| ==> key(buffer[i]) in keys)
    && (forall k :: k in keys ==> exists x :: x in buffer && key(x) == k)
  }

  function Placed<T>(buffer: seq<T>, value: T, i: nat): seq<T>
    requires i <= |buffer|
  {
    buffer[..i] + [value] + buffer[i..]
  }

  /** Placing a value between the smaller and the greater keys keeps the order. */
  lemma PlacedAscends<T(!new)>(key: T -> Key, buffer: seq<T>, value: T, i: nat)
    requires Ascending(key, buffer) && i <= |buffer|
    requires forall j :: 0 <= j < i ==> Less(key(buffer[j]), key(value))
    requires forall x :: x in buffer ==> key(x) != key(value)
    requires i < |buffer| ==> !Less(key(buffer[i]), key(value))
    ensures Ascending(key, Placed(buffer, value, i))
  {
    var placed := Placed(buffer, value, i);
    forall j | i <= j < |buffer| ensures Less(key(value), key(buffer[j])) {
      assert buffer[i] in buffer && buffer[j] in buffer;
    }
    forall j, k | 0 <= j < k < |placed| ensures Less(key(placed[j]), key(placed[k])) {
    }
  }

  lemma PlacedElements<T>(buffer: seq<T>, value: T, i: nat)
    requires i <= |buffer|
    ensures multiset(Placed(buffer, value, i)) == multiset(buffer) + multiset{value}
  {
    assert buffer == buffer[..i] + buffer[i..];
  }

  lemma PlacedKeys<T(!new)>(key: T -> Key, buffer: seq<T>, keys: set<Key>, value: T, i: nat)
    requires i <= |buffer| && KeysOf(key, buffer, keys)
    ensures KeysOf(key, Placed(buffer, value, i), keys + {key(value)})
  {
    var placed := Placed(buffer, value, i);
    assert buffer == buffer[..i] + buffer[i..];
    assert forall x :: x in buffer ==> x in placed;
    assert placed[i] == value;
  }

  lemma TailElements<T(!new)>(key: T -> Key, buffer: seq<T>, keys: set<Key>)
    requires buffer != [] && Ascending(key, buffer) && KeysOf(key, buffer, keys)
    ensures Ascending(key, buffer[1..]) && KeysOf(key, buffer[1..], keys - {key(buffer[0])})
  {
    forall k | k in keys - {key(buffer[0])} ensures exists x :: x in buffer[1..] && key(x) == k {
      var x :| x in buffer && key(x) == k;
      assert x in buffer[1..];
    }
  }

  class HeapBuffer<T(==, !new)> {
    const key: T -> Key
    var buffer: seq<T>
    var known: set<Key>

    ghost predicate Valid()
      reads this
    {
      Ascending(key, buffer) && KeysOf(key, buffer, known)
    }

    constructor (key: T -> Key)
      ensures Valid() && buffer == [] && this.key == key
    {
      this.key := key;
      buffer := [];
      known := {};
    }

    method Peek() returns (r: Option<T>)
      requires Valid()
      ensures r.None? <==> buffer == []
      ensures r.Some? ==> r.value == buffer[0] && forall x :: x in buffer && x != r.value ==> Less(key(r.value), key(x))
    {
      r := if buffer == [] then None else Some(buffer[0]);
    }

    method Knows(value: T) returns (r: bool)
      requires Valid()
      ensures r <==> exists x :: x in buffer && key(x) == key(value)
    {
      r := KnowsKey(key(value));
    }

    method KnowsKey(k: Key) returns (r: bool)
      requires Valid()
      ensures r <==> exists x :: x in buffer && key(x) == k
    {
      r := k in known;
    }

    method Clear()
      modifies this
      ensures Valid() && buffer == [] && known == {}
    {
      buffer := [];
      known := {};
    }

    method FindByKey(k: Key) returns (r: Option<T>)
      requires Valid()
      ensures r.Some? ==> r.value in buffer && key(r.value) == k
      ensures r.None? ==> forall x :: x in buffer ==> key(x) != k
    {
      for i := 0 to |buffer|
        invariant forall j :: 0 <= j < i ==> key(buffer[j]) != k
      {
        if key(buffer[i]) == k {
          return Some(buffer[i]);
        }
      }
      return None;
    }

    /** Inserting a key twice is a programming error that debug builds reject. */
    method Insert(value: T)
      requires Valid() && forall x :: x in buffer ==> key(x) != key(value)
      modifies this
      ensures Valid()
      ensures multiset(buffer) == multiset(old(buffer)) + multiset{value}
    {
      var i := 0;
      while i < |buffer| && Less(key(buffer[i]), key(value))
        invariant 0 <= i <= |buffer|
        invariant forall j :: 0 <= j < i ==> Less(key(buffer[j]), key(value))
      {
        i := i + 1;
      }
      PlacedAscends(key, buffer, value, i);
      PlacedElements(buffer, value, i);
      PlacedKeys(key, buffer, known, value, i);
      known := known + {key(value)};
      buffer := Placed(buffer, value, i);
    }

    method Pop() returns (r: Option<T>)
      requires Valid()
      modifies this
      ensures Valid()
      ensures old(buffer) == [] ==> r.None? && buffer == []
      ensures old(buffer) != [] ==> r == Some(old(buffer)[0]) && buffer == old(buffer)[1..]
    {
      if buffer == [] {
        return None;
      }
      TailElements(key, buffer, known);
      r := Some(buffer[0]);
      known := known - {key(buffer[0])};
      buffer := buffer[1..];
    }
  }
}
