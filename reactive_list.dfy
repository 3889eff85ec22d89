/** An insertion-ordered list of mutable cells under fresh unique keys
    (happenings_frontend/src/reactive_list.rs).  The source keeps an
    `IndexMap<Uuid, RwSignal<T>>`; here the map is a sequence of
    (key, value) pairs with distinct keys, and a counter hands out the keys
    that `Uuid::new_v4` would. */
module ReactiveLists {
  import opened Wrappers

  /** The identity of a cell: never reused within one list. */
  type Key = nat

  type Entries<T> = seq<(Key, T)>

  ghost predicate KeysDistinct<T>(entries: Entries<T>) {
    forall i, j :: 0 <= i < j < |entries| ==> entries[i].0 != entries[j].0
  }

  predicate HasKey<T>(entries: Entries<T>, k: Key) {
    exists i :: 0 <= i < |entries| && entries[i].0 == k
  }

  // ---------------------------------------------------------------------
  // Conversions to and from plain sequences

  /** The cells' values in insertion order, keys discarded
      (`From<ReactiveList<T>> for Vec<T>`). */
  function Values<T>(entries: Entries<T>): (vs: seq<T>)
    ensures |vs| == |entries|
    ensures forall i :: 0 <= i < |vs| ==> vs[i] == entries[i].1
  {
    if entries == [] then [] else [entries[0].1] + Values(entries[1..])
  }

  /** Each element of `s`, in order, under the fresh keys `first`,
      `first + 1`, ... (`From<Vec<T>> for ReactiveList<T>`). */
  function Keyed<T>(s: seq<T>, first: Key): (entries: Entries<T>)
    ensures |entries| == |s|
    ensures forall i :: 0 <= i < |s| ==> entries[i].1 == s[i] && first <= entries[i].0 < first + |s|
    ensures KeysDistinct(entries)
  {
    if s == [] then []
    else
      var rest := Keyed(s[1..], first + 1);
      [(first, s[0])] + rest
  }

  /** Sequence to list to sequence gives back the sequence, for any length. */
  lemma {:induction false} ValuesOfKeyed<T>(s: seq<T>, first: Key)
    ensures Values(Keyed(s, first)) == s
  {
    if s != [] {
      ValuesOfKeyed(s[1..], first + 1);
      assert Keyed(s, first) == [(first, s[0])] + Keyed(s[1..], first + 1);
      assert Keyed(s, first)[1..] == Keyed(s[1..], first + 1);
    }
  }

  // ---------------------------------------------------------------------
  // Finding, removing and upserting by key

  /** The position of key `k`, if present. */
  function IndexOf<T>(entries: Entries<T>, k: Key): (r: Option<nat>)
    ensures r.Some? ==> r.value < |entries| && entries[r.value].0 == k
    ensures r.None? <==> !HasKey(entries, k)
  {
    if entries == [] then None
    else if entries[0].0 == k then Some(0)
    else
      match IndexOf(entries[1..], k)
      case None => None
      case Some(i) => Some(i + 1)
  }

  /** `IndexMap::shift_remove`: the entry for `k` taken out, the others
      closing up in order; nothing happens when `k` is absent. */
  function Removed<T>(entries: Entries<T>, k: Key): (r: Entries<T>)
    ensures !HasKey(entries, k) ==> r == entries
    ensures HasKey(entries, k) ==> |r| == |entries| - 1
  {
    match IndexOf(entries, k)
    case None => entries
    case Some(i) => entries[..i] + entries[i + 1..]
  }

  /** An independent reading of removal: keep every entry whose key is not `k`. */
  function WithoutKey<T>(entries: Entries<T>, k: Key): (r: Entries<T>)
    ensures |r| <= |entries|
  {
    if entries == [] then []
    else (if entries[0].0 == k then [] else [entries[0]]) + WithoutKey(entries[1..], k)
  }

  /** `IndexMap::insert`: an existing key keeps its place and gets the new
      value; a new key goes on the end. */
  function Upserted<T>(entries: Entries<T>, k: Key, x: T): (r: Entries<T>)
    ensures exists i :: 0 <= i < |r| && r[i] == (k, x)
    ensures |r| == if HasKey(entries, k) then |entries| else |entries| + 1
    ensures forall k' :: k' != k ==> (HasKey(r, k') <==> HasKey(entries, k'))
  {
    match IndexOf(entries, k)
    case None =>
      var r := entries + [(k, x)];
      assert r[|entries|] == (k, x);
      assert forall j :: 0 <= j < |entries| ==> r[j] == entries[j];
      r
    case Some(i) =>
      var r := entries[i := (k, x)];
      assert r[i] == (k, x);
      assert forall j :: 0 <= j < |r| && j != i ==> r[j] == entries[j];
      r
  }

  lemma TailKeys<T>(entries: Entries<T>, k: Key)
    requires entries != []
    ensures !HasKey(entries, k) ==> !HasKey(entries[1..], k)
    ensures entries[0].0 != k ==> (HasKey(entries[1..], k) <==> HasKey(entries, k))
    ensures KeysDistinct(entries) ==> KeysDistinct(entries[1..])
    ensures KeysDistinct(entries) && entries[0].0 == k ==> !HasKey(entries[1..], k)
  {
    var tail := entries[1..];
    assert forall i :: 0 <= i < |tail| ==> tail[i] == entries[i + 1];
    if HasKey(entries, k) && entries[0].0 != k {
      var i :| 0 <= i < |entries| && entries[i].0 == k;
      assert tail[i - 1].0 == k;
    }
  }

  lemma {:induction false} WithoutAbsentKey<T>(entries: Entries<T>, k: Key)
    requires !HasKey(entries, k)
    ensures WithoutKey(entries, k) == entries
  {
    if entries != [] {
      TailKeys(entries, k);
      WithoutAbsentKey(entries[1..], k);
    }
  }

  /** Removal by position, one step past a head that is kept. */
  lemma RemovedPastHead<T>(entries: Entries<T>, k: Key)
    requires entries != [] && entries[0].0 != k
    ensures Removed(entries, k) == [entries[0]] + Removed(entries[1..], k)
  {
    match IndexOf(entries[1..], k)
    case None =>
    case Some(i) =>
      assert IndexOf(entries, k) == Some(i + 1);
      assert entries[..i + 1] == [entries[0]] + entries[1..][..i];
      assert entries[i + 2..] == entries[1..][i + 1..];
  }

  /** With distinct keys, removal by position and removal by filtering agree. */
  lemma {:induction false} RemovedIsWithoutKey<T>(entries: Entries<T>, k: Key)
    requires KeysDistinct(entries)
    ensures Removed(entries, k) == WithoutKey(entries, k)
  {
    if entries == [] {
    } else if entries[0].0 == k {
      TailKeys(entries, k);
      WithoutAbsentKey(entries[1..], k);
      assert IndexOf(entries, k) == Some(0);
    } else {
      TailKeys(entries, k);
      RemovedIsWithoutKey(entries[1..], k);
      RemovedPastHead(entries, k);
    }
  }

  /** Removing a key that is not there changes nothing. */
  lemma RemoveAbsent<T>(entries: Entries<T>, k: Key)
    requires !HasKey(entries, k)
    ensures Removed(entries, k) == entries
  {
  }

  /** With distinct keys the key found is the one at position `i`. */
  lemma IndexOfDistinct<T>(entries: Entries<T>, k: Key, i: nat)
    requires KeysDistinct(entries)
    requires i < |entries| && entries[i].0 == k
    ensures IndexOf(entries, k) == Some(i)
  {
  }

  /** Cutting position `i` out of a list with distinct keys removes exactly
      that key and keeps the others distinct. */
  lemma CutKeys<T>(entries: Entries<T>, i: nat)
    requires KeysDistinct(entries) && i < |entries|
    ensures KeysDistinct(entries[..i] + entries[i + 1..])
    ensures !HasKey(entries[..i] + entries[i + 1..], entries[i].0)
    ensures forall k' :: k' != entries[i].0 ==>
              (HasKey(entries[..i] + entries[i + 1..], k') <==> HasKey(entries, k'))
  {
    var r := entries[..i] + entries[i + 1..];
    assert forall m :: 0 <= m < |r| ==> r[m] == if m < i then entries[m] else entries[m + 1];
    forall k' | k' != entries[i].0 && HasKey(entries, k') ensures HasKey(r, k') {
      var m :| 0 <= m < |entries| && entries[m].0 == k';
      if m < i { assert r[m].0 == k'; } else { assert r[m - 1].0 == k'; }
    }
  }

  /** Removing a present key deletes exactly its entry: one shorter, the rest
      in their old order, the key gone, the other keys all still there and
      still distinct. */
  lemma RemovePresent<T>(entries: Entries<T>, k: Key, i: nat)
    requires KeysDistinct(entries)
    requires i < |entries| && entries[i].0 == k
    ensures Removed(entries, k) == entries[..i] + entries[i + 1..]
    ensures |Removed(entries, k)| == |entries| - 1
    ensures !HasKey(Removed(entries, k), k)
    ensures KeysDistinct(Removed(entries, k))
    ensures forall k' :: k' != k ==> (HasKey(Removed(entries, k), k') <==> HasKey(entries, k'))
  {
    IndexOfDistinct(entries, k, i);
    CutKeys(entries, i);
  }

  /** Upserting a present key replaces that entry's value in place. */
  lemma UpsertPresent<T>(entries: Entries<T>, k: Key, x: T, i: nat)
    requires KeysDistinct(entries)
    requires i < |entries| && entries[i].0 == k
    ensures Upserted(entries, k, x) == entries[i := (k, x)]
    ensures |Upserted(entries, k, x)| == |entries|
    ensures Values(Upserted(entries, k, x)) == Values(entries)[i := x]
    ensures KeysDistinct(Upserted(entries, k, x))
  {
    assert IndexOf(entries, k).value == i;
  }

  /** Upserting a new key appends it. */
  lemma UpsertAbsent<T>(entries: Entries<T>, k: Key, x: T)
    requires KeysDistinct(entries) && !HasKey(entries, k)
    ensures Upserted(entries, k, x) == entries + [(k, x)]
    ensures Values(Upserted(entries, k, x)) == Values(entries) + [x]
    ensures KeysDistinct(Upserted(entries, k, x))
  {
  }

  // ---------------------------------------------------------------------
  // The list itself

  class ReactiveList<T> {
    /** The (key, cell) pairs in insertion order. */
    var entries: Entries<T>
    /** The next fresh key. */
    var nextKey: Key

    ghost predicate Valid()
      reads this
    {
      KeysDistinct(entries) && forall i :: 0 <= i < |entries| ==> entries[i].0 < nextKey
    }

    /** `ReactiveList::new`: an empty list. */
    constructor ()
      ensures Valid() && entries == []
    {
      entries := [];
      nextKey := 0;
    }

    /** `From<Vec<T>>`: one entry per element, in order, each under a fresh key. */
    constructor FromSeq(s: seq<T>)
      ensures Valid()
      ensures entries == Keyed(s, 0) && nextKey == |s|
      ensures ToSeq() == s
    {
      entries := Keyed(s, 0);
      nextKey := |s|;
      new;
      ValuesOfKeyed(s, 0);
    }

    /** `iter`: the (key, cell) pairs in insertion order, each key once. */
    function Iter(): (r: Entries<T>)
      reads this
      requires Valid()
      ensures |r| == |entries| && KeysDistinct(r)
      ensures forall i :: 0 <= i < |r| ==> r[i] == entries[i]
      ensures Values(r) == ToSeq()
    {
      entries
    }

    /** `From<ReactiveList<T>> for Vec<T>`: the current values, keys dropped. */
    function ToSeq(): (s: seq<T>)
      reads this
      ensures |s| == |entries|
      ensures forall i :: 0 <= i < |s| ==> s[i] == entries[i].1
    {
      Values(entries)
    }

    /** `tracked_push`: one new entry at the end under a key not used before;
        the earlier entries stay as they were. */
    method Push(x: T)
      requires Valid()
      modifies this
      ensures Valid()
      ensures !HasKey(old(entries), old(nextKey))
      ensures entries == old(entries) + [(old(nextKey), x)]
      ensures ToSeq() == old(ToSeq()) + [x]
    {
      entries := entries + [(nextKey, x)];
      nextKey := nextKey + 1;
    }

    /** `tracked_remove`: `shift_remove` of the key; a no-op when it is absent. */
    method Remove(k: Key)
      requires Valid()
      modifies this
      ensures Valid()
      ensures entries == Removed(old(entries), k) && nextKey == old(nextKey)
      ensures !HasKey(entries, k)
    {
      match IndexOf(entries, k)
      case None =>
      case Some(i) =>
        RemovePresent(entries, k, i);
        entries := entries[..i] + entries[i + 1..];
    }

    /** `tracked_insert`: upsert of the key with a new cell.  A key from
        outside the list moves the fresh-key counter past it, so later pushes
        stay fresh. */
    method Insert(k: Key, x: T)
      requires Valid()
      modifies this
      ensures Valid()
      ensures entries == Upserted(old(entries), k, x)
      ensures nextKey == if k < old(nextKey) then old(nextKey) else k + 1
    {
      match IndexOf(entries, k) {
        case None =>
          entries := entries + [(k, x)];
        case Some(i) =>
          UpsertPresent(entries, k, x, i);
          entries := entries[i := (k, x)];
      }
      if nextKey <= k {
        nextKey := k + 1;
      }
    }
  }
}
