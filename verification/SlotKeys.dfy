/**
 The index from hash slots to keys: the entries of the key space are chained per slot, in both
 directions. Entries are named by their addresses; the links beside them are a store of their own.
 */
module SlotKeys {
  import opened Collections
  import opened Wrappers

  type Key = string
  type Addr = nat

  /** An entry of the key space, with its links. */
  datatype Entry = Entry(key: Key, next: Option<Addr>, prev: Option<Addr>)

  type Store = map<Addr, Entry>

  function At(l: seq<Addr>, i: int): Option<Addr> { if 0 <= i < |l| then Some(l[i]) else None }


  /** The chain runs through the list, forwards and backwards, and holds keys of slot j only. */
  ghost predicate Chained(store: Store, dict: map<Key, Addr>, hash: Key -> nat, l: seq<Addr>, j: nat) {
    NoDup(l) && forall i :: 0 <= i < |l| ==> LinkOk(store, dict, hash, l, j, i)
  }

  ghost predicate LinkOk(store: Store, dict: map<Key, Addr>, hash: Key -> nat, l: seq<Addr>, j: nat, i: nat)
    requires i < |l|
  {
    && l[i] in store && store[l[i]].next == At(l, i + 1) && store[l[i]].prev == At(l, i - 1)
    && store[l[i]].key in dict && dict[store[l[i]].key] == l[i] && hash(store[l[i]].key) == j
  }

  /** The head and the counter of a slot agree with its list. */
  ghost predicate SlotOk(store: Store, dict: map<Key, Addr>, hash: Key -> nat,
                         head: seq<Option<Addr>>, count: seq<int>, lists: seq<seq<Addr>>, j: nat)
    requires |head| == |count| == |lists| && j < |lists|
  {
    head[j] == At(lists[j], 0) && count[j] == |lists[j]| && Chained(store, dict, hash, lists[j], j)
  }

  ghost predicate AllOk(store: Store, dict: map<Key, Addr>, hash: Key -> nat,
                        head: seq<Option<Addr>>, count: seq<int>, lists: seq<seq<Addr>>)
  {
    |head| == |count| == |lists| && forall j :: 0 <= j < |lists| ==> SlotOk(store, dict, hash, head, count, lists, j)
  }

  /** Every stored key is in the list of its slot. */
  ghost predicate Stored(store: Store, dict: map<Key, Addr>, hash: Key -> nat, lists: seq<seq<Addr>>) {
    forall k :: k in dict ==> Holds(store, dict, hash, lists, k)
  }

  ghost predicate Holds(store: Store, dict: map<Key, Addr>, hash: Key -> nat, lists: seq<seq<Addr>>, k: Key)
    requires k in dict
  {
    dict[k] in store && store[dict[k]].key == k && hash(k) < |lists| && dict[k] in lists[hash(k)]
  }

  // ---------------------------------------------------------------- other slots

  /** An entry in the list of slot i has a key of slot i. */
  lemma InOneSlot(store: Store, dict: map<Key, Addr>, hash: Key -> nat,
                  head: seq<Option<Addr>>, count: seq<int>, lists: seq<seq<Addr>>, i: nat, a: Addr)
    requires AllOk(store, dict, hash, head, count, lists) && i < |lists| && a in lists[i]
    ensures a in store && hash(store[a].key) == i && store[a].key in dict && dict[store[a].key] == a
  {
    assert SlotOk(store, dict, hash, head, count, lists, i);
    var k :| 0 <= k < |lists[i]| && lists[i][k] == a;
    assert LinkOk(store, dict, hash, lists[i], i, k);
  }

  /** A slot whose entries, head and counter are as before is as good as before. */
  lemma SlotKept(store: Store, store': Store, dict: map<Key, Addr>, dict': map<Key, Addr>, hash: Key -> nat,
                 head: seq<Option<Addr>>, head': seq<Option<Addr>>, count: seq<int>, count': seq<int>,
                 lists: seq<seq<Addr>>, lists': seq<seq<Addr>>, i: nat)
    requires AllOk(store, dict, hash, head, count, lists) && |head'| == |count'| == |lists'| == |lists| && i < |lists|
    requires head'[i] == head[i] && count'[i] == count[i] && lists'[i] == lists[i]
    requires forall a :: a in lists[i] ==> a in store && a in store' && store'[a] == store[a]
    requires forall k :: k in dict && hash(k) == i ==> k in dict' && dict'[k] == dict[k]
    ensures SlotOk(store', dict', hash, head', count', lists', i)
  {
    assert SlotOk(store, dict, hash, head, count, lists, i);
    var l := lists[i];
    forall k | 0 <= k < |l| ensures LinkOk(store', dict', hash, l, i, k) {
      assert LinkOk(store, dict, hash, l, i, k) && l[k] in l;
    }
  }

  /** What a change to slot j may do to the rest. */
  ghost predicate Elsewhere(store: Store, store': Store, dict: map<Key, Addr>, dict': map<Key, Addr>,
                            hash: Key -> nat, j: nat)
  {
    && (forall a :: a in store && hash(store[a].key) != j ==> a in store' && store'[a] == store[a])
    && forall k :: k in dict && hash(k) != j ==> k in dict' && dict'[k] == dict[k]
  }

  lemma OthersKept(store: Store, store': Store, dict: map<Key, Addr>, dict': map<Key, Addr>, hash: Key -> nat,
                   head: seq<Option<Addr>>, count: seq<int>, lists: seq<seq<Addr>>, j: nat, h: Option<Addr>, n: int,
                       l: seq<Addr>)
    requires AllOk(store, dict, hash, head, count, lists) && j < |lists|
        && Elsewhere(store, store', dict, dict', hash, j)
    requires SlotOk(store', dict', hash, head[j := h], count[j := n], lists[j := l], j)
    ensures AllOk(store', dict', hash, head[j := h], count[j := n], lists[j := l])
  {
    var head', count', lists' := head[j := h], count[j := n], lists[j := l];
    forall i | 0 <= i < |lists'| ensures SlotOk(store', dict', hash, head', count', lists', i) {
      if i != j {
        forall a | a in lists[i] ensures a in store && a in store' && store'[a] == store[a] {
          InOneSlot(store, dict, hash, head, count, lists, i, a);
        }
        SlotKept(store, store', dict, dict', hash, head, head', count, count', lists, lists', i);
      }
    }
  }

  // ---------------------------------------------------------------- changes to one list

  function SetPrev(store: Store, a: Option<Addr>, p: Option<Addr>): Store {
    if a.Some? && a.value in store then store[a.value := store[a.value].(prev := p)] else store
  }

  function SetNext(store: Store, a: Option<Addr>, n: Option<Addr>): Store {
    if a.Some? && a.value in store then store[a.value := store[a.value].(next := n)] else store
  }

  /** The store after a new entry has been put before the first of the list. */
  function Front(store: Store, l: seq<Addr>, a: Addr, k: Key): Store {
    SetPrev(store[a := Entry(k, At(l, 0), None)], At(l, 0), Some(a))
  }

  lemma Pushed(store: Store, dict: map<Key, Addr>, hash: Key -> nat, l: seq<Addr>, j: nat, a: Addr, k: Key)
    requires Chained(store, dict, hash, l, j) && a !in store && k !in dict && hash(k) == j
    ensures Chained(Front(store, l, a, k), dict[k := a], hash, [a] + l, j)
  {
    var store', dict', m := Front(store, l, a, k), dict[k := a], [a] + l;
    forall i | 0 <= i < |m| ensures LinkOk(store', dict', hash, m, j, i) {
      if i > 0 { PushedAt(store, dict, hash, l, j, a, k, i - 1); } else { PushedFirst(store, dict, hash, l, j, a, k); }
    }
    forall i | 0 <= i < |l| ensures l[i] != a { assert LinkOk(store, dict, hash, l, j, i); }
    assert NoDup(m);
  }

  lemma PushedFirst(store: Store, dict: map<Key, Addr>, hash: Key -> nat, l: seq<Addr>, j: nat, a: Addr, k: Key)
    requires Chained(store, dict, hash, l, j) && a !in store && k !in dict && hash(k) == j
    ensures LinkOk(Front(store, l, a, k), dict[k := a], hash, [a] + l, j, 0)
  {
    if l != [] { assert LinkOk(store, dict, hash, l, j, 0); }
  }

  lemma PushedAt(store: Store, dict: map<Key, Addr>, hash: Key -> nat, l: seq<Addr>, j: nat, a: Addr, k: Key, q: nat)
    requires Chained(store, dict, hash, l, j) && a !in store && k !in dict && q < |l|
    ensures LinkOk(Front(store, l, a, k), dict[k := a], hash, [a] + l, j, q + 1)
  {
    assert LinkOk(store, dict, hash, l, j, q) && LinkOk(store, dict, hash, l, j, 0);
    assert q > 0 ==> l[q] != l[0];
    assert At([a] + l, q + 2) == At(l, q + 1) && At([a] + l, q) == if q == 0 then Some(a) else At(l, q - 1);
  }

  /** The store after the neighbours of the entry at index p have been connected to each other. */
  function Bridged(store: Store, l: seq<Addr>, p: nat): Store
    requires p < |l|
  {
    SetNext(SetPrev(store, At(l, p + 1), At(l, p - 1)), At(l, p - 1), At(l, p + 1))
  }

  lemma Unlinked(store: Store, dict: map<Key, Addr>, hash: Key -> nat, l: seq<Addr>, j: nat, p: nat)
    requires Chained(store, dict, hash, l, j) && p < |l| && l[p] in store
    ensures Chained(Bridged(store, l, p) - {l[p]}, dict - {store[l[p]].key}, hash, l[..p] + l[p + 1..], j)
  {
    var store', m := Bridged(store, l, p) - {l[p]}, l[..p] + l[p + 1..];
    var dict' := dict - {store[l[p]].key};
    assert LinkOk(store, dict, hash, l, j, p);
    forall i | 0 <= i < |m| ensures LinkOk(store', dict', hash, m, j, i) {
      var q := if i < p then i else i + 1;
      assert m[i] == l[q] && LinkOk(store, dict, hash, l, j, q);
      assert l[q] != l[p];
      BridgedAt(store, dict, hash, l, j, p, q);
    }
    assert NoDup(m);
  }

  lemma BridgedAt(store: Store, dict: map<Key, Addr>, hash: Key -> nat, l: seq<Addr>, j: nat, p: nat, q: nat)
    requires Chained(store, dict, hash, l, j) && p < |l| && q < |l| && q != p && l[q] in store
    ensures l[q] in Bridged(store, l, p) && Bridged(store, l, p)[l[q]].key == store[l[q]].key
    ensures Bridged(store, l, p)[l[q]].next == if q + 1 == p then At(l, p + 1) else At(l, q + 1)
    ensures Bridged(store, l, p)[l[q]].prev == if q == p + 1 then At(l, p - 1) else At(l, q - 1)
  {
    assert LinkOk(store, dict, hash, l, j, q);
    if p + 1 < |l| { assert LinkOk(store, dict, hash, l, j, p + 1); }
    if p > 0 { assert LinkOk(store, dict, hash, l, j, p - 1); }
  }

  function ReplaceAt(l: seq<Addr>, p: nat, b: Addr): seq<Addr>
    requires p < |l|
  {
    l[p := b]
  }

  /** The store after the entry at index p has moved to a new address. */
  function Moved(store: Store, l: seq<Addr>, p: nat, b: Addr): Store
    requires p < |l| && l[p] in store
  {
    SetNext(SetPrev((store - {l[p]})[b := store[l[p]]], At(l, p + 1), Some(b)), At(l, p - 1), Some(b))
  }

  lemma Replaced(store: Store, dict: map<Key, Addr>, hash: Key -> nat, l: seq<Addr>, j: nat, p: nat, b: Addr)
    requires Chained(store, dict, hash, l, j) && p < |l| && l[p] in store && b !in store
    ensures Chained(Moved(store, l, p, b), dict[store[l[p]].key := b], hash, l[p := b], j)
  {
    var store', m := Moved(store, l, p, b), l[p := b];
    var dict' := dict[store[l[p]].key := b];
    assert LinkOk(store, dict, hash, l, j, p);
    forall i | 0 <= i < |m| ensures LinkOk(store', dict', hash, m, j, i) {
      assert LinkOk(store, dict, hash, l, j, i);
      assert i != p ==> l[i] != l[p];
      MovedAt(store, dict, hash, l, j, p, b, i);
    }
    forall i | 0 <= i < |l| ensures l[i] != b { assert LinkOk(store, dict, hash, l, j, i); }
    assert NoDup(m);
  }

  lemma MovedAt(store: Store, dict: map<Key, Addr>, hash: Key -> nat, l: seq<Addr>, j: nat, p: nat, b: Addr, q: nat)
    requires Chained(store, dict, hash, l, j) && p < |l| && l[p] in store && b !in store && q < |l| && l[q] in store
    ensures var m := l[p := b]; var s := Moved(store, l, p, b);
      && m[q] in s && s[m[q]].key == store[l[q]].key && s[m[q]].next == At(m, q + 1) && s[m[q]].prev == At(m, q - 1)
  {
    assert LinkOk(store, dict, hash, l, j, q) && LinkOk(store, dict, hash, l, j, p);
    if p + 1 < |l| { assert LinkOk(store, dict, hash, l, j, p + 1); }
    if p > 0 { assert LinkOk(store, dict, hash, l, j, p - 1); }
  }

  // ---------------------------------------------------------------- the index

  class SlotIndex {
    const hash: Key -> nat
    const slots: nat
    const head: array<Option<Addr>>
    const count: array<int>
    var store: Store
    var dict: map<Key, Addr>
    ghost var lists: seq<seq<Addr>>

    ghost predicate Valid()
      reads this, head, count
    {
      |lists| == slots && AllOk(store, dict, hash, head[..], count[..], lists) && Stored(store, dict, hash, lists)
    }

    constructor (hash: Key -> nat, slots: nat)
      ensures Valid() && dict == map[] && store == map[] && this.hash == hash && this.slots == slots
    {
      this.hash, this.slots := hash, slots;
      head := new Option<Addr>[slots](_ => None);
      count := new int[slots](_ => 0);
      store, dict := map[], map[];
      lists := seq(slots, _ => []);
    }

    /** A new key: its entry becomes the first of its slot. */
    method AddEntry(k: Key, a: Addr)
      requires Valid() && k !in dict && a !in store && hash(k) < slots
      modifies this, head, count
      ensures Valid() && dict == old(dict)[k := a] && lists == old(lists)[hash(k) := [a] + old(lists)[hash(k)]]
    {
      var j := hash(k);
      ghost var l := lists[j];
      assert SlotOk(store, dict, hash, head[..], count[..], lists, j);
      assert l != [] ==> LinkOk(store, dict, hash, l, j, 0);
      Pushed(store, dict, hash, l, j, a, k);
      FrontElsewhere(store, dict, hash, l, j, a, k);
      FrontStored(store, dict, hash, lists, j, a, k);
      hide Chained, Stored, Elsewhere;
      ghost var goal := Front(store, l, a, k);
      count[j] := count[j] + 1;
      var first := head[j];
      store := store[a := Entry(k, first, None)];
      if first.Some? {
        assert store[first.value].prev == None;                 // serverAssert
        store := SetPrev(store, first, Some(a));
      }
      head[j] := Some(a);
      dict := dict[k := a];
      lists := lists[j := [a] + l];
      assert store == goal;
      assert head[..] == old(head[..])[j := Some(a)] && count[..] == old(count[..])[j := |l| + 1];
      assert SlotOk(store, dict, hash, head[..], count[..], lists, j);
      OthersKept(old(store), store, old(dict), dict, hash, old(head[..]), old(count[..]), old(lists), j,
                 Some(a), |l| + 1, [a] + l);
    }

    /** Where the entry of a key is in the list of its slot. */
    lemma Find(k: Key) returns (p: nat)
      requires Valid() && k in dict
      ensures var j := hash(k);
          j < slots && p < |lists[j]| && lists[j][p] == dict[k] && dict[k] in store && store[dict[k]].key == k
      ensures LinkOk(store, dict, hash, lists[hash(k)], hash(k), p)
          && SlotOk(store, dict, hash, head[..], count[..], lists, hash(k))
    {
      assert Holds(store, dict, hash, lists, k);
      var j := hash(k);
      p :| 0 <= p < |lists[j]| && lists[j][p] == dict[k];
      assert SlotOk(store, dict, hash, head[..], count[..], lists, j);
    }

    /** Takes a key out of the index; its entry is gone. */
    method DelEntry(k: Key) returns (ghost p: nat)
      requires Valid() && k in dict
      modifies this, head, count
      ensures Valid() && dict == old(dict) - {k}
      ensures hash(k) < slots && p < |old(lists)[hash(k)]| && old(lists)[hash(k)][p] == old(dict)[k]
      ensures lists == old(lists)[hash(k) := old(lists)[hash(k)][..p] + old(lists)[hash(k)][p + 1..]]
      ensures store == Bridged(old(store), old(lists)[hash(k)], p) - {old(dict)[k]}
    {
      p := Find(k);
      var j, a := hash(k), dict[k];
      ghost var l := lists[j];
      Unlinked(store, dict, hash, l, j, p);
      BridgedElsewhere(store, dict, hash, l, j, p);
      BridgedStored(store, dict, hash, lists, j, p);
      hide Chained, Stored, Elsewhere, LinkOk;
      ghost var goal, m := Bridged(store, l, p) - {a}, l[..p] + l[p + 1..];
      Ends(store, dict, hash, l, j, p);
      count[j] := count[j] - 1;
      var next, prev := store[a].next, store[a].prev;
      if next.Some? { store := SetPrev(store, next, prev); }
      if prev.Some? {
        store := SetNext(store, prev, next);
      } else {
        assert head[j] == Some(a);                              // serverAssert
        head[j] := next;
      }
      store := store - {a};
      dict := dict - {k};
      lists := lists[j := m];
      assert store == goal;
      ghost var h := At(m, 0);
      assert head[..] == old(head[..])[j := h] && count[..] == old(count[..])[j := |m|];
      assert SlotOk(store, dict, hash, head[..], count[..], lists, j);
      OthersKept(old(store), store, old(dict), dict, hash, old(head[..]), old(count[..]), old(lists), j, h, |m|, m);
    }

    /** An entry has moved to a new address b: its neighbours, or the head, follow. */
    method ReplaceEntry(k: Key, b: Addr) returns (ghost p: nat)
      requires Valid() && k in dict && b !in store
      modifies this, head
      ensures Valid() && dict == old(dict)[k := b]
      ensures hash(k) < slots && p < |old(lists)[hash(k)]| && old(lists)[hash(k)][p] == old(dict)[k]
      ensures lists == old(lists)[hash(k) := ReplaceAt(old(lists)[hash(k)], p, b)]
    {
      p := Find(k);
      var j, a := hash(k), dict[k];
      ghost var l := lists[j];
      Replaced(store, dict, hash, l, j, p, b);
      MovedElsewhere(store, dict, hash, l, j, p, b);
      MovedStored(store, dict, hash, lists, j, p, b);
      hide Chained, Stored, Elsewhere, LinkOk;
      ghost var goal := Moved(store, l, p, b);
      Ends(store, dict, hash, l, j, p);
      store := (store - {a})[b := store[a]];
      dict := dict[k := b];
      var next, prev := store[b].next, store[b].prev;
      if next.Some? { store := SetPrev(store, next, Some(b)); }
      if prev.Some? { store := SetNext(store, prev, Some(b)); } else { head[j] := Some(b); }
      lists := lists[j := l[p := b]];
      assert store == goal;
      ghost var h := At(l[p := b], 0);
      assert head[..] == old(head[..])[j := h] && count[..] == old(count[..])[j := |l|];
      assert SlotOk(store, dict, hash, head[..], count[..], lists, j);
      OthersKept(old(store), store, old(dict), dict, hash, old(head[..]), old(count[..]), old(lists), j, h, |l|,
          l[p := b]);
    }

    /** Deletes the keys of a slot one by one, following the chain. */
    method DelKeysInSlot(j: nat) returns (n: nat)
      requires Valid() && j < slots
      modifies this, head, count
      ensures Valid() && n == |old(lists)[j]| && lists == old(lists)[j := []]
      ensures forall k :: k in dict <==> k in old(dict) && hash(k) != j
      ensures forall k :: k in dict ==> dict[k] == old(dict)[k]
    {
      ghost var l := lists[j];
      assert SlotOk(store, dict, hash, head[..], count[..], lists, j);
      hide AllOk, Stored, Bridged, SlotOk, LinkOk;
      n := 0;
      var de := head[j];
      while de.Some?
        invariant 0 <= n <= |l| && de == At(l, n) && lists == old(lists)[j := l[n..]]
        invariant Valid()
        invariant forall k :: k in dict ==> k in old(dict) && dict[k] == old(dict)[k]
        invariant forall k :: k in old(dict) && k !in dict ==> hash(k) == j
        decreases |l| - n
      {
        FirstLink(j);
        var key := store[de.value].key;
        de := store[de.value].next;
        ghost var p := DelEntry(key);
        assert p == 0;
        DropHead(old(lists), j, l, n);
        n := n + 1;
      }
      EmptySlot(j);
    }

    lemma FirstLink(j: nat)
      requires Valid() && j < slots && lists[j] != []
      ensures var a := lists[j][0];
          a in store && store[a].next == At(lists[j], 1) && store[a].key in dict && dict[store[a].key] == a
      ensures hash(store[lists[j][0]].key) == j
      ensures NoDup(lists[j])
    {
      assert SlotOk(store, dict, hash, head[..], count[..], lists, j);
      assert LinkOk(store, dict, hash, lists[j], j, 0);
    }

    lemma EmptySlot(j: nat)
      requires Valid() && j < slots && lists[j] == []
      ensures forall k :: k in dict ==> hash(k) != j
    {
      forall k | k in dict ensures hash(k) != j { assert Holds(store, dict, hash, lists, k); }
    }
  }

  // ---------------------------------------------------------------- the rest of the index

  lemma BridgedElsewhere(store: Store, dict: map<Key, Addr>, hash: Key -> nat, l: seq<Addr>, j: nat, p: nat)
    requires Chained(store, dict, hash, l, j) && p < |l| && l[p] in store
    ensures Elsewhere(store, Bridged(store, l, p) - {l[p]}, dict, dict - {store[l[p]].key}, hash, j)
  {
    assert LinkOk(store, dict, hash, l, j, p);
    if p + 1 < |l| { assert LinkOk(store, dict, hash, l, j, p + 1); }
    if p > 0 { assert LinkOk(store, dict, hash, l, j, p - 1); }
  }

  lemma BridgedStored(store: Store, dict: map<Key, Addr>, hash: Key -> nat, lists: seq<seq<Addr>>, j: nat, p: nat)
    requires j < |lists| && Stored(store, dict, hash, lists) && Chained(store, dict, hash, lists[j], j)
        && p < |lists[j]| && lists[j][p] in store
    ensures var l := lists[j];
      Stored(Bridged(store, l, p) - {l[p]}, dict - {store[l[p]].key}, hash, lists[j := l[..p] + l[p + 1..]])
  {
    var l := lists[j];
    var store', dict' := Bridged(store, l, p) - {l[p]}, dict - {store[l[p]].key};
    var lists' := lists[j := l[..p] + l[p + 1..]];
    assert LinkOk(store, dict, hash, l, j, p);
    forall q | q in dict' ensures Holds(store', dict', hash, lists', q) {
      assert Holds(store, dict, hash, lists, q);
      if hash(q) == j {
        var i :| 0 <= i < |l| && l[i] == dict[q];
        assert i != p;
        assert dict[q] == lists'[j][if i < p then i else i - 1];
      }
    }
  }

  lemma MovedElsewhere(store: Store, dict: map<Key, Addr>, hash: Key -> nat, l: seq<Addr>, j: nat, p: nat, b: Addr)
    requires Chained(store, dict, hash, l, j) && p < |l| && l[p] in store && b !in store
    ensures Elsewhere(store, Moved(store, l, p, b), dict, dict[store[l[p]].key := b], hash, j)
  {
    assert LinkOk(store, dict, hash, l, j, p);
    if p + 1 < |l| { assert LinkOk(store, dict, hash, l, j, p + 1); }
    if p > 0 { assert LinkOk(store, dict, hash, l, j, p - 1); }
  }

  lemma MovedStored(store: Store, dict: map<Key, Addr>, hash: Key -> nat, lists: seq<seq<Addr>>, j: nat, p: nat,
      b: Addr)
    requires j < |lists| && Stored(store, dict, hash, lists) && Chained(store, dict, hash, lists[j], j)
    requires p < |lists[j]| && lists[j][p] in store && b !in store
    ensures var l := lists[j]; Stored(Moved(store, l, p, b), dict[store[l[p]].key := b], hash, lists[j := l[p := b]])
  {
    var l: seq<Addr> := lists[j];
    var store', dict' := Moved(store, l, p, b), dict[store[l[p]].key := b];
    var lists': seq<seq<Addr>> := lists[j := l[p := b]];
    assert LinkOk(store, dict, hash, l, j, p);
    forall q | q in dict' ensures Holds(store', dict', hash, lists', q) {
      if q == store[l[p]].key {
        assert lists'[j][p] == b;
        MovedAt(store, dict, hash, l, j, p, b, p);
      } else {
        assert Holds(store, dict, hash, lists, q);
        if hash(q) == j {
          var i :| 0 <= i < |l| && l[i] == dict[q];
          assert i != p && lists'[j][i] == dict[q];
        }
      }
    }
  }

  lemma FrontElsewhere(store: Store, dict: map<Key, Addr>, hash: Key -> nat, l: seq<Addr>, j: nat, a: Addr, k: Key)
    requires Chained(store, dict, hash, l, j) && a !in store && hash(k) == j
    ensures Elsewhere(store, Front(store, l, a, k), dict, dict[k := a], hash, j)
  {
    if l != [] { assert LinkOk(store, dict, hash, l, j, 0); }
  }

  lemma DropHead(lists: seq<seq<Addr>>, j: nat, l: seq<Addr>, n: nat)
    requires j < |lists| && n < |l|
    ensures lists[j := l[n..]][j := l[n..][..0] + l[n..][1..]] == lists[j := l[n + 1..]]
  {
    assert l[n..][..0] + l[n..][1..] == l[n + 1..];
  }

  /** What the chain says about the neighbours of an entry. */
  lemma Ends(store: Store, dict: map<Key, Addr>, hash: Key -> nat, l: seq<Addr>, j: nat, p: nat)
    requires Chained(store, dict, hash, l, j) && p < |l| && l[p] in store
    ensures store[l[p]].next == At(l, p + 1) && store[l[p]].prev == At(l, p - 1)
    ensures p + 1 < |l| ==> l[p + 1] in store && l[p + 1] != l[p]
    ensures p > 0 ==> l[p - 1] in store && l[p - 1] != l[p]
  {
    assert LinkOk(store, dict, hash, l, j, p);
    if p + 1 < |l| { assert LinkOk(store, dict, hash, l, j, p + 1); }
    if p > 0 { assert LinkOk(store, dict, hash, l, j, p - 1); }
  }

  lemma FrontStored(store: Store, dict: map<Key, Addr>, hash: Key -> nat, lists: seq<seq<Addr>>, j: nat, a: Addr,
      k: Key)
    requires j < |lists| && Stored(store, dict, hash, lists) && a !in store && k !in dict && hash(k) == j
    ensures Stored(Front(store, lists[j], a, k), dict[k := a], hash, lists[j := [a] + lists[j]])
  {
    var store', dict', lists' := Front(store, lists[j], a, k), dict[k := a], lists[j := [a] + lists[j]];
    forall q | q in dict' ensures Holds(store', dict', hash, lists', q) {
      if q != k { assert Holds(store, dict, hash, lists, q); }
    }
  }
}
