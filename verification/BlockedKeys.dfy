/** Clients blocked on keys: who waits for what, in which order they are served, and the bookkeeping around it. */
module BlockedKeys {
  import opened Collections
  import opened Wrappers

  type Client = nat
  type Key = nat        // a key together with its database

  datatype BType = List | Zset | Stream | Module | Wait | Postpone | Shutdown

  predicate OnData(t: BType) { t == List || t == Zset || t == Stream }

  // ---------------------------------------------------------------- waiter lists

  type Waiting = map<Key, seq<Client>>

  function Waiters(b: Waiting, k: Key): seq<Client> { if k in b then b[k] else [] }

  /** The list without client c. */
  function Without(s: seq<Client>, c: Client): seq<Client> {
    if s == [] then [] else if s[0] == c then Without(s[1..], c) else [s[0]] + Without(s[1..], c)
  }

  lemma {:induction false} WithoutMembers(s: seq<Client>, c: Client, d: Client)
    ensures d in Without(s, c) <==> d in s && d != c
  {
    if s != [] { WithoutMembers(s[1..], c, d); }
  }

  lemma {:induction false} WithoutAbsent(s: seq<Client>, c: Client)
    requires c !in s
    ensures Without(s, c) == s
  {
    if s != [] { WithoutAbsent(s[1..], c); }
  }

  /** In a list without repetitions, removing the node of c is removing c. */
  lemma {:induction false} WithoutNode(s: seq<Client>, i: nat)
    requires NoDup(s) && i < |s|
    ensures Without(s, s[i]) == s[..i] + s[i + 1..]
  {
    if i == 0 {
      WithoutAbsent(s[1..], s[0]);
    } else {
      WithoutNode(s[1..], i - 1);
      assert s[..i] + s[i + 1..] == [s[0]] + (s[1..][..i - 1] + s[1..][i..]);
    }
  }

  /** The list without the clients in `gone`. */
  function Keep(s: seq<Client>, gone: set<Client>): seq<Client> {
    if s == [] then []
    else Keep(s[..|s| - 1], gone) + if s[|s| - 1] in gone then [] else [s[|s| - 1]]
  }

  lemma {:induction false} KeepAll(s: seq<Client>)
    ensures Keep(s, {}) == s
  {
    if s != [] { KeepAll(s[..|s| - 1]); }
  }

  lemma {:induction false} KeepConcat(a: seq<Client>, b: seq<Client>, gone: set<Client>)
    ensures Keep(a + b, gone) == Keep(a, gone) + Keep(b, gone)
    decreases |b|
  {
    if b == [] {
      assert a + b == a;
    } else {
      var k := |b| - 1;
      assert (a + b)[..|a + b| - 1] == a + b[..k];
      KeepConcat(a, b[..k], gone);
    }
  }

  lemma {:induction false} KeepTwice(s: seq<Client>, g: set<Client>, h: set<Client>)
    ensures Keep(Keep(s, g), h) == Keep(s, g + h)
  {
    if s != [] {
      var k := |s| - 1;
      var last := if s[k] in g then [] else [s[k]];
      KeepTwice(s[..k], g, h);
      KeepConcat(Keep(s[..k], g), last, h);
      if last != [] { assert last[..0] == []; }
    }
  }

  lemma {:induction false} WithoutIsKeep(s: seq<Client>, c: Client)
    ensures Without(s, c) == Keep(s, {c})
  {
    if s != [] {
      WithoutIsKeep(s[1..], c);
      assert s == [s[0]] + s[1..];
      KeepConcat([s[0]], s[1..], {c});
      assert [s[0]][..0] == [];
    }
  }

  /** Arrival numbers grow along the list. */
  ghost predicate InOrder(s: seq<Client>, stamp: map<Client, nat>) {
    && (forall i :: 0 <= i < |s| ==> s[i] in stamp)
    && forall i, j :: 0 <= i < j < |s| ==> stamp[s[i]] < stamp[s[j]]
  }

  lemma InOrderNoDup(s: seq<Client>, stamp: map<Client, nat>)
    requires InOrder(s, stamp)
    ensures NoDup(s)
  {}

  lemma {:induction false} WithoutInOrder(s: seq<Client>, stamp: map<Client, nat>, c: Client)
    requires InOrder(s, stamp)
    ensures InOrder(Without(s, c), stamp)
  {
    hide InOrder;
    if s != [] {
      var rest := Without(s[1..], c);
      InOrderRest(s, stamp);
      WithoutInOrder(s[1..], stamp, c);
      forall d | d in rest ensures d in s[1..] { WithoutMembers(s[1..], c, d); }
      InOrderFirst(s[0], rest, stamp);
    }
  }

  lemma InOrderRest(s: seq<Client>, stamp: map<Client, nat>)
    requires InOrder(s, stamp) && s != []
    ensures InOrder(s[1..], stamp) && s[0] in stamp
    ensures forall d :: d in s[1..] ==> d in stamp && stamp[s[0]] < stamp[d]
  {}

  lemma InOrderFirst(c: Client, s: seq<Client>, stamp: map<Client, nat>)
    requires InOrder(s, stamp) && c in stamp && forall d :: d in s ==> d in stamp && stamp[c] < stamp[d]
    ensures InOrder([c] + s, stamp)
  {}

  // ---------------------------------------------------------------- counting blocked clients

  ghost function OfType(btype: map<Client, BType>, t: BType): set<Client> { set c | c in btype && btype[c] == t }

  lemma CountAdd(btype: map<Client, BType>, c: Client, t: BType, u: BType)
    requires c !in btype
    ensures |OfType(btype[c := t], u)| == |OfType(btype, u)| + if t == u then 1 else 0
  {
    assert OfType(btype[c := t], u) == if t == u then OfType(btype, u) + {c} else OfType(btype, u);
  }

  lemma CountRemove(btype: map<Client, BType>, c: Client, u: BType)
    requires c in btype
    ensures |OfType(btype - {c}, u)| == |OfType(btype, u)| - if btype[c] == u then 1 else 0
  {
    assert OfType(btype, u) == if btype[c] == u then OfType(btype - {c}, u) + {c} else OfType(btype - {c}, u);
  }

  lemma SizeRemove(btype: map<Client, BType>, c: Client)
    requires c in btype
    ensures |btype - {c}| == |btype| - 1
  {
    assert btype.Keys == (btype - {c}).Keys + {c};
  }

  // ---------------------------------------------------------------- what the tables have in common

  function KeysOf(keys: map<Client, set<Key>>, c: Client): set<Key> { if c in keys then keys[c] else {} }

  /** Client and key see each other, or neither does. */
  ghost predicate Sees(keys: map<Client, set<Key>>, b: Waiting, c: Client, k: Key) {
    k in KeysOf(keys, c) <==> c in Waiters(b, k)
  }

  ghost predicate Mirrored(keys: map<Client, set<Key>>, b: Waiting) { forall c, k :: Sees(keys, b, c, k) }

  /** The list of a key is in the order of arrival, and is not kept when empty. */
  ghost predicate ListOk(b: Waiting, stamp: map<Client, nat>, k: Key) {
    InOrder(Waiters(b, k), stamp) && (k in b ==> b[k] != [])
  }

  ghost predicate ListsOk(b: Waiting, stamp: map<Client, nat>) { forall k :: ListOk(b, stamp, k) }

  ghost predicate Past(stamp: map<Client, nat>, clock: nat) { forall c :: c in stamp ==> stamp[c] < clock }

  ghost predicate Counted(btype: map<Client, BType>, total: int, byType: map<BType, int>) {
    total == |btype| && forall t: BType :: t in byType && byType[t] == |OfType(btype, t)|
  }

  ghost predicate TypeOk(btype: map<Client, BType>, keys: map<Client, set<Key>>, c: Client) {
    && (c in btype && OnData(btype[c]) ==> KeysOf(keys, c) != {})
    && (KeysOf(keys, c) != {} ==> c in btype && (OnData(btype[c]) || btype[c] == Module))
  }

  ghost predicate TypesOk(btype: map<Client, BType>, keys: map<Client, set<Key>>) { forall c :: TypeOk(btype, keys, c) }

  ghost predicate Flagged(unblocked: seq<Client>, flagged: set<Client>) {
    NoDup(unblocked) && forall c :: c in unblocked <==> c in flagged
  }

  /** The marked keys are the queued ones and those being worked on, once each. */
  ghost predicate Queued(ready: set<Key>, queue: seq<Key>, work: seq<Key>) {
    && NoDup(queue) && NoDup(work) && (forall k :: k in queue ==> k !in work)
    && forall k :: k in ready <==> k in queue || k in work
  }

  /** Some client of type t waits for the key. */
  ghost predicate WaitedFor(btype: map<Client, BType>, b: Waiting, key: Key, t: BType) {
    exists c :: c in Waiters(b, key) && c in btype && btype[c] == t
  }

  /** One client more at the end of the list, or nothing. */
  ghost predicate Gains(b: Waiting, b': Waiting, c: Client, ks: set<Key>, k: Key) {
    Waiters(b', k) == (if k in ks then Waiters(b, k) + [c] else Waiters(b, k)) && (k in b' ==> b'[k] != [])
  }

  ghost predicate AllGain(b: Waiting, b': Waiting, c: Client, ks: set<Key>) { forall k :: Gains(b, b', c, ks, k) }

  /** One client less in the lists of ks. */
  ghost predicate Loses(b: Waiting, b': Waiting, c: Client, ks: set<Key>, k: Key) {
    Waiters(b', k) == (if k in ks then Without(Waiters(b, k), c) else Waiters(b, k)) && (k in b' ==> b'[k] != [])
  }

  ghost predicate AllLose(b: Waiting, b': Waiting, c: Client, ks: set<Key>) { forall k :: Loses(b, b', c, ks, k) }

  /** Exactly the clients in `gone` have left the lists; the others keep their places. */
  ghost predicate Left(b: Waiting, b': Waiting, gone: set<Client>) {
    forall k {:trigger Waiters(b', k)} :: Waiters(b', k) == Keep(Waiters(b, k), gone)
  }

  lemma NobodyLeft(b: Waiting)
    ensures Left(b, b, {})
  {
    forall k ensures Waiters(b, k) == Keep(Waiters(b, k), {}) { KeepAll(Waiters(b, k)); }
  }

  lemma LeftTwice(b: Waiting, b': Waiting, b'': Waiting, g: set<Client>, h: set<Client>)
    requires Left(b, b', g) && Left(b', b'', h)
    ensures Left(b, b'', g + h)
  {
    forall k ensures Waiters(b'', k) == Keep(Waiters(b, k), g + h) {
      assert Waiters(b', k) == Keep(Waiters(b, k), g);
      KeepTwice(Waiters(b, k), g, h);
    }
  }

  lemma NoneGain(b: Waiting, stamp: map<Client, nat>, c: Client)
    requires ListsOk(b, stamp)
    ensures AllGain(b, b, c, {}) && AllLose(b, b, c, {})
  {
    forall k ensures Gains(b, b, c, {}, k) && Loses(b, b, c, {}, k) { assert ListOk(b, stamp, k); }
  }

  lemma OneGains(b: Waiting, b': Waiting, c: Client, ks: set<Key>, key: Key)
    requires AllGain(b, b', c, ks) && key !in ks
    ensures AllGain(b, b'[key := Waiters(b', key) + [c]], c, ks + {key})
  {
    var b'', ks' := b'[key := Waiters(b', key) + [c]], ks + {key};
    forall k ensures Gains(b, b'', c, ks', k) { assert Gains(b, b', c, ks, k); }
  }

  lemma OneLoses(b: Waiting, b': Waiting, stamp: map<Client, nat>, c: Client, ks: set<Key>, key: Key, i: nat)
    requires ListsOk(b, stamp) && AllLose(b, b', c, ks) && key !in ks && key in b' && i < |b'[key]| && b'[key][i] == c
    ensures var l := b'[key][..i] + b'[key][i + 1..];
      AllLose(b, if l == [] then b' - {key} else b'[key := l], c, ks + {key})
  {
    var l := b'[key][..i] + b'[key][i + 1..];
    var b'' := if l == [] then b' - {key} else b'[key := l];
    assert Loses(b, b', c, ks, key) && ListOk(b, stamp, key);
    InOrderNoDup(b'[key], stamp);
    WithoutNode(b'[key], i);
    forall k ensures Loses(b, b'', c, ks + {key}, k) { assert Loses(b, b', c, ks, k); }
  }

  lemma GainKeeps(b: Waiting, b': Waiting, keys: map<Client, set<Key>>, stamp: map<Client, nat>, clock: nat,
      c: Client, ks: set<Key>)
    requires AllGain(b, b', c, ks) && ListsOk(b, stamp) && Past(stamp, clock) && Mirrored(keys, b)
        && KeysOf(keys, c) == {}
    ensures ListsOk(b', stamp[c := clock]) && Past(stamp[c := clock], clock + 1) && Mirrored(keys[c := ks], b')
  {
    var stamp', keys' := stamp[c := clock], keys[c := ks];
    forall k ensures ListOk(b', stamp', k) {
      assert Gains(b, b', c, ks, k) && ListOk(b, stamp, k) && Sees(keys, b, c, k);
    }
    forall d, k ensures Sees(keys', b', d, k) {
      assert Gains(b, b', c, ks, k) && Sees(keys, b, d, k);
    }
  }

  lemma LoseKeeps(b: Waiting, b': Waiting, keys: map<Client, set<Key>>, stamp: map<Client, nat>, c: Client)
    requires AllLose(b, b', c, KeysOf(keys, c)) && ListsOk(b, stamp) && Mirrored(keys, b)
    ensures ListsOk(b', stamp) && Mirrored(keys - {c}, b')
  {
    forall k ensures ListOk(b', stamp, k) {
      assert Loses(b, b', c, KeysOf(keys, c), k) && ListOk(b, stamp, k);
      WithoutInOrder(Waiters(b, k), stamp, c);
    }
    forall d, k ensures Sees(keys - {c}, b', d, k) {
      assert Loses(b, b', c, KeysOf(keys, c), k) && Sees(keys, b, d, k) && Sees(keys, b, c, k);
      WithoutMembers(Waiters(b, k), c, d);
    }
  }

  /** Leaving the lists one is in is leaving all lists. */
  lemma LosesEverywhere(b: Waiting, b': Waiting, keys: map<Client, set<Key>>, c: Client)
    requires AllLose(b, b', c, KeysOf(keys, c)) && Mirrored(keys, b)
    ensures Left(b, b', {c})
  {
    forall k ensures Waiters(b', k) == Keep(Waiters(b, k), {c}) {
      assert Loses(b, b', c, KeysOf(keys, c), k) && Sees(keys, b, c, k);
      if k !in KeysOf(keys, c) { WithoutAbsent(Waiters(b, k), c); }
      WithoutIsKeep(Waiters(b, k), c);
    }
  }

  lemma TypesAdd(btype: map<Client, BType>, keys: map<Client, set<Key>>, c: Client, t: BType, ks: set<Key>)
    requires TypesOk(btype, keys) && ks != {} && (OnData(t) || t == Module)
    ensures TypesOk(btype[c := t], keys[c := ks])
  {
    var btype', keys' := btype[c := t], keys[c := ks];
    forall d ensures TypeOk(btype', keys', d) { assert TypeOk(btype, keys, d); }
  }

  lemma NotWaiting(btype: map<Client, BType>, keys: map<Client, set<Key>>, c: Client)
    requires TypesOk(btype, keys) && c !in btype
    ensures KeysOf(keys, c) == {}
  {
    assert TypeOk(btype, keys, c);
  }

  lemma TypesRemove(btype: map<Client, BType>, keys: map<Client, set<Key>>, c: Client)
    requires TypesOk(btype, keys)
    ensures TypesOk(btype - {c}, keys - {c})
  {
    forall d ensures TypeOk(btype - {c}, keys - {c}, d) { assert TypeOk(btype, keys, d); }
  }

  // ---------------------------------------------------------------- the registry

  class Registry {
    var btype: map<Client, BType>           // the blocked clients
    var keys: map<Client, set<Key>>         // the keys each of them waits for
    var target: map<Client, Key>            // where BLMOVE pushes what it takes
    var blocking: Waiting
    var readyKeys: set<Key>                 // keys already queued
    var readyList: seq<Key>                 // keys to look at
    var total: int
    var byType: map<BType, int>
    var unblocked: seq<Client>              // clients whose input is to be processed again
    var flagged: set<Client>
    ghost var stamp: map<Client, nat>       // when each blocked client blocked
    ghost var clock: nat

    ghost predicate Valid()
      reads this
    {
      && Mirrored(keys, blocking) && ListsOk(blocking, stamp) && Past(stamp, clock)
      && Counted(btype, total, byType) && TypesOk(btype, keys) && Flagged(unblocked, flagged)
    }

    constructor ()
      ensures Valid() && Queued(readyKeys, readyList, []) && btype == map[] && blocking == map[] && readyList == []
    {
      btype, keys, target, blocking := map[], map[], map[], map[];
      readyKeys, readyList, total, unblocked, flagged := {}, [], 0, [], {};
      byType := map[List := 0, Zset := 0, Stream := 0, Module := 0, Wait := 0, Postpone := 0, Shutdown := 0];
      stamp, clock := map[], 0;
      new;
      NothingBlocked();
      forall t: BType ensures t in byType && byType[t] == |OfType(btype, t)| {
        match t case List => case Zset => case Stream => case Module => case Wait => case Postpone => case Shutdown =>
      }
    }

    // -------------------------------------------------------------- blocking

    /** Blocks a client on keys; a key named twice counts once. */
    method BlockForKeys(c: Client, t: BType, ks: seq<Key>, dst: Option<Key>)
      requires Valid() && c !in btype && ks != [] && (OnData(t) || t == Module)
      modifies this`btype, this`keys, this`target, this`blocking, this`total, this`byType, this`stamp, this`clock
      ensures Valid() && btype == old(btype)[c := t]
      ensures AllGain(old(blocking), blocking, c, KeysOf(keys, c)) && forall k :: k in KeysOf(keys, c) <==> k in ks
      ensures stamp == old(stamp)[c := old(clock)] && clock > old(clock)
    {
      hide Mirrored, ListsOk, Past, AllGain, Counted, TypesOk, Flagged, OnData;
      NotWaiting(btype, keys, c);
      if dst.Some? { target := target[c := dst.value]; }
      var mine := JoinLists(c, ks);
      assert ks[0] in mine;
      GainKeeps(old(blocking), blocking, keys, stamp, clock, c, mine);
      TypesAdd(btype, keys, c, t, mine);
      keys := keys[c := mine];
      stamp, clock := stamp[c := clock], clock + 1;
      BlockClient(c, t);
    }

    /** Appends the client to the list of each key. */
    method JoinLists(c: Client, ks: seq<Key>) returns (mine: set<Key>)
      requires ListsOk(blocking, stamp)
      modifies this`blocking
      ensures AllGain(old(blocking), blocking, c, mine) && forall k :: k in mine <==> k in ks
    {
      hide ListsOk, AllGain;
      NoneGain(blocking, stamp, c);
      mine := {};
      for j := 0 to |ks|
        invariant forall k :: k in mine <==> k in ks[..j]
        invariant AllGain(old(blocking), blocking, c, mine)
      {
        assert ks[..j + 1] == ks[..j] + [ks[j]];
        if ks[j] in mine { continue; }
        OneGains(old(blocking), blocking, c, mine, ks[j]);
        ghost var next := blocking[ks[j] := Waiters(blocking, ks[j]) + [c]];
        if ks[j] !in blocking { blocking := blocking[ks[j] := []]; }
        blocking := blocking[ks[j] := blocking[ks[j]] + [c]];
        assert blocking == next;
        mine := mine + {ks[j]};
      }
      assert ks[..|ks|] == ks;
    }

    method BlockClient(c: Client, t: BType)
      requires Counted(btype, total, byType) && c !in btype
      modifies this`btype, this`total, this`byType
      ensures Counted(btype, total, byType) && btype == old(btype)[c := t]
    {
      forall u: BType ensures |OfType(btype[c := t], u)| == |OfType(btype, u)| + if t == u then 1 else 0 {
        CountAdd(btype, c, t, u);
      }
      btype := btype[c := t];
      total := total + 1;
      byType := byType[t := byType[t] + 1];
    }

    // -------------------------------------------------------------- unblocking

    /** Takes the client out of every list it is in. */
    method UnblockWaitingData(c: Client)
      requires Mirrored(keys, blocking) && ListsOk(blocking, stamp) && KeysOf(keys, c) != {}
      modifies this`keys, this`target, this`blocking
      ensures keys == old(keys) - {c} && target == old(target) - {c}
      ensures AllLose(old(blocking), blocking, c, KeysOf(old(keys), c))
    {
      hide Mirrored, ListsOk, AllLose;
      ghost var b, all := blocking, keys[c];
      NoneGain(blocking, stamp, c);
      var todo := keys[c];
      assert all - todo == {};
      while todo != {}
        invariant todo <= all && keys == old(keys) && target == old(target)
        invariant AllLose(b, blocking, c, all - todo)
        decreases todo
      {
        var k :| k in todo;
        StillThere(keys, b, blocking, c, all - todo, k);
        assert k in blocking;                                   // serverAssertWithInfo
        var l := blocking[k];
        var i :| 0 <= i < |l| && l[i] == c;
        OneLoses(b, blocking, stamp, c, all - todo, k, i);
        l := l[..i] + l[i + 1..];
        blocking := if l == [] then blocking - {k} else blocking[k := l];
        assert all - todo + {k} == all - (todo - {k});
        todo := todo - {k};
      }
      assert all - todo == all;
      keys := keys - {c};
      target := target - {c};
    }

    method QueueForReprocessing(c: Client)
      requires Flagged(unblocked, flagged)
      modifies this`unblocked, this`flagged
      ensures Flagged(unblocked, flagged) && c in flagged
      ensures unblocked == if c in old(flagged) then old(unblocked) else old(unblocked) + [c]
    {
      if c !in flagged {
        flagged := flagged + {c};
        unblocked := unblocked + [c];
      }
    }

    method UnblockClient(c: Client)
      requires Valid() && c in btype
      modifies this`btype, this`keys, this`target, this`blocking, this`total, this`byType, this`unblocked, this`flagged
      ensures Valid() && btype == old(btype) - {c} && target == old(target) - {c}
      ensures AllLose(old(blocking), blocking, c, KeysOf(old(keys), c)) && keys == old(keys) - {c}
      ensures Left(old(blocking), blocking, {c})
      ensures unblocked == if c in old(flagged) then old(unblocked) else old(unblocked) + [c]
    {
      assert TypeOk(btype, keys, c);
      hide Mirrored, ListsOk, AllLose, Past, Flagged, Counted, TypesOk, TypeOk, KeysOf, Left;
      TypesRemove(btype, keys, c);
      LeaveLists(c);
      LoseKeeps(old(blocking), blocking, old(keys), stamp, c);
      LosesEverywhere(old(blocking), blocking, old(keys), c);
      ForgetType(c);
      QueueForReprocessing(c);
    }

    method LeaveLists(c: Client)
      requires Mirrored(keys, blocking) && ListsOk(blocking, stamp) && c in btype && TypeOk(btype, keys, c)
      modifies this`keys, this`target, this`blocking
      ensures keys == old(keys) - {c} && target == old(target) - {c}
      ensures AllLose(old(blocking), blocking, c, KeysOf(old(keys), c))
    {
      hide Mirrored, ListsOk, AllLose;
      if OnData(btype[c]) || (btype[c] == Module && KeysOf(keys, c) != {}) {
        UnblockWaitingData(c);
      } else {
        NoneGain(blocking, stamp, c);
        assert KeysOf(keys, c) == {};
        keys := keys - {c};
        target := target - {c};
      }
    }

    method ForgetType(c: Client)
      requires Counted(btype, total, byType) && c in btype
      modifies this`btype, this`total, this`byType
      ensures Counted(btype, total, byType) && btype == old(btype) - {c}
    {
      forall u: BType ensures |OfType(btype - {c}, u)| == |OfType(btype, u)| - if btype[c] == u then 1 else 0 {
        CountRemove(btype, c, u);
      }
      SizeRemove(btype, c);
      total := total - 1;
      byType := byType[btype[c] := byType[btype[c]] - 1];
      btype := btype - {c};
    }

    // -------------------------------------------------------------- signalling and serving

    /** Queues a key that clients may be waiting for, unless it is queued already. */
    method SignalKeyAsReady(key: Key, t: BType, ghost work: seq<Key>)
      requires Valid() && Queued(readyKeys, readyList, work)
      modifies this`readyKeys, this`readyList
      ensures Valid() && Queued(readyKeys, readyList, work)
      ensures readyList == old(readyList) || (readyList == old(readyList) + [key] && key in blocking)
      ensures WaitedFor(btype, blocking, key, t) ==> key in readyKeys
    {
      if WaitedFor(btype, blocking, key, t) {
        ghost var c :| c in Waiters(blocking, key) && c in btype && btype[c] == t;
        Counts(btype, byType, total, c);
      }
      if byType[t] == 0 && byType[Module] == 0 { return; }
      if key !in blocking { return; }
      if key in readyKeys { return; }
      readyList := readyList + [key];
      readyKeys := readyKeys + {key};
    }

    /** Serves the clients of type t that wait for the key, in the order of the list: those in
        `chosen`, until the key is gone after `lasts` of them. What BLMOVE moves on may make
        another key ready. */
    method ServeClients(key: Key, t: BType, chosen: set<Client>, lasts: nat, ghost work: seq<Key>)
        returns (served: seq<Client>)
      requires Valid() && Queued(readyKeys, readyList, work) && lasts > 0
      modifies this
      ensures Valid() && Queued(readyKeys, readyList, work) && stamp == old(stamp) && clock == old(clock)
      ensures served == FirstOf(Served(Waiters(old(blocking), key), old(btype), t, chosen), lasts)
      ensures btype == old(btype) - Members(served) && Left(old(blocking), blocking, Members(served))
      ensures old(readyList) <= readyList && (served == [] ==> readyList == old(readyList))
      ensures |btype| <= |old(btype)| && (served != [] ==> |btype| < |old(btype)|)
    {
      served := [];
      var nobody := byType[t] == 0;
      if nobody { NobodyServed(Waiters(blocking, key), btype, byType, total, t, chosen); }
      OrderNoDup(blocking, stamp, key);
      hide Valid, Queued, Served, Members, FirstOf, Waiters, Left;
      if nobody {
        NobodyGone(btype, lasts);
        NobodyLeft(blocking);
        return;
      }
      served := ServeInOrder(key, t, chosen, lasts, work);
      FewerBlocked(Waiters(old(blocking), key), old(btype), t, chosen, lasts);
    }

    /** The loop over the list as it was. */
    method ServeInOrder(key: Key, t: BType, chosen: set<Client>, lasts: nat, ghost work: seq<Key>)
        returns (served: seq<Client>)
      requires Valid() && Queued(readyKeys, readyList, work) && lasts > 0 && NoDup(Waiters(blocking, key))
      modifies this
      ensures Valid() && Queued(readyKeys, readyList, work) && stamp == old(stamp) && clock == old(clock)
      ensures served == FirstOf(Served(Waiters(old(blocking), key), old(btype), t, chosen), lasts)
      ensures btype == old(btype) - Members(served) && Left(old(blocking), blocking, Members(served))
      ensures old(readyList) <= readyList && (served == [] ==> readyList == old(readyList))
    {
      hide Valid, Queued, Served, Members, FirstOf, Waiters, Left;
      served := [];
      var order := Waiters(blocking, key);
      ghost var was := btype;
      NoneServed(order, was, t, chosen);
      NobodyLeft(blocking);
      var i := 0;
      while i < |order| && |served| < lasts
        invariant 0 <= i <= |order| && |served| <= lasts
        invariant Valid() && Queued(readyKeys, readyList, work) && stamp == old(stamp) && clock == old(clock)
        invariant served == Served(order[..i], was, t, chosen)
        invariant btype == was - Members(served) && Left(old(blocking), blocking, Members(served))
        invariant old(readyList) <= readyList && (served == [] ==> readyList == old(readyList))
      {
        var receiver := order[i];
        ServedStep(order, i, was, t, chosen);
        NotYetServed(order, i, was, t, chosen);
        StillBlocked(was, served, receiver);
        OneGone(was, served, receiver);
        i := i + 1;
        label before:
        var done := Consider(receiver, t, chosen, work);
        if done {
          LeftTwice(old(blocking), old@before(blocking), blocking, Members(served), {receiver});
          served := served + [receiver];
        }
      }
      ServedPrefix(order, i, was, t, chosen, lasts);
    }

    method Consider(receiver: Client, t: BType, chosen: set<Client>, ghost work: seq<Key>) returns (done: bool)
      requires Valid() && Queued(readyKeys, readyList, work)
      modifies this
      ensures Valid() && Queued(readyKeys, readyList, work) && stamp == old(stamp) && clock == old(clock)
      ensures done <==> receiver in old(btype) && old(btype)[receiver] == t && receiver in chosen
      ensures btype == (if done then old(btype) - {receiver} else old(btype)) && old(readyList) <= readyList
      ensures if done then Left(old(blocking), blocking, {receiver}) else blocking == old(blocking)
      ensures !done ==> readyList == old(readyList)
    {
      hide Valid, Queued, Left;
      done := false;
      if receiver !in btype || btype[receiver] != t || receiver !in chosen { return; }
      ServeOne(receiver, work);
      done := true;
    }

    /** Serves one client. If it moves its element on to a key others wait for, that key is ready. */
    method ServeOne(receiver: Client, ghost work: seq<Key>)
      requires Valid() && Queued(readyKeys, readyList, work) && receiver in btype
      modifies this
      ensures Valid() && Queued(readyKeys, readyList, work) && stamp == old(stamp) && clock == old(clock)
      ensures btype == old(btype) - {receiver} && old(readyList) <= readyList
      ensures Left(old(blocking), blocking, {receiver})
      ensures receiver in old(target) && WaitedFor(old(btype), old(blocking), old(target)[receiver], List) ==>
                old(target)[receiver] in readyKeys
    {
      hide Queued, Left, WaitedFor;
      if receiver in target { SignalKeyAsReady(target[receiver], List, work); }
      UnblockClient(receiver);
    }

    /** One pass over the list of a key. Clients waiting for a list or a sorted set are served in the
        order in which they blocked, as long as there are elements. */
    method ServeBatch(x: Batch, ghost work: seq<Key>)
      requires Valid() && Queued(readyKeys, readyList, work)
      modifies this
      ensures Valid() && Queued(readyKeys, readyList, work) && stamp == old(stamp) && clock == old(clock)
      ensures var served := Serves(x, Waiters(old(blocking), x.key), old(btype));
        && btype == old(btype) - Members(served) && Left(old(blocking), blocking, Members(served))
        && (x.chosen == None && x.lasts.Some? ==>
              FirstCome(served, Waiters(old(blocking), x.key), stamp, old(btype), x.t, x.lasts.value + 1))
      ensures old(readyList) <= readyList
      ensures |btype| <= |old(btype)| && (readyList != old(readyList) ==> |btype| < |old(btype)|)
    {
      assert ListOk(blocking, stamp, x.key);
      hide Valid, Queued, Served, Left, Members, FirstCome, Serves, FirstOf;
      var order := Waiters(blocking, x.key);
      var chosen := if x.chosen.Some? then x.chosen.value else set c | c in order;
      var lasts := if x.lasts.Some? then x.lasts.value + 1 else |order| + 1;
      ServesIs(x, order, btype);
      if x.chosen == None && x.lasts.Some? { PassFair(x, order, stamp, btype); }
      var _ := ServeClients(x.key, x.t, chosen, lasts, work);
    }

    /** One key that is ready: who is served depends on what is stored there now. */
    method HandleKey(key: Key, look: Look, ghost work: seq<Key>)
      requires Valid() && Queued(readyKeys, readyList, [key] + work)
      modifies this
      ensures Valid() && Queued(readyKeys, readyList, work) && stamp == old(stamp) && clock == old(clock)
      ensures JustServed(old(blocking), old(btype), blocking, btype, Batches(key, look))
      ensures old(readyList) <= readyList
      ensures |btype| <= |old(btype)| && (readyList != old(readyList) ==> |btype| < |old(btype)|)
    {
      hide Queued, JustServed, Batches;
      Unmark(readyKeys, readyList, key, work);
      readyKeys := readyKeys - {key};
      ServeKey(key, look, work);
    }

    method ServeKey(key: Key, look: Look, ghost work: seq<Key>)
      requires Valid() && Queued(readyKeys, readyList, work)
      modifies this
      ensures Valid() && Queued(readyKeys, readyList, work) && stamp == old(stamp) && clock == old(clock)
      ensures JustServed(old(blocking), old(btype), blocking, btype, Batches(key, look))
      ensures old(readyList) <= readyList
      ensures |btype| <= |old(btype)| && (readyList != old(readyList) ==> |btype| < |old(btype)|)
    {
      hide Valid, Queued, JustServed, TypeBatches;
      NothingServed(blocking, btype);
      ServeByType(key, look, work, old(blocking), old(btype));
      ghost var done := TypeBatches(key, look);
      if look.kind != Missing {
        ServeMore(Batch(key, Module, Some(look.byModule), None), work, old(blocking), old(btype), done);
        done := done + [Batch(key, Module, Some(look.byModule), None)];
      }
      if look.kind != StreamObj {
        ServeMore(Batch(key, Stream, Some(look.groups), None), work, old(blocking), old(btype), done);
        done := done + [Batch(key, Stream, Some(look.groups), None)];
      }
      assert done == Batches(key, look);
    }

    /** The clients that wait for the type of value found at the key. */
    method ServeByType(key: Key, look: Look, ghost work: seq<Key>, ghost b: Waiting, ghost bt: map<Client, BType>)
      requires Valid() && Queued(readyKeys, readyList, work) && JustServed(b, bt, blocking, btype, [])
      modifies this
      ensures Valid() && Queued(readyKeys, readyList, work) && stamp == old(stamp) && clock == old(clock)
      ensures JustServed(b, bt, blocking, btype, TypeBatches(key, look))
      ensures old(readyList) <= readyList
      ensures |btype| <= |old(btype)| && (readyList != old(readyList) ==> |btype| < |old(btype)|)
    {
      hide Valid, Queued, JustServed;
      if look.kind == ListObj {
        ServeMore(Batch(key, List, None, Some(look.elements)), work, b, bt, []);
      } else if look.kind == ZsetObj {
        ServeMore(Batch(key, Zset, None, Some(look.elements)), work, b, bt, []);
      } else if look.kind == StreamObj {
        ServeMore(Batch(key, Stream, Some(look.newEntries), None), work, b, bt, []);
      }
      assert forall x: Batch :: [] + [x] == [x];
    }

    /** One more pass over the list of a key. */
    method ServeMore(x: Batch, ghost work: seq<Key>, ghost b: Waiting, ghost bt: map<Client, BType>,
                     ghost done: seq<Batch>)
      requires Valid() && Queued(readyKeys, readyList, work) && JustServed(b, bt, blocking, btype, done)
      modifies this
      ensures Valid() && Queued(readyKeys, readyList, work) && stamp == old(stamp) && clock == old(clock)
      ensures JustServed(b, bt, blocking, btype, done + [x])
      ensures old(readyList) <= readyList
      ensures |btype| <= |old(btype)| && (readyList != old(readyList) ==> |btype| < |old(btype)|)
    {
      hide Valid, Queued, Serves, Members, Left, JustServed;
      ServeBatch(x, work);
      MoreServed(b, bt, old(blocking), old(btype), done, x, blocking, btype);
    }

    /** Works off the ready keys until there are none. It ends: a key becomes ready again only when
        another client has been served. `look` says what is found at each step. The keys that were
        ready are `handled` first, in their order; who is served follows from the keys alone. */
    method HandleClientsBlockedOnKeys(look: nat -> Look) returns (ghost handled: seq<Key>)
      requires Valid() && Queued(readyKeys, readyList, [])
      modifies this
      ensures Valid() && Queued(readyKeys, readyList, []) && readyList == [] && readyKeys == {}
      ensures stamp == old(stamp) && clock == old(clock) && |btype| <= |old(btype)|
      ensures old(readyList) <= handled
      ensures JustServed(old(blocking), old(btype), blocking, btype, AllBatches(handled, look))
    {
      var step := 0;
      handled := [];
      NothingServed(blocking, btype);
      while readyList != []
        invariant Valid() && Queued(readyKeys, readyList, []) && |btype| <= |old(btype)|
        invariant stamp == old(stamp) && clock == old(clock)
        invariant step == |handled| && old(readyList) <= handled + readyList
        invariant JustServed(old(blocking), old(btype), blocking, btype, AllBatches(handled, look))
        decreases |btype|, |readyList|
      {
        hide Valid, JustServed, AllBatches, Queued;
        var l := readyList;
        TakeQueue(readyKeys, l);
        readyList := [];
        handled := HandleAll(l, look, step, handled, old(blocking), old(btype));
        step := step + |l|;
      }
      assert handled + readyList == handled;
    }

    /** One round over the keys that were ready. */
    method HandleAll(round: seq<Key>, look: nat -> Look, step: nat, ghost before: seq<Key>, ghost b: Waiting,
                     ghost bt: map<Client, BType>) returns (ghost handled: seq<Key>)
      requires Valid() && Queued(readyKeys, readyList, round) && readyList == [] && step == |before|
      requires JustServed(b, bt, blocking, btype, AllBatches(before, look))
      modifies this
      ensures Valid() && Queued(readyKeys, readyList, [])
      ensures stamp == old(stamp) && clock == old(clock)
      ensures handled == before + round
      ensures JustServed(b, bt, blocking, btype, AllBatches(handled, look))
      ensures |btype| <= |old(btype)| && (readyList != [] ==> |btype| < |old(btype)|)
    {
      hide Valid, Queued, JustServed, AllBatches, Batches;
      handled := before;
      var i := 0;
      assert round[0..] == round;
      while i < |round|
        invariant 0 <= i <= |round| && handled == before + round[..i]
        invariant Valid() && Queued(readyKeys, readyList, round[i..])
        invariant stamp == old(stamp) && clock == old(clock)
        invariant JustServed(b, bt, blocking, btype, AllBatches(handled, look))
        invariant |btype| <= |old(btype)| && (readyList != [] ==> |btype| < |old(btype)|)
      {
        assert round[i..] == [round[i]] + round[i + 1..];
        assert handled + [round[i]] == before + round[..i + 1];
        HandleNext(round[i], look, step + i, round[i + 1..], handled, b, bt);
        handled := handled + [round[i]];
        i := i + 1;
      }
      assert round[..i] == round && round[i..] == [];
    }

    /** One more key of the round. */
    method HandleNext(key: Key, look: nat -> Look, step: nat, ghost work: seq<Key>, ghost handled: seq<Key>,
                      ghost b: Waiting, ghost bt: map<Client, BType>)
      requires Valid() && Queued(readyKeys, readyList, [key] + work) && step == |handled|
      requires JustServed(b, bt, blocking, btype, AllBatches(handled, look))
      modifies this
      ensures Valid() && Queued(readyKeys, readyList, work) && stamp == old(stamp) && clock == old(clock)
      ensures JustServed(b, bt, blocking, btype, AllBatches(handled + [key], look))
      ensures old(readyList) <= readyList
      ensures |btype| <= |old(btype)| && (readyList != old(readyList) ==> |btype| < |old(btype)|)
    {
      hide Valid, Queued, JustServed, AllBatches, Batches;
      HandleKey(key, look(step), work);
      ServedOn(b, bt, old(blocking), old(btype), AllBatches(handled, look), Batches(key, look(step)), blocking, btype);
      OneMoreKey(handled, key, look);
    }

    function Value(): Reg
      reads this
    {
      Reg(btype, blocking, readyList)
    }

    /** Any run of blocking commands, writes, timeouts and event loop steps keeps the registry
        consistent; `trail` is the registry before and after each event. */
    method Serve(events: seq<Event>) returns (ghost trail: seq<Reg>)
      requires Valid() && Queued(readyKeys, readyList, [])
      modifies this
      ensures Valid() && Queued(readyKeys, readyList, [])
      ensures IsTrail(events, trail) && trail[0] == old(Value()) && trail[|events|] == Value()
    {
      hide Queued, Step;
      trail := [Value()];
      for i := 0 to |events|
        invariant Valid() && Queued(readyKeys, readyList, [])
        invariant |trail| == i + 1 && trail[0] == old(Value()) && trail[i] == Value() && IsTrail(events[..i], trail)
      {
        ServeEvent(events[i]);
        TrailMore(events, i, trail, Value());
        trail := trail + [Value()];
      }
      assert events[..|events|] == events;
    }

    method ServeEvent(e: Event)
      requires Valid() && Queued(readyKeys, readyList, [])
      modifies this
      ensures Valid() && Queued(readyKeys, readyList, []) && Step(old(Value()), e, Value())
    {
      hide Valid, Queued, JustServed, Left, AllGain;
      match e
      case Block(c, t, ks, dst) =>
        if CanBlock(btype, c, t, ks) {
          BlockForKeys(c, t, ks, dst);
          GainsAre(old(blocking), blocking, c, KeysOf(keys, c), ks);
        }
      case Written(key, t) =>
        SignalKeyAsReady(key, t, []);
        IsQueued(readyKeys, readyList, key);
      case TimedOut(c) => if c in btype { UnblockClient(c); }
      case AfterCommand(look) => var handled := HandleClientsBlockedOnKeys(look);
      case BeforeSleep => if unblocked != [] { var _ := TakeUnblocked(); }
    }

    /** The next client whose input is processed again. */
    method TakeUnblocked() returns (c: Client)
      requires Valid() && unblocked != []
      modifies this`unblocked, this`flagged
      ensures Valid() && old(unblocked) == [c] + unblocked && c !in flagged
    {
      c := unblocked[0];
      unblocked := unblocked[1..];
      flagged := flagged - {c};
    }
  }

  datatype Kind = ListObj | ZsetObj | StreamObj | OtherObj | Missing

  /** What is found at a ready key: its type, how many clients beyond the first its elements last for, which
      waiting clients have new stream entries, which ones a module wants to serve, and which ones
      wait as members of a consumer group. */
  datatype Look = Look(kind: Kind, elements: nat, newEntries: set<Client>, byModule: set<Client>, groups: set<Client>)

  datatype Event =
    | Block(c: Client, t: BType, ks: seq<Key>, dst: Option<Key>)
    | Written(key: Key, t: BType)
    | TimedOut(c: Client)
    | AfterCommand(look: nat -> Look)
    | BeforeSleep

  /** What a run changes: the blocked clients, the lists they wait in, the keys that are ready. */
  datatype Reg = Reg(btype: map<Client, BType>, blocking: Waiting, ready: seq<Key>)

  predicate CanBlock(btype: map<Client, BType>, c: Client, t: BType, ks: seq<Key>) {
    c !in btype && ks != [] && (OnData(t) || t == Module)
  }

  /** The lists after client c has joined those of the keys ks. */
  ghost predicate Joined(b: Waiting, b': Waiting, c: Client, ks: seq<Key>) {
    forall k {:trigger Waiters(b', k)} :: Waiters(b', k) == if k in ks then Waiters(b, k) + [c] else Waiters(b, k)
  }

  /** One event. */
  ghost predicate Step(r: Reg, e: Event, r': Reg) {
    match e
    case Block(c, t, ks, _) =>
      if CanBlock(r.btype, c, t, ks)
      then r'.btype == r.btype[c := t] && Joined(r.blocking, r'.blocking, c, ks) && r'.ready == r.ready
      else r' == r
    case Written(key, t) =>
      && r'.btype == r.btype && r'.blocking == r.blocking
      && (r'.ready == r.ready || r'.ready == r.ready + [key])
      && (WaitedFor(r.btype, r.blocking, key, t) ==> key in r'.ready)
    case TimedOut(c) =>
      if c in r.btype
      then r'.btype == r.btype - {c} && Left(r.blocking, r'.blocking, {c}) && r'.ready == r.ready
      else r' == r
    case AfterCommand(look) =>
      && r'.ready == []
      && exists handled :: r.ready <= handled
           && JustServed(r.blocking, r.btype, r'.blocking, r'.btype, AllBatches(handled, look))
    case BeforeSleep => r' == r
  }

  ghost predicate IsTrail(events: seq<Event>, trail: seq<Reg>) {
    |trail| == |events| + 1 && forall i :: 0 <= i < |events| ==> Step(trail[i], events[i], trail[i + 1])
  }

  lemma TrailMore(events: seq<Event>, i: nat, trail: seq<Reg>, r: Reg)
    requires i < |events| && IsTrail(events[..i], trail) && Step(trail[i], events[i], r)
    ensures IsTrail(events[..i + 1], trail + [r])
  {
    var more := trail + [r];
    forall j | 0 <= j < i + 1 ensures Step(more[j], events[..i + 1][j], more[j + 1]) {
      if j < i { assert events[..i + 1][j] == events[..i][j] && more[j] == trail[j] && more[j + 1] == trail[j + 1]; }
    }
  }

  lemma GainsAre(b: Waiting, b': Waiting, c: Client, mine: set<Key>, ks: seq<Key>)
    requires AllGain(b, b', c, mine) && forall k :: k in mine <==> k in ks
    ensures Joined(b, b', c, ks)
  {
    forall k ensures Waiters(b', k) == if k in ks then Waiters(b, k) + [c] else Waiters(b, k) {
      assert Gains(b, b', c, mine, k);
    }
  }

  // ---------------------------------------------------------------- batches

  /** One pass over the list of a key: who is eligible (None: everybody of the type), and for how many
      clients beyond the first the elements last (None: for all). */
  datatype Batch = Batch(key: Key, t: BType, chosen: Option<set<Client>>, lasts: Option<nat>)

  /** The passes made for a key that is ready. */
  function Batches(key: Key, look: Look): seq<Batch> {
    TypeBatches(key, look)
    + (if look.kind != Missing then [Batch(key, Module, Some(look.byModule), None)] else [])
    + (if look.kind != StreamObj then [Batch(key, Stream, Some(look.groups), None)] else [])
  }

  function TypeBatches(key: Key, look: Look): seq<Batch> {
    match look.kind
    case ListObj => [Batch(key, List, None, Some(look.elements))]
    case ZsetObj => [Batch(key, Zset, None, Some(look.elements))]
    case StreamObj => [Batch(key, Stream, Some(look.newEntries), None)]
    case OtherObj => []
    case Missing => []
  }

  ghost function AllBatches(keys: seq<Key>, look: nat -> Look): seq<Batch> {
    if keys == [] then []
    else
      var n := |keys| - 1;
      AllBatches(keys[..n], look) + Batches(keys[n], look(n))
  }

  lemma OneMoreKey(keys: seq<Key>, key: Key, look: nat -> Look)
    ensures AllBatches(keys + [key], look) == AllBatches(keys, look) + Batches(key, look(|keys|))
  {
    hide Batches;
    assert (keys + [key])[..|keys|] == keys;
  }

  /** Whom a pass over the list `waiting` serves. */
  function Serves(x: Batch, waiting: seq<Client>, btype: map<Client, BType>): seq<Client> {
    var chosen := if x.chosen.Some? then x.chosen.value else set c | c in waiting;
    var all := Served(waiting, btype, x.t, chosen);
    if x.lasts.Some? then FirstOf(all, x.lasts.value + 1) else all
  }

  lemma {:induction false} AtMostAll(s: seq<Client>, btype: map<Client, BType>, t: BType, chosen: set<Client>)
    ensures |Served(s, btype, t, chosen)| <= |s|
  {
    if s != [] { AtMostAll(s[..|s| - 1], btype, t, chosen); }
  }

  lemma ServesIs(x: Batch, order: seq<Client>, btype: map<Client, BType>)
    ensures var chosen := if x.chosen.Some? then x.chosen.value else set c | c in order;
      var lasts := if x.lasts.Some? then x.lasts.value + 1 else |order| + 1;
      Serves(x, order, btype) == FirstOf(Served(order, btype, x.t, chosen), lasts)
  {
    var chosen := if x.chosen.Some? then x.chosen.value else set c | c in order;
    AtMostAll(order, btype, x.t, chosen);
  }

  /** All clients the batches serve, one batch after the other. */
  ghost function Gone(b: Waiting, btype: map<Client, BType>, batches: seq<Batch>): set<Client> {
    if batches == [] then {}
    else
      var n := |batches| - 1;
      var g := Gone(b, btype, batches[..n]);
      g + Members(Serves(batches[n], Keep(Waiters(b, batches[n].key), g), btype - g))
  }

  /** From the first registry to the second, exactly the clients these batches serve have left. */
  ghost predicate JustServed(b: Waiting, btype: map<Client, BType>, b': Waiting, btype': map<Client, BType>,
                          batches: seq<Batch>)
  {
    var g := Gone(b, btype, batches);
    btype' == btype - g && Left(b, b', g)
  }

  lemma NothingServed(b: Waiting, btype: map<Client, BType>)
    ensures JustServed(b, btype, b, btype, [])
  {
    NobodyLeft(b);
    assert btype - {} == btype;
  }

  lemma MoreServed(b: Waiting, bt: map<Client, BType>, b1: Waiting, bt1: map<Client, BType>, done: seq<Batch>,
                   x: Batch, b2: Waiting, bt2: map<Client, BType>)
    requires JustServed(b, bt, b1, bt1, done)
    requires var served := Serves(x, Waiters(b1, x.key), bt1);
      bt2 == bt1 - Members(served) && Left(b1, b2, Members(served))
    ensures JustServed(b, bt, b2, bt2, done + [x])
  {
    hide Serves, Members, Keep, Waiters;
    var g := Gone(b, bt, done);
    var served := Serves(x, Waiters(b1, x.key), bt1);
    assert (done + [x])[..|done|] == done;
    SameWaiters(b, b1, g, x.key);
    LeftTwice(b, b1, b2, g, Members(served));
    assert bt - g - Members(served) == bt - (g + Members(served));
  }

  lemma SameWaiters(b: Waiting, b': Waiting, g: set<Client>, k: Key)
    requires Left(b, b', g)
    ensures Waiters(b', k) == Keep(Waiters(b, k), g)
  {}

  /** Batches after batches. */
  lemma {:induction false} ServedOn(b: Waiting, bt: map<Client, BType>, b1: Waiting, bt1: map<Client, BType>,
                                    x: seq<Batch>, y: seq<Batch>, b2: Waiting, bt2: map<Client, BType>)
    requires JustServed(b, bt, b1, bt1, x) && JustServed(b1, bt1, b2, bt2, y)
    ensures JustServed(b, bt, b2, bt2, x + y)
  {
    var g, h := Gone(b, bt, x), Gone(b1, bt1, y);
    GoneOn(b, bt, b1, bt1, x, y);
    LeftTwice(b, b1, b2, g, h);
    assert bt - g - h == bt - (g + h);
  }

  lemma {:induction false} GoneOn(b: Waiting, bt: map<Client, BType>, b1: Waiting, bt1: map<Client, BType>,
                                  x: seq<Batch>, y: seq<Batch>)
    requires JustServed(b, bt, b1, bt1, x)
    ensures Gone(b, bt, x + y) == Gone(b, bt, x) + Gone(b1, bt1, y)
    decreases |y|
  {
    hide Serves, Members, Keep, Waiters, Left;
    if y == [] {
      assert x + y == x;
    } else {
      var n := |y| - 1;
      var g, h, last := Gone(b, bt, x), Gone(b1, bt1, y[..n]), y[n];
      GoneOn(b, bt, b1, bt1, x, y[..n]);
      assert (x + y)[..|x + y| - 1] == x + y[..n];
      SameWaiters(b, b1, g, last.key);
      KeepTwice(Waiters(b, last.key), g, h);
      assert bt - g - h == bt - (g + h);
    }
  }

  lemma TakeQueue(ready: set<Key>, queue: seq<Key>)
    requires Queued(ready, queue, [])
    ensures Queued(ready, [], queue)
  {}

  lemma IsQueued(ready: set<Key>, queue: seq<Key>, key: Key)
    requires Queued(ready, queue, [])
    ensures key in ready <==> key in queue
  {}

  lemma Unmark(ready: set<Key>, queue: seq<Key>, key: Key, work: seq<Key>)
    requires Queued(ready, queue, [key] + work)
    ensures Queued(ready - {key}, queue, work)
  {
    var l := [key] + work;
    assert forall i :: 0 <= i < |work| ==> work[i] == l[i + 1];
    assert l[0] == key;
  }

  // ---------------------------------------------------------------- who is served

  /** The clients of type t among those chosen, in the order of the list. */
  function Served(s: seq<Client>, btype: map<Client, BType>, t: BType, chosen: set<Client>): seq<Client> {
    if s == [] then []
    else
      var c := s[|s| - 1];
      Served(s[..|s| - 1], btype, t, chosen) + if c in btype && btype[c] == t && c in chosen then [c] else []
  }

  function FirstOf(s: seq<Client>, n: nat): seq<Client> { if |s| <= n then s else s[..n] }

  ghost function Members(s: seq<Client>): set<Client> { set c | c in s }

  lemma NoneServed(s: seq<Client>, btype: map<Client, BType>, t: BType, chosen: set<Client>)
    ensures Served(s[..0], btype, t, chosen) == [] && Members([]) == {} && btype == btype - Members([])
  {}

  lemma OneGone(btype: map<Client, BType>, s: seq<Client>, c: Client)
    ensures btype - Members(s) - {c} == btype - Members(s + [c]) && Members(s + [c]) == Members(s) + {c}
  {
    assert Members(s + [c]) == Members(s) + {c};
    assert btype - Members(s) - {c} == btype - (Members(s) + {c});
  }

  lemma StillBlocked(btype: map<Client, BType>, s: seq<Client>, c: Client)
    ensures c !in s ==>
        (c in btype - Members(s) <==> c in btype) && (c in btype ==> (btype - Members(s))[c] == btype[c])
  {}

  lemma NobodyGone(btype: map<Client, BType>, n: nat)
    ensures btype - Members([]) == btype && FirstOf([], n) == []
  {}

  lemma ServedStep(s: seq<Client>, i: nat, btype: map<Client, BType>, t: BType, chosen: set<Client>)
    requires i < |s|
    ensures Served(s[..i + 1], btype, t, chosen)
         == Served(s[..i], btype, t, chosen)
            + if s[i] in btype && btype[s[i]] == t && s[i] in chosen then [s[i]] else []
  {
    assert s[..i + 1][..i] == s[..i];
  }

  lemma {:induction false} ServedFrom(s: seq<Client>, btype: map<Client, BType>, t: BType, chosen: set<Client>,
      c: Client)
    ensures c in Served(s, btype, t, chosen) <==> c in s && c in btype && btype[c] == t && c in chosen
  {
    if s != [] {
      ServedFrom(s[..|s| - 1], btype, t, chosen, c);
      assert c in s <==> c in s[..|s| - 1] || c == s[|s| - 1];
    }
  }

  lemma NotYetServed(s: seq<Client>, i: nat, btype: map<Client, BType>, t: BType, chosen: set<Client>)
    requires i < |s| && NoDup(s)
    ensures s[i] !in Served(s[..i], btype, t, chosen)
  {
    ServedFrom(s[..i], btype, t, chosen, s[i]);
  }

  lemma {:induction false} ServedMore(s: seq<Client>, i: nat, btype: map<Client, BType>, t: BType, chosen: set<Client>)
    requires i <= |s|
    ensures Served(s[..i], btype, t, chosen) <= Served(s, btype, t, chosen)
    decreases |s|
  {
    if i < |s| {
      ServedMore(s[..|s| - 1], i, btype, t, chosen);
      assert s[..|s| - 1][..i] == s[..i];
    } else {
      assert s[..i] == s;
    }
  }

  lemma ServedPrefix(s: seq<Client>, i: nat, btype: map<Client, BType>, t: BType, chosen: set<Client>, n: nat)
    requires i <= |s| && |Served(s[..i], btype, t, chosen)| <= n
    requires i == |s| || |Served(s[..i], btype, t, chosen)| == n
    ensures Served(s[..i], btype, t, chosen) == FirstOf(Served(s, btype, t, chosen), n)
  {
    ServedMore(s, i, btype, t, chosen);
    if i == |s| { assert s[..i] == s; }
  }

  lemma {:induction false} ServedSorted(s: seq<Client>, stamp: map<Client, nat>, btype: map<Client, BType>, t: BType,
      chosen: set<Client>)
    requires InOrder(s, stamp)
    ensures InOrder(Served(s, btype, t, chosen), stamp)
  {
    if s != [] {
      var front := s[..|s| - 1];
      ServedSorted(front, stamp, btype, t, chosen);
      forall c | c in Served(front, btype, t, chosen) ensures stamp[c] < stamp[s[|s| - 1]] {
        ServedFrom(front, btype, t, chosen, c);
        var j :| 0 <= j < |front| && front[j] == c;
        assert s[j] == c;
      }
    }
  }

  /** The clients `r`, in order of arrival, are at most n of those in `s` that are blocked with type t;
      a client of that type is passed over only if n others are served, who arrived before it. */
  ghost predicate FirstCome(r: seq<Client>, s: seq<Client>, stamp: map<Client, nat>, btype: map<Client, BType>,
                            t: BType, n: nat)
  {
    && |r| <= n && InOrder(r, stamp)
    && (forall c :: c in r ==> c in s && c in btype && btype[c] == t)
    && (forall d :: d in s && d in btype && btype[d] == t && d !in r ==> |r| == n)
    && forall c, d :: c in r && d in s && d in btype && btype[d] == t && d !in r ==>
         c in stamp && d in stamp && stamp[c] < stamp[d] && |r| == n
  }

  /** First come, first served. */
  lemma ServedFair(s: seq<Client>, stamp: map<Client, nat>, btype: map<Client, BType>, t: BType, chosen: set<Client>,
      n: nat)
    requires InOrder(s, stamp) && forall c :: c in s ==> c in chosen
    ensures FirstCome(FirstOf(Served(s, btype, t, chosen), n), s, stamp, btype, t, n)
  {
    var all := Served(s, btype, t, chosen);
    var r := FirstOf(all, n);
    ServedSorted(s, stamp, btype, t, chosen);
    forall c | c in r ensures c in s && c in btype && btype[c] == t {
      assert c in all;
      ServedFrom(s, btype, t, chosen, c);
    }
    forall d | d in s && d in btype && btype[d] == t && d !in r ensures |r| == n {
      ServedFrom(s, btype, t, chosen, d);
    }
    forall c, d | c in r && d in s && d in btype && btype[d] == t && d !in r
      ensures c in stamp && d in stamp && stamp[c] < stamp[d] && |r| == n
    {
      ServedFrom(s, btype, t, chosen, d);
      var i :| 0 <= i < |r| && r[i] == c;
      var j :| 0 <= j < |all| && all[j] == d;
      assert all[i] == c;
      assert j >= |r|;
    }
  }

  lemma PassFair(x: Batch, waiting: seq<Client>, stamp: map<Client, nat>, btype: map<Client, BType>)
    requires x.chosen == None && x.lasts.Some? && InOrder(waiting, stamp)
    ensures FirstCome(Serves(x, waiting, btype), waiting, stamp, btype, x.t, x.lasts.value + 1)
  {
    hide Served, FirstOf, FirstCome, InOrder;
    ServedFair(waiting, stamp, btype, x.t, (set c | c in waiting), x.lasts.value + 1);
  }

  lemma FewerBlocked(s: seq<Client>, btype: map<Client, BType>, t: BType, chosen: set<Client>, n: nat)
    ensures var r := FirstOf(Served(s, btype, t, chosen), n);
      |btype - Members(r)| <= |btype| && (r != [] ==> |btype - Members(r)| < |btype|)
  {
    var r := FirstOf(Served(s, btype, t, chosen), n);
    var left := btype - Members(r);
    SubsetSize(left.Keys, btype.Keys);
    if r != [] {
      assert r[0] in Served(s, btype, t, chosen);
      ServedFrom(s, btype, t, chosen, r[0]);
      assert r[0] in Members(r);
      SubsetSize(left.Keys, btype.Keys - {r[0]});
    }
  }

  lemma NobodyServed(s: seq<Client>, btype: map<Client, BType>, byType: map<BType, int>, total: int, t: BType,
      chosen: set<Client>)
    requires Counted(btype, total, byType) && byType[t] == 0
    ensures Served(s, btype, t, chosen) == []
  {
    var r := Served(s, btype, t, chosen);
    if r != [] {
      ServedFrom(s, btype, t, chosen, r[0]);
      Counts(btype, byType, total, r[0]);
    }
  }

  lemma OrderNoDup(b: Waiting, stamp: map<Client, nat>, key: Key)
    requires ListsOk(b, stamp)
    ensures NoDup(Waiters(b, key))
  {
    assert ListOk(b, stamp, key);
    InOrderNoDup(Waiters(b, key), stamp);
  }

  lemma Counts(btype: map<Client, BType>, byType: map<BType, int>, total: int, c: Client)
    requires Counted(btype, total, byType) && c in btype
    ensures byType[btype[c]] > 0
  {
    assert c in OfType(btype, btype[c]);
  }

  lemma NothingBlocked()
    ensures Mirrored(map[], map[]) && ListsOk(map[], map[]) && Past(map[], 0) && TypesOk(map[], map[])
    ensures forall t: BType :: OfType(map[], t) == {}
  {
    assert forall c, k :: Sees(map[], map[], c, k);
    assert forall k :: ListOk(map[], map[], k);
    assert forall c :: TypeOk(map[], map[], c);
  }

  lemma StillThere(keys: map<Client, set<Key>>, b: Waiting, b': Waiting, c: Client, ks: set<Key>, k: Key)
    requires Mirrored(keys, b) && AllLose(b, b', c, ks) && k in KeysOf(keys, c) && k !in ks
    ensures k in b' && c in b'[k]
  {
    assert Sees(keys, b, c, k) && Loses(b, b', c, ks, k);
  }
}
