/**
 Who is unblocked when keys become ready, said of the clients themselves: their type, their place in
 the queue and what is stored at the key.
 */
module BlockedServing {
  import opened BlockedKeys
  import opened BlockedRuns
  import opened Collections
  import opened Wrappers

  /** How many clients of type t are in the queue. */
  function CountType(s: seq<Client>, btype: map<Client, BType>, t: BType): nat {
    if s == [] then 0
    else
      var c := s[|s| - 1];
      CountType(s[..|s| - 1], btype, t) + if c in btype && btype[c] == t then 1 else 0
  }

  /** The i-th client in the queue of the key gets what it waits for: one that waits for a list, or for
      a sorted set, if that is stored there and not too many of its kind are ahead; one that reads a
      stream if there are entries for it; a member of a consumer group also if the stream is gone; a
      client of a module if that says so. */
  ghost predicate Due(r: Reg, key: Key, look: Look, i: nat)
    requires i < |Waiters(r.blocking, key)|
  {
    var s := Waiters(r.blocking, key);
    && s[i] in r.btype
    && match r.btype[s[i]]
       case List => look.kind == ListObj && CountType(s[..i], r.btype, List) <= look.elements
       case Zset => look.kind == ZsetObj && CountType(s[..i], r.btype, Zset) <= look.elements
       case Stream => if look.kind == StreamObj then s[i] in look.newEntries else s[i] in look.groups
       case Module => look.kind != Missing && s[i] in look.byModule
       case _ => false
  }

  ghost predicate Leaves(r: Reg, key: Key, look: Look, c: Client) {
    exists i :: 0 <= i < |Waiters(r.blocking, key)| && Waiters(r.blocking, key)[i] == c && Due(r, key, look, i)
  }

  /** One ready key: exactly those who are due are unblocked and leave all queues. */
  ghost predicate KeyStep(r: Reg, key: Key, look: Look, r': Reg) {
    && (forall c :: c in r'.btype <==> c in r.btype && !Leaves(r, key, look, c))
    && (forall c :: c in r'.btype ==> r'.btype[c] == r.btype[c])
    && Left(r.blocking, r'.blocking, set c | c in r.btype && Leaves(r, key, look, c))
  }

  // ---------------------------------------------------------------- one pass

  lemma {:induction false} ServedCount(s: seq<Client>, btype: map<Client, BType>, t: BType, chosen: set<Client>)
    requires forall c :: c in s ==> c in chosen
    ensures |Served(s, btype, t, chosen)| == CountType(s, btype, t)
  {
    if s != [] { ServedCount(s[..|s| - 1], btype, t, chosen); }
  }

  /** A pass for a list or a sorted set serves a client if few enough of its type are ahead of it. */
  lemma LimitedPass(key: Key, t: BType, e: nat, s: seq<Client>, btype: map<Client, BType>, i: nat)
    requires NoDup(s) && i < |s|
    ensures s[i] in Serves(Batch(key, t, None, Some(e)), s, btype)
         <==> s[i] in btype && btype[s[i]] == t && CountType(s[..i], btype, t) <= e
  {
    hide Served, CountType;
    var everyone := set c | c in s;
    var all, before := Served(s, btype, t, everyone), Served(s[..i], btype, t, everyone);
    ServedFrom(s, btype, t, everyone, s[i]);
    ServedCount(s[..i], btype, t, everyone);
    ServedStep(s, i, btype, t, everyone);
    ServedMore(s, i, btype, t, everyone);
    ServedMore(s, i + 1, btype, t, everyone);
    NotYetServed(s, i, btype, t, everyone);
    if s[i] in btype && btype[s[i]] == t {
      assert all[|before|] == s[i];
      assert forall q :: 0 <= q < |before| ==> all[q] == before[q];
      assert s[i] !in all[..|before|];
    }
  }

  lemma UnlimitedPass(key: Key, t: BType, chosen: set<Client>, s: seq<Client>, btype: map<Client, BType>, c: Client)
    ensures c in Serves(Batch(key, t, Some(chosen), None), s, btype)
         <==> c in s && c in btype && btype[c] == t && c in chosen
  {
    ServedFrom(s, btype, t, chosen, c);
  }

  // ---------------------------------------------------------------- the passes of one key

  lemma GoneSnoc(b: Waiting, btype: map<Client, BType>, batches: seq<Batch>, x: Batch)
    ensures var g := Gone(b, btype, batches);
      Gone(b, btype, batches + [x]) == g + Members(Serves(x, Keep(Waiters(b, x.key), g), btype - g))
  {
    hide Serves, Members, Keep, Waiters;
    assert (batches + [x])[..|batches|] == batches;
  }

  /** A later pass for a type that has not been served yet. */
  lemma LaterPass(b: Waiting, btype: map<Client, BType>, batches: seq<Batch>, key: Key, t: BType, chosen: set<Client>,
                  c: Client)
    requires forall d :: d in Gone(b, btype, batches) ==> d in btype && btype[d] != t
    ensures c in Gone(b, btype, batches + [Batch(key, t, Some(chosen), None)])
         <==> c in Gone(b, btype, batches) || (c in Waiters(b, key) && c in btype && btype[c] == t && c in chosen)
  {
    hide Serves, Keep, Waiters;
    var g, x := Gone(b, btype, batches), Batch(key, t, Some(chosen), None);
    GoneSnoc(b, btype, batches, x);
    UnlimitedPass(key, t, chosen, Keep(Waiters(b, key), g), btype - g, c);
    KeepMembers(Waiters(b, key), g, c);
  }

  lemma FirstGone(b: Waiting, btype: map<Client, BType>, x: Batch, c: Client)
    ensures c in Gone(b, btype, [x]) <==> c in Serves(x, Waiters(b, x.key), btype)
  {
    hide Serves, Keep, Waiters;
    GoneSnoc(b, btype, [], x);
    assert [] + [x] == [x];
    KeepAll(Waiters(b, x.key));
    assert btype - {} == btype;
  }

  /** The pass for the type that is stored at the key. */
  lemma TypePass(r: Reg, key: Key, look: Look, c: Client)
    requires NoDup(Waiters(r.blocking, key))
    ensures c in Gone(r.blocking, r.btype, TypeBatches(key, look)) <==>
      c in r.btype && Leaves(r, key, look, c) && FirstType(r.btype[c], look)
  {
    hide CountType, Waiters, Serves, Gone;
    var b, bt, s := r.blocking, r.btype, Waiters(r.blocking, key);
    if c in s {
      var i :| 0 <= i < |s| && s[i] == c;
      TypePassAt(r, key, look, i);
    } else if x :| TypeBatches(key, look) == [x] {
      FirstGone(b, bt, x, c);
      ServedOnly(x, s, bt, c);
    } else {
      NoneGone(b, bt);
    }
  }

  lemma NoneGone(b: Waiting, btype: map<Client, BType>)
    ensures Gone(b, btype, []) == {}
  {}

  lemma TypePassAt(r: Reg, key: Key, look: Look, i: nat)
    requires NoDup(Waiters(r.blocking, key)) && i < |Waiters(r.blocking, key)|
    ensures var c := Waiters(r.blocking, key)[i];
      && (Leaves(r, key, look, c) <==> Due(r, key, look, i))
      && (c in Gone(r.blocking, r.btype, TypeBatches(key, look)) <==>
          Due(r, key, look, i) && FirstType(r.btype[c], look))
  {
    hide CountType, Waiters, Serves, Gone;
    var b, bt, s := r.blocking, r.btype, Waiters(r.blocking, key);
    var c := s[i];
    match look.kind
    case ListObj =>
      FirstGone(b, bt, Batch(key, List, None, Some(look.elements)), c);
      LimitedPass(key, List, look.elements, s, bt, i);
    case ZsetObj =>
      FirstGone(b, bt, Batch(key, Zset, None, Some(look.elements)), c);
      LimitedPass(key, Zset, look.elements, s, bt, i);
    case StreamObj =>
      FirstGone(b, bt, Batch(key, Stream, Some(look.newEntries), None), c);
      UnlimitedPass(key, Stream, look.newEntries, s, bt, c);
    case OtherObj => NoneGone(b, bt);
    case Missing => NoneGone(b, bt);
  }

  lemma ServedOnly(x: Batch, s: seq<Client>, btype: map<Client, BType>, c: Client)
    ensures c in Serves(x, s, btype) ==> c in s && c in btype && btype[c] == x.t
  {
    var chosen := if x.chosen.Some? then x.chosen.value else set d | d in s;
    ServedFrom(s, btype, x.t, chosen, c);
    assert c in Serves(x, s, btype) ==> c in Served(s, btype, x.t, chosen);
  }

  /** Who leaves because of one ready key. */
  lemma KeyGone(r: Reg, key: Key, look: Look, c: Client)
    requires NoDup(Waiters(r.blocking, key))
    ensures c in Gone(r.blocking, r.btype, Batches(key, look)) <==> c in r.btype && Leaves(r, key, look, c)
  {
    hide CountType, Waiters, TypeBatches, Gone;
    var b, bt, s := r.blocking, r.btype, Waiters(r.blocking, key);
    var first, byModule := TypeBatches(key, look), Batch(key, Module, Some(look.byModule), None);
    var two := first + if look.kind != Missing then [byModule] else [];
    forall d ensures d in Gone(b, bt, first) <==> d in bt && Leaves(r, key, look, d) && FirstType(bt[d], look) {
      TypePass(r, key, look, d);
    }
    if look.kind != Missing {
      forall d ensures d in Gone(b, bt, two) <==>
          d in Gone(b, bt, first) || (d in s && d in bt && bt[d] == Module && d in look.byModule) {
        LaterPass(b, bt, first, key, Module, look.byModule, d);
      }
    } else {
      assert two == first;
    }
    if look.kind != StreamObj { LaterPass(b, bt, two, key, Stream, look.groups, c); } else { assert two + [] == two; }
    if c in s {
      var i :| 0 <= i < |s| && s[i] == c;
      assert Leaves(r, key, look, c) <==> Due(r, key, look, i);
    }
  }

  predicate FirstType(t: BType, look: Look) { t == List || t == Zset || (t == Stream && look.kind == StreamObj) }

  lemma OneKey(r: Reg, key: Key, look: Look, b': Waiting, btype': map<Client, BType>)
    requires NoDup(Waiters(r.blocking, key))
    requires JustServed(r.blocking, r.btype, b', btype', Batches(key, look))
    ensures KeyStep(r, key, look, Reg(btype', b', r.ready))
  {
    hide Gone, Batches, Leaves, Left, Waiters;
    var g := Gone(r.blocking, r.btype, Batches(key, look));
    forall c ensures c in g <==> c in r.btype && Leaves(r, key, look, c) { KeyGone(r, key, look, c); }
    assert g == set c | c in r.btype && Leaves(r, key, look, c);
  }

  // ---------------------------------------------------------------- all ready keys

  ghost predicate Queues(b: Waiting) { forall k :: NoDup(Waiters(b, k)) }

  /** The lists without the clients in `gone`. */
  function Kept(b: Waiting, gone: set<Client>): Waiting { map k | k in b :: Keep(b[k], gone) }

  lemma KeptLeft(b: Waiting, gone: set<Client>)
    ensures Left(b, Kept(b, gone), gone)
  {}

  lemma {:induction false} KeepNoDup(s: seq<Client>, gone: set<Client>)
    requires NoDup(s)
    ensures NoDup(Keep(s, gone))
  {
    if s != [] {
      var front := s[..|s| - 1];
      KeepNoDup(front, gone);
      KeepMembers(front, gone, s[|s| - 1]);
    }
  }

  lemma KeptQueues(b: Waiting, gone: set<Client>)
    requires Queues(b)
    ensures Queues(Kept(b, gone))
  {
    forall k ensures NoDup(Waiters(Kept(b, gone), k)) { KeepNoDup(Waiters(b, k), gone); }
  }

  /** Serving the last of several keys, from what the others left. */
  lemma LastKey(b: Waiting, bt: map<Client, BType>, x: seq<Batch>, y: seq<Batch>, b': Waiting, bt': map<Client, BType>)
    requires JustServed(b, bt, b', bt', x + y)
    ensures var g := Gone(b, bt, x);
      && JustServed(b, bt, Kept(b, g), bt - g, x)
      && JustServed(Kept(b, g), bt - g, b', bt', y)
  {
    hide Gone, Kept, Waiters;
    var g := Gone(b, bt, x);
    var b1, bt1 := Kept(b, g), bt - g;
    KeptLeft(b, g);
    GoneOn(b, bt, b1, bt1, x, y);
    var h := Gone(b1, bt1, y);
    assert bt - g - h == bt - (g + h);
    forall k ensures Waiters(b', k) == Keep(Waiters(b1, k), h) {
      assert Waiters(b', k) == Keep(Waiters(b, k), g + h) && Waiters(b1, k) == Keep(Waiters(b, k), g);
      KeepTwice(Waiters(b, k), g, h);
    }
  }

  /** The registry before and after each of the keys. */
  ghost predicate InTurn(regs: seq<Reg>, handled: seq<Key>, look: nat -> Look) {
    |regs| == |handled| + 1 && forall i :: 0 <= i < |handled| ==> KeyStep(regs[i], handled[i], look(i), regs[i + 1])
  }

  lemma {:induction false} KeysInTurn(r: Reg, handled: seq<Key>, look: nat -> Look, b': Waiting,
                                      btype': map<Client, BType>) returns (regs: seq<Reg>)
    requires Queues(r.blocking) && JustServed(r.blocking, r.btype, b', btype', AllBatches(handled, look))
    ensures InTurn(regs, handled, look) && regs[0].btype == r.btype && Left(r.blocking, regs[0].blocking, {})
    ensures regs[|handled|] == Reg(btype', b', [])
    decreases |handled|
  {
    hide JustServed, KeyStep, Batches, Left, Queues, Kept, Gone;
    if handled == [] {
      OnlyOne(r, b', btype');
      regs := [Reg(btype', b', [])];
    } else {
      var n := |handled| - 1;
      var front, key := handled[..n], handled[n];
      var g := Gone(r.blocking, r.btype, AllBatches(front, look));
      var mid := Reg(r.btype - g, Kept(r.blocking, g), []);
      LastKey(r.blocking, r.btype, AllBatches(front, look), Batches(key, look(n)), b', btype');
      var before := KeysInTurn(r, front, look, mid.blocking, mid.btype);
      KeptQueues(r.blocking, g);
      QueuesAt(mid.blocking, key);
      OneKey(mid, key, look(n), b', btype');
      regs := before + [Reg(btype', b', [])];
      assert forall i :: 0 <= i < n ==> before[i] == regs[i] && front[i] == handled[i];
      forall i | 0 <= i < |handled| ensures KeyStep(regs[i], handled[i], look(i), regs[i + 1]) {
        if i < n { assert KeyStep(before[i], front[i], look(i), before[i + 1]); }
      }
    }
  }

  lemma QueuesAt(b: Waiting, k: Key)
    requires Queues(b)
    ensures NoDup(Waiters(b, k))
  {}

  lemma OnlyOne(r: Reg, b': Waiting, btype': map<Client, BType>)
    requires Queues(r.blocking) && JustServed(r.blocking, r.btype, b', btype', [])
    ensures btype' == r.btype && Left(r.blocking, b', {}) && Queues(b')
  {
    forall k ensures NoDup(Waiters(b', k)) { KeepAll(Waiters(r.blocking, k)); }
  }

  // ---------------------------------------------------------------- in every run

  /** In every run, after a command: the ready keys are handled one after the other, those that were
      ready first, and at each of them exactly the clients who are due are unblocked. */
  lemma ReadyKeysServed(events: seq<Event>, trail: seq<Reg>, n: nat) returns (handled: seq<Key>, regs: seq<Reg>)
    requires IsTrail(events, trail) && trail[0] == Reg(map[], map[], []) && n < |events| && events[n].AfterCommand?
    ensures trail[n].ready <= handled && trail[n + 1].ready == [] && InTurn(regs, handled, events[n].look)
    ensures regs[0].btype == trail[n].btype && Left(trail[n].blocking, regs[0].blocking, {})
    ensures regs[|handled|].btype == trail[n + 1].btype && regs[|handled|].blocking == trail[n + 1].blocking
  {
    hide QueuesOk, SinceOk, JustServed, Left, InTurn, AllBatches;
    var r, r', look := trail[n], trail[n + 1], events[n].look;
    WaitingInOrder(events, trail, n);
    QueuesNoDup(events, r, Since(events, trail, n));
    assert Step(r, events[n], r');
    handled :| r.ready <= handled && JustServed(r.blocking, r.btype, r'.blocking, r'.btype, AllBatches(handled, look));
    regs := KeysInTurn(r, handled, look, r'.blocking, r'.btype);
    InTurnSize(regs, handled, look);
  }

  lemma InTurnSize(regs: seq<Reg>, handled: seq<Key>, look: nat -> Look)
    requires InTurn(regs, handled, look)
    ensures |regs| == |handled| + 1
  {}

  lemma QueuesNoDup(events: seq<Event>, r: Reg, since: map<Client, nat>)
    requires QueuesOk(events, r, since)
    ensures Queues(r.blocking)
  {
    forall k ensures NoDup(Waiters(r.blocking, k)) {
      QueueInOrder(events, r, since, k);
      InOrderNoDup(Waiters(r.blocking, k), since);
    }
  }

  lemma {:induction false} NeverBack(regs: seq<Reg>, handled: seq<Key>, look: nat -> Look, i: nat, c: Client)
    requires InTurn(regs, handled, look) && i <= |handled| && c !in regs[i].btype
    ensures c !in regs[|handled|].btype
    decreases |handled| - i
  {
    hide Leaves, Left;
    if i < |handled| {
      assert KeyStep(regs[i], handled[i], look(i), regs[i + 1]);
      NeverBack(regs, handled, look, i + 1, c);
    }
  }

  /** The blocked clients of type t that wait for the key and blocked before client c. */
  ghost function Earlier(events: seq<Event>, r: Reg, since: map<Client, nat>, key: Key, t: BType, c: Client)
      : set<Client>
  {
    set d | d in r.btype && r.btype[d] == t && Asks(events, r.btype, since, key, d) && c in since && since[d] < since[c]
  }

  ghost function OfOneType(s: seq<Client>, btype: map<Client, BType>, t: BType): set<Client> {
    set d | d in s && d in btype && btype[d] == t
  }

  lemma {:induction false} CountIsSize(s: seq<Client>, btype: map<Client, BType>, t: BType)
    requires NoDup(s)
    ensures |OfOneType(s, btype, t)| == CountType(s, btype, t)
  {
    hide OfOneType, NoDup;
    if s == [] {
      NoneOfType(btype, t);
    } else {
      FrontNoDup(s);
      CountIsSize(s[..|s| - 1], btype, t);
      LastOfType(s, btype, t);
    }
  }

  lemma NoneOfType(btype: map<Client, BType>, t: BType)
    ensures OfOneType([], btype, t) == {}
  {}

  lemma FrontNoDup(s: seq<Client>)
    requires NoDup(s) && s != []
    ensures NoDup(s[..|s| - 1]) && s[|s| - 1] !in s[..|s| - 1]
  {}

  lemma LastOfType(s: seq<Client>, btype: map<Client, BType>, t: BType)
    requires s != [] && s[|s| - 1] !in s[..|s| - 1]
    ensures var c, before := s[|s| - 1], OfOneType(s[..|s| - 1], btype, t);
      |OfOneType(s, btype, t)| == |before| + if c in btype && btype[c] == t then 1 else 0
  {
    var front, c := s[..|s| - 1], s[|s| - 1];
    var before, all := OfOneType(front, btype, t), OfOneType(s, btype, t);
    assert forall d :: d in s <==> d in front || d == c;
    if c in btype && btype[c] == t { assert all == before + {c}; } else { assert all == before; }
  }

  lemma AheadIsEarlier(events: seq<Event>, r: Reg, since: map<Client, nat>, key: Key, t: BType, i: nat)
    requires QueueOk(events, r, since, key) && i < |Waiters(r.blocking, key)|
    ensures var s := Waiters(r.blocking, key);
      CountType(s[..i], r.btype, t) == |Earlier(events, r, since, key, t, s[i])|
  {
    hide CountType, Waiters, Asks;
    var s := Waiters(r.blocking, key);
    InOrderNoDup(s, since);
    CountIsSize(s[..i], r.btype, t);
    forall d ensures d in s[..i] <==> Asks(events, r.btype, since, key, d) && d in since && since[d] < since[s[i]] {
      if d in s {
        var j :| 0 <= j < |s| && s[j] == d;
        assert j < i ==> d == s[..i][j];
        assert j > i ==> since[s[i]] < since[s[j]];
      }
      AsksHas(events, r.btype, since, key, d);
    }
    assert OfOneType(s[..i], r.btype, t) == Earlier(events, r, since, key, t, s[i]);
  }

  lemma AsksHas(events: seq<Event>, btype: map<Client, BType>, since: map<Client, nat>, key: Key, d: Client)
    ensures Asks(events, btype, since, key, d) ==> d in since && d in btype
  {}

  /** So in every run, when the first ready key holds a list, or a sorted set, with `elements` beyond the
      first, every client of that type for which at most so many others blocked earlier is unblocked.
      If no more than that wait, none is left. */
  lemma FirstReadyKey(events: seq<Event>, trail: seq<Reg>, n: nat, t: BType, c: Client)
    requires IsTrail(events, trail) && trail[0] == Reg(map[], map[], []) && n < |events| && events[n].AfterCommand?
    requires trail[n].ready != [] && c in trail[n].btype && trail[n].btype[c] == t
    requires var kind := events[n].look(0).kind; (t == List && kind == ListObj) || (t == Zset && kind == ZsetObj)
    requires Asks(events, trail[n].btype, Since(events, trail, n), trail[n].ready[0], c)
    requires |Earlier(events, trail[n], Since(events, trail, n), trail[n].ready[0], t, c)| <= events[n].look(0).elements
    ensures c !in trail[n + 1].btype
  {
    hide QueuesOk, SinceOk, CountType, Asks, Earlier, Left, KeyStep, Waiters;
    var r, since, key := trail[n], Since(events, trail, n), trail[n].ready[0];
    WaitingInOrder(events, trail, n);
    QueueAt(events, r, since, key);
    var s := Waiters(r.blocking, key);
    var i :| 0 <= i < |s| && s[i] == c;
    AheadIsEarlier(events, r, since, key, t, i);
    var handled, regs := ReadyKeysServed(events, trail, n);
    assert KeyStep(regs[0], handled[0], events[n].look(0), regs[1]);
    DueLeaves(r, regs[0], key, events[n].look(0), regs[1], i);
    NeverBack(regs, handled, events[n].look, 1, c);
  }

  lemma QueueAt(events: seq<Event>, r: Reg, since: map<Client, nat>, k: Key)
    requires QueuesOk(events, r, since)
    ensures QueueOk(events, r, since, k)
  {
    hide QueueOk;
  }

  lemma DueLeaves(r: Reg, q: Reg, key: Key, look: Look, q': Reg, i: nat)
    requires q.btype == r.btype && Left(r.blocking, q.blocking, {}) && KeyStep(q, key, look, q')
    requires i < |Waiters(r.blocking, key)| && Due(r, key, look, i)
    ensures Waiters(r.blocking, key)[i] !in q'.btype
  {
    KeepAll(Waiters(r.blocking, key));
    SameWaiters(r.blocking, q.blocking, {}, key);
    assert Due(q, key, look, i);
  }

  /** A command that has to wait for a list, a sorted set, a stream or a module blocks its client, at the
      end of the queue of each of its keys; all others keep their places. */
  lemma BlocksNow(events: seq<Event>, trail: seq<Reg>, n: nat, c: Client, t: BType, ks: seq<Key>, dst: Option<Key>,
                  k: Key)
    requires IsTrail(events, trail) && n < |events| && events[n] == Block(c, t, ks, dst)
    requires c !in trail[n].btype && ks != [] && (t == List || t == Zset || t == Stream || t == Module)
    ensures trail[n + 1].btype == trail[n].btype[c := t] && trail[n + 1].ready == trail[n].ready
    ensures var before, after := Waiters(trail[n].blocking, k), Waiters(trail[n + 1].blocking, k);
      after == if k in ks then before + [c] else before
  {
    assert Step(trail[n], events[n], trail[n + 1]);
  }

  lemma WriteReadies(r: Reg, key: Key, t: BType, r': Reg, c: Client)
    requires Step(r, Written(key, t), r') && r.ready == []
    requires c in r.btype && r.btype[c] == t && c in Waiters(r.blocking, key)
    ensures r'.btype == r.btype && r'.blocking == r.blocking && r'.ready == [key]
  {
    assert WaitedFor(r.btype, r.blocking, key, t);
  }

  lemma SameEarlier(events: seq<Event>, r: Reg, r': Reg, since: map<Client, nat>, key: Key, t: BType, c: Client)
    requires r'.btype == r.btype
    ensures Earlier(events, r', since, key, t, c) == Earlier(events, r, since, key, t, c)
  {}

  /** From blocking to being served: a client waits for a key, the key gets a value of its type, and
      nothing else is ready. After the command the client is unblocked if it is the first that waits for
      the key, or if there are elements for all who blocked before it. */
  lemma BlockedWrittenServed(events: seq<Event>, trail: seq<Reg>, n: nat, t: BType, key: Key, c: Client)
    requires IsTrail(events, trail) && trail[0] == Reg(map[], map[], []) && n + 1 < |events|
    requires events[n] == Written(key, t) && events[n + 1].AfterCommand? && trail[n].ready == []
    requires c in trail[n].btype && trail[n].btype[c] == t && c in Waiters(trail[n].blocking, key)
    requires var kind := events[n + 1].look(0).kind; (t == List && kind == ListObj) || (t == Zset && kind == ZsetObj)
    requires |Earlier(events, trail[n], Since(events, trail, n), key, t, c)| <= events[n + 1].look(0).elements
    ensures c !in trail[n + 2].btype
  {
    hide QueuesOk, SinceOk, CountType, Asks, Left, Waiters, Step, Earlier;
    assert Step(trail[n], events[n], trail[n + 1]);
    WriteReadies(trail[n], key, t, trail[n + 1], c);
    WaitingInOrder(events, trail, n);
    QueueAt(events, trail[n], Since(events, trail, n), key);
    assert Since(events, trail, n + 1) == Since(events, trail, n);
    SameEarlier(events, trail[n], trail[n + 1], Since(events, trail, n), key, t, c);
    FirstReadyKey(events, trail, n + 1, t, c);
  }
}
