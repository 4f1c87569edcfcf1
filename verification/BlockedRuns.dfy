/** Runs of the registry of blocked clients: who waits where, since when, and who is served. */
module BlockedRuns {
  import opened Wrappers
  import opened BlockedKeys

  /** For each client, the index of the event in which it last blocked. */
  ghost function Since(events: seq<Event>, trail: seq<Reg>, n: nat): map<Client, nat>
    requires IsTrail(events, trail) && n <= |events|
  {
    if n == 0 then map[]
    else
      var before := Since(events, trail, n - 1);
      match events[n - 1]
      case Block(c, t, ks, _) => if CanBlock(trail[n - 1].btype, c, t, ks) then before[c := n - 1] else before
      case _ => before
  }

  /** The client blocked with the event at its index, before event n. */
  ghost predicate BlockedSince(events: seq<Event>, n: nat, btype: map<Client, BType>, since: map<Client, nat>,
                               c: Client)
  {
    c in btype ==>
      && c in since && since[c] < n <= |events|
      && events[since[c]].Block? && events[since[c]].c == c && events[since[c]].t == btype[c]
  }

  ghost predicate SinceOk(events: seq<Event>, n: nat, btype: map<Client, BType>, since: map<Client, nat>) {
    && (forall c :: BlockedSince(events, n, btype, since, c))
    && forall c :: c in since ==> since[c] < n
  }

  /** The client is blocked, and its command names k. */
  ghost predicate Asks(events: seq<Event>, btype: map<Client, BType>, since: map<Client, nat>, k: Key, c: Client) {
    c in btype && c in since && since[c] < |events| && events[since[c]].Block? && k in events[since[c]].ks
  }

  /** The list of key k holds exactly the blocked clients whose command names k, by arrival. */
  ghost predicate QueueOk(events: seq<Event>, r: Reg, since: map<Client, nat>, k: Key) {
    && InOrder(Waiters(r.blocking, k), since)
    && forall c :: c in Waiters(r.blocking, k) <==> Asks(events, r.btype, since, k, c)
  }

  ghost predicate QueuesOk(events: seq<Event>, r: Reg, since: map<Client, nat>) {
    forall k :: QueueOk(events, r, since, k)
  }

  /** In every run from the empty registry, at every moment, the list of each key holds exactly the
      blocked clients that asked for the key, in the order in which they blocked. */
  lemma {:induction false} WaitingInOrder(events: seq<Event>, trail: seq<Reg>, n: nat)
    requires IsTrail(events, trail) && trail[0] == Reg(map[], map[], []) && n <= |events|
    ensures SinceOk(events, n, trail[n].btype, Since(events, trail, n))
    ensures QueuesOk(events, trail[n], Since(events, trail, n))
  {
    hide Step, SinceOk, QueuesOk;
    if n == 0 {
      EmptyOk(events, trail[0]);
    } else {
      WaitingInOrder(events, trail, n - 1);
      OneStep(events, n - 1, trail[n - 1], trail[n], Since(events, trail, n - 1));
    }
  }

  lemma EmptyOk(events: seq<Event>, r: Reg)
    requires r == Reg(map[], map[], [])
    ensures SinceOk(events, 0, r.btype, map[]) && QueuesOk(events, r, map[])
  {}

  ghost function After(e: Event, n: nat, r: Reg, since: map<Client, nat>): map<Client, nat> {
    match e
    case Block(c, t, ks, _) => if CanBlock(r.btype, c, t, ks) then since[c := n] else since
    case _ => since
  }

  lemma OneStep(events: seq<Event>, n: nat, r: Reg, r': Reg, since: map<Client, nat>)
    requires n < |events| && Step(r, events[n], r')
    requires SinceOk(events, n, r.btype, since) && QueuesOk(events, r, since)
    ensures SinceOk(events, n + 1, r'.btype, After(events[n], n, r, since))
    ensures QueuesOk(events, r', After(events[n], n, r, since))
  {
    hide SinceOk, QueuesOk, Left, Joined, JustServed, CanBlock;
    SinceLater(events, n, r.btype, since);
    match events[n]
    case Block(c, t, ks, dst) =>
      if CanBlock(r.btype, c, t, ks) { OneJoins(events, n, r, r', since); }
    case Written(key, t) => SameQueues(events, r, r', since);
    case TimedOut(c) =>
      if c in r.btype { SomeLeave(events, n, r, r', since, {c}); }
    case AfterCommand(look) =>
      var handled :|
        r.ready <= handled && JustServed(r.blocking, r.btype, r'.blocking, r'.btype, AllBatches(handled, look));
      JustLeft(r, r', AllBatches(handled, look));
      SomeLeave(events, n, r, r', since, Gone(r.blocking, r.btype, AllBatches(handled, look)));
    case BeforeSleep =>
  }

  lemma SinceLater(events: seq<Event>, n: nat, btype: map<Client, BType>, since: map<Client, nat>)
    requires n < |events| && SinceOk(events, n, btype, since)
    ensures SinceOk(events, n + 1, btype, since)
  {
    var m := n + 1;
    forall c ensures BlockedSince(events, m, btype, since, c) { assert BlockedSince(events, n, btype, since, c); }
  }

  lemma SameQueues(events: seq<Event>, r: Reg, r': Reg, since: map<Client, nat>)
    requires QueuesOk(events, r, since) && r'.btype == r.btype && r'.blocking == r.blocking
    ensures QueuesOk(events, r', since)
  {
    forall k ensures QueueOk(events, r', since, k) { assert QueueOk(events, r, since, k); }
  }

  lemma JustLeft(r: Reg, r': Reg, batches: seq<Batch>)
    requires JustServed(r.blocking, r.btype, r'.blocking, r'.btype, batches)
    ensures var g := Gone(r.blocking, r.btype, batches); r'.btype == r.btype - g && Left(r.blocking, r'.blocking, g)
  {}

  lemma OneJoins(events: seq<Event>, n: nat, r: Reg, r': Reg, since: map<Client, nat>)
    requires n < |events| && SinceOk(events, n, r.btype, since) && QueuesOk(events, r, since)
    requires events[n].Block? && CanBlock(r.btype, events[n].c, events[n].t, events[n].ks)
    requires r'.btype == r.btype[events[n].c := events[n].t]
    requires Joined(r.blocking, r'.blocking, events[n].c, events[n].ks)
    ensures SinceOk(events, n + 1, r'.btype, since[events[n].c := n])
    ensures QueuesOk(events, r', since[events[n].c := n])
  {
    var m, since' := n + 1, since[events[n].c := n];
    forall d ensures BlockedSince(events, m, r'.btype, since', d) { assert BlockedSince(events, n, r.btype, since, d); }
    forall k ensures QueueOk(events, r', since', k) {
      assert QueueOk(events, r, since, k);
      JoinQueue(events, n, r, r', since, k);
    }
  }

  lemma JoinQueue(events: seq<Event>, n: nat, r: Reg, r': Reg, since: map<Client, nat>, k: Key)
    requires n < |events| && events[n].Block? && events[n].c !in r.btype
    requires forall d :: d in since ==> since[d] < n
    requires QueueOk(events, r, since, k)
    requires r'.btype == r.btype[events[n].c := events[n].t]
    requires Joined(r.blocking, r'.blocking, events[n].c, events[n].ks)
    ensures QueueOk(events, r', since[events[n].c := n], k)
  {
    var c, s, s' := events[n].c, Waiters(r.blocking, k), Waiters(r'.blocking, k);
    var since' := since[c := n];
    assert c !in s by { assert !Asks(events, r.btype, since, k, c); }
    assert InOrder(s', since');
    forall d ensures d in s' <==> Asks(events, r'.btype, since', k, d) {
      assert d in s <==> Asks(events, r.btype, since, k, d);
    }
  }

  lemma SomeLeave(events: seq<Event>, n: nat, r: Reg, r': Reg, since: map<Client, nat>, gone: set<Client>)
    requires n < |events| && SinceOk(events, n, r.btype, since) && QueuesOk(events, r, since)
    requires r'.btype == r.btype - gone && Left(r.blocking, r'.blocking, gone)
    ensures SinceOk(events, n + 1, r'.btype, since) && QueuesOk(events, r', since)
  {
    var m := n + 1;
    forall d ensures BlockedSince(events, m, r'.btype, since, d) { assert BlockedSince(events, n, r.btype, since, d); }
    forall k ensures QueueOk(events, r', since, k) {
      assert QueueOk(events, r, since, k);
      LeaveQueue(events, r, r', since, gone, k);
    }
  }

  lemma LeaveQueue(events: seq<Event>, r: Reg, r': Reg, since: map<Client, nat>, gone: set<Client>, k: Key)
    requires QueueOk(events, r, since, k) && r'.btype == r.btype - gone && Left(r.blocking, r'.blocking, gone)
    ensures QueueOk(events, r', since, k)
  {
    hide InOrder;
    var s := Waiters(r.blocking, k);
    assert Waiters(r'.blocking, k) == Keep(s, gone);
    KeepInOrder(s, gone, since);
    forall c ensures c in Keep(s, gone) <==> Asks(events, r'.btype, since, k, c) {
      KeepMembers(s, gone, c);
      assert c in s <==> Asks(events, r.btype, since, k, c);
    }
  }

  lemma {:induction false} KeepMembers(s: seq<Client>, gone: set<Client>, c: Client)
    ensures c in Keep(s, gone) <==> c in s && c !in gone
  {
    if s != [] {
      KeepMembers(s[..|s| - 1], gone, c);
      assert s == s[..|s| - 1] + [s[|s| - 1]];
    }
  }

  lemma {:induction false} KeepInOrder(s: seq<Client>, gone: set<Client>, stamp: map<Client, nat>)
    requires InOrder(s, stamp)
    ensures InOrder(Keep(s, gone), stamp)
  {
    if s != [] {
      var front := s[..|s| - 1];
      KeepInOrder(front, gone, stamp);
      forall d | d in Keep(front, gone) ensures stamp[d] < stamp[s[|s| - 1]] { KeepMembers(front, gone, d); }
    }
  }

  // ---------------------------------------------------------------- first come, first served

  /** In every run, each pass for a list or a sorted set serves the clients that blocked first, in the
      order in which they did, and passes nobody over before the elements are used up. */
  lemma FirstComeFirstServed(events: seq<Event>, trail: seq<Reg>, n: nat, batches: seq<Batch>, j: nat)
    requires IsTrail(events, trail) && trail[0] == Reg(map[], map[], []) && n <= |events|
    requires j < |batches| && batches[j].chosen == None && batches[j].lasts.Some?
    ensures var r, x := trail[n], batches[j];
      var g := Gone(r.blocking, r.btype, batches[..j]);
      var waiting := Keep(Waiters(r.blocking, x.key), g);
      var served := Serves(x, waiting, r.btype - g);
      && Gone(r.blocking, r.btype, batches[..j + 1]) == g + Members(served)
      && FirstCome(served, waiting, Since(events, trail, n), r.btype - g, x.t, x.lasts.value + 1)
  {
    assert |trail| == |events| + 1;
    hide *;
    var r, x, since := trail[n], batches[j], Since(events, trail, n);
    var g := Gone(r.blocking, r.btype, batches[..j]);
    WaitingInOrder(events, trail, n);
    QueueInOrder(events, r, since, x.key);
    KeepInOrder(Waiters(r.blocking, x.key), g, since);
    PassFair(x, Keep(Waiters(r.blocking, x.key), g), since, r.btype - g);
    GoneMore(r.blocking, r.btype, batches, j);
  }

  lemma QueueInOrder(events: seq<Event>, r: Reg, since: map<Client, nat>, k: Key)
    requires QueuesOk(events, r, since)
    ensures InOrder(Waiters(r.blocking, k), since)
  {
    hide InOrder;
    assert QueueOk(events, r, since, k);
  }

  lemma GoneMore(b: Waiting, btype: map<Client, BType>, batches: seq<Batch>, j: nat)
    requires j < |batches|
    ensures var g := Gone(b, btype, batches[..j]);
      var served := Serves(batches[j], Keep(Waiters(b, batches[j].key), g), btype - g);
      Gone(b, btype, batches[..j + 1]) == g + Members(served)
  {
    hide Serves, Members, Keep, Waiters;
    assert batches[..j + 1][..j] == batches[..j];
  }
}
