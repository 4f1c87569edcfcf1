/**
 Resolution of configuration-epoch collisions between masters.

 A fixed set of masters exchanges pings (and UPDATE reports) that the network may delay,
 reorder, repeat or lose without limit; every delivery runs the handlers of `ClusterNode`.
 */
module EpochCollision {
  import opened ClusterNode
  import opened Collections
  import opened MachineWord
  import opened Nodes

  /** A packet header, with the configuration epoch an UPDATE packet reports about some node. */
  datatype Report = Report(header: Ping, about: NodeId, epoch: nat)

  /** `past[n]` holds every configEpoch node n has had, `spent[n]` those it gave up because of
      a collision; no handler reads them. */
  datatype World = World(
    nodes: map<NodeId, Node>,
    pings: set<Ping>,
    reports: set<Report>,
    past: map<NodeId, set<nat>>,
    spent: map<NodeId, set<nat>>)

  datatype Event =
    | PingSent(from: NodeId)
    | ReportSent(from: NodeId, about: NodeId)
    | PingArrives(to: NodeId, ping: Ping)
    | HeaderArrives(to: NodeId, ping: Ping)      // any other packet type
    | ReportArrives(to: NodeId, report: Report)

  function FreshPing(n: Node, self: NodeId): Ping { Ping(self, n.currentEpoch, n.configEpoch, n.isMaster) }

  predicate Enabled(w: World, e: Event) {
    match e
    case PingSent(from) => from in w.nodes
    case ReportSent(from, about) => from in w.nodes && (about == from || about in w.nodes[from].known)
    case PingArrives(to, p) => to in w.nodes && p in w.pings && p.sender != to
    case HeaderArrives(to, p) => to in w.nodes && p in w.pings && p.sender != to
    case ReportArrives(to, r) => to in w.nodes && r in w.reports && r.header.sender != to
  }

  /** Everybody is a master and keeps a table entry for everybody else. */
  ghost predicate Shape(w: World, n: NodeId) {
    && n in w.nodes && w.nodes[n].isMaster
    && forall m :: m in w.nodes[n].known <==> m in w.nodes && m != n
  }

  ghost predicate WellFormed(w: World) {
    && w.past.Keys == w.nodes.Keys && w.spent.Keys == w.nodes.Keys
    && (forall n {:trigger Shape(w, n)} :: n in w.nodes ==> Shape(w, n))
    && (forall p :: p in w.pings ==> p.sender in w.nodes && p.isMaster)
    && (forall r :: r in w.reports ==> r.header.sender in w.nodes && r.header.isMaster && r.about in w.nodes)
  }

  /** Node `to` becomes `n`; a changed configEpoch is entered in its history. */
  function Record(w: World, to: NodeId, n: Node): World
    requires to in w.nodes && to in w.past && to in w.spent
  {
    var was := w.nodes[to].configEpoch;
    w.(nodes := w.nodes[to := n],
       past := w.past[to := w.past[to] + {n.configEpoch}],
       spent := if n.configEpoch == was then w.spent else w.spent[to := w.spent[to] + {was}])
  }

  ghost function Apply(w: World, e: Event): World
    requires WellFormed(w) && Enabled(w, e)
  {
    match e
    case PingSent(from) => w.(pings := w.pings + {FreshPing(w.nodes[from], from)})
    case ReportSent(from, about) =>
      var n := w.nodes[from];
      var epoch := if about == from then n.configEpoch else n.known[about];
      w.(reports := w.reports + {Report(FreshPing(n, from), about, epoch)})
    case PingArrives(to, p) => Record(w, to, ReceivePing(w.nodes[to], to, p))
    case HeaderArrives(to, p) => Record(w, to, SeeHeader(w.nodes[to], p.sender, p.currentEpoch, p.configEpoch))
    case ReportArrives(to, r) =>
      var n := SeeHeader(w.nodes[to], r.header.sender, r.header.currentEpoch, r.header.configEpoch);
      Record(w, to, ReceiveUpdate(n, to, r.header.sender, r.about, r.epoch))
  }

  // ---------------------------------------------------------------- the invariant

  /** No node believes another to be further than it is, and nobody's current epoch lags
      behind an epoch it has heard of. */
  ghost predicate Dominates(w: World, n: NodeId) {
    && n in w.nodes && w.nodes[n].configEpoch <= w.nodes[n].currentEpoch
    && forall m :: m in w.nodes[n].known && m in w.nodes ==>
         w.nodes[n].known[m] <= w.nodes[n].currentEpoch && w.nodes[n].known[m] <= w.nodes[m].configEpoch
  }

  ghost predicate PingOk(w: World, p: Ping) {
    && p.sender in w.nodes && p.isMaster
    && p.configEpoch <= p.currentEpoch && p.sender in w.past && p.configEpoch in w.past[p.sender]
  }

  ghost predicate ReportOk(w: World, r: Report) {
    PingOk(w, r.header) && r.epoch <= r.header.currentEpoch && r.about in w.nodes
        && r.epoch <= w.nodes[r.about].configEpoch
  }

  ghost function Above(past: map<NodeId, set<nat>>, n: NodeId): set<NodeId> { set m | m in past && n < m }

  /** All configEpochs the masters with greater names have ever had. */
  ghost function AboveValues(past: map<NodeId, set<nat>>, n: NodeId): set<nat>
    decreases |Above(past, n)|
  {
    if Above(past, n) == {} then {}
    else
      var m := Least(Above(past, n));
      AboveIsNext(past, n);
      past[m] + AboveValues(past, m)
  }

  lemma AboveIsNext(past: map<NodeId, set<nat>>, n: NodeId)
    requires Above(past, n) != {}
    ensures var m := Least(Above(past, n)); Above(past, n) == Above(past, m) + {m} && m !in Above(past, m)
  {}

  ghost predicate HistoryOk(w: World, n: NodeId) {
    && n in w.nodes && n in w.past && n in w.spent
    && w.nodes[n].configEpoch in w.past[n]
    && (forall v :: v in w.past[n] ==> v <= w.nodes[n].configEpoch)
    && (forall v :: v in w.spent[n] ==> v < w.nodes[n].configEpoch)
    && w.spent[n] <= AboveValues(w.past, n)
    && |w.past[n]| <= |w.spent[n]| + 1
  }

  ghost predicate Inv(w: World) {
    && WellFormed(w)
    && (forall n {:trigger Dominates(w, n)} :: n in w.nodes ==> Dominates(w, n))
    && (forall n {:trigger HistoryOk(w, n)} :: n in w.nodes ==> HistoryOk(w, n))
    && (forall p :: p in w.pings ==> PingOk(w, p))
    && (forall r :: r in w.reports ==> ReportOk(w, r))
  }

  /** Any masters at all may start a run, colliding or not, with any stale view of each other. */
  ghost predicate Init(w: World) {
    && WellFormed(w) && w.pings == {} && w.reports == {}
    && forall n :: n in w.nodes ==> Dominates(w, n) && w.past[n] == {w.nodes[n].configEpoch} && w.spent[n] == {}
  }

  ghost predicate IsRun(worlds: seq<World>, events: seq<Event>) {
    && |worlds| == |events| + 1 && Init(worlds[0])
    && forall i :: 0 <= i < |events| ==>
         WellFormed(worlds[i]) && Enabled(worlds[i], events[i]) && worlds[i + 1] == Apply(worlds[i], events[i])
  }

  /** How often node n has moved to a new configEpoch in the first k steps. */
  ghost function Bumps(worlds: seq<World>, n: NodeId, k: nat): nat
    requires k < |worlds| && forall i :: 0 <= i <= k ==> n in worlds[i].nodes
  {
    if k == 0 then 0
    else Bumps(worlds, n, k - 1) + (if worlds[k].nodes[n].configEpoch != worlds[k - 1].nodes[n].configEpoch then 1
        else 0)
  }

  // ---------------------------------------------------------------- one delivery

  /** A ping makes its receiver give up its epoch only for the value of a greater-named master,
      and the epoch it moves to exceeds every epoch it knows of. */
  lemma PingEffect(n: Node, self: NodeId, p: Ping)
    requires n.configEpoch <= n.currentEpoch && p.configEpoch <= p.currentEpoch && n.isMaster && p.isMaster
        && p.sender in n.known
    ensures var n' := ReceivePing(n, self, p);
      && n'.isMaster && n'.known == n.known[p.sender := Max(n.known[p.sender], p.configEpoch)]
      && n.configEpoch <= n'.configEpoch <= n'.currentEpoch && n'.currentEpoch >= Max(n.currentEpoch, p.currentEpoch)
      && (n'.configEpoch == n.configEpoch ==> n'.currentEpoch == Max(n.currentEpoch, p.currentEpoch))
      && (n'.configEpoch == n.configEpoch || (p.configEpoch == n.configEpoch && self < p.sender
          && n'.configEpoch == n'.currentEpoch == Max(n.currentEpoch, p.currentEpoch) + 1))
      && (n.configEpoch == p.configEpoch >= n.known[p.sender] && self < p.sender ==> n'.configEpoch != n.configEpoch)
  {}

  /** A ping never makes a replica move, nor does the ping of a replica or of an unknown node. */
  lemma QuietPing(n: Node, self: NodeId, p: Ping)
    requires !n.isMaster || !p.isMaster || p.sender !in n.known
    ensures ReceivePing(n, self, p).configEpoch == n.configEpoch
    ensures p.sender !in n.known ==> ReceivePing(n, self, p) == n
  {}

  /** An UPDATE of a known sender tells its receiver the reported epoch, and nothing else. */
  lemma UpdateEffect(n: Node, self: NodeId, sender: NodeId, about: NodeId, reported: nat)
    ensures sender !in n.known ==> ReceiveUpdate(n, self, sender, about, reported) == n
    ensures var n' := ReceiveUpdate(n, self, sender, about, reported);
      sender in n.known ==>
      && (about == self ==>
            && n' == n.(configEpoch := n'.configEpoch) && n'.configEpoch >= reported
            && n'.configEpoch >= n.configEpoch && (n'.configEpoch == reported || n'.configEpoch == n.configEpoch))
      && (about != self && about in n.known ==> n' == n.(known := n.known[about := Max(n.known[about], reported)]))
      && (about != self && about !in n.known ==> n' == n)
  {
    assert about in n.known ==> n.known[about := n.known[about]] == n.known;
  }

  /** What every delivery guarantees of the node that received it. */
  ghost predicate Delivered(w: World, to: NodeId, n: Node) {
    && to in w.nodes && n.isMaster
    && (forall m :: m in n.known <==> m in w.nodes && m != to)
    && w.nodes[to].configEpoch <= n.configEpoch <= n.currentEpoch
    && (forall m :: m in n.known && m in w.nodes ==>
        n.known[m] <= n.currentEpoch && n.known[m] <= w.nodes[m].configEpoch)
    && (n.configEpoch == w.nodes[to].configEpoch || w.nodes[to].configEpoch in AboveValues(w.past, to))
  }

  lemma {:induction false} AboveGrows(past: map<NodeId, set<nat>>, past': map<NodeId, set<nat>>, n: NodeId)
    requires past'.Keys == past.Keys && forall m :: m in past ==> past[m] <= past'[m]
    ensures AboveValues(past, n) <= AboveValues(past', n)
    decreases |Above(past, n)|
  {
    assert Above(past, n) == Above(past', n);
    if Above(past, n) != {} {
      AboveIsNext(past, n);
      AboveGrows(past, past', Least(Above(past, n)));
    }
  }

  lemma {:induction false} AboveHas(past: map<NodeId, set<nat>>, n: NodeId, m: NodeId, v: nat)
    requires m in past && n < m && v in past[m]
    ensures v in AboveValues(past, n)
    decreases |Above(past, n)|
  {
    assert m in Above(past, n);
    AboveIsNext(past, n);
    var l := Least(Above(past, n));
    if l != m { AboveHas(past, l, m, v); }
  }

  /** The receiver's own history after a delivery. */
  lemma OwnHistory(w: World, to: NodeId, n: Node)
    requires Inv(w) && Delivered(w, to, n)
    ensures HistoryOk(Record(w, to, n), to)
  {
    var t := Record(w, to, n);
    assert HistoryOk(w, to);
    AboveGrows(w.past, t.past, to);
    if n.configEpoch == w.nodes[to].configEpoch { assert t.past[to] == w.past[to]; }
  }

  lemma OtherHistory(w: World, to: NodeId, n: Node, m: NodeId)
    requires Inv(w) && to in w.nodes && m in w.nodes && m != to
    ensures HistoryOk(Record(w, to, n), m)
  {
    assert HistoryOk(w, m) && HistoryOk(w, to);
    AboveGrows(w.past, Record(w, to, n).past, m);
  }

  lemma RecordDominates(w: World, to: NodeId, n: Node, m: NodeId)
    requires Inv(w) && Delivered(w, to, n) && m in w.nodes
    ensures Shape(Record(w, to, n), m) && Dominates(Record(w, to, n), m)
  {
    assert Shape(w, m) && Dominates(w, m) && Dominates(w, to);
  }

  lemma RecordPackets(w: World, to: NodeId, n: Node)
    requires Inv(w) && Delivered(w, to, n)
    ensures forall p :: p in w.pings ==> PingOk(Record(w, to, n), p)
    ensures forall r :: r in w.reports ==> ReportOk(Record(w, to, n), r)
  {
    var t := Record(w, to, n);
    forall p | p in w.pings ensures PingOk(t, p) { assert PingOk(w, p); }
    forall r | r in w.reports ensures ReportOk(t, r) { assert ReportOk(w, r); }
  }

  lemma RecordKeeps(w: World, to: NodeId, n: Node)
    requires Inv(w) && Delivered(w, to, n)
    ensures Inv(Record(w, to, n))
  {
    var t := Record(w, to, n);
    forall m | m in t.nodes ensures Shape(t, m) && Dominates(t, m) { RecordDominates(w, to, n, m); }
    forall m {:trigger HistoryOk(t, m)} | m in t.nodes ensures HistoryOk(t, m) {
      if m == to { OwnHistory(w, to, n); } else { OtherHistory(w, to, n, m); }
    }
    RecordPackets(w, to, n);
  }

  lemma PingDelivered(w: World, to: NodeId, p: Ping)
    requires Inv(w) && to in w.nodes && p.sender != to && PingOk(w, p)
    ensures Delivered(w, to, ReceivePing(w.nodes[to], to, p))
  {
    assert Shape(w, to) && Dominates(w, to) && HistoryOk(w, p.sender);
    PingEffect(w.nodes[to], to, p);
    if ReceivePing(w.nodes[to], to, p).configEpoch != w.nodes[to].configEpoch {
      AboveHas(w.past, to, p.sender, p.configEpoch);
    }
  }

  lemma HeaderDelivered(w: World, to: NodeId, p: Ping)
    requires Inv(w) && to in w.nodes && p.sender != to && PingOk(w, p)
    ensures Delivered(w, to, SeeHeader(w.nodes[to], p.sender, p.currentEpoch, p.configEpoch))
  {
    assert Shape(w, to) && Dominates(w, to) && HistoryOk(w, p.sender);
  }

  lemma ReportDelivered(w: World, to: NodeId, r: Report)
    requires Inv(w) && to in w.nodes && r.header.sender != to && ReportOk(w, r)
    ensures var n := SeeHeader(w.nodes[to], r.header.sender, r.header.currentEpoch, r.header.configEpoch);
            Delivered(w, to, ReceiveUpdate(n, to, r.header.sender, r.about, r.epoch))
  {
    HeaderDelivered(w, to, r.header);
  }

  lemma SentKeeps(w: World, t: World)
    requires Inv(w) && t == w.(pings := t.pings, reports := t.reports)
    requires forall p :: p in t.pings ==> PingOk(t, p)
    requires forall r :: r in t.reports ==> ReportOk(t, r)
    ensures Inv(t)
  {
    forall m | m in t.nodes ensures Shape(t, m) && Dominates(t, m) && HistoryOk(t, m) {
      assert Shape(w, m) && Dominates(w, m) && HistoryOk(w, m);
    }
  }

  lemma Sent(w: World, e: Event)
    requires Inv(w) && Enabled(w, e) && (e.PingSent? || e.ReportSent?)
    ensures Inv(Apply(w, e))
  {
    var t := Apply(w, e);
    assert Shape(w, e.from) && Dominates(w, e.from) && HistoryOk(w, e.from);
    forall p | p in t.pings ensures PingOk(t, p) { assert p in w.pings ==> PingOk(w, p); }
    forall r | r in t.reports ensures ReportOk(t, r) { assert r in w.reports ==> ReportOk(w, r); }
    SentKeeps(w, t);
  }

  lemma Preserved(w: World, e: Event)
    requires Inv(w) && Enabled(w, e)
    ensures Inv(Apply(w, e))
  {
    match e
    case PingArrives(to, p) => PingDelivered(w, to, p); RecordKeeps(w, to, ReceivePing(w.nodes[to], to, p));
    case HeaderArrives(to, p) =>
      HeaderDelivered(w, to, p);
      RecordKeeps(w, to, SeeHeader(w.nodes[to], p.sender, p.currentEpoch, p.configEpoch));
    case ReportArrives(to, r) =>
      ReportDelivered(w, to, r);
      var n := SeeHeader(w.nodes[to], r.header.sender, r.header.currentEpoch, r.header.configEpoch);
      RecordKeeps(w, to, ReceiveUpdate(n, to, r.header.sender, r.about, r.epoch));
    case PingSent(_) => Sent(w, e);
    case ReportSent(_, _) => Sent(w, e);
  }

  lemma {:induction false} RunInvariant(worlds: seq<World>, events: seq<Event>, k: nat)
    requires IsRun(worlds, events) && k < |worlds|
    ensures Inv(worlds[k])
  {
    if k == 0 {
      forall n {:trigger HistoryOk(worlds[0], n)} | n in worlds[0].nodes ensures HistoryOk(worlds[0], n) {}
    } else {
      RunInvariant(worlds, events, k - 1);
      Preserved(worlds[k - 1], events[k - 1]);
    }
  }

  // ---------------------------------------------------------------- the bound


  ghost function Least(s: set<NodeId>): (m: NodeId)
    requires s != {}
    ensures m in s && forall x :: x in s ==> m <= x
  {
    var x :| x in s;
    if s == {x} then x
    else
      var y := Least(s - {x});
      assert forall z :: z in s ==> z == x || z in s - {x};
      if x < y then x else y
  }

  /** With r greater-named masters, at most 2^r - 1 different epochs were ever in use above. */
  lemma {:induction false} FewValuesAbove(w: World, n: NodeId)
    requires Inv(w)
    ensures |AboveValues(w.past, n)| <= Pow2(|Above(w.past, n)|) - 1
    decreases |Above(w.past, n)|
  {
    if Above(w.past, n) != {} {
      AboveIsNext(w.past, n);
      var m := Least(Above(w.past, n));
      FewValuesAbove(w, m);
      assert HistoryOk(w, m);
      SubsetSize(w.spent[m], AboveValues(w.past, m));
      UnionSize(w.past[m], AboveValues(w.past, m));
    }
  }

  lemma StepSpends(w: World, e: Event, n: NodeId)
    requires Inv(w) && Enabled(w, e) && n in w.nodes
    ensures var t := Apply(w, e);
      && n in t.nodes && n in t.spent
      && |t.spent[n]| == |w.spent[n]| + (if t.nodes[n].configEpoch != w.nodes[n].configEpoch then 1 else 0)
  {
    assert HistoryOk(w, n);
  }

  /** The spent epochs count the bumps: a node never returns to an epoch it gave up. */
  lemma {:induction false} BumpsAreSpent(worlds: seq<World>, events: seq<Event>, n: NodeId, k: nat)
    requires IsRun(worlds, events) && k < |worlds| && n in worlds[0].nodes
    ensures forall i :: 0 <= i <= k ==> n in worlds[i].nodes
    ensures n in worlds[k].spent && Bumps(worlds, n, k) == |worlds[k].spent[n]|
  {
    if k > 0 {
      BumpsAreSpent(worlds, events, n, k - 1);
      RunInvariant(worlds, events, k - 1);
      StepSpends(worlds[k - 1], events[k - 1], n);
    }
  }

  /** Collision resolution terminates: in every run, however long and however the network
      behaves, a master with r greater-named masters changes its configEpoch at most 2^r - 1 times. */
  lemma CollisionsAreBounded(worlds: seq<World>, events: seq<Event>, n: NodeId, k: nat)
    requires IsRun(worlds, events) && k < |worlds| && n in worlds[0].nodes
    ensures forall i :: 0 <= i <= k ==> n in worlds[i].nodes
    ensures Bumps(worlds, n, k) <= Pow2(|set m | m in worlds[k].nodes && n < m|) - 1
  {
    RunInvariant(worlds, events, k);
    BumpsAreSpent(worlds, events, n, k);
    FewValuesAbove(worlds[k], n);
    assert HistoryOk(worlds[k], n);
    SubsetSize(worlds[k].spent[n], AboveValues(worlds[k].past, n));
    assert Above(worlds[k].past, n) == set m | m in worlds[k].nodes && n < m;
  }

  // ---------------------------------------------------------------- quiescence

  ghost predicate AllDistinct(w: World) {
    forall m, n :: m in w.nodes && n in w.nodes && m < n ==> w.nodes[m].configEpoch != w.nodes[n].configEpoch
  }

  ghost predicate Unmoved(w: World, m: NodeId, n: NodeId)
    requires m in w.nodes && n in w.nodes
  {
    ReceivePing(w.nodes[m], m, FreshPing(w.nodes[n], n)).configEpoch == w.nodes[m].configEpoch
  }

  /** No ping sent right now would make its receiver move to another epoch. */
  ghost predicate Settled(w: World) {
    forall m, n :: m in w.nodes && n in w.nodes && m != n ==> Unmoved(w, m, n)
  }

  lemma UnmovedIff(w: World, m: NodeId, n: NodeId)
    requires Inv(w) && m in w.nodes && n in w.nodes && m != n
    ensures Unmoved(w, m, n) <==> n < m || w.nodes[m].configEpoch != w.nodes[n].configEpoch
  {
    assert Shape(w, m) && Shape(w, n) && Dominates(w, m) && Dominates(w, n);
    PingEffect(w.nodes[m], m, FreshPing(w.nodes[n], n));
  }

  /** In every reachable state the masters have settled exactly when all configEpochs are distinct. */
  lemma SettledIffDistinct(worlds: seq<World>, events: seq<Event>, k: nat)
    requires IsRun(worlds, events) && k < |worlds|
    ensures Settled(worlds[k]) <==> AllDistinct(worlds[k])
  {
    RunInvariant(worlds, events, k);
    var w := worlds[k];
    forall m, n | m in w.nodes && n in w.nodes && m != n
      ensures Unmoved(w, m, n) <==> n < m || w.nodes[m].configEpoch != w.nodes[n].configEpoch
    {
      UnmovedIff(w, m, n);
    }
  }
}
