/**
 Slot claims converge. Masters with fixed claims and distinct epochs send pings that may arrive
 in any order and any number of times. For every starting table it is decided exactly when a slot
 ends with its claimant of greatest epoch.
 */
module SlotClaims {
  import opened Nodes
  import opened SlotTable
  import opened Wrappers

  type Masters = map<NodeId, Claim>

  ghost predicate Claims(ms: Masters, n: NodeId, j: nat) {
    n in ms && j < |ms[n].slots| && ms[n].slots[j]
  }

  /** n claims slot j and nobody else does so with a greater epoch. */
  ghost predicate Best(ms: Masters, n: NodeId, j: nat) {
    Claims(ms, n, j) && forall m :: Claims(ms, m, j) ==> ms[m].epoch <= ms[n].epoch
  }

  ghost predicate MastersOk(ms: Masters, size: nat) {
    && (forall n :: n in ms ==> ms[n].sender == n && |ms[n].slots| == size)
    && (forall m, n :: m in ms && n in ms && m != n ==> ms[m].epoch != ms[n].epoch)
  }

  /** The table fits the masters, and no recorded epoch is ahead of the real one. */
  ghost predicate Table(v: View, ms: Masters, size: nat) {
    && |v.owner| == |v.disowned| == |v.importing| == size
    && forall n :: n in ms ==> n in v.epoch && v.epoch[n] <= ms[n].epoch
  }

  ghost predicate FromMasters(senders: seq<NodeId>, ms: Masters) {
    forall i :: 0 <= i < |senders| ==> senders[i] in ms
  }

  /** The view after pings of `senders` have arrived in this order. */
  ghost function Deliver(v: View, ms: Masters, size: nat, senders: seq<NodeId>): (u: View)
    requires MastersOk(ms, size) && Table(v, ms, size) && FromMasters(senders, ms)
    ensures Table(u, ms, size)
    decreases |senders|
  {
    if senders == [] then v
    else
      ReceiveTable(v, ms, size, senders[0]);
      Deliver(Receive(v, ms[senders[0]]), ms, size, senders[1..])
  }

  lemma ReceiveTable(v: View, ms: Masters, size: nat, n: NodeId)
    requires MastersOk(ms, size) && Table(v, ms, size) && n in ms
    ensures Fits(v, ms[n]) && Table(Receive(v, ms[n]), ms, size)
    ensures Receive(v, ms[n]).epoch == v.epoch[n := ms[n].epoch]
    ensures Receive(v, ms[n]).importing == v.importing
  {}

  /** The recorded epoch of the sender never falls, and is at least the one it claims with; those of the
      others stay. */
  lemma EpochOnlyGrows(v: View, c: Claim, n: NodeId)
    requires Fits(v, c) && n in v.epoch
    ensures var u := Receive(v, c);
      && u.epoch.Keys == v.epoch.Keys && u.epoch[c.sender] >= c.epoch && u.epoch[n] >= v.epoch[n]
      && (u.epoch[n] != v.epoch[n] ==> n == c.sender && u.epoch[n] == c.epoch)
  {}

  /** What one ping does to one slot, whatever it does to the others. */
  lemma SlotEffect(v: View, c: Claim, j: nat)
    requires Fits(v, c) && j < |v.owner|
    ensures var u := Receive(v, c); var mine := v.owner[j] == Some(c.sender);
      && |u.owner| == |u.disowned| == |v.owner|
      && (Moves(v, c, j) ==> u.owner[j] == Some(c.sender) && !u.disowned[j])
      && (!mine && !Moves(v, c, j) ==> u.owner[j] == v.owner[j] && u.disowned[j] == v.disowned[j])
      && (mine ==> u.owner[j] == v.owner[j])
      && (mine && c.slots[j] && !v.disowned[j] ==> !u.disowned[j])
      && (mine && !c.slots[j] ==> u.disowned[j])
  {
    var v1 := SeeEpoch(v, c);
    if (v.owner[j] == Some(c.sender)) != c.slots[j] {
      assert (v1.owner[j] == Some(c.sender)) != c.slots[j];
      assert Differs(v1, c);
    }
  }

  /** A slot that is being imported changes hands by no claim. Its owner's own claims still count. */
  lemma ImportingStays(v: View, c: Claim, j: nat)
    requires Fits(v, c) && j < |v.owner| && v.importing[j]
    ensures var u := Receive(v, c);
      && u.owner[j] == v.owner[j] && u.importing[j]
      && (v.owner[j] != Some(c.sender) ==> u.disowned[j] == v.disowned[j])
  {
    SlotEffect(v, c, j);
  }

  /** In every run. */
  lemma {:induction false} ImportingStaysForever(v: View, ms: Masters, size: nat, senders: seq<NodeId>, j: nat)
    requires MastersOk(ms, size) && Table(v, ms, size) && FromMasters(senders, ms) && j < size && v.importing[j]
    ensures Deliver(v, ms, size, senders).owner[j] == v.owner[j]
    decreases |senders|
  {
    if senders != [] {
      ReceiveTable(v, ms, size, senders[0]);
      ImportingStays(v, ms[senders[0]], j);
      ImportingStaysForever(Receive(v, ms[senders[0]]), ms, size, senders[1..], j);
    }
  }

  // ---------------------------------------------------------------- one slot, four situations

  /** The best claimant has the slot; its recorded epoch may still be an old one. */
  ghost predicate Held(v: View, best: NodeId, j: nat) {
    j < |v.owner| == |v.disowned| && v.owner[j] == Some(best) && !v.disowned[j]
  }

  /** Whoever has the slot would lose it to the best claimant. */
  ghost predicate Takable(v: View, ms: Masters, best: NodeId, j: nat) {
    && j < |v.owner| == |v.disowned| && best in ms && v.owner[j] != Some(best)
    && (Unclaimed(v.owner[j], v.disowned[j]) || OwnerEpoch(v, v.owner[j]) < ms[best].epoch)
  }

  /** The slot is bound to a node that is not known to have dropped it, with a recorded epoch
      the best claimant cannot beat. That node does not claim it. */
  ghost predicate Blocked(v: View, ms: Masters, best: NodeId, j: nat) {
    && j < |v.owner| == |v.disowned| && best in ms && v.owner[j].Some? && v.owner[j] != Some(best)
    && !v.disowned[j] && OwnerEpoch(v, v.owner[j]) >= ms[best].epoch
  }

  /** A sender claims the slot with an epoch above the recorded one. */
  ghost predicate Challenged(ms: Masters, senders: seq<NodeId>, epoch: nat, j: nat) {
    exists i :: 0 <= i < |senders| && Claims(ms, senders[i], j) && ms[senders[i]].epoch > epoch
  }

  /** `b` is heard after `a` has been heard. */
  ghost predicate HeardAfter(senders: seq<NodeId>, a: NodeId, b: NodeId)
    decreases |senders|
  {
    senders != [] && if senders[0] == a then b in senders[1..] else HeardAfter(senders[1..], a, b)
  }

  /** The slot is not being imported, and if the best claimant has it then without a stale mark. */
  ghost predicate SlotOk(v: View, ms: Masters, size: nat, best: NodeId, j: nat) {
    && MastersOk(ms, size) && Table(v, ms, size) && Best(ms, best, j) && j < size
    && !v.importing[j] && (v.owner[j] == Some(best) ==> !v.disowned[j])
  }

  /** What the node must still hear for the slot to end with the best claimant. */
  ghost predicate Ready(v: View, ms: Masters, senders: seq<NodeId>, best: NodeId, j: nat)
    requires best in ms && best in v.epoch && j < |v.owner| == |v.disowned|
  {
    if v.owner[j] == Some(best) then best in senders || !Challenged(ms, senders, v.epoch[best], j)
    else if Blocked(v, ms, best, j) then HeardAfter(senders, v.owner[j].value, best)
    else best in senders
  }

  lemma BestTakes(v: View, ms: Masters, size: nat, best: NodeId, j: nat)
    requires SlotOk(v, ms, size, best, j) && !Blocked(v, ms, best, j)
    ensures var u := Receive(v, ms[best]); Held(u, best, j) && u.epoch[best] == ms[best].epoch
  {
    SlotEffect(v, ms[best], j);
    ReceiveTable(v, ms, size, best);
  }

  lemma HeldStep(v: View, ms: Masters, size: nat, best: NodeId, n: NodeId, j: nat)
    requires SlotOk(v, ms, size, best, j) && Held(v, best, j) && n in ms && n != best
    ensures var u := Receive(v, ms[n]);
      if Claims(ms, n, j) && ms[n].epoch > v.epoch[best] then Takable(u, ms, best, j)
      else Held(u, best, j) && u.epoch[best] == v.epoch[best]
  {
    SlotEffect(v, ms[n], j);
    ReceiveTable(v, ms, size, n);
  }

  lemma TakableStep(v: View, ms: Masters, size: nat, best: NodeId, n: NodeId, j: nat)
    requires SlotOk(v, ms, size, best, j) && Takable(v, ms, best, j) && n in ms && n != best
    ensures Takable(Receive(v, ms[n]), ms, best, j)
  {
    SlotEffect(v, ms[n], j);
    ReceiveTable(v, ms, size, n);
    assert Claims(ms, n, j) ==> ms[n].epoch < ms[best].epoch;
  }

  lemma BlockedStep(v: View, ms: Masters, size: nat, best: NodeId, n: NodeId, j: nat)
    requires SlotOk(v, ms, size, best, j) && Blocked(v, ms, best, j) && n in ms
    ensures var u := Receive(v, ms[n]);
      if Some(n) == v.owner[j] then Takable(u, ms, best, j)
      else Blocked(u, ms, best, j) && u.owner[j] == v.owner[j]
  {
    SlotEffect(v, ms[n], j);
    ReceiveTable(v, ms, size, n);
    assert Claims(ms, n, j) ==> ms[n].epoch <= ms[best].epoch;
  }

  // ---------------------------------------------------------------- runs

  /** Once the claimant of greatest epoch has a slot under its real epoch, no pings take it away. */
  lemma {:induction false} StaysWithBest(v: View, ms: Masters, size: nat, senders: seq<NodeId>, best: NodeId, j: nat)
    requires SlotOk(v, ms, size, best, j) && FromMasters(senders, ms)
    requires Held(v, best, j) && v.epoch[best] == ms[best].epoch
    ensures Deliver(v, ms, size, senders).owner[j] == Some(best)
    decreases |senders|
  {
    if senders != [] {
      var n := senders[0];
      ReceiveTable(v, ms, size, n);
      if n == best { BestTakes(v, ms, size, best, j); } else { HeldStep(v, ms, size, best, n, j); }
      StaysWithBest(Receive(v, ms[n]), ms, size, senders[1..], best, j);
    }
  }

  lemma {:induction false} TakableEnds(v: View, ms: Masters, size: nat, senders: seq<NodeId>, best: NodeId, j: nat)
    requires SlotOk(v, ms, size, best, j) && FromMasters(senders, ms) && Takable(v, ms, best, j)
    ensures Deliver(v, ms, size, senders).owner[j] == Some(best) <==> best in senders
    decreases |senders|
  {
    if senders != [] {
      var n := senders[0];
      ReceiveTable(v, ms, size, n);
      if n == best {
        BestTakes(v, ms, size, best, j);
        StaysWithBest(Receive(v, ms[n]), ms, size, senders[1..], best, j);
      } else {
        TakableStep(v, ms, size, best, n, j);
        TakableEnds(Receive(v, ms[n]), ms, size, senders[1..], best, j);
      }
    }
  }

  lemma {:induction false} HeldEnds(v: View, ms: Masters, size: nat, senders: seq<NodeId>, best: NodeId, j: nat)
    requires SlotOk(v, ms, size, best, j) && FromMasters(senders, ms) && Held(v, best, j)
    ensures Deliver(v, ms, size, senders).owner[j] == Some(best)
            <==> best in senders || !Challenged(ms, senders, v.epoch[best], j)
    decreases |senders|
  {
    if senders != [] {
      var n, rest := senders[0], senders[1..];
      ReceiveTable(v, ms, size, n);
      assert forall i :: 0 < i < |senders| ==> senders[i] == rest[i - 1];
      assert forall i :: 0 <= i < |rest| ==> rest[i] == senders[i + 1];
      if n == best {
        BestTakes(v, ms, size, best, j);
        StaysWithBest(Receive(v, ms[n]), ms, size, rest, best, j);
      } else {
        HeldStep(v, ms, size, best, n, j);
        if Claims(ms, n, j) && ms[n].epoch > v.epoch[best] {
          TakableEnds(Receive(v, ms[n]), ms, size, rest, best, j);
        } else {
          HeldEnds(Receive(v, ms[n]), ms, size, rest, best, j);
        }
      }
    }
  }

  lemma {:induction false} BlockedEnds(v: View, ms: Masters, size: nat, senders: seq<NodeId>, best: NodeId, j: nat)
    requires SlotOk(v, ms, size, best, j) && FromMasters(senders, ms) && Blocked(v, ms, best, j)
    ensures Deliver(v, ms, size, senders).owner[j] == Some(best) <==> HeardAfter(senders, v.owner[j].value, best)
    decreases |senders|
  {
    if senders != [] {
      var n := senders[0];
      ReceiveTable(v, ms, size, n);
      BlockedStep(v, ms, size, best, n, j);
      if Some(n) == v.owner[j] {
        TakableEnds(Receive(v, ms[n]), ms, size, senders[1..], best, j);
      } else {
        BlockedEnds(Receive(v, ms[n]), ms, size, senders[1..], best, j);
      }
    }
  }

  /** Convergence, exactly: whatever the table says and in whatever order pings arrive and are
      repeated, the slot ends with its claimant of greatest epoch if and only if that claimant is
      heard, and heard again after an owner of greater epoch that no longer claims the slot. */
  lemma Converges(v: View, ms: Masters, size: nat, senders: seq<NodeId>, best: NodeId, j: nat)
    requires SlotOk(v, ms, size, best, j) && FromMasters(senders, ms)
    ensures Deliver(v, ms, size, senders).owner[j] == Some(best) <==> Ready(v, ms, senders, best, j)
  {
    if v.owner[j] == Some(best) {
      HeldEnds(v, ms, size, senders, best, j);
    } else if Blocked(v, ms, best, j) {
      BlockedEnds(v, ms, size, senders, best, j);
    } else {
      TakableEnds(v, ms, size, senders, best, j);
    }
  }

  /** A slot nobody claims keeps its owner. */
  lemma {:induction false} UnclaimedStays(v: View, ms: Masters, size: nat, senders: seq<NodeId>, j: nat)
    requires MastersOk(ms, size) && Table(v, ms, size) && FromMasters(senders, ms)
    requires j < size && forall n :: !Claims(ms, n, j)
    ensures Deliver(v, ms, size, senders).owner[j] == v.owner[j]
    decreases |senders|
  {
    if senders != [] {
      ReceiveTable(v, ms, size, senders[0]);
      SlotEffect(v, ms[senders[0]], j);
      assert !Claims(ms, senders[0], j);
      UnclaimedStays(Receive(v, ms[senders[0]]), ms, size, senders[1..], j);
    }
  }

  /** So two nodes that have heard enough agree on every claimed slot, whatever they believed
      before and whatever order the pings came in. */
  lemma AllNodesAgree(v: View, w: View, ms: Masters, size: nat, senders: seq<NodeId>, senders': seq<NodeId>, j: nat)
    requires FromMasters(senders, ms) && FromMasters(senders', ms) && exists n :: Claims(ms, n, j)
    requires forall best :: Best(ms, best, j) ==>
               && SlotOk(v, ms, size, best, j) && Ready(v, ms, senders, best, j)
               && SlotOk(w, ms, size, best, j) && Ready(w, ms, senders', best, j)
    ensures MastersOk(ms, size) && Table(v, ms, size) && Table(w, ms, size) && j < size
    ensures Deliver(v, ms, size, senders).owner[j] == Deliver(w, ms, size, senders').owner[j] != None
  {
    var n :| Claims(ms, n, j);
    var best := BestOf(ms, j, ms.Keys, n);
    Converges(v, ms, size, senders, best, j);
    Converges(w, ms, size, senders', best, j);
  }

  lemma {:induction false} HeardThenHeard(a: seq<NodeId>, b: seq<NodeId>, x: NodeId, y: NodeId)
    requires x in a && y in b
    ensures HeardAfter(a + b, x, y)
    decreases |a|
  {
    assert (a + b)[0] == a[0] && (a + b)[1..] == a[1..] + b;
    if a[0] != x { HeardThenHeard(a[1..], b, x, y); }
  }

  lemma {:induction false} NeverHeard(senders: seq<NodeId>, x: NodeId, y: NodeId)
    requires x !in senders
    ensures !HeardAfter(senders, x, y)
    decreases |senders|
  {
    if senders != [] { NeverHeard(senders[1..], x, y); }
  }

  /** Hearing every master in each of two rounds is enough, unless the slot is bound to a node
      that has left with a greater epoch and so never says that it dropped the slot. */
  lemma TwoRoundsSuffice(v: View, ms: Masters, size: nat, a: seq<NodeId>, b: seq<NodeId>, best: NodeId, j: nat)
    requires SlotOk(v, ms, size, best, j) && FromMasters(a + b, ms) && forall n :: n in ms ==> n in a && n in b
    ensures Ready(v, ms, a + b, best, j) <==> (Blocked(v, ms, best, j) ==> v.owner[j].value in ms)
  {
    if Blocked(v, ms, best, j) {
      var o := v.owner[j].value;
      if o in ms { HeardThenHeard(a, b, o, best); } else { NeverHeard(a + b, o, best); }
    }
  }

  lemma {:induction false} BestOf(ms: Masters, j: nat, among: set<NodeId>, n: NodeId) returns (best: NodeId)
    requires Claims(ms, n, j) && forall m :: Claims(ms, m, j) && m !in among ==> ms[m].epoch <= ms[n].epoch
    ensures Best(ms, best, j)
    decreases among
  {
    if m :| m in among && Claims(ms, m, j) && ms[m].epoch > ms[n].epoch {
      best := BestOf(ms, j, among - {m}, m);
    } else {
      best := n;
    }
  }

  // ---------------------------------------------------------------- skipping old news

  /** Leaving out the update when the claim is what the table says never changes an owner. It
      leaves the whole view the same if and only if none of the claimed slots is marked as
      disowned: the mark of a slot that is claimed again is not cleared. */
  lemma SkipIsHarmlessIff(v: View, c: Claim)
    requires Fits(v, c) && !Differs(v, c)
    ensures UpdateWith(v, c).owner == v.owner
    ensures UpdateWith(v, c) == v <==> forall j :: 0 <= j < |v.owner| && c.slots[j] ==> !v.disowned[j]
  {
    var u := UpdateWith(v, c);
    assert forall j :: 0 <= j < |v.owner| ==> (v.owner[j] == Some(c.sender)) == c.slots[j];
    if forall j :: 0 <= j < |v.owner| && c.slots[j] ==> !v.disowned[j] {
      forall j | 0 <= j < |v.owner| ensures u.disowned[j] == v.disowned[j] {
        assert !c.slots[j] ==> v.owner[j] != Some(c.sender);
      }
      assert u.disowned == v.disowned;
    } else {
      var j :| 0 <= j < |v.owner| && c.slots[j] && v.disowned[j];
      assert u.disowned[j] != v.disowned[j];
    }
  }

  /** The stale mark matters: node 1 drops slot 0 and claims it again, and node 2 with a smaller
      epoch then takes it. */
  lemma StaleMarkLosesSlot()
    ensures var v0 := View([Some(1)], [false], [false], map[1 := 9, 2 := 3]);
            var v1 := Receive(v0, Claim(1, 9, [false]));
            var v2 := Receive(v1, Claim(1, 9, [true]));
            Receive(v2, Claim(2, 3, [true])).owner == [Some(2)]
  {
    var v0 := View([Some(1)], [false], [false], map[1 := 9, 2 := 3]);
    var v1 := Receive(v0, Claim(1, 9, [false]));
    assert (v0.owner[0] == Some(1)) != false;
    assert v1.owner == [Some(1)] && v1.disowned == [true];
    var v2 := Receive(v1, Claim(1, 9, [true]));
    assert v2 == v1;
    assert (v2.owner[0] == Some(2)) != true;
  }

  /** Hearing everybody once is not enough: node 1 no longer claims the slot, but its greater
      epoch shuts out node 2 until node 1 is heard, and node 3 is then the first to ask. */
  lemma OneRoundIsNotEnough()
    ensures var ms := map[1 := Claim(1, 9, [false]), 2 := Claim(2, 5, [true]), 3 := Claim(3, 4, [true])];
      var v := View([Some(1)], [false], [false], map[1 := 9, 2 := 5, 3 := 4]);
      && SlotOk(v, ms, 1, 2, 0) && FromMasters([2, 1, 3], ms)
      && Deliver(v, ms, 1, [2, 1, 3]).owner[0] != Some(2)
  {
    var ms := map[1 := Claim(1, 9, [false]), 2 := Claim(2, 5, [true]), 3 := Claim(3, 4, [true])];
    var v := View([Some(1)], [false], [false], map[1 := 9, 2 := 5, 3 := 4]);
    var senders := [2, 1, 3];
    assert senders[1..] == [1, 3] && senders[1..][1..] == [3];
    assert Blocked(v, ms, 2, 0);
    Converges(v, ms, 1, senders, 2, 0);
  }
}
