/**
 What failovers achieve over whole runs: winners lead with the epoch of their election and take over
 the slots, and nobody wins against the reasons a voter or a replica has to hold back.
 */
module FailoverRuns {
  import opened ClusterElection
  import opened ClusterNode
  import opened Collections
  import opened Nodes
  import SlotTable
  import Wrappers

  // ---------------------------------------------------------------- winners lead

  /** A winner is a master, and its configuration is at least as new as the election it won. */
  ghost predicate Leads(s: Cluster, w: Victory) {
    && w.candidate in s.nodes && s.nodes[w.candidate].isMaster
    && w.epoch <= s.nodes[w.candidate].configEpoch && w.epoch <= s.nodes[w.candidate].currentEpoch
  }

  ghost predicate AllLead(s: Cluster) {
    && (forall n :: n in s.nodes ==> s.nodes[n].authEpoch <= s.nodes[n].currentEpoch)
    && forall w :: w in s.wins ==> Leads(s, w)
  }

  /** What no event takes back from a node. */
  ghost predicate Grows(n: Node, n': Node) {
    && n.currentEpoch <= n'.currentEpoch && (n.isMaster ==> n'.isMaster)
    && (n.configEpoch <= n'.configEpoch || n'.configEpoch > n.currentEpoch)
    && (n.authEpoch <= n.currentEpoch ==> n'.authEpoch <= n'.currentEpoch)
  }

  lemma NodeGrows(s: Cluster, e: Event, electorate: Electorate, n: NodeId)
    requires Enabled(s, e, electorate) && n in s.nodes
    ensures var t := Apply(s, e, electorate); n in t.nodes && Grows(s.nodes[n], t.nodes[n])
  {}

  lemma LeadStep(s: Cluster, e: Event, electorate: Electorate)
    requires AllLead(s) && Enabled(s, e, electorate)
    ensures AllLead(Apply(s, e, electorate))
  {
    var t := Apply(s, e, electorate);
    forall n | n in t.nodes ensures t.nodes[n].authEpoch <= t.nodes[n].currentEpoch {
      NodeGrows(s, e, electorate, n);
    }
    forall w | w in t.wins ensures Leads(t, w) {
      if w in s.wins {
        assert Leads(s, w);
        NodeGrows(s, e, electorate, w.candidate);
      }
    }
  }

  /** In every run, whatever votes were counted and however late: every winner is a master from then
      on, with a configuration epoch no smaller than that of its election. */
  lemma {:induction false} WinnersLead(states: seq<Cluster>, events: seq<Event>, electorate: Electorate, k: nat,
                                       w: Victory)
    requires IsRun(states, events, electorate) && k < |states| && w in states[k].wins
    ensures w.candidate in states[k].nodes && states[k].nodes[w.candidate].isMaster
    ensures states[k].nodes[w.candidate].configEpoch >= w.epoch
  {
    AllLeadAt(states, events, electorate, k);
    assert Leads(states[k], w);
  }

  lemma {:induction false} AllLeadAt(states: seq<Cluster>, events: seq<Event>, electorate: Electorate, k: nat)
    requires IsRun(states, events, electorate) && k < |states|
    ensures AllLead(states[k])
  {
    if k > 0 {
      AllLeadAt(states, events, electorate, k - 1);
      LeadStep(states[k - 1], events[k - 1], electorate);
    }
  }

  /** So the winner gets the slots: a node that knows the old owner of a slot under an older
      configuration than the election gives the slot to the winner when it first hears its claim. */
  lemma WinnerTakesSlot(states: seq<Cluster>, events: seq<Event>, electorate: Electorate, k: nat, w: Victory,
                        v: SlotTable.View, c: SlotTable.Claim, was: NodeId, j: nat)
    requires IsRun(states, events, electorate) && k < |states| && w in states[k].wins
    requires SlotTable.Fits(v, c) && c.sender == w.candidate
    requires w.candidate in states[k].nodes ==> c.epoch == states[k].nodes[w.candidate].configEpoch
    requires j < |v.owner| && v.owner[j] == Wrappers.Some(was) && was != c.sender && c.slots[j] && !v.importing[j]
    requires was in v.epoch && v.epoch[was] < w.epoch
    ensures SlotTable.Receive(v, c).owner[j] == Wrappers.Some(w.candidate)
  {
    WinnersLead(states, events, electorate, k, w);
    assert (SlotTable.SeeEpoch(v, c).owner[j] == Wrappers.Some(c.sender)) != c.slots[j];
  }

  // ---------------------------------------------------------------- reasons to refuse

  /** A claimed slot is known under a newer configuration than the candidate's. */
  ghost predicate NewerOwner(r: VoteRequest, slots: seq<SlotView>)
    requires |r.claimed| == |slots|
  {
    exists j :: 0 <= j < |slots| && r.claimed[j] && slots[j].ServedAt? && slots[j].epoch > r.configEpoch
  }

  /** What a voter must not vote for. */
  ghost predicate MustRefuse(n: Node, candidate: NodeId, r: VoteRequest, v: VoterView)
    requires |r.claimed| == |v.slots|
  {
    || !n.isMaster || v.mySlots == 0                              // only masters with slots vote
    || candidate !in n.known || v.candidateIsMaster || !v.candidateMasterKnown
    || (!v.candidateMasterFailed && !r.forceAck)                  // the master is up, and nobody forces it
    || v.sinceLastVote < v.nodeTimeout * 2                        // this master's replicas had a vote just now
    || r.epoch < n.currentEpoch                                   // an old election
    || n.lastVoteEpoch >= r.epoch                                 // already voted in it
    || NewerOwner(r, v.slots)
  }

  lemma Refuses(n: Node, candidate: NodeId, r: VoteRequest, v: VoterView)
    requires |r.claimed| == |v.slots| && n.lastVoteEpoch <= n.currentEpoch
    ensures Votes(n, candidate, r, v) <==> !MustRefuse(n, candidate, r, v)
    ensures var n' := ReceiveRequest(n, candidate, r, v);
      && n'.lastVoteEpoch == (if Votes(n, candidate, r, v) then r.epoch else n.lastVoteEpoch)
      && n'.currentEpoch == if candidate in n.known then Max(n.currentEpoch, r.epoch) else n.currentEpoch
  {}

  /** At every delivery of the request to one of `blocking` there is a reason to refuse it. */
  ghost predicate AlwaysRefused(states: seq<Cluster>, events: seq<Event>, w: Victory, blocking: set<NodeId>)
    requires |states| == |events| + 1
  {
    forall i :: 0 <= i < |events| && Asks(events[i], w, blocking) ==>
      && events[i].to in states[i].nodes && |events[i].body.claimed| == |events[i].voterView.slots|
      && MustRefuse(states[i].nodes[events[i].to], w.candidate, events[i].body, events[i].voterView)
  }

  /** A request for the election `w` reaches one of `blocking`. */
  predicate Asks(e: Event, w: Victory, blocking: set<NodeId>) {
    e.RequestArrives? && e.to in blocking && e.request == Request(w.candidate, w.epoch)
  }

  ghost predicate NoneFrom(s: Cluster, w: Victory, blocking: set<NodeId>) {
    forall b :: b in s.votes && b.candidate == w.candidate && b.epoch == w.epoch ==> b.voter !in blocking
  }

  lemma {:induction false} NeverVotes(states: seq<Cluster>, events: seq<Event>, electorate: Electorate, k: nat,
                                      w: Victory, blocking: set<NodeId>)
    requires IsRun(states, events, electorate) && k < |states|
    requires forall i :: 0 <= i < |events| ==> !StartsWithVotes(states[i], events[i])
    requires AlwaysRefused(states, events, w, blocking)
    ensures NoneFrom(states[k], w, blocking)
  {
    if k > 0 {
      NeverVotes(states, events, electorate, k - 1, w, blocking);
      RunInvariant(states, events, electorate, k - 1);
      NoVoteStep(states, events, electorate, k - 1, w, blocking);
    }
  }

  lemma NoVoteStep(states: seq<Cluster>, events: seq<Event>, electorate: Electorate, k: nat, w: Victory,
                   blocking: set<NodeId>)
    requires IsRun(states, events, electorate) && k < |events| && Inv(states[k], electorate)
    requires AlwaysRefused(states, events, w, blocking) && NoneFrom(states[k], w, blocking)
    ensures NoneFrom(states[k + 1], w, blocking)
  {
    var s, e := states[k], events[k];
    if e.RequestArrives? {
      Refuses(s.nodes[e.to], e.request.candidate, e.body, e.voterView);
    }
  }

  /** A candidate that is refused by so many voters that the others are no majority never wins, in
      every run: for instance one that claims a slot they know under a newer configuration. */
  lemma RefusedNeverWins(states: seq<Cluster>, events: seq<Event>, electorate: Electorate, k: nat, w: Victory,
                         blocking: set<NodeId>)
    requires IsRun(states, events, electorate) && k < |states|
    requires forall i :: 0 <= i < |events| ==> !StartsWithVotes(states[i], events[i])
    requires AlwaysRefused(states, events, w, blocking)
    requires blocking <= electorate(w.epoch) && 2 * |blocking| >= |electorate(w.epoch)|
    ensures w !in states[k].wins
  {
    NeverVotes(states, events, electorate, k, w, blocking);
    RunInvariant(states, events, electorate, k);
    var all := electorate(w.epoch);
    var voters := VotersFor(states[k], w.candidate, w.epoch, electorate);
    assert voters <= all - blocking;
    SubsetSize(voters, all - blocking);
    assert |all - blocking| == |all| - |blocking|;
    assert w in states[k].wins ==> Elected(states[k], w, electorate);
  }

  // ---------------------------------------------------------------- reasons to hold back

  /** A replica does anything at all only for a master that has slots and has failed, or by a manual
      failover, which alone overrides old data and the no-failover option. */
  lemma ActsOnlyFor(n: Node, v: FailoverView)
    requires Failover(n, v) != (n, Idle)
    ensures !n.isMaster && v.hasMaster && v.masterSlots > 0
    ensures v.masterFailed || (v.manualPending && v.manualCanStart)
    ensures v.noFailover || v.dataTooOld ==> v.manualPending && v.manualCanStart
  {}

  /** Twice the node timeout, at least two seconds. */
  function Patience(v: FailoverView): int { if v.nodeTimeout < 1000 then 2000 else 2 * v.nodeTimeout }

  /** When each step is taken, and what it leaves behind. An attempt is given up after the patience,
      and the next one is scheduled after twice of it. */
  lemma StepsInTime(n: Node, v: FailoverView)
    ensures var (n', action) := Failover(n, v); var age := v.now - n.authTime;
      && n'.lastVoteEpoch == n.lastVoteEpoch && n'.known == n.known
      && (action == Scheduled ==>
            && age > 2 * Patience(v) && n'.authCount == 0 && !n'.authSent && n'.authEpoch == n.authEpoch
            && (v.manualPending ==> n'.authTime == v.now && n'.authRank == 0)
            && (!v.manualPending ==> n'.authTime >= v.now + 500 + 1000 * v.rank && n'.authRank == v.rank)
            && (!v.manualPending && v.random500 < 500 ==> n'.authTime < v.now + 1000 + 1000 * v.rank))
      && (action == Requested ==>
            && !n.authSent && n'.authSent && n'.authTime <= v.now && age <= Patience(v)
            && n'.authEpoch == n'.currentEpoch == n.currentEpoch + 1 && n'.authCount == n.authCount)
      && (action == Won ==>
            && n.authSent && 2 * n.authCount > v.size && n'.authTime <= v.now && age <= Patience(v)
            && n'.isMaster && n'.configEpoch == Max(n.configEpoch, n.authEpoch) && n'.currentEpoch == n.currentEpoch)
      && (action == Idle ==> n' == n.(authTime := n'.authTime, authRank := n'.authRank))
      && (action != Scheduled ==>
            && n'.authTime - n.authTime == 1000 * (n'.authRank - n.authRank) && n'.authRank >= n.authRank
            && (n'.authRank != n.authRank ==> n'.authRank == v.rank && !n.authSent && !v.manualPending))
      && (action == Requested && !v.manualPending ==> n'.authRank >= v.rank)
  {}

  /** An acknowledgement is counted if it comes from a known master with slots and is not older than
      the election; nothing but the epochs and the count changes. */
  lemma AckEffect(n: Node, voter: NodeId, epoch: nat, config: nat, isMaster: bool, slots: nat)
    ensures var n' := ReceiveAck(n, voter, epoch, config, isMaster, slots);
      && n' == n.(authCount := n'.authCount, currentEpoch := n'.currentEpoch, known := n'.known)
      && (n'.authCount == n.authCount + 1 || n'.authCount == n.authCount)
      && (n'.authCount > n.authCount <==> voter in n.known && isMaster && slots > 0 && epoch >= n.authEpoch)
      && (voter !in n.known ==> n' == n)
  {}

  /** Of two replicas that schedule an attempt at the same moment the one with newer data asks first. */
  lemma BetterRankFirst(n: Node, v: FailoverView, m: Node, u: FailoverView)
    requires Failover(n, v).1 == Scheduled && Failover(m, u).1 == Scheduled && v.now == u.now
    requires !v.manualPending && !u.manualPending && v.random500 < 500 && v.rank < u.rank
    ensures Failover(n, v).0.authTime < Failover(m, u).0.authTime
  {
    StepsInTime(n, v);
    StepsInTime(m, u);
  }

  /** An attempt goes through: once it is old enough a new one is scheduled, votes are asked for when
      its delay is over, and a majority of them makes the replica a master. */
  lemma AttemptGoesThrough(n: Node, v: FailoverView, u: FailoverView, x: FailoverView, votes: nat)
    requires !n.isMaster && v.hasMaster && v.masterFailed && v.masterSlots > 0
    requires !v.noFailover && !v.dataTooOld && !v.manualPending && v.now - n.authTime > 2 * Patience(v)
    requires v.random500 < 500 && v.now + 1000 + 1000 * v.rank <= u.now <= v.now + 500 + 1000 * v.rank + Patience(v)
    requires u == v.(now := u.now) && x == v.(now := x.now)
    requires u.now <= x.now <= v.now + 500 + 1000 * v.rank + Patience(v) && 2 * votes > x.size
    ensures Failover(n, v).1 == Scheduled
    ensures var n1 := Failover(n, v).0;
      && Failover(n1, u).1 == Requested
      && Failover(Failover(n1, u).0.(authCount := votes), x).1 == Won
  {}

  /** So does a manual failover, at once, also if the master is up, the data old or failover disabled. */
  lemma ManualGoesThrough(n: Node, v: FailoverView, votes: nat)
    requires !n.isMaster && v.hasMaster && v.masterSlots > 0 && v.manualPending && v.manualCanStart
    requires v.now - n.authTime > 2 * Patience(v) && 2 * votes > v.size
    ensures Failover(n, v).1 == Scheduled
    ensures var n1 := Failover(n, v).0;
      && Failover(n1, v).1 == Requested
      && Failover(Failover(n1, v).0.(authCount := votes), v).1 == Won
  {}

  // ---------------------------------------------------------------- the delay in a run

  /** The attempt of replica c was scheduled at time t and is still waited for with this delay. */
  ghost predicate Waits(n: Node, t: int) { n.authTime >= t + 500 + 1000 * n.authRank }

  ghost predicate Schedules(s: Cluster, e: Event, c: NodeId) {
    e.FailoverCron? && e.at == c && c in s.nodes && Failover(s.nodes[c], e.view).1 == Scheduled
  }

  lemma WaitStep(s: Cluster, e: Event, electorate: Electorate, c: NodeId, t: int)
    requires Enabled(s, e, electorate) && c in s.nodes && Waits(s.nodes[c], t) && !Schedules(s, e, c)
    ensures var u := Apply(s, e, electorate); c in u.nodes && Waits(u.nodes[c], t)
    ensures s.nodes[c].authRank <= Apply(s, e, electorate).nodes[c].authRank
  {}

  lemma {:induction false} StillWaits(states: seq<Cluster>, events: seq<Event>, electorate: Electorate, c: NodeId,
                                      i: nat, j: nat)
    requires IsRun(states, events, electorate) && i < j <= |events| && Schedules(states[i], events[i], c)
    requires !events[i].view.manualPending && forall m :: i < m < j ==> !Schedules(states[m], events[m], c)
    ensures c in states[j].nodes && Waits(states[j].nodes[c], events[i].view.now)
    ensures events[i].view.rank <= states[j].nodes[c].authRank
    decreases j - i
  {
    if j == i + 1 {
      StepsInTime(states[i].nodes[c], events[i].view);
    } else {
      StillWaits(states, events, electorate, c, i, j - 1);
      WaitStep(states[j - 1], events[j - 1], electorate, c, events[i].view.now);
    }
  }

  /** In every run a replica asks for votes no sooner than half a second, and one second for every
      replica with newer data, after its attempt was scheduled. */
  lemma AsksAfterDelay(states: seq<Cluster>, events: seq<Event>, electorate: Electorate, c: NodeId, i: nat, j: nat)
    requires IsRun(states, events, electorate) && i < j < |events| && Schedules(states[i], events[i], c)
    requires !events[i].view.manualPending && forall m :: i < m < j ==> !Schedules(states[m], events[m], c)
    requires events[j].FailoverCron? && events[j].at == c
    requires Failover(states[j].nodes[c], events[j].view).1 == Requested
    ensures events[j].view.now >= events[i].view.now + 500 + 1000 * events[i].view.rank
    ensures !events[j].view.manualPending ==>
              events[j].view.now >= events[i].view.now + 500 + 1000 * events[j].view.rank
  {
    StillWaits(states, events, electorate, c, i, j);
  }
}
