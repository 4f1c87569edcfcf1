/**
 Failover elections over the cluster bus, as runs of the handlers in `ClusterNode`.

 A run interleaves packets, votes, acknowledgements and election attempts of any number of
 nodes. Requests may be delivered any number of times and late; acknowledgements may be lost
 or delayed but a link does not duplicate them. The electorate of an epoch (the masters
 serving slots) is fixed for that epoch, and the `size` a candidate uses is its cardinality.
 */
module ClusterElection {
  import opened ClusterNode
  import opened Collections
  import opened Nodes

  type Electorate = nat -> set<NodeId>

  datatype Request = Request(candidate: NodeId, epoch: nat)
  datatype Ballot = Ballot(voter: NodeId, candidate: NodeId, epoch: nat)
  datatype Victory = Victory(candidate: NodeId, epoch: nat)

  /** `votes` and `wins` record what has happened; no handler reads them. */
  datatype Cluster = Cluster(
    nodes: map<NodeId, Node>,
    requests: set<Request>,
    acks: set<Ballot>,         // acknowledgements on their way
    votes: set<Ballot>,
    wins: set<Victory>)

  datatype Event =
    | PingArrives(to: NodeId, ping: Ping)
    | UpdateArrives(to: NodeId, header: Ping, about: NodeId, reported: nat)
    | EpochBumped(at: NodeId)
    | RequestArrives(to: NodeId, request: Request, body: VoteRequest, voterView: VoterView)
    | AckArrives(ack: Ballot, ackConfigEpoch: nat, voterIsMaster: bool, voterSlots: nat)
    | AckLost(ack: Ballot)
    | FailoverCron(at: NodeId, view: FailoverView)

  function AfterUpdate(n: Node, to: NodeId, header: Ping, about: NodeId, reported: nat): Node {
    ReceiveUpdate(SeeHeader(n, header.sender, header.currentEpoch, header.configEpoch), to, header.sender, about,
        reported)
  }

  /** The event can happen, and the electorate assumptions hold of it. */
  ghost predicate Enabled(s: Cluster, e: Event, electorate: Electorate) {
    match e
    case PingArrives(to, _) => to in s.nodes
    case UpdateArrives(to, _, _, _) => to in s.nodes
    case EpochBumped(at) => at in s.nodes
    case RequestArrives(to, r, body, v) =>
      && to in s.nodes && r in s.requests
      && body.epoch == r.epoch && |body.claimed| == |v.slots|
      && (Votes(s.nodes[to], r.candidate, body, v) ==> to in electorate(r.epoch))
    case AckArrives(ack, _, _, _) => ack in s.acks && ack.candidate in s.nodes
    case AckLost(ack) => ack in s.acks
    case FailoverCron(at, v) =>
      && at in s.nodes
      && (Failover(s.nodes[at], v).1 == Won ==> v.size == |electorate(s.nodes[at].authEpoch)|)
  }

  ghost function Apply(s: Cluster, e: Event, electorate: Electorate): Cluster
    requires Enabled(s, e, electorate)
  {
    match e
    case PingArrives(to, p) => s.(nodes := s.nodes[to := ReceivePing(s.nodes[to], to, p)])
    case UpdateArrives(to, header, about, reported) =>
      s.(nodes := s.nodes[to := AfterUpdate(s.nodes[to], to, header, about, reported)])
    case EpochBumped(at) => s.(nodes := s.nodes[at := BumpEpoch(s.nodes[at])])
    case RequestArrives(to, r, body, v) =>
      var n := ReceiveRequest(s.nodes[to], r.candidate, body, v);
      var ballots := if Votes(s.nodes[to], r.candidate, body, v) then {Ballot(to, r.candidate, n.currentEpoch)} else {};
      s.(nodes := s.nodes[to := n], acks := s.acks + ballots, votes := s.votes + ballots)
    case AckArrives(ack, cfg, master, slots) =>
      var n := ReceiveAck(s.nodes[ack.candidate], ack.voter, ack.epoch, cfg, master, slots);
      s.(nodes := s.nodes[ack.candidate := n], acks := s.acks - {ack})
    case AckLost(ack) => s.(acks := s.acks - {ack})
    case FailoverCron(at, v) =>
      var (n, action) := Failover(s.nodes[at], v);
      s.(nodes := s.nodes[at := n],
         requests := s.requests + (if action == Requested then {Request(at, n.authEpoch)} else {}),
         wins := s.wins + (if action == Won then {Victory(at, n.authEpoch)} else {}))
  }

  /** A new election starts although votes have been counted since the attempt was scheduled:
      they answered an attempt that was given up. */
  ghost predicate StartsWithVotes(s: Cluster, e: Event) {
    && e.FailoverCron? && e.at in s.nodes
    && Failover(s.nodes[e.at], e.view).1 == Requested && s.nodes[e.at].authCount > 0
  }

  ghost predicate Init(s: Cluster) {
    && s.requests == {} && s.acks == {} && s.votes == {} && s.wins == {}
    && forall n :: n in s.nodes ==> s.nodes[n].authEpoch == 0 && s.nodes[n].authCount == 0
                                    && !s.nodes[n].authSent && s.nodes[n].lastVoteEpoch == 0
  }

  ghost predicate IsRun(states: seq<Cluster>, events: seq<Event>, electorate: Electorate) {
    && |states| == |events| + 1 && Init(states[0])
    && forall i :: 0 <= i < |events| ==>
         Enabled(states[i], events[i], electorate) && states[i + 1] == Apply(states[i], events[i], electorate)
  }

  // ---------------------------------------------------------------- the invariant

  ghost function VotersFor(s: Cluster, c: NodeId, e: nat, electorate: Electorate): set<NodeId> {
    set v | v in electorate(e) && Ballot(v, c, e) in s.votes
  }

  ghost function PendingFor(s: Cluster, c: NodeId, e: nat, electorate: Electorate): set<NodeId> {
    set v | v in electorate(e) && Ballot(v, c, e) in s.acks
  }

  /** If `c` is running an election, every vote it has counted was cast for it in that election. */
  ghost predicate CountBacked(s: Cluster, c: NodeId, electorate: Electorate)
    requires c in s.nodes
  {
    var n := s.nodes[c];
    n.authSent ==>
      n.authCount + |PendingFor(s, c, n.authEpoch, electorate)| <= |VotersFor(s, c, n.authEpoch, electorate)|
  }

  ghost predicate Elected(s: Cluster, w: Victory, electorate: Electorate) {
    |VotersFor(s, w.candidate, w.epoch, electorate)| >= |electorate(w.epoch)| / 2 + 1
  }

  ghost predicate BallotOk(s: Cluster, b: Ballot, electorate: Electorate) {
    && b.voter in s.nodes && b.voter in electorate(b.epoch)
    && b.epoch <= s.nodes[b.voter].lastVoteEpoch
    && Request(b.candidate, b.epoch) in s.requests
  }

  /** One vote per voter and epoch. */
  ghost predicate OneVoteEach(s: Cluster) {
    forall b, b' :: b in s.votes && b' in s.votes && b.voter == b'.voter && b.epoch == b'.epoch ==> b == b'
  }

  ghost predicate Ledger(s: Cluster, electorate: Electorate) {
    && (forall n :: n in s.nodes ==> s.nodes[n].authEpoch <= s.nodes[n].currentEpoch
                                     && s.nodes[n].lastVoteEpoch <= s.nodes[n].currentEpoch)
    && (forall r :: r in s.requests ==> r.candidate in s.nodes && r.epoch <= s.nodes[r.candidate].authEpoch)
    && (forall b :: b in s.votes ==> BallotOk(s, b, electorate))
    && OneVoteEach(s)
    && s.acks <= s.votes
    && (forall w :: w in s.wins ==> Elected(s, w, electorate))
  }

  ghost predicate Inv(s: Cluster, electorate: Electorate) {
    Ledger(s, electorate) && forall c :: c in s.nodes ==> CountBacked(s, c, electorate)
  }

  // ---------------------------------------------------------------- preservation

  /** A handler that leaves the election bookkeeping of its node alone keeps the invariant. */
  lemma QuietStep(s: Cluster, at: NodeId, n: Node, electorate: Electorate)
    requires Inv(s, electorate) && at in s.nodes
    requires n.currentEpoch >= s.nodes[at].currentEpoch
    requires n.lastVoteEpoch == s.nodes[at].lastVoteEpoch && n.authEpoch == s.nodes[at].authEpoch
    requires n.authCount == s.nodes[at].authCount && n.authSent == s.nodes[at].authSent
    ensures Inv(s.(nodes := s.nodes[at := n]), electorate)
  {
    var t := s.(nodes := s.nodes[at := n]);
    forall b | b in t.votes ensures BallotOk(t, b, electorate) { assert BallotOk(s, b, electorate); }
    forall c | c in t.nodes ensures CountBacked(t, c, electorate) {
      assert CountBacked(s, c, electorate);
      SameVoters(s, t, c, t.nodes[c].authEpoch, electorate);
    }
    forall w | w in t.wins ensures Elected(t, w, electorate) {
      assert Elected(s, w, electorate);
      SameVoters(s, t, w.candidate, w.epoch, electorate);
    }
  }

  lemma SameVoters(s: Cluster, t: Cluster, c: NodeId, e: nat, electorate: Electorate)
    requires t.votes == s.votes
    ensures VotersFor(t, c, e, electorate) == VotersFor(s, c, e, electorate)
    ensures t.acks == s.acks ==> PendingFor(t, c, e, electorate) == PendingFor(s, c, e, electorate)
  {}

  lemma MoreVoters(s: Cluster, t: Cluster, c: NodeId, e: nat, electorate: Electorate)
    requires s.votes <= t.votes
    ensures |VotersFor(s, c, e, electorate)| <= |VotersFor(t, c, e, electorate)|
  {
    SubsetSize(VotersFor(s, c, e, electorate), VotersFor(t, c, e, electorate));
  }

  ghost function WithBallot(s: Cluster, b: Ballot): Cluster
    requires b.voter in s.nodes
  {
    s.(nodes := s.nodes[b.voter := s.nodes[b.voter].(lastVoteEpoch := b.epoch)],
       acks := s.acks + {b}, votes := s.votes + {b})
  }

  /** A voter that has not voted in its current epoch may hand out one ballot of it. */
  ghost predicate Castable(s: Cluster, b: Ballot, electorate: Electorate) {
    && b.voter in s.nodes && b.voter in electorate(b.epoch)
    && b.epoch == s.nodes[b.voter].currentEpoch && b.epoch != s.nodes[b.voter].lastVoteEpoch
    && Request(b.candidate, b.epoch) in s.requests
  }

  /** A new ballot joins the votes and the pending acknowledgements of exactly one election. */
  lemma BallotJoins(s: Cluster, b: Ballot, c: NodeId, e: nat, electorate: Electorate)
    requires b.voter in s.nodes && b.voter in electorate(b.epoch)
    ensures var joined := if c == b.candidate && e == b.epoch then {b.voter} else {};
            && VotersFor(WithBallot(s, b), c, e, electorate) == VotersFor(s, c, e, electorate) + joined
            && PendingFor(WithBallot(s, b), c, e, electorate) == PendingFor(s, c, e, electorate) + joined
  {
    var t := WithBallot(s, b);
    forall v ensures (Ballot(v, c, e) in t.votes <==> Ballot(v, c, e) in s.votes || Ballot(v, c, e) == b)
             ensures (Ballot(v, c, e) in t.acks <==> Ballot(v, c, e) in s.acks || Ballot(v, c, e) == b) {}
  }

  lemma BallotCounts(s: Cluster, b: Ballot, c: NodeId, electorate: Electorate)
    requires b.voter in s.nodes && b.voter in electorate(b.epoch) && b !in s.votes && s.acks <= s.votes
    requires c in s.nodes && CountBacked(s, c, electorate)
    ensures CountBacked(WithBallot(s, b), c, electorate)
  {
    var ep := s.nodes[c].authEpoch;
    BallotJoins(s, b, c, ep, electorate);
    assert c == b.candidate && ep == b.epoch ==> b.voter !in VotersFor(s, c, ep, electorate);
  }

  lemma CastBallot(s: Cluster, b: Ballot, electorate: Electorate)
    requires Inv(s, electorate) && Castable(s, b, electorate)
    ensures Inv(WithBallot(s, b), electorate)
  {
    var t := WithBallot(s, b);
    assert forall x :: x in s.votes ==> BallotOk(s, x, electorate);
    assert forall x :: x in s.votes && x.voter == b.voter ==> x.epoch < b.epoch;
    forall x | x in t.votes ensures BallotOk(t, x, electorate) {
      assert x == b || BallotOk(s, x, electorate);
    }
    forall w | w in t.wins ensures Elected(t, w, electorate) {
      assert Elected(s, w, electorate);
      MoreVoters(s, t, w.candidate, w.epoch, electorate);
    }
    forall c | c in t.nodes ensures CountBacked(t, c, electorate) {
      BallotCounts(s, b, c, electorate);
    }
  }

  lemma VoteStep(s: Cluster, e: Event, electorate: Electorate)
    requires Inv(s, electorate) && Enabled(s, e, electorate) && e.RequestArrives?
    ensures Inv(Apply(s, e, electorate), electorate)
  {
    var n := SeeHeader(s.nodes[e.to], e.request.candidate, e.request.epoch, e.body.configEpoch);
    QuietStep(s, e.to, n, electorate);
    var s1 := s.(nodes := s.nodes[e.to := n]);
    if Votes(s.nodes[e.to], e.request.candidate, e.body, e.voterView) {
      var b := Ballot(e.to, e.request.candidate, n.currentEpoch);
      CastBallot(s1, b, electorate);
      assert Apply(s, e, electorate) == WithBallot(s1, b);
    } else {
      assert Apply(s, e, electorate) == s1;
    }
  }

  /** Removing an acknowledgement from the network leaves fewer votes pending. */
  lemma AckGone(s: Cluster, ack: Ballot, electorate: Electorate)
    requires Inv(s, electorate) && ack in s.acks
    ensures Inv(s.(acks := s.acks - {ack}), electorate)
    ensures var c := ack.candidate;
      c in s.nodes && ack.epoch == s.nodes[c].authEpoch && s.nodes[c].authSent ==>
        s.nodes[c].authCount + 1 + |PendingFor(s.(acks := s.acks - {ack}), c, ack.epoch, electorate)|
        <= |VotersFor(s, c, ack.epoch, electorate)|
  {
    var t := s.(acks := s.acks - {ack});
    forall b | b in t.votes ensures BallotOk(t, b, electorate) { assert BallotOk(s, b, electorate); }
    forall w | w in t.wins ensures Elected(t, w, electorate) {
      assert Elected(s, w, electorate);
      SameVoters(s, t, w.candidate, w.epoch, electorate);
    }
    forall c | c in t.nodes
      ensures CountBacked(t, c, electorate)
      ensures ack.candidate == c && ack.epoch == s.nodes[c].authEpoch && s.nodes[c].authSent ==>
                s.nodes[c].authCount + 1 + |PendingFor(t, c, ack.epoch, electorate)|
                <= |VotersFor(s, c, ack.epoch, electorate)|
    {
      assert CountBacked(s, c, electorate);
      var ep := t.nodes[c].authEpoch;
      SameVoters(s, t, c, ep, electorate);
      SubsetSize(PendingFor(t, c, ep, electorate), PendingFor(s, c, ep, electorate));
      if ack.candidate == c && ack.epoch == ep {
        assert BallotOk(s, ack, electorate);
        assert PendingFor(s, c, ep, electorate) == PendingFor(t, c, ep, electorate) + {ack.voter};
      }
    }
  }

  /** An acknowledgement never carries a later epoch than its candidate's election, so one
      that is counted during an election answers that very election. */
  lemma AckStep(s: Cluster, e: Event, electorate: Electorate)
    requires Inv(s, electorate) && Enabled(s, e, electorate) && e.AckArrives?
    ensures Inv(Apply(s, e, electorate), electorate)
  {
    var c := e.ack.candidate;
    var s1 := s.(acks := s.acks - {e.ack});
    AckGone(s, e.ack, electorate);
    var n := SeeHeader(s.nodes[c], e.ack.voter, e.ack.epoch, e.ackConfigEpoch);
    QuietStep(s1, c, n, electorate);
    var s2 := s1.(nodes := s1.nodes[c := n]);
    var t := Apply(s, e, electorate);
    if e.ack.voter in s.nodes[c].known && CountsAck(n, e.ack.epoch, e.voterIsMaster, e.voterSlots) {
      assert BallotOk(s, e.ack, electorate);
      assert e.ack.epoch == n.authEpoch;
      forall b | b in t.votes ensures BallotOk(t, b, electorate) { assert BallotOk(s2, b, electorate); }
      forall w | w in t.wins ensures Elected(t, w, electorate) {
        assert Elected(s2, w, electorate);
        SameVoters(s2, t, w.candidate, w.epoch, electorate);
      }
      forall d | d in t.nodes ensures CountBacked(t, d, electorate) {
        assert CountBacked(s2, d, electorate);
        SameVoters(s2, t, d, t.nodes[d].authEpoch, electorate);
        SameVoters(s1, t, d, t.nodes[d].authEpoch, electorate);
        SameVoters(s, t, d, t.nodes[d].authEpoch, electorate);
      }
    } else {
      assert t == s2;
    }
  }

  /** Nobody can have voted in the epoch a new election opens. */
  lemma FreshElection(s: Cluster, c: NodeId, epoch: nat, electorate: Electorate)
    requires Ledger(s, electorate) && c in s.nodes && epoch > s.nodes[c].authEpoch
    ensures VotersFor(s, c, epoch, electorate) == {} && PendingFor(s, c, epoch, electorate) == {}
  {
    assert forall b :: b in s.votes ==> BallotOk(s, b, electorate);
    assert forall b :: b in s.votes && b.candidate == c ==> b.epoch <= s.nodes[c].authEpoch;
  }

  lemma FailoverStep(s: Cluster, e: Event, electorate: Electorate)
    requires Inv(s, electorate) && Enabled(s, e, electorate) && e.FailoverCron? && !StartsWithVotes(s, e)
    ensures Inv(Apply(s, e, electorate), electorate)
  {
    var c := e.at;
    var (n, action) := Failover(s.nodes[c], e.view);
    var t := Apply(s, e, electorate);
    assert n.authEpoch >= s.nodes[c].authEpoch;
    assert CountBacked(s, c, electorate);
    forall b | b in t.votes ensures BallotOk(t, b, electorate) { assert BallotOk(s, b, electorate); }
    forall d | d in t.nodes ensures CountBacked(t, d, electorate) {
      assert CountBacked(s, d, electorate);
      SameVoters(s, t, d, t.nodes[d].authEpoch, electorate);
      if d == c && action == Requested {
        FreshElection(s, c, n.authEpoch, electorate);
      }
    }
    forall w | w in t.wins ensures Elected(t, w, electorate) {
      SameVoters(s, t, w.candidate, w.epoch, electorate);
      if w in s.wins { assert Elected(s, w, electorate); }
    }
  }

  lemma Preserved(s: Cluster, e: Event, electorate: Electorate)
    requires Inv(s, electorate) && Enabled(s, e, electorate) && !StartsWithVotes(s, e)
    ensures Inv(Apply(s, e, electorate), electorate)
  {
    match e
    case PingArrives(to, p) => QuietStep(s, to, ReceivePing(s.nodes[to], to, p), electorate);
    case UpdateArrives(to, header, about, reported) =>
      QuietStep(s, to, AfterUpdate(s.nodes[to], to, header, about, reported), electorate);
    case EpochBumped(at) => QuietStep(s, at, BumpEpoch(s.nodes[at]), electorate);
    case RequestArrives(_, _, _, _) => VoteStep(s, e, electorate);
    case AckArrives(_, _, _, _) => AckStep(s, e, electorate);
    case AckLost(ack) => AckGone(s, ack, electorate);
    case FailoverCron(_, _) => FailoverStep(s, e, electorate);
  }

  lemma {:induction false} RunInvariant(states: seq<Cluster>, events: seq<Event>, electorate: Electorate, k: nat)
    requires IsRun(states, events, electorate) && k < |states|
    requires forall i :: 0 <= i < |events| ==> !StartsWithVotes(states[i], events[i])
    ensures Inv(states[k], electorate)
  {
    if k > 0 {
      RunInvariant(states, events, electorate, k - 1);
      Preserved(states[k - 1], events[k - 1], electorate);
    }
  }

  // ---------------------------------------------------------------- main results

  /** Two majorities of one electorate share a voter. */
  lemma MajoritiesMeet(a: set<NodeId>, b: set<NodeId>, all: set<NodeId>) returns (v: NodeId)
    requires a <= all && b <= all
    requires |a| >= |all| / 2 + 1 && |b| >= |all| / 2 + 1
    ensures v in a && v in b
  {
    if a * b == {} {
      assert |a + b| == |a| + |b|;
      SubsetSize(a + b, all);
      assert false;
    }
    v :| v in a * b;
  }

  /** Election safety: as long as no election starts with votes already counted, an epoch has at
      most one winner, in every run. */
  lemma ElectionSafety(states: seq<Cluster>, events: seq<Event>, electorate: Electorate, k: nat, w: Victory,
      w': Victory)
    requires IsRun(states, events, electorate) && k < |states|
    requires forall i :: 0 <= i < |events| ==> !StartsWithVotes(states[i], events[i])
    requires w in states[k].wins && w' in states[k].wins && w.epoch == w'.epoch
    ensures w == w'
  {
    RunInvariant(states, events, electorate, k);
    var s := states[k];
    assert Elected(s, w, electorate) && Elected(s, w', electorate);
    var v := MajoritiesMeet(VotersFor(s, w.candidate, w.epoch, electorate),
                            VotersFor(s, w'.candidate, w.epoch, electorate), electorate(w.epoch));
    assert Ballot(v, w.candidate, w.epoch) in s.votes && Ballot(v, w'.candidate, w.epoch) in s.votes;
  }

  /** The condition is exact: a new election's count is backed by votes of that election if and
      only if it starts at zero. */
  lemma RequestAccounting(s: Cluster, e: Event, electorate: Electorate)
    requires Inv(s, electorate) && Enabled(s, e, electorate) && e.FailoverCron?
    requires Failover(s.nodes[e.at], e.view).1 == Requested
    ensures CountBacked(Apply(s, e, electorate), e.at, electorate) <==> !StartsWithVotes(s, e)
  {
    var t := Apply(s, e, electorate);
    var n := t.nodes[e.at];
    FreshElection(s, e.at, n.authEpoch, electorate);
    SameVoters(s, t, e.at, n.authEpoch, electorate);
  }

  // ---------------------------------------------------------------- the window is real

  ghost predicate Reachable(s: Cluster, electorate: Electorate) {
    exists states, events :: IsRun(states, events, electorate) && states[|events|] == s
  }

  lemma ReachNext(s: Cluster, e: Event, electorate: Electorate) returns (t: Cluster)
    requires Reachable(s, electorate) && Enabled(s, e, electorate)
    ensures Reachable(t, electorate) && t == Apply(s, e, electorate)
  {
    var states, events :| IsRun(states, events, electorate) && states[|events|] == s;
    t := Apply(s, e, electorate);
    assert IsRun(states + [t], events + [e], electorate);
    assert (states + [t])[|events + [e]|] == t;
  }

  /** A node that knows the three others of this cluster and has never voted or run: 1 and 2 are
      masters, 10 and 11 are replicas. */
  function Resting(self: NodeId): Node {
    Node(0, 0, 0, map[1 := 0, 2 := 0, 10 := 0, 11 := 0] - {self}, self < 10, 0, 0, false, 0, 0)
  }

  const THREE: set<NodeId> := {1, 2, 3}

  ghost function Fixed(): Electorate { (e: nat) => THREE }

  function ManualView(now: int): FailoverView {
    FailoverView(now, 1000, 3, true, true, 1, false, false, true, true, 0, 0)
  }

  function WillingVoter(): VoterView { VoterView(1, [], false, true, true, 2000, 1000) }

  /** A known sender that publishes nothing new but its current epoch. */
  lemma OldNews(n: Node, sender: NodeId, epoch: nat)
    requires sender in n.known
    ensures SeeHeader(n, sender, epoch, 0) == n.(currentEpoch := Max(n.currentEpoch, epoch))
  {
    assert n.known[sender := n.known[sender]] == n.known;
  }

  /** Voter `v` grants the request of `c` for `epoch`. */
  lemma OneVote(s: Cluster, v: NodeId, c: NodeId, epoch: nat) returns (t: Cluster)
    requires Reachable(s, Fixed()) && Request(c, epoch) in s.requests
    requires v in THREE && v in s.nodes && s.nodes[v].isMaster
    requires c in s.nodes[v].known && s.nodes[v].currentEpoch <= epoch && s.nodes[v].lastVoteEpoch < epoch
    ensures Reachable(t, Fixed())
    ensures t == s.(nodes := s.nodes[v := s.nodes[v].(currentEpoch := epoch, lastVoteEpoch := epoch)],
                    acks := s.acks + {Ballot(v, c, epoch)}, votes := s.votes + {Ballot(v, c, epoch)})
  {
    OldNews(s.nodes[v], c, epoch);
    t := ReachNext(s, RequestArrives(v, Request(c, epoch), VoteRequest(epoch, 0, [], false), WillingVoter()), Fixed());
  }

  /** Its acknowledgement arrives and is counted. */
  lemma OneAck(s: Cluster, v: NodeId, c: NodeId, epoch: nat) returns (t: Cluster)
    requires Reachable(s, Fixed()) && Ballot(v, c, epoch) in s.acks
    requires c in s.nodes && v in s.nodes[c].known && s.nodes[c].currentEpoch >= epoch >= s.nodes[c].authEpoch
    ensures Reachable(t, Fixed())
    ensures t == s.(nodes := s.nodes[c := s.nodes[c].(authCount := s.nodes[c].authCount + 1)],
                    acks := s.acks - {Ballot(v, c, epoch)})
  {
    OldNews(s.nodes[c], v, epoch);
    t := ReachNext(s, AckArrives(Ballot(v, c, epoch), 0, true, 1), Fixed());
  }

  /** A manual failover attempt that starts at `now`: it is scheduled, then asks for votes. */
  lemma Attempt(s: Cluster, c: NodeId, now: int) returns (t: Cluster)
    requires Reachable(s, Fixed()) && c in s.nodes && !s.nodes[c].isMaster && now - s.nodes[c].authTime > 4000
    ensures Reachable(t, Fixed())
    ensures t == s.(nodes := s.nodes[c := s.nodes[c].(authTime := now, authRank := 0, authCount := 0,
        authSent := false)])
  {
    t := ReachNext(s, FailoverCron(c, ManualView(now)), Fixed());
  }

  lemma Ask(s: Cluster, c: NodeId) returns (t: Cluster)
    requires Reachable(s, Fixed()) && c in s.nodes && !s.nodes[c].isMaster && !s.nodes[c].authSent
    ensures Reachable(t, Fixed())
    ensures var n := s.nodes[c];
            t == s.(nodes := s.nodes[c := n.(currentEpoch := n.currentEpoch + 1, authEpoch := n.currentEpoch + 1,
                authSent := true)],
                    requests := s.requests + {Request(c, n.currentEpoch + 1)})
  {
    t := ReachNext(s, FailoverCron(c, ManualView(s.nodes[c].authTime)), Fixed());
  }

  lemma Win(s: Cluster, c: NodeId) returns (t: Cluster)
    requires Reachable(s, Fixed()) && c in s.nodes && !s.nodes[c].isMaster && s.nodes[c].authSent
        && s.nodes[c].authCount == 2
    ensures Reachable(t, Fixed())
    ensures t == s.(nodes := s.nodes[c := TakeOver(s.nodes[c])], wins := s.wins + {Victory(c, s.nodes[c].authEpoch)})
  {
    assert |Fixed()(s.nodes[c].authEpoch)| == 3;
    t := ReachNext(s, FailoverCron(c, ManualView(s.nodes[c].authTime)), Fixed());
  }

  ghost predicate Start(nodes: map<NodeId, Node>) {
    nodes == map[1 := Resting(1), 2 := Resting(2), 10 := Resting(10), 11 := Resting(11)]
  }

  /** Both voters answer the first attempt of candidate 10. */
  lemma VotesInFlight(s: Cluster) returns (t: Cluster)
    requires Reachable(s, Fixed()) && Start(s.nodes)
    ensures Reachable(t, Fixed()) && Ballot(1, 10, 1) in t.acks && Ballot(2, 10, 1) in t.acks
    ensures t.nodes.Keys == {1, 2, 10, 11} && t.nodes[11] == Resting(11)
    ensures t.nodes[1] == Resting(1).(currentEpoch := 1, lastVoteEpoch := 1)
    ensures t.nodes[2] == Resting(2).(currentEpoch := 1, lastVoteEpoch := 1)
    ensures t.nodes[10] == Resting(10).(currentEpoch := 1, authEpoch := 1, authTime := 10000, authSent := true)
  {
    hide Reachable;
    t := Attempt(s, 10, 10000);
    t := Ask(t, 10);
    t := OneVote(t, 1, 10, 1);
    t := OneVote(t, 2, 10, 1);
  }

  /** Candidate 10 collects the two votes of epoch 1 after it has rescheduled its attempt and
      takes epoch 2 with them. */
  lemma LateVotesWin(s: Cluster) returns (t: Cluster)
    requires Reachable(s, Fixed()) && Start(s.nodes)
    ensures Reachable(t, Fixed()) && Victory(10, 2) in t.wins
    ensures t.nodes.Keys == {1, 2, 10, 11} && t.nodes[11] == Resting(11)
    ensures t.nodes[1] == Resting(1).(currentEpoch := 1, lastVoteEpoch := 1)
    ensures t.nodes[2] == Resting(2).(currentEpoch := 1, lastVoteEpoch := 1)
  {
    hide Reachable;
    t := VotesInFlight(s);
    t := Attempt(t, 10, 20000);
    t := OneAck(t, 1, 10, 1);
    t := OneAck(t, 2, 10, 1);
    t := Ask(t, 10);
    t := Win(t, 10);
  }

  /** Candidate 11 is properly elected by the same two voters in epoch 2. */
  lemma ProperWin(s: Cluster) returns (t: Cluster)
    requires Reachable(s, Fixed()) && s.nodes.Keys == {1, 2, 10, 11} && s.nodes[11] == Resting(11)
    requires s.nodes[1] == Resting(1).(currentEpoch := 1, lastVoteEpoch := 1)
    requires s.nodes[2] == Resting(2).(currentEpoch := 1, lastVoteEpoch := 1)
    ensures Reachable(t, Fixed()) && s.wins <= t.wins && Victory(11, 2) in t.wins
  {
    hide Reachable;
    OldNews(s.nodes[11], 1, 1);
    t := ReachNext(s, PingArrives(11, Ping(1, 1, 0, true)), Fixed());
    t := Attempt(t, 11, 10000);
    t := Ask(t, 11);
    t := OneVote(t, 1, 11, 2);
    t := OneVote(t, 2, 11, 2);
    t := OneAck(t, 1, 11, 2);
    t := OneAck(t, 2, 11, 2);
    t := Win(t, 11);
  }

  /** Without that condition the property fails: candidate 10 takes epoch 2 with votes of epoch 1,
      and candidate 11 is elected in epoch 2. */
  lemma TwoWinnersOfOneEpoch() returns (s: Cluster)
    ensures Reachable(s, Fixed())
    ensures Victory(10, 2) in s.wins && Victory(11, 2) in s.wins
  {
    s := Cluster(map[1 := Resting(1), 2 := Resting(2), 10 := Resting(10), 11 := Resting(11)], {}, {}, {}, {});
    var none: seq<Event> := [];
    assert IsRun([s], none, Fixed()) && [s][|none|] == s;
    s := LateVotesWin(s);
    s := ProperWin(s);
  }
}
