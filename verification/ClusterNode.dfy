/**
 The cluster-bus state of one process: its epochs, its view of the other nodes'
 configuration epochs and the bookkeeping of its own failover election.

 Every handler of `ClusterState` updates the fields in place and is specified by a
 function on the value `Node`; the protocol theorems in `ClusterElection` and
 `EpochCollision` are about those functions.
 */
module ClusterNode {
  import opened Nodes

  datatype Node = Node(
    currentEpoch: nat,
    lastVoteEpoch: nat,
    configEpoch: nat,
    known: map<NodeId, nat>,   // configEpoch recorded for every other node
    isMaster: bool,
    authTime: int,
    authCount: nat,
    authSent: bool,
    authRank: nat,
    authEpoch: nat)

  function Max(a: nat, b: nat): nat { if a < b then b else a }

  // ---------------------------------------------------------------- packet headers

  /** What every packet does before it is looked at: nothing if the sender is unknown. */
  function SeeHeader(n: Node, sender: NodeId, senderCurrent: nat, senderConfig: nat): Node {
    if sender !in n.known then n
    else n.(currentEpoch := Max(n.currentEpoch, senderCurrent),
            known := n.known[sender := Max(n.known[sender], senderConfig)])
  }

  /** A fresh configuration epoch, taken without asking anybody. */
  function BumpEpoch(n: Node): Node {
    n.(currentEpoch := n.currentEpoch + 1, configEpoch := n.currentEpoch + 1)
  }

  /** The greater-named of two colliding masters keeps its epoch, the smaller-named one moves on. */
  predicate MustBump(n: Node, self: NodeId, sender: NodeId, senderIsMaster: bool) {
    sender in n.known && n.known[sender] == n.configEpoch && senderIsMaster && n.isMaster && self < sender
  }

  datatype Ping = Ping(sender: NodeId, currentEpoch: nat, configEpoch: nat, isMaster: bool)

  function ReceivePing(n: Node, self: NodeId, p: Ping): Node {
    var n1 := SeeHeader(n, p.sender, p.currentEpoch, p.configEpoch);
    if n1.isMaster && p.isMaster && p.configEpoch == n1.configEpoch && MustBump(n1, self, p.sender, p.isMaster)
    then BumpEpoch(n1) else n1
  }

  /** An UPDATE packet reports somebody's configuration epoch, possibly the receiver's own. */
  function ReceiveUpdate(n: Node, self: NodeId, sender: NodeId, about: NodeId, reported: nat): Node {
    if sender !in n.known then n
    else if about == self then
      n.(configEpoch := Max(n.configEpoch, reported))
    else if about in n.known && n.known[about] < reported then
      n.(known := n.known[about := reported])
    else n
  }

  // ---------------------------------------------------------------- voting

  /** How the voter sees one slot: nobody claims it, or its owner has this configEpoch. */
  datatype SlotView = Unclaimed | ServedAt(epoch: nat)

  datatype VoteRequest = VoteRequest(
    epoch: nat, configEpoch: nat, claimed: seq<bool>, forceAck: bool)

  /** Everything else the voter looks at before it grants its vote. */
  datatype VoterView = VoterView(
    mySlots: nat, slots: seq<SlotView>,
    candidateIsMaster: bool, candidateMasterKnown: bool, candidateMasterFailed: bool,
    sinceLastVote: int, nodeTimeout: int)

  /** No claimed slot is served by a newer configuration than the requester's. */
  ghost predicate ClaimsUpToDate(r: VoteRequest, slots: seq<SlotView>)
    requires |r.claimed| == |slots|
  {
    forall j :: 0 <= j < |slots| && r.claimed[j] && slots[j].ServedAt? ==> slots[j].epoch <= r.configEpoch
  }

  ghost predicate Grants(n: Node, r: VoteRequest, v: VoterView)
    requires |r.claimed| == |v.slots|
  {
    && n.isMaster && v.mySlots > 0
    && r.epoch >= n.currentEpoch
    && n.lastVoteEpoch != n.currentEpoch
    && !v.candidateIsMaster && v.candidateMasterKnown
    && (v.candidateMasterFailed || r.forceAck)
    && v.sinceLastVote >= v.nodeTimeout * 2
    && ClaimsUpToDate(r, v.slots)
  }

  ghost function AfterVote(n: Node, r: VoteRequest, v: VoterView): Node
    requires |r.claimed| == |v.slots|
  {
    if Grants(n, r, v) then n.(lastVoteEpoch := n.currentEpoch) else n
  }

  /** A request reaches the voter: the header first, then the vote if the candidate is known. */
  ghost predicate Votes(n: Node, candidate: NodeId, r: VoteRequest, v: VoterView)
    requires |r.claimed| == |v.slots|
  {
    candidate in n.known && Grants(SeeHeader(n, candidate, r.epoch, r.configEpoch), r, v)
  }

  ghost function ReceiveRequest(n: Node, candidate: NodeId, r: VoteRequest, v: VoterView): Node
    requires |r.claimed| == |v.slots|
  {
    if candidate in n.known then AfterVote(SeeHeader(n, candidate, r.epoch, r.configEpoch), r, v) else n
  }

  // ---------------------------------------------------------------- counting votes

  predicate CountsAck(n: Node, ackEpoch: nat, senderIsMaster: bool, senderSlots: nat) {
    senderIsMaster && senderSlots > 0 && ackEpoch >= n.authEpoch
  }

  function AfterAck(n: Node, ackEpoch: nat, senderIsMaster: bool, senderSlots: nat): Node {
    if CountsAck(n, ackEpoch, senderIsMaster, senderSlots) then n.(authCount := n.authCount + 1) else n
  }

  function ReceiveAck(n: Node, voter: NodeId, epoch: nat, config: nat, isMaster: bool, slots: nat): Node {
    if voter in n.known then AfterAck(SeeHeader(n, voter, epoch, config), epoch, isMaster, slots) else n
  }

  // ---------------------------------------------------------------- running for election

  /** What a replica reads from clocks, its replication link and its node table. */
  datatype FailoverView = FailoverView(
    now: int, nodeTimeout: int, size: nat,
    hasMaster: bool, masterFailed: bool, masterSlots: nat,
    noFailover: bool, dataTooOld: bool,
    manualPending: bool,       // mf_end != 0
    manualCanStart: bool,      // mf_can_start
    random500: nat, rank: nat)

  datatype FailoverAction = Idle | Scheduled | Requested | Won

  function AuthTimeout(v: FailoverView): int {
    if v.nodeTimeout * 2 < 2000 then 2000 else v.nodeTimeout * 2
  }

  predicate MayFailover(n: Node, v: FailoverView) {
    var manual := v.manualPending && v.manualCanStart;
    && !n.isMaster && v.hasMaster
    && (v.masterFailed || manual)
    && (!v.noFailover || manual)
    && v.masterSlots > 0
    && (!v.dataTooOld || manual)
  }

  /** The election delay grows when better-placed replicas have shown up. */
  function WithNewRank(n: Node, v: FailoverView): Node {
    if !n.authSent && !v.manualPending && v.rank > n.authRank
    then n.(authTime := n.authTime + (v.rank - n.authRank) * 1000, authRank := v.rank)
    else n
  }

  function Reschedule(n: Node, v: FailoverView): Node {
    n.(authTime := if v.manualPending then v.now else v.now + 500 + v.random500 + v.rank * 1000,
       authRank := if v.manualPending then 0 else v.rank,
       authCount := 0, authSent := false)
  }

  function RequestVotes(n: Node): Node {
    n.(currentEpoch := n.currentEpoch + 1, authEpoch := n.currentEpoch + 1, authSent := true)
  }

  function TakeOver(n: Node): Node {
    n.(configEpoch := Max(n.configEpoch, n.authEpoch), isMaster := true)
  }

  function Failover(n: Node, v: FailoverView): (Node, FailoverAction) {
    var age := v.now - n.authTime;
    if !MayFailover(n, v) then (n, Idle)
    else if age > AuthTimeout(v) * 2 then (Reschedule(n, v), Scheduled)
    else
      var n1 := WithNewRank(n, v);
      if v.now < n1.authTime || age > AuthTimeout(v) then (n1, Idle)
      else if !n1.authSent then (RequestVotes(n1), Requested)
      else if n1.authCount >= v.size / 2 + 1 then (TakeOver(n1), Won)
      else (n1, Idle)
  }

  // ---------------------------------------------------------------- the process itself

  class ClusterState {
    const self: NodeId
    var currentEpoch: nat
    var lastVoteEpoch: nat
    var configEpoch: nat
    var known: map<NodeId, nat>
    var isMaster: bool
    var authTime: int
    var authCount: nat
    var authSent: bool
    var authRank: nat
    var authEpoch: nat

    function Value(): Node
      reads this
    {
      Node(currentEpoch, lastVoteEpoch, configEpoch, known, isMaster,
           authTime, authCount, authSent, authRank, authEpoch)
    }

    constructor (self: NodeId, others: set<NodeId>, isMaster: bool)
      ensures this.self == self
      ensures Value() == Node(0, 0, 0, map o | o in others :: 0, isMaster, 0, 0, false, 0, 0)
    {
      this.self := self;
      currentEpoch, lastVoteEpoch, configEpoch := 0, 0, 0;
      known := map o | o in others :: 0;
      this.isMaster := isMaster;
      authTime, authCount, authSent, authRank, authEpoch := 0, 0, false, 0, 0;
    }

    method ProcessHeader(sender: NodeId, senderCurrent: nat, senderConfig: nat)
      modifies this`currentEpoch, this`known
      ensures Value() == SeeHeader(old(Value()), sender, senderCurrent, senderConfig)
    {
      if sender in known {
        if senderCurrent > currentEpoch { currentEpoch := senderCurrent; }
        if senderConfig > known[sender] { known := known[sender := senderConfig]; }
      }
    }

    method HandleConfigEpochCollision(sender: NodeId, senderIsMaster: bool)
      requires sender in known
      modifies this`currentEpoch, this`configEpoch
      ensures Value() == if MustBump(old(Value()), self, sender, senderIsMaster)
                         then BumpEpoch(old(Value())) else old(Value())
    {
      if known[sender] != configEpoch || !senderIsMaster || !isMaster { return; }
      if sender <= self { return; }
      currentEpoch := currentEpoch + 1;
      configEpoch := currentEpoch;
    }

    method ProcessPing(p: Ping)
      modifies this`currentEpoch, this`configEpoch, this`known
      ensures Value() == ReceivePing(old(Value()), self, p)
    {
      ProcessHeader(p.sender, p.currentEpoch, p.configEpoch);
      if p.sender in known && isMaster && p.isMaster && p.configEpoch == configEpoch {
        HandleConfigEpochCollision(p.sender, p.isMaster);
      }
    }

    method ProcessUpdate(sender: NodeId, about: NodeId, reported: nat)
      modifies this`configEpoch, this`known
      ensures Value() == ReceiveUpdate(old(Value()), self, sender, about, reported)
    {
      if sender !in known { return; }
      if about == self {
        if configEpoch >= reported { return; }
        configEpoch := reported;
      } else if about in known {
        if known[about] >= reported { return; }
        known := known[about := reported];
      }
    }

    method SendFailoverAuthIfNeeded(r: VoteRequest, v: VoterView) returns (granted: bool)
      requires |r.claimed| == |v.slots|
      modifies this`lastVoteEpoch
      ensures granted == Grants(old(Value()), r, v)
      ensures Value() == AfterVote(old(Value()), r, v)
    {
      granted := false;
      if !isMaster || v.mySlots == 0 { return; }
      if r.epoch < currentEpoch { return; }
      if lastVoteEpoch == currentEpoch { return; }
      if v.candidateIsMaster || !v.candidateMasterKnown || (!v.candidateMasterFailed && !r.forceAck) { return; }
      if v.sinceLastVote < v.nodeTimeout * 2 { return; }
      var j := 0;
      while j < |v.slots|
        invariant 0 <= j <= |v.slots|
        invariant forall i :: 0 <= i < j && r.claimed[i] && v.slots[i].ServedAt? ==> v.slots[i].epoch <= r.configEpoch
      {
        if r.claimed[j] {
          if v.slots[j].ServedAt? && v.slots[j].epoch > r.configEpoch { return; }
        }
        j := j + 1;
      }
      lastVoteEpoch := currentEpoch;
      granted := true;
    }

    /** A vote request packet. */
    method ProcessAuthRequest(candidate: NodeId, r: VoteRequest, v: VoterView) returns (granted: bool)
      requires |r.claimed| == |v.slots|
      modifies this`currentEpoch, this`known, this`lastVoteEpoch
      ensures granted == Votes(old(Value()), candidate, r, v)
      ensures Value() == ReceiveRequest(old(Value()), candidate, r, v)
    {
      ProcessHeader(candidate, r.epoch, r.configEpoch);
      if candidate !in known { return false; }
      granted := SendFailoverAuthIfNeeded(r, v);
    }

    /** An acknowledgement packet. */
    method ProcessAuthAck(sender: NodeId, ackEpoch: nat, senderConfig: nat, senderIsMaster: bool, senderSlots: nat)
      modifies this`currentEpoch, this`known, this`authCount
      ensures Value() == ReceiveAck(old(Value()), sender, ackEpoch, senderConfig, senderIsMaster, senderSlots)
    {
      ProcessHeader(sender, ackEpoch, senderConfig);
      if sender !in known { return; }
      if senderIsMaster && senderSlots > 0 && ackEpoch >= authEpoch {
        authCount := authCount + 1;
      }
    }

    method HandleSlaveFailover(v: FailoverView) returns (action: FailoverAction)
      modifies this
      ensures (Value(), action) == Failover(old(Value()), v)
    {
      action := Idle;
      var authAge := v.now - authTime;
      var neededQuorum := v.size / 2 + 1;
      var manual := v.manualPending && v.manualCanStart;
      var authTimeout := v.nodeTimeout * 2;
      if authTimeout < 2000 { authTimeout := 2000; }
      var authRetryTime := authTimeout * 2;

      if isMaster || !v.hasMaster || (!v.masterFailed && !manual) || (v.noFailover && !manual) || v.masterSlots == 0 {
        return;
      }
      if v.dataTooOld && !manual { return; }

      if authAge > authRetryTime {
        authTime := v.now + 500 + v.random500;
        authCount := 0;
        authSent := false;
        authRank := v.rank;
        authTime := authTime + authRank * 1000;
        if v.manualPending {
          authTime := v.now;
          authRank := 0;
        }
        return Scheduled;
      }
      if !authSent && !v.manualPending {
        if v.rank > authRank {
          authTime := authTime + (v.rank - authRank) * 1000;
          authRank := v.rank;
        }
      }
      if v.now < authTime { return; }
      if authAge > authTimeout { return; }
      if !authSent {
        currentEpoch := currentEpoch + 1;
        authEpoch := currentEpoch;
        authSent := true;
        return Requested;
      }
      if authCount >= neededQuorum {
        if configEpoch < authEpoch { configEpoch := authEpoch; }
        isMaster := true;
        return Won;
      }
    }
  }
}
