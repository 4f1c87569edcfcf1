/**
 The hash-slot table of one cluster node. Ownership is stored twice: an array from slots to
 nodes, and for every node a bitmap of its slots with a counter. `Valid` says that the two
 agree; every operation keeps it.
 */
module SlotTable {
  import opened Bitmap
  import opened Nodes
  import opened Wrappers

  type Owners = seq<Option<NodeId>>

  ghost function CountOwned(owners: Owners, n: NodeId): nat {
    if owners == [] then 0
    else CountOwned(owners[..|owners| - 1], n) + (if owners[|owners| - 1] == Some(n) then 1 else 0)
  }

  lemma {:induction false} CountUpdate(owners: Owners, j: nat, o: Option<NodeId>, n: NodeId)
    requires j < |owners|
    ensures CountOwned(owners[j := o], n)
         == CountOwned(owners, n) - (if owners[j] == Some(n) then 1 else 0) + (if o == Some(n) then 1 else 0)
  {
    var k := |owners| - 1;
    if j == k {
      assert owners[j := o][..k] == owners[..k];
    } else {
      assert owners[j := o][..k] == owners[..k][j := o];
      CountUpdate(owners[..k], j, o, n);
    }
  }

  /** Node n's bitmap and counter say what the owner array says. */
  ghost predicate NodeAgrees(owners: Owners, bits: seq<bv8>, count: nat, n: NodeId) {
    && 8 * |bits| == |owners|
    && (forall j :: 0 <= j < |owners| ==> (TestBit(bits, j) <==> owners[j] == Some(n)))
    && count == CountOwned(owners, n)
  }

  ghost predicate Agrees(owners: Owners, bitmap: map<NodeId, seq<bv8>>, numslots: map<NodeId, nat>) {
    && bitmap.Keys == numslots.Keys
    && (forall j :: 0 <= j < |owners| && owners[j].Some? ==> owners[j].value in bitmap)
    && (forall n {:trigger NodeAgrees(owners, bitmap[n], numslots[n], n)} ::
          n in bitmap && n in numslots ==> NodeAgrees(owners, bitmap[n], numslots[n], n))
  }

  lemma AddAgrees(owners: Owners, bits: seq<bv8>, count: nat, m: NodeId, n: NodeId, j: nat)
    requires NodeAgrees(owners, bits, count, m) && j < |owners| && owners[j] == None
    ensures if m == n then NodeAgrees(owners[j := Some(n)], SetBit(bits, j), count + 1, m)
            else NodeAgrees(owners[j := Some(n)], bits, count, m)
  {
    CountUpdate(owners, j, Some(n), m);
  }

  lemma DelAgrees(owners: Owners, bits: seq<bv8>, count: nat, m: NodeId, j: nat)
    requires NodeAgrees(owners, bits, count, m) && j < |owners| && owners[j].Some?
    ensures if owners[j] == Some(m) then count > 0 && NodeAgrees(owners[j := None], ClearBit(bits, j), count - 1, m)
            else NodeAgrees(owners[j := None], bits, count, m)
  {
    CountUpdate(owners, j, None, m);
  }

  // ---------------------------------------------------------------- what a claim does to one slot

  /** The slot has no owner, or its owner no longer claims it. */
  predicate Unclaimed(owner: Option<NodeId>, notClaiming: bool) { owner.None? || notClaiming }

  predicate Rebinds(owner: Option<NodeId>, notClaiming: bool, ownerEpoch: nat, importing: bool,
                    sender: NodeId, senderEpoch: nat, claimed: bool) {
    claimed && owner != Some(sender) && !importing && (Unclaimed(owner, notClaiming) || ownerEpoch < senderEpoch)
  }

  function ClaimBit(owner: Option<NodeId>, notClaiming: bool, ownerEpoch: nat, importing: bool,
                    sender: NodeId, senderEpoch: nat, claimed: bool): bool {
    if claimed then
      notClaiming && owner != Some(sender) && !Rebinds(owner, notClaiming, ownerEpoch, importing, sender, senderEpoch,
          claimed)
    else notClaiming || owner == Some(sender)
  }

  /** The table without its redundancy: what one node believes about every slot. */
  datatype View = View(owner: Owners, disowned: seq<bool>, importing: seq<bool>, epoch: map<NodeId, nat>)

  datatype Claim = Claim(sender: NodeId, epoch: nat, slots: seq<bool>)

  predicate Fits(v: View, c: Claim) {
    |v.owner| == |v.disowned| == |v.importing| == |c.slots| && c.sender in v.epoch
  }

  function OwnerEpoch(v: View, o: Option<NodeId>): nat {
    if o.Some? && o.value in v.epoch then v.epoch[o.value] else 0
  }

  predicate Moves(v: View, c: Claim, j: nat)
    requires Fits(v, c) && j < |v.owner|
  {
    Rebinds(v.owner[j], v.disowned[j], OwnerEpoch(v, v.owner[j]), v.importing[j], c.sender, c.epoch, c.slots[j])
  }

  /** Every slot looked at once. */
  function UpdateWith(v: View, c: Claim): View
    requires Fits(v, c)
  {
    v.(owner := seq(|v.owner|, j requires 0 <= j < |v.owner| => if Moves(v, c, j) then Some(c.sender) else v.owner[j]),
       disowned := seq(|v.owner|, j requires 0 <= j < |v.owner| =>
         ClaimBit(v.owner[j], v.disowned[j], OwnerEpoch(v, v.owner[j]), v.importing[j], c.sender, c.epoch, c.slots[j])))
  }

  predicate Differs(v: View, c: Claim)
    requires Fits(v, c)
  {
    exists j :: 0 <= j < |v.owner| && (v.owner[j] == Some(c.sender)) != c.slots[j]
  }

  function SeeEpoch(v: View, c: Claim): View
    requires c.sender in v.epoch
  {
    if v.epoch[c.sender] < c.epoch then v.(epoch := v.epoch[c.sender := c.epoch]) else v
  }

  /** A ping of a master: its epoch is noted; its claim is looked at only if it is news. */
  function Receive(v: View, c: Claim): View
    requires Fits(v, c)
  {
    var v1 := SeeEpoch(v, c);
    if Differs(v1, c) then UpdateWith(v1, c) else v1
  }

  class ClusterSlots {
    const myself: NodeId
    const slots: array<Option<NodeId>>
    var bitmap: map<NodeId, seq<bv8>>
    var numslots: map<NodeId, nat>
    var notClaiming: seq<bv8>
    var importing: seq<bool>
    var epoch: map<NodeId, nat>         // configEpoch of every known node

    ghost predicate Valid()
      reads this, slots
    {
      && 8 * |notClaiming| == slots.Length == |importing|
      && bitmap.Keys <= epoch.Keys
      && Agrees(slots[..], bitmap, numslots)
    }

    constructor (myself: NodeId, nodes: set<NodeId>, bytes: nat)
      ensures Valid() && this.myself == myself && fresh(slots)
      ensures slots.Length == 8 * bytes && forall j :: 0 <= j < slots.Length ==> slots[j] == None
      ensures bitmap.Keys == nodes
    {
      this.myself := myself;
      slots := new Option<NodeId>[8 * bytes](_ => None);
      bitmap := map n | n in nodes :: seq(bytes, _ => 0 as bv8);
      numslots := map n | n in nodes :: 0;
      notClaiming := seq(bytes, _ => 0 as bv8);
      importing := seq(8 * bytes, _ => false);
      epoch := map n | n in nodes :: 0;
      new;
      forall n | n in nodes ensures NodeAgrees(slots[..], bitmap[n], 0, n) {
        OwnsNone(slots[..], n);
      }
    }

    /** Binds a free slot; a slot that has an owner is left alone. */
    method AddSlot(n: NodeId, slot: nat) returns (ok: bool)
      requires Valid() && n in bitmap && slot < slots.Length
      modifies this`bitmap, this`numslots, slots
      ensures Valid() && bitmap.Keys == old(bitmap.Keys)
      ensures ok == old(slots[slot].None?)
      ensures slots[..] == if ok then old(slots[..])[slot := Some(n)] else old(slots[..])
    {
      if slots[slot].Some? { return false; }
      ghost var owners := slots[..];
      ghost var was, counts := bitmap, numslots;
      assert NodeAgrees(owners, was[n], counts[n], n);
      var old1 := TestBit(bitmap[n], slot);
      bitmap := bitmap[n := SetBit(bitmap[n], slot)];
      if !old1 { numslots := numslots[n := numslots[n] + 1]; }
      slots[slot] := Some(n);
      assert slots[..] == owners[slot := Some(n)];
      forall m | m in bitmap && m in numslots ensures NodeAgrees(slots[..], bitmap[m], numslots[m], m) {
        assert NodeAgrees(owners, was[m], counts[m], m);
        AddAgrees(owners, was[m], counts[m], m, n, slot);
      }
      return true;
    }

    /** Frees a slot. The bit of its owner is set in every valid table, so the assertion holds. */
    method DelSlot(slot: nat) returns (ok: bool)
      requires Valid() && slot < slots.Length
      modifies this`bitmap, this`numslots, slots
      ensures Valid() && bitmap.Keys == old(bitmap.Keys)
      ensures ok == old(slots[slot].Some?)
      ensures slots[..] == old(slots[..])[slot := None]
    {
      if slots[slot].None? {
        assert slots[..] == old(slots[..])[slot := None];
        return false;
      }
      var n := slots[slot].value;
      ghost var owners := slots[..];
      ghost var was, counts := bitmap, numslots;
      assert NodeAgrees(owners, was[n], counts[n], n);
      var old1 := TestBit(bitmap[n], slot);
      assert old1;                              // serverAssert(clusterNodeClearSlotBit(n,slot) == 1)
      DelAgrees(owners, was[n], counts[n], n, slot);
      bitmap := bitmap[n := ClearBit(bitmap[n], slot)];
      if old1 { numslots := numslots[n := numslots[n] - 1]; }
      slots[slot] := None;
      assert slots[..] == owners[slot := None];
      forall m | m in bitmap && m in numslots ensures NodeAgrees(slots[..], bitmap[m], numslots[m], m) {
        assert NodeAgrees(owners, was[m], counts[m], m);
        DelAgrees(owners, was[m], counts[m], m, slot);
      }
      return true;
    }

    method GetSlotBit(n: NodeId, slot: nat) returns (bit: bool)
      requires Valid() && n in bitmap && slot < slots.Length
      ensures bit <==> slots[slot] == Some(n)
    {
      assert NodeAgrees(slots[..], bitmap[n], numslots[n], n);
      bit := TestBit(bitmap[n], slot);
      assert slots[..][slot] == slots[slot];
    }

    method DelNodeSlots(n: NodeId) returns (deleted: nat)
      requires Valid() && n in bitmap
      modifies this`bitmap, this`numslots, slots
      ensures Valid() && bitmap.Keys == old(bitmap.Keys)
      ensures slots[..] == Handed(old(slots[..]), n, None, slots.Length)
      ensures deleted == old(numslots[n]) && numslots[n] == 0
    {
      deleted := 0;
      ghost var owners := slots[..];
      CounterExact(n);
      var j := 0;
      HandedStart(owners, n, None);
      while j < slots.Length
        invariant 0 <= j <= slots.Length && Valid() && bitmap.Keys == old(bitmap.Keys)
        invariant slots[..] == Handed(owners, n, None, j)
        invariant deleted == CountOwned(owners[..j], n)
      {
        CountPrefix(owners, n, j);
        HandedStep(owners, n, None, j);
        var mine := GetSlotBit(n, j);
        if mine {
          var _ := DelSlot(j);
          deleted := deleted + 1;
        }
        j := j + 1;
      }
      assert owners[..slots.Length] == owners;
      HandedNone(owners, n);
      CounterExact(n);
    }

    lemma CounterExact(n: NodeId)
      requires Valid() && n in bitmap
      ensures numslots[n] == CountOwned(slots[..], n)
    {
      assert NodeAgrees(slots[..], bitmap[n], numslots[n], n);
    }

    function EpochOf(o: Option<NodeId>): nat
      reads this`epoch
    {
      if o.Some? && o.value in epoch then epoch[o.value] else 0
    }

    ghost predicate RebindsAt(j: nat, sender: NodeId, senderEpoch: nat, claimed: bool)
      requires Valid() && j < slots.Length
      reads this, slots
    {
      Rebinds(slots[j], TestBit(notClaiming, j), EpochOf(slots[j]), importing[j], sender, senderEpoch, claimed)
    }

    ghost predicate DisownedAfter(j: nat, sender: NodeId, senderEpoch: nat, claimed: bool)
      requires Valid() && j < slots.Length
      reads this, slots
    {
      ClaimBit(slots[j], TestBit(notClaiming, j), EpochOf(slots[j]), importing[j], sender, senderEpoch, claimed)
    }

    /** One slot of a claim: bind it, remember that its owner dropped it, or leave it alone. */
    method ClaimSlot(j: nat, sender: NodeId, senderEpoch: nat, claimed: bool)
      requires Valid() && sender in bitmap && j < slots.Length
      modifies this`bitmap, this`numslots, this`notClaiming, slots
      ensures Valid() && bitmap.Keys == old(bitmap.Keys)
      ensures slots[..] == if old(RebindsAt(j, sender, senderEpoch, claimed)) then old(slots[..])[j := Some(sender)]
          else old(slots[..])
      ensures forall k :: 0 <= k < slots.Length ==>
                TestBit(notClaiming, k) == if k == j then old(DisownedAfter(j, sender, senderEpoch, claimed))
                    else old(TestBit(notClaiming, k))
    {
      if claimed {
        if slots[j] == Some(sender) {
          notClaiming := ClearBit(notClaiming, j);
          return;
        }
        if importing[j] { return; }
        if Unclaimed(slots[j], TestBit(notClaiming, j)) || EpochOf(slots[j]) < senderEpoch {
          var _ := DelSlot(j);
          var _ := AddSlot(sender, j);
          notClaiming := ClearBit(notClaiming, j);
        }
      } else if slots[j] == Some(sender) {
        notClaiming := SetBit(notClaiming, j);
      }
    }

    /** Node `sender` claims slots: every claimed slot that is free, disowned or bound to an older
        configuration moves to it. Returns the slots this node has lost while still holding keys. */
    method UpdateSlotsConfigWith(sender: NodeId, senderEpoch: nat, claimed: seq<bv8>, keys: seq<nat>)
        returns (dirty: seq<nat>)
      requires Valid() && sender in bitmap && 8 * |claimed| == slots.Length == |keys|
      modifies this`bitmap, this`numslots, this`notClaiming, slots
      ensures Valid() && bitmap.Keys == old(bitmap.Keys)
      ensures sender == myself ==> slots[..] == old(slots[..]) && notClaiming == old(notClaiming) && dirty == []
      ensures sender != myself ==> forall j :: 0 <= j < slots.Length ==>
                && slots[j] == (if old(RebindsAt(j, sender, senderEpoch, TestBit(claimed, j))) then Some(sender)
                    else old(slots[j]))
                && TestBit(notClaiming, j) == old(DisownedAfter(j, sender, senderEpoch, TestBit(claimed, j)))
      ensures sender != myself ==> forall j :: j in dirty <==>
                0 <= j < slots.Length && old(slots[j]) == Some(myself) && slots[j] != Some(myself) && keys[j] > 0
      ensures forall a, b :: 0 <= a < b < |dirty| ==> dirty[a] < dirty[b]
    {
      dirty := [];
      if sender == myself { return; }
      var j := 0;
      while j < slots.Length
        invariant 0 <= j <= slots.Length && Valid() && bitmap.Keys == old(bitmap.Keys)
        invariant forall k :: j <= k < slots.Length ==>
            slots[k] == old(slots[k]) && TestBit(notClaiming, k) == old(TestBit(notClaiming, k))
        invariant forall k :: 0 <= k < j ==>
          && slots[k] == (if old(RebindsAt(k, sender, senderEpoch, TestBit(claimed, k))) then Some(sender)
              else old(slots[k]))
          && TestBit(notClaiming, k) == old(DisownedAfter(k, sender, senderEpoch, TestBit(claimed, k)))
        invariant forall k :: k in dirty <==>
            0 <= k < j && old(slots[k]) == Some(myself) && slots[k] != Some(myself) && keys[k] > 0
        invariant forall a :: 0 <= a < |dirty| ==> dirty[a] < j
        invariant forall a, b :: 0 <= a < b < |dirty| ==> dirty[a] < dirty[b]
      {
        var mine := slots[j] == Some(myself);
        label before:
        ClaimSlot(j, sender, senderEpoch, TestBit(claimed, j));
        assert slots[..][j] == slots[j] && forall k :: 0 <= k < slots.Length && k != j ==>
            slots[..][k] == old@before(slots[..])[k];
        if mine && slots[j] != Some(myself) && keys[j] > 0 { dirty := dirty + [j]; }
        j := j + 1;
      }
    }

    ghost function Seen(): View
      requires Valid()
      reads this, slots
    {
      View(slots[..], Bools(notClaiming), importing, epoch)
    }

    /** The slot part of processing a ping from another master. */
    method ProcessClaim(sender: NodeId, senderEpoch: nat, claimed: seq<bv8>, keys: seq<nat>) returns (dirty: seq<nat>)
      requires Valid() && sender in bitmap && sender != myself && 8 * |claimed| == slots.Length == |keys|
      modifies this`bitmap, this`numslots, this`notClaiming, this`epoch, slots
      ensures Valid() && bitmap.Keys == old(bitmap.Keys)
      ensures Seen() == Receive(old(Seen()), Claim(sender, senderEpoch, Bools(claimed)))
    {
      ghost var c := Claim(sender, senderEpoch, Bools(claimed));
      dirty := [];
      if senderEpoch > epoch[sender] { epoch := epoch[sender := senderEpoch]; }
      ghost var v := Seen();
      assert v == SeeEpoch(old(Seen()), c);
      DiffersIffBytesDiffer(sender, senderEpoch, claimed);
      if bitmap[sender] != claimed {
        dirty := UpdateSlotsConfigWith(sender, senderEpoch, claimed, keys);
        assert Seen().owner == UpdateWith(v, c).owner;
        assert Seen().disowned == UpdateWith(v, c).disowned;
      }
    }

    /** Comparing the stored bitmap of a node with its claim compares the owner array with it. */
    lemma DiffersIffBytesDiffer(sender: NodeId, senderEpoch: nat, claimed: seq<bv8>)
      requires Valid() && sender in bitmap && 8 * |claimed| == slots.Length
      ensures bitmap[sender] != claimed <==> Differs(Seen(), Claim(sender, senderEpoch, Bools(claimed)))
    {
      assert NodeAgrees(slots[..], bitmap[sender], numslots[sender], sender);
      if !Differs(Seen(), Claim(sender, senderEpoch, Bools(claimed))) { SameBits(bitmap[sender], claimed); }
    }

    /** A replica that has won its election takes over every slot of its old master. */
    method FailoverReplaceYourMaster(oldMaster: NodeId)
      requires Valid() && oldMaster in bitmap && myself in bitmap && oldMaster != myself
      modifies this`bitmap, this`numslots, slots
      ensures Valid() && bitmap.Keys == old(bitmap.Keys)
      ensures slots[..] == Handed(old(slots[..]), oldMaster, Some(myself), slots.Length)
    {
      ghost var owners := slots[..];
      var j := 0;
      HandedStart(owners, oldMaster, Some(myself));
      while j < slots.Length
        invariant 0 <= j <= slots.Length && Valid() && bitmap.Keys == old(bitmap.Keys)
        invariant slots[..] == Handed(owners, oldMaster, Some(myself), j)
      {
        HandedStep(owners, oldMaster, Some(myself), j);
        var his := GetSlotBit(oldMaster, j);
        if his {
          var _ := DelSlot(j);
          var _ := AddSlot(myself, j);
        }
        j := j + 1;
      }
    }
  }

  ghost function Bools(bitmap: seq<bv8>): (r: seq<bool>)
    ensures |r| == 8 * |bitmap| && forall j :: 0 <= j < |r| ==> r[j] == TestBit(bitmap, j)
  {
    seq(8 * |bitmap|, j requires 0 <= j < 8 * |bitmap| => TestBit(bitmap, j))
  }

  /** The table after the slots of `from` below `j` have been handed to `to`. */
  ghost function Handed(owners: Owners, from: NodeId, to: Option<NodeId>, j: nat): (r: Owners)
    requires j <= |owners|
    ensures |r| == |owners|
    ensures forall k :: 0 <= k < |owners| ==> r[k] == if k < j && owners[k] == Some(from) then to else owners[k]
  {
    seq(|owners|, k requires 0 <= k < |owners| => if k < j && owners[k] == Some(from) then to else owners[k])
  }

  lemma HandedNone(owners: Owners, n: NodeId)
    ensures CountOwned(Handed(owners, n, None, |owners|), n) == 0
  {
    OwnsNone(Handed(owners, n, None, |owners|), n);
  }

  lemma CountPrefix(owners: Owners, n: NodeId, j: nat)
    requires j < |owners|
    ensures CountOwned(owners[..j + 1], n) == CountOwned(owners[..j], n) + (if owners[j] == Some(n) then 1 else 0)
  {
    assert owners[..j + 1][..j] == owners[..j];
  }

  lemma HandedStart(owners: Owners, from: NodeId, to: Option<NodeId>)
    ensures Handed(owners, from, to, 0) == owners
  {}

  lemma HandedStep(owners: Owners, from: NodeId, to: Option<NodeId>, j: nat)
    requires j < |owners|
    ensures Handed(owners, from, to, j)[j] == owners[j]
    ensures Handed(owners, from, to, j + 1)
         == if owners[j] == Some(from) then Handed(owners, from, to, j)[j := to] else Handed(owners, from, to, j)
  {}

  lemma {:induction false} OwnsNone(owners: Owners, n: NodeId)
    requires forall j :: 0 <= j < |owners| ==> owners[j] != Some(n)
    ensures CountOwned(owners, n) == 0
  {
    if owners != [] { OwnsNone(owners[..|owners| - 1], n); }
  }

}
