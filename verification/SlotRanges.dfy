/**
 Saving the slot table as ranges. One pass over the table collects the ranges of all nodes; the
 older code scans the table once per node; loading a configuration file expands the ranges.
 */
module SlotRanges {
  import opened Collections
  import opened Nodes
  import opened SlotTable
  import opened Wrappers

  datatype Range = Range(first: nat, last: nat)

  /** The maximal runs of slots of node n, in order. */
  ghost function Runs(owners: Owners, n: NodeId): seq<Range> {
    if owners == [] then []
    else
      var k := |owners| - 1;
      var rs := Runs(owners[..k], n);
      if owners[k] != Some(n) then rs
      else if rs != [] && rs[|rs| - 1].last + 1 == k then rs[..|rs| - 1] + [Range(rs[|rs| - 1].first, k)]
      else rs + [Range(k, k)]
  }

  ghost predicate Covered(rs: seq<Range>, j: nat) {
    exists i :: 0 <= i < |rs| && rs[i].first <= j <= rs[i].last
  }

  /** Ranges are non-empty, below `limit`, and separated by at least one foreign slot. */
  ghost predicate Separated(rs: seq<Range>, limit: nat) {
    && (forall i :: 0 <= i < |rs| ==> rs[i].first <= rs[i].last < limit)
    && (forall i, k :: 0 <= i < k < |rs| ==> rs[i].last + 1 < rs[k].first)
  }

  lemma {:induction false} RunsSeparated(owners: Owners, n: NodeId)
    ensures Separated(Runs(owners, n), |owners|)
  {
    if owners != [] { RunsSeparated(owners[..|owners| - 1], n); }
  }

  /** The ranges of a node cover its slots and nothing else. */
  lemma {:induction false} RunsCover(owners: Owners, n: NodeId, j: nat)
    ensures Covered(Runs(owners, n), j) <==> j < |owners| && owners[j] == Some(n)
  {
    if owners != [] {
      var k := |owners| - 1;
      var before, rs := Runs(owners[..k], n), Runs(owners, n);
      RunsSeparated(owners[..k], n);
      RunsCover(owners[..k], n, j);
      if owners[k] == Some(n) {
        if before != [] && before[|before| - 1].last + 1 == k {
          ExtendCover(before, k, j);
        } else {
          AppendCover(before, Range(k, k), j);
        }
      }
    }
  }

  ghost function Firsts(rs: seq<Range>): set<nat> { set i | 0 <= i < |rs| :: rs[i].first }

  lemma {:induction false} FirstsAtMost(rs: seq<Range>)
    ensures |Firsts(rs)| <= |rs|
  {
    if rs != [] {
      var k := |rs| - 1;
      FirstsAtMost(rs[..k]);
      assert Firsts(rs) == Firsts(rs[..k]) + {rs[k].first};
      UnionSize(Firsts(rs[..k]), {rs[k].first});
    }
  }

  lemma {:induction false} FirstsDiffer(rs: seq<Range>, limit: nat)
    requires Separated(rs, limit)
    ensures |Firsts(rs)| == |rs|
  {
    if rs != [] {
      var k := |rs| - 1;
      FirstsDiffer(rs[..k], limit);
      assert Firsts(rs) == Firsts(rs[..k]) + {rs[k].first};
      forall x | x in Firsts(rs[..k]) ensures x < rs[k].first {
        var i :| 0 <= i < k && rs[i].first == x;
        assert rs[i].last + 1 < rs[k].first;
      }
    }
  }

  /** The ranges are as few as can be: every list of ranges that covers the slots of the node and
      no others is at least as long. */
  lemma RunsFewest(owners: Owners, n: NodeId, other: seq<Range>)
    requires forall j: nat :: Covered(other, j) <==> j < |owners| && owners[j] == Some(n)
    ensures |Runs(owners, n)| <= |other|
  {
    hide Runs;
    var rs := Runs(owners, n);
    RunsSeparated(owners, n);
    forall x | x in Firsts(rs) ensures x in Firsts(other) {
      var i :| 0 <= i < |rs| && rs[i].first == x;
      RunStarts(owners, n, i);
      assert Covered(other, x) && (x > 0 ==> !Covered(other, x - 1));
      var k :| 0 <= k < |other| && other[k].first <= x <= other[k].last;
      assert other[k].first == x;
    }
    FirstsDiffer(rs, |owners|);
    FirstsAtMost(other);
    SubsetSize(Firsts(rs), Firsts(other));
  }

  /** A range starts at a slot of the node, and the slot before is not one. */
  lemma RunStarts(owners: Owners, n: NodeId, i: nat)
    requires i < |Runs(owners, n)|
    ensures var x := Runs(owners, n)[i].first;
        x < |owners| && owners[x] == Some(n) && (x > 0 ==> owners[x - 1] != Some(n))
  {
    hide Runs;
    var rs := Runs(owners, n);
    var x := rs[i].first;
    RunsSeparated(owners, n);
    assert Covered(rs, x);
    RunsCover(owners, n, x);
    if x > 0 {
      RunsCover(owners, n, x - 1);
      assert forall k :: 0 <= k < |rs| && k != i ==> rs[k].last + 1 < x || x < rs[k].first;
      assert !Covered(rs, x - 1);
    }
  }

  lemma AppendCover(rs: seq<Range>, r: Range, j: nat)
    ensures Covered(rs + [r], j) <==> Covered(rs, j) || r.first <= j <= r.last
  {
    if Covered(rs, j) {
      var i :| 0 <= i < |rs| && rs[i].first <= j <= rs[i].last;
      assert (rs + [r])[i] == rs[i];
    }
    if r.first <= j <= r.last { assert (rs + [r])[|rs|] == r; }
    if Covered(rs + [r], j) {
      var i :| 0 <= i < |rs + [r]| && (rs + [r])[i].first <= j <= (rs + [r])[i].last;
      assert i < |rs| ==> rs[i] == (rs + [r])[i];
    }
  }

  lemma ExtendCover(rs: seq<Range>, k: nat, j: nat)
    requires rs != [] && rs[|rs| - 1].first <= rs[|rs| - 1].last && rs[|rs| - 1].last + 1 == k
    ensures Covered(rs[..|rs| - 1] + [Range(rs[|rs| - 1].first, k)], j) <==> Covered(rs, j) || j == k
  {
    var front, r := rs[..|rs| - 1], rs[|rs| - 1];
    assert rs == front + [r];
    AppendCover(front, r, j);
    AppendCover(front, Range(r.first, k), j);
  }

  /** There are never more ranges than slots. */
  lemma {:induction false} FewRuns(owners: Owners, n: NodeId)
    ensures |Runs(owners, n)| <= CountOwned(owners, n)
  {
    if owners != [] { FewRuns(owners[..|owners| - 1], n); }
  }

  lemma {:induction false} CountMonotone(owners: Owners, n: NodeId, i: nat)
    requires i <= |owners|
    ensures CountOwned(owners[..i], n) <= CountOwned(owners, n)
    decreases |owners|
  {
    if i < |owners| {
      assert owners[..|owners| - 1][..i] == owners[..i];
      CountMonotone(owners[..|owners| - 1], n, i);
    } else {
      assert owners[..i] == owners;
    }
  }

  // ---------------------------------------------------------------- a run being scanned

  /** `rs` holds the finished runs of n; if `start` is set, a run of n is open from there to i. */
  ghost predicate Scanning(owners: Owners, n: NodeId, rs: seq<Range>, start: int, i: nat) {
    && i <= |owners|
    && if start < 0 then Runs(owners[..i], n) == rs && (i == 0 || owners[i - 1] != Some(n))
       else start < i && Runs(owners[..i], n) == rs + [Range(start, i - 1)]
  }

  /** If the last slot is foreign, the last run ended earlier. */
  lemma LastRunEnded(owners: Owners, n: NodeId)
    requires owners == [] || owners[|owners| - 1] != Some(n)
    ensures var rs := Runs(owners, n); rs == [] || rs[|rs| - 1].last + 1 < |owners|
  {
    var rs := Runs(owners, n);
    RunsSeparated(owners, n);
    if rs != [] {
      RunsCover(owners, n, rs[|rs| - 1].last);
      assert Covered(rs, rs[|rs| - 1].last);
    }
  }

  lemma ScanStep(owners: Owners, n: NodeId, rs: seq<Range>, start: int, i: nat)
    requires Scanning(owners, n, rs, start, i) && i < |owners|
    ensures owners[i] == Some(n) && start >= 0 ==> Scanning(owners, n, rs, start, i + 1)
    ensures owners[i] == Some(n) && start < 0 ==> Scanning(owners, n, rs, i, i + 1)
    ensures owners[i] != Some(n) ==>
        Scanning(owners, n, if start < 0 then rs else rs + [Range(start, i - 1)], -1, i + 1)
  {
    assert owners[..i + 1][..i] == owners[..i];
    if start < 0 {
      LastRunEnded(owners[..i], n);
    } else {
      assert (rs + [Range(start, i - 1)])[..|rs|] == rs;
    }
  }

  /** The whole table has been scanned and an open run is closed. */
  lemma ScanEnd(owners: Owners, n: NodeId, rs: seq<Range>, start: int)
    requires Scanning(owners, n, rs, start, |owners|)
    ensures Runs(owners, n) == if start < 0 then rs else rs + [Range(start, |owners| - 1)]
  {
    assert owners[..|owners|] == owners;
  }

  // ---------------------------------------------------------------- the three programs

  /** The scan of one node; the loop variable is pushed past the end to close a run there. */
  method GenNodeDescription(c: ClusterSlots, n: NodeId) returns (rs: seq<Range>)
    requires c.Valid() && n in c.bitmap
    ensures rs == Runs(c.slots[..], n)
  {
    rs := [];
    ghost var owners := c.slots[..];
    var start := -1;
    var j := 0;
    while j < c.slots.Length
      invariant 0 <= j <= c.slots.Length + 1 && -1 <= start
      invariant if j <= c.slots.Length then Scanning(owners, n, rs, start, j) else rs == Runs(owners, n)
      invariant j == c.slots.Length ==> start == -1
    {
      ScanStep(owners, n, rs, start, j);
      var bit := c.GetSlotBit(n, j);
      if bit {
        if start == -1 { start := j; }
      }
      if start != -1 && (!bit || j == c.slots.Length - 1) {
        if bit && j == c.slots.Length - 1 {
          j := j + 1;
          ScanEnd(owners, n, rs, start);
        }
        rs := rs + [Range(start, j - 1)];
        start := -1;
      }
      j := j + 1;
    }
    if j == c.slots.Length { ScanEnd(owners, n, rs, start); }
  }

  /** What the one-pass builder has stored for n before slot i: its finished runs, unless n is
      filtered out. The run open at i, of node `current`, is still missing. */
  ghost predicate Stored(owners: Owners, filter: set<NodeId>, rs: seq<Range>, current: Option<NodeId>,
                         start: nat, i: nat, n: NodeId)
  {
    if n in filter then rs == []
    else Scanning(owners, n, rs, if current == Some(n) then start else -1, i)
  }

  lemma StoredStep(owners: Owners, filter: set<NodeId>, rs: seq<Range>, current: Option<NodeId>, start: nat, i: nat,
      n: NodeId)
    requires Stored(owners, filter, rs, current, start, i, n) && i < |owners|
    ensures owners[i] == current ==> Stored(owners, filter, rs, current, start, i + 1, n)
    ensures owners[i] != current ==>
              Stored(owners, filter, if current == Some(n)
                  && n !in filter then rs + [Range(start, i - 1)] else rs, owners[i], i, i + 1, n)
  {
    if n !in filter { ScanStep(owners, n, rs, if current == Some(n) then start else -1, i); }
  }


  ghost predicate PassOk(owners: Owners, filter: set<NodeId>, pairs: map<NodeId, seq<Range>>,
                         current: Option<NodeId>, start: nat, i: nat) {
    && (current.Some? ==> start < i)
    && forall n :: n in pairs ==> Stored(owners, filter, pairs[n], current, start, i, n)
  }

  lemma PassStart(owners: Owners, filter: set<NodeId>, pairs: map<NodeId, seq<Range>>)
    requires forall n :: n in pairs ==> pairs[n] == []
    ensures PassOk(owners, filter, pairs, None, 0, 0)
  {
    assert owners[..0] == [];
  }

  lemma RoomForOne(owners: Owners, filter: set<NodeId>, pairs: map<NodeId, seq<Range>>, start: nat, i: nat, n: NodeId)
    requires PassOk(owners, filter, pairs, Some(n), start, i) && n in pairs && n !in filter
    ensures |pairs[n]| < CountOwned(owners, n)
  {
    assert Stored(owners, filter, pairs[n], Some(n), start, i, n);
    FewRuns(owners[..i], n);
    CountMonotone(owners, n, i);
  }

  ghost predicate AllStored(owners: Owners, filter: set<NodeId>, pairs: map<NodeId, seq<Range>>) {
    forall n :: n in pairs ==> pairs[n] == if n in filter then [] else Runs(owners, n)
  }

  ghost function WithRun(pairs: map<NodeId, seq<Range>>, filter: set<NodeId>, current: Option<NodeId>, r: Range)
    : map<NodeId, seq<Range>>
  {
    if current.Some? && current.value in pairs && current.value !in filter
    then pairs[current.value := pairs[current.value] + [r]] else pairs
  }

  lemma PassStep(owners: Owners, filter: set<NodeId>, pairs: map<NodeId, seq<Range>>, current: Option<NodeId>,
      start: nat, i: nat)
    requires PassOk(owners, filter, pairs, current, start, i) && i < |owners|
    ensures owners[i] == current ==> PassOk(owners, filter, pairs, current, start, i + 1)
    ensures owners[i] != current && i > 0 ==>
        PassOk(owners, filter, WithRun(pairs, filter, current, Range(start, i - 1)), owners[i], i, i + 1)
    ensures current.None? ==> PassOk(owners, filter, pairs, owners[i], i, i + 1)
  {
    forall n | n in pairs
      ensures owners[i] == current ==> Stored(owners, filter, pairs[n], current, start, i + 1, n)
      ensures owners[i] != current && i > 0 ==>
          Stored(owners, filter, WithRun(pairs, filter, current, Range(start, i - 1))[n], owners[i], i, i + 1, n)
      ensures current.None? ==> Stored(owners, filter, pairs[n], owners[i], i, i + 1, n)
    {
      StoredStep(owners, filter, pairs[n], current, start, i, n);
    }
  }

  lemma PassEnd(owners: Owners, filter: set<NodeId>, pairs: map<NodeId, seq<Range>>, current: Option<NodeId>,
      start: nat)
    requires PassOk(owners, filter, pairs, current, start, |owners|)
    ensures current.None? ==> AllStored(owners, filter, pairs)
    ensures current.Some? && owners != [] ==>
        AllStored(owners, filter, WithRun(pairs, filter, current, Range(start, |owners| - 1)))
  {
    forall n | n in pairs && n !in filter
      ensures current != Some(n) ==> pairs[n] == Runs(owners, n)
      ensures current == Some(n) && owners != [] ==> pairs[n] + [Range(start, |owners| - 1)] == Runs(owners, n)
    {
      assert Stored(owners, filter, pairs[n], current, start, |owners|, n);
      ScanEnd(owners, n, pairs[n], if current == Some(n) then start else -1);
    }
  }

  /** One pass for all nodes. Every pair of numbers fits into an array of twice as many numbers as
      the node has slots, so the assertion before the store holds. */
  method GenNodesSlotsInfo(c: ClusterSlots, filter: set<NodeId>) returns (pairs: map<NodeId, seq<Range>>)
    requires c.Valid()
    ensures pairs.Keys == c.bitmap.Keys
    ensures AllStored(c.slots[..], filter, pairs)
  {
    hide PassOk, AllStored, CountOwned;
    ghost var owners := c.slots[..];
    pairs := map n | n in c.bitmap :: [];
    var current: Option<NodeId> := None;
    var start, i := 0, 0;
    PassStart(owners, filter, pairs);
    while i <= c.slots.Length
      invariant 0 <= i <= c.slots.Length && pairs.Keys == c.bitmap.Keys
      invariant PassOk(owners, filter, pairs, current, start, i)
      invariant current.Some? ==> current.value in c.bitmap && start < i
      decreases c.slots.Length - i
    {
      if i == c.slots.Length {
        PassEnd(owners, filter, pairs, current, start);
      } else {
        PassStep(owners, filter, pairs, current, start, i);
      }
      if current.None? {
        if i == c.slots.Length { break; }
        current, start := c.slots[i], i;
        i := i + 1;
        continue;
      }
      if i == c.slots.Length || current != c.slots[i] {
        var n := current.value;
        if n !in filter {
          RoomForOne(owners, filter, pairs, start, i, n);
          c.CounterExact(n);
          assert 2 * |pairs[n]| + 1 < 2 * c.numslots[n];    // serverAssert
          pairs := pairs[n := pairs[n] + [Range(start, i - 1)]];
        }
        if i == c.slots.Length { break; }
        current, start := c.slots[i], i;
      }
      i := i + 1;
    }
  }

  // ---------------------------------------------------------------- loading

  /** The table after node n has been given its ranges: slots that already have an owner keep it. */
  ghost predicate Filled(before: Owners, after: Owners, n: NodeId, rs: seq<Range>) {
    |after| == |before| && forall j :: 0 <= j < |before| ==>
      after[j] == if before[j].None? && Covered(rs, j) then Some(n) else before[j]
  }

  /** One line of the configuration file: expand its ranges, or report a format error. */
  method LoadRanges(c: ClusterSlots, n: NodeId, rs: seq<Range>) returns (ok: bool)
    requires c.Valid() && n in c.bitmap
    modifies c`bitmap, c`numslots, c.slots
    ensures c.Valid() && c.bitmap.Keys == old(c.bitmap.Keys)
    ensures ok <==> forall i :: 0 <= i < |rs| ==> rs[i].first < c.slots.Length && rs[i].last < c.slots.Length
    ensures ok ==> Filled(old(c.slots[..]), c.slots[..], n, rs)
  {
    ghost var before := c.slots[..];
    for i := 0 to |rs|
      invariant c.Valid() && c.bitmap.Keys == old(c.bitmap.Keys)
      invariant forall k :: 0 <= k < i ==> rs[k].first < c.slots.Length && rs[k].last < c.slots.Length
      invariant Filled(before, c.slots[..], n, rs[..i])
    {
      if rs[i].first >= c.slots.Length || rs[i].last >= c.slots.Length { return false; }
      ghost var mid := c.slots[..];
      var start := rs[i].first;
      while start <= rs[i].last
        invariant rs[i].first <= start <= c.slots.Length && (start <= rs[i].last + 1 || start == rs[i].first)
        invariant c.Valid() && c.bitmap.Keys == old(c.bitmap.Keys)
        invariant forall j :: 0 <= j < c.slots.Length ==>
          c.slots[..][j] == if mid[j].None? && rs[i].first <= j < start then Some(n) else mid[j]
      {
        var _ := c.AddSlot(n, start);
        start := start + 1;
      }
      FillMore(before, mid, c.slots[..], n, rs[..i], rs[i]);
      assert rs[..i + 1] == rs[..i] + [rs[i]];
    }
    assert rs[..|rs|] == rs;
    return true;
  }

  lemma FillMore(before: Owners, mid: Owners, after: Owners, n: NodeId, rs: seq<Range>, r: Range)
    requires Filled(before, mid, n, rs) && |after| == |mid|
    requires forall j :: 0 <= j < |mid| ==>
        after[j] == if mid[j].None? && r.first <= j <= r.last then Some(n) else mid[j]
    ensures Filled(before, after, n, rs + [r])
  {
    forall j | 0 <= j < |before|
      ensures after[j] == if before[j].None? && Covered(rs + [r], j) then Some(n) else before[j]
    {
      AppendCover(rs, r, j);
    }
  }

  /** Owners listed so far. */
  ghost predicate Restored(owners: Owners, loaded: Owners, nodes: seq<NodeId>) {
    |loaded| == |owners| && forall j :: 0 <= j < |owners| ==>
      loaded[j] == if owners[j].Some? && owners[j].value in nodes then owners[j] else None
  }

  lemma RestoreMore(owners: Owners, loaded: Owners, after: Owners, nodes: seq<NodeId>, n: NodeId)
    requires Restored(owners, loaded, nodes) && Filled(loaded, after, n, Runs(owners, n))
    ensures Restored(owners, after, nodes + [n])
  {
    forall j | 0 <= j < |owners|
      ensures after[j] == if owners[j].Some? && owners[j].value in nodes + [n] then owners[j] else None
    {
      RunsCover(owners, n, j);
    }
  }

  /** Loading the saved ranges of all nodes into an empty table rebuilds the table that was saved. */
  method LoadConfig(c: ClusterSlots, nodes: seq<NodeId>, pairs: map<NodeId, seq<Range>>, ghost owners: Owners)
      returns (ok: bool)
    requires c.Valid() && |owners| == c.slots.Length
    requires forall j :: 0 <= j < c.slots.Length ==> c.slots[j] == None
    requires forall n :: n in nodes ==> n in c.bitmap && n in pairs
    requires AllStored(owners, {}, pairs)
    requires forall j :: 0 <= j < |owners| && owners[j].Some? ==> owners[j].value in nodes
    modifies c`bitmap, c`numslots, c.slots
    ensures ok && c.Valid() && c.slots[..] == owners
  {
    RestoreNothing(owners, c.slots[..], nodes);
    for i := 0 to |nodes|
      invariant c.Valid() && c.bitmap.Keys == old(c.bitmap.Keys)
      invariant Restored(owners, c.slots[..], nodes[..i])
    {
      hide Restored, Runs, Agrees;
      assert nodes[i] in nodes && nodes[..i + 1] == nodes[..i] + [nodes[i]];
      LoadLine(c, nodes[i], pairs[nodes[i]], owners, nodes[..i]);
    }
    ok := true;
    assert nodes[..|nodes|] == nodes;
  }

  /** The line of one node: there is no format error. */
  method LoadLine(c: ClusterSlots, n: NodeId, rs: seq<Range>, ghost owners: Owners, ghost nodes: seq<NodeId>)
    requires c.Valid() && n in c.bitmap && |owners| == c.slots.Length && rs == Runs(owners, n)
    requires Restored(owners, c.slots[..], nodes)
    modifies c`bitmap, c`numslots, c.slots
    ensures c.Valid() && c.bitmap.Keys == old(c.bitmap.Keys)
    ensures Restored(owners, c.slots[..], nodes + [n])
  {
    hide Restored, Filled, Runs, Agrees;
    ghost var loaded := c.slots[..];
    RunsInside(owners, n);
    var ok := LoadRanges(c, n, rs);
    assert ok;
    RestoreMore(owners, loaded, c.slots[..], nodes, n);
  }

  lemma RunsInside(owners: Owners, n: NodeId)
    ensures var rs := Runs(owners, n); forall i :: 0 <= i < |rs| ==> rs[i].first < |owners| && rs[i].last < |owners|
  {
    RunsSeparated(owners, n);
  }

  lemma RestoreNothing(owners: Owners, loaded: Owners, nodes: seq<NodeId>)
    requires |loaded| == |owners| && forall j :: 0 <= j < |loaded| ==> loaded[j] == None
    ensures Restored(owners, loaded, nodes[..0])
  {}

  /** Saving a table in one pass and loading it elsewhere gives the same table. */
  method SaveAndLoad(c: ClusterSlots, d: ClusterSlots, nodes: seq<NodeId>) returns (ok: bool)
    requires c.Valid() && d.Valid() && c != d && c.slots != d.slots && c.slots.Length == d.slots.Length
    requires forall n :: n in nodes <==> n in c.bitmap
    requires forall n :: n in c.bitmap ==> n in d.bitmap
    requires forall j :: 0 <= j < d.slots.Length ==> d.slots[j] == None
    modifies d`bitmap, d`numslots, d.slots
    ensures ok && d.Valid() && d.slots[..] == c.slots[..]
  {
    var pairs := GenNodesSlotsInfo(c, {});
    assert forall j :: 0 <= j < c.slots.Length ==> c.slots[..][j] == c.slots[j];
    ok := LoadConfig(d, nodes, pairs, c.slots[..]);
  }
}
