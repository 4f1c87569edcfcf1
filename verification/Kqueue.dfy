/** Polling with kqueue: read and write events of a descriptor arrive apart and are merged through a packed array. */
module Kqueue {

  datatype Filter = Read | Write | Other

  datatype Event = Event(fd: nat, filter: Filter)

  datatype Fired = Fired(fd: nat, mask: bv8)

  const NONE: bv8 := 0
  const READABLE: bv8 := 1
  const WRITABLE: bv8 := 2

  function MaskOf(f: Filter): bv8 { if f == Read then READABLE else if f == Write then WRITABLE else NONE }

  // ---------------------------------------------------------------- two bits per descriptor

  /** Shifts by the offset of a descriptor's field. */
  function Encode(k: nat, m: bv8): bv8
    requires k < 4
  {
    if k == 0 then m & 3 else if k == 1 then (m & 3) << 2 else if k == 2 then (m & 3) << 4 else (m & 3) << 6
  }

  function Field(b: bv8, k: nat): bv8
    requires k < 4
  {
    (if k == 0 then b else if k == 1 then b >> 2 else if k == 2 then b >> 4 else b >> 6) & 3
  }

  lemma FieldAdd(b: bv8, k: nat, m: bv8, i: nat)
    requires k < 4 && i < 4 && m <= 3
    ensures Field(b | Encode(k, m), i) == if i == k then Field(b, k) | m else Field(b, i)
  {
    assert k == 0 || k == 1 || k == 2 || k == 3;
    assert i == 0 || i == 1 || i == 2 || i == 3;
  }

  lemma FieldReset(b: bv8, k: nat, i: nat)
    requires k < 4 && i < 4
    ensures Field(b & !Encode(k, 3), i) == if i == k then 0 else Field(b, i)
  {
    assert k == 0 || k == 1 || k == 2 || k == 3;
    assert i == 0 || i == 1 || i == 2 || i == 3;
  }

  lemma FieldsZero(b: bv8)
    requires Field(b, 0) == 0 && Field(b, 1) == 0 && Field(b, 2) == 0 && Field(b, 3) == 0
    ensures b == 0
  {}

  lemma ZeroFields(k: nat)
    requires k < 4
    ensures Field(0, k) == 0
  {}

  function Mask(masks: seq<bv8>, fd: nat): bv8
    requires fd / 4 < |masks|
  {
    Field(masks[fd / 4], fd % 4)
  }

  lemma AddAt(masks: seq<bv8>, fd: nat, m: bv8, q: nat)
    requires fd / 4 < |masks| && q / 4 < |masks| && m <= 3
    ensures Mask(masks[fd / 4 := masks[fd / 4] | Encode(fd % 4, m)], q)
         == if q == fd then Mask(masks, fd) | m else Mask(masks, q)
  {
    hide Field, Encode;
    if q / 4 == fd / 4 { FieldAdd(masks[fd / 4], fd % 4, m, q % 4); }
  }

  lemma ResetAt(masks: seq<bv8>, fd: nat, q: nat)
    requires fd / 4 < |masks| && q / 4 < |masks|
    ensures Mask(masks[fd / 4 := masks[fd / 4] & !Encode(fd % 4, 3)], q) == if q == fd then 0 else Mask(masks, q)
  {
    hide Field, Encode;
    if q / 4 == fd / 4 { FieldReset(masks[fd / 4], fd % 4, q % 4); }
  }

  // ---------------------------------------------------------------- what has to be fired

  /** All filters of one descriptor among the first n events. */
  function Union(events: seq<Event>, n: nat, fd: nat): bv8
    requires n <= |events|
  {
    if n == 0 then 0
    else if events[n - 1].fd == fd then Union(events, n - 1, fd) | MaskOf(events[n - 1].filter)
    else Union(events, n - 1, fd)
  }

  /** Whether the descriptor occurs among the first n events. */
  predicate Seen(events: seq<Event>, n: nat, fd: nat)
    requires n <= |events|
  {
    exists i :: 0 <= i < n && events[i].fd == fd
  }

  /** Each descriptor once, where it first occurs, with the union of its filters. */
  function Merged(events: seq<Event>, n: nat): seq<Fired>
    requires n <= |events|
  {
    if n == 0 then []
    else
      var fd := events[n - 1].fd;
      var all := Union(events, |events|, fd);
      Merged(events, n - 1) + if !Seen(events, n - 1, fd) && all != 0 then [Fired(fd, all)] else []
  }

  lemma RawSmall(a: bv8, b: bv8)
    requires a <= 3 && b <= 3
    ensures a | b <= 3
  {}

  lemma {:induction false} UnionSmall(events: seq<Event>, n: nat, fd: nat)
    requires n <= |events|
    ensures Union(events, n, fd) <= 3 && (!Seen(events, n, fd) ==> Union(events, n, fd) == 0)
  {
    if n > 0 {
      UnionSmall(events, n - 1, fd);
      RawSmall(Union(events, n - 1, fd), MaskOf(events[n - 1].filter));
      assert Seen(events, n - 1, fd) ==> Seen(events, n, fd);
    }
  }

  lemma RawUnion(a: bv8, b: bv8)
    ensures (a | b) & 1 != 0 <==> a & 1 != 0 || b & 1 != 0
    ensures (a | b) & 2 != 0 <==> a & 2 != 0 || b & 2 != 0
  {}

  ghost predicate Has(events: seq<Event>, n: nat, fd: nat, f: Filter)
    requires n <= |events|
  {
    exists i :: 0 <= i < n && events[i] == Event(fd, f)
  }

  /** The union says which filters have occurred. */
  lemma {:induction false} UnionMeans(events: seq<Event>, n: nat, fd: nat)
    requires n <= |events|
    ensures Union(events, n, fd) & READABLE != 0 <==> Has(events, n, fd, Read)
    ensures Union(events, n, fd) & WRITABLE != 0 <==> Has(events, n, fd, Write)
  {
    if n > 0 {
      UnionMeans(events, n - 1, fd);
      RawUnion(Union(events, n - 1, fd), MaskOf(events[n - 1].filter));
      HasStep(events, n, fd, Read);
      HasStep(events, n, fd, Write);
    }
  }

  lemma HasStep(events: seq<Event>, n: nat, fd: nat, f: Filter)
    requires 0 < n <= |events|
    ensures Has(events, n, fd, f) <==> Has(events, n - 1, fd, f) || events[n - 1] == Event(fd, f)
  {
    if Has(events, n - 1, fd, f) {
      var i :| 0 <= i < n - 1 && events[i] == Event(fd, f);
      assert events[i] == Event(fd, f);
    }
    if Has(events, n, fd, f) {
      var i :| 0 <= i < n && events[i] == Event(fd, f);
      assert i < n - 1 ==> Has(events, n - 1, fd, f);
    }
  }

  /** No descriptor fires twice; the mask is complete; and every descriptor with an event fires. */
  lemma {:induction false} MergedIs(events: seq<Event>, n: nat)
    requires n <= |events|
    ensures forall i :: 0 <= i < |Merged(events, n)| ==>
      var f := Merged(events, n)[i]; Seen(events, n, f.fd) && f.mask == Union(events, |events|, f.fd) != 0
    ensures forall i, j :: 0 <= i < j < |Merged(events, n)| ==> Merged(events, n)[i].fd != Merged(events, n)[j].fd
    ensures forall fd :: Seen(events, n, fd) && Union(events, |events|, fd) != 0 ==>
        Fired(fd, Union(events, |events|, fd)) in Merged(events, n)
  {
    if n > 0 {
      MergedIs(events, n - 1);
      var m, last := Merged(events, n - 1), events[n - 1].fd;
      assert forall fd :: Seen(events, n, fd) <==> Seen(events, n - 1, fd) || fd == last by {
        forall fd ensures Seen(events, n, fd) <==> Seen(events, n - 1, fd) || fd == last { SeenStep(events, n, fd); }
      }
    }
  }

  lemma SeenStep(events: seq<Event>, n: nat, fd: nat)
    requires 0 < n <= |events|
    ensures Seen(events, n, fd) <==> Seen(events, n - 1, fd) || fd == events[n - 1].fd
  {
    if Seen(events, n, fd) {
      var i :| 0 <= i < n && events[i].fd == fd;
      assert i < n - 1 ==> Seen(events, n - 1, fd);
    }
  }

  // ---------------------------------------------------------------- the poll

  ghost predicate InRange(events: seq<Event>, size: nat) { forall i :: 0 <= i < |events| ==> events[i].fd / 4 < size }

  /** After n events of the first pass, a field holds the filters seen so far. */
  ghost predicate Collected(masks: seq<bv8>, events: seq<Event>, n: nat, fd: nat)
    requires n <= |events|
  {
    fd / 4 < |masks| ==> Mask(masks, fd) == Union(events, n, fd)
  }

  /** After n events of the second pass, the fields of the descriptors seen are clear again. */
  ghost predicate Cleared(masks: seq<bv8>, events: seq<Event>, n: nat, fd: nat)
    requires n <= |events|
  {
    fd / 4 < |masks| ==> Mask(masks, fd) == if Seen(events, n, fd) then 0 else Union(events, |events|, fd)
  }

  ghost predicate AllCollected(masks: seq<bv8>, events: seq<Event>, n: nat)
    requires n <= |events|
  {
    forall fd: nat :: Collected(masks, events, n, fd)
  }

  ghost predicate AllCleared(masks: seq<bv8>, events: seq<Event>, n: nat)
    requires n <= |events|
  {
    forall fd: nat :: Cleared(masks, events, n, fd)
  }

  ghost predicate AllZero(masks: seq<bv8>) { forall b :: 0 <= b < |masks| ==> masks[b] == 0 }

  /** Merges a batch of kernel events. The scratch array is all zero before and after. */
  method Poll(events: seq<Event>, masks: array<bv8>) returns (fired: seq<Fired>)
    requires InRange(events, masks.Length) && AllZero(masks[..])
    modifies masks
    ensures fired == Merged(events, |events|) && AllZero(masks[..])
  {
    hide Field, Encode, Union, Mask, AllCleared, AllCollected;
    Collect(events, masks);
    fired := [];
    StartClearing(masks[..], events);
    for j := 0 to |events|
      invariant AllCleared(masks[..], events, j)
      invariant fired == Merged(events, j)
    {
      var fd := events[j].fd;
      assert fd / 4 < masks.Length;
      ClearedAt(masks[..], events, j, fd);
      var mask := Mask(masks[..], fd);
      if mask != 0 {
        fired := fired + [Fired(fd, mask)];
        ghost var s := masks[..];
        masks[fd / 4] := masks[fd / 4] & !Encode(fd % 4, 3);
        assert masks[..] == s[fd / 4 := s[fd / 4] & !Encode(fd % 4, 3)];
        ClearStep(s, masks[..], events, j);
      } else {
        SkipStep(masks[..], events, j);
      }
    }
    EndClearing(masks[..], events);
  }

  /** First pass: collect the filters of each descriptor. */
  method Collect(events: seq<Event>, masks: array<bv8>)
    requires InRange(events, masks.Length) && AllZero(masks[..])
    modifies masks
    ensures AllCollected(masks[..], events, |events|)
  {
    hide Field, Encode, Union, Mask, AllCollected;
    StartCollecting(masks[..], events);
    for j := 0 to |events|
      invariant AllCollected(masks[..], events, j)
    {
      var fd, mask := events[j].fd, MaskOf(events[j].filter);
      ghost var s := masks[..];
      assert fd / 4 < masks.Length;
      masks[fd / 4] := masks[fd / 4] | Encode(fd % 4, mask);
      assert masks[..] == s[fd / 4 := s[fd / 4] | Encode(fd % 4, mask)];
      CollectStep(s, masks[..], events, j);
    }
  }

  lemma StartCollecting(masks: seq<bv8>, events: seq<Event>)
    requires AllZero(masks)
    ensures AllCollected(masks, events, 0)
  {
    forall fd: nat ensures Collected(masks, events, 0, fd) { ZeroFields(fd % 4); }
  }

  lemma CollectStep(s: seq<bv8>, t: seq<bv8>, events: seq<Event>, j: nat)
    requires j < |events| && events[j].fd / 4 < |s| && AllCollected(s, events, j)
    requires var fd := events[j].fd; t == s[fd / 4 := s[fd / 4] | Encode(fd % 4, MaskOf(events[j].filter))]
    ensures AllCollected(t, events, j + 1)
  {
    hide Field, Encode, Mask;
    var n := j + 1;
    forall q: nat ensures Collected(t, events, n, q) {
      if q / 4 < |s| {
        assert Collected(s, events, j, q) && Collected(s, events, j, events[j].fd);
        AddAt(s, events[j].fd, MaskOf(events[j].filter), q);
      }
    }
  }

  lemma StartClearing(masks: seq<bv8>, events: seq<Event>)
    requires AllCollected(masks, events, |events|)
    ensures AllCleared(masks, events, 0)
  {
    forall fd: nat ensures Cleared(masks, events, 0, fd) { assert Collected(masks, events, |events|, fd); }
  }

  lemma ClearStep(s: seq<bv8>, t: seq<bv8>, events: seq<Event>, j: nat)
    requires j < |events| && events[j].fd / 4 < |s| && AllCleared(s, events, j)
    requires var fd := events[j].fd; t == s[fd / 4 := s[fd / 4] & !Encode(fd % 4, 3)]
    ensures AllCleared(t, events, j + 1)
  {
    hide Field, Encode, Mask, Union;
    var n := j + 1;
    forall q: nat ensures Cleared(t, events, n, q) {
      SeenStep(events, n, q);
      if q / 4 < |s| {
        assert Cleared(s, events, j, q);
        ResetAt(s, events[j].fd, q);
      }
    }
  }

  lemma ClearedAt(s: seq<bv8>, events: seq<Event>, j: nat, fd: nat)
    requires j <= |events| && AllCleared(s, events, j)
    ensures Cleared(s, events, j, fd)
  {}

  lemma SkipStep(s: seq<bv8>, events: seq<Event>, j: nat)
    requires j < |events| && events[j].fd / 4 < |s| && Mask(s, events[j].fd) == 0 && AllCleared(s, events, j)
    ensures AllCleared(s, events, j + 1)
  {
    hide Field, Mask, Union;
    var n := j + 1;
    forall q: nat ensures Cleared(s, events, n, q) {
      SeenStep(events, n, q);
      assert Cleared(s, events, j, q);
    }
  }

  lemma EndClearing(masks: seq<bv8>, events: seq<Event>)
    requires AllCleared(masks, events, |events|)
    ensures AllZero(masks)
  {
    hide Field;
    forall b | 0 <= b < |masks| ensures masks[b] == 0 {
      FieldClear(masks, events, b, 0);
      FieldClear(masks, events, b, 1);
      FieldClear(masks, events, b, 2);
      FieldClear(masks, events, b, 3);
      FieldsZero(masks[b]);
    }
  }

  lemma FieldClear(masks: seq<bv8>, events: seq<Event>, b: nat, k: nat)
    requires b < |masks| && k < 4 && AllCleared(masks, events, |events|)
    ensures Field(masks[b], k) == 0
  {
    hide Field;
    var fd := 4 * b + k;
    assert fd / 4 == b && fd % 4 == k;
    assert Cleared(masks, events, |events|, fd);
    UnionSmall(events, |events|, fd);
  }
}
