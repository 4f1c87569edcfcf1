/**
 Writing the append-only buffer to its file, with writes that are interrupted, short or fail, and
 with the three fsync policies.
 */
module AofFlush {
  import opened AofLog

  datatype Policy = Always | EverySecond | Never

  /** What one write(2) of a non-empty buffer does: it is interrupted, fails, or takes some bytes,
      at least one and at most all. */
  datatype WriteResult = Interrupted | Error | Wrote(n: nat)

  /** Everything a flush learns from outside. After the scripted results the disk takes everything. */
  datatype World = World(
    script: seq<WriteResult>,
    truncates: bool,         // ftruncate succeeds
    now: nat,                // seconds
    fsyncRunning: bool,      // a background fsync is in progress
    fsyncOff: bool,          // no-appendfsync-on-rewrite is set and a child is active
    fsyncs: bool)            // fsync succeeds

  const EMPTY: Bytes := []

  function Zeros(n: nat): Bytes { seq(n, _ => 0 as Byte) }

  /** pwrite(2): bytes past the end of the file are preceded by a hole of zeros. */
  function Put(content: Bytes, at: nat, data: Bytes): Bytes {
    if data == [] then content
    else if at >= |content| then content + Zeros(at - |content|) + data
    else if at + |data| >= |content| then content[..at] + data
    else content[..at] + data + content[at + |data|..]
  }

  lemma PutEnd(content: Bytes, data: Bytes)
    ensures Put(content, |content|, data) == content + data
  {
    if data != [] { assert content + Zeros(0) + data == content + data; }
  }

  /** A write changes the bytes it is given and no others. */
  lemma PutAt(content: Bytes, at: nat, data: Bytes, k: nat)
    requires at <= |content| && k < |content| + |data|
    ensures k < |content| || k < at + |data| <==> k < |Put(content, at, data)|
    ensures k < |Put(content, at, data)| ==>
      Put(content, at, data)[k] == if at <= k < at + |data| then data[k - at] else content[k]
  {}

  /** Two writes in a row are one write of both. */
  lemma PutPut(content: Bytes, at: nat, a: Bytes, b: Bytes)
    ensures Put(Put(content, at, a), at + |a|, b) == Put(content, at, a + b)
  {
    if a == [] {
      assert a + b == b;
    } else if b == [] {
      assert a + b == a;
    } else if at + |a| >= |content| {
      PutPutAtEnd(content, at, a, b);
    } else {
      PutPutInside(content, at, a, b);
    }
  }

  lemma PutPutAtEnd(content: Bytes, at: nat, a: Bytes, b: Bytes)
    requires a != [] && b != [] && at + |a| >= |content|
    ensures Put(Put(content, at, a), at + |a|, b) == Put(content, at, a + b)
  {
    var before := if at >= |content| then content + Zeros(at - |content|) else content[..at];
    assert Put(content, at, a) == before + a && |before + a| == at + |a|;
    PutEnd(before + a, b);
    Grouped(before, a, b);
  }

  lemma PutPutInside(content: Bytes, at: nat, a: Bytes, b: Bytes)
    requires a != [] && b != [] && at + |a| < |content|
    ensures Put(Put(content, at, a), at + |a|, b) == Put(content, at, a + b)
  {
    var mid, end := content[..at] + a + content[at + |a|..], at + |a|;
    assert mid[..end] == content[..at] + a && |mid| == |content|;
    Grouped(content[..at], a, b);
    if end + |b| < |content| { assert mid[end + |b|..] == content[end + |b|..]; }
  }

  /** Writing past the end leaves a hole, and the file no longer holds what was meant for it. */
  lemma HoleFollows(content: Bytes, gap: nat, data: Bytes)
    requires gap > 0 && data != []
    ensures Put(content, |content| + gap, data) == content + Zeros(gap) + data != content + data
  {
    assert |content + Zeros(gap) + data| != |content + data|;
  }

  function Taken(n: nat, left: nat): (k: nat)
    requires left > 0
    ensures 0 < k <= left
  {
    if n == 0 then 1 else if n > left then left else n
  }

  /** What aofWrite returns for a buffer of `len` bytes, `done` of which are written. */
  function Total(script: seq<WriteResult>, len: nat, done: nat): int
    requires done <= len
    decreases |script|
  {
    if done == len || script == [] then len
    else
      match script[0]
      case Interrupted => Total(script[1..], len, done)
      case Error => if done > 0 then done else -1
      case Wrote(n) => Total(script[1..], len, done + Taken(n, len - done))
  }

  lemma TotalStep(script: seq<WriteResult>, step: nat, len: nat, done: nat)
    requires step < |script| && done < len
    ensures Total(script[step..], len, done) ==
      match script[step]
      case Interrupted => Total(script[step + 1..], len, done)
      case Error => if done > 0 then done else -1
      case Wrote(n) => Total(script[step + 1..], len, done + Taken(n, len - done))
  {
    assert script[step..][0] == script[step] && script[step..][1..] == script[step + 1..];
  }

  lemma TotalEnd(script: seq<WriteResult>, len: nat, done: nat)
    requires done <= len && (done == len || script == [])
    ensures Total(script, len, done) == len
  {}

  lemma PutNothing(content: Bytes, at: nat)
    ensures Put(content, at, []) == content
  {}

  /** A file the log has rotated away from, and how much of it an fsync had put on disk. */
  datatype Closed = Closed(content: Bytes, durable: nat)

  ghost function ClosedBytes(files: seq<Closed>): Bytes {
    if files == [] then [] else ClosedBytes(files[..|files| - 1]) + files[|files| - 1].content
  }

  lemma ClosedMore(files: seq<Closed>, f: Closed)
    ensures ClosedBytes(files + [f]) == ClosedBytes(files) + f.content
  {
    assert (files + [f])[..|files|] == files;
  }

  class Aof {
    // the file
    var content: Bytes
    var offset: nat
    var append: bool
    var durable: nat         // how much of it an fsync has put on disk
    var requested: nat       // how much of it an fsync has been asked for
    // the server
    var buf: Bytes
    var size: nat
    var fsyncOffset: nat
    var postponedStart: nat
    var lastFsync: nat
    var statusOk: bool
    var exited: bool
    var policy: Policy
    // all bytes meant for this file, and the files before it
    ghost var fed: Bytes
    ghost var closed: seq<Closed>

    /** All bytes ever fed to the log, wherever they are. */
    ghost function Logged(): Bytes
      reads this
    {
      ClosedBytes(closed) + fed
    }

    /** Nothing is lost, repeated or reordered between the buffer and the file. */
    ghost predicate Conserved()
      reads this
    {
      content + buf == fed
    }

    /** The next write goes to the end of the file, whose length is known. */
    predicate Aligned()
      reads this
    {
      size == |content| && (append || offset == |content|)
    }

    ghost predicate Valid()
      reads this
    {
      && fsyncOffset <= requested <= |content| && durable <= |content|
      && (if exited then content <= fed else Conserved() && Aligned())
    }

    /** Every byte the server takes for synced is on disk. */
    predicate Solid()
      reads this
    {
      fsyncOffset <= durable
    }

    /** The file as found at start-up, opened in append mode. */
    constructor OpenOnStart(found: Bytes, policy: Policy)
      ensures Valid() && Solid() && append && content == fed == found && buf == [] && this.policy == policy && !exited
      ensures closed == [] && durable == |found|
    {
      content, offset, append := found, 0, true;
      durable, requested := |found|, |found|;
      buf, size, fsyncOffset := [], |found|, |found|;
      postponedStart, lastFsync, statusOk, exited := 0, 0, true, false;
      this.policy := policy;
      fed, closed := found, [];
    }

    /** A new incremental file, not opened in append mode; the buffer goes there. */
    method OpenNew(now: nat)
      requires Valid() && !exited
      modifies this
      ensures Valid() && Solid() && content == [] && buf == old(buf) == fed && !append && !exited
          && policy == old(policy)
      ensures lastFsync == now && postponedStart == old(postponedStart)
      ensures closed == old(closed) + [Closed(old(content), old(durable))] && Logged() == old(Logged())
    {
      hide ClosedBytes;
      ClosedMore(closed, Closed(content, durable));
      Grouped(ClosedBytes(closed), content, buf);
      closed := closed + [Closed(content, durable)];
      content, offset, append, durable, requested := [], 0, false, 0, 0;
      size, fsyncOffset, lastFsync := 0, 0, now;
      fed := buf;
    }

    method Feed(data: Bytes)
      requires Valid() && !exited
      modifies this`buf, this`fed
      ensures Valid() && buf == old(buf) + data && fed == old(fed) + data && (old(Solid()) ==> Solid())
      ensures Logged() == old(Logged()) + data
    {
      hide ClosedBytes;
      Grouped(content, buf, data);
      buf := buf + data;
      Grouped(ClosedBytes(closed), fed, data);
      fed := fed + data;
    }

    method WriteCall(data: Bytes)
      modifies this`content, this`offset
      ensures data == [] ==> content == old(content) && offset == old(offset)
      ensures data != [] ==> content == Put(old(content), if append then |old(content)| else old(offset), data)
      ensures data != [] ==> offset == (if append then |old(content)| else old(offset)) + |data|
    {
      if data != [] {
        var at := if append then |content| else offset;
        content := Put(content, at, data);
        offset := at + |data|;
      }
    }

    /** Repeats interrupted and short writes until all is written or an error stops it. */
    method AofWrite(script: seq<WriteResult>) returns (nwritten: int)
      modifies this`content, this`offset
      ensures nwritten == Total(script, |buf|, 0)
      ensures -1 <= nwritten <= |buf| && (nwritten == 0 ==> buf == [])
      ensures var at := if append then |old(content)| else old(offset);
        && content == Put(old(content), at, buf[..if nwritten < 0 then 0 else nwritten])
        && (append || offset == at + if nwritten < 0 then 0 else nwritten)
    {
      hide Put, Total;
      var step, done := 0, 0;
      ghost var at := if append then |content| else offset;
      assert script[0..] == script;
      PutNothing(content, at);
      assert buf[..0] == [] && content + buf[..0] == content;
      while done < |buf|
        invariant 0 <= step <= |script| && 0 <= done <= |buf|
        invariant Total(script[step..], |buf|, done) == Total(script, |buf|, 0)
        invariant content == Put(old(content), at, buf[..done])
        invariant if append then at == |old(content)| && content == old(content) + buf[..done] else offset == at + done
        decreases |script| - step, |buf| - done
      {
        var rest := buf[done..];
        var result := Wrote(|rest|);
        if step < |script| {
          result := script[step];
          TotalStep(script, step, |buf|, done);
          step := step + 1;
        } else {
          TotalEnd(script[step..], |buf|, done);
          TotalEnd(script[step..], |buf|, |buf|);
        }
        match result
        case Interrupted => continue;
        case Error => return if done > 0 then done else -1;
        case Wrote(n) =>
          var k := Taken(n, |rest|);
          PutPut(old(content), at, buf[..done], rest[..k]);
          WriteCall(rest[..k]);
          assert buf[..done] + rest[..k] == buf[..done + k];
          if append { PutEnd(old(content), buf[..done + k]); }
          done := done + k;
      }
      TotalEnd(script[step..], |buf|, done);
      return done;
    }

    /** ftruncate cuts the file but leaves the offset where it is. */
    method Ftruncate()
      requires size <= |content|
      modifies this`content, this`durable, this`requested
      ensures content == old(content)[..size] && |content| == size
      ensures durable == (if old(durable) <= size then old(durable) else size)
      ensures requested == (if old(requested) <= size then old(requested) else size)
    {
      content := content[..size];
      durable := if durable <= size then durable else size;
      requested := if requested <= size then requested else size;
    }

    /** After a failed or short write: undo it if possible, otherwise account for it. */
    method WriteFailed(wrote: int, w: World, ghost before: Bytes)
      requires buf != [] && -1 <= wrote < |buf| && wrote != 0 && !exited
      requires content == before + buf[..if wrote < 0 then 0 else wrote] && size == |before| && before + buf == fed
      requires fsyncOffset <= requested <= |before| && durable <= |before|
      requires append || offset == |content|
      modifies this`content, this`buf, this`size, this`statusOk, this`exited, this`durable, this`requested
      ensures unchanged(`durable, `requested) && before <= content
      ensures exited <==> policy == Always
      ensures !exited ==> Conserved() && size == |content| && !statusOk && buf != []
      ensures Valid() <==> !(0 < wrote && w.truncates && !append && policy != Always)
      ensures !Valid() ==> content == before && buf == old(buf) && offset == |content| + wrote
    {
      var kept := wrote;
      if wrote != -1 && w.truncates {
        Ftruncate();
        assert content == before;
        kept := -1;
      }
      ghost var gone := if kept < 0 then 0 else kept;
      assert buf[..gone] + buf[gone..] == buf;
      assert content + buf[gone..] == fed;
      if policy == Always {
        exited := true;
        return;
      }
      statusOk := false;
      if kept > 0 {
        size := size + kept;
        buf := buf[kept..];
      }
    }

    /** The write, with its error handling. `wrote` is what aofWrite returned.
        The buffer and the file stay aligned unless a short write is undone in a file that was
        not opened in append mode: the next write would then leave a hole. */
    method WriteBuffer(w: World) returns (wrote: int, failed: bool)
      requires Valid() && !exited && buf != []
      modifies this
      ensures unchanged(`append, `policy, `fed, `closed, `fsyncOffset, `lastFsync, `durable, `requested)
          && old(content) <= content
      ensures postponedStart == 0
      ensures wrote == Total(w.script, |old(buf)|, 0)
      ensures failed <==> wrote != |old(buf)|
      ensures !failed ==> buf == [] && content == fed && statusOk && !exited && Valid()
      ensures failed ==> exited || (!statusOk && buf != [])
      ensures exited <==> failed && policy == Always
      ensures !exited ==> Conserved() && size == |content|
      ensures Valid() <==> !(0 < wrote < |old(buf)| && w.truncates && !append && policy != Always)
      ensures !Valid() ==> content == old(content) && buf == old(buf) && offset == |content| + wrote
    {
      hide Put, Total;
      ghost var before := content;
      wrote := AofWrite(w.script);
      PutEnd(before, buf[..if wrote < 0 then 0 else wrote]);
      postponedStart := 0;
      failed := wrote != |buf|;
      if failed {
        WriteFailed(wrote, w, before);
        return;
      }
      statusOk := true;
      assert buf[..wrote] == buf;
      size := size + wrote;
      buf := [];
      assert content + EMPTY == content;
    }

    /** The fsync at the end of a flush. */
    method TryFsync(w: World, running: bool)
      requires Valid() && !exited
      modifies this`durable, this`requested, this`fsyncOffset, this`lastFsync, this`exited
      ensures Valid() && (exited <==> policy == Always && !w.fsyncOff && !w.fsyncs) && old(durable) <= durable
      ensures old(Solid()) && policy != EverySecond ==> Solid()
      ensures policy == Always && !w.fsyncOff && !exited ==> durable == requested == fsyncOffset == |content|
      ensures policy == EverySecond && !w.fsyncOff && w.now > old(lastFsync) && !running ==>
          requested == fsyncOffset == |content|
      ensures w.fsyncOff || policy == Never ==> unchanged(this)
      ensures lastFsync == old(lastFsync) || (lastFsync == w.now && !w.fsyncOff)
    {
      if w.fsyncOff { return; }
      if policy == Always {
        if !w.fsyncs {
          assert content + EMPTY == content;
          exited := true;
          return;
        }
        durable, requested, fsyncOffset := |content|, |content|, size;
        lastFsync := w.now;
      } else if policy == EverySecond && w.now > lastFsync {
        if !running {
          requested := |content|;
          fsyncOffset := size;
        }
        lastFsync := w.now;
      }
    }

    /** A short write is undone although the file is not in append mode. */
    ghost predicate Misplaces(w: World)
      reads this
    {
      0 < Total(w.script, |buf|, 0) < |buf| && w.truncates && !append && policy != Always
    }

    /** The flush is put off: a background fsync is running, for less than two seconds so far. */
    predicate Postpones(force: bool, w: World)
      reads this
    {
      policy == EverySecond && !force && w.fsyncRunning && (postponedStart == 0 || w.now < postponedStart + 2)
    }

    /** Something the policy `always` does not survive: a write that is short or fails, or an fsync
        that fails. */
    ghost predicate Fails(w: World)
      reads this
    {
      || (buf != [] && Total(w.script, |buf|, 0) != |buf|)
      || ((buf != [] || fsyncOffset != size) && !w.fsyncOff && !w.fsyncs)
    }

    /** No byte is lost or repeated by any flush; the next one finds the file aligned unless this
        one misplaces it. With fsync policy `always`, all that was fed is on disk on return. */
    method Flush(force: bool, w: World)
      requires Valid() && !exited
      modifies this
      ensures unchanged(`append, `policy, `fed, `closed) && old(content) <= content && old(durable) <= durable
      ensures !exited ==> Conserved() && size == |content|
      ensures Valid() <==> old(buf == [] || Postpones(force, w) || !Misplaces(w))
      ensures !Valid() ==> content == old(content) && buf == old(buf) && offset == |content| + Total(w.script, |buf|, 0)
      ensures policy == Always && !exited ==> content == fed
      ensures policy == Always && old(Solid()) && !exited ==> Solid() && (!w.fsyncOff ==> durable == |content|)
      ensures exited <==> policy == Always && old(Fails(w))
      ensures old(buf) != [] && !old(Postpones(force, w)) && !exited ==>
                (Total(w.script, |old(buf)|, 0) == |old(buf)| ==> content == fed)
      ensures postponedStart == if old(buf) == [] then old(postponedStart)
                                else if !old(Postpones(force, w)) then 0
                                else if old(postponedStart) == 0 then w.now else old(postponedStart)
      ensures old(buf) != [] && old(Postpones(force, w)) ==> buf == old(buf) && content == old(content)
      ensures lastFsync == old(lastFsync) || (lastFsync == w.now && !w.fsyncOff)
      ensures policy == EverySecond && !w.fsyncOff && !w.fsyncRunning && w.now > old(lastFsync) && content == fed ==>
          requested == |fed|
    {
      if buf == [] {
        assert content + EMPTY == content;
        if policy == EverySecond && fsyncOffset != size && w.now > lastFsync && !w.fsyncRunning {
          TryFsync(w, false);
        } else if policy == Always && fsyncOffset != size {
          TryFsync(w, false);
        }
        return;
      }
      var running := policy == EverySecond && w.fsyncRunning;
      if policy == EverySecond && !force && running {
        if postponedStart == 0 {
          postponedStart := w.now;
          return;
        } else if w.now - postponedStart < 2 {
          return;
        }
      }
      var wrote, failed := WriteBuffer(w);
      if failed { return; }
      TryFsync(w, running);
    }

    method ServeOne(e: Event)
      requires Valid() && !exited
      modifies this
      ensures if exited || Aligned() then Valid() else Conserved()
      ensures !e.Rotate? ==> append == old(append) && closed == old(closed)
      ensures e.Rotate? ==> |closed| == |old(closed)| + 1 && old(closed) <= closed
      ensures (old(append) && !e.Rotate?) || NeverUndoes(e) ==> exited || Aligned()
      ensures Logged() == old(Logged()) + if e.Command? then e.data else []
    {
      hide ClosedBytes, Total;
      ghost var was := Logged();
      assert was + EMPTY == was;
      match e {
        case Command(data) => Feed(data);
        case Rotate(now) => OpenNew(now);
        case SetPolicy(p) => policy := p;
        case FlushNow(force, w) =>
          ShortNeedsError(w.script, |buf|, 0);
          Flush(force, w);
      }
    }

    /** A whole run, up to an exit or to the first flush that misplaces the file. No byte is lost,
        repeated or reordered: the closed files, the file and the buffer together are what was there
        before and then the data of the events. No flush misplaces the file as long as it stays in
        append mode, or no short write is ever undone. */
    method Serve(events: seq<Event>) returns (done: nat)
      requires Valid() && !exited
      modifies this
      ensures done <= |events| && (exited || !Aligned() || done == |events|)
      ensures Logged() == old(Logged()) + Data(events[..done])
      ensures old(closed) <= closed && |closed| == |old(closed)| + Rotations(events[..done])
      ensures !exited ==>
                ClosedBytes(closed) + content + buf == old(ClosedBytes(closed) + content + buf) + Data(events[..done])
      ensures ClosedBytes(closed) + content <= old(ClosedBytes(closed) + content + buf) + Data(events[..done])
      ensures old(append) && (forall i :: 0 <= i < |events| ==> !events[i].Rotate?) ==> Valid()
      ensures (forall i :: 0 <= i < |events| ==> NeverUndoes(events[i])) ==> Valid()
    {
      hide ClosedBytes, Total;
      done := 0;
      ghost var was := Logged();
      ghost var stays := append && forall i :: 0 <= i < |events| ==> !events[i].Rotate?;
      ghost var never := forall i :: 0 <= i < |events| ==> NeverUndoes(events[i]);
      assert was + EMPTY == was;
      Grouped(ClosedBytes(closed), content, buf);
      while done < |events| && !exited && Aligned()
        invariant 0 <= done <= |events|
        invariant if exited || Aligned() then Valid() else Conserved()
        invariant (stays ==> append) && (stays || never ==> exited || Aligned())
        invariant Logged() == was + Data(events[..done])
        invariant old(closed) <= closed && |closed| == |old(closed)| + Rotations(events[..done])
        decreases |events| - done
      {
        hide Valid, Conserved, Aligned, NeverUndoes;
        DataMore(was, events, done);
        RotationsMore(events, done);
        ServeOne(events[done]);
        done := done + 1;
      }
      assert content <= fed && (!exited ==> fed == content + buf);
      Grouped(ClosedBytes(closed), content, buf);
      Grouped(ClosedBytes(closed), content, fed[|content|..]);
    }

    /** The flush left the buffer for later. */
    predicate PutOff(e: Event)
      requires e.FlushNow?
      reads this
    {
      e.w.fsyncRunning && !e.force && 0 < postponedStart <= e.w.now < postponedStart + 2
    }

    /** Policy `everysec` with a disk that works: a flush leaves the buffer full only while a background
        fsync is running, and not for two seconds or more after it was first put off. The first flush of
        a new second that finds no fsync running asks for all bytes of the file to be synced. */
    method ServeEverySecond(events: seq<Event>)
      requires Valid() && !exited && policy == EverySecond && postponedStart <= lastFsync
      requires Smooth(events) && InTime(events, lastFsync) && lastFsync > 0
      modifies this
      ensures Valid() && !exited && policy == EverySecond && Logged() == old(Logged()) + Data(events)
      ensures events != [] && events[|events| - 1].FlushNow? ==>
        && (buf == [] || PutOff(events[|events| - 1]))
        && (NewSecond(events, |events| - 1, old(lastFsync)) ==> content == fed && requested == |content|)
    {
      hide ClosedBytes, Total, IsLatest, NewSecond, InTime;
      ghost var was := Logged();
      ghost var latest := lastFsync;
      NoneLater(events, lastFsync);
      assert was + EMPTY == was;
      var i := 0;
      while i < |events|
        invariant 0 <= i <= |events| && Valid() && !exited && policy == EverySecond
        invariant Logged() == was + Data(events[..i])
        invariant 0 < latest && lastFsync <= latest && postponedStart <= latest
        invariant IsLatest(events, i, old(lastFsync), latest)
        invariant i > 0 && events[i - 1].FlushNow? ==>
          && (buf == [] || PutOff(events[i - 1]))
          && (NewSecond(events, i - 1, old(lastFsync)) ==> content == fed && requested == |content|)
      {
        DataMore(was, events, i);
        var e := events[i];
        LatestMore(events, i, old(lastFsync), latest);
        if Timed(e) { latest := TimeOf(e); }
        match e {
          case Command(data) => Feed(data);
          case Rotate(now) => OpenNew(now);
          case FlushNow(force, w) =>
            ShortNeedsError(w.script, |buf|, 0);
            Flush(force, w);
          case SetPolicy(_) => assert false;
        }
        i := i + 1;
      }
      assert events[..|events|] == events;
    }

    /** Policy `always`: the same account, and after every flush of every run all fed bytes are in
        the file. Unless fsync is switched off, they are on disk, and so is every file closed. */
    method ServeAlways(events: seq<Event>) returns (done: nat)
      requires Valid() && Solid() && !exited && policy == Always
      requires forall i :: 0 <= i < |events| ==> !events[i].SetPolicy?
      modifies this
      ensures Valid() && done <= |events| && (exited || done == |events|)
      ensures Logged() == old(Logged()) + Data(events[..done])
      ensures old(closed) <= closed && |closed| == |old(closed)| + Rotations(events[..done])
      ensures !exited && events != [] && events[|events| - 1].FlushNow? ==>
                content == fed && (AlwaysSyncs(events) ==> durable == |content|)
      ensures AlwaysSyncs(events) && old(durable == |content|) ==>
                forall i :: |old(closed)| <= i < |closed| ==> closed[i].durable == |closed[i].content|
    {
      hide ClosedBytes, Total;
      done := 0;
      ghost var was := Logged();
      ghost var synced := AlwaysSyncs(events) && durable == |content|;
      assert was + EMPTY == was;
      while done < |events| && !exited
        invariant 0 <= done <= |events| && Valid() && policy == Always && (!exited ==> Solid())
        invariant Logged() == was + Data(events[..done])
        invariant !exited && done > 0 && events[done - 1].FlushNow? ==>
                    content == fed && (AlwaysSyncs(events) ==> durable == |content|)
        invariant old(closed) <= closed && |closed| == |old(closed)| + Rotations(events[..done])
        invariant synced ==> (exited || durable == |content|)
        invariant synced ==> forall i :: |old(closed)| <= i < |closed| ==> closed[i].durable == |closed[i].content|
        decreases |events| - done
      {
        DataMore(was, events, done);
        RotationsMore(events, done);
        match events[done] {
          case Command(data) => Feed(data);
          case Rotate(now) => OpenNew(now);
          case FlushNow(force, w) => Flush(force, w);
          case SetPolicy(_) => assert false;
        }
        done := done + 1;
      }
    }
  }

  datatype Event = Command(data: Bytes) | FlushNow(force: bool, w: World) | Rotate(now: nat) | SetPolicy(p: Policy)

  /** The clock an event reads, if it does. */
  predicate Timed(e: Event) { e.FlushNow? || e.Rotate? }

  function TimeOf(e: Event): nat
    requires Timed(e)
  {
    if e.FlushNow? then e.w.now else e.now
  }

  /** The clock does not go back, and starts after `start`. */
  ghost predicate InTime(events: seq<Event>, start: nat) {
    && (forall i :: 0 <= i < |events| && Timed(events[i]) ==> start <= TimeOf(events[i]))
    && forall i, j :: 0 <= i < j < |events| && Timed(events[i]) && Timed(events[j]) ==>
         TimeOf(events[i]) <= TimeOf(events[j])
  }

  /** The latest time read in the first i events. */
  ghost predicate IsLatest(events: seq<Event>, i: nat, start: nat, latest: nat)
    requires i <= |events|
  {
    && (latest == start || exists j :: 0 <= j < i && Timed(events[j]) && TimeOf(events[j]) == latest)
    && forall j :: 0 <= j < i && Timed(events[j]) ==> TimeOf(events[j]) <= latest
  }

  /** The flush is the first event of a new second and finds no fsync running. */
  ghost predicate NewSecond(events: seq<Event>, i: nat, start: nat)
    requires i < |events|
  {
    && events[i].FlushNow? && !events[i].w.fsyncRunning && start < events[i].w.now
    && forall j :: 0 <= j < i && Timed(events[j]) ==> TimeOf(events[j]) < events[i].w.now
  }

  lemma NoneLater(events: seq<Event>, start: nat)
    ensures IsLatest(events, 0, start, start)
  {}

  lemma LatestMore(events: seq<Event>, i: nat, start: nat, latest: nat)
    requires i < |events| && InTime(events, start) && IsLatest(events, i, start, latest)
    ensures IsLatest(events, i + 1, start, if Timed(events[i]) then TimeOf(events[i]) else latest)
    ensures Timed(events[i]) ==> latest <= TimeOf(events[i])
    ensures NewSecond(events, i, start) ==> latest < events[i].w.now && !events[i].w.fsyncRunning
  {}

  /** The disk takes what it is given, fsync is never switched off, and the policy stays. */
  ghost predicate Smooth(events: seq<Event>) {
    forall i :: 0 <= i < |events| ==>
      !events[i].SetPolicy? && (events[i].FlushNow? ==> Error !in events[i].w.script && !events[i].w.fsyncOff)
  }

  /** What the events feed to the log. */
  function Data(events: seq<Event>): Bytes {
    if events == [] then []
    else
      var last := events[|events| - 1];
      Data(events[..|events| - 1]) + if last.Command? then last.data else []
  }

  lemma DataMore(was: Bytes, events: seq<Event>, i: nat)
    requires i < |events|
    ensures was + Data(events[..i + 1]) == was + Data(events[..i]) + if events[i].Command? then events[i].data else []
  {
    assert events[..i + 1][..i] == events[..i];
    Grouped(was, Data(events[..i]), if events[i].Command? then events[i].data else []);
  }

  /** How many files the events close. */
  function Rotations(events: seq<Event>): nat {
    if events == [] then 0
    else Rotations(events[..|events| - 1]) + if events[|events| - 1].Rotate? then 1 else 0
  }

  lemma RotationsMore(events: seq<Event>, i: nat)
    requires i < |events|
    ensures Rotations(events[..i + 1]) == Rotations(events[..i]) + if events[i].Rotate? then 1 else 0
  {
    assert events[..i + 1][..i] == events[..i];
  }

  lemma Grouped(a: Bytes, b: Bytes, c: Bytes)
    ensures a + (b + c) == a + b + c
  {}

  /** fsync is never switched off by a rewrite. */
  predicate AlwaysSyncs(events: seq<Event>) {
    forall i :: 0 <= i < |events| && events[i].FlushNow? ==> !events[i].w.fsyncOff
  }

  predicate NeverUndoes(e: Event) { e.FlushNow? ==> !e.w.truncates || Error !in e.w.script }

  lemma {:induction false} ShortNeedsError(script: seq<WriteResult>, len: nat, done: nat)
    requires done <= len
    ensures Error !in script ==> Total(script, len, done) == len
    decreases |script|
  {
    if done < len && script != [] {
      match script[0]
      case Interrupted => ShortNeedsError(script[1..], len, done);
      case Error =>
      case Wrote(n) => ShortNeedsError(script[1..], len, done + Taken(n, len - done));
    }
  }

  // ---------------------------------------------------------------- a hole in the file

  /** A flush of everything: nothing goes wrong. */
  const GOOD := World([], true, 1, false, false, true)

  lemma Totals(len: nat, j: nat, more: nat)
    requires 0 < j < more
    ensures Total([], len, 0) == len && Total([Wrote(j), Error], more, 0) == j
  {
    var script := [Wrote(j), Error];
    assert script[1..] == [Error];
    assert Total(script[1..], more, j) == j;
  }

  /** A file opened by a rotation holds `before`; `j` bytes of `next` are written and taken back; then
      `next` is written again, past the end, and the file holds zeros that nobody fed. */
  method LeaveHole(before: Bytes, next: Bytes, j: nat) returns (a: Aof)
    requires 0 < j < |next|
    ensures a.fed == before + next && a.content == before + Zeros(j) + next && !a.exited
  {
    hide Total, Put, ClosedBytes, Zeros;
    a := new Aof.OpenOnStart([], EverySecond);
    a.OpenNew(0);
    a.Feed(before);
    Totals(|before|, j, |next|);
    Totals(|next|, j, |next|);
    FlushWhole(a);
    assert a.content == before && a.buf == [];
    a.Feed(next);
    assert a.buf == next;
    a.Flush(true, GOOD.(script := [Wrote(j), Error]));
    assert a.offset == |before| + j && a.buf == next && !a.append;
    var _ := a.AofWrite([]);                  // the write of the next flush
    assert next[..|next|] == next;
    HoleFollows(before, j, next);
  }

  method FlushWhole(a: Aof)
    requires a.Valid() && !a.exited && a.policy == EverySecond
    modifies a
    ensures a.Valid() && !a.exited && a.content == a.fed == old(a.fed) && a.buf == []
    ensures a.policy == EverySecond && a.append == old(a.append) && a.closed == old(a.closed)
  {
    hide Total, ClosedBytes;
    Totals(|a.buf|, 1, 2);
    a.Flush(true, GOOD);
    assert |a.content + a.buf| == |a.content| + |a.buf|;
  }
}
