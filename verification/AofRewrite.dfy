/**
 The append-only log while the server runs: commands are fed to a buffer, the buffer reaches the
 current log, background rewrites replace the files the manifest names, and the server may crash.

 Every disk operation of `AofServer` appends a crash point; the class invariant says that
 whichever of them survives, loading the files named by the manifest and then the items still
 buffered gives the live dataset.
 */
module AofRewrite {
  import opened AofManifest
  import opened Wrappers

  datatype AofState = Off | WaitRewrite | On

  /** What the log descriptor refers to; an unlinked file is still writable but nobody can load it. */
  datatype Descriptor = Closed | Open(name: Name) | Unlinked

  datatype Server<D, C> = Server(
    state: AofState, mem: Memory, disk: Disk<D, C>,
    pending: seq<Item<C>>,     // aof_buf
    selected: int,             // the database the last item was fed for, -1 if none
    data: D,                   // the live dataset
    fd: Descriptor,
    child: Option<D>)          // the snapshot a rewriting child is saving

  /** Commands are fed to the buffer. */
  predicate Logs<D, C>(s: Server<D, C>) { s.state == On || (s.state == WaitRewrite && s.child.Some?) }

  predicate HasLog<D, C>(s: Server<D, C>) {
    s.fd.Open? && s.fd.name in s.disk.files && s.disk.files[s.fd.name].Log?
  }

  /** What the current log holds. */
  function LogItems<D, C>(s: Server<D, C>): seq<Item<C>> {
    if HasLog(s) then s.disk.files[s.fd.name].items else []
  }

  predicate TornLog<D, C>(s: Server<D, C>) { HasLog(s) && s.disk.files[s.fd.name].torn }

  /** The current log can take the buffer: the database the server takes for selected is the one
      that will be selected there, and a torn item is the first one of the buffer. */
  predicate LogOk<D, C>(s: Server<D, C>) {
    && HasLog(s)
    && (s.selected == -1 || s.selected == DbAfter(0, LogItems(s) + s.pending))
    && (TornLog(s) ==> s.pending != [])
  }

  /** Loading the disk and then running the buffered items gives the live dataset. */
  ghost predicate Recovers<D, C>(empty: D, exec: (D, nat, C) -> D, s: Server<D, C>) {
    && Load(empty, exec, s.disk).Some?
    && Replay(exec, Load(empty, exec, s.disk).value, DbAfter(0, LogItems(s)), s.pending) == s.data
  }

  /** The manifest on disk is the one in memory, except that it may list one more incremental
      file, an empty one, left by a rotation that was given up after its manifest was in place. */
  ghost predicate InStep<D, C>(lines: Lines, m: Memory, files: map<Name, File<D, C>>) {
    && lines.base == m.base && Ordered(lines)
    && (lines.incr == m.incr
        || (lines.incr == m.incr + [m.currIncr + 1]
            && IncrName(m.currIncr + 1) in files && files[IncrName(m.currIncr + 1)] == Log([], false)))
  }

  /** It does list one more. */
  predicate Extra<D, C>(s: Server<D, C>) { s.disk.manifest.Some? && s.disk.manifest.value.incr != s.mem.incr }

  ghost predicate OnOk<D, C>(empty: D, exec: (D, nat, C) -> D, s: Server<D, C>) {
    && s.mem.incr != [] && s.mem.incr[|s.mem.incr| - 1] == s.mem.currIncr
    && s.fd == Open(IncrName(s.mem.currIncr)) && LogOk(s)
    && s.disk.manifest.Some? && InStep(s.disk.manifest.value, s.mem, s.disk.files)
    && Recovers(empty, exec, s)
  }

  /** What the child has saved plus what was logged since the fork is the live dataset. */
  ghost predicate ChildOk<D, C>(exec: (D, nat, C) -> D, s: Server<D, C>) {
    && LogOk(s) && (s.state == WaitRewrite ==> s.fd.name == TempIncr)
    && s.child.Some? && Replay(exec, s.child.value, 0, LogItems(s) + s.pending) == s.data
  }

  ghost predicate Inv<D, C>(empty: D, exec: (D, nat, C) -> D, s: Server<D, C>) {
    && MemOk(s.mem)
    && (s.disk.manifest.Some? ==> Monotonic(s.disk.manifest.value.incr))
    && (s.state == Off || (s.state == WaitRewrite && s.child.None?) ==> s.pending == [])
    && (s.state != Off && s.child.Some? ==> ChildOk(exec, s))
    && (s.state == On ==> OnOk(empty, exec, s))
  }

  /** A crash at this point loses nothing but the buffer, and the loader accepts the manifest. */
  ghost predicate PointOk<D, C>(empty: D, exec: (D, nat, C) -> D, p: Server<D, C>) {
    && (p.disk.manifest.Some? ==> Monotonic(p.disk.manifest.value.incr))
    && (p.state == On ==> Recovers(empty, exec, p))
  }

  ghost predicate AllOk<D, C>(empty: D, exec: (D, nat, C) -> D, points: seq<Server<D, C>>) {
    forall i :: 0 <= i < |points| ==> PointOk(empty, exec, points[i])
  }

  lemma AddPoint<D, C>(empty: D, exec: (D, nat, C) -> D, points: seq<Server<D, C>>, p: Server<D, C>)
    requires AllOk(empty, exec, points) && PointOk(empty, exec, p)
    ensures AllOk(empty, exec, points + [p])
  {}

  /** Outcome of replacing the manifest: done, failed before the rename, or failed after it
      (the directory could not be synced) although the new manifest is already in place. */
  datatype Persisted = Written | FailedEarly | FailedLate

  // ---------------------------------------------------------------- what the steps make of the server

  /** What one command adds to the buffer when `selected` is the database selected last. */
  function Items<C>(selected: int, db: nat, c: C): seq<Item<C>> {
    (if db != selected then [Select(db)] else []) + [Run(c)]
  }

  function Fed<D, C>(exec: (D, nat, C) -> D, s: Server<D, C>, db: nat, c: C): Server<D, C> {
    s.(data := exec(s.data, db, c),
       pending := if Logs(s) then s.pending + Items(s.selected, db, c) else s.pending,
       selected := if s.state == Off then s.selected else db)
  }

  /** The first `k` buffered items reach the current log, and the beginning of the next if `part`. */
  function Flushed<D, C>(s: Server<D, C>, k: nat, part: bool): Server<D, C>
    requires k <= |s.pending|
  {
    if !HasLog(s) || (k == 0 && !part) then s
    else
      var log := Log(LogItems(s) + s.pending[..k], part);
      s.(disk := s.disk.(files := s.disk.files[s.fd.name := log]), pending := s.pending[k..])
  }

  function Truncated<D, C>(s: Server<D, C>, n: Name): Server<D, C> {
    s.(disk := s.disk.(files := s.disk.files[n := Log([], false)]))
  }

  function Persist<D, C>(s: Server<D, C>, m: Memory): Server<D, C> {
    s.(disk := s.disk.(manifest := Some(ToLines(m))))
  }

  /** A new log has been opened, or not: `created` says whether the file could be created. */
  function Opened<D, C>(s: Server<D, C>, created: bool, r: Persisted): Server<D, C> {
    if s.state == Off || !created then s
    else if s.state == WaitRewrite then Truncated(s, TempIncr).(fd := Open(TempIncr))
    else
      var m := WithNewIncr(s.mem);
      var t := Truncated(s, IncrName(m.currIncr));
      match r
      case FailedEarly => t
      case FailedLate => Persist(t, m)
      case Written => Persist(t, m).(mem := m, fd := Open(IncrName(m.currIncr)))
  }

  /** Nothing stands in the way of a rewrite. */
  predicate Startable(state: AofState, busy: bool, created: bool, r: Persisted, forked: bool) {
    !busy && (state == Off || (created && (state == On ==> r == Written))) && forked
  }

  function Rewriting<D, C>(s: Server<D, C>, busy: bool, k: nat, part: bool, created: bool, r: Persisted, forked: bool)
      : Server<D, C>
    requires k <= |s.pending|
  {
    if busy then s
    else
      var t := Opened(Flushed(s.(selected := -1), k, part), created, r);
      if Startable(s.state, busy, created, r, forked) then t.(child := Some(t.data)) else t
  }

  // ---------------------------------------------------------------- when a step loses data

  /** A part of an item is written to a log that is not the last one the manifest on disk lists. */
  predicate FlushBreaks<D, C>(s: Server<D, C>, part: bool) { part && s.state == On && Extra(s) }

  /** The buffer runs alike from database 0, where the replay of a new log begins. */
  predicate Carries<D(==), C>(empty: D, exec: (D, nat, C) -> D, s: Server<D, C>) {
    var d := Load(empty, exec, s.disk);
    d.Some? && Replay(exec, d.value, 0, s.pending) == s.data
  }

  /** A torn log is no longer the last one, or the buffer goes on in a new log it does not fit. */
  predicate RotationBreaks<D(==), C>(empty: D, exec: (D, nat, C) -> D, s: Server<D, C>, created: bool, r: Persisted) {
    s.state == On && created && r != FailedEarly && (TornLog(s) || (r == Written && !Carries(empty, exec, s)))
  }

  /** The child's snapshot contains commands that are still in the buffer. */
  predicate ForkBreaks<D(==), C>(exec: (D, nat, C) -> D, s: Server<D, C>) {
    s.state == On && Replay(exec, s.data, 0, s.pending) != s.data
  }

  predicate RewriteBreaks<D(==), C>(empty: D, exec: (D, nat, C) -> D, s: Server<D, C>, busy: bool, k: nat, part: bool,
                                    created: bool, r: Persisted, forked: bool)
    requires k <= |s.pending|
  {
    var f := Flushed(s.(selected := -1), k, part);
    !busy && (
      || FlushBreaks(s, part)
      || RotationBreaks(empty, exec, f, created, r)
      || (Startable(s.state, busy, created, r, forked) && ForkBreaks(exec, f)))
  }

  /** The log is on, and the new manifest is in place when its replacement is reported as failed: the
      base it names is unlinked. */
  predicate ExitBreaks<D, C>(s: Server<D, C>, success: bool, renamedBase: bool, r: Persisted) {
    s.child.Some? && s.state == On && success && renamedBase && r == FailedLate
  }

  class AofServer<D(==, !new), C(!new)> {
    const empty: D
    const exec: (D, nat, C) -> D

    var state: AofState
    var mem: Memory
    var disk: Disk<D, C>
    var pending: seq<Item<C>>
    var selected: int
    var data: D
    var fd: Descriptor
    var child: Option<D>
    ghost var points: seq<Server<D, C>>

    function Value(): Server<D, C>
      reads this
    {
      Server(state, mem, disk, pending, selected, data, fd, child)
    }

    ghost predicate Valid()
      reads this
    {
      Inv(empty, exec, Value()) && AllOk(empty, exec, points) && Recorded()
    }

    /** What is on disk now is the last crash point. */
    ghost predicate Recorded()
      reads this
    {
      if points == [] then disk == Disk(None, map[]) else points[|points| - 1].disk == disk
    }

    /** The only way the disk changes: every change is a crash point. */
    method WriteDisk(d: Disk<D, C>)
      modifies this`disk, this`points
      ensures disk == d && points == old(points) + [Value()] && Recorded()
    {
      disk := d;
      points := points + [Value()];
    }

    /** A server that has never had a log. */
    constructor (empty: D, exec: (D, nat, C) -> D)
      ensures Valid() && state == Off && data == empty && points == [] && pending == [] && child == None
      ensures this.empty == empty && this.exec == exec
    {
      this.empty, this.exec := empty, exec;
      state, mem := Off, Memory(None, [], [], 0, 0);
      disk := Disk(None, map[]);
      pending, selected, data, fd, child := [], -1, empty, Closed, None;
      points := [];
    }

    /** A write command runs on database `db` and is fed to the log buffer. */
    method Feed(db: nat, c: C)
      requires Valid()
      modifies this`data, this`pending, this`selected
      ensures Valid() && Value() == Fed(exec, old(Value()), db, c)
    {
      FeedKeeps(empty, exec, Value(), db, c);
      data := exec(data, db, c);
      if state == Off { return; }
      var items: seq<Item<C>> := [];
      if db != selected {
        items := [Select(db)];
      }
      items := items + [Run(c)];
      if state == On || (state == WaitRewrite && child.Some?) {
        pending := pending + items;
      }
      selected := db;
    }

    /** The first `k` buffered items reach the current log file, and the beginning of the next if
        `part`. */
    method Flush(k: nat, part: bool)
      requires Valid() && k <= |pending| && (part ==> k < |pending|)
      modifies this`pending, this`disk, this`points
      ensures Value() == Flushed(old(Value()), k, part) && old(points) <= points
      ensures Valid() <==> !FlushBreaks(old(Value()), part)
      ensures !Valid() ==> !AllOk(empty, exec, points)
    {
      if k == 0 && !part { return; }
      ghost var was := Value();
      FlushTarget(empty, exec, was);
      FlushKeeps(empty, exec, was, k, part);
      var log := Log(disk.files[fd.name].items + pending[..k], part);
      pending := pending[k..];
      WriteDisk(disk.(files := disk.files[fd.name := log]));
      assert Value() == Flushed(was, k, part);
      assert points[|points| - 1] == Value();
    }

    /** Replaces the manifest on disk by `m`. */
    method PersistManifest(m: Memory, r: Persisted) returns (ok: bool)
      modifies this`disk, this`points
      ensures ok <==> r == Written
      ensures disk == if r == FailedEarly then old(disk) else old(disk).(manifest := Some(ToLines(m)))
      ensures points == if r == FailedEarly then old(points) else old(points) + [Value()]
    {
      if r != FailedEarly { WriteDisk(disk.(manifest := Some(ToLines(m)))); }
      ok := r == Written;
    }

    /** Opens a new incremental file and lists it, or rolls everything back. The caller has made the
        next command select its database. The buffer goes on in the new file. */
    method OpenNewIncrAofForAppend(created: bool, r: Persisted) returns (ok: bool)
      requires child.None? && selected == -1
      modifies this`disk, this`points, this`mem, this`fd
      ensures Value() == Opened(old(Value()), created, r) && old(points) <= points
      ensures ok <==> state == Off || (created && (state == On ==> r == Written))
      ensures old(Valid()) ==> (Valid() <==> !RotationBreaks(empty, exec, old(Value()), created, r))
      ensures old(Valid()) ==>
                Valid() || !AllOk(empty, exec, points) || (state == On && !OnOk(empty, exec, Value()))
    {
      if state == Off { return true; }
      if state == WaitRewrite {
        if !created { return false; }
        WriteDisk(disk.(files := disk.files[TempIncr := Log([], false)]));
        fd := Open(TempIncr);
        return true;
      }
      if !created { return false; }
      ok := Rotate(r);
    }

    /** The part of opening a new incremental file that is specific to a log that is on. */
    method Rotate(r: Persisted) returns (ok: bool)
      requires child.None? && state == On && selected == -1
      modifies this`disk, this`points, this`mem, this`fd
      ensures Value() == Opened(old(Value()), true, r) && old(points) <= points
      ensures ok <==> r == Written
      ensures old(Valid()) ==> (Valid() <==> !RotationBreaks(empty, exec, old(Value()), true, r))
      ensures old(Valid()) ==> Valid() || !AllOk(empty, exec, points) || !OnOk(empty, exec, Value())
    {
      hide LoadIncrs, Replay, Load, Inv, AllOk, Recovers, OnOk;
      ghost var was := Value();
      var m := WithNewIncr(mem);
      WriteDisk(disk.(files := disk.files[IncrName(m.currIncr) := Log([], false)]));
      ghost var created := Value();
      if old(Valid()) { RotateKeeps(empty, exec, was, old(points)); }
      ok := PersistManifest(m, r);
      assert Value() == if r == FailedEarly then created else Persist(created, m);
      if ok {
        fd := Open(IncrName(m.currIncr));
        mem := m;
      }
    }

    /** Starts a rewriting child; `flushed` items of the buffer, and a part of one more if `part`,
        reach the old log first. What is left over goes to the new log: exactly when this loses or
        repeats something is said by RewriteBreaks. */
    method RewriteAppendOnlyFileBackground(otherChild: bool, flushed: nat, part: bool, created: bool, r: Persisted,
                                           forked: bool) returns (ok: bool)
      requires Valid() && flushed <= |pending| && (part ==> flushed < |pending|)
      modifies this`disk, this`points, this`mem, this`fd, this`pending, this`selected, this`child
      ensures var busy := otherChild || old(child).Some?;
        && Value() == Rewriting(old(Value()), busy, flushed, part, created, r, forked)
        && (ok <==> Startable(state, busy, created, r, forked))
        && (Valid() <==> !RewriteBreaks(empty, exec, old(Value()), busy, flushed, part, created, r, forked))
      ensures old(points) <= points
      ensures flushed == |old(pending)| ==> Valid()
    {
      hide LoadIncrs, Load, Replay, InStep, PointOk, Inv, AllOk, OnOk, Opened, Flushed, RotationBreaks, ForkBreaks;
      if otherChild || child.Some? { return false; }
      ghost var was := Value();
      ghost var reset := was.(selected := -1);
      Reset(empty, exec, was);
      selected := -1;
      Flush(flushed, part);
      ghost var flat, flatPoints := Value(), points;
      OpenedSame(flat, created, r);
      ok := OpenNewIncrAofForAppend(created, r);
      if flushed == |old(pending)| { NothingBreaks(empty, exec, reset, flushed, created, r); }
      BadStaysBad(empty, exec, flatPoints, points);
      if !ok { return false; }
      if !forked { return false; }
      ForkKeeps(empty, exec, flat, created, r);
      child := Some(data);
    }

    method StartAppendOnly(otherChild: bool, created: bool, r: Persisted, forked: bool) returns (ok: bool)
      requires Valid() && state == Off
      modifies this
      ensures Valid() && old(points) <= points && data == old(data)
      ensures state == if ok then WaitRewrite else Off
      ensures pending == [] && (ok <==> otherChild || (created && forked))
      ensures ok ==> child == if otherChild then None else Some(data)
    {
      hide LoadIncrs, Load, Replay, InStep, PointOk;
      child := None;
      state := WaitRewrite;
      if otherChild { return true; }
      ok := RewriteAppendOnlyFileBackground(false, 0, false, created, r, forked);
      if !ok { state := Off; }
    }

    method StopAppendOnly(flushed: nat, part: bool)
      requires Valid() && state != Off && flushed <= |pending| && (part ==> flushed < |pending|)
      modifies this
      ensures Valid() <==> !FlushBreaks(old(Value()), part)
      ensures state == Off && old(points) <= points && data == old(data) && pending == [] && child == None
    {
      hide LoadIncrs, Load, Replay, MemOk, Monotonic, InStep, PointOk;
      Flush(flushed, part);
      fd := Closed;
      selected := -1;
      state := Off;
      child := None;
      pending := [];
    }

    /** Unlinks history files (those in `stuck` refuse to go) and forgets them. */
    method DelHistoryFiles(disabled: bool, stuck: set<Name>, r: Persisted)
      requires Settled(empty, exec, Value()) && AllOk(empty, exec, points) && Recorded()
      modifies this`disk, this`mem, this`points
      ensures Settled(empty, exec, Value()) && AllOk(empty, exec, points) && old(points) <= points && Recorded()
      ensures mem == if disabled then old(mem) else old(mem).(history := [])
      ensures old(OnOk(empty, exec, Value())) ==> OnOk(empty, exec, Value())
      ensures OnlyLost(old(disk.files), disk.files, old(mem.history))
      ensures !disabled ==> Cleared(old(mem.history), stuck, disk.files)
    {
      hide LoadIncrs, Load, Replay, MemOk, Monotonic, InStep;
      if disabled || |mem.history| == 0 { return; }
      while |mem.history| > 0
        invariant Settled(empty, exec, Value()) && AllOk(empty, exec, points) && old(points) <= points && Recorded()
        invariant mem == old(mem).(history := mem.history)
        invariant old(OnOk(empty, exec, Value())) ==> OnOk(empty, exec, Value())
        invariant forall n :: n in mem.history ==> n in old(mem.history)
        invariant OnlyLost(old(disk.files), disk.files, old(mem.history))
        invariant forall n :: n in old(mem.history) ==> n in mem.history || n in stuck || n !in disk.files
        decreases |mem.history|
      {
        ghost var was := Value();
        var h := mem.history[0];
        if h !in stuck {
          UnlinkKeeps(empty, exec, was);
          WriteDisk(disk.(files := disk.files - {h}));
        }
        ForgetKeeps(empty, exec, Value());
        mem := mem.(history := mem.history[1..]);
      }
      PersistKeeps(empty, exec, Value());
      AddPoint(empty, exec, points, Persist(Value(), mem));
      var _ := PersistManifest(mem, r);
    }

    /** The rewriting child has exited. On success its snapshot becomes the new base, the logs it
        covers become history, and a log that was waiting for its first rewrite is on.
        The one case that loses data: the log is on and the new manifest is already in place
        when its replacement is reported as failed, so the base it names is unlinked. */
    method BackgroundRewriteDone(success: bool, rdb: bool, renamedBase: bool, renamedIncr: bool, r: Persisted,
                                 gcDisabled: bool, stuck: set<Name>, gcResult: Persisted)
      requires Valid() && child.Some?
      modifies this
      ensures Valid() <==> !ExitBreaks(old(Value()), success, renamedBase, r)
      ensures child.None? && data == old(data) && old(points) <= points
      ensures old(state) == Off ==> state == Off
      ensures old(state) == On ==> state == On && pending == old(pending)
      ensures old(state) == WaitRewrite ==>
                state == if success && renamedBase && renamedIncr && r == Written then On else WaitRewrite
      ensures pending == if state == WaitRewrite then [] else old(pending)
      ensures success && renamedBase && r == Written && old(state) == On ==>
                mem.incr == [old(mem.currIncr)] && mem.base == Some(BaseName(old(mem.currBase) + 1, rdb))
      ensures success && renamedBase && r == Written && old(state) == On && !gcDisabled ==>
                Cleared(NewMemory(old(mem), rdb, false, true).history, stuck, disk.files)
    {
      hide LoadIncrs, Replay, Load, MemOk, Monotonic, InStep, PointOk, NewMemory, Cleared, Inv, Settled, AllOk, OnOk;
      InvParts(empty, exec, Value());
      if success && renamedBase {
        var newBase := BaseName(mem.currBase + 1, rdb);
        RenameTempBase(newBase);
        InstallRewrite(newBase, renamedIncr, r, gcDisabled, stuck, gcResult);
      }
      ChildGone(empty, exec, Value());
      child := None;
      if state == WaitRewrite { DropTempIncr(); }
    }

    method RenameTempBase(newBase: Name)
      requires Valid() && child.Some? && newBase.BaseName? && newBase.seqno == mem.currBase + 1
      modifies this`disk, this`points
      ensures Valid() && old(points) <= points
      ensures newBase in disk.files && disk.files[newBase] == Snapshot(child.value)
    {
      NewBaseKeeps(empty, exec, Value(), newBase);
      WriteDisk(disk.(files := disk.files[newBase := Snapshot(child.value)]));
    }

    /** A server still waiting for its first rewrite forgets what it has logged so far. */
    method DropTempIncr()
      requires Settled(empty, exec, Value()) && AllOk(empty, exec, points) && state == WaitRewrite && child.None?
          && Recorded()
      modifies this`pending, this`fd, this`disk, this`points
      ensures Valid() && old(points) <= points && pending == []
    {
      pending := [];
      if fd == Open(TempIncr) { fd := Unlinked; }
      Unlink(TempIncr);
    }

    /** From the renamed base file to the new manifest, or back. */
    method InstallRewrite(newBase: Name, renamedIncr: bool, r: Persisted,
                          gcDisabled: bool, stuck: set<Name>, gcResult: Persisted)
      requires Valid() && child.Some? && newBase.BaseName? && newBase.seqno == mem.currBase + 1
      requires newBase in disk.files && disk.files[newBase] == Snapshot(child.value)
      modifies this`disk, this`points, this`mem, this`fd, this`state
      ensures old(points) <= points && Recorded()
      ensures old(state) == On && r == FailedLate ==> !AllOk(empty, exec, points)
      ensures !(old(state) == On && r == FailedLate) ==> AllOk(empty, exec, points) && Settled(empty, exec, Value())
      ensures state == if old(state) == WaitRewrite && renamedIncr && r == Written then On else old(state)
      ensures old(state) == On && r == Written ==> mem.incr == [old(mem.currIncr)] && mem.base == Some(newBase)
      ensures old(state) == On && r == Written && !gcDisabled ==>
                Cleared(NewMemory(old(mem), newBase.rdb, false, true).history, stuck, disk.files)
    {
      hide LoadIncrs, Load, Replay, MemOk, Monotonic, InStep, NewMemory, Cleared;
      var waiting := state == WaitRewrite;
      if waiting {
        if !renamedIncr {
          Unlink(newBase);
          return;
        }
        RenameTempIncr();
      }
      var ok := Publish(newBase, waiting, r, gcDisabled, stuck, gcResult);
      if waiting {
        if ok {
          state := On;
        } else {
          Unlink(IncrName(mem.currIncr + 1));
          fd := Unlinked;
        }
      }
    }

    /** Removes a file while the log is not on. */
    method Unlink(n: Name)
      requires Settled(empty, exec, Value()) && AllOk(empty, exec, points) && state != On
      modifies this`disk, this`points
      ensures Settled(empty, exec, Value()) && AllOk(empty, exec, points) && old(points) <= points && Recorded()
      ensures disk == old(disk).(files := old(disk.files) - {n})
    {
      WriteDisk(disk.(files := disk.files - {n}));
    }

    /** The manifest a finished rewrite asks for, built on a copy of the one in memory. */
    method DraftManifest(rdb: bool, waiting: bool) returns (m: Memory)
      requires MemOk(mem) && (state == On ==> mem.incr != [] && mem.incr[|mem.incr| - 1] == mem.currIncr)
      ensures MemOk(m) && m.base == Some(BaseName(mem.currBase + 1, rdb))
      ensures m.currIncr == if waiting then mem.currIncr + 1 else mem.currIncr
      ensures fd != Closed && (waiting || state == On) ==> m.incr == [m.currIncr]
      ensures m == NewMemory(mem, rdb, waiting, fd != Closed)
    {
      NewMemoryOk(mem, rdb, waiting, fd != Closed);
      m := WithNewBase(mem, rdb);
      if waiting { m := WithNewIncr(m); }
      m := MarkRewrittenIncrAofAsHistory(m, fd != Closed);
    }

    /** Moves entries one by one, from the newest down, to the head of the history list. */
    method MarkRewrittenIncrAofAsHistory(m0: Memory, writing: bool) returns (m: Memory)
      ensures m == MarkRewritten(m0, writing)
    {
      m := m0;
      if |m.incr| == 0 { return; }
      var n := if writing then |m.incr| - 1 else |m.incr|;
      var j := n;
      assert IncrNames(m0.incr[n..n]) + m0.history == m0.history;
      while j > 0
        invariant 0 <= j <= n
        invariant m == m0.(history := IncrNames(m0.incr[j..n]) + m0.history)
      {
        j := j - 1;
        OneMoreName(m0.incr, j, n, m0.history);
        m := m.(history := [IncrName(m.incr[j])] + m.history);
      }
      assert m0.incr[0..n] == m0.incr[..n];
      m := m.(incr := m.incr[n..]);
    }

    /** The temporary log of a waiting server gets its final name; the descriptor follows it. */
    method RenameTempIncr()
      requires Valid() && child.Some? && state == WaitRewrite
      modifies this`disk, this`points, this`fd
      ensures AllOk(empty, exec, points) && old(points) <= points && Settled(empty, exec, Value()) && Recorded()
      ensures fd == Open(IncrName(mem.currIncr + 1)) && LogOk(Value())
      ensures Replay(exec, child.value, 0, LogItems(Value()) + pending) == data
      ensures forall n :: n in old(disk.files) && n.BaseName? ==> n in disk.files && disk.files[n] == old(disk.files[n])
    {
      var newIncr := IncrName(mem.currIncr + 1);
      fd := Open(newIncr);
      WriteDisk(disk.(files := disk.files[newIncr := disk.files[TempIncr]] - {TempIncr}));
    }

    /** The child's snapshot is in place under its final name, and so is the log since the fork. */
    ghost predicate Covered(newBase: Name, waiting: bool)
      reads this
    {
      && newBase.BaseName? && newBase.seqno == mem.currBase + 1 && child.Some?
      && newBase in disk.files && disk.files[newBase] == Snapshot(child.value)
      && fd == Open(IncrName(if waiting then mem.currIncr + 1 else mem.currIncr)) && LogOk(Value())
      && Replay(exec, child.value, 0, LogItems(Value()) + pending) == data
    }

    /** Publishes a new manifest, makes it the one in memory and removes the history it lists. */
    method Publish(newBase: Name, waiting: bool, r: Persisted, gcDisabled: bool, stuck: set<Name>, gcResult: Persisted)
      returns (ok: bool)
      requires Settled(empty, exec, Value()) && AllOk(empty, exec, points) && Recorded()
      requires newBase.BaseName? && newBase.seqno == mem.currBase + 1
      requires waiting == (state == WaitRewrite) && (state != Off ==> Covered(newBase, waiting))
      modifies this`disk, this`points, this`mem
      ensures ok <==> r == Written
      ensures old(points) <= points && Recorded()
      ensures state == On && r == FailedLate ==> !AllOk(empty, exec, points)
      ensures !(state == On && r == FailedLate) ==> AllOk(empty, exec, points) && Settled(empty, exec, Value())
      ensures ok && state != Off ==>
          OnOk(empty, exec, Value()) && mem.incr == [mem.currIncr] && mem.base == Some(newBase)
      ensures ok && state == On ==> mem.currIncr == old(mem.currIncr)
      ensures !ok ==> mem == old(mem)
      ensures ok && !gcDisabled ==>
                Cleared(NewMemory(old(mem), newBase.rdb, waiting, fd != Closed).history, stuck, disk.files)
    {
      hide LoadIncrs, Load, Replay, Monotonic, InStep, NewMemory, Cleared;
      var m := DraftManifest(newBase.rdb, waiting);
      if state != Off { NewPairLoads(empty, exec, Value(), m); }
      ok := PublishOrUndo(m, newBase, r);
      if ok {
        mem := m;
        DelHistoryFiles(gcDisabled, stuck, gcResult);
      }
    }

    /** Publishes the manifest `m`; if that is reported to fail, the new base file goes again. */
    method PublishOrUndo(m: Memory, newBase: Name, r: Persisted) returns (ok: bool)
      requires Settled(empty, exec, Value()) && AllOk(empty, exec, points) && MemOk(m) && m.base == Some(newBase)
          && Recorded()
      requires newBase.BaseName? && newBase.seqno == mem.currBase + 1
      requires PointOk(empty, exec, Persist(Value(), m))
      modifies this`disk, this`points
      ensures ok <==> r == Written
      ensures old(points) <= points && Recorded()
      ensures state == On && r == FailedLate ==> !AllOk(empty, exec, points)
      ensures !(state == On && r == FailedLate) ==> AllOk(empty, exec, points)
      ensures ok ==> Value() == old(Persist(Value(), m))
      ensures !ok && !(state == On && r == FailedLate) ==> Settled(empty, exec, Value())
    {
      ghost var was := Value();
      AddPoint(empty, exec, points, Persist(was, m));
      ok := PersistManifest(m, r);
      if !ok {
        if r == FailedEarly { UndoKeeps(empty, exec, was, newBase); }
        WriteDisk(disk.(files := disk.files - {newBase}));
        assert points[|points| - 1] == Value();
      }
    }

    /** A new process takes over after a crash: it loads what the manifest names, cuts a torn log back
        and goes on appending to the last incremental file. Only the buffered items are lost. */
    method Restart()
      requires Valid() && state == On
      modifies this
      ensures Valid() && state == On && old(points) <= points && pending == [] && child == None
      ensures Load(empty, exec, old(disk)) == Some(data)
      ensures Replay(exec, data, DbAfter(0, LogItems(old(Value()))), old(pending)) == old(data)
    {
      hide LoadIncrs, Replay, DbAfter, PointOk;
      var lines := disk.manifest.value;
      ghost var was := Value();
      RestartKeeps(empty, exec, was);
      data := Load(empty, exec, disk).value;
      mem := Reloaded(lines);
      pending, selected, child := [], -1, None;
      fd := Open(IncrName(mem.currIncr));
      if disk.files[fd.name].torn {
        WriteDisk(disk.(files := disk.files[fd.name := disk.files[fd.name].(torn := false)]));
      } else {
        assert disk.files[fd.name := disk.files[fd.name].(torn := false)] == disk.files;
      }
      assert Value() == Restarted(empty, exec, was);
    }

    /** Garbage collection of history files outside a rewrite. */
    method PurgeHistory(disabled: bool, stuck: set<Name>, r: Persisted)
      requires Valid()
      modifies this`disk, this`mem, this`points
      ensures Valid() && old(points) <= points
      ensures !disabled ==> mem.history == [] && Cleared(old(mem.history), stuck, disk.files)
    {
      ghost var was := Value();
      if state != Off && child.Some? { WritingNotHistory(empty, exec, was); }
      DelHistoryFiles(disabled, stuck, r);
    }

    /** The next event would make the log lose or repeat something. */
    predicate Breaks(e: Event<C>)
      reads this
    {
      match e
      case FlushSome(left, part) => Fits(pending, left, part) && FlushBreaks(Value(), part)
      case Disable(left, part) => state != Off && Fits(pending, left, part) && FlushBreaks(Value(), part)
      case Rewrite(other, left, part, created, r, forked) =>
        && Fits(pending, left, part)
        && RewriteBreaks(empty, exec, Value(), other || child.Some?, |pending| - left, part, created, r, forked)
      case ChildExit(success, _, renamedBase, _, r, _, _, _) => ExitBreaks(Value(), success, renamedBase, r)
      case _ => false
    }

    /** Any sequence of commands, flushes, rewrites with any outcome, garbage collections, switches
        and crashes keeps the invariant up to the first event that breaks it, so every state the disk
        is in on the way is recoverable; `trail` is the server before and after each event. */
    method Serve(events: seq<Event<C>>) returns (done: nat, ghost trail: seq<Server<D, C>>)
      requires Valid()
      modifies this
      ensures Valid() && old(points) <= points && done <= |events| && (done < |events| ==> Breaks(events[done]))
      ensures IsTrail(empty, exec, events[..done], trail) && trail[0] == old(Value()) && trail[done] == Value()
      ensures (forall i :: 0 <= i < |events| ==> Tame(events[i])) ==> done == |events|
    {
      hide Inv, AllOk, Replay, StepOk, RewriteBreaks, Tame;
      done, trail := 0, [Value()];
      while done < |events| && !Breaks(events[done])
        invariant Valid() && old(points) <= points && done <= |events|
        invariant IsTrail(empty, exec, events[..done], trail) && trail[0] == old(Value()) && trail[done] == Value()
        decreases |events| - done
      {
        ServeOne(events[done]);
        TrailMore(empty, exec, events, done, trail, Value());
        trail := trail + [Value()];
        done := done + 1;
      }
      if done < |events| && Tame(events[done]) { TameNever(events[done]); }
    }

    lemma TameNever(e: Event<C>)
      requires Valid() && Tame(e)
      ensures !Breaks(e)
    {
      hide Inv, AllOk, Replay, Flushed, RotationBreaks, ForkBreaks;
      if e.Rewrite? {
        Reset(empty, exec, Value());
        NothingBreaks(empty, exec, Value().(selected := -1), |pending|, e.created, e.r);
      }
    }

    method ServeOne(e: Event<C>)
      requires Valid() && !Breaks(e)
      modifies this
      ensures Valid() && old(points) <= points && StepOk(empty, exec, old(Value()), e, Value())
    {
      hide AllOk, Replay, Load, InStep, MemOk;
      match e
      case Command(db, c) => Feed(db, c);
      case FlushSome(left, part) => if Fits(pending, left, part) { Flush(|pending| - left, part); }
      case Enable(other, created, r, forked) =>
        if state == Off { var _ := StartAppendOnly(other, created, r, forked); }
      case Disable(left, part) =>
        if state != Off && Fits(pending, left, part) { StopAppendOnly(|pending| - left, part); }
      case Rewrite(other, left, part, created, r, forked) =>
        if Fits(pending, left, part) {
          var _ := RewriteAppendOnlyFileBackground(other, |pending| - left, part, created, r, forked);
        }
      case ChildExit(success, rdb, renamedBase, renamedIncr, r, gcDisabled, stuck, gcResult) =>
        if child.Some? {
          BackgroundRewriteDone(success, rdb, renamedBase, renamedIncr, r, gcDisabled, stuck, gcResult);
        }
      case Purge(disabled, stuck, r) => PurgeHistory(disabled, stuck, r);
      case CrashAndRestart => if state == On { Restart(); }
    }
  }

  datatype Event<C> =
    | Command(db: nat, c: C)
    | FlushSome(left: nat, part: bool)
    | Enable(otherChild: bool, created: bool, r: Persisted, forked: bool)
    | Disable(left: nat, part: bool)
    | Rewrite(otherChild: bool, left: nat, part: bool, created: bool, r: Persisted, forked: bool)
    | ChildExit(success: bool, rdb: bool, renamedBase: bool, renamedIncr: bool, r: Persisted,
                gcDisabled: bool, stuck: set<Name>, gcResult: Persisted)
    | Purge(disabled: bool, stuck: set<Name>, r: Persisted)
    | CrashAndRestart

  /** A flush can leave `left` items in the buffer, the first of them partly written if `part`. */
  predicate Fits<C>(pending: seq<Item<C>>, left: nat, part: bool) { left <= |pending| && (part ==> left > 0) }

  /** Events that never break anything, whatever the state. */
  predicate Tame<C>(e: Event<C>) {
    match e
    case FlushSome(_, part) => !part
    case Disable(_, part) => !part
    case Rewrite(_, left, part, _, _, _) => left == 0 && !part
    case ChildExit(_, _, _, _, r, _, _, _) => r != FailedLate
    case _ => true
  }

  /** What one event makes of the dataset, the buffer and the state. */
  ghost predicate StepOk<D, C>(empty: D, exec: (D, nat, C) -> D, s: Server<D, C>, e: Event<C>, t: Server<D, C>) {
    match e
    case Command(db, c) => t == Fed(exec, s, db, c)
    case FlushSome(left, part) =>
      t == if Fits(s.pending, left, part) then Flushed(s, |s.pending| - left, part) else s
    case Enable(_, _, _, _) =>
      if s.state == Off then t.data == s.data && t.pending == [] && t.state != On else t == s
    case Disable(left, part) =>
      if s.state != Off && Fits(s.pending, left, part)
      then t.data == s.data && t.pending == [] && t.state == Off
      else t == s
    case Rewrite(other, left, part, created, r, forked) =>
      t == if Fits(s.pending, left, part)
           then Rewriting(s, other || s.child.Some?, |s.pending| - left, part, created, r, forked)
           else s
    case ChildExit(_, _, _, _, _, _, _, _) =>
      if s.child.Some?
      then t.data == s.data && (s.state == On ==> t.state == On && t.pending == s.pending) && t.child == None
      else t == s
    case Purge(_, _, _) =>
      t.data == s.data && t.pending == s.pending && t.state == s.state && t.child == s.child
    case CrashAndRestart =>
      if s.state == On
      then && t.state == On && t.pending == [] && Load(empty, exec, s.disk) == Some(t.data)
           && Replay(exec, t.data, DbAfter(0, LogItems(s)), s.pending) == s.data
      else t == s
  }

  ghost predicate IsTrail<D, C>(empty: D, exec: (D, nat, C) -> D, events: seq<Event<C>>, trail: seq<Server<D, C>>) {
    && |trail| == |events| + 1 && (forall i :: 0 <= i < |trail| ==> Inv(empty, exec, trail[i]))
    && forall i :: 0 <= i < |events| ==> StepOk(empty, exec, trail[i], events[i], trail[i + 1])
  }

  lemma TrailMore<D, C>(empty: D, exec: (D, nat, C) -> D, events: seq<Event<C>>, i: nat, trail: seq<Server<D, C>>,
                        t: Server<D, C>)
    requires i < |events| && IsTrail(empty, exec, events[..i], trail) && StepOk(empty, exec, trail[i], events[i], t)
    requires Inv(empty, exec, t)
    ensures IsTrail(empty, exec, events[..i + 1], trail + [t])
  {
    hide StepOk, Inv;
    var more := trail + [t];
    forall j | 0 <= j < i + 1 ensures StepOk(empty, exec, more[j], events[..i + 1][j], more[j + 1]) {
      if j < i { assert events[..i + 1][j] == events[..i][j] && more[j] == trail[j] && more[j + 1] == trail[j + 1]; }
    }
  }

  // ---------------------------------------------------------------- why the invariant is kept

  /** What is fed for a command runs it on its database. */
  lemma FeedRuns<D, C>(exec: (D, nat, C) -> D, d: D, from: nat, items: seq<Item<C>>, selected: int, db: nat, c: C)
    requires selected == -1 || selected == DbAfter(from, items)
    ensures Replay(exec, d, from, items + Items(selected, db, c)) == exec(Replay(exec, d, from, items), db, c)
    ensures DbAfter(from, items + Items(selected, db, c)) == db
  {
    var all := items + Items(selected, db, c);
    var front := all[..|all| - 1];
    if db != selected {
      assert front == items + [Select(db)] && front[..|front| - 1] == items;
    } else {
      assert front == items;
    }
  }

  lemma FeedKeeps<D, C>(empty: D, exec: (D, nat, C) -> D, s: Server<D, C>, db: nat, c: C)
    requires Inv(empty, exec, s)
    ensures Inv(empty, exec, Fed(exec, s, db, c))
  {
    hide Replay, DbAfter, Load, Items, InStep, MemOk;
    var t, more, log := Fed(exec, s, db, c), Items(s.selected, db, c), LogItems(s);
    if Logs(s) {
      assert log + t.pending == (log + s.pending) + more;
      if s.child.Some? {
        FeedRuns(exec, s.child.value, 0, log + s.pending, s.selected, db, c);
      }
      if s.state == On {
        DbConcat(0, log, s.pending);
        DbConcat(0, log, t.pending);
        FeedRuns(exec, Load(empty, exec, s.disk).value, DbAfter(0, log), s.pending, s.selected, db, c);
      }
    }
  }

  lemma FlushTarget<D, C>(empty: D, exec: (D, nat, C) -> D, s: Server<D, C>)
    requires Inv(empty, exec, s) && s.pending != []
    ensures Logs(s) && LogOk(s)
  {}

  /** The files in memory's manifest load to the same dataset as those on disk. */
  ghost predicate LoadsThrough<D, C>(empty: D, exec: (D, nat, C) -> D, disk: Disk<D, C>, m: Memory) {
    && LoadBase(empty, disk.files, m.base).Some?
    && LoadIncrs(exec, disk.files, m.incr, LoadBase(empty, disk.files, m.base).value, true).Some?
    && Load(empty, exec, disk) == LoadIncrs(exec, disk.files, m.incr, LoadBase(empty, disk.files, m.base).value, true)
  }

  lemma OnLoads<D, C>(empty: D, exec: (D, nat, C) -> D, s: Server<D, C>)
    requires OnOk(empty, exec, s)
    ensures LoadsThrough(empty, exec, s.disk, s.mem) && (Extra(s) ==> !TornLog(s))
  {
    hide Replay;
    var lines := s.disk.manifest.value;
    var d := LoadBase(empty, s.disk.files, lines.base).value;
    if lines.incr != s.mem.incr {
      LoadEmptyTail(exec, s.disk.files, s.mem.incr, s.mem.currIncr + 1, d);
    }
  }

  lemma FlushKeeps<D, C>(empty: D, exec: (D, nat, C) -> D, s: Server<D, C>, k: nat, part: bool)
    requires Inv(empty, exec, s) && k <= |s.pending| && (part ==> k < |s.pending|) && (k > 0 || part)
    ensures var t := Flushed(s, k, part);
      if FlushBreaks(s, part) then !PointOk(empty, exec, t) else Inv(empty, exec, t) && PointOk(empty, exec, t)
  {
    hide Replay, DbAfter, Load, InStep, MemOk, Recovers;
    var t := Flushed(s, k, part);
    FlushTarget(empty, exec, s);
    assert s.pending == s.pending[..k] + s.pending[k..];
    assert LogItems(t) + t.pending == LogItems(s) + s.pending;
    if s.state == On { FlushOn(empty, exec, s, k, part); }
  }

  lemma FlushOn<D, C>(empty: D, exec: (D, nat, C) -> D, s: Server<D, C>, k: nat, part: bool)
    requires MemOk(s.mem) && s.state == On && OnOk(empty, exec, s) && k <= |s.pending| && (k > 0 || part)
    requires part ==> k < |s.pending|
    ensures var t := Flushed(s, k, part);
      if FlushBreaks(s, part) then !Recovers(empty, exec, t) else OnOk(empty, exec, t)
  {
    hide LoadIncrs, Replay, DbAfter;
    var t, log := Flushed(s, k, part), LogItems(s);
    var lines := s.disk.manifest.value;
    assert s.pending == s.pending[..k] + s.pending[k..];
    assert LogItems(t) + t.pending == log + s.pending;
    OnLoads(empty, exec, s);
    var d := LoadBase(empty, s.disk.files, s.mem.base).value;
    LoadAppend(exec, s.disk.files, s.mem.incr, d, s.pending[..k], part);
    if lines.incr != s.mem.incr {
      LoadEmptyTail(exec, t.disk.files, s.mem.incr, s.mem.currIncr + 1, d);
    }
    ReplayConcat(exec, Load(empty, exec, s.disk).value, DbAfter(0, log), s.pending[..k], s.pending[k..]);
    DbConcat(0, log, s.pending[..k]);
  }

  /** Creating the next incremental file: it is not listed, or listed and already empty. */
  lemma TruncateKeeps<D, C>(empty: D, exec: (D, nat, C) -> D, s: Server<D, C>)
    requires Inv(empty, exec, s) && s.state == On && s.child.None?
    ensures var t := Truncated(s, IncrName(s.mem.currIncr + 1));
      && Inv(empty, exec, t) && PointOk(empty, exec, t)
      && Load(empty, exec, t.disk) == Load(empty, exec, s.disk)
      && LogItems(t) == LogItems(s) && TornLog(t) == TornLog(s)
  {
    hide Replay, DbAfter, LoadIncrs;
    var n := IncrName(s.mem.currIncr + 1);
    var t := Truncated(s, n);
    var lines := s.disk.manifest.value;
    if n in Current(lines) {
      assert lines.incr != s.mem.incr;
      assert t.disk.files == s.disk.files;
    } else {
      LoadUnaffected(empty, exec, s.disk, t.disk.files);
    }
  }

  /** Listing the new, empty file: before memory follows, and after. */
  lemma ListKeeps<D, C>(empty: D, exec: (D, nat, C) -> D, s: Server<D, C>)
    requires Inv(empty, exec, s) && s.state == On && s.child.None? && s.selected == -1
    requires IncrName(s.mem.currIncr + 1) in s.disk.files
        && s.disk.files[IncrName(s.mem.currIncr + 1)] == Log([], false)
    ensures var m := WithNewIncr(s.mem); var p := Persist(s, m);
      var t := p.(mem := m, fd := Open(IncrName(m.currIncr)));
      && (if TornLog(s) then !PointOk(empty, exec, p) else Inv(empty, exec, p) && PointOk(empty, exec, p))
      && (!TornLog(s) && Carries(empty, exec, s) ==> Inv(empty, exec, t))
      && (OnOk(empty, exec, t) ==> !TornLog(s) && Carries(empty, exec, s))
  {
    hide LoadIncrs, Replay;
    var m := WithNewIncr(s.mem);
    OnLoads(empty, exec, s);
    LoadEmptyTail(exec, s.disk.files, s.mem.incr, m.currIncr, LoadBase(empty, s.disk.files, s.mem.base).value);
    assert MemOk(m) && Ordered(ToLines(m));
  }

  lemma RotateKeeps<D, C>(empty: D, exec: (D, nat, C) -> D, s: Server<D, C>, points: seq<Server<D, C>>)
    requires Inv(empty, exec, s) && s.state == On && s.child.None? && s.selected == -1 && AllOk(empty, exec, points)
    ensures var m := WithNewIncr(s.mem); var c := Truncated(s, IncrName(m.currIncr)); var p := Persist(c, m);
      var t := p.(mem := m, fd := Open(IncrName(m.currIncr)));
      && Inv(empty, exec, c) && AllOk(empty, exec, points + [c])
      && (TornLog(s) ==> !AllOk(empty, exec, points + [c] + [p]))
      && (!TornLog(s) ==> Inv(empty, exec, p) && AllOk(empty, exec, points + [c] + [p]))
      && (!TornLog(s) && Carries(empty, exec, s) ==> Inv(empty, exec, t))
      && (Inv(empty, exec, t) ==> OnOk(empty, exec, t))
      && (OnOk(empty, exec, t) ==> !TornLog(s) && Carries(empty, exec, s))
  {
    assert forall u: Server<D, C> {:trigger Inv(empty, exec, u)} ::
      Inv(empty, exec, u) && u.state == On ==> OnOk(empty, exec, u);
    hide LoadIncrs, Replay, Load, Inv, PointOk, Recovers;
    var m := WithNewIncr(s.mem);
    var c := Truncated(s, IncrName(m.currIncr));
    TruncateKeeps(empty, exec, s);
    ListKeeps(empty, exec, c);
    AddPoint(empty, exec, points, c);
    assert (points + [c] + [Persist(c, m)])[|points| + 1] == Persist(c, m);
  }

  /** The part of the invariant that does not mention a child. */
  ghost predicate Settled<D, C>(empty: D, exec: (D, nat, C) -> D, s: Server<D, C>) {
    && MemOk(s.mem)
    && (s.disk.manifest.Some? ==> Monotonic(s.disk.manifest.value.incr))
    && (s.state == On ==> OnOk(empty, exec, s))
  }

  lemma InvParts<D, C>(empty: D, exec: (D, nat, C) -> D, s: Server<D, C>)
    requires Inv(empty, exec, s)
    ensures Settled(empty, exec, s) && (s.state == Off ==> s.pending == [])
  {
    hide Replay, Load, MemOk, Monotonic, OnOk;
  }

  /** Without its child a server is valid unless it waits for its first rewrite. */
  lemma ChildGone<D, C>(empty: D, exec: (D, nat, C) -> D, s: Server<D, C>)
    ensures Settled(empty, exec, s) ==> Settled(empty, exec, s.(child := None))
    ensures Settled(empty, exec, s) && (s.state == Off ==> s.pending == []) && s.state != WaitRewrite ==>
              Inv(empty, exec, s.(child := None))
  {
    hide Replay, Load, MemOk, Monotonic, InStep;
  }

  /** No file has changed, and only files listed in `names` may be gone. */
  ghost predicate OnlyLost<D, C>(before: map<Name, File<D, C>>, after: map<Name, File<D, C>>, names: seq<Name>) {
    && (forall n :: n in after ==> n in before && after[n] == before[n])
    && (forall n :: n in before && n !in names ==> n in after)
  }

  /** Every file of `names` that can be unlinked is gone. */
  ghost predicate Cleared<D, C>(names: seq<Name>, stuck: set<Name>, files: map<Name, File<D, C>>) {
    forall n :: n in names && n !in stuck ==> n !in files
  }

  ghost function Without<D, C>(s: Server<D, C>, n: Name): Server<D, C> {
    s.(disk := s.disk.(files := s.disk.files - {n}))
  }

  lemma UnlinkKeeps<D, C>(empty: D, exec: (D, nat, C) -> D, s: Server<D, C>)
    requires Settled(empty, exec, s) && s.mem.history != []
    ensures Settled(empty, exec, Without(s, s.mem.history[0]))
    ensures OnOk(empty, exec, s) ==> OnOk(empty, exec, Without(s, s.mem.history[0]))
    ensures PointOk(empty, exec, Without(s, s.mem.history[0]))
  {
    if OnOk(empty, exec, s) {
      var h := s.mem.history[0];
      HistoryNotCurrent(s.mem, s.disk.manifest.value, h);
      LoadUnaffected(empty, exec, s.disk, s.disk.files - {h});
      if s.disk.manifest.value.incr != s.mem.incr {
        assert s.disk.manifest.value.incr[|s.mem.incr|] == s.mem.currIncr + 1;
        assert IncrName(s.mem.currIncr + 1) in Current(s.disk.manifest.value);
      }
    }
  }

  lemma ForgetKeeps<D, C>(empty: D, exec: (D, nat, C) -> D, s: Server<D, C>)
    requires Settled(empty, exec, s) && s.mem.history != []
    ensures var t := s.(mem := s.mem.(history := s.mem.history[1..]));
            Settled(empty, exec, t) && (OnOk(empty, exec, s) ==> OnOk(empty, exec, t))
  {
    var m := s.mem.(history := s.mem.history[1..]);
    forall i | 0 <= i < |m.history| ensures Older(m.history[i], ToLines(m)) {
      assert Older(s.mem.history[i + 1], ToLines(s.mem));
    }
  }

  lemma PersistKeeps<D, C>(empty: D, exec: (D, nat, C) -> D, s: Server<D, C>)
    requires Settled(empty, exec, s)
    ensures Settled(empty, exec, Persist(s, s.mem)) && PointOk(empty, exec, Persist(s, s.mem))
    ensures OnOk(empty, exec, s) ==> OnOk(empty, exec, Persist(s, s.mem))
  {
    if OnOk(empty, exec, s) { OnLoads(empty, exec, s); }
  }

  /** The next command will select its database. */
  lemma Reset<D, C>(empty: D, exec: (D, nat, C) -> D, s: Server<D, C>)
    requires Inv(empty, exec, s)
    ensures Inv(empty, exec, s.(selected := -1))
  {
    hide Replay, DbAfter, Load, InStep, MemOk;
  }

  /** What opening a new log leaves: nothing changes if the log is off or the file cannot be created. If
      it is on and all goes well, an empty file with the next number is listed last, on disk and in
      memory, and written from now on; otherwise memory and descriptor stay. No old file changes. */
  lemma OpenedEffect<D, C>(s: Server<D, C>, created: bool, r: Persisted)
    requires MemOk(s.mem)
    ensures var t, n := Opened(s, created, r), s.mem.currIncr + 1;
      && (s.state == Off || !created ==> t == s)
      && (s.state == WaitRewrite && created ==> t.fd == Open(TempIncr) && LogItems(t) == [] && t.mem == s.mem)
      && (s.state == On && created && r == Written ==>
            && t.fd == Open(IncrName(n)) && HasLog(t) && LogItems(t) == [] && !TornLog(t)
            && t.mem.incr == s.mem.incr + [n] && t.mem.currIncr == n && t.disk.manifest == Some(ToLines(t.mem)))
      && (s.state == On && r != Written ==> t.fd == s.fd && t.mem == s.mem)
      && (s.state == On && r == FailedEarly ==> t.disk.manifest == s.disk.manifest)
      && (forall x :: x in s.disk.files && x != TempIncr && x != IncrName(n) ==>
            x in t.disk.files && t.disk.files[x] == s.disk.files[x])
  {}

  lemma OpenedSame<D, C>(s: Server<D, C>, created: bool, r: Persisted)
    ensures var t := Opened(s, created, r);
      t.data == s.data && t.pending == s.pending && t.state == s.state && t.child == s.child && t.selected == s.selected
  {}

  lemma BadStaysBad<D, C>(empty: D, exec: (D, nat, C) -> D, points: seq<Server<D, C>>, more: seq<Server<D, C>>)
    requires points <= more
    ensures !AllOk(empty, exec, points) ==> !AllOk(empty, exec, more)
  {
    hide PointOk;
    if !AllOk(empty, exec, points) {
      var i :| 0 <= i < |points| && !PointOk(empty, exec, points[i]);
      assert more[i] == points[i];
    }
  }

  /** With an empty buffer nothing can break. */
  lemma NothingBreaks<D, C>(empty: D, exec: (D, nat, C) -> D, s: Server<D, C>, k: nat, created: bool, r: Persisted)
    requires Inv(empty, exec, s) && k == |s.pending|
    ensures var f := Flushed(s, k, false);
      !FlushBreaks(s, false) && !RotationBreaks(empty, exec, f, created, r) && !ForkBreaks(exec, f)
  {
    hide Load, InStep, MemOk;
    var f := Flushed(s, k, false);
    if k > 0 { FlushKeeps(empty, exec, s, k, false); }
    ReplayNothing(exec, f.data, 0);
  }

  /** Forking right after the new log was opened: exact condition for the child's snapshot plus the new
      log to be the live dataset. */
  lemma ForkKeeps<D, C>(empty: D, exec: (D, nat, C) -> D, f: Server<D, C>, created: bool, r: Persisted)
    requires f.child.None? && f.selected == -1
    requires f.state == Off || (created && (f.state == On ==> r == Written))
    ensures var s := Opened(f, created, r); var t := s.(child := Some(s.data));
      && (Inv(empty, exec, t) ==> !ForkBreaks(exec, f) && (f.state == On ==> OnOk(empty, exec, s)))
      && (Inv(empty, exec, s) && !ForkBreaks(exec, f) ==> Inv(empty, exec, t))
  {
    hide Replay, DbAfter, Load, InStep, MemOk;
    var s := Opened(f, created, r);
    if f.state != Off { assert [] + s.pending == s.pending; }
    if f.state == WaitRewrite { ReplayNothing(exec, s.data, 0); }
  }

  // ---------------------------------------------------------------- installing a rewrite

  lemma NewBaseKeeps<D, C>(empty: D, exec: (D, nat, C) -> D, s: Server<D, C>, nb: Name)
    requires Inv(empty, exec, s) && s.child.Some? && nb.BaseName? && nb.seqno == s.mem.currBase + 1
    ensures Inv(empty, exec, s.(disk := s.disk.(files := s.disk.files[nb := Snapshot(s.child.value)])))
  {
    hide Replay, DbAfter, LoadIncrs;
    if s.state == On {
      assert nb !in Current(s.disk.manifest.value);
      LoadUnaffected(empty, exec, s.disk, s.disk.files[nb := Snapshot(s.child.value)]);
    }
  }

  /** The child's snapshot and the log written since the fork make a complete manifest. */
  lemma NewPairLoads<D, C>(empty: D, exec: (D, nat, C) -> D, s: Server<D, C>, m: Memory)
    requires MemOk(m) && |m.incr| == 1 && m.incr[0] == m.currIncr && s.fd == Open(IncrName(m.currIncr)) && LogOk(s)
    requires m.base.Some? && m.base.value in s.disk.files && s.child.Some?
        && s.disk.files[m.base.value] == Snapshot(s.child.value)
    requires Replay(exec, s.child.value, 0, LogItems(s) + s.pending) == s.data
    ensures OnOk(empty, exec, Persist(s, m).(mem := m)) && PointOk(empty, exec, Persist(s, m))
  {
    hide Replay, DbAfter;
    ReplayConcat(exec, s.child.value, 0, LogItems(s), s.pending);
    assert m.incr == [m.currIncr] && m.incr[..0] == [];
    assert LoadIncrs(exec, s.disk.files, [], s.child.value, false) == Some(s.child.value);
    assert LoadIncrs(exec, s.disk.files, m.incr, s.child.value, true)
        == Some(Replay(exec, s.child.value, 0, LogItems(s)));
  }

  lemma UndoKeeps<D, C>(empty: D, exec: (D, nat, C) -> D, s: Server<D, C>, nb: Name)
    requires Settled(empty, exec, s) && nb.BaseName? && nb.seqno == s.mem.currBase + 1
    ensures Settled(empty, exec, Without(s, nb)) && PointOk(empty, exec, Without(s, nb))
  {
    hide Replay, DbAfter, LoadIncrs;
    if s.state == On {
      assert nb !in Current(s.disk.manifest.value);
      LoadUnaffected(empty, exec, s.disk, s.disk.files - {nb});
    }
  }

  /** What a new process has after it has loaded the disk and cut a torn log back. */
  ghost function Restarted<D, C>(empty: D, exec: (D, nat, C) -> D, s: Server<D, C>): Server<D, C>
    requires Inv(empty, exec, s) && s.state == On
  {
    var m := Reloaded(s.disk.manifest.value);
    var n := IncrName(m.currIncr);
    var files := if n in s.disk.files && s.disk.files[n].Log? then s.disk.files[n := s.disk.files[n].(torn := false)]
                 else s.disk.files;
    Server(On, m, s.disk.(files := files), [], -1, Load(empty, exec, s.disk).value, Open(n), None)
  }

  lemma RestartKeeps<D, C>(empty: D, exec: (D, nat, C) -> D, s: Server<D, C>)
    requires Inv(empty, exec, s) && s.state == On
    ensures var t := Restarted(empty, exec, s);
      && Inv(empty, exec, t) && PointOk(empty, exec, t)
      && t.fd.name in s.disk.files && s.disk.files[t.fd.name].Log?
  {
    hide Replay, DbAfter, LoadIncrs, MemOk;
    var lines := s.disk.manifest.value;
    ReloadedOk(lines);
    UntornLoads(empty, exec, s.disk);
    var n := IncrName(Reloaded(lines).currIncr);
    ReplayNothing(exec, Load(empty, exec, s.disk).value, DbAfter(0, s.disk.files[n].items));
  }

  lemma ReloadedOk(lines: Lines)
    requires Ordered(lines) && lines.incr != []
    ensures MemOk(Reloaded(lines)) && ToLines(Reloaded(lines)) == lines
  {
    var m := Reloaded(lines);
    forall i | 0 <= i < |m.history| && m.history[i].IncrName? ensures m.history[i].seqno <= m.currIncr {
      assert Older(lines.history[i], lines);
    }
  }

  /** Cutting the last log back changes nothing that is loaded. */
  lemma UntornLoads<D, C>(empty: D, exec: (D, nat, C) -> D, disk: Disk<D, C>)
    requires Load(empty, exec, disk).Some? && disk.manifest.value.incr != []
    ensures var n := IncrName(Reloaded(disk.manifest.value).currIncr);
      && n in disk.files && disk.files[n].Log?
      && Load(empty, exec, disk.(files := disk.files[n := disk.files[n].(torn := false)])) == Load(empty, exec, disk)
  {
    hide Replay, DbAfter;
    var lines := disk.manifest.value;
    var n := IncrName(Reloaded(lines).currIncr);
    var d := LoadBase(empty, disk.files, lines.base).value;
    LoadAppend(exec, disk.files, lines.incr, d, [], false);
    assert disk.files[n].items + [] == disk.files[n].items;
    ReplayNothing(exec, Load(empty, exec, disk).value, DbAfter(0, disk.files[n].items));
    assert lines.base.Some? ==> lines.base.value != n;
  }

  /** The log being written is never on the history list. */
  lemma WritingNotHistory<D, C>(empty: D, exec: (D, nat, C) -> D, s: Server<D, C>)
    requires Inv(empty, exec, s) && s.state != Off && s.child.Some?
    ensures s.fd.name !in s.mem.history
  {
    hide Replay, DbAfter, Load, InStep;
    forall i | 0 <= i < |s.mem.history| ensures s.mem.history[i] != s.fd.name {
      assert Older(s.mem.history[i], ToLines(s.mem));
    }
  }
}
