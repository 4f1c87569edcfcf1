/**
 Runs of the server with its log. Taking for dataset the list of the commands that ran shows exactly
 which commands a run keeps, and when a step loses, repeats or moves one.
 */
module AofRun {
  import opened AofManifest
  import opened AofRewrite
  import opened Wrappers

  /** A command that ran, and its database. */
  datatype Done<C> = Done(db: nat, c: C)

  function Push<C>(list: seq<Done<C>>, db: nat, c: C): seq<Done<C>> { list + [Done(db, c)] }

  /** What the items run from database `db` on. */
  function Runs<C>(db: nat, items: seq<Item<C>>): seq<Done<C>> {
    if items == [] then []
    else
      var front := items[..|items| - 1];
      match items[|items| - 1]
      case Select(_) => Runs(db, front)
      case Run(c) => Runs(db, front) + [Done(DbAfter(db, front), c)]
  }

  function Count<C>(items: seq<Item<C>>): nat {
    if items == [] then 0 else Count(items[..|items| - 1]) + if items[|items| - 1].Run? then 1 else 0
  }

  lemma {:induction false} ReplayPush<C>(list: seq<Done<C>>, db: nat, items: seq<Item<C>>)
    ensures Replay(Push, list, db, items) == list + Runs(db, items) && |Runs(db, items)| == Count(items)
  {
    if items == [] {
      assert list + [] == list;
    } else {
      ReplayPush(list, db, items[..|items| - 1]);
    }
  }

  lemma {:induction false} CountConcat<C>(a: seq<Item<C>>, b: seq<Item<C>>)
    ensures Count(a + b) == Count(a) + Count(b)
  {
    if b == [] {
      assert a + b == a;
    } else {
      assert (a + b)[..|a + b| - 1] == a + b[..|b| - 1];
      CountConcat(a, b[..|b| - 1]);
    }
  }

  lemma {:induction false} FirstRun<C>(db: nat, items: seq<Item<C>>)
    requires items != [] && items[0].Run?
    ensures Runs(db, items) != [] && Runs(db, items)[0] == Done(db, items[0].c)
  {
    if |items| == 1 {
      assert items[..0] == [];
    } else {
      FirstRun(db, items[..|items| - 1]);
    }
  }

  /** Items run alike from two databases if and only if they begin with a SELECT. */
  lemma AlikeIff<C>(d: nat, e: nat, items: seq<Item<C>>)
    requires d != e
    ensures Runs(d, items) == Runs(e, items) <==> SelectsFirst(items)
  {
    if SelectsFirst(items) {
      SameFromAny(Push, [], d, e, items);
      ReplayPush([], d, items);
      ReplayPush([], e, items);
      assert [] + Runs(d, items) == Runs(d, items) && [] + Runs(e, items) == Runs(e, items);
    } else {
      FirstRun(d, items);
      FirstRun(e, items);
    }
  }

  // ---------------------------------------------------------------- when a rewrite breaks the log

  /** For every dataset: a leftover that begins with a SELECT, or a log that ends on database 0. */
  lemma CarriesIf<D, C>(empty: D, exec: (D, nat, C) -> D, s: Server<D, C>)
    requires Inv(empty, exec, s) && s.state == On
    requires DbAfter(0, LogItems(s)) == 0 || SelectsFirst(s.pending)
    ensures Carries(empty, exec, s)
  {
    hide Replay, DbAfter, Load, InStep, MemOk;
    if SelectsFirst(s.pending) {
      SameFromAny(exec, Load(empty, exec, s.disk).value, 0, DbAfter(0, LogItems(s)), s.pending);
    }
  }

  /** What is on disk is the history without what is still in the buffer. */
  lemma OnDiskIs<C>(s: Server<seq<Done<C>>, C>)
    requires Inv([], Push, s) && s.state == On
    ensures Load([], Push, s.disk).Some?
    ensures s.data == Load([], Push, s.disk).value + Runs(DbAfter(0, LogItems(s)), s.pending)
    ensures |s.data| == |Load([], Push, s.disk).value| + Count(s.pending)
  {
    hide Replay, DbAfter, Load, InStep, MemOk, LogOk;
    ReplayPush(Load([], Push, s.disk).value, DbAfter(0, LogItems(s)), s.pending);
  }

  lemma CarriesIff<C>(s: Server<seq<Done<C>>, C>)
    requires Inv([], Push, s) && s.state == On
    ensures Carries([], Push, s) <==> DbAfter(0, LogItems(s)) == 0 || SelectsFirst(s.pending)
  {
    hide Replay, DbAfter, Load, Inv, Runs;
    OnDiskIs(s);
    var d, db := Load([], Push, s.disk).value, DbAfter(0, LogItems(s));
    ReplayPush(d, 0, s.pending);
    if db != 0 { AlikeIff(0, db, s.pending); }
    SameTail(d, Runs(0, s.pending), Runs(db, s.pending));
  }

  lemma SameTail<T>(a: seq<T>, x: seq<T>, y: seq<T>)
    ensures a + x == a + y <==> x == y
  {
    assert (a + x)[|a|..] == x && (a + y)[|a|..] == y;
  }

  lemma ForkIff<C>(s: Server<seq<Done<C>>, C>)
    ensures ForkBreaks(Push, s) <==> s.state == On && Count(s.pending) > 0
  {
    ReplayPush(s.data, 0, s.pending);
    SameTail(s.data, Runs(0, s.pending), []);
    assert s.data + [] == s.data;
  }

  /** Exactly when starting a rewrite loses, repeats or moves a command, in terms of what is in the log
      and in the buffer before it: `f` is the server after the flush that comes first. */
  lemma RewriteBreaksIff<C>(s: Server<seq<Done<C>>, C>, k: nat, part: bool, created: bool, r: Persisted, forked: bool)
    requires Inv([], Push, s) && s.state == On && k <= |s.pending| && (part ==> k < |s.pending|)
    ensures var f := Flushed(s, k, part);
      RewriteBreaks([], Push, s, false, k, part, created, r, forked) <==>
      || (part && Extra(s))
      || (created && r != FailedEarly && TornLog(f))
      || (created && r == Written && DbAfter(0, LogItems(f)) != 0 && !SelectsFirst(f.pending))
      || (created && r == Written && forked && Count(f.pending) > 0)
  {
    hide Replay, DbAfter, Load, Inv, Runs, Count, SelectsFirst, Carries;
    var t := s.(selected := -1);
    var f, g := Flushed(s, k, part), Flushed(t, k, part);
    assert g == f.(selected := -1);
    Reset([], Push, s);
    if !FlushBreaks(s, part) {
      if k > 0 || part { FlushKeeps([], Push, t, k, part); }
      CarriesIff(g);
      ForkIff(g);
    }
  }

  // ---------------------------------------------------------------- what a run keeps

  /** What a restart now would find. */
  ghost function OnDisk<C>(s: Server<seq<Done<C>>, C>): seq<Done<C>>
    requires Inv([], Push, s) && s.state == On
  {
    Load([], Push, s.disk).value
  }

  /** An event that neither runs a command nor crashes leaves the history alone and the buffer no
      fuller. */
  lemma QuietStep<C>(s: Server<seq<Done<C>>, C>, e: Event<C>, t: Server<seq<Done<C>>, C>)
    requires StepOk([], Push, s, e, t) && !e.Command? && !e.CrashAndRestart? && s.state == On && t.state == On
    ensures t.data == s.data && Count(t.pending) <= Count(s.pending)
  {
    hide Load, Replay, DbAfter, Count, Flushed, Opened;
    match e
    case FlushSome(left, part) =>
      if Fits(s.pending, left, part) { FlushLess(s, |s.pending| - left, part); }
    case Rewrite(other, left, part, created, r, forked) =>
      if Fits(s.pending, left, part) {
        FlushLess(s.(selected := -1), |s.pending| - left, part);
        OpenedSame(Flushed(s.(selected := -1), |s.pending| - left, part), created, r);
      }
    case _ =>
  }

  lemma FlushLess<D, C>(s: Server<D, C>, k: nat, part: bool)
    requires k <= |s.pending|
    ensures Flushed(s, k, part).data == s.data && Count(Flushed(s, k, part).pending) <= Count(s.pending)
  {
    CountConcat(s.pending[..k], s.pending[k..]);
    assert s.pending == s.pending[..k] + s.pending[k..];
  }

  lemma StepKeeps<C>(s: Server<seq<Done<C>>, C>, e: Event<C>, t: Server<seq<Done<C>>, C>)
    requires Inv([], Push, s) && Inv([], Push, t) && s.state == On && t.state == On && StepOk([], Push, s, e, t)
    ensures OnDisk(s) <= OnDisk(t)
  {
    OnDiskIs(s);
    OnDiskIs(t);
    hide Load, Replay, DbAfter, Inv, Runs;
    if !e.Command? && !e.CrashAndRestart? {
      hide StepOk;
      QuietStep(s, e, t);
      assert OnDisk(s) == s.data[..|OnDisk(s)|] && OnDisk(t) == s.data[..|OnDisk(t)|];
    } else if e.CrashAndRestart? {
      assert t.data == OnDisk(s) && t.pending == [];
      assert OnDisk(t) == t.data by { NoRuns<C>(DbAfter(0, LogItems(t))); }
    }
  }

  lemma NoRuns<C>(db: nat)
    ensures Runs<C>(db, []) == []
  {}

  /** A flush puts the front of the buffer on disk: what a restart would find afterwards lacks exactly the
      commands among the items that are left. A complete flush leaves nothing to lose. */
  lemma FlushReaches<C>(s: Server<seq<Done<C>>, C>, left: nat, t: Server<seq<Done<C>>, C>)
    requires Inv([], Push, s) && Inv([], Push, t) && s.state == On && left <= |s.pending|
    requires StepOk([], Push, s, FlushSome(left, false), t)
    ensures t.state == On && t.data == s.data && t.pending == s.pending[|s.pending| - left..]
    ensures OnDisk(t) <= s.data && |OnDisk(t)| == |s.data| - Count(s.pending[|s.pending| - left..])
    ensures left == 0 ==> OnDisk(t) == s.data
  {
    hide Load, Inv, Runs, Replay, DbAfter, Count;
    var k := |s.pending| - left;
    if s.pending != [] { FlushTarget([], Push, s); }
    FlushTakes(s, k);
    assert t.state == On && t.data == s.data && t.pending == s.pending[k..];
    OnDiskIs(t);
    DiskIsPrefix(t);
    CountNone<C>();
    assert left == 0 ==> s.pending[k..] == [];
  }

  lemma FlushTakes<D, C>(s: Server<D, C>, k: nat)
    requires k <= |s.pending| && (s.pending != [] ==> HasLog(s))
    ensures var t := Flushed(s, k, false); t.state == s.state && t.data == s.data && t.pending == s.pending[k..]
  {
    assert s.pending[0..] == s.pending;
  }

  lemma CountNone<C>()
    ensures Count<C>([]) == 0
  {}

  /** While the log is on, whatever has reached it stays part of the history, through any number of
      flushes, rewrites and crashes. */
  lemma {:induction false} FlushedIsKept<C>(events: seq<Event<C>>, trail: seq<Server<seq<Done<C>>, C>>, i: nat, j: nat)
    requires IsTrail([], Push, events, trail) && i <= j <= |events|
    requires forall m :: i <= m <= j ==> trail[m].state == On
    ensures OnDisk(trail[i]) <= OnDisk(trail[j]) <= trail[j].data
    decreases j - i
  {
    hide StepOk, OnDisk, Inv;
    DiskIsPrefix(trail[j]);
    if i < j {
      FlushedIsKept(events, trail, i, j - 1);
      assert StepOk([], Push, trail[j - 1], events[j - 1], trail[j - 1 + 1]);
      StepKeeps(trail[j - 1], events[j - 1], trail[j]);
    }
  }

  lemma DiskIsPrefix<C>(s: Server<seq<Done<C>>, C>)
    requires Inv([], Push, s) && s.state == On
    ensures OnDisk(s) <= s.data
  {
    hide Inv, Load;
    OnDiskIs(s);
  }

  /** The commands that are in effect: all that ran, less those in the buffer at each crash. */
  function InEffect<C>(events: seq<Event<C>>, trail: seq<Server<seq<Done<C>>, C>>, n: nat): seq<Done<C>>
    requires |trail| == |events| + 1 && n <= |events|
  {
    if n == 0 then trail[0].data
    else
      var before := InEffect(events, trail, n - 1);
      match events[n - 1]
      case Command(db, c) => before + [Done(db, c)]
      case CrashAndRestart =>
        var lost := Count(trail[n - 1].pending);
        if trail[n - 1].state == On && lost <= |before| then before[..|before| - lost] else before
      case _ => before
  }

  /** The history of a run is exactly that. */
  lemma {:induction false} HistoryIs<C>(events: seq<Event<C>>, trail: seq<Server<seq<Done<C>>, C>>, n: nat)
    requires IsTrail([], Push, events, trail) && n <= |events|
    ensures trail[n].data == InEffect(events, trail, n)
  {
    hide Inv;
    if n > 0 {
      HistoryIs(events, trail, n - 1);
      assert StepOk([], Push, trail[n - 1], events[n - 1], trail[n - 1 + 1]);
      OneStep(trail[n - 1], events[n - 1], trail[n]);
    }
  }

  lemma OneStep<C>(s: Server<seq<Done<C>>, C>, e: Event<C>, t: Server<seq<Done<C>>, C>)
    requires Inv([], Push, s) && StepOk([], Push, s, e, t)
    ensures match e
      case Command(db, c) => t.data == s.data + [Done(db, c)]
      case CrashAndRestart =>
        if s.state == On then Count(s.pending) <= |s.data| && t.data == s.data[..|s.data| - Count(s.pending)]
        else t.data == s.data
      case _ => t.data == s.data
  {
    hide Load, Replay, DbAfter, Inv, Flushed, Opened, Count, Runs;
    if e.CrashAndRestart? && s.state == On {
      OnDiskIs(s);
      assert t.data == s.data[..|t.data|];
    }
    if (e.FlushSome? || e.Rewrite?) && Fits(s.pending, e.left, e.part) {
      var k := |s.pending| - e.left;
      FlushLess(s, k, e.part);
      FlushLess(s.(selected := -1), k, e.part);
      if e.Rewrite? { OpenedSame(Flushed(s.(selected := -1), k, e.part), e.created, e.r); }
    }
  }

  // ---------------------------------------------------------------- the conditions are needed

  /** A manifest that is in place although its replacement was reported as failed names a base
      file that the failure path unlinks: nothing can be loaded any more. */
  lemma LateFailureLosesEverything<D, C>(empty: D, exec: (D, nat, C) -> D, s: Server<D, C>, rdb: bool)
    requires Inv(empty, exec, s) && s.state == On && s.child.Some?
    ensures var m := NewMemory(s.mem, rdb, false, true);
            Load(empty, exec, Without(Persist(s, m), m.base.value).disk) == None
  {}

  /** A command that is split between the old log and the new one: the old one ends inside it and is
      not the last one, and nothing can be loaded any more. */
  lemma SplitCommandLosesEverything<D, C>(empty: D, exec: (D, nat, C) -> D, s: Server<D, C>, r: Persisted)
    requires Inv(empty, exec, s) && s.state == On && s.child.None? && s.selected == -1 && TornLog(s) && r != FailedEarly
    ensures Load(empty, exec, Opened(s, true, r).disk) == None
  {
    hide Replay, DbAfter, LoadIncrs;
    var m := WithNewIncr(s.mem);
    var c := Truncated(s, IncrName(m.currIncr));
    TruncateKeeps(empty, exec, s);
    OnLoads(empty, exec, c);
    LoadEmptyTail(exec, c.disk.files, c.mem.incr, m.currIncr, LoadBase(empty, c.disk.files, c.mem.base).value);
  }

  /** What a restart finds of a buffer that was left over by a rotation and has reached the new log:
      it runs from database 0. */
  lemma LeftoverRuns<D, C>(empty: D, exec: (D, nat, C) -> D, s: Server<D, C>)
    requires Inv(empty, exec, s) && s.state == On && s.child.None? && s.selected == -1 && !TornLog(s)
    ensures Load(empty, exec, s.disk).Some?
    ensures var t := Opened(s, true, Written);
      Load(empty, exec, Flushed(t, |t.pending|, false).disk)
      == Some(Replay(exec, Load(empty, exec, s.disk).value, 0, s.pending))
  {
    hide Replay, DbAfter, LoadIncrs;
    var m := WithNewIncr(s.mem);
    var c, t := Truncated(s, IncrName(m.currIncr)), Opened(s, true, Written);
    TruncateKeeps(empty, exec, s);
    OnLoads(empty, exec, c);
    var d := LoadBase(empty, c.disk.files, c.mem.base).value;
    LoadEmptyTail(exec, c.disk.files, c.mem.incr, m.currIncr, d);
    assert MemOk(m);
    LoadAppend(exec, t.disk.files, m.incr, d, s.pending, false);
    NoItems<C>();
    assert s.pending[..|s.pending|] == s.pending && LogItems(t) + s.pending == s.pending;
    ReplayNothing(exec, Load(empty, exec, s.disk).value, 0);
  }

  lemma NoItems<C>()
    ensures DbAfter<C>(0, []) == 0
  {}

  /** The end of a rewrite whose child is forked now, with items still in the buffer: the child's
      snapshot becomes the base, the new manifest is in place, and the buffer reaches the log. */
  ghost function Rewritten<D, C>(s: Server<D, C>, rdb: bool): Server<D, C> {
    var m := NewMemory(s.mem, rdb, false, true);
    var base := BaseName(s.mem.currBase + 1, rdb);
    var renamed := s.(child := Some(s.data), disk := s.disk.(files := s.disk.files[base := Snapshot(s.data)]));
    Flushed(Persist(renamed, m).(mem := m, child := None), |s.pending|, false)
  }

  /** Commands left in the buffer across a rotation are in the child's snapshot and in the new log. */
  lemma BufferRunsAgain<D, C>(empty: D, exec: (D, nat, C) -> D, s: Server<D, C>, rdb: bool)
    requires Inv(empty, exec, s) && s.state == On && s.fd.name in s.disk.files
    requires s.disk.files[s.fd.name] == Log([], false)
    ensures Load(empty, exec, Rewritten(s, rdb).disk) == Some(Replay(exec, s.data, 0, s.pending))
  {
    hide Replay, DbAfter;
    var m := NewMemory(s.mem, rdb, false, true);
    NewMemoryOk(s.mem, rdb, false, true);
    assert m.incr == [m.currIncr] && m.incr[..0] == [] && m.currIncr == s.mem.currIncr;
    var files := Rewritten(s, rdb).disk.files;
    ReplayNothing(exec, s.data, 0);
    assert files[IncrName(m.currIncr)] == Log(s.pending, false) by {
      assert [] + s.pending[..|s.pending|] == s.pending;
    }
    assert LoadIncrs(exec, files, [], s.data, false) == Some(s.data);
  }

  /** A server whose log has just been switched on. */
  method SwitchedOn() returns (a: AofServer<seq<Done<int>>, int>)
    ensures a.empty == [] && a.exec == Push && a.Valid() && a.state == On && a.data == [] && a.child == None
    ensures a.pending == [] && fresh(a)
  {
    hide Load, Replay, Inv, AllOk;
    a := new AofServer([], Push);
    var _ := a.StartAppendOnly(false, true, Written, true);
    a.BackgroundRewriteDone(true, true, true, true, Written, false, {}, Written);
  }

  /** The buffer is empty: the current log is whole. */
  lemma WholeLog<D, C>(empty: D, exec: (D, nat, C) -> D, s: Server<D, C>)
    requires Inv(empty, exec, s) && s.state == On && s.pending == []
    ensures LogOk(s) && !TornLog(s)
  {}

  lemma AllOnDisk<C>(s: Server<seq<Done<C>>, C>)
    requires Inv([], Push, s) && s.state == On && s.pending == []
    ensures Load([], Push, s.disk) == Some(s.data)
  {
    hide Load, Inv, Replay, DbAfter;
    OnDiskIs(s);
    assert Load([], Push, s.disk).value + [] == Load([], Push, s.disk).value;
  }

  /** A run of the server in which nothing is flushed before a rotation, and its child is forked right
      after it: command 7 runs once, and twice after the rewrite. */
  method UnflushedCommandRunsTwice() returns (a: AofServer<seq<Done<int>>, int>)
    ensures a.empty == [] && a.exec == Push && a.Valid() && a.state == On && a.data == [Done(0, 7)]
    ensures Load([], Push, Rewritten(a.Value(), true).disk) == Some([Done(0, 7), Done(0, 7)])
  {
    hide Load, Rewritten, Replay, Inv, AllOk, Runs, RewriteBreaks, DbAfter;
    a := SwitchedOn();
    WholeLog([], Push, a.Value());
    ghost var before := a.Value();
    a.Feed(0, 7);
    ghost var s := a.Value();
    LeftoverOfZero(before, s);
    RewriteBreaksIff(s, 0, false, true, Written, false);
    var _ := a.RewriteAppendOnlyFileBackground(false, 0, false, true, Written, false);
    BufferRunsAgain([], Push, a.Value(), true);
    ReplayPush(a.data, 0, a.pending);
    assert a.pending == s.pending && a.data == s.data;
    assert [Done(0, 7)] + [Done(0, 7)] == [Done(0, 7), Done(0, 7)];
  }

  lemma LeftoverOfZero(before: Server<seq<Done<int>>, int>, s: Server<seq<Done<int>>, int>)
    requires before.pending == [] && before.state == On && before.data == [] && LogOk(before) && !TornLog(before)
    requires s == Fed(Push, before, 0, 7)
    ensures s.data == [Done(0, 7)] && Runs(0, s.pending) == [Done(0, 7)] && !TornLog(s)
    ensures DbAfter(0, LogItems(s)) == 0 || SelectsFirst(s.pending)
  {
    assert LogItems(before) + [] == LogItems(before);
    RunsOfOne(7);
    hide Runs;
  }

  lemma RunsOfOne(c: int)
    ensures Runs(0, [Run(c)]) == [Done(0, c)] && Runs(0, [Select(0), Run(c)]) == [Done(0, c)]
  {
    hide Runs, DbAfter;
    NoRuns<int>(0);
    NoItems<int>();
    RunsMore(0, [], c);
    OneSelect<int>(0, 0);
    RunsMore(0, [Select(0)], c);
    assert [] + [Run(c)] == [Run(c)] && [Select(0)] + [Run(c)] == [Select(0), Run(c)];
  }

  lemma RunsMore<C>(db: nat, items: seq<Item<C>>, c: C)
    ensures Runs(db, items + [Run(c)]) == Runs(db, items) + [Done(DbAfter(db, items), c)]
  {
    assert (items + [Run(c)])[..|items|] == items;
  }

  lemma OneSelect<C>(db: nat, n: nat)
    ensures Runs<C>(db, [Select(n)]) == [] && DbAfter<C>(db, [Select(n)]) == n
  {
    var one: seq<Item<C>> := [Select(n)];
    assert one[..0] == [];
  }

  /** A run in which two commands write to database 1, and only the first one is flushed before a
      rotation: the second one goes to the new log without a SELECT, and a restart runs it on
      database 0. No rewrite is needed for this; the child could not even be forked. */
  method LeftoverRunsElsewhere() returns (a: AofServer<seq<Done<int>>, int>)
    ensures a.empty == [] && a.exec == Push && !a.Valid() && a.state == On && a.data == [Done(1, 7), Done(1, 8)]
    ensures Load([], Push, Flushed(a.Value(), |a.pending|, false).disk) == Some([Done(1, 7), Done(0, 8)])
  {
    hide Load, Replay, Inv, AllOk, Runs, RewriteBreaks, DbAfter, Flushed, Opened;
    a := OneFlushed();
    WholeLog([], Push, a.Value());
    ghost var before := a.Value();
    AllOnDisk(before);
    a.Feed(1, 8);
    ghost var s := a.Value();
    LeftoverOfOne(before, s);
    FlushNone(s);
    RewriteBreaksIff(s, 0, false, true, Written, false);
    Reset([], Push, s);
    LeftoverRuns([], Push, s.(selected := -1));
    var _ := a.RewriteAppendOnlyFileBackground(false, 0, false, true, Written, false);
    FlushNone(s.(selected := -1));
    OpenedSame(s.(selected := -1), true, Written);
    assert a.Value() == Opened(s.(selected := -1), true, Written);
    ReplayPush([Done(1, 7)], 0, s.pending);
    assert [Done(1, 7)] + [Done(0, 8)] == [Done(1, 7), Done(0, 8)];
  }

  /** Command 7 has run on database 1 and reached the log. */
  method OneFlushed() returns (a: AofServer<seq<Done<int>>, int>)
    ensures a.empty == [] && a.exec == Push && a.Valid() && a.state == On && a.child == None && fresh(a)
    ensures a.data == [Done(1, 7)] && a.pending == [] && a.selected == 1
  {
    hide Load, Replay, Inv, AllOk, DbAfter, Flushed;
    a := SwitchedOn();
    a.Feed(1, 7);
    FedOne(a.Value());
    FlushSame(a.Value(), |a.pending|);
    a.Flush(|a.pending|, false);
  }

  lemma FlushNone<D, C>(s: Server<D, C>)
    ensures Flushed(s, 0, false) == s
  {}

  lemma FlushSame<D, C>(s: Server<D, C>, k: nat)
    requires k == |s.pending| && (k > 0 ==> HasLog(s))
    ensures var t := Flushed(s, k, false);
      t.pending == [] && t.data == s.data && t.state == s.state && t.selected == s.selected && t.child == s.child
  {}

  lemma FedOne(s: Server<seq<Done<int>>, int>)
    requires Inv([], Push, s) && s.pending != []
    ensures HasLog(s)
  {
    FlushTarget([], Push, s);
  }

  lemma LeftoverOfOne(before: Server<seq<Done<int>>, int>, s: Server<seq<Done<int>>, int>)
    requires before.pending == [] && before.state == On && before.data == [Done(1, 7)]
    requires LogOk(before) && !TornLog(before) && before.selected == 1 && s == Fed(Push, before, 1, 8)
    ensures s.data == [Done(1, 7), Done(1, 8)] && s.pending == [Run(8)] && !TornLog(s) && s.disk == before.disk
    ensures DbAfter(0, LogItems(s)) == 1 && !SelectsFirst(s.pending) && Runs(0, s.pending) == [Done(0, 8)]
  {
    assert LogItems(before) + [] == LogItems(before);
    assert s.pending == [Run(8)] && s.pending[..0] == [];
  }
}
