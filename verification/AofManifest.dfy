/**
 The multi-part append-only log on disk: a manifest naming one base file (a snapshot) and a list of
 incremental logs, and what a restarting server makes of it.
 */
module AofManifest {
  import opened Wrappers

  datatype Name =
    | BaseName(seqno: nat, rdb: bool)
    | IncrName(seqno: nat)
    | TempIncr

  /** What is logged: a SELECT, or a command that runs on the database selected last. */
  datatype Item<C> = Select(db: nat) | Run(c: C)

  /** A log is `torn` if the beginning of one more item follows the whole ones. */
  datatype File<D, C> = Snapshot(data: D) | Log(items: seq<Item<C>>, torn: bool)

  /** What the manifest file lists: a base, history files, incremental files by sequence number. */
  datatype Lines = Lines(base: Option<Name>, history: seq<Name>, incr: seq<nat>)

  datatype Disk<D, C> = Disk(manifest: Option<Lines>, files: map<Name, File<D, C>>)

  // ---------------------------------------------------------------- replaying

  /** The database that is selected after `items`. */
  function DbAfter<C>(db: nat, items: seq<Item<C>>): nat {
    if items == [] then db
    else
      match items[|items| - 1]
      case Select(n) => n
      case Run(_) => DbAfter(db, items[..|items| - 1])
  }

  function Replay<D, C>(exec: (D, nat, C) -> D, d: D, db: nat, items: seq<Item<C>>): D {
    if items == [] then d
    else
      var front := items[..|items| - 1];
      match items[|items| - 1]
      case Select(_) => Replay(exec, d, db, front)
      case Run(c) => exec(Replay(exec, d, db, front), DbAfter(db, front), c)
  }

  lemma {:induction false} DbConcat<C>(db: nat, a: seq<Item<C>>, b: seq<Item<C>>)
    ensures DbAfter(db, a + b) == DbAfter(DbAfter(db, a), b)
  {
    if b == [] {
      assert a + b == a;
    } else {
      assert (a + b)[..|a + b| - 1] == a + b[..|b| - 1];
      DbConcat(db, a, b[..|b| - 1]);
    }
  }

  lemma {:induction false} ReplayConcat<D, C>(exec: (D, nat, C) -> D, d: D, db: nat, a: seq<Item<C>>, b: seq<Item<C>>)
    ensures Replay(exec, d, db, a + b) == Replay(exec, Replay(exec, d, db, a), DbAfter(db, a), b)
  {
    if b == [] {
      assert a + b == a;
    } else {
      var front := b[..|b| - 1];
      assert (a + b)[..|a + b| - 1] == a + front;
      ReplayConcat(exec, d, db, a, front);
      DbConcat(db, a, front);
    }
  }

  lemma ReplayNothing<D, C>(exec: (D, nat, C) -> D, d: D, db: nat)
    ensures Replay(exec, d, db, []) == d
  {}

  /** A SELECT comes before the first command. */
  predicate SelectsFirst<C>(items: seq<Item<C>>) { items == [] || items[0].Select? }

  /** Such items run alike from any database. */
  lemma {:induction false} SameFromAny<D, C>(exec: (D, nat, C) -> D, d: D, db: nat, e: nat, items: seq<Item<C>>)
    requires SelectsFirst(items)
    ensures Replay(exec, d, db, items) == Replay(exec, d, e, items)
    ensures items != [] ==> DbAfter(db, items) == DbAfter(e, items)
  {
    if |items| > 1 {
      SameFromAny(exec, d, db, e, items[..|items| - 1]);
    } else if |items| == 1 {
      assert items[..0] == [];
    }
  }

  // ---------------------------------------------------------------- loading

  /** Each log is replayed from database 0; only the last one may be torn. */
  function LoadIncrs<D, C>(exec: (D, nat, C) -> D, files: map<Name, File<D, C>>, incr: seq<nat>, base: D, mayTear: bool)
      : Option<D>
  {
    if incr == [] then Some(base)
    else
      var n := IncrName(incr[|incr| - 1]);
      if n !in files || !files[n].Log? || (files[n].torn && !mayTear) then None
      else
        match LoadIncrs(exec, files, incr[..|incr| - 1], base, false)
        case None => None
        case Some(d) => Some(Replay(exec, d, 0, files[n].items))
  }

  /** Sequence numbers of incremental files must be positive and increasing. */
  predicate Monotonic(incr: seq<nat>) {
    && (forall i :: 0 <= i < |incr| ==> incr[i] > 0)
    && (forall i, j :: 0 <= i < j < |incr| ==> incr[i] < incr[j])
  }

  function LoadBase<D, C>(empty: D, files: map<Name, File<D, C>>, base: Option<Name>): Option<D> {
    if base.None? then Some(empty)
    else if base.value in files && files[base.value].Snapshot? then Some(files[base.value].data)
    else None
  }

  /** The dataset a restarting server would load; None if it would refuse to start. */
  function Load<D, C>(empty: D, exec: (D, nat, C) -> D, disk: Disk<D, C>): Option<D> {
    if disk.manifest.None? || !Monotonic(disk.manifest.value.incr) then None
    else
      match LoadBase(empty, disk.files, disk.manifest.value.base)
      case None => None
      case Some(d) => LoadIncrs(exec, disk.files, disk.manifest.value.incr, d, true)
  }

  /** A listed log can be loaded: it is there, and only the last one ends inside an item. */
  predicate LogLoads<D, C>(files: map<Name, File<D, C>>, incr: seq<nat>, i: nat, mayTear: bool)
    requires i < |incr|
  {
    var n := IncrName(incr[i]);
    n in files && files[n].Log? && (files[n].torn ==> mayTear && i == |incr| - 1)
  }

  lemma {:induction false} LogsLoadIff<D, C>(exec: (D, nat, C) -> D, files: map<Name, File<D, C>>, incr: seq<nat>,
                                             base: D, mayTear: bool)
    ensures LoadIncrs(exec, files, incr, base, mayTear).Some?
       <==> forall i :: 0 <= i < |incr| ==> LogLoads(files, incr, i, mayTear)
  {
    if incr != [] {
      var k := |incr| - 1;
      LogsLoadIff(exec, files, incr[..k], base, false);
      assert forall i :: 0 <= i < k ==> (LogLoads(files, incr, i, mayTear) <==> LogLoads(files, incr[..k], i, false));
      assert LogLoads(files, incr, k, mayTear) <==>
        IncrName(incr[k]) in files && files[IncrName(incr[k])].Log? && (files[IncrName(incr[k])].torn ==> mayTear);
    }
  }

  /** Exactly when the server starts: there is a manifest, its sequence numbers are positive and
      increasing, the base is a snapshot if one is listed, and every listed log can be loaded. */
  lemma LoadsIff<D, C>(empty: D, exec: (D, nat, C) -> D, disk: Disk<D, C>)
    ensures Load(empty, exec, disk).Some? <==>
      && disk.manifest.Some?
      && var lines := disk.manifest.value;
      && (forall i :: 0 <= i < |lines.incr| ==> 0 < lines.incr[i])
      && (forall i, j :: 0 <= i < j < |lines.incr| ==> lines.incr[i] < lines.incr[j])
      && (lines.base.Some? ==> lines.base.value in disk.files && disk.files[lines.base.value].Snapshot?)
      && forall i :: 0 <= i < |lines.incr| ==> LogLoads(disk.files, lines.incr, i, true)
  {
    hide LoadIncrs, LogLoads;
    if disk.manifest.Some? {
      var lines := disk.manifest.value;
      match LoadBase(empty, disk.files, lines.base)
      case None =>
      case Some(d) => LogsLoadIff(exec, disk.files, lines.incr, d, true);
    }
  }

  /** Loading depends on the listed files only. */
  lemma {:induction false} LoadFrame<D, C>(exec: (D, nat, C) -> D, files: map<Name, File<D, C>>,
      files': map<Name, File<D, C>>, incr: seq<nat>, base: D, mayTear: bool)
    requires forall i :: 0 <= i < |incr| ==> (IncrName(incr[i]) in files <==> IncrName(incr[i]) in files')
    requires forall i :: 0 <= i < |incr| && IncrName(incr[i]) in files ==>
        files[IncrName(incr[i])] == files'[IncrName(incr[i])]
    ensures LoadIncrs(exec, files, incr, base, mayTear) == LoadIncrs(exec, files', incr, base, mayTear)
  {
    if incr != [] { LoadFrame(exec, files, files', incr[..|incr| - 1], base, false); }
  }

  /** Items appended to the last listed file are replayed last, on the database it has selected. */
  lemma LoadAppend<D, C>(exec: (D, nat, C) -> D, files: map<Name, File<D, C>>, incr: seq<nat>, base: D,
                         more: seq<Item<C>>, torn: bool)
    requires Monotonic(incr) && incr != [] && LoadIncrs(exec, files, incr, base, true).Some?
    ensures var n := IncrName(incr[|incr| - 1]);
      && n in files && files[n].Log?
      && LoadIncrs(exec, files[n := Log(files[n].items + more, torn)], incr, base, true)
         == Some(Replay(exec, LoadIncrs(exec, files, incr, base, true).value, DbAfter(0, files[n].items), more))
  {
    hide Replay, DbAfter;
    var n := IncrName(incr[|incr| - 1]);
    var files' := files[n := Log(files[n].items + more, torn)];
    LoadFrame(exec, files, files', incr[..|incr| - 1], base, false);
    ReplayConcat(exec, LoadIncrs(exec, files, incr[..|incr| - 1], base, false).value, 0, files[n].items, more);
  }

  ghost predicate TornLast<D, C>(files: map<Name, File<D, C>>, incr: seq<nat>) {
    && incr != [] && IncrName(incr[|incr| - 1]) in files
    && files[IncrName(incr[|incr| - 1])].Log? && files[IncrName(incr[|incr| - 1])].torn
  }

  /** An empty log at the end of the list adds nothing, but the one before must then be whole. */
  lemma LoadEmptyTail<D, C>(exec: (D, nat, C) -> D, files: map<Name, File<D, C>>, incr: seq<nat>, last: nat, base: D)
    requires IncrName(last) in files && files[IncrName(last)] == Log([], false)
    ensures LoadIncrs(exec, files, incr + [last], base, true)
         == if TornLast(files, incr) then None else LoadIncrs(exec, files, incr, base, true)
  {
    assert (incr + [last])[..|incr|] == incr;
  }

  /** The files a manifest asks the loader to read. */
  ghost function Current(lines: Lines): set<Name> {
    (if lines.base.Some? then {lines.base.value} else {}) + (set i | 0 <= i < |lines.incr| :: IncrName(lines.incr[i]))
  }

  /** Changing files the manifest does not list as base or incremental does not change the load. */
  lemma LoadUnaffected<D, C>(empty: D, exec: (D, nat, C) -> D, disk: Disk<D, C>, files: map<Name, File<D, C>>)
    requires disk.manifest.Some?
    requires forall n :: n in Current(disk.manifest.value) ==> (n in files <==> n in disk.files)
    requires forall n :: n in Current(disk.manifest.value) && n in files ==> files[n] == disk.files[n]
    ensures Load(empty, exec, disk.(files := files)) == Load(empty, exec, disk)
  {
    var lines := disk.manifest.value;
    match LoadBase(empty, disk.files, lines.base)
    case None =>
    case Some(d) =>
      assert forall i :: 0 <= i < |lines.incr| ==> IncrName(lines.incr[i]) in Current(lines);
      LoadFrame(exec, disk.files, files, lines.incr, d, true);
  }

  // ---------------------------------------------------------------- the manifest in memory

  /** The manifest in memory, with the counters that name the next files. */
  datatype Memory = Memory(base: Option<Name>, history: seq<Name>, incr: seq<nat>, currBase: nat, currIncr: nat)

  function ToLines(m: Memory): Lines { Lines(m.base, m.history, m.incr) }

  /** History files are older than every file in use. */
  ghost predicate Ordered(lines: Lines) {
    && Monotonic(lines.incr)
    && (lines.base.Some? ==> lines.base.value.BaseName?)
    && forall i :: 0 <= i < |lines.history| ==> Older(lines.history[i], lines)
  }

  ghost predicate Older(n: Name, lines: Lines) {
    match n
    case BaseName(s, _) => lines.base.Some? && lines.base.value.BaseName? && s < lines.base.value.seqno
    case IncrName(s) => forall i :: 0 <= i < |lines.incr| ==> s < lines.incr[i]
    case TempIncr => false
  }

  ghost predicate MemOk(m: Memory) {
    && Ordered(ToLines(m))
    && (m.base.Some? ==> m.base.value.seqno == m.currBase)
    && (forall i :: 0 <= i < |m.incr| ==> m.incr[i] <= m.currIncr)
    && (forall i :: 0 <= i < |m.history| && m.history[i].IncrName? ==> m.history[i].seqno <= m.currIncr)
  }

  function WithNewIncr(m: Memory): Memory {
    m.(incr := m.incr + [m.currIncr + 1], currIncr := m.currIncr + 1)
  }

  /** A history file is never a file the loader would read. */
  lemma HistoryNotCurrent(m: Memory, lines: Lines, h: Name)
    requires MemOk(m) && h in m.history && lines.base == m.base
    requires lines.incr == m.incr || lines.incr == m.incr + [m.currIncr + 1]
    ensures h !in Current(lines)
  {
    var k :| 0 <= k < |m.history| && m.history[k] == h;
    assert Older(h, ToLines(m));
  }

  function WithNewBase(m: Memory, rdb: bool): Memory {
    m.(history := (if m.base.Some? then [m.base.value] else []) + m.history,
       base := Some(BaseName(m.currBase + 1, rdb)), currBase := m.currBase + 1)
  }

  function IncrNames(incr: seq<nat>): (names: seq<Name>)
    ensures |names| == |incr| && forall i :: 0 <= i < |incr| ==> names[i] == IncrName(incr[i])
  {
    seq(|incr|, i requires 0 <= i < |incr| => IncrName(incr[i]))
  }

  lemma OneMoreName(incr: seq<nat>, j: nat, n: nat, history: seq<Name>)
    requires j < n <= |incr|
    ensures [IncrName(incr[j])] + (IncrNames(incr[j + 1..n]) + history) == IncrNames(incr[j..n]) + history
  {
    hide IncrNames;
    assert IncrNames(incr[j..n]) == [IncrName(incr[j])] + IncrNames(incr[j + 1..n]);
  }

  /** All incremental files become history, except the one being written. */
  function MarkRewritten(m: Memory, writing: bool): Memory {
    if m.incr == [] then m
    else
      var n := if writing then |m.incr| - 1 else |m.incr|;
      m.(history := IncrNames(m.incr[..n]) + m.history, incr := m.incr[n..])
  }

  function NewMemory(m: Memory, rdb: bool, waiting: bool, writing: bool): Memory {
    var m1 := WithNewBase(m, rdb);
    MarkRewritten(if waiting then WithNewIncr(m1) else m1, writing)
  }

  /** What a finished rewrite makes history: the old base, and every log but the one being written, if
      there is one. */
  lemma RewrittenHistory(m: Memory, rdb: bool, writing: bool)
    requires m.incr != []
    ensures var m' := NewMemory(m, rdb, false, writing); var h := m'.history;
      && (m.base.Some? ==> m.base.value in h) && (forall n :: n in m.history ==> n in h)
      && (forall i :: 0 <= i < |m.incr| - 1 ==> IncrName(m.incr[i]) in h)
      && (!writing ==> IncrName(m.incr[|m.incr| - 1]) in h)
      && m'.incr == (if writing then [m.incr[|m.incr| - 1]] else [])
      && m'.base == Some(BaseName(m.currBase + 1, rdb)) && m'.currIncr == m.currIncr
  {
    var m1 := WithNewBase(m, rdb);
    var n := if writing then |m.incr| - 1 else |m.incr|;
    var h, names := NewMemory(m, rdb, false, writing).history, IncrNames(m1.incr[..n]);
    assert h == names + m1.history;
    forall i | 0 <= i < n ensures IncrName(m.incr[i]) in h { assert h[i] == names[i]; }
    forall x | x in m1.history ensures x in h {}
  }

  lemma WithNewBaseOk(m: Memory, rdb: bool)
    requires MemOk(m)
    ensures MemOk(WithNewBase(m, rdb))
  {
    var m' := WithNewBase(m, rdb);
    forall i | 0 <= i < |m'.history| ensures Older(m'.history[i], ToLines(m')) {
      var k := |m'.history| - |m.history|;
      if i >= k { assert Older(m.history[i - k], ToLines(m)); }
    }
  }

  lemma MarkRewrittenOk(m: Memory, writing: bool)
    requires MemOk(m)
    ensures MemOk(MarkRewritten(m, writing))
  {
    if m.incr != [] {
      var m' := MarkRewritten(m, writing);
      var n := |m'.history| - |m.history|;
      forall i | 0 <= i < |m'.history| ensures Older(m'.history[i], ToLines(m')) {
        if i >= n { assert m'.history[i] == m.history[i - n]; assert Older(m.history[i - n], ToLines(m)); }
      }
      forall i | 0 <= i < |m'.history| && m'.history[i].IncrName? ensures m'.history[i].seqno <= m'.currIncr {
        if i >= n { assert m'.history[i] == m.history[i - n]; }
      }
    }
  }

  lemma NewMemoryOk(m: Memory, rdb: bool, waiting: bool, writing: bool)
    requires MemOk(m)
    ensures MemOk(NewMemory(m, rdb, waiting, writing))
    ensures writing && (waiting || m.incr != []) ==> |NewMemory(m, rdb, waiting, writing).incr| == 1
  {
    var m1 := WithNewBase(m, rdb);
    WithNewBaseOk(m, rdb);
    if waiting {
      var m2 := WithNewIncr(m1);
      forall i | 0 <= i < |m2.history| ensures Older(m2.history[i], ToLines(m2)) {
        assert Older(m1.history[i], ToLines(m1));
      }
      MarkRewrittenOk(m2, writing);
    } else {
      MarkRewrittenOk(m1, writing);
    }
  }

  /** The manifest a new process builds from the lines on disk. */
  function Reloaded(lines: Lines): Memory {
    Memory(lines.base, lines.history, lines.incr,
           if lines.base.Some? && lines.base.value.BaseName? then lines.base.value.seqno else 0,
           if lines.incr == [] then 0 else lines.incr[|lines.incr| - 1])
  }
}
