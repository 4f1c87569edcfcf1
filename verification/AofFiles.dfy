/**
 Loading a log that is spread over several files: each is replayed by a client of its own, which
 starts on database 0, and only the last one may be cut short.
 */
module AofFiles {
  import AofFlush
  import opened AofCut
  import opened AofHistory
  import opened AofLoad
  import opened AofLog
  import opened AofRestart
  import opened Wrappers

  datatype FilesOutcome = FilesOutcome(status: Status, ran: seq<Run>)

  function TotalSize(files: seq<Bytes>): nat {
    if files == [] then 0 else |files[0]| + TotalSize(files[1..])
  }

  /** The files one after the other. */
  function LoadEach(cfg: Config, files: seq<Bytes>): FilesOutcome {
    if files == [] then FilesOutcome(Loaded, [])
    else
      var out := Load(cfg, files[0]);
      if out.status == Failed || (out.status == Truncated && |files| > 1) then FilesOutcome(Failed, out.loader.ran)
      else if |files| == 1 then FilesOutcome(if out.status == Truncated then Truncated else Loaded, out.loader.ran)
      else After(out.loader.ran, LoadEach(cfg, files[1..]))
  }

  function After(ran: seq<Run>, out: FilesOutcome): FilesOutcome { out.(ran := ran + out.ran) }

  function LoadFiles(cfg: Config, files: seq<Bytes>): FilesOutcome {
    if TotalSize(files) == 0 then FilesOutcome(Empty, []) else LoadEach(cfg, files)
  }

  method LoadAppendOnlyFiles(cfg: Config, files: seq<Bytes>) returns (out: FilesOutcome)
    ensures out == LoadFiles(cfg, files)
  {
    hide Load;
    var size := 0;
    assert files[0..] == files;
    for i := 0 to |files|
      invariant TotalSize(files) == size + TotalSize(files[i..])
    {
      assert files[i..][0] == files[i] && files[i..][1..] == files[i + 1..];
      size := size + |files[i]|;
    }
    if size == 0 { return FilesOutcome(Empty, []); }
    var ran: seq<Run>, ret, i := [], Loaded, 0;
    AfterNothing(LoadEach(cfg, files));
    while i < |files|
      invariant 0 <= i <= |files| && ret in {Loaded, Truncated} && (ret == Truncated ==> i == |files|)
      invariant i < |files| ==> LoadEach(cfg, files) == After(ran, LoadEach(cfg, files[i..]))
      invariant i == |files| ==> LoadEach(cfg, files) == FilesOutcome(ret, ran)
    {
      assert files[i..][0] == files[i] && files[i..][1..] == files[i + 1..];
      var one := LoadSingleAppendOnlyFile(cfg, files[i]);
      AfterTwice(ran, one.loader.ran, LoadEach(cfg, files[i + 1..]));
      ran := ran + one.loader.ran;
      i := i + 1;
      ret := if one.status == Empty then Loaded else one.status;
      if ret == Truncated && i < |files| { ret := Failed; }
      if ret == Failed { return FilesOutcome(Failed, ran); }
    }
    return FilesOutcome(ret, ran);
  }

  lemma AfterNothing(out: FilesOutcome)
    ensures After([], out) == out
  {
    assert [] + out.ran == out.ran;
  }

  lemma AfterTwice(a: seq<Run>, b: seq<Run>, out: FilesOutcome)
    ensures After(a + b, out) == After(a, After(b, out))
  {
    assert a + b + out.ran == a + (b + out.ran);
  }

  // ---------------------------------------------------------------- files that were rotated away from empty-handed

  /** What the files hold when nothing is left over at any rotation: each starts a log of its own. */
  function FilesOf(parts: seq<seq<Unit>>): seq<Bytes> {
    if parts == [] then [] else [Fed(-1, Flat(parts[0]))] + FilesOf(parts[1..])
  }

  function Joined(parts: seq<seq<Unit>>): seq<Unit> {
    if parts == [] then [] else parts[0] + Joined(parts[1..])
  }

  ghost predicate PartsOk(cfg: Config, parts: seq<seq<Unit>>) {
    forall i :: 0 <= i < |parts| ==> HistoryOk(cfg, parts[i])
  }

  lemma {:induction false} RunsConcat(a: seq<Unit>, b: seq<Unit>)
    ensures AllRuns(a + b) == AllRuns(a) + AllRuns(b)
    decreases |a|
  {
    hide UnitRuns;
    if a == [] {
      assert a + b == b;
    } else {
      RunsConcat(a[1..], b);
      assert (a + b)[0] == a[0] && (a + b)[1..] == a[1..] + b;
    }
  }

  /** A whole file runs its units. */
  lemma WholeFile(cfg: Config, units: seq<Unit>)
    requires HistoryOk(cfg, units)
    ensures var out := Load(cfg, Fed(-1, Flat(units)));
      out.loader.ran == AllRuns(units) && out.status == if units == [] then Empty else Loaded
  {
    hide LoadFrom, HistoryOk, Flat, AllRuns;
    if units == [] { NoUnits(); } else { FedLogReplays(cfg, units); SomeFed(-1, units); }
  }

  lemma NoUnits()
    ensures Fed(-1, Flat([])) == [] && AllRuns([]) == []
  {}

  /** Closed files in front of others. */
  lemma {:induction false} ThenFiles(cfg: Config, parts: seq<seq<Unit>>, more: seq<Bytes>)
    requires PartsOk(cfg, parts) && more != []
    ensures LoadEach(cfg, FilesOf(parts) + more) == After(AllRuns(Joined(parts)), LoadEach(cfg, more))
  {
    hide Load, AllRuns, HistoryOk, Fed, Flat;
    if parts == [] {
      assert FilesOf(parts) + more == more;
      NoUnits();
      AfterNothing(LoadEach(cfg, more));
    } else {
      var files, rest := FilesOf(parts) + more, FilesOf(parts[1..]) + more;
      assert files[0] == Fed(-1, Flat(parts[0])) && files[1..] == rest;
      assert HistoryOk(cfg, parts[0]);
      WholeFile(cfg, parts[0]);
      ThenFiles(cfg, parts[1..], more);
      RunsConcat(parts[0], Joined(parts[1..]));
      AfterTwice(AllRuns(parts[0]), AllRuns(Joined(parts[1..])), LoadEach(cfg, more));
    }
  }

  lemma {:induction false} SizeConcat(a: seq<Bytes>, b: seq<Bytes>)
    ensures TotalSize(a + b) == TotalSize(a) + TotalSize(b)
    decreases |a|
  {
    if a == [] {
      assert a + b == b;
    } else {
      SizeConcat(a[1..], b);
      assert (a + b)[0] == a[0] && (a + b)[1..] == a[1..] + b;
    }
  }

  lemma {:induction false} NoSizeNoRuns(cfg: Config, parts: seq<seq<Unit>>)
    requires PartsOk(cfg, parts) && TotalSize(FilesOf(parts)) == 0
    ensures AllRuns(Joined(parts)) == []
  {
    hide AllRuns, HistoryOk, Fed, Flat;
    NoUnits();
    if parts != [] {
      if parts[0] != [] { SomeFed(-1, parts[0]); }
      NoSizeNoRuns(cfg, parts[1..]);
      assert Joined(parts) == Joined(parts[1..]);
    }
  }

  /** Rotating any number of times with an empty buffer is safe. The server stops with any number of
      bytes in the last file: the files replay to a prefix of the whole history. */
  lemma FilesReplay(cfg: Config, parts: seq<seq<Unit>>, units: seq<Unit>, file: Bytes)
    requires PartsOk(cfg, parts) && HistoryOk(cfg, units) && file <= Fed(-1, Flat(units))
    ensures var c := WholeUnits(-1, units, |file|); var out := LoadFiles(cfg, FilesOf(parts) + [file]);
      && out.ran == AllRuns(Joined(parts) + units[..c])
      && out.status == if TotalSize(FilesOf(parts) + [file]) == 0 then Empty
                       else if file == [] then Loaded else CutStatus(cfg, units, |file|)
  {
    hide Load, AllRuns, HistoryOk, Fed, Flat, WholeUnits, FilesOf, Joined;
    var c := WholeUnits(-1, units, |file|);
    ThenFiles(cfg, parts, [file]);
    CrashKeepsPrefix(cfg, units, file);
    RunsConcat(Joined(parts), units[..c]);
    SizeConcat(FilesOf(parts), [file]);
    assert [file][1..] == [];
    if TotalSize(FilesOf(parts) + [file]) == 0 {
      NoSizeNoRuns(cfg, parts);
      assert file == [];
      EmptyRuns(cfg, units, c);
    }
  }

  lemma EmptyRuns(cfg: Config, units: seq<Unit>, c: nat)
    requires c <= |units| && Load(cfg, []).loader.ran == AllRuns(units[..c])
    ensures AllRuns(units[..c]) == []
  {}

  // ---------------------------------------------------------------- something left over at a rotation

  /** Commands of a transaction that the loader has queued. */
  function Pending(l: Loader): seq<Argv> { if l.inMulti then l.queue else [] }

  /** Tokens run their commands in their order, wherever the transactions begin and end. */
  lemma {:induction false} ThroughRuns(cfg: Config, l: Loader, toks: seq<Token>, at: nat)
    ensures var l' := Through(cfg, l, toks, at); var q := Pending(l) + CmdsOf(toks);
      && l'.ran + QueueRuns(cfg, l'.db, Pending(l')) == l.ran + QueueRuns(cfg, l.db, q)
      && QueueDb(cfg, l'.db, Pending(l')) == QueueDb(cfg, l.db, q)
    decreases |toks|
  {
    hide Text, Step, QueueRuns, QueueDb, Pending;
    if toks == [] {
      assert Pending(l) + [] == Pending(l);
    } else {
      var end := at + |Text(toks[0])|;
      var l1 := Step(cfg, l, toks[0], end);
      ThroughRuns(cfg, l1, toks[1..], end);
      StepRuns(cfg, l, toks[0], end, CmdsOf(toks[1..]));
      var one := if toks[0].Cmd? then [toks[0].argv] else [];
      assert Pending(l) + CmdsOf(toks) == Pending(l) + one + CmdsOf(toks[1..]);
    }
  }

  lemma StepRuns(cfg: Config, l: Loader, t: Token, end: nat, more: seq<Argv>)
    ensures var l1 := Step(cfg, l, t, end); var q := Pending(l) + (if t.Cmd? then [t.argv] else []) + more;
      && l1.ran + QueueRuns(cfg, l1.db, Pending(l1) + more) == l.ran + QueueRuns(cfg, l.db, q)
      && QueueDb(cfg, l1.db, Pending(l1) + more) == QueueDb(cfg, l.db, q)
  {
    hide RunQueue, QueueRuns, QueueDb, Selected;
    if t.Note? {
      assert Pending(l) + [] + more == Pending(l) + more;
    } else if l.inMulti && cfg.lookup(t.argv) == Exec {
      ExecRuns(cfg, l, t.argv, more);
      RunQueueIs(cfg, l.(inMulti := false, queue := []), l.queue);
      assert [] + more == more;
    } else if !l.inMulti && cfg.lookup(t.argv) != Multi {
      NowRuns(cfg, l, t.argv, more);
      assert [] + [t.argv] + more == [t.argv] + more && [] + more == more;
    } else if !l.inMulti {
      IdleRuns(cfg, l.db, t.argv, more);
      assert [] + [t.argv] + more == [t.argv] + more && [] + more == more;
    }
  }

  /** A command that is run at once. */
  lemma NowRuns(cfg: Config, l: Loader, argv: Argv, more: seq<Argv>)
    ensures var l1 := RunNow(cfg, l, argv);
      && l1.ran + QueueRuns(cfg, l1.db, more) == l.ran + QueueRuns(cfg, l.db, [argv] + more)
      && QueueDb(cfg, l1.db, more) == QueueDb(cfg, l.db, [argv] + more)
  {
    hide Selected;
    assert ([argv] + more)[1..] == more;
    var rest := QueueRuns(cfg, RunNow(cfg, l, argv).db, more);
    assert l.ran + [Run(l.db, argv)] + rest == l.ran + ([Run(l.db, argv)] + rest);
    assert [] + rest == rest;
  }

  /** MULTI and EXEC run nothing themselves. */
  lemma IdleRuns(cfg: Config, db: nat, argv: Argv, more: seq<Argv>)
    requires cfg.lookup(argv) == Multi || cfg.lookup(argv) == Exec
    ensures QueueRuns(cfg, db, [argv] + more) == QueueRuns(cfg, db, more)
    ensures QueueDb(cfg, db, [argv] + more) == QueueDb(cfg, db, more)
  {
    assert ([argv] + more)[1..] == more;
    assert [] + QueueRuns(cfg, db, more) == QueueRuns(cfg, db, more);
  }

  /** EXEC runs what was queued. */
  lemma ExecRuns(cfg: Config, l: Loader, argv: Argv, more: seq<Argv>)
    requires l.inMulti && cfg.lookup(argv) == Exec
    ensures l.ran + QueueRuns(cfg, l.db, l.queue) + QueueRuns(cfg, QueueDb(cfg, l.db, l.queue), more)
         == l.ran + QueueRuns(cfg, l.db, l.queue + [argv] + more)
    ensures QueueDb(cfg, QueueDb(cfg, l.db, l.queue), more) == QueueDb(cfg, l.db, l.queue + [argv] + more)
  {
    hide QueueRuns, QueueDb;
    var db, q := QueueDb(cfg, l.db, l.queue), l.queue;
    assert q + [argv] + more == q + ([argv] + more);
    QueueConcat(cfg, l.db, q, [argv] + more);
    IdleRuns(cfg, db, argv, more);
    Grouped(l.ran, QueueRuns(cfg, l.db, q), QueueRuns(cfg, db, more));
  }

  /** Whether the loader ends inside a transaction depends on the commands alone. */
  lemma {:induction false} SameMulti(cfg: Config, l: Loader, k: Loader, toks: seq<Token>, at: nat, from: nat)
    requires l.inMulti == k.inMulti
    ensures Through(cfg, l, toks, at).inMulti == Through(cfg, k, toks, from).inMulti
    decreases |toks|
  {
    hide Text;
    if toks != [] {
      var end, till := at + |Text(toks[0])|, from + |Text(toks[0])|;
      StepMulti(cfg, l, toks[0], end);
      StepMulti(cfg, k, toks[0], till);
      SameMulti(cfg, Step(cfg, l, toks[0], end), Step(cfg, k, toks[0], till), toks[1..], end, till);
    }
  }

  lemma StepMulti(cfg: Config, l: Loader, t: Token, end: nat)
    ensures Step(cfg, l, t, end).inMulti ==
      if t.Note? then l.inMulti
      else if l.inMulti then cfg.lookup(t.argv) != Exec else cfg.lookup(t.argv) == Multi
  {
    hide QueueDb, QueueRuns, RunQueue;
    if t.Cmd? { RunQueueIs(cfg, l.(inMulti := false, queue := []), l.queue); }
  }

  // ---------------------------------------------------------------- which database

  /** A SELECT comes before the first write. */
  predicate SelectsFirst(cfg: Config, q: seq<Argv>) {
    q == [] || cfg.lookup(q[0]) == SelectDb || (cfg.lookup(q[0]) != Ordinary && SelectsFirst(cfg, q[1..]))
  }

  /** Every SELECT selects, whatever was selected before. */
  ghost predicate SelectsOk(cfg: Config, q: seq<Argv>) {
    forall i :: 0 <= i < |q| && cfg.lookup(q[i]) == SelectDb ==> SelectOk(cfg, q[i])
  }

  ghost predicate SelectOk(cfg: Config, argv: Argv) {
    exists db: nat :: db < cfg.dbnum < 0x8000_0000 && argv == SelectCommand(db)
  }

  lemma SelectsAlike(cfg: Config, argv: Argv, d: nat, e: nat)
    requires SelectOk(cfg, argv)
    ensures Selected(cfg, d, argv) == Selected(cfg, e, argv)
  {
    hide Selected;
    var db: nat :| db < cfg.dbnum < 0x8000_0000 && argv == SelectCommand(db);
    SelectSelects(cfg, db, d);
    SelectSelects(cfg, db, e);
  }

  /** Commands run alike from two databases if and only if they select one before they write. */
  lemma {:induction false} DbMatters(cfg: Config, q: seq<Argv>, d: nat, e: nat)
    requires SelectsOk(cfg, q) && d != e
    ensures QueueRuns(cfg, d, q) == QueueRuns(cfg, e, q) <==> SelectsFirst(cfg, q)
  {
    hide Selected, SelectOk;
    if q != [] {
      if cfg.lookup(q[0]) == SelectDb {
        assert SelectOk(cfg, q[0]);
        SelectsAlike(cfg, q[0], d, e);
      } else if cfg.lookup(q[0]) == Ordinary {
        assert QueueRuns(cfg, d, q)[0] == Run(d, q[0]) && QueueRuns(cfg, e, q)[0] == Run(e, q[0]);
      } else {
        DbMatters(cfg, q[1..], d, e);
        assert [] + QueueRuns(cfg, d, q[1..]) == QueueRuns(cfg, d, q[1..]);
        assert [] + QueueRuns(cfg, e, q[1..]) == QueueRuns(cfg, e, q[1..]);
      }
    }
  }

  /** Writes that fit the C types, none of them a SELECT. */
  ghost predicate WritesOk(cfg: Config, ws: seq<Write>) {
    forall i :: 0 <= i < |ws| ==> NoSelect(cfg, ws[i])
  }

  ghost predicate NoSelect(cfg: Config, w: Write) {
    cfg.lookup(w.argv) != SelectDb && WriteOk(cfg, w, cfg.lookup(w.argv))
  }

  lemma UnitWritesOk(cfg: Config, u: Unit)
    requires UnitOk(cfg, u)
    ensures WritesOk(cfg, Writes(u))
  {}

  lemma {:induction false} FlatWritesOk(cfg: Config, units: seq<Unit>)
    requires HistoryOk(cfg, units)
    ensures WritesOk(cfg, Flat(units))
  {
    hide UnitOk, Writes, NoSelect;
    if units != [] {
      assert UnitOk(cfg, units[0]);
      UnitWritesOk(cfg, units[0]);
      FlatWritesOk(cfg, units[1..]);
    }
  }

  lemma {:induction false} TokensSelectOk(cfg: Config, selected: int, ws: seq<Write>)
    requires WritesOk(cfg, ws)
    ensures SelectsOk(cfg, CmdsOf(AllTokens(selected, ws)))
    decreases |ws|
  {
    hide Tokens, NoSelect, SelectOk, CmdsOf;
    if ws == [] {
      assert CmdsOf([]) == [] by { NoCmds(); }
    } else {
      assert NoSelect(cfg, ws[0]);
      OneSelectOk(cfg, selected, ws[0]);
      TokensSelectOk(cfg, ws[0].db, ws[1..]);
      CmdsConcat(Tokens(selected, ws[0]), AllTokens(ws[0].db, ws[1..]));
    }
  }

  lemma NoCmds()
    ensures CmdsOf([]) == []
  {}

  lemma OneSelectOk(cfg: Config, selected: int, w: Write)
    requires NoSelect(cfg, w)
    ensures SelectsOk(cfg, CmdsOf(Tokens(selected, w)))
  {
    var a := if w.stamp.Some? then [Note(w.stamp.value)] else [];
    var b := if w.db != selected then [Cmd(SelectCommand(w.db))] else [];
    CmdsConcat(a, b);
    CmdsConcat(a + b, [Cmd(w.argv)]);
    assert CmdsOf(a) == [];
    OneCmd(SelectCommand(w.db));
    OneCmd(w.argv);
    assert SelectOk(cfg, SelectCommand(w.db));
  }

  lemma OneCmd(argv: Argv)
    ensures CmdsOf([Cmd(argv)]) == [argv]
  {
    assert [Cmd(argv)][1..] == [];
  }

  // ---------------------------------------------------------------- the second file

  /** The rest of the tokens of a history, loaded by a client of its own, and then a later history. */
  lemma RestRuns(cfg: Config, units: seq<Unit>, m: nat, later: seq<Unit>)
    requires HistoryOk(cfg, units) && HistoryOk(cfg, later) && m <= |AllTokens(-1, Flat(units))|
    requires !Through(cfg, START, AllTokens(-1, Flat(units))[..m], 0).inMulti
    ensures var toks := AllTokens(-1, Flat(units)); var l := Through(cfg, START, toks[..m], 0);
      var q := CmdsOf(toks[m..]); var l' := Through(cfg, START, toks[m..] + AllTokens(-1, Flat(later)), 0);
      && !l'.inMulti && l'.ran == QueueRuns(cfg, 0, q) + AllRuns(later)
      && AllRuns(units) == l.ran + QueueRuns(cfg, l.db, q)
  {
    hide Through, AllTokens, Flat, AllRuns, TextAll, CmdsOf, QueueRuns, QueueDb, HistoryOk;
    var toks, more := AllTokens(-1, Flat(units)), AllTokens(-1, Flat(later));
    var l, at := Through(cfg, START, toks[..m], 0), |TextAll(toks[..m])|;
    var l2, at2 := Through(cfg, START, toks[m..], 0), |TextAll(toks[m..])|;
    assert toks[..m] + toks[m..] == toks;
    HistoryThrough(cfg, START, -1, units, 0);
    ThroughConcat(cfg, START, toks[..m], toks[m..], 0);
    ThroughConcat(cfg, START, toks[m..], more, 0);
    SameMulti(cfg, l, START, toks[m..], at, 0);
    ThroughRuns(cfg, START, toks[m..], 0);
    ThroughRuns(cfg, l, toks[m..], at);
    HistoryThrough(cfg, l2, -1, later, at2);
    NothingQueued(cfg, l2.db, CmdsOf(toks[m..]));
    NothingQueued(cfg, Through(cfg, l, toks[m..], at).db, CmdsOf(toks[m..]));
    Bare(AllRuns(units));
    Bare(l2.ran);
    Bare(Through(cfg, l, toks[m..], at).ran);
    Bare(QueueRuns(cfg, 0, CmdsOf(toks[m..])));
  }

  lemma Bare(r: seq<Run>)
    ensures [] + r == r && r + [] == r
  {}

  lemma NothingQueued(cfg: Config, db: nat, q: seq<Argv>)
    ensures QueueRuns(cfg, db, []) == [] && [] + q == q
  {}

  /** The leftover of a rotation that falls between two tokens, outside a transaction, and then what
      is fed later. */
  lemma SecondFile(cfg: Config, units: seq<Unit>, m: nat, later: seq<Unit>)
    requires HistoryOk(cfg, units) && HistoryOk(cfg, later) && m <= |AllTokens(-1, Flat(units))|
    requires !Through(cfg, START, AllTokens(-1, Flat(units))[..m], 0).inMulti
    ensures var toks := AllTokens(-1, Flat(units)); var file := TextAll(toks[m..]) + Fed(-1, Flat(later));
      var out := Load(cfg, file);
      && out.status == (if file == [] then Empty else Loaded)
      && out.loader.ran == QueueRuns(cfg, 0, CmdsOf(toks[m..])) + AllRuns(later)
  {
    hide Through, AllTokens, Flat, AllRuns, TextAll, CmdsOf, QueueRuns, HistoryOk, LoadFrom, Fed, TokensOk;
    var toks, more := AllTokens(-1, Flat(units)), AllTokens(-1, Flat(later));
    var all := toks[m..] + more;
    RestRuns(cfg, units, m, later);
    HistoryTokensOk(cfg, -1, units);
    HistoryTokensOk(cfg, -1, later);
    AllTokensText(-1, Flat(later));
    TextConcat(toks[m..], more);
    TokensOkConcat(cfg, toks[m..], more, toks, m);
    LoadsWhole(cfg, |TextAll(all)|, all, START, 0);
    if TextAll(all) == [] { NoTextNoTokens(cfg, all); }
  }

  lemma TokensOkConcat(cfg: Config, a: seq<Token>, b: seq<Token>, toks: seq<Token>, m: nat)
    requires m <= |toks| && a == toks[m..] && TokensOk(cfg, toks) && TokensOk(cfg, b)
    ensures TokensOk(cfg, a + b)
  {}

  lemma NoTextNoTokens(cfg: Config, toks: seq<Token>)
    requires TextAll(toks) == []
    ensures Through(cfg, START, toks, 0) == START
  {
    hide Text;
    assert toks == [];
  }

  /** An annotation whose beginning is missing stops the loader. */
  lemma NoteTail(cfg: Config, time: nat, j: nat, rest: Bytes)
    requires time < 0x8000_0000_0000_0000 && 0 < j < |Stamp(Some(time))|
    ensures Load(cfg, Stamp(Some(time))[j..] + rest).status == Failed
  {
    hide LoadFrom, Digits;
    DigitsAreDigits(time);
    var s := Stamp(Some(time))[j..] + rest;
    assert s[0] == Stamp(Some(time))[j];
    assert s[0] != HASH && s[0] != STAR;
    assert ReadItem(s) == Malformed;
    LoadsItem(cfg, |s|, s, START);
  }

  // ---------------------------------------------------------------- the rotation

  /** A rotation that leaves bytes in the buffer loses nothing: the file is closed between two tokens,
      outside a transaction, and its last database is 0, or what is left over selects one before it
      writes. With nothing left over this holds. */
  ghost predicate CarriesOver(cfg: Config, c: Cut)
    requires c.m <= |c.toks|
  {
    && c.part == [] && !AtCut(cfg, c).inMulti
    && (AtCut(cfg, c).db == 0 || SelectsFirst(cfg, CmdsOf(c.toks[c.m..])))
  }

  /** A file closed inside a command or a transaction cannot be loaded any more. */
  lemma FirstFails(cfg: Config, units: seq<Unit>, p: nat, second: Bytes)
    requires HistoryOk(cfg, units) && p <= |Fed(-1, Flat(units))|
    requires var c := CutOf(units, p); TornAt(c) || AtCut(cfg, c).inMulti
    ensures LoadEach(cfg, [Fed(-1, Flat(units))[..p], second]).status == Failed
  {
    hide Load, AllRuns, HistoryOk, Fed, Flat, WholeUnits, CutOf, AtCut, TornAt;
    var file := Fed(-1, Flat(units))[..p];
    CrashKeepsPrefix(cfg, units, file);
    if p == 0 { CutAtStart(cfg, units); }
    assert [file, second][1..] == [second];
  }

  lemma CutAtStart(cfg: Config, units: seq<Unit>)
    ensures var c := CutOf(units, 0); c.m == 0 && !TornAt(c) && AtCut(cfg, c) == START
  {
    hide AllTokens, Flat, Through, TextAll;
    StartsEmpty(cfg, AllTokens(-1, Flat(units)));
    assert AllTokens(-1, Flat(units))[..0] == [];
  }

  /** The two files of a rotation after the first p bytes of a history. */
  lemma TwoFiles(cfg: Config, units: seq<Unit>, p: nat, later: seq<Unit>)
    requires HistoryOk(cfg, units) && HistoryOk(cfg, later) && p <= |Fed(-1, Flat(units))|
    ensures var fed := Fed(-1, Flat(units)); var out := LoadEach(cfg, [fed[..p], fed[p..] + Fed(-1, Flat(later))]);
      && (out.status != Failed && out.ran == AllRuns(units) + AllRuns(later) <==> CarriesOver(cfg, CutOf(units, p)))
      && out.status in {Loaded, Failed}
  {
    hide Load, AllRuns, HistoryOk, Fed, Flat, WholeUnits, TextAll, AllTokens, Through, Whole, CmdsOf, TokensOk;
    var c, fed := CutOf(units, p), Fed(-1, Flat(units));
    var second := fed[p..] + Fed(-1, Flat(later));
    var files := [fed[..p], second];
    assert files[1..] == [second] && [second][1..] == [];
    CutOfIs(cfg, units, p);
    if TornAt(c) || AtCut(cfg, c).inMulti {
      FirstFails(cfg, units, p, second);
    } else {
      CrashKeepsPrefix(cfg, units, fed[..p]);
      SurvivorsAt(cfg, c, p);
      if c.part != [] {
        NoteSplit(cfg, units, p, Fed(-1, Flat(later)));
      } else {
        BoundarySplit(cfg, units, p, later);
      }
    }
  }

  lemma NoteSplit(cfg: Config, units: seq<Unit>, p: nat, more: Bytes)
    requires HistoryOk(cfg, units) && p <= |Fed(-1, Flat(units))|
    requires var c := CutOf(units, p); c.part != [] && !TornAt(c)
    ensures Load(cfg, Fed(-1, Flat(units))[p..] + more).status == Failed
  {
    hide Load, HistoryOk, Fed, Flat, TextAll, AllTokens, Whole, Stamp;
    var c, fed := CutOf(units, p), Fed(-1, Flat(units));
    CutOfIs(cfg, units, p);
    WholeFits(c.toks, p);
    var t, j := c.toks[c.m], |c.part|;
    assert t.Note? && TokenOk(cfg, t);
    NextText(c.toks, c.m);
    FrontText(c.toks, c.toks[..c.m + 1]);
    var end := |TextAll(c.toks[..c.m])|;
    assert fed[p..] == Text(t)[j..] + fed[end + |Text(t)|..];
    var rest := fed[end + |Text(t)|..] + more;
    assert fed[p..] + more == Text(t)[j..] + rest;
    NoteTail(cfg, t.time, j, rest);
  }

  lemma BoundarySplit(cfg: Config, units: seq<Unit>, p: nat, later: seq<Unit>)
    requires HistoryOk(cfg, units) && HistoryOk(cfg, later) && p <= |Fed(-1, Flat(units))|
    requires var c := CutOf(units, p); c.part == [] && !AtCut(cfg, c).inMulti
    ensures var c, fed := CutOf(units, p), Fed(-1, Flat(units)); var file := fed[p..] + Fed(-1, Flat(later));
      var out := Load(cfg, file); var ran := AtCut(cfg, c).ran + out.loader.ran;
      && out.status == (if file == [] then Empty else Loaded)
      && (ran == AllRuns(units) + AllRuns(later) <==> CarriesOver(cfg, c))
  {
    hide Load, AllRuns, HistoryOk, Fed, Flat, TextAll, AllTokens, Through, CmdsOf, QueueRuns, SelectsOk, Whole,
      TokensOk;
    var c, fed := CutOf(units, p), Fed(-1, Flat(units));
    CutOfIs(cfg, units, p);
    WholeFits(c.toks, p);
    var l, q := AtCut(cfg, c), CmdsOf(c.toks[c.m..]);
    SecondFile(cfg, units, c.m, later);
    RestRuns(cfg, units, c.m, later);
    assert c.toks[..c.m] + c.toks[c.m..] == c.toks;
    TextConcat(c.toks[..c.m], c.toks[c.m..]);
    assert fed[p..] == TextAll(c.toks[c.m..]);
    RestSelectsOk(cfg, units, c.m);
    if l.db != 0 { DbMatters(cfg, q, 0, l.db); }
    SameMiddle(l.ran, QueueRuns(cfg, 0, q), QueueRuns(cfg, l.db, q), AllRuns(later));
  }

  lemma RestSelectsOk(cfg: Config, units: seq<Unit>, m: nat)
    requires HistoryOk(cfg, units) && m <= |AllTokens(-1, Flat(units))|
    ensures SelectsOk(cfg, CmdsOf(AllTokens(-1, Flat(units))[m..]))
  {
    hide HistoryOk, Flat, AllTokens, CmdsOf, WritesOk, SelectOk;
    var toks := AllTokens(-1, Flat(units));
    FlatWritesOk(cfg, units);
    TokensSelectOk(cfg, -1, Flat(units));
    CmdsConcat(toks[..m], toks[m..]);
    assert toks[..m] + toks[m..] == toks;
    var a, b := CmdsOf(toks[..m]), CmdsOf(toks[m..]);
    forall i | 0 <= i < |b| && cfg.lookup(b[i]) == SelectDb ensures SelectOk(cfg, b[i]) {
      assert (a + b)[|a| + i] == b[i];
    }
  }

  lemma SameMiddle(a: seq<Run>, x: seq<Run>, y: seq<Run>, b: seq<Run>)
    ensures a + (x + b) == a + y + b <==> x == y
  {
    assert |a + (x + b)| == |a| + |x| + |b| && |a + y + b| == |a| + |y| + |b|;
    if a + (x + b) == a + y + b {
      assert x == (a + (x + b))[|a|..|a| + |x|];
      assert y == (a + y + b)[|a|..|a| + |y|];
    }
  }

  /** The main result. After any number of rotations with an empty buffer, a rotation finds the first p
      bytes of the current log in its file and the rest in the buffer, which goes to the new file.
      The files then replay everything fed, before and after, if and only if the leftover carries
      over. */
  lemma RotationIff(cfg: Config, parts: seq<seq<Unit>>, units: seq<Unit>, p: nat, later: seq<Unit>)
    requires PartsOk(cfg, parts) && HistoryOk(cfg, units) && HistoryOk(cfg, later) && p <= |Fed(-1, Flat(units))|
    ensures var fed := Fed(-1, Flat(units)); var files := [fed[..p], fed[p..] + Fed(-1, Flat(later))];
      var out := LoadFiles(cfg, FilesOf(parts) + files);
      && out.status in {Empty, Loaded, Failed}
      && (out.status != Failed && out.ran == AllRuns(Joined(parts) + units + later) <==>
          CarriesOver(cfg, CutOf(units, p)))
  {
    hide Load, AllRuns, HistoryOk, Fed, Flat, FilesOf, Joined, CarriesOver, CutOf;
    var fed := Fed(-1, Flat(units));
    var files := [fed[..p], fed[p..] + Fed(-1, Flat(later))];
    ThenFiles(cfg, parts, files);
    TwoFiles(cfg, units, p, later);
    RunsConcat(Joined(parts) + units, later);
    RunsConcat(Joined(parts), units);
    SizeConcat(FilesOf(parts), files);
    SameTail(AllRuns(Joined(parts)), LoadEach(cfg, files).ran, AllRuns(units), AllRuns(later));
    if TotalSize(FilesOf(parts) + files) == 0 {
      NoSizeNoRuns(cfg, parts);
      NothingAtAll(cfg, files);
    }
  }

  lemma SameTail(a: seq<Run>, r: seq<Run>, x: seq<Run>, b: seq<Run>)
    ensures a + r == a + x + b <==> r == x + b
  {
    if a + r == a + x + b {
      assert r == (a + r)[|a|..];
      assert x + b == (a + x + b)[|a|..];
    }
    assert a + (x + b) == a + x + b;
  }

  lemma NothingAtAll(cfg: Config, files: seq<Bytes>)
    requires TotalSize(files) == 0 && |files| == 2
    ensures LoadEach(cfg, files) == FilesOutcome(Loaded, [])
  {
    assert files[1..][0] == files[1] && files[1..][1..] == [];
    assert files[0] == [] && files[1] == [];
  }

  /** Without a leftover the condition holds. */
  lemma NothingLeft(cfg: Config, units: seq<Unit>)
    requires HistoryOk(cfg, units)
    ensures CarriesOver(cfg, CutOf(units, |Fed(-1, Flat(units))|))
  {
    hide HistoryOk, Fed, Flat, TextAll, AllTokens, Through, TokensOk, Text;
    var toks := AllTokens(-1, Flat(units));
    AllTokensText(-1, Flat(units));
    WholeAll(toks);
    assert toks[..|toks|] == toks && toks[|toks|..] == [];
    HistoryThrough(cfg, START, -1, units, 0);
    NoCmds();
  }

  lemma {:induction false} WholeAll(toks: seq<Token>)
    ensures Whole(toks, |TextAll(toks)|) == |toks|
  {
    hide Text;
    if toks != [] { WholeAll(toks[1..]); }
  }

  /** The property fails without it: two writes to a database other than 0, the second one left in the
      buffer when the file is closed. It has no SELECT of its own and is replayed on database 0. */
  lemma LeftoverInWrongDatabase(cfg: Config, w: Write, x: Write)
    requires WriteOk(cfg, w, Ordinary) && WriteOk(cfg, x, Ordinary) && w.db == x.db != 0
    ensures var first, fed := FedBytes(-1, w), Fed(-1, [w, x]);
      && fed == first + FedBytes(w.db, x)
      && LoadFiles(cfg, [fed[..|first|], fed[|first|..]])
         == FilesOutcome(Loaded, [Run(w.db, w.argv), Run(0, x.argv)])
      && AllRuns([Single(w), Single(x)]) == [Run(w.db, w.argv), Run(x.db, x.argv)]
  {
    hide FedBytes, Load, WriteOk;
    var first, second := FedBytes(-1, w), FedBytes(w.db, x);
    TwoWrites(w, x);
    var files := [first, second];
    assert files[1..] == [second] && [second][1..] == [];
    assert Fed(-1, [w, x])[..|first|] == first && Fed(-1, [w, x])[|first|..] == second;
    AloneFile(cfg, -1, w);
    AloneFile(cfg, w.db, x);
    assert LoadEach(cfg, [second]) == FilesOutcome(Loaded, [Run(0, x.argv)]);
    assert TotalSize(files) >= |first|;
  }

  lemma TwoWrites(w: Write, x: Write)
    ensures Fed(-1, [w, x]) == FedBytes(-1, w) + FedBytes(w.db, x)
    ensures AllRuns([Single(w), Single(x)]) == [Run(w.db, w.argv), Run(x.db, x.argv)]
  {
    hide FedBytes;
    assert [w, x][1..] == [x] && [x][1..] == [];
    assert Fed(x.db, []) == [] && FedBytes(w.db, x) + [] == FedBytes(w.db, x);
    OneRun(w);
    OneRun(x);
    assert [Single(w), Single(x)][1..] == [Single(x)] && [Single(x)][1..] == [];
    assert AllRuns([Single(x)]) == [Run(x.db, x.argv)] + [];
  }

  /** A file that holds one write and nothing else. */
  lemma AloneFile(cfg: Config, selected: int, w: Write)
    requires WriteOk(cfg, w, Ordinary)
    ensures var out := Load(cfg, FedBytes(selected, w));
      && FedBytes(selected, w) != [] && out.status == Loaded
      && out.loader.ran == [Run(if w.db != selected then w.db else 0, w.argv)]
  {
    hide LoadFrom, Front, Through, CmdsOf, TextAll, FedBytes, Print, WriteOk;
    var toks := Tokens(selected, w);
    TokensText(selected, w);
    UnitTokensOk(cfg, selected, Single(w));
    LoadsWhole(cfg, |TextAll(toks)|, toks, START, 0);
    TokensSplit(selected, w);
    TextConcat(Front(selected, w), [Cmd(w.argv)]);
    OneText(Cmd(w.argv));
    if w.db != selected {
      UnselectedFront(w, selected);
      WriteThrough(cfg, START, -1, w, Ordinary, 0);
    } else {
      SelectedFront(w);
      WriteAtZero(cfg, w);
    }
  }

  lemma UnselectedFront(w: Write, selected: int)
    requires w.db != selected
    ensures Front(selected, w) == Front(-1, w)
  {}

  lemma SelectedFront(w: Write)
    ensures Front(w.db, w) == if w.stamp.Some? then [Note(w.stamp.value)] else []
  {}

  lemma WriteAtZero(cfg: Config, w: Write)
    requires WriteOk(cfg, w, Ordinary)
    ensures var l := Through(cfg, START, Tokens(w.db, w), 0); !l.inMulti && l.ran == [Run(0, w.argv)]
  {
    hide Through, Print, Text;
    var front := Front(w.db, w);
    FrontQuiet(cfg, w.db, w, Ordinary);
    QuietThrough(cfg, START, front, 0);
    assert CmdsOf(front) == [];
    ThroughConcat(cfg, START, front, [Cmd(w.argv)], 0);
    OneThrough(cfg, Through(cfg, START, front, 0), w.argv, |TextAll(front)|);
  }

  /** A rotation in the running server: a history is fed, one flush writes what it can, the file is
      closed, and later units are fed and written to the new one. */
  method RotateAndGoOn(cfg: Config, units: seq<Unit>, later: seq<Unit>, w: AofFlush.World) returns (a: AofFlush.Aof)
    requires HistoryOk(cfg, units) && HistoryOk(cfg, later)
    ensures |a.closed| == 1 && a.closed[0].content <= Fed(-1, Flat(units))
    ensures var fed := Fed(-1, Flat(units)); var out := LoadFiles(cfg, [a.closed[0].content, a.content]);
      && (out.status != Failed && out.ran == AllRuns(units + later) <==>
          CarriesOver(cfg, CutOf(units, |a.closed[0].content|)))
      && (AofFlush.Total(w.script, |fed|, 0) == |fed| ==> out.status != Failed && out.ran == AllRuns(units + later))
  {
    hide Fed, Flat, AllRuns, HistoryOk, LoadEach, CarriesOver, CutOf, AofFlush.Total, AofFlush.ClosedBytes;
    ghost var fed, more := Fed(-1, Flat(units)), Fed(-1, Flat(later));
    a := new AofFlush.Aof.OpenOnStart([], AofFlush.EverySecond);
    a.Feed(Fed(-1, Flat(units)));
    assert [] + fed == fed;
    assert a.buf == fed == a.fed;
    a.Flush(true, w);
    ghost var p := |a.content|;
    assert a.content == fed[..p] && a.buf == fed[p..] by { assert a.content + a.buf == fed; }
    a.OpenNew(w.now);
    a.Feed(Fed(-1, Flat(later)));
    AofFlush.FlushWhole(a);
    assert a.closed == [AofFlush.Closed(fed[..p], a.closed[0].durable)];
    OneRotation(cfg, units, p, later);
    NothingLeft(cfg, units);
  }

  lemma OneRotation(cfg: Config, units: seq<Unit>, p: nat, later: seq<Unit>)
    requires HistoryOk(cfg, units) && HistoryOk(cfg, later) && p <= |Fed(-1, Flat(units))|
    ensures var fed := Fed(-1, Flat(units));
      var out := LoadFiles(cfg, [fed[..p], fed[p..] + Fed(-1, Flat(later))]);
      out.status != Failed && out.ran == AllRuns(units + later) <==> CarriesOver(cfg, CutOf(units, p))
  {
    hide LoadFiles, AllRuns, HistoryOk, Fed, Flat, CarriesOver, CutOf;
    RotationIff(cfg, [], units, p, later);
    var fed := Fed(-1, Flat(units));
    var files := [fed[..p], fed[p..] + Fed(-1, Flat(later))];
    assert FilesOf([]) + files == files;
    assert Joined([]) + units + later == units + later;
  }
}
