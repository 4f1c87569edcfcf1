/**
 Restarting on a log that was cut anywhere, logging on, and restarting again: exactly when the
 second restart finds what the first one found and everything logged since.
 */
module AofRestart {
  import opened AofLog
  import opened AofLoad
  import opened AofCut
  import opened AofHistory
  import opened Wrappers

  lemma {:induction false} HistoryThrough(cfg: Config, l: Loader, selected: int, units: seq<Unit>, at: nat)
    requires HistoryOk(cfg, units) && Between(l, selected)
    ensures var l' := Through(cfg, l, AllTokens(selected, Flat(units)), at);
      Between(l', Last(selected, Flat(units))) && l'.ran == l.ran + AllRuns(units)
    decreases |units|
  {
    hide UnitOk, UnitTokens, UnitRuns, AllTokens, Writes, TextAll, Through, Last, Flat, AllRuns;
    if units == [] {
      EmptyHistory(cfg, selected, l, at);
    } else {
      var u := units[0];
      assert UnitOk(cfg, u);
      UnitThrough(cfg, l, selected, u, at);
      HistoryStep(selected, units);
      var toks, next := UnitTokens(selected, u), Last(selected, Writes(u));
      ThroughConcat(cfg, l, toks, AllTokens(next, Flat(units[1..])), at);
      HistoryThrough(cfg, Through(cfg, l, toks, at), next, units[1..], at + |TextAll(toks)|);
      Grouped(l.ran, UnitRuns(u), AllRuns(units[1..]));
    }
  }

  lemma EmptyHistory(cfg: Config, selected: int, l: Loader, at: nat)
    ensures Flat([]) == [] && Last(selected, []) == selected && AllRuns([]) == [] && l.ran + [] == l.ran
    ensures AllTokens(selected, []) == [] && Through(cfg, l, [], at) == l
  {}

  /** The first unit of a history and the rest. */
  lemma HistoryStep(selected: int, units: seq<Unit>)
    requires units != []
    ensures var u := units[0]; var next := Last(selected, Writes(u));
      && AllTokens(selected, Flat(units)) == UnitTokens(selected, u) + AllTokens(next, Flat(units[1..]))
      && Last(selected, Flat(units)) == Last(next, Flat(units[1..]))
      && AllRuns(units) == UnitRuns(u) + AllRuns(units[1..])
  {
    hide UnitTokens, AllTokens, UnitRuns;
    UnitTokensAre(selected, units[0]);
    AllTokensConcat(selected, Writes(units[0]), Flat(units[1..]));
  }

  lemma Grouped(a: seq<Run>, b: seq<Run>, c: seq<Run>)
    ensures a + b + c == a + (b + c)
  {}

  lemma LoadsWhole(cfg: Config, total: nat, toks: seq<Token>, l: Loader, at: nat)
    requires TokensOk(cfg, toks) && total == at + |TextAll(toks)|
    ensures LoadFrom(cfg, total, TextAll(toks), l) == AtEnd(cfg, Through(cfg, l, toks, at))
  {
    hide LoadFrom, Through, TextAll, TokensOk;
    assert TextAll(toks) + [] == TextAll(toks);
    LoadsTokens(cfg, total, toks, [], l, at);
    StopsAtEnd(cfg, total, Through(cfg, l, toks, at));
  }

  /** Replaying what was fed, from a fresh log on, runs exactly the fed units on their databases,
      whatever bytes the arguments hold and wherever timestamps were inserted. */
  lemma FedLogReplays(cfg: Config, units: seq<Unit>)
    requires HistoryOk(cfg, units) && units != []
    ensures var out := Load(cfg, Fed(-1, Flat(units))); out.status == Loaded && out.loader.ran == AllRuns(units)
  {
    hide LoadFrom, HistoryOk, AllTokens, Fed, Flat, Through, TextAll, TokensOk, AllRuns;
    var toks := AllTokens(-1, Flat(units));
    HistoryTokensOk(cfg, -1, units);
    AllTokensText(-1, Flat(units));
    HistoryThrough(cfg, START, -1, units, 0);
    LoadsWhole(cfg, |TextAll(toks)|, toks, START, 0);
    SomeFed(-1, units);
    assert [] + AllRuns(units) == AllRuns(units);
  }

  lemma SomeFed(selected: int, units: seq<Unit>)
    requires units != []
    ensures Fed(selected, Flat(units)) != [] && Flat(units) != [] && Flat(units)[0] == Writes(units[0])[0]
    ensures Fed(selected, Flat(units)) == FedBytes(selected, Flat(units)[0]) + Fed(Flat(units)[0].db, Flat(units)[1..])
  {
    hide Print;
    TokensText(selected, Flat(units)[0]);
  }

  // ---------------------------------------------------------------- the state at the cut

  /** Before the MULTI of a transaction that is open after the first m tokens. */
  lemma {:induction false} PrefixState(cfg: Config, l: Loader, selected: int, units: seq<Unit>, m: nat, at: nat)
    returns (a: seq<Token>)
    requires HistoryOk(cfg, units) && Between(l, selected) && m <= |AllTokens(selected, Flat(units))|
    ensures var toks := AllTokens(selected, Flat(units))[..m]; var l' := Through(cfg, l, toks, at);
      l'.inMulti ==>
        var la := Through(cfg, l, a, at);
        && a <= toks && |a| < m && toks[|a|].Cmd? && cfg.lookup(toks[|a|].argv) == Multi
        && !la.inMulti && la.ran == l'.ran && l'.beforeMulti == la.validUpTo
    decreases |units|
  {
    hide UnitOk, UnitTokens, AllTokens, Writes, Through, TextAll, Front;
    a := [];
    if units == [] {
      NoTokens(selected);
      assert AllTokens(selected, Flat(units))[..m] == [];
      NothingThrough(cfg, l, at);
    } else {
      var u, ws, more := units[0], Writes(units[0]), Flat(units[1..]);
      assert UnitOk(cfg, u);
      UnitTokensAre(selected, u);
      AllTokensConcat(selected, ws, more);
      var here, rest := UnitTokens(selected, u), AllTokens(Last(selected, ws), more);
      if m < |here| {
        PartialUnit(cfg, l, selected, u, m, at);
        assert (here + rest)[..m] == here[..m];
        if Through(cfg, l, here[..m], at).inMulti {
          a := Front(selected, u.multi);
          FrontOfMulti(cfg, selected, u);
          QuietThrough(cfg, l, a, at);
        }
      } else {
        UnitThrough(cfg, l, selected, u, at);
        var l1, at1, m1 := Through(cfg, l, here, at), at + |TextAll(here)|, m - |here|;
        assert (here + rest)[..m] == here + rest[..m1];
        ThroughConcat(cfg, l, here, rest[..m1], at);
        var a1 := PrefixState(cfg, l1, Last(selected, ws), units[1..], m1, at1);
        a := here + a1;
        ThroughConcat(cfg, l, here, a1, at);
      }
    }
  }

  lemma NothingThrough(cfg: Config, l: Loader, at: nat)
    ensures Through(cfg, l, [], at) == l
  {}

  lemma FrontOfMulti(cfg: Config, selected: int, u: Unit)
    requires UnitOk(cfg, u) && u.Transaction?
    ensures Quiet(cfg, Front(selected, u.multi)) && |Front(selected, u.multi)| < Opening(selected, u)
    ensures Opening(selected, u) <= |UnitTokens(selected, u)|
    ensures UnitTokens(selected, u)[|Front(selected, u.multi)|] == Cmd(u.multi.argv)
        && cfg.lookup(u.multi.argv) == Multi
  {
    FrontQuiet(cfg, selected, u.multi, Multi);
  }

  // ---------------------------------------------------------------- what is left of the file

  /** The file a server logs on to after it has loaded it. */
  function Kept(cfg: Config, file: Bytes): Bytes {
    var out := Load(cfg, file);
    if out.status == Truncated && out.loader.validUpTo <= |file| then file[..out.loader.validUpTo] else file
  }

  /** What is left of a cut log: whole tokens, and the part of an annotation if it ends in one. */
  lemma KeptIs(cfg: Config, c: Cut, k: nat, a: seq<Token>) returns (kept: seq<Token>, part: Bytes)
    requires IsCut(cfg, c, k) && cfg.loadTruncated && cfg.truncates
    requires AtCut(cfg, c).inMulti ==>
        a <= c.toks[..c.m] && AtCut(cfg, c).beforeMulti == Through(cfg, START, a, 0).validUpTo
    ensures Kept(cfg, TextAll(c.toks)[..k]) == TextAll(kept) + part && TokensOk(cfg, kept)
    ensures part == if TornAt(c) || AtCut(cfg, c).inMulti then [] else c.part
    ensures Through(cfg, START, kept, 0)
         == if AtCut(cfg, c).inMulti && !TornAt(c) then Through(cfg, START, a, 0) else AtCut(cfg, c)
  {
    hide Through, TextAll, LoadFrom, Whole, Load, TokensOk;
    var file := TextAll(c.toks)[..k];
    var whole := c.toks[..c.m];
    var end := |TextAll(whole)|;
    WholeFits(c.toks, k);
    TokensFront(cfg, c.toks, c.m);
    assert file == TextAll(whole) + c.part;
    if k == 0 {
      StartsEmpty(cfg, c.toks);
      kept, part := [], [];
      assert whole == [] && file == [] && Kept(cfg, file) == file;
    } else {
      CutLog(cfg, c.toks, k);
      if !TornAt(c) && !AtCut(cfg, c).inMulti {
        kept, part := whole, c.part;
      } else {
        var base := if TornAt(c) then whole else a;
        kept, part := Trimmed(base), [];
        TrimmedThrough(cfg, START, base, 0);
        assert kept <= c.toks;
        FrontText(c.toks, kept);
        FrontText(whole, kept);
        TokensFront(cfg, c.toks, |kept|);
        assert c.toks[..|kept|] == kept && TextAll(kept) + [] == TextAll(kept);
        assert file[..|TextAll(kept)|] == TextAll(c.toks)[..|TextAll(kept)|];
      }
    }
  }

  lemma FrontText(toks: seq<Token>, a: seq<Token>)
    requires a <= toks
    ensures TextAll(a) <= TextAll(toks)
  {
    hide TextAll;
    assert toks == a + toks[|a|..];
    TextConcat(a, toks[|a|..]);
  }

  // ---------------------------------------------------------------- what is logged next

  ghost predicate HasTransaction(units: seq<Unit>) {
    exists i :: 0 <= i < |units| && units[i].Transaction?
  }

  /** A unit logged while the loader is still in a transaction: queued, and run with all that was
      queued before if it brings an EXEC. */
  lemma UnitInMulti(cfg: Config, l: Loader, selected: int, u: Unit, at: nat)
    requires UnitOk(cfg, u) && l.inMulti && (selected == QueueDb(cfg, l.db, l.queue) || selected == -1)
    ensures var l' := Through(cfg, l, UnitTokens(selected, u), at);
      if u.Transaction?
      then Between(l', Last(selected, Writes(u))) && l'.ran == l.ran + QueueRuns(cfg, l.db, l.queue) + UnitRuns(u)
      else && l'.inMulti && l'.ran == l.ran && l'.db == l.db
           && QueueDb(cfg, l.db, l'.queue) == Last(selected, Writes(u))
           && QueueRuns(cfg, l.db, l'.queue) == QueueRuns(cfg, l.db, l.queue) + UnitRuns(u)
  {
    hide Front, Through, Middle, QueueDb, QueueRuns, CmdsOf, Tokens, WriteOk, TextAll;
    match u
    case Single(w) =>
      SingleInner(cfg, selected, u);
      QueuedThrough(cfg, l, Tokens(selected, w), at);
      QueueWrite(cfg, QueueDb(cfg, l.db, l.queue), selected, w);
      QueueConcat(cfg, l.db, l.queue, CmdsOf(Tokens(selected, w)));
      OneRun(w);
    case Transaction(multi, body, exec) =>
      MultiInMulti(cfg, l, selected, u, at);
      var head, mid := Tokens(selected, multi), Middle(u);
      ThroughConcat(cfg, l, head, mid + [Cmd(exec.argv)], at);
      var l1, at1 := Through(cfg, l, head, at), at + |TextAll(head)|;
      ThroughConcat(cfg, l1, mid, [Cmd(exec.argv)], at1);
      MiddleInner(cfg, u);
      QueueMiddle(cfg, u);
      QueuedThrough(cfg, l1, mid, at1);
      QueueConcat(cfg, l.db, l1.queue, CmdsOf(mid));
      ExecKind(cfg, u);
      ExecThrough(cfg, Through(cfg, l1, mid, at1), exec.argv, at1 + |TextAll(mid)|);
      var q := QueueRuns(cfg, l.db, l.queue);
      assert l.ran + (q + Runs(body)) == l.ran + q + Runs(body);
  }

  lemma SingleInner(cfg: Config, selected: int, u: Unit)
    requires UnitOk(cfg, u) && u.Single?
    ensures Inner(cfg, Tokens(selected, u.w))
  {
    hide Front;
    FrontQuiet(cfg, selected, u.w, Ordinary);
  }

  /** A nested MULTI is queued like any command, and does nothing when it is run. */
  lemma MultiInMulti(cfg: Config, l: Loader, selected: int, u: Unit, at: nat)
    requires UnitOk(cfg, u) && u.Transaction? && l.inMulti
        && (selected == QueueDb(cfg, l.db, l.queue) || selected == -1)
    ensures var l' := Through(cfg, l, Tokens(selected, u.multi), at);
      && l'.inMulti && l'.ran == l.ran && l'.db == l.db && QueueDb(cfg, l.db, l'.queue) == u.multi.db
      && QueueRuns(cfg, l.db, l'.queue) == QueueRuns(cfg, l.db, l.queue)
  {
    hide Front, Through, CmdsOf, TextAll, Print;
    var w := u.multi;
    var front, one := Front(selected, w), [w.argv];
    FrontQuiet(cfg, selected, w, Multi);
    QueuedThrough(cfg, l, front, at);
    QueueFront(cfg, QueueDb(cfg, l.db, l.queue), selected, w, Multi);
    QueueConcat(cfg, l.db, l.queue, CmdsOf(front));
    ThroughConcat(cfg, l, front, [Cmd(w.argv)], at);
    var l1 := Through(cfg, l, front, at);
    OneThrough(cfg, l1, w.argv, at + |TextAll(front)|);
    QueueConcat(cfg, l.db, l1.queue, one);
    assert one[1..] == [];
    QueueNothing(cfg, w.db);
    assert QueueDb(cfg, w.db, one) == w.db && QueueRuns(cfg, w.db, one) == [];
  }

  /** Units logged while the loader is in a transaction that was never closed: lost, unless one of
      them brings an EXEC, which then also runs what was left of the open transaction. */
  lemma {:induction false} LaterInMulti(cfg: Config, l: Loader, selected: int, units: seq<Unit>, at: nat)
    requires HistoryOk(cfg, units) && l.inMulti && (selected == QueueDb(cfg, l.db, l.queue) || selected == -1)
    ensures var l' := Through(cfg, l, AllTokens(selected, Flat(units)), at);
      && l'.inMulti == !HasTransaction(units)
      && l'.ran == if HasTransaction(units) then l.ran + QueueRuns(cfg, l.db, l.queue) + AllRuns(units) else l.ran
    decreases |units|
  {
    hide UnitOk, UnitTokens, UnitRuns, AllTokens, Writes, TextAll, Through, QueueRuns, QueueDb, Last, Flat, AllRuns;
    if units == [] {
      EmptyHistory(cfg, selected, l, at);
    } else {
      var u := units[0];
      assert UnitOk(cfg, u);
      UnitInMulti(cfg, l, selected, u, at);
      HistoryStep(selected, units);
      var toks, next := UnitTokens(selected, u), Last(selected, Writes(u));
      var l1, at1 := Through(cfg, l, toks, at), at + |TextAll(toks)|;
      ThroughConcat(cfg, l, toks, AllTokens(next, Flat(units[1..])), at);
      var q, r, rs := QueueRuns(cfg, l.db, l.queue), UnitRuns(u), AllRuns(units[1..]);
      Grouped(l.ran + q, r, rs);
      Grouped(l.ran, q, r);
      if u.Transaction? {
        HistoryThrough(cfg, l1, next, units[1..], at1);
      } else {
        LaterInMulti(cfg, l1, next, units[1..], at1);
        assert forall i :: 0 < i < |units| ==> units[i] == units[1..][i - 1];
        assert HasTransaction(units) <==> HasTransaction(units[1..]);
      }
    }
  }

  /** Some command of the queue is a write. */
  ghost predicate HoldsWrite(cfg: Config, q: seq<Argv>) {
    exists i :: 0 <= i < |q| && cfg.lookup(q[i]) == Ordinary
  }

  lemma {:induction false} RunsIffWrite(cfg: Config, db: nat, q: seq<Argv>)
    ensures QueueRuns(cfg, db, q) != [] <==> HoldsWrite(cfg, q)
    decreases |q|
  {
    hide Selected;
    if q != [] {
      RunsIffWrite(cfg, if cfg.lookup(q[0]) == SelectDb then Selected(cfg, db, q[0]) else db, q[1..]);
      assert forall i :: 0 < i < |q| ==> q[i] == q[1..][i - 1];
      assert HoldsWrite(cfg, q) <==> cfg.lookup(q[0]) == Ordinary || HoldsWrite(cfg, q[1..]);
    }
  }

  lemma SomeRuns(cfg: Config, units: seq<Unit>)
    requires HistoryOk(cfg, units) && units != []
    ensures AllRuns(units) != []
  {
    assert UnitOk(cfg, units[0]);
    assert UnitRuns(units[0]) != [];
  }

  // ---------------------------------------------------------------- an unfinished annotation

  /** The next line joins an annotation whose end is missing. */
  lemma JoinsNote(time: nat, j: nat, line: Bytes, rest: Bytes)
    requires time < 0x8000_0000_0000_0000 && 0 < j < |Stamp(Some(time))| && LF !in line && |line| < 100
    ensures ReadItem(Stamp(Some(time))[..j] + (line + [LF] + rest)) == Annotation(rest)
  {
    LengthDigits(time);
    DigitsAreDigits(time);
    var p := (TS + Digits(time) + [CR])[..j];
    assert Stamp(Some(time))[..j] == p && LF !in p;
    assert p + (line + [LF] + rest) == (p + line) + [LF] + rest;
    LineOf(p + line, rest, LINE_MAX - 1);
  }

  lemma JoinsStamp(time: nat, j: nat, next: nat, rest: Bytes)
    requires time < 0x8000_0000_0000_0000 && 0 < j < |Stamp(Some(time))| && next < 0x8000_0000_0000_0000
    ensures ReadItem(Stamp(Some(time))[..j] + (Stamp(Some(next)) + rest)) == Annotation(rest)
  {
    hide ReadItem;
    LengthDigits(next);
    DigitsAreDigits(next);
    var line := TS + Digits(next) + [CR];
    assert Stamp(Some(next)) + rest == line + [LF] + rest;
    JoinsNote(time, j, line, rest);
  }

  /** A command that joins it loses its first line, and what follows is no command. */
  lemma JoinsCommand(time: nat, j: nat, argv: Argv, rest: Bytes)
    requires time < 0x8000_0000_0000_0000 && 0 < j < |Stamp(Some(time))| && Printable(argv)
    ensures ReadItem(Stamp(Some(time))[..j] + (Print(argv) + rest)) == Annotation(PrintArgs(argv) + rest)
    ensures ReadItem(PrintArgs(argv) + rest) == Malformed
  {
    LengthDigits(|argv|);
    DigitsAreDigits(|argv|);
    var line := [STAR] + Digits(|argv|) + [CR];
    assert Print(argv) + rest == line + [LF] + (PrintArgs(argv) + rest);
    JoinsNote(time, j, line, PrintArgs(argv) + rest);
    assert PrintArgs(argv)[0] == DOLLAR;
  }

  /** What is logged after an unfinished annotation is read if it starts with an annotation, and
      otherwise stops the loader. */
  lemma AfterNote(cfg: Config, total: nat, time: nat, j: nat, units: seq<Unit>, l: Loader)
    requires HistoryOk(cfg, units) && units != [] && !l.inMulti
    requires time < 0x8000_0000_0000_0000 && 0 < j < |Stamp(Some(time))|
    requires |Stamp(Some(time))[..j] + Fed(-1, Flat(units))| <= total
    ensures var out := LoadFrom(cfg, total, Stamp(Some(time))[..j] + Fed(-1, Flat(units)), l);
      && out.status == (if Writes(units[0])[0].stamp.Some? then Loaded else Failed)
      && out.loader.ran == l.ran + if Writes(units[0])[0].stamp.Some? then AllRuns(units) else []
  {
    hide ReadItem, LoadFrom, Print, Fed, AllTokens, Through, Stamp, Flat, HistoryOk, AllRuns;
    var p, w := Stamp(Some(time))[..j], Writes(units[0])[0];
    SomeFed(-1, units);
    FirstWrite(cfg, units);
    var more := Fed(Flat(units)[0].db, Flat(units)[1..]);
    var text := Print(SelectCommand(w.db)) + (Print(w.argv) + more);
    assert Fed(-1, Flat(units)) == Stamp(w.stamp) + text;
    if w.stamp.Some? {
      JoinsStamp(time, j, w.stamp.value, text);
      LoadsItem(cfg, total, p + Fed(-1, Flat(units)), l);
      StampIsSkipped(w.stamp.value, text);
      LoadsItem(cfg, total, Fed(-1, Flat(units)), l);
      AllTokensText(-1, Flat(units));
      HistoryTokensOk(cfg, -1, units);
      var toks := AllTokens(-1, Flat(units));
      LoadsWhole(cfg, total, toks, l, total - |TextAll(toks)|);
      HistoryThrough(cfg, l, -1, units, total - |TextAll(toks)|);
    } else {
      NoStamp();
      assert Fed(-1, Flat(units)) == text;
      JoinsCommand(time, j, SelectCommand(w.db), Print(w.argv) + more);
      LoadsItem(cfg, total, p + text, l);
      LoadsItem(cfg, total, PrintArgs(SelectCommand(w.db)) + (Print(w.argv) + more), l);
      assert l.ran + [] == l.ran;
    }
  }

  lemma FirstWrite(cfg: Config, units: seq<Unit>)
    requires HistoryOk(cfg, units) && units != []
    ensures var w := Writes(units[0])[0];
      && Printable(SelectCommand(w.db)) && (w.stamp.Some? ==> w.stamp.value < 0x8000_0000_0000_0000)
      && FedBytes(-1, w) == Stamp(w.stamp) + Print(SelectCommand(w.db)) + Print(w.argv)
  {
    hide Print, Stamp;
    assert UnitOk(cfg, units[0]);
    SelectSelects(cfg, Writes(units[0])[0].db, 0);
  }

  // ---------------------------------------------------------------- the second restart

  /** When nothing logged after the restart is lost or mixed with the torn tail:
      a cut inside an annotation must be inside a transaction or be followed by an annotation;
      a cut inside a command must be outside a transaction, or no write of the transaction is in
      the file and one of the later units is a transaction. */
  ghost predicate Harmless(cfg: Config, c: Cut, later: seq<Unit>)
    requires c.m <= |c.toks| && later != []
  {
    var l := AtCut(cfg, c);
    if TornAt(c) then !l.inMulti || (!HoldsWrite(cfg, l.queue) && HasTransaction(later))
    else c.part == [] || l.inMulti || Writes(later[0])[0].stamp.Some?
  }

  /** How the second restart ends. */
  ghost function NextStatus(cfg: Config, c: Cut, later: seq<Unit>): Status
    requires c.m <= |c.toks| && later != []
  {
    var open := AtCut(cfg, c).inMulti;
    if TornAt(c) then if open && !HasTransaction(later) then Truncated else Loaded
    else if c.part != [] && !open && Writes(later[0])[0].stamp == None then Failed
    else Loaded
  }

  /** Loading whole tokens and then what was fed later. */
  lemma ThenLater(cfg: Config, kept: seq<Token>, later: seq<Unit>)
    requires TokensOk(cfg, kept) && HistoryOk(cfg, later) && later != []
    ensures var l := Through(cfg, START, kept, 0); var out := Load(cfg, TextAll(kept) + Fed(-1, Flat(later)));
      && out.status == (if l.inMulti && !HasTransaction(later) then AofLoad.Torn(cfg, l).status else Loaded)
      && out.loader.ran ==
           if !l.inMulti then l.ran + AllRuns(later)
           else if HasTransaction(later) then l.ran + QueueRuns(cfg, l.db, l.queue) + AllRuns(later)
           else l.ran
  {
    hide LoadFrom, Through, TextAll, TokensOk, HistoryOk, AllTokens, Flat, Fed, AllRuns, HasTransaction, QueueRuns;
    var l, more := Through(cfg, START, kept, 0), AllTokens(-1, Flat(later));
    var at := |TextAll(kept)|;
    HistoryTokensOk(cfg, -1, later);
    AllTokensText(-1, Flat(later));
    SomeFed(-1, later);
    LoadsTokens(cfg, at + |TextAll(more)|, kept, TextAll(more), START, 0);
    LoadsWhole(cfg, at + |TextAll(more)|, more, l, at);
    if l.inMulti { LaterInMulti(cfg, l, -1, later, at); } else { HistoryThrough(cfg, l, -1, later, at); }
  }

  /** The main result. The server restarts on any prefix of a fed log, logs the units `later` and
      restarts again: the second restart runs the surviving units and then the later ones if and
      only if the cut was harmless. It refuses to start only if the cut was inside an annotation, outside
      a transaction, and no annotation followed. */
  lemma NextRestartIff(cfg: Config, units: seq<Unit>, k: nat, later: seq<Unit>)
    requires HistoryOk(cfg, units) && k <= |Fed(-1, Flat(units))| && cfg.loadTruncated && cfg.truncates
    requires HistoryOk(cfg, later) && later != []
    ensures var file := Fed(-1, Flat(units))[..k]; var ran := AllRuns(units[..WholeUnits(-1, units, k)]);
      var again := Load(cfg, Kept(cfg, file) + Fed(-1, Flat(later)));
      && Load(cfg, file).loader.ran == ran && Load(cfg, file).status == CutStatus(cfg, units, k)
      && (again.loader.ran == ran + AllRuns(later) <==> Harmless(cfg, CutOf(units, k), later))
      && again.status == NextStatus(cfg, CutOf(units, k), later)
  {
    hide LoadFrom, Through, TextAll, TokensOk, HistoryOk, AllTokens, Flat, Fed, AllRuns, HasTransaction, QueueRuns,
      Whole, WholeUnits, HoldsWrite;
    var c := CutOf(units, k);
    CutOfIs(cfg, units, k);
    CrashKeepsPrefix(cfg, units, TextAll(c.toks)[..k]);
    var a := PrefixState(cfg, START, -1, units, c.m, 0);
    var kept, part := KeptIs(cfg, c, k, a);
    SurvivorsAt(cfg, c, k);
    SomeRuns(cfg, later);
    var l := AtCut(cfg, c);
    if part == [] {
      assert TextAll(kept) + part == TextAll(kept);
      ThenLater(cfg, kept, later);
      RunsIffWrite(cfg, l.db, l.queue);
      LengthTells(l.ran, QueueRuns(cfg, l.db, l.queue), AllRuns(later));
    } else {
      ThenNote(cfg, c, k, kept, later);
      assert l.ran + [] == l.ran;
      LengthTells(l.ran, [], AllRuns(later));
    }
  }

  /** A log cut inside a transaction, after any history: nothing of the transaction runs. The file is
      cut back to before its MULTI, unless the cut is inside a command: then MULTI and the whole
      commands after it stay. `a` is what was logged before that MULTI. */
  lemma OpenTransaction(cfg: Config, units: seq<Unit>, k: nat) returns (a: seq<Token>)
    requires HistoryOk(cfg, units) && k <= |Fed(-1, Flat(units))| && cfg.loadTruncated && cfg.truncates
    requires AtCut(cfg, CutOf(units, k)).inMulti
    ensures var c := CutOf(units, k); var out := Load(cfg, Fed(-1, Flat(units))[..k]);
      && a <= c.toks && |a| < c.m && c.toks[|a|].Cmd? && cfg.lookup(c.toks[|a|].argv) == Multi
      && out.status == Truncated && out.loader.ran == AllRuns(units[..WholeUnits(-1, units, k)])
      && out.loader.validUpTo == |TextAll(Trimmed(if TornAt(c) then c.toks[..c.m] else a))|
  {
    hide LoadFrom, Through, TextAll, TokensOk, HistoryOk, AllTokens, Flat, Fed, AllRuns, Whole, WholeUnits;
    var c := CutOf(units, k);
    CutOfIs(cfg, units, k);
    a := PrefixState(cfg, START, -1, units, c.m, 0);
    if k == 0 { StartsEmpty(cfg, c.toks); }
    CutLog(cfg, c.toks, k);
    CrashKeepsPrefix(cfg, units, TextAll(c.toks)[..k]);
    TrimmedThrough(cfg, START, a, 0);
  }

  lemma LengthTells(ran: seq<Run>, q: seq<Run>, more: seq<Run>)
    ensures ran + q + more == ran + more <==> q == []
    ensures ran == ran + more <==> more == []
  {
    assert |ran + q + more| == |ran + more| + |q|;
    assert ran + [] + more == ran + more;
  }

  lemma SurvivorsAt(cfg: Config, c: Cut, k: nat)
    requires IsCut(cfg, c, k)
    ensures Load(cfg, TextAll(c.toks)[..k]).loader.ran == AtCut(cfg, c).ran
  {
    hide LoadFrom, Through, TextAll, TokensOk, Whole;
    WholeFits(c.toks, k);
    if k == 0 {
      StartsEmpty(cfg, c.toks);
      assert TextAll(c.toks)[..k] == [] && c.toks[..c.m] == [];
    } else {
      CutLog(cfg, c.toks, k);
    }
  }

  lemma ThenNote(cfg: Config, c: Cut, k: nat, kept: seq<Token>, later: seq<Unit>)
    requires IsCut(cfg, c, k) && c.part != [] && !TornAt(c) && !AtCut(cfg, c).inMulti
    requires TokensOk(cfg, kept) && Through(cfg, START, kept, 0) == AtCut(cfg, c)
    requires HistoryOk(cfg, later) && later != []
    ensures var out := Load(cfg, TextAll(kept) + c.part + Fed(-1, Flat(later)));
      && out.status == (if Writes(later[0])[0].stamp.Some? then Loaded else Failed)
      && out.loader.ran == AtCut(cfg, c).ran + if Writes(later[0])[0].stamp.Some? then AllRuns(later) else []
  {
    hide LoadFrom, Through, TextAll, HistoryOk, Flat, Fed, AllRuns, Whole, Writes;
    WholeFits(c.toks, k);
    var t, j := c.toks[c.m], |c.part|;
    assert t.Note? && TokenOk(cfg, t) && c.part == Text(t)[..j];
    var rest := c.part + Fed(-1, Flat(later));
    var file := TextAll(kept) + c.part + Fed(-1, Flat(later));
    assert file == TextAll(kept) + rest;
    LoadsTokens(cfg, |file|, kept, rest, START, 0);
    AfterNote(cfg, |file|, t.time, j, later, AtCut(cfg, c));
  }
}
