/**
 What a restart makes of a fed log. A history is a sequence of single writes and of transactions;
 each command of it is fed to the log with its annotation and SELECT.
 */
module AofHistory {
  import opened AofLog
  import opened AofLoad
  import opened AofCut
  import opened Wrappers

  datatype Unit = Single(w: Write) | Transaction(multi: Write, body: seq<Write>, exec: Write)

  /** The commands fed for a unit. */
  function Writes(u: Unit): (ws: seq<Write>)
    ensures ws != []
  {
    match u case Single(w) => [w] case Transaction(multi, body, exec) => [multi] + (body + [exec])
  }

  function Flat(units: seq<Unit>): seq<Write> {
    if units == [] then [] else Writes(units[0]) + Flat(units[1..])
  }

  function Runs(ws: seq<Write>): seq<Run> {
    if ws == [] then [] else [Run(ws[0].db, ws[0].argv)] + Runs(ws[1..])
  }

  /** What executing a unit runs: MULTI and EXEC themselves run nothing. */
  function UnitRuns(u: Unit): seq<Run> {
    match u case Single(w) => Runs([w]) case Transaction(_, body, _) => Runs(body)
  }

  function AllRuns(units: seq<Unit>): seq<Run> {
    if units == [] then [] else UnitRuns(units[0]) + AllRuns(units[1..])
  }

  predicate WriteOk(cfg: Config, w: Write, kind: Kind) {
    && Printable(w.argv) && cfg.lookup(w.argv) == kind
    && w.db < cfg.dbnum < 0x8000_0000 && cfg.lookup(SelectCommand(w.db)) == SelectDb
    && (w.stamp.Some? ==> w.stamp.value < 0x8000_0000_0000_0000)
  }

  ghost predicate BodyOk(cfg: Config, ws: seq<Write>) {
    forall i :: 0 <= i < |ws| ==> WriteOk(cfg, ws[i], Ordinary)
  }

  ghost predicate UnitOk(cfg: Config, u: Unit) {
    match u
    case Single(w) => WriteOk(cfg, w, Ordinary)
    case Transaction(multi, body, exec) =>
      WriteOk(cfg, multi, Multi) && body != [] && BodyOk(cfg, body) && WriteOk(cfg, exec, Exec)
  }

  ghost predicate HistoryOk(cfg: Config, units: seq<Unit>) {
    forall i :: 0 <= i < |units| ==> UnitOk(cfg, units[i])
  }

  // ---------------------------------------------------------------- the tokens of a history

  /** The database selected in the log after `ws`. */
  function Last(selected: int, ws: seq<Write>): int {
    if ws == [] then selected else ws[|ws| - 1].db
  }

  /** What precedes the command itself. */
  function Front(selected: int, w: Write): seq<Token> {
    (if w.stamp.Some? then [Note(w.stamp.value)] else [])
    + (if w.db != selected then [Cmd(SelectCommand(w.db))] else [])
  }

  function Tokens(selected: int, w: Write): seq<Token> { Front(selected, w) + [Cmd(w.argv)] }

  function AllTokens(selected: int, ws: seq<Write>): seq<Token>
    decreases |ws|
  {
    if ws == [] then [] else Tokens(selected, ws[0]) + AllTokens(ws[0].db, ws[1..])
  }

  lemma OneText(t: Token)
    ensures TextAll([t]) == Text(t)
  {
    hide Text;
    assert [t][1..] == [];
  }

  lemma TokensText(selected: int, w: Write)
    ensures TextAll(Tokens(selected, w)) == FedBytes(selected, w)
  {
    hide Print, Stamp;
    var a := if w.stamp.Some? then [Note(w.stamp.value)] else [];
    var b := if w.db != selected then [Cmd(SelectCommand(w.db))] else [];
    TextConcat(a, b);
    TextConcat(a + b, [Cmd(w.argv)]);
    OneText(Cmd(w.argv));
    OneText(Cmd(SelectCommand(w.db)));
    NoStamp();
    if w.stamp.Some? { OneText(Note(w.stamp.value)); }
  }

  lemma NoStamp()
    ensures Stamp(None) == []
  {}

  lemma {:induction false} AllTokensText(selected: int, ws: seq<Write>)
    ensures TextAll(AllTokens(selected, ws)) == Fed(selected, ws)
    decreases |ws|
  {
    hide Tokens, FedBytes, Text;
    if ws != [] {
      TokensText(selected, ws[0]);
      AllTokensText(ws[0].db, ws[1..]);
      TextConcat(Tokens(selected, ws[0]), AllTokens(ws[0].db, ws[1..]));
    }
  }

  lemma {:induction false} AllTokensConcat(selected: int, a: seq<Write>, b: seq<Write>)
    ensures AllTokens(selected, a + b) == AllTokens(selected, a) + AllTokens(Last(selected, a), b)
    decreases |a|
  {
    hide Tokens;
    if a == [] {
      assert a + b == b;
    } else {
      AllTokensConcat(a[0].db, a[1..], b);
      assert (a + b)[0] == a[0] && (a + b)[1..] == a[1..] + b;
    }
  }

  lemma OneTokens(selected: int, w: Write)
    ensures AllTokens(selected, [w]) == Tokens(selected, w)
  {
    hide Tokens;
    assert [w][1..] == [];
    assert AllTokens(w.db, []) == [];
  }

  /** What a transaction logs between MULTI and EXEC. */
  function Middle(u: Unit): seq<Token>
    requires u.Transaction?
  {
    AllTokens(u.multi.db, u.body) + Front(Last(u.multi.db, u.body), u.exec)
  }

  function UnitTokens(selected: int, u: Unit): seq<Token> {
    match u
    case Single(w) => Tokens(selected, w)
    case Transaction(multi, _, exec) => Tokens(selected, multi) + (Middle(u) + [Cmd(exec.argv)])
  }

  lemma UnitTokensAre(selected: int, u: Unit)
    ensures AllTokens(selected, Writes(u)) == UnitTokens(selected, u)
    ensures TextAll(UnitTokens(selected, u)) == Fed(selected, Writes(u))
  {
    hide Tokens, Front, Fed;
    AllTokensText(selected, Writes(u));
    match u
    case Single(w) => OneTokens(selected, w);
    case Transaction(multi, body, exec) =>
      AllTokensConcat(selected, [multi], body + [exec]);
      AllTokensConcat(multi.db, body, [exec]);
      OneTokens(selected, multi);
      OneTokens(Last(multi.db, body), exec);
      TokensSplit(Last(multi.db, body), exec);
  }

  lemma TokensSplit(selected: int, w: Write)
    ensures Tokens(selected, w) == Front(selected, w) + [Cmd(w.argv)]
  {}

  // ---------------------------------------------------------------- kinds of tokens

  function CmdsOf(toks: seq<Token>): seq<Argv> {
    if toks == [] then []
    else (if toks[0].Cmd? then [toks[0].argv] else []) + CmdsOf(toks[1..])
  }

  /** Annotations and SELECTs. */
  ghost predicate Quiet(cfg: Config, toks: seq<Token>) {
    TokensOk(cfg, toks) && forall i :: 0 <= i < |toks| && toks[i].Cmd? ==> cfg.lookup(toks[i].argv) == SelectDb
  }

  /** Tokens that do not end a transaction, and do not begin one. */
  ghost predicate Inner(cfg: Config, toks: seq<Token>) {
    && TokensOk(cfg, toks)
    && forall i :: 0 <= i < |toks| && toks[i].Cmd? ==> cfg.lookup(toks[i].argv) in {SelectDb, Ordinary}
  }

  lemma FrontQuiet(cfg: Config, selected: int, w: Write, kind: Kind)
    requires WriteOk(cfg, w, kind)
    ensures Quiet(cfg, Front(selected, w)) && Inner(cfg, Front(selected, w))
  {
    SelectSelects(cfg, w.db, 0);
  }

  lemma SelectSelects(cfg: Config, db: nat, was: nat)
    requires db < cfg.dbnum < 0x8000_0000
    ensures Printable(SelectCommand(db)) && Selected(cfg, was, SelectCommand(db)) == db
  {
    LengthDigits(db);
    NumberOfDigits(db, []);
    assert Digits(db) + [] == Digits(db);
  }

  lemma {:induction false} BodyInner(cfg: Config, selected: int, ws: seq<Write>)
    requires BodyOk(cfg, ws)
    ensures Inner(cfg, AllTokens(selected, ws))
    decreases |ws|
  {
    hide Front;
    if ws != [] {
      FrontQuiet(cfg, selected, ws[0], Ordinary);
      BodyInner(cfg, ws[0].db, ws[1..]);
    }
  }

  lemma MiddleInner(cfg: Config, u: Unit)
    requires UnitOk(cfg, u) && u.Transaction?
    ensures Inner(cfg, Middle(u))
  {
    hide Front, AllTokens;
    BodyInner(cfg, u.multi.db, u.body);
    FrontQuiet(cfg, Last(u.multi.db, u.body), u.exec, Exec);
  }

  lemma UnitTokensOk(cfg: Config, selected: int, u: Unit)
    requires UnitOk(cfg, u)
    ensures TokensOk(cfg, UnitTokens(selected, u))
  {
    hide Front, AllTokens, Middle;
    match u
    case Single(w) => FrontQuiet(cfg, selected, w, Ordinary);
    case Transaction(multi, _, _) =>
      FrontQuiet(cfg, selected, multi, Multi);
      MiddleInner(cfg, u);
  }

  lemma {:induction false} HistoryTokensOk(cfg: Config, selected: int, units: seq<Unit>)
    requires HistoryOk(cfg, units)
    ensures TokensOk(cfg, AllTokens(selected, Flat(units)))
    decreases |units|
  {
    hide UnitOk, UnitTokens, AllTokens;
    if units == [] {
      assert AllTokens(selected, []) == [] by { NoTokens(selected); }
    } else {
      assert UnitOk(cfg, units[0]);
      UnitTokensOk(cfg, selected, units[0]);
      UnitTokensAre(selected, units[0]);
      AllTokensConcat(selected, Writes(units[0]), Flat(units[1..]));
      HistoryTokensOk(cfg, Last(selected, Writes(units[0])), units[1..]);
    }
  }

  lemma NoTokens(selected: int)
    ensures AllTokens(selected, []) == []
  {}

  // ---------------------------------------------------------------- running a queue

  function QueueDb(cfg: Config, db: nat, q: seq<Argv>): nat
    decreases |q|
  {
    if q == [] then db
    else QueueDb(cfg, if cfg.lookup(q[0]) == SelectDb then Selected(cfg, db, q[0]) else db, q[1..])
  }

  function QueueRuns(cfg: Config, db: nat, q: seq<Argv>): seq<Run>
    decreases |q|
  {
    if q == [] then []
    else
      (if cfg.lookup(q[0]) == Ordinary then [Run(db, q[0])] else [])
      + QueueRuns(cfg, if cfg.lookup(q[0]) == SelectDb then Selected(cfg, db, q[0]) else db, q[1..])
  }

  /** Running a queue appends to what has run and leaves a database selected. */
  lemma {:induction false} RunQueueIs(cfg: Config, l: Loader, q: seq<Argv>)
    ensures RunQueue(cfg, l, q) == l.(db := QueueDb(cfg, l.db, q), ran := l.ran + QueueRuns(cfg, l.db, q))
    decreases |q|
  {
    hide Selected;
    if q != [] {
      var l1 := RunNow(cfg, l, q[0]);
      RunQueueIs(cfg, l1, q[1..]);
      assert l1.ran + QueueRuns(cfg, l1.db, q[1..]) == l.ran + QueueRuns(cfg, l.db, q);
    }
  }

  lemma {:induction false} QueueConcat(cfg: Config, db: nat, a: seq<Argv>, b: seq<Argv>)
    ensures QueueDb(cfg, db, a + b) == QueueDb(cfg, QueueDb(cfg, db, a), b)
    ensures QueueRuns(cfg, db, a + b) == QueueRuns(cfg, db, a) + QueueRuns(cfg, QueueDb(cfg, db, a), b)
    decreases |a|
  {
    hide Selected;
    if a == [] {
      assert a + b == b;
    } else {
      assert (a + b)[0] == a[0] && (a + b)[1..] == a[1..] + b;
      QueueConcat(cfg, if cfg.lookup(a[0]) == SelectDb then Selected(cfg, db, a[0]) else db, a[1..], b);
    }
  }

  lemma {:induction false} CmdsConcat(a: seq<Token>, b: seq<Token>)
    ensures CmdsOf(a + b) == CmdsOf(a) + CmdsOf(b)
    decreases |a|
  {
    if a == [] {
      assert a + b == b;
    } else {
      assert (a + b)[0] == a[0] && (a + b)[1..] == a[1..] + b;
      CmdsConcat(a[1..], b);
    }
  }

  /** The SELECT before a command, if any, runs nothing and leaves its database selected. */
  lemma QueueFront(cfg: Config, db: nat, selected: int, w: Write, kind: Kind)
    requires WriteOk(cfg, w, kind) && (selected == db || selected == -1)
    ensures var q := CmdsOf(Front(selected, w)); QueueDb(cfg, db, q) == w.db && QueueRuns(cfg, db, q) == []
  {
    var a := if w.stamp.Some? then [Note(w.stamp.value)] else [];
    var b := if w.db != selected then [Cmd(SelectCommand(w.db))] else [];
    CmdsConcat(a, b);
    assert CmdsOf(a) == [];
    if w.db != selected {
      var q := [SelectCommand(w.db)];
      assert b[1..] == [] && CmdsOf(b) == q && q[1..] == [];
      SelectSelects(cfg, w.db, db);
      assert QueueDb(cfg, db, q) == QueueDb(cfg, w.db, q[1..]);
    }
  }

  lemma QueueWrite(cfg: Config, db: nat, selected: int, w: Write)
    requires WriteOk(cfg, w, Ordinary) && (selected == db || selected == -1)
    ensures var q := CmdsOf(Tokens(selected, w));
      QueueDb(cfg, db, q) == w.db && QueueRuns(cfg, db, q) == [Run(w.db, w.argv)]
  {
    hide Front, Selected;
    QueueFront(cfg, db, selected, w, Ordinary);
    CmdsConcat(Front(selected, w), [Cmd(w.argv)]);
    var q := [w.argv];
    assert [Cmd(w.argv)][1..] == [] && CmdsOf([Cmd(w.argv)]) == q && q[1..] == [];
    QueueConcat(cfg, db, CmdsOf(Front(selected, w)), q);
    assert QueueRuns(cfg, w.db, q[1..]) == [];
  }

  lemma {:induction false} QueueBody(cfg: Config, db: nat, selected: int, ws: seq<Write>)
    requires BodyOk(cfg, ws) && (selected == db || (selected == -1 && ws != []))
    ensures var q := CmdsOf(AllTokens(selected, ws));
      QueueDb(cfg, db, q) == Last(selected, ws) && QueueRuns(cfg, db, q) == Runs(ws)
    decreases |ws|
  {
    hide Tokens, WriteOk, QueueDb, QueueRuns;
    if ws == [] {
      QueueNothing(cfg, db);
    } else {
      var a, b := Tokens(selected, ws[0]), AllTokens(ws[0].db, ws[1..]);
      QueueWrite(cfg, db, selected, ws[0]);
      QueueBody(cfg, ws[0].db, ws[0].db, ws[1..]);
      CmdsConcat(a, b);
      QueueConcat(cfg, db, CmdsOf(a), CmdsOf(b));
    }
  }

  lemma QueueNothing(cfg: Config, db: nat)
    ensures QueueDb(cfg, db, []) == db && QueueRuns(cfg, db, []) == []
  {}

  lemma QueueMiddle(cfg: Config, u: Unit)
    requires UnitOk(cfg, u) && u.Transaction?
    ensures var q := CmdsOf(Middle(u));
      QueueDb(cfg, u.multi.db, q) == u.exec.db && QueueRuns(cfg, u.multi.db, q) == Runs(u.body)
  {
    hide Front, AllTokens, QueueDb, QueueRuns, WriteOk;
    var db := u.multi.db;
    var a, b := AllTokens(db, u.body), Front(Last(db, u.body), u.exec);
    QueueBody(cfg, db, db, u.body);
    CmdsConcat(a, b);
    QueueConcat(cfg, db, CmdsOf(a), CmdsOf(b));
    QueueFront(cfg, QueueDb(cfg, db, CmdsOf(a)), Last(db, u.body), u.exec, Exec);
  }

  // ---------------------------------------------------------------- the loader in a history

  /** The loader between units: outside a transaction, its database known to the log. */
  predicate Between(l: Loader, selected: int) { !l.inMulti && (selected == l.db || selected == -1) }

  /** Annotations and SELECTs outside a transaction. */
  lemma {:induction false} QuietThrough(cfg: Config, l: Loader, toks: seq<Token>, at: nat)
    requires Quiet(cfg, toks) && !l.inMulti
    ensures var l' := Through(cfg, l, toks, at);
      && !l'.inMulti && l'.ran == l.ran && l'.db == QueueDb(cfg, l.db, CmdsOf(toks))
    decreases |toks|
  {
    hide Text, Selected, TokenOk;
    if toks != [] {
      var end := at + |Text(toks[0])|;
      QuietThrough(cfg, Step(cfg, l, toks[0], end), toks[1..], end);
      if toks[0].Cmd? {
        assert cfg.lookup(toks[0].argv) == SelectDb;
        assert CmdsOf(toks)[0] == toks[0].argv && CmdsOf(toks)[1..] == CmdsOf(toks[1..]);
      } else {
        assert CmdsOf(toks) == CmdsOf(toks[1..]);
      }
    }
  }

  /** In a transaction everything but EXEC is queued. */
  lemma {:induction false} QueuedThrough(cfg: Config, l: Loader, toks: seq<Token>, at: nat)
    requires Inner(cfg, toks) && l.inMulti
    ensures var l' := Through(cfg, l, toks, at);
      && l'.inMulti && l'.ran == l.ran && l'.db == l.db && l'.beforeMulti == l.beforeMulti
      && l'.queue == l.queue + CmdsOf(toks)
    decreases |toks|
  {
    hide Text, TokenOk;
    if toks != [] {
      var end := at + |Text(toks[0])|;
      var l1 := Step(cfg, l, toks[0], end);
      if toks[0].Cmd? { assert cfg.lookup(toks[0].argv) in {SelectDb, Ordinary}; }
      QueuedThrough(cfg, l1, toks[1..], end);
      assert l1.queue + CmdsOf(toks[1..]) == l.queue + CmdsOf(toks);
    }
  }

  lemma OneThrough(cfg: Config, l: Loader, argv: Argv, at: nat)
    ensures Through(cfg, l, [Cmd(argv)], at) == Process(cfg, l, argv, at + |Print(argv)|)
  {
    hide Print, Process;
    assert [Cmd(argv)][1..] == [];
  }

  /** A write, or the MULTI of a transaction, outside a transaction. */
  lemma WriteThrough(cfg: Config, l: Loader, selected: int, w: Write, kind: Kind, at: nat)
    requires WriteOk(cfg, w, kind) && Between(l, selected) && (kind == Ordinary || kind == Multi)
    ensures var l' := Through(cfg, l, Tokens(selected, w), at);
      && l'.db == w.db && l'.inMulti == (kind == Multi)
      && l'.ran == (if kind == Ordinary then l.ran + [Run(w.db, w.argv)] else l.ran)
      && (kind == Multi ==> l'.queue == [] && l'.beforeMulti == Through(cfg, l, Front(selected, w), at).validUpTo)
  {
    hide Front, Print, Through, CmdsOf, Text;
    var front := Front(selected, w);
    FrontQuiet(cfg, selected, w, kind);
    QuietThrough(cfg, l, front, at);
    QueueFront(cfg, l.db, selected, w, kind);
    ThroughConcat(cfg, l, front, [Cmd(w.argv)], at);
    OneThrough(cfg, Through(cfg, l, front, at), w.argv, at + |TextAll(front)|);
  }

  /** EXEC runs the queue. */
  lemma ExecThrough(cfg: Config, l: Loader, argv: Argv, at: nat)
    requires l.inMulti && cfg.lookup(argv) == Exec
    ensures var l' := Through(cfg, l, [Cmd(argv)], at);
      && !l'.inMulti && l'.db == QueueDb(cfg, l.db, l.queue) && l'.ran == l.ran + QueueRuns(cfg, l.db, l.queue)
  {
    hide QueueDb, QueueRuns, RunQueue, Print;
    OneThrough(cfg, l, argv, at);
    RunQueueIs(cfg, l.(inMulti := false, queue := []), l.queue);
  }

  /** A whole unit runs what it ran when it was fed. */
  lemma UnitThrough(cfg: Config, l: Loader, selected: int, u: Unit, at: nat)
    requires UnitOk(cfg, u) && Between(l, selected)
    ensures var l' := Through(cfg, l, UnitTokens(selected, u), at);
      Between(l', Last(selected, Writes(u))) && l'.ran == l.ran + UnitRuns(u)
  {
    hide Front, Through, Middle, QueueDb, QueueRuns, CmdsOf, Tokens, WriteOk, TextAll;
    match u
    case Single(w) =>
      WriteThrough(cfg, l, selected, w, Ordinary, at);
      OneRun(w);
    case Transaction(multi, body, exec) =>
      var head, mid := Tokens(selected, multi), Middle(u);
      WriteThrough(cfg, l, selected, multi, Multi, at);
      MiddleInner(cfg, u);
      QueueMiddle(cfg, u);
      ThroughConcat(cfg, l, head, mid + [Cmd(exec.argv)], at);
      var l1, at1 := Through(cfg, l, head, at), at + |TextAll(head)|;
      ThroughConcat(cfg, l1, mid, [Cmd(exec.argv)], at1);
      QueuedThrough(cfg, l1, mid, at1);
      assert l1.queue + CmdsOf(mid) == CmdsOf(mid);
      assert cfg.lookup(exec.argv) == Exec by { ExecKind(cfg, u); }
      ExecThrough(cfg, Through(cfg, l1, mid, at1), exec.argv, at1 + |TextAll(mid)|);
  }

  lemma ExecKind(cfg: Config, u: Unit)
    requires UnitOk(cfg, u) && u.Transaction?
    ensures cfg.lookup(u.exec.argv) == Exec
  {}

  lemma OneRun(w: Write)
    ensures Runs([w]) == [Run(w.db, w.argv)]
  {
    assert [w][1..] == [];
  }

  /** How much of a unit has to be in the file for its transaction to be open. */
  function Opening(selected: int, u: Unit): nat {
    match u case Single(_) => |UnitTokens(selected, u)| case Transaction(multi, _, _) => |Tokens(selected, multi)|
  }

  /** Part of a unit runs nothing. Once its MULTI is in, the rest is queued. */
  lemma PartialUnit(cfg: Config, l: Loader, selected: int, u: Unit, m: nat, at: nat)
    requires UnitOk(cfg, u) && Between(l, selected) && m < |UnitTokens(selected, u)|
    ensures var toks := UnitTokens(selected, u)[..m]; var l' := Through(cfg, l, toks, at);
      && l'.ran == l.ran && l'.inMulti == (m >= Opening(selected, u))
      && (l'.inMulti ==>
           && u.Transaction? && Front(selected, u.multi) <= toks
           && l'.beforeMulti == Through(cfg, l, Front(selected, u.multi), at).validUpTo
           && Opening(selected, u) <= m && l'.db == u.multi.db
           && l'.queue == CmdsOf(Middle(u)[..m - Opening(selected, u)]))
  {
    hide Front, Through, Middle, CmdsOf, WriteOk, TextAll;
    var w := if u.Single? then u.w else u.multi;
    var kind := if u.Single? then Ordinary else Multi;
    assert WriteOk(cfg, w, kind);
    FrontQuiet(cfg, selected, w, kind);
    if m < Opening(selected, u) {
      var front := Front(selected, w);
      assert UnitTokens(selected, u)[..m] == front[..m];
      QuietThrough(cfg, l, front[..m], at);
    } else {
      var head, mid := Tokens(selected, u.multi), Middle(u)[..m - Opening(selected, u)];
      assert UnitTokens(selected, u)[..m] == head + mid;
      MiddleInner(cfg, u);
      WriteThrough(cfg, l, selected, w, Multi, at);
      ThroughConcat(cfg, l, head, mid, at);
      var l1 := Through(cfg, l, head, at);
      QueuedThrough(cfg, l1, mid, at + |TextAll(head)|);
      assert l1.queue + CmdsOf(mid) == CmdsOf(mid);
    }
  }

  // ---------------------------------------------------------------- replaying what was fed

  /** How many units lie wholly within the first k bytes of what was fed. */
  function WholeUnits(selected: int, units: seq<Unit>, k: nat): (c: nat)
    ensures c <= |units|
    decreases |units|
  {
    if units == [] then 0
    else
      var here := |Fed(selected, Writes(units[0]))|;
      if k < here then 0 else 1 + WholeUnits(Last(selected, Writes(units[0])), units[1..], k - here)
  }

  lemma {:induction false} FedConcat(selected: int, a: seq<Write>, b: seq<Write>)
    ensures Fed(selected, a + b) == Fed(selected, a) + Fed(Last(selected, a), b)
    decreases |a|
  {
    hide FedBytes;
    if a == [] {
      assert a + b == b;
    } else {
      FedConcat(a[0].db, a[1..], b);
      assert (a + b)[0] == a[0] && (a + b)[1..] == a[1..] + b;
    }
  }

  lemma {:induction false} WholeUnitsFit(selected: int, units: seq<Unit>, k: nat)
    ensures var c := WholeUnits(selected, units, k);
      && |Fed(selected, Flat(units[..c]))| <= k
      && (c < |units| ==> k < |Fed(selected, Flat(units[..c + 1]))|)
    decreases |units|
  {
    hide Fed, Writes;
    NothingFed(selected);
    if units != [] {
      var c, ws := WholeUnits(selected, units, k), Writes(units[0]);
      var here := |Fed(selected, ws)|;
      if k >= here {
        WholeUnitsFit(Last(selected, ws), units[1..], k - here);
        assert units[..c][0] == units[0] && units[..c][1..] == units[1..][..c - 1];
        FedConcat(selected, ws, Flat(units[1..][..c - 1]));
        if c < |units| {
          assert units[..c + 1][0] == units[0] && units[..c + 1][1..] == units[1..][..c];
          FedConcat(selected, ws, Flat(units[1..][..c]));
        }
      } else {
        assert units[..1][0] == units[0] && units[..1][1..] == [];
        assert ws + [] == ws;
      }
    }
  }

  lemma NothingFed(selected: int)
    ensures Fed(selected, []) == []
  {}

  /** One unit, or the part of it the file has. */
  lemma UnitReplays(cfg: Config, total: nat, selected: int, u: Unit, rest: Bytes, l: Loader, at: nat)
    requires UnitOk(cfg, u) && Between(l, selected) && total == at + |Fed(selected, Writes(u)) + rest|
    ensures LoadFrom(cfg, total, Fed(selected, Writes(u)) + rest, l)
         == LoadFrom(cfg, total, rest, Through(cfg, l, UnitTokens(selected, u), at))
  {
    hide LoadFrom, UnitTokens, Fed, UnitOk, Through, TextAll, TokensOk, Writes;
    UnitTokensAre(selected, u);
    UnitTokensOk(cfg, selected, u);
    LoadsTokens(cfg, total, UnitTokens(selected, u), rest, l, at);
  }

  lemma UnitCut(cfg: Config, total: nat, selected: int, u: Unit, k: nat, l: Loader, at: nat)
    requires UnitOk(cfg, u) && Between(l, selected) && k < |Fed(selected, Writes(u))| && total == at + k
    ensures LoadFrom(cfg, total, Fed(selected, Writes(u))[..k], l).loader.ran == l.ran
  {
    hide LoadFrom, UnitTokens, Fed, UnitOk, Through, TextAll, TokensOk, Writes, Whole, Text;
    var toks := UnitTokens(selected, u);
    UnitTokensAre(selected, u);
    UnitTokensOk(cfg, selected, u);
    CutFrom(cfg, total, toks, k, l, at);
    WholeFits(toks, k);
    assert toks[..|toks|] == toks;
    PartialUnit(cfg, l, selected, u, Whole(toks, k), at);
  }

  lemma {:induction false} PrefixReplays(cfg: Config, total: nat, selected: int, units: seq<Unit>, k: nat, l: Loader,
      at: nat)
    requires HistoryOk(cfg, units) && Between(l, selected)
    requires k <= |Fed(selected, Flat(units))| && total == at + k
    ensures LoadFrom(cfg, total, Fed(selected, Flat(units))[..k], l).loader.ran
         == l.ran + AllRuns(units[..WholeUnits(selected, units, k)])
    decreases |units|
  {
    hide LoadFrom, Fed, UnitOk, UnitTokens, UnitRuns, Writes, Through;
    var c := WholeUnits(selected, units, k);
    assert units[..0] == [] && l.ran + [] == l.ran;
    if units == [] {
      NothingFed(selected);
      assert Fed(selected, Flat(units))[..k] == [];
      StopsAtEnd(cfg, total, l);
    } else {
      var u, ws, more := units[0], Writes(units[0]), Flat(units[1..]);
      assert UnitOk(cfg, u);
      FedConcat(selected, ws, more);
      var here, rest := Fed(selected, ws), Fed(Last(selected, ws), more);
      if k < |here| {
        assert (here + rest)[..k] == here[..k];
        UnitCut(cfg, total, selected, u, k, l, at);
      } else {
        var rest' := rest[..k - |here|];
        assert (here + rest)[..k] == here + rest';
        UnitReplays(cfg, total, selected, u, rest', l, at);
        UnitThrough(cfg, l, selected, u, at);
        var l' := Through(cfg, l, UnitTokens(selected, u), at);
        PrefixReplays(cfg, total, Last(selected, ws), units[1..], k - |here|, l', at + |here|);
        assert units[..c][0] == u && units[..c][1..] == units[1..][..c - 1];
        assert l.ran + UnitRuns(u) + AllRuns(units[1..][..c - 1])
            == l.ran + (UnitRuns(u) + AllRuns(units[1..][..c - 1]));
      }
    }
  }

  // ---------------------------------------------------------------- a cut

  /** Where a cut after k bytes falls. */
  datatype Cut = Cut(toks: seq<Token>, m: nat, part: Bytes)

  ghost predicate IsCut(cfg: Config, c: Cut, k: nat) {
    && TokensOk(cfg, c.toks) && k <= |TextAll(c.toks)| && c.m == Whole(c.toks, k)
    && |TextAll(c.toks[..c.m])| <= k && c.part == TextAll(c.toks)[|TextAll(c.toks[..c.m])|..k]
  }

  /** The cut after the first k bytes of what a history fed. */
  ghost function CutOf(units: seq<Unit>, k: nat): Cut {
    var toks := AllTokens(-1, Flat(units));
    var m := Whole(toks, k);
    var end := |TextAll(toks[..m])|;
    Cut(toks, m, if end <= k <= |TextAll(toks)| then TextAll(toks)[end..k] else [])
  }

  lemma CutOfIs(cfg: Config, units: seq<Unit>, k: nat)
    requires HistoryOk(cfg, units) && k <= |Fed(-1, Flat(units))|
    ensures IsCut(cfg, CutOf(units, k), k) && TextAll(CutOf(units, k).toks) == Fed(-1, Flat(units))
  {
    hide HistoryOk, AllTokens, Flat, Fed, TextAll, Whole, TokensOk;
    AllTokensText(-1, Flat(units));
    HistoryTokensOk(cfg, -1, units);
    WholeFits(AllTokens(-1, Flat(units)), k);
  }

  /** The loader after the tokens that are wholly in the file. */
  ghost function AtCut(cfg: Config, c: Cut): Loader
    requires c.m <= |c.toks|
  {
    Through(cfg, START, c.toks[..c.m], 0)
  }

  /** The file ends inside a command. */
  predicate TornAt(c: Cut) { c.part != [] && c.m < |c.toks| && c.toks[c.m].Cmd? }

  /** How loading the first k bytes of what a history fed ends. */
  ghost function CutStatus(cfg: Config, units: seq<Unit>, k: nat): Status {
    var c := CutOf(units, k);
    if k == 0 then Empty
    else if !TornAt(c) && !AtCut(cfg, c).inMulti then Loaded
    else if cfg.loadTruncated && cfg.truncates then Truncated else Failed
  }

  lemma StartsEmpty(cfg: Config, toks: seq<Token>)
    ensures Whole(toks, 0) == 0 && Load(cfg, []).status == Empty && Through(cfg, START, [], 0) == START
    ensures TextAll([]) == [] && TokensOk(cfg, [])
  {}

  /** Whatever prefix of the fed bytes has reached the file when the server dies, replaying the
      file runs exactly the units that had reached it completely: a prefix of the history, and
      each transaction wholly or not at all. The server refuses to start only if the file ends inside
      a command or a transaction and may not be cut back. */
  lemma CrashKeepsPrefix(cfg: Config, units: seq<Unit>, file: Bytes)
    requires HistoryOk(cfg, units) && file <= Fed(-1, Flat(units))
    ensures var c := WholeUnits(-1, units, |file|);
      && Load(cfg, file).loader.ran == AllRuns(units[..c]) && Load(cfg, file).status == CutStatus(cfg, units, |file|)
      && |Fed(-1, Flat(units[..c]))| <= |file| && (c < |units| ==> |file| < |Fed(-1, Flat(units[..c + 1]))|)
  {
    hide LoadFrom, Fed, WholeUnits, HistoryOk, Flat, Whole, TextAll, TokensOk, AllTokens, Through;
    var k := |file|;
    assert file == Fed(-1, Flat(units))[..k];
    PrefixReplays(cfg, k, -1, units, k, START, 0);
    WholeUnitsFit(-1, units, k);
    CutOfIs(cfg, units, k);
    if k == 0 {
      StopsAtEnd(cfg, 0, START);
      assert file == [];
    } else {
      CutLog(cfg, CutOf(units, k).toks, k);
    }
    assert [] + AllRuns(units[..WholeUnits(-1, units, k)]) == AllRuns(units[..WholeUnits(-1, units, k)]);
  }
}
