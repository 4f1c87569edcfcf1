/** Feeding, flushing and loading taken together: what a restart finds of what was executed. */
module Durability {
  import AofFlush
  import opened AofCut
  import opened AofHistory
  import opened AofLoad
  import opened AofLog
  import opened AofRestart

  lemma {:induction false} FlatMore(units: seq<Unit>, u: Unit)
    ensures Flat(units + [u]) == Flat(units) + Writes(u)
    decreases |units|
  {
    hide Writes;
    if units == [] {
      assert units + [u] == [u] && [u][1..] == [];
    } else {
      assert (units + [u])[0] == units[0] && (units + [u])[1..] == units[1..] + [u];
      FlatMore(units[1..], u);
    }
  }

  /** Feeding one more unit. */
  lemma FedMore(units: seq<Unit>, d: nat)
    requires d < |units|
    ensures Fed(-1, Flat(units[..d + 1])) == Fed(-1, Flat(units[..d]))
        + Fed(Last(-1, Flat(units[..d])), Writes(units[d]))
    ensures Last(-1, Flat(units[..d + 1])) == Last(-1, Writes(units[d]))
  {
    hide Fed, Flat;
    assert units[..d + 1] == units[..d] + [units[d]];
    FlatMore(units[..d], units[d]);
    FedConcat(-1, Flat(units[..d]), Writes(units[d]));
  }

  lemma {:induction false} FedPrefix(units: seq<Unit>, d: nat)
    requires d <= |units|
    ensures Fed(-1, Flat(units[..d])) <= Fed(-1, Flat(units))
    decreases |units| - d
  {
    hide Fed, Flat;
    if d == |units| {
      assert units[..d] == units;
    } else {
      FedMore(units, d);
      FedPrefix(units, d + 1);
    }
  }

  /** Units that were fed within the first k bytes are whole there. */
  lemma WholeAtLeast(units: seq<Unit>, d: nat, k: nat)
    requires d <= |units| && |Fed(-1, Flat(units[..d]))| <= k
    ensures d <= WholeUnits(-1, units, k)
  {
    hide Fed, Flat, WholeUnits;
    var c := WholeUnits(-1, units, k);
    WholeUnitsFit(-1, units, k);
    if c < d {
      assert units[..d][..c + 1] == units[..c + 1];
      FedPrefix(units[..d], c + 1);
    }
  }

  /** The server may stop at any moment, also in the middle of a flush that fails: the file
      replays to a prefix of what was fed, and to all of it once the buffer is empty. */
  lemma StopAnyTime(cfg: Config, units: seq<Unit>, a: AofFlush.Aof)
    requires HistoryOk(cfg, units) && a.Valid() && a.fed == Fed(-1, Flat(units))
    ensures var c := WholeUnits(-1, units, |a.content|);
      && Load(cfg, a.content).loader.ran == AllRuns(units[..c])
      && Load(cfg, a.content).status == CutStatus(cfg, units, |a.content|)
      && (c < |units| ==> |a.content| < |Fed(-1, Flat(units[..c + 1]))|)
      && (!a.exited && a.buf == [] && units != [] ==> c == |units| && Load(cfg, a.content).status == Loaded)
  {
    hide Fed, Flat, WholeUnits, AllRuns, Load, HistoryOk, CutStatus;
    assert a.content <= a.fed;
    CrashKeepsPrefix(cfg, units, a.content);
    if !a.exited && a.buf == [] && units != [] {
      FedLogReplays(cfg, units);
      assert a.content + a.buf == a.content;
      assert units[..|units|] == units;
      WholeAtLeast(units, |units|, |a.content|);
    }
  }

  /** The file replays to a prefix of the history that includes the first `done` units. */
  ghost predicate Recovered(cfg: Config, units: seq<Unit>, file: Bytes, done: nat) {
    var c := WholeUnits(-1, units, |file|);
    && done <= c <= |units| && Load(cfg, file).loader.ran == AllRuns(units[..c])
    && Load(cfg, file).status == CutStatus(cfg, units, |file|)
  }

  /** Policy `always`: each write or transaction is fed and flushed before it is acknowledged.
      However writes and fsyncs go, whatever the disk remembers, at least what an fsync put there, at
      most what was written, replays to a prefix of the history that includes every acknowledged
      unit; all are acknowledged unless the server gave up. */
  method Acknowledge(cfg: Config, units: seq<Unit>, world: nat -> AofFlush.World) returns (a: AofFlush.Aof, done: nat)
    requires HistoryOk(cfg, units) && forall i :: !world(i).fsyncOff
    ensures done <= |units| && (a.exited || done == |units|) && a.durable <= |a.content|
    ensures forall k :: a.durable <= k <= |a.content| ==> Recovered(cfg, units, a.content[..k], done)
  {
    hide Fed, Flat, WholeUnits, AllRuns, Load, HistoryOk, Writes, CutStatus;
    a := new AofFlush.Aof.OpenOnStart([], AofFlush.Always);
    var selected: int := -1;
    done := 0;
    NothingYet(units);
    while done < |units| && !a.exited
      invariant done <= |units| && a.Valid() && a.policy == AofFlush.Always && fresh(a)
      invariant a.fed <= Fed(-1, Flat(units)) && |Fed(-1, Flat(units[..done]))| <= a.durable
      invariant !a.exited ==>
        a.Solid() && a.fed == Fed(-1, Flat(units[..done])) && selected == Last(-1, Flat(units[..done]))
      decreases |units| - done, !a.exited
    {
      FedMore(units, done);
      FedPrefix(units, done + 1);
      var ws := Writes(units[done]);
      a.Feed(Fed(selected, ws));
      selected := ws[|ws| - 1].db;
      a.Flush(false, world(done));
      if !a.exited { done := done + 1; }
    }
    forall k | a.durable <= k <= |a.content| ensures Recovered(cfg, units, a.content[..k], done) {
      WholeAtLeast(units, done, k);
      CrashKeepsPrefix(cfg, units, a.content[..k]);
    }
  }

  lemma NothingYet(units: seq<Unit>)
    ensures Fed(-1, Flat(units[..0])) == [] && Last(-1, Flat(units[..0])) == -1
  {}

  // ---------------------------------------------------------------- a hole in the log

  /** A file opened by a rotation holds `units`; a short write of the next unit is taken back and the
      unit is written again, past the end: loading the file stops at the zeros in between. */
  method HoleStopsLoader(cfg: Config, units: seq<Unit>, u: Unit, j: nat) returns (a: AofFlush.Aof)
    requires HistoryOk(cfg, units) && 0 < j < |Fed(Last(-1, Flat(units)), Writes(u))|
    ensures var before, next := Fed(-1, Flat(units)), Fed(Last(-1, Flat(units)), Writes(u));
      && a.fed == before + next && a.content == before + AofFlush.Zeros(j) + next
      && Load(cfg, a.content).status == Failed && Load(cfg, a.content).loader.ran == AllRuns(units)
  {
    hide Fed, Flat, AllRuns, Load, HistoryOk, Writes, Last;
    var before, next := Fed(-1, Flat(units)), Fed(Last(-1, Flat(units)), Writes(u));
    a := AofFlush.LeaveHole(before, next, j);
    ZerosStop(cfg, units, AofFlush.Zeros(j) + next);
    AofFlush.Grouped(before, AofFlush.Zeros(j), next);
  }

  /** Bytes that start neither a command nor an annotation stop the loader. */
  lemma ZerosStop(cfg: Config, units: seq<Unit>, rest: Bytes)
    requires HistoryOk(cfg, units) && rest != [] && rest[0] == 0
    ensures var out := Load(cfg, Fed(-1, Flat(units)) + rest); out.status == Failed && out.loader.ran == AllRuns(units)
  {
    hide Fed, Flat, AllRuns, HistoryOk, AllTokens, TextAll, Through, TokensOk, LoadFrom;
    var toks, file := AllTokens(-1, Flat(units)), Fed(-1, Flat(units)) + rest;
    AllTokensText(-1, Flat(units));
    HistoryTokensOk(cfg, -1, units);
    HistoryThrough(cfg, START, -1, units, 0);
    LoadsTokens(cfg, |file|, toks, rest, START, 0);
    assert ReadItem(rest) == Malformed;
    LoadsItem(cfg, |file|, rest, Through(cfg, START, toks, 0));
    assert [] + AllRuns(units) == AllRuns(units);
  }
}
