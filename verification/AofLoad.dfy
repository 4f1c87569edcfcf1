/** Replaying an append-only file. */
module AofLoad {
  import opened AofLog

  datatype Kind = SelectDb | Multi | Exec | Ordinary | Unknown

  /** The command table, the number of databases and the aof-load-truncated option; `truncates`
      says whether cutting the file back succeeds. */
  datatype Config = Config(lookup: Argv -> Kind, dbnum: nat, loadTruncated: bool, truncates: bool)

  datatype Run = Run(db: nat, argv: Argv)

  /** The client that replays the file. */
  datatype Loader = Loader(db: nat, inMulti: bool, queue: seq<Argv>, ran: seq<Run>, validUpTo: nat, beforeMulti: nat)

  datatype Status = Loaded | Truncated | Failed | Empty

  datatype Outcome = Outcome(status: Status, loader: Loader)

  const START := Loader(0, false, [], [], 0, 0)

  /** SELECT accepts the canonical decimal number of an existing database. */
  function Selected(cfg: Config, db: nat, argv: Argv): nat {
    if |argv| == 2 && Number(argv[1]) >= 0 && Digits(Number(argv[1])) == argv[1] && Number(argv[1]) < cfg.dbnum
    then Number(argv[1]) else db
  }

  function RunNow(cfg: Config, l: Loader, argv: Argv): Loader {
    match cfg.lookup(argv)
    case SelectDb => l.(db := Selected(cfg, l.db, argv))
    case Ordinary => l.(ran := l.ran + [Run(l.db, argv)])
    case _ => l
  }

  function RunQueue(cfg: Config, l: Loader, queue: seq<Argv>): Loader
    decreases |queue|
  {
    if queue == [] then l else RunQueue(cfg, RunNow(cfg, l, queue[0]), queue[1..])
  }

  /** One command of the file, which ends at offset `end`. */
  function Process(cfg: Config, l: Loader, argv: Argv, end: nat): Loader {
    var kind := cfg.lookup(argv);
    var l1 := if kind == Multi then l.(beforeMulti := l.validUpTo) else l;
    var l2 :=
      if l1.inMulti && kind != Exec then l1.(queue := l1.queue + [argv])
      else if kind == Multi then l1.(inMulti := true, queue := [])
      else if kind == Exec && l1.inMulti then RunQueue(cfg, l1.(inMulti := false, queue := []), l1.queue)
      else RunNow(cfg, l1, argv);
    if cfg.loadTruncated then l2.(validUpTo := end) else l2
  }

  /** The file ends too early: cut it back to the last valid offset and carry on, or give up. */
  function Torn(cfg: Config, l: Loader): Outcome {
    Outcome(if cfg.loadTruncated && cfg.truncates then Truncated else Failed, l)
  }

  /** The end of the file: a transaction that is still open is taken back. */
  function AtEnd(cfg: Config, l: Loader): Outcome {
    if l.inMulti then Torn(cfg, l.(validUpTo := l.beforeMulti)) else Outcome(Loaded, l)
  }

  /** Loads the part `s` that is left of a file of `total` bytes. */
  function LoadFrom(cfg: Config, total: nat, s: Bytes, l: Loader): Outcome
    requires |s| <= total
    decreases |s|
  {
    match ReadItem(s)
    case End => AtEnd(cfg, l)
    case Annotation(rest) => LoadFrom(cfg, total, rest, l)
    case Command(argv, rest) =>
      if cfg.lookup(argv) == Unknown then Outcome(Failed, l)
      else LoadFrom(cfg, total, rest, Process(cfg, l, argv, total - |rest|))
    case Torn => Torn(cfg, l)
    case Malformed => Outcome(Failed, l)
    case ReadFailure => Outcome(Failed, l)
  }

  function Load(cfg: Config, file: Bytes): Outcome {
    if file == [] then Outcome(Empty, START) else LoadFrom(cfg, |file|, file, START)
  }

  // ---------------------------------------------------------------- the loading loop

  method Fgets(file: Bytes, pos: nat, room: nat) returns (end: nat)
    requires pos <= |file|
    ensures end == pos + LineLen(file[pos..], room)
  {
    end := pos;
    var left := room;
    while end < |file| && left > 0
      invariant pos <= end <= |file| && 0 <= left <= room
      invariant LineLen(file[pos..], room) == end - pos + LineLen(file[end..], left)
    {
      assert file[end..][0] == file[end] && file[end..][1..] == file[end + 1..];
      end := end + 1;
      left := left - 1;
      if file[end - 1] == LF { return; }
    }
  }

  /** Reads one length-prefixed argument at `pos`, the first of `count` that are left. */
  method LoadArg(file: Bytes, pos: nat, ghost count: nat) returns (r: Args, next: nat)
    requires pos <= |file| && count > 0
    ensures r.Args? ==>
      next <= |file| && ReadArgs(file[pos..], count) == Prepend(r.argv, ReadArgs(file[next..], count - 1))
    ensures !r.Args? ==> r == ReadArgs(file[pos..], count)
  {
    r, next := LoadArgAt(file, pos);
    ArgsStep(file[pos..], count, r);
  }

  method LoadArgAt(file: Bytes, pos: nat) returns (r: Args, next: nat)
    requires pos <= |file|
    ensures r == ReadArg(file[pos..])
    ensures r.Args? ==> next <= |file| && r.rest == file[next..] && |r.argv| == 1
  {
    next := pos;
    if pos == |file| { return ArgsTorn, next; }
    var end := Fgets(file, pos, LINE_MAX - 1);
    ghost var s := file[pos..];
    assert s[1..end - pos] == file[pos + 1..end];
    assert s[end - pos..] == file[end..];
    if file[pos] != DOLLAR { return ArgsMalformed, next; }
    var len := AsUnsignedLong(Number(file[pos + 1..end]));
    if |file| - end < len { return ArgsTorn, next; }
    if |file| - end - len < 2 { return ArgsTorn, next; }
    next := end + len + 2;
    assert file[end..][..len] == file[end..end + len];
    assert file[end..][len + 2..] == file[next..];
    r := Args([file[end..end + len]], file[next..]);
  }

  /** Reads `argc` arguments from `pos` on. */
  method LoadArgs(file: Bytes, pos: nat, argc: nat) returns (r: Args, next: nat)
    requires pos <= |file|
    ensures r == ReadArgs(file[pos..], argc)
    ensures r.Args? ==> next <= |file| && r.rest == file[next..]
  {
    hide ReadArgs;
    var argv: Argv := [];
    next := pos;
    var j := 0;
    PrependNone(ReadArgs(file[pos..], argc));
    while j < argc
      invariant 0 <= j <= argc && next <= |file|
      invariant ReadArgs(file[pos..], argc) == Prepend(argv, ReadArgs(file[next..], argc - j))
    {
      var one, after := LoadArg(file, next, argc - j);
      if !one.Args? { return one, next; }
      PrependMore(argv, one.argv, ReadArgs(file[after..], argc - j - 1));
      argv := argv + one.argv;
      next := after;
      j := j + 1;
    }
    NoArgsLeft(file[next..]);
    assert argv + [] == argv;
    r := Args(argv, file[next..]);
  }

  lemma PrependNone(r: Args)
    ensures Prepend([], r) == r
  {
    if r.Args? { assert [] + r.argv == r.argv; }
  }

  ghost function Prepend(argv: Argv, r: Args): Args {
    match r case Args(more, rest) => Args(argv + more, rest) case _ => r
  }

  lemma PrependMore(argv: Argv, one: Argv, r: Args)
    ensures Prepend(argv + one, r) == Prepend(argv, Prepend(one, r))
  {
    if r.Args? { assert argv + one + r.argv == argv + (one + r.argv); }
  }

  lemma NoArgsLeft(s: Bytes)
    ensures ReadArgs(s, 0) == Args([], s)
  {}

  lemma ArgsStep(s: Bytes, count: nat, one: Args)
    requires count > 0 && one == ReadArg(s)
    ensures ReadArgs(s, count) == if one.Args? then Prepend(one.argv, ReadArgs(one.rest, count - 1)) else one
  {}

  /** Reads the next annotation or command at `pos`. */
  method LoadItem(file: Bytes, pos: nat) returns (item: Item, next: nat)
    requires pos < |file|
    ensures item == ReadItem(file[pos..]) && item != End
    ensures item.Annotation? || item.Command? ==> pos < next <= |file| && item.rest == file[next..]
  {
    hide LineLen, Number, ReadArgs;
    next := pos;
    var end := Fgets(file, pos, LINE_MAX - 1);
    ghost var s := file[pos..];
    assert s[1..end - pos] == file[pos + 1..end];
    assert s[end - pos..] == file[end..];
    if file[pos] == HASH { return Annotation(file[end..]), end; }
    if file[pos] != STAR { return Malformed, next; }
    if end - pos == 1 || file[pos + 1] == 0 {
      if end == |file| && end - pos < LINE_MAX - 1 && file[end - 1] != LF { return Item.Torn, next; }
      return ReadFailure, next;
    }
    var argc := Number(file[pos + 1..end]);
    if argc < 1 { return Malformed, next; }
    var args, after := LoadArgs(file, end, argc);
    match args
    case ArgsTorn => return Item.Torn, next;
    case ArgsMalformed => return Malformed, next;
    case Args(argv, rest) => return Command(argv, rest), after;
  }

  method LoadSingleAppendOnlyFile(cfg: Config, file: Bytes) returns (out: Outcome)
    ensures out == Load(cfg, file)
  {
    hide ReadItem, LoadFrom, Process;
    if |file| == 0 { return Outcome(Empty, START); }
    var l := START;
    var pos := 0;
    assert file[0..] == file;
    while pos < |file|
      invariant pos <= |file|
      invariant Load(cfg, file) == LoadFrom(cfg, |file|, file[pos..], l)
      decreases |file| - pos
    {
      var item, next := LoadItem(file, pos);
      LoadsItem(cfg, |file|, file[pos..], l);
      match item
      case Annotation(_) => pos := next;
      case Command(argv, _) =>
        if cfg.lookup(argv) == Unknown { return Outcome(Failed, l); }
        l := Process(cfg, l, argv, next);
        pos := next;
      case Torn => return Torn(cfg, l);
      case _ => return Outcome(Failed, l);
    }
    StopsAtEnd(cfg, |file|, l);
    if l.inMulti {
      l := l.(validUpTo := l.beforeMulti);
      return Torn(cfg, l);
    }
    return Outcome(Loaded, l);
  }

  // ---------------------------------------------------------------- one printed command

  lemma LoadsCommand(cfg: Config, total: nat, argv: Argv, rest: Bytes, l: Loader)
    requires Printable(argv) && cfg.lookup(argv) != Unknown && |Print(argv) + rest| <= total
    ensures LoadFrom(cfg, total, Print(argv) + rest, l)
         == LoadFrom(cfg, total, rest, Process(cfg, l, argv, total - |rest|))
  {
    hide ReadItem, Print, LoadFrom;
    CommandReads(argv, rest);
    LoadsItem(cfg, total, Print(argv) + rest, l);
  }

  /** One step of LoadFrom, by the item that comes first. */
  lemma LoadsItem(cfg: Config, total: nat, s: Bytes, l: Loader)
    requires |s| <= total
    ensures var r := LoadFrom(cfg, total, s, l);
      match ReadItem(s)
      case End => r == AtEnd(cfg, l)
      case Annotation(rest) => r == LoadFrom(cfg, total, rest, l)
      case Command(argv, rest) =>
        r == if cfg.lookup(argv) == Unknown then Outcome(Failed, l)
             else LoadFrom(cfg, total, rest, Process(cfg, l, argv, total - |rest|))
      case Torn => r == Torn(cfg, l)
      case Malformed => r == Outcome(Failed, l)
      case ReadFailure => r == Outcome(Failed, l)
  {
    hide ReadItem, Process;
  }

  lemma StopsAtEnd(cfg: Config, total: nat, l: Loader)
    ensures LoadFrom(cfg, total, [], l)
         == AtEnd(cfg, l)
  {}

  // ---------------------------------------------------------------- what one command does

  /** A transaction does what it says: between MULTI and EXEC everything is only queued, EXEC ends it, a
      second MULTI or an EXEC without a MULTI does nothing by itself, and a SELECT of a database that
      does not exist changes nothing. */
  lemma ProcessEffect(cfg: Config, l: Loader, argv: Argv, end: nat)
    ensures var l', kind := Process(cfg, l, argv, end), cfg.lookup(argv);
      && l'.validUpTo == (if cfg.loadTruncated then end else l.validUpTo)
      && l'.beforeMulti == (if kind == Multi then l.validUpTo else l.beforeMulti)
      && (l.inMulti && kind != Exec ==>
            l'.inMulti && l'.queue == l.queue + [argv] && l'.ran == l.ran && l'.db == l.db)
      && (!l.inMulti && kind == Multi ==> l'.inMulti && l'.queue == [] && l'.ran == l.ran && l'.db == l.db)
      && (l.inMulti && kind == Exec ==> !l'.inMulti && l'.queue == [])
      && (!l.inMulti && kind == Exec ==> !l'.inMulti && l'.ran == l.ran && l'.db == l.db)
      && (!l.inMulti && kind == Ordinary ==> !l'.inMulti && l'.ran == l.ran + [Run(l.db, argv)] && l'.db == l.db)
      && (!l.inMulti && kind == SelectDb ==>
            && !l'.inMulti && l'.ran == l.ran
            && (l'.db == l.db || (l'.db < cfg.dbnum && |argv| == 2 && argv[1] == Digits(l'.db))))
  {
    hide RunQueue, Number, Digits;
    if l.inMulti && cfg.lookup(argv) == Exec {
      QueueShape(cfg, l.(inMulti := false, queue := []), l.queue);
    }
  }

  /** A SELECT of an existing database, written the way it is printed, selects it. */
  lemma SelectEffect(cfg: Config, l: Loader, argv: Argv, db: nat, end: nat)
    requires !l.inMulti && cfg.lookup(argv) == SelectDb && |argv| == 2 && argv[1] == Digits(db) && db < cfg.dbnum
    ensures Process(cfg, l, argv, end).db == db
  {
    hide Number, Digits;
    NumberOfDigits(db, []);
    assert Digits(db) + [] == Digits(db);
  }

  lemma {:induction false} QueueShape(cfg: Config, l: Loader, queue: seq<Argv>)
    ensures var r := RunQueue(cfg, l, queue);
      r.inMulti == l.inMulti && r.queue == l.queue && r.validUpTo == l.validUpTo && r.beforeMulti == l.beforeMulti
    decreases |queue|
  {
    hide Selected;
    if queue != [] { QueueShape(cfg, RunNow(cfg, l, queue[0]), queue[1..]); }
  }
}
