/** A log as a sequence of tokens, commands and timestamp annotations, cut after any number of bytes. */
module AofCut {
  import opened AofLog
  import opened AofLoad
  import opened Wrappers

  datatype Token = Note(time: nat) | Cmd(argv: Argv)

  function Text(t: Token): (b: Bytes)
    ensures |b| > 0
  {
    match t case Note(time) => Stamp(Some(time)) case Cmd(argv) => Print(argv)
  }

  function TextAll(toks: seq<Token>): Bytes {
    if toks == [] then [] else Text(toks[0]) + TextAll(toks[1..])
  }

  /** Tokens that fit the C types; commands that exist. */
  predicate TokenOk(cfg: Config, t: Token) {
    match t
    case Note(time) => time < 0x8000_0000_0000_0000
    case Cmd(argv) => Printable(argv) && cfg.lookup(argv) != Unknown
  }

  ghost predicate TokensOk(cfg: Config, toks: seq<Token>) {
    forall i :: 0 <= i < |toks| ==> TokenOk(cfg, toks[i])
  }

  /** One token that ends at offset `end`. */
  function Step(cfg: Config, l: Loader, t: Token, end: nat): Loader {
    match t case Note(_) => l case Cmd(argv) => Process(cfg, l, argv, end)
  }

  /** The loader after tokens that start at offset `at`. */
  function Through(cfg: Config, l: Loader, toks: seq<Token>, at: nat): Loader
    decreases |toks|
  {
    if toks == [] then l
    else
      var end := at + |Text(toks[0])|;
      Through(cfg, Step(cfg, l, toks[0], end), toks[1..], end)
  }

  lemma {:induction false} TextConcat(a: seq<Token>, b: seq<Token>)
    ensures TextAll(a + b) == TextAll(a) + TextAll(b)
    decreases |a|
  {
    hide Text;
    if a == [] {
      assert a + b == b;
    } else {
      TextConcat(a[1..], b);
      assert (a + b)[0] == a[0] && (a + b)[1..] == a[1..] + b;
    }
  }

  lemma {:induction false} ThroughConcat(cfg: Config, l: Loader, a: seq<Token>, b: seq<Token>, at: nat)
    ensures Through(cfg, l, a + b, at) == Through(cfg, Through(cfg, l, a, at), b, at + |TextAll(a)|)
    decreases |a|
  {
    hide Text, Step;
    if a == [] {
      assert a + b == b;
    } else {
      var end := at + |Text(a[0])|;
      ThroughConcat(cfg, Step(cfg, l, a[0], end), a[1..], b, end);
      assert (a + b)[0] == a[0] && (a + b)[1..] == a[1..] + b;
    }
  }

  // ---------------------------------------------------------------- reading tokens

  lemma StampIsSkipped(time: nat, rest: Bytes)
    requires time < 0x8000_0000_0000_0000
    ensures ReadItem(Stamp(Some(time)) + rest) == Annotation(rest)
  {
    LengthDigits(time);
    DigitsAreDigits(time);
    var x := TS + Digits(time) + [CR];
    assert LF !in x;
    assert Stamp(Some(time)) + rest == x + [LF] + rest;
    LineOf(x, rest, LINE_MAX - 1);
  }

  /** An annotation whose end is missing is still an annotation. */
  lemma StampCut(time: nat, k: nat)
    requires time < 0x8000_0000_0000_0000 && 0 < k < |Stamp(Some(time))|
    ensures ReadItem(Stamp(Some(time))[..k]) == Annotation([])
  {
    LengthDigits(time);
    DigitsAreDigits(time);
    var x := (TS + Digits(time) + [CR])[..k];
    assert Stamp(Some(time))[..k] == x && LF !in x;
    WholeLine(x, LINE_MAX - 1);
  }

  lemma {:induction false} WholeLine(x: Bytes, room: nat)
    requires LF !in x && |x| <= room
    ensures LineLen(x, room) == |x|
  {
    if x != [] { WholeLine(x[1..], room - 1); }
  }

  lemma LoadsToken(cfg: Config, total: nat, t: Token, rest: Bytes, l: Loader)
    requires TokenOk(cfg, t) && |Text(t) + rest| <= total
    ensures LoadFrom(cfg, total, Text(t) + rest, l) == LoadFrom(cfg, total, rest, Step(cfg, l, t, total - |rest|))
  {
    hide ReadItem, Print, LoadFrom, Process, Stamp;
    match t
    case Note(time) =>
      StampIsSkipped(time, rest);
      LoadsItem(cfg, total, Text(t) + rest, l);
    case Cmd(argv) => LoadsCommand(cfg, total, argv, rest, l);
  }

  /** Whole tokens at the front are taken in, whatever follows. */
  lemma {:induction false} LoadsTokens(cfg: Config, total: nat, toks: seq<Token>, rest: Bytes, l: Loader, at: nat)
    requires TokensOk(cfg, toks) && total == at + |TextAll(toks) + rest|
    ensures LoadFrom(cfg, total, TextAll(toks) + rest, l)
         == LoadFrom(cfg, total, rest, Through(cfg, l, toks, at))
    decreases |toks|
  {
    hide LoadFrom, Text, Step;
    if toks == [] {
      assert TextAll(toks) + rest == rest;
    } else {
      assert TokenOk(cfg, toks[0]);
      var tail := TextAll(toks[1..]) + rest;
      assert TextAll(toks) + rest == Text(toks[0]) + tail;
      LoadsToken(cfg, total, toks[0], tail, l);
      var end := at + |Text(toks[0])|;
      LoadsTokens(cfg, total, toks[1..], rest, Step(cfg, l, toks[0], end), end);
    }
  }

  // ---------------------------------------------------------------- cutting

  /** How many tokens lie wholly within the first k bytes. */
  function Whole(toks: seq<Token>, k: nat): (m: nat)
    ensures m <= |toks|
    decreases |toks|
  {
    if toks == [] || k < |Text(toks[0])| then 0 else 1 + Whole(toks[1..], k - |Text(toks[0])|)
  }

  lemma {:induction false} WholeFits(toks: seq<Token>, k: nat)
    requires k <= |TextAll(toks)|
    ensures var m := Whole(toks, k); var end := |TextAll(toks[..m])|;
      && end <= k && TextAll(toks)[..end] == TextAll(toks[..m])
      && (m == |toks| ==> k == end)
      && (m < |toks| ==> k < end + |Text(toks[m])| && TextAll(toks)[end..k] == Text(toks[m])[..k - end])
    decreases |toks|
  {
    hide Text;
    if toks != [] {
      var m, n := Whole(toks, k), |Text(toks[0])|;
      if k >= n {
        WholeFits(toks[1..], k - n);
        assert toks[..m][0] == toks[0] && toks[..m][1..] == toks[1..][..m - 1];
        var end := |TextAll(toks[..m])|;
        assert TextAll(toks)[..end] == Text(toks[0]) + TextAll(toks[1..])[..end - n];
        assert TextAll(toks)[end..k] == TextAll(toks[1..])[end - n..k - n];
      } else {
        assert toks[..0] == [];
        assert TextAll(toks)[0..k] == Text(toks[0])[..k];
      }
    }
  }

  /** How loading ends when `part` bytes of the token `next` follow the whole ones. */
  function Ending(cfg: Config, l: Loader, toks: seq<Token>, m: nat, part: nat): Outcome {
    if part > 0 && m < |toks| && toks[m].Cmd? then AofLoad.Torn(cfg, l) else AtEnd(cfg, l)
  }

  lemma TokenCut(cfg: Config, total: nat, t: Token, k: nat, l: Loader)
    requires TokenOk(cfg, t) && k < |Text(t)| && k <= total
    ensures LoadFrom(cfg, total, Text(t)[..k], l) == Ending(cfg, l, [t], 0, k)
  {
    hide ReadItem, Print, LoadFrom, Stamp;
    StopsAtEnd(cfg, total, l);
    if k == 0 {
      assert Text(t)[..k] == [];
    } else {
      match t
      case Note(time) => StampCut(time, k); LoadsItem(cfg, total, Text(t)[..k], l);
      case Cmd(argv) => CommandTears(argv, k); LoadsItem(cfg, total, Text(t)[..k], l);
    }
  }

  /** Loading the first k bytes of any log, in or out of a transaction: the whole tokens are taken
      in; a cut inside a command is a torn file, any other cut is an end of file. */
  lemma CutFrom(cfg: Config, total: nat, toks: seq<Token>, k: nat, l: Loader, at: nat)
    requires TokensOk(cfg, toks) && k <= |TextAll(toks)| && total == at + k
    ensures var m := Whole(toks, k); var end := |TextAll(toks[..m])|;
      && end <= k
      && LoadFrom(cfg, total, TextAll(toks)[..k], l)
         == Ending(cfg, Through(cfg, l, toks[..m], at), toks, m, k - end)
  {
    hide LoadFrom, Text, Step, Whole, Through, TextAll, TokensOk;
    var m := Whole(toks, k);
    WholeFits(toks, k);
    var end := |TextAll(toks[..m])|;
    var rest := TextAll(toks)[end..k];
    assert TextAll(toks)[..k] == TextAll(toks[..m]) + rest;
    TokensFront(cfg, toks, m);
    LoadsTokens(cfg, total, toks[..m], rest, l, at);
    var l' := Through(cfg, l, toks[..m], at);
    if m < |toks| {
      TokenCut(cfg, total, toks[m], k - end, l');
    } else {
      assert rest == [];
      StopsAtEnd(cfg, total, l');
    }
  }

  lemma TokensFront(cfg: Config, toks: seq<Token>, m: nat)
    requires TokensOk(cfg, toks) && m <= |toks|
    ensures TokensOk(cfg, toks[..m]) && TokensOk(cfg, toks[m..]) && (m < |toks| ==> TokenOk(cfg, toks[m]))
  {}

  // ---------------------------------------------------------------- what the loader refuses

  /** Bytes that are neither an annotation nor a command: another first byte, a count of zero
      arguments, or a count that is followed by something else than an argument. */
  ghost predicate Garbage(s: Bytes) {
    && s != [] && s[0] != HASH
    && (s[0] != STAR || PrintHeader(STAR, 0) <= s || exists n: nat, rest: Bytes :: NoArgument(n, rest, s))
  }

  predicate NoArgument(n: nat, rest: Bytes, s: Bytes) {
    0 < n < 0x8000_0000 && rest != [] && rest[0] != DOLLAR && s == PrintHeader(STAR, n) + rest
  }

  lemma GarbageReads(s: Bytes)
    requires Garbage(s)
    ensures ReadItem(s) == Malformed
  {
    hide Digits, Number, LineLen, PrintHeader, ReadArgs;
    if s[0] == STAR {
      if PrintHeader(STAR, 0) <= s {
        var rest := s[|PrintHeader(STAR, 0)|..];
        assert s == PrintHeader(STAR, 0) + rest;
        HeaderReads(STAR, 0, rest);
        DigitsAreDigits(0);
      } else {
        var n: nat, rest: Bytes :| NoArgument(n, rest, s);
        HeaderReads(STAR, n, rest);
        DigitsAreDigits(n);
        ArgsRefused(rest, n);
      }
    }
  }

  lemma ArgsRefused(s: Bytes, n: nat)
    requires n > 0 && s != [] && s[0] != DOLLAR
    ensures ReadArgs(s, n) == ArgsMalformed
  {}

  /** Whatever was logged before, the server refuses a file that goes on with garbage, or with a command
      nobody knows, and it has run exactly what came before. */
  lemma Refuses(cfg: Config, toks: seq<Token>, rest: Bytes)
    requires TokensOk(cfg, toks)
    requires Garbage(rest) || exists argv, more ::
               Printable(argv) && cfg.lookup(argv) == Unknown && rest == Print(argv) + more
    ensures var out := Load(cfg, TextAll(toks) + rest);
      out.status == Failed && out.loader == Through(cfg, START, toks, 0)
  {
    hide ReadItem, LoadFrom, TextAll, Through, TokensOk, Print, Garbage;
    var file, l := TextAll(toks) + rest, Through(cfg, START, toks, 0);
    LoadsTokens(cfg, |file|, toks, rest, START, 0);
    LoadsItem(cfg, |file|, rest, l);
    if Garbage(rest) {
      GarbageReads(rest);
      SomeGarbage(rest);
    } else {
      var argv, more :| Printable(argv) && cfg.lookup(argv) == Unknown && rest == Print(argv) + more;
      CommandReads(argv, more);
      PrintsSome(argv);
    }
  }

  lemma SomeGarbage(s: Bytes)
    requires Garbage(s)
    ensures s != []
  {}

  lemma PrintsSome(argv: Argv)
    ensures Print(argv) != []
  {}

  // ---------------------------------------------------------------- where the file is cut back to

  /** Without the annotations at the end. */
  function Trimmed(toks: seq<Token>): (r: seq<Token>)
    ensures r <= toks
  {
    if toks == [] || toks[|toks| - 1].Cmd? then toks else Trimmed(toks[..|toks| - 1])
  }

  /** Annotations change nothing, and the last valid offset is the end of the last command. */
  lemma {:induction false} TrimmedThrough(cfg: Config, l: Loader, toks: seq<Token>, at: nat)
    requires cfg.loadTruncated && l.validUpTo == at
    ensures Through(cfg, l, toks, at) == Through(cfg, l, Trimmed(toks), at)
    ensures Through(cfg, l, toks, at).validUpTo == at + |TextAll(Trimmed(toks))|
  {
    hide Text;
    if toks != [] {
      var front, last := toks[..|toks| - 1], toks[|toks| - 1];
      assert front + [last] == toks;
      ThroughConcat(cfg, l, front, [last], at);
      TextConcat(front, [last]);
      assert [last][1..] == [];
      if last.Note? { TrimmedThrough(cfg, l, front, at); }
    }
  }

  /** A log cut after any number of bytes, whatever transactions it holds: the loader is where the
      whole commands take it. A torn command makes it cut the file back to the end of the last whole
      command, an open transaction to where that began, or refuse to start if it may not. */
  lemma CutLog(cfg: Config, toks: seq<Token>, k: nat)
    requires TokensOk(cfg, toks) && 0 < k <= |TextAll(toks)|
    ensures var m := Whole(toks, k);
        var l := Through(cfg, START, toks[..m], 0); var out := Load(cfg, TextAll(toks)[..k]);
      var end := |TextAll(toks[..m])|; var torn := k > end && m < |toks| && toks[m].Cmd?;
      && end <= k && (m < |toks| ==> k < |TextAll(toks[..m + 1])|)
      && out.loader.ran == l.ran
      && (cfg.loadTruncated ==>
           out.loader.validUpTo == if l.inMulti && !torn then l.beforeMulti else |TextAll(Trimmed(toks[..m]))|)
      && out.status == (if !torn && !l.inMulti then Loaded
                        else if cfg.loadTruncated && cfg.truncates then Truncated else Failed)
  {
    hide LoadFrom, Text, Step, Whole, Through, TextAll, TokensOk;
    var m := Whole(toks, k);
    WholeFits(toks, k);
    CutFrom(cfg, k, toks, k, START, 0);
    if cfg.loadTruncated { TrimmedThrough(cfg, START, toks[..m], 0); }
    if m < |toks| { NextText(toks, m); }
  }

  lemma NextText(toks: seq<Token>, m: nat)
    requires m < |toks|
    ensures TextAll(toks[..m + 1]) == TextAll(toks[..m]) + Text(toks[m])
  {
    hide Text;
    assert toks[..m + 1] == toks[..m] + [toks[m]] && [toks[m]][1..] == [];
    TextConcat(toks[..m], [toks[m]]);
  }
}
