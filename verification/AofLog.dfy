/**
 The append-only log as text: commands are printed in the RESP array format and read back when
 the server starts, possibly from a file whose tail is missing.
 */
module AofLog {
  import opened Wrappers

  newtype Byte = x: int | 0 <= x < 256
  type Bytes = seq<Byte>
  type Argv = seq<Bytes>

  const CR: Byte := 13
  const LF: Byte := 10
  const STAR: Byte := 42
  const DOLLAR: Byte := 36
  const HASH: Byte := 35
  const ZERO: Byte := 48
  const MINUS: Byte := 45
  const PLUS: Byte := 43
  const CRLF: Bytes := [CR, LF]

  /** Size of the line buffer; a line of the file is read in pieces of at most one byte less. */
  const LINE_MAX: nat := 1024

  predicate IsDigit(b: Byte) { ZERO <= b <= ZERO + 9 }
  predicate IsSpace(b: Byte) { b == 32 || 9 <= b <= 13 }

  // ---------------------------------------------------------------- printing

  function Digits(n: nat): Bytes {
    if n < 10 then [ZERO + n as Byte] else Digits(n / 10) + [ZERO + (n % 10) as Byte]
  }

  function PrintHeader(mark: Byte, n: nat): Bytes { [mark] + Digits(n) + CRLF }

  function PrintArg(arg: Bytes): Bytes { PrintHeader(DOLLAR, |arg|) + arg + CRLF }

  function PrintArgs(argv: Argv): Bytes {
    if argv == [] then [] else PrintArg(argv[0]) + PrintArgs(argv[1..])
  }

  function Print(argv: Argv): Bytes { PrintHeader(STAR, |argv|) + PrintArgs(argv) }

  /** Lengths that fit the C types, so that a header is far shorter than the line buffer. */
  predicate Printable(argv: Argv) {
    0 < |argv| < 0x8000_0000 && forall i :: 0 <= i < |argv| ==> |argv[i]| < 0x8000_0000_0000_0000
  }

  // ---------------------------------------------------------------- reading

  /** How many bytes fgets takes: up to and including a newline, at most `room`. */
  function LineLen(s: Bytes, room: nat): (n: nat)
    ensures n <= |s| && n <= room
    ensures s != [] && room > 0 ==> n > 0
  {
    if s == [] || room == 0 then 0
    else if s[0] == LF then 1
    else 1 + LineLen(s[1..], room - 1)
  }

  function DigitsValue(s: Bytes, acc: nat): nat {
    if s == [] || !IsDigit(s[0]) then acc else DigitsValue(s[1..], acc * 10 + (s[0] - ZERO) as nat)
  }

  /** atoi and strtol: white space, a sign, then digits up to the first other byte. */
  function Number(s: Bytes): int {
    if s == [] then 0
    else if IsSpace(s[0]) then Number(s[1..])
    else if s[0] == MINUS then 0 - DigitsValue(s[1..], 0)
    else if s[0] == PLUS then DigitsValue(s[1..], 0)
    else DigitsValue(s, 0)
  }

  datatype Args = Args(argv: Argv, rest: Bytes) | ArgsTorn | ArgsMalformed

  function AsUnsignedLong(n: int): nat { n % 0x1_0000_0000_0000_0000 }

  function ReadArg(s: Bytes): Args {
    if s == [] then ArgsTorn
    else
      var n := LineLen(s, LINE_MAX - 1);
      if s[0] != DOLLAR then ArgsMalformed
      else
        var len := AsUnsignedLong(Number(s[1..n]));
        var rest := s[n..];
        if |rest| < len || |rest| - len < 2 then ArgsTorn
        else Args([rest[..len]], rest[len + 2..])
  }

  function ReadArgs(s: Bytes, count: nat): (r: Args)
    ensures r.Args? ==> |r.rest| <= |s| && |r.argv| == count
    decreases count
  {
    if count == 0 then Args([], s)
    else
      match ReadArg(s)
      case ArgsTorn => ArgsTorn
      case ArgsMalformed => ArgsMalformed
      case Args(one, rest) =>
        match ReadArgs(rest, count - 1)
        case ArgsTorn => ArgsTorn
        case ArgsMalformed => ArgsMalformed
        case Args(more, rest') => Args(one + more, rest')
  }

  datatype Item =
    | End
    | Annotation(rest: Bytes)
    | Command(argv: Argv, rest: Bytes)
    | Torn               // the file ends inside a command
    | Malformed
    | ReadFailure

  function ReadItem(s: Bytes): (r: Item)
    ensures r.Annotation? || r.Command? ==> |r.rest| < |s|
  {
    if s == [] then End
    else
      var n := LineLen(s, LINE_MAX - 1);
      var rest := s[n..];
      if s[0] == HASH then Annotation(rest)
      else if s[0] != STAR then Malformed
      else if n == 1 || s[1] == 0 then
        if rest == [] && n < LINE_MAX - 1 && s[n - 1] != LF then Torn else ReadFailure
      else
        var argc := Number(s[1..n]);
        if argc < 1 then Malformed
        else
          match ReadArgs(rest, argc)
          case ArgsTorn => Torn
          case ArgsMalformed => Malformed
          case Args(argv, rest') => Command(argv, rest')
  }

  // ---------------------------------------------------------------- what printing and reading have in common

  lemma {:induction false} DigitsAreDigits(n: nat)
    ensures Digits(n) != [] && forall i :: 0 <= i < |Digits(n)| ==> IsDigit(Digits(n)[i])
    ensures n > 0 ==> Digits(n)[0] > ZERO
  {
    if n >= 10 { DigitsAreDigits(n / 10); }
  }

  ghost function Pow10(k: nat): nat { if k == 0 then 1 else 10 * Pow10(k - 1) }

  lemma {:induction false} FewDigits(n: nat, k: nat)
    requires n < Pow10(k) && k > 0
    ensures |Digits(n)| <= k
  {
    if n >= 10 {
      assert k > 1;
      FewDigits(n / 10, k - 1);
    }
  }

  lemma LengthDigits(n: nat)
    requires n < 0x8000_0000_0000_0000
    ensures |Digits(n)| <= 20
  {
    assert Pow10(5) == 100000;
    assert Pow10(10) == 100000 * Pow10(5);
    assert Pow10(15) == 100000 * Pow10(10);
    assert Pow10(20) == 100000 * Pow10(15);
    FewDigits(n, 20);
  }

  lemma {:induction false} DigitsValueConcat(a: Bytes, b: Bytes, acc: nat)
    requires forall i :: 0 <= i < |a| ==> IsDigit(a[i])
    ensures DigitsValue(a + b, acc) == DigitsValue(b, DigitsValue(a, acc))
    decreases |a|
  {
    if a == [] {
      assert a + b == b;
    } else {
      assert (a + b)[1..] == a[1..] + b;
      DigitsValueConcat(a[1..], b, acc * 10 + (a[0] - ZERO) as nat);
    }
  }

  lemma {:induction false} DigitsRoundTrip(n: nat)
    ensures DigitsValue(Digits(n), 0) == n
  {
    if n >= 10 {
      DigitsRoundTrip(n / 10);
      DigitsAreDigits(n / 10);
      DigitsValueConcat(Digits(n / 10), [ZERO + (n % 10) as Byte], 0);
    }
  }

  lemma NumberOfDigits(n: nat, b: Bytes)
    requires b == [] || !IsDigit(b[0])
    ensures Number(Digits(n) + b) == n
  {
    DigitsAreDigits(n);
    DigitsRoundTrip(n);
    DigitsValueConcat(Digits(n), b, 0);
  }

  /** fgets stops after the newline, or at the end of a file that has none. */
  lemma {:induction false} LineOf(x: Bytes, rest: Bytes, room: nat)
    requires |x| < room && LF !in x
    ensures LineLen(x + [LF] + rest, room) == |x| + 1
    ensures LineLen(x, room) == |x|
  {
    if x == [] {
      assert x + [LF] + rest == [LF] + rest;
    } else {
      assert (x + [LF] + rest)[1..] == x[1..] + [LF] + rest;
      LineOf(x[1..], rest, room - 1);
    }
  }

  /** The line of a header, without its newline. */
  function HeaderLine(mark: Byte, n: nat): Bytes { [mark] + Digits(n) + [CR] }

  lemma HeaderShape(mark: Byte, n: nat)
    requires n < 0x8000_0000_0000_0000 && mark != LF
    ensures PrintHeader(mark, n) == HeaderLine(mark, n) + [LF]
    ensures LF !in HeaderLine(mark, n) && |HeaderLine(mark, n)| <= 22
    ensures HeaderLine(mark, n)[0] == mark && HeaderLine(mark, n)[1] == Digits(n)[0]
  {
    LengthDigits(n);
    DigitsAreDigits(n);
  }

  lemma HeaderReads(mark: Byte, n: nat, rest: Bytes)
    requires n < 0x8000_0000_0000_0000 && mark != LF
    ensures var s := PrintHeader(mark, n) + rest; var k := LineLen(s, LINE_MAX - 1);
      && k == |PrintHeader(mark, n)| && s[0] == mark && s[k..] == rest && k > 2
      && s[1] == Digits(n)[0] && Number(s[1..k]) == n
  {
    HeaderShape(mark, n);
    DigitsAreDigits(n);
    var s := PrintHeader(mark, n) + rest;
    assert s == HeaderLine(mark, n) + [LF] + rest;
    LineOf(HeaderLine(mark, n), rest, LINE_MAX - 1);
    var k := LineLen(s, LINE_MAX - 1);
    assert s[1..k] == Digits(n) + CRLF;
    NumberOfDigits(n, CRLF);
  }

  /** A header whose end is missing: everything left is one line. */
  lemma HeaderTears(mark: Byte, n: nat, k: nat)
    requires n < 0x8000_0000_0000_0000 && mark != LF && 0 < k < |PrintHeader(mark, n)|
    ensures var s := PrintHeader(mark, n)[..k];
      && LineLen(s, LINE_MAX - 1) == k && k < LINE_MAX - 1 && s[0] == mark && LF !in s
      && (k > 1 ==> s[1] == Digits(n)[0])
      && (k > 1 && n > 0 ==> Number(s[1..]) >= 1)
  {
    HeaderShape(mark, n);
    var s := PrintHeader(mark, n)[..k];
    assert s == HeaderLine(mark, n)[..k];
    LineOf(s, [], LINE_MAX - 1);
    if k > 1 && n > 0 {
      DigitsAreDigits(n);
      assert s[1..][0] == Digits(n)[0];
      AtLeast(s[2..], (s[1] - ZERO) as nat);
    }
  }

  lemma {:induction false} AtLeast(s: Bytes, acc: nat)
    ensures DigitsValue(s, acc) >= acc
  {
    if s != [] && IsDigit(s[0]) { AtLeast(s[1..], acc * 10 + (s[0] - ZERO) as nat); }
  }

  lemma ArgReads(arg: Bytes, rest: Bytes)
    requires |arg| < 0x8000_0000_0000_0000
    ensures ReadArg(PrintArg(arg) + rest) == Args([arg], rest)
  {
    hide Digits, Number, LineLen;
    var s, tail := PrintArg(arg) + rest, arg + CRLF + rest;
    assert s == PrintHeader(DOLLAR, |arg|) + tail;
    HeaderReads(DOLLAR, |arg|, tail);
    assert tail[..|arg|] == arg && tail[|arg| + 2..] == rest;
  }

  lemma ArgTears(arg: Bytes, k: nat)
    requires |arg| < 0x8000_0000_0000_0000 && k < |PrintArg(arg)|
    ensures ReadArg(PrintArg(arg)[..k]) == ArgsTorn
  {
    var h := |PrintHeader(DOLLAR, |arg|)|;
    var s := PrintArg(arg)[..k];
    if 0 < k < h {
      assert s == PrintHeader(DOLLAR, |arg|)[..k];
      HeaderTears(DOLLAR, |arg|, k);
    } else if k >= h {
      assert s == PrintHeader(DOLLAR, |arg|) + (arg + CRLF)[..k - h];
      HeaderReads(DOLLAR, |arg|, (arg + CRLF)[..k - h]);
    }
  }

  lemma {:induction false} ArgsRead(argv: Argv, rest: Bytes)
    requires forall i :: 0 <= i < |argv| ==> |argv[i]| < 0x8000_0000_0000_0000
    ensures ReadArgs(PrintArgs(argv) + rest, |argv|) == Args(argv, rest)
  {
    if argv != [] {
      assert PrintArgs(argv) + rest == PrintArg(argv[0]) + (PrintArgs(argv[1..]) + rest);
      ArgReads(argv[0], PrintArgs(argv[1..]) + rest);
      ArgsRead(argv[1..], rest);
      assert [argv[0]] + argv[1..] == argv;
    } else {
      assert PrintArgs(argv) + rest == rest;
    }
  }

  lemma {:induction false} ArgsTear(argv: Argv, k: nat)
    requires forall i :: 0 <= i < |argv| ==> |argv[i]| < 0x8000_0000_0000_0000
    requires k < |PrintArgs(argv)|
    ensures ReadArgs(PrintArgs(argv)[..k], |argv|) == ArgsTorn
  {
    var h := |PrintArg(argv[0])|;
    if k < h {
      assert PrintArgs(argv)[..k] == PrintArg(argv[0])[..k];
      ArgTears(argv[0], k);
    } else {
      assert PrintArgs(argv)[..k] == PrintArg(argv[0]) + PrintArgs(argv[1..])[..k - h];
      ArgReads(argv[0], PrintArgs(argv[1..])[..k - h]);
      ArgsTear(argv[1..], k - h);
    }
  }

  /** Printing and reading a command undo each other, for arbitrary bytes in the arguments. */
  lemma CommandReads(argv: Argv, rest: Bytes)
    requires Printable(argv)
    ensures ReadItem(Print(argv) + rest) == Command(argv, rest)
  {
    var tail := PrintArgs(argv) + rest;
    var s := PrintHeader(STAR, |argv|) + tail;
    assert Print(argv) + rest == s;
    HeaderReads(STAR, |argv|, tail);
    DigitsAreDigits(|argv|);
    ArgsRead(argv, rest);
    assert ReadItem(s) == Command(argv, rest);
  }

  /** A file that ends inside a command is recognised as such, wherever it ends. */
  lemma CommandTears(argv: Argv, k: nat)
    requires Printable(argv) && 0 < k < |Print(argv)|
    ensures ReadItem(Print(argv)[..k]) == Torn
  {
    var h := |PrintHeader(STAR, |argv|)|;
    var s := Print(argv)[..k];
    DigitsAreDigits(|argv|);
    if k < h {
      assert s == PrintHeader(STAR, |argv|)[..k];
      HeaderTears(STAR, |argv|, k);
      assert s[1..k] == s[1..] && s[k..] == [];
    } else {
      assert s == PrintHeader(STAR, |argv|) + PrintArgs(argv)[..k - h];
      HeaderReads(STAR, |argv|, PrintArgs(argv)[..k - h]);
      ArgsTear(argv, k - h);
    }
  }

  // ---------------------------------------------------------------- feeding the log

  /** A write command on database `db`; `stamp` is set if a timestamp annotation precedes it. */
  datatype Write = Write(db: nat, argv: Argv, stamp: Option<nat>)

  const SELECT: Bytes := [83, 69, 76, 69, 67, 84]
  const TS: Bytes := [HASH, 84, 83, 58]          // "#TS:"

  function SelectCommand(db: nat): Argv { [SELECT, Digits(db)] }

  function Stamp(stamp: Option<nat>): Bytes {
    match stamp case None => [] case Some(t) => TS + Digits(t) + CRLF
  }

  /** What one write adds to the log when database `selected` is the last one selected in it. */
  function FedBytes(selected: int, w: Write): Bytes {
    Stamp(w.stamp) + (if w.db != selected then Print(SelectCommand(w.db)) else []) + Print(w.argv)
  }

  function Fed(selected: int, ws: seq<Write>): Bytes
    decreases |ws|
  {
    if ws == [] then [] else FedBytes(selected, ws[0]) + Fed(ws[0].db, ws[1..])
  }

  class Feeder {
    var buf: Bytes
    var selected: int

    constructor ()
      ensures buf == [] && selected == -1
    {
      buf, selected := [], -1;
    }

    method Feed(w: Write)
      modifies this
      ensures buf == old(buf) + FedBytes(old(selected), w) && selected == w.db
    {
      var out: Bytes := [];
      if w.stamp.Some? { out := TS + Digits(w.stamp.value) + CRLF; }
      assert out == Stamp(w.stamp);
      if w.db != selected {
        out := CatAppendOnlyGenericCommand(out, SelectCommand(w.db));
        selected := w.db;
      } else {
        assert out == out + [];
      }
      out := CatAppendOnlyGenericCommand(out, w.argv);
      buf := buf + out;
    }

    method FeedAll(ws: seq<Write>)
      modifies this
      ensures buf == old(buf) + Fed(old(selected), ws)
    {
      hide FedBytes;
      ghost var start, sel := buf, selected;
      assert ws[..0] == [] && ws[0..] == ws;
      for i := 0 to |ws|
        invariant start + Fed(sel, ws) == buf + Fed(selected, ws[i..])
      {
        assert ws[i..][0] == ws[i] && ws[i..][1..] == ws[i + 1..];
        assert buf + (FedBytes(selected, ws[i]) + Fed(ws[i].db, ws[i + 1..]))
            == buf + FedBytes(selected, ws[i]) + Fed(ws[i].db, ws[i + 1..]);
        Feed(ws[i]);
      }
      assert ws[|ws|..] == [];
    }
  }

  method CatAppendOnlyGenericCommand(dst: Bytes, argv: Argv) returns (r: Bytes)
    ensures r == dst + Print(argv)
  {
    r := dst + ([STAR] + Digits(|argv|) + CRLF);
    assert argv[0..] == argv;
    for j := 0 to |argv|
      invariant r + PrintArgs(argv[j..]) == dst + Print(argv)
    {
      assert argv[j..][0] == argv[j] && argv[j..][1..] == argv[j + 1..];
      ghost var r0, tail := r, PrintArgs(argv[j + 1..]);
      r := r + ([DOLLAR] + Digits(|argv[j]|) + CRLF);
      r := r + argv[j];
      r := r + CRLF;
      assert r == r0 + PrintArg(argv[j]);
      assert r + tail == r0 + (PrintArg(argv[j]) + tail);
    }
    assert argv[|argv|..] == [];
  }
}
