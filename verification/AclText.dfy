/** Rules as text: how the describer prints them and how they are read back. */
module AclText {
  import opened AclRules
  import opened Wrappers

  // ---------------------------------------------------------------- splitting at a character

  /** The pieces between separators; there is always at least one. */
  function Pieces(s: string, sep: char): (r: seq<string>)
    ensures r != []
  {
    if s == "" then [""]
    else
      var r := Pieces(s[1..], sep);
      if s[0] == sep then [""] + r else [[s[0]] + r[0]] + r[1..]
  }

  function Split(s: string, sep: char): seq<string> { if s == "" then [] else Pieces(s, sep) }

  method SplitLen(s: string, sep: char) returns (tokens: seq<string>)
    ensures tokens == Split(s, sep)
  {
    hide Pieces;
    tokens := [];
    if |s| == 0 { return; }
    var start := 0;
    var j := 0;
    assert s[0..] == s;
    while j < |s|
      invariant 0 <= start <= j <= |s| && sep !in s[start..j]
      invariant tokens + Pieces(s[start..], sep) == Pieces(s, sep)
    {
      if s[j] == sep {
        PiecesAt(s[start..], sep, j - start);
        assert s[start..][..j - start] == s[start..j] && s[start..][j - start + 1..] == s[j + 1..];
        tokens := tokens + [s[start..j]];
        start := j + 1;
      }
      j := j + 1;
    }
    assert s[start..j] == s[start..];
    PiecesWhole(s[start..], sep);
    tokens := tokens + [s[start..]];
  }

  lemma {:induction false} PiecesWhole(s: string, sep: char)
    requires sep !in s
    ensures Pieces(s, sep) == [s]
  {
    if s != "" {
      PiecesWhole(s[1..], sep);
      assert [s[0]] + s[1..] == s;
    }
  }

  lemma {:induction false} PiecesAt(s: string, sep: char, k: nat)
    requires k < |s| && s[k] == sep && sep !in s[..k]
    ensures Pieces(s, sep) == [s[..k]] + Pieces(s[k + 1..], sep)
    decreases k
  {
    if k > 0 {
      assert s[..k][0] == s[0] && s[..k][1..] == s[1..][..k - 1];
      PiecesAt(s[1..], sep, k - 1);
      assert s[1..][k..] == s[k + 1..];
      assert [s[0]] + s[1..][..k - 1] == s[..k];
    }
  }

  function Join(ts: seq<string>, sep: char): string
    requires ts != []
  {
    if |ts| == 1 then ts[0] else ts[0] + [sep] + Join(ts[1..], sep)
  }

  lemma {:induction false} JoinHead(t: string, s: string, sep: char)
    ensures |Pieces(t + [sep] + s, sep)| >= 1 + |Pieces(s, sep)|
    ensures |Pieces(t + [sep] + s, sep)| > 1 + |Pieces(s, sep)| <==> sep in t
    ensures sep !in t ==> Pieces(t + [sep] + s, sep) == [t] + Pieces(s, sep)
  {
    var all := t + [sep] + s;
    if t != "" {
      assert all[1..] == t[1..] + [sep] + s;
      JoinHead(t[1..], s, sep);
      assert [t[0]] + t[1..] == t;
    } else {
      assert all[1..] == s;
    }
  }

  lemma {:induction false} PiecesMore(s: string, sep: char)
    ensures |Pieces(s, sep)| > 1 <==> sep in s
  {
    if s != "" { PiecesMore(s[1..], sep); }
  }

  /** Splitting undoes joining if and only if no piece holds the separator. */
  lemma {:induction false} SplitJoin(ts: seq<string>, sep: char)
    requires ts != []
    ensures |Pieces(Join(ts, sep), sep)| >= |ts|
    ensures Pieces(Join(ts, sep), sep) == ts <==> forall i :: 0 <= i < |ts| ==> sep !in ts[i]
    ensures |Pieces(Join(ts, sep), sep)| == |ts| <==> forall i :: 0 <= i < |ts| ==> sep !in ts[i]
    decreases |ts|
  {
    if |ts| == 1 {
      PiecesMore(ts[0], sep);
      if sep !in ts[0] { PiecesWhole(ts[0], sep); }
    } else {
      JoinHead(ts[0], Join(ts[1..], sep), sep);
      SplitJoin(ts[1..], sep);
      assert forall i :: 0 <= i < |ts| - 1 ==> ts[1..][i] == ts[i + 1];
      assert (forall i :: 0 <= i < |ts| ==> sep !in ts[i]) <==>
             (sep !in ts[0] && forall i :: 0 <= i < |ts[1..]| ==> sep !in ts[1..][i]);
      assert [ts[0]] + ts[1..] == ts;
    }
  }

  /** Joining undoes splitting, always. */
  lemma {:induction false} JoinPieces(s: string, sep: char)
    ensures Join(Pieces(s, sep), sep) == s
  {
    if s != "" {
      var r := Pieces(s[1..], sep);
      JoinPieces(s[1..], sep);
      if s[0] == sep {
        assert ([""] + r)[1..] == r;
      } else {
        var more := [[s[0]] + r[0]] + r[1..];
        assert more[1..] == r[1..];
        if |r| > 1 { assert [s[0]] + r[0] + [sep] + Join(r[1..], sep) == [s[0]] + (r[0] + [sep] + Join(r[1..], sep)); }
      }
    }
  }

  // ---------------------------------------------------------------- looking up commands

  predicate Plain(name: string) { name != "" && name[0] != '@' && '|' !in name && ' ' !in name }

  ghost predicate NoTwins(cmds: seq<Command>) {
    && (forall c :: c in cmds ==> Plain(c.name))
    && forall i, j :: 0 <= i < j < |cmds| ==> !SameText(cmds[i].name, cmds[j].name)
  }

  /** The dictionaries of commands and subcommands: names are unique up to case. */
  ghost predicate NamesOk(table: seq<Command>) {
    && NoTwins(table)
    && (forall c :: c in table ==> c.fullname == c.name && NoTwins(c.subs))
    && (forall c, s :: c in table && s in c.subs ==> s.fullname == c.name + "|" + s.name && s.subs == [])
  }

  predicate IsSub(c: Command) { '|' in c.fullname }

  function Fetch(cmds: seq<Command>, name: string): (r: Option<Command>)
    ensures r.Some? ==> r.value in cmds
  {
    if cmds == [] then None
    else if SameText(cmds[0].name, name) then Some(cmds[0])
    else Fetch(cmds[1..], name)
  }

  /** The name may be written in any case. */
  lemma {:induction false} Fetches(cmds: seq<Command>, c: Command, name: string)
    requires NoTwins(cmds) && c in cmds && SameText(c.name, name)
    ensures Fetch(cmds, name) == Some(c)
    decreases |cmds|
  {
    if c != cmds[0] {
      var j :| 0 < j < |cmds| && cmds[j] == c;
      assert !SameText(cmds[0].name, cmds[j].name);
      Fetches(cmds[1..], c, name);
    }
  }

  lemma {:induction false} FetchedName(cmds: seq<Command>, name: string)
    requires Fetch(cmds, name).Some?
    ensures SameText(Fetch(cmds, name).value.name, name)
    decreases |cmds|
  {
    if !SameText(cmds[0].name, name) { FetchedName(cmds[1..], name); }
  }

  function Lookup(table: seq<Command>, text: string): Option<Command> {
    var parts := Split(text, '|');
    if parts == [] || |parts| > 2 then None
    else
      var base := Fetch(table, parts[0]);
      if |parts| == 1 || base.None? then (if |parts| != 1 then None else base)
      else if base.value.subs == [] then None
      else Fetch(base.value.subs, parts[1])
  }

  lemma FindsCommand(table: seq<Command>, c: Command)
    requires NamesOk(table) && c in table
    ensures Lookup(table, c.name) == Some(c)
  {
    PiecesWhole(c.name, '|');
    Fetches(table, c, c.name);
  }

  lemma FindsSubcommand(table: seq<Command>, c: Command, s: Command)
    requires NamesOk(table) && c in table && s in c.subs
    ensures Lookup(table, s.fullname) == Some(s) && IsSub(s)
  {
    var t := c.name + "|" + s.name;
    assert t[|c.name|] == '|' && t[..|c.name|] == c.name && t[|c.name| + 1..] == s.name;
    PiecesAt(t, '|', |c.name|);
    PiecesWhole(s.name, '|');
    assert Split(t, '|') == [c.name, s.name];
    Fetches(table, c, c.name);
    Fetches(c.subs, s, s.name);
  }

  // ---------------------------------------------------------------- printing and reading a rule

  function Sign(on: bool): string { if on then "+" else "-" }

  function Text(categories: seq<string>, r: Rule): string {
    match r
    case All(on) => Sign(on) + "@all"
    case Category(on, cat) => Sign(on) + "@" + if cat < |categories| then categories[cat] else ""
    case Single(on, c) => Sign(on) + c.fullname
    case FirstArg(c, arg) => "+" + c.fullname + "|" + arg
  }

  function LastBar(s: string): (k: nat)
    requires '|' in s
    ensures k < |s| && s[k] == '|' && '|' !in s[k + 1..]
  {
    if s[|s| - 1] == '|' then |s| - 1 else LastBar(s[..|s| - 1])
  }

  function CategoryOf(categories: seq<string>, name: string, j: nat): (r: Option<nat>)
    requires j <= |categories|
    ensures r.Some? ==> r.value < |categories|
    decreases |categories| - j
  {
    if j == |categories| then None
    else if SameText(name, categories[j]) then Some(j)
    else CategoryOf(categories, name, j + 1)
  }

  function ParseAllow(table: seq<Command>, name: string): Option<Rule> {
    if '|' !in name then
      match Lookup(table, name) case None => None case Some(c) => Some(Single(true, c))
    else
      var k := LastBar(name);
      var sub := name[k + 1..];
      match Lookup(table, name[..k])
      case None => None
      case Some(c) =>
        if IsSub(c) || sub == "" then None
        else if c.subs != [] then
          match Lookup(table, name) case None => None case Some(s) => Some(Single(true, s))
        else Some(FirstArg(c, sub))
  }

  /** The rules that concern commands; every other text, and every error, gives None. */
  function Parse(categories: seq<string>, table: seq<Command>, op: string): Option<Rule> {
    if SameText(op, "allcommands") || SameText(op, "+@all") then Some(All(true))
    else if SameText(op, "nocommands") || SameText(op, "-@all") then Some(All(false))
    else if op == "" || (op[0] != '+' && op[0] != '-') then None
    else if |op| > 1 && op[1] == '@' then
      match CategoryOf(categories, op[2..], 0) case None => None case Some(j) => Some(Category(op[0] == '+', j))
    else if op[0] == '+' then ParseAllow(table, op[1..])
    else
      match Lookup(table, op[1..]) case None => None case Some(c) => Some(Single(false, c))
  }

  ghost predicate CategoriesOk(categories: seq<string>) {
    && |categories| == CATEGORIES
    && (forall i :: 0 <= i < |categories| ==> !SameText(categories[i], "all") && ' ' !in categories[i])
    && forall i, j :: 0 <= i < j < |categories| ==> !SameText(categories[i], categories[j])
  }

  lemma {:induction false} FindsCategory(categories: seq<string>, cat: nat, name: string, j: nat)
    requires CategoriesOk(categories) && j <= cat < |categories| && SameText(name, categories[cat])
    ensures CategoryOf(categories, name, j) == Some(cat)
    decreases cat - j
  {
    if j < cat {
      assert !SameText(categories[j], categories[cat]);
      FindsCategory(categories, cat, name, j + 1);
    }
  }

  lemma {:induction false} FoundCategory(categories: seq<string>, name: string, j: nat)
    requires j <= |categories| && CategoryOf(categories, name, j).Some?
    ensures SameText(name, categories[CategoryOf(categories, name, j).value])
    decreases |categories| - j
  {
    if !SameText(name, categories[j]) { FoundCategory(categories, name, j + 1); }
  }

  lemma DiffersAt(a: string, b: string, i: nat)
    requires i < |a| && i < |b| && Lower(a[i]) != Lower(b[i])
    ensures !SameText(a, b)
  {
    assert LowerAll(a)[i] != LowerAll(b)[i];
  }

  lemma SameTail(a: string, b: string, k: nat)
    requires SameText(a, b) && k <= |a|
    ensures |a| == |b| && SameText(a[k..], b[k..])
  {
    assert |LowerAll(a)| == |LowerAll(b)|;
    forall i | 0 <= i < |a| - k
      ensures Lower(a[k..][i]) == Lower(b[k..][i])
    {
      assert LowerAll(a)[k + i] == LowerAll(b)[k + i];
    }
  }

  lemma {:induction false} LastBarAt(s: string, k: nat)
    requires k < |s| && s[k] == '|' && '|' !in s[k + 1..]
    ensures LastBar(s) == k
    decreases |s|
  {
    if k < |s| - 1 {
      assert s[k + 1..][|s| - k - 2] == s[|s| - 1];
      assert s[..|s| - 1][k + 1..] == s[k + 1..][..|s| - k - 2];
      LastBarAt(s[..|s| - 1], k);
    }
  }

  lemma {:induction false} NodeCases(table: seq<Command>, c: Command) returns (p: Command)
    requires c in Nodes(table) && forall q, s :: q in table && s in q.subs ==> s.subs == []
    ensures c in table || (p in table && c in p.subs)
    decreases |table|
  {
    p := table[0];
    if c != table[0] {
      if c in Nodes(table[0].subs) {
        LeafNodes(table[0].subs, c);
      } else {
        p := NodeCases(table[1..], c);
      }
    }
  }

  /** A command of the table is found by its full name, which does not look like another kind of rule. */
  lemma FindsNode(table: seq<Command>, c: Command)
    requires NamesOk(table) && c in Nodes(table)
    ensures Lookup(table, c.fullname) == Some(c) && c.fullname != "" && c.fullname[0] != '@'
  {
    var p := NodeCases(table, c);
    if c in table {
      FindsCommand(table, c);
    } else {
      FindsSubcommand(table, p, c);
      assert Plain(p.name);
    }
  }

  lemma ReadsAllow(table: seq<Command>, c: Command)
    requires NamesOk(table) && c in Nodes(table)
    ensures ParseAllow(table, c.fullname) == Some(Single(true, c))
  {
    var p := NodeCases(table, c);
    FindsNode(table, c);
    if c in table {
      assert Plain(c.name);
    } else {
      var t, k := c.fullname, |p.name|;
      FindsCommand(table, p);
      assert Plain(p.name) && Plain(c.name);
      assert t[k] == '|' && t[k + 1..] == c.name && t[..k] == p.name;
      LastBarAt(t, k);
    }
  }

  lemma ReadsFirstArg(table: seq<Command>, c: Command, arg: string)
    requires NamesOk(table) && c in table && c.subs == [] && arg != "" && '|' !in arg
    ensures ParseAllow(table, c.fullname + "|" + arg) == Some(FirstArg(c, arg))
  {
    var t, k := c.fullname + "|" + arg, |c.name|;
    FindsCommand(table, c);
    assert Plain(c.name);
    assert t[k] == '|' && t[k + 1..] == arg && t[..k] == c.name;
    LastBarAt(t, k);
  }

  lemma ReadsSigned(categories: seq<string>, table: seq<Command>, on: bool, name: string)
    requires name != "" && name[0] != '@'
    ensures Parse(categories, table, Sign(on) + name) ==
      if on then ParseAllow(table, name)
      else match Lookup(table, name) case None => None case Some(c) => Some(Single(false, c))
  {
    var op := Sign(on) + name;
    assert op[1] == name[0] && op[1..] == name;
    DiffersAt(op, "+@all", 1);
    DiffersAt(op, "-@all", 1);
    DiffersAt(op, "allcommands", 0);
    DiffersAt(op, "nocommands", 0);
  }

  lemma ReadsCategory(categories: seq<string>, table: seq<Command>, on: bool, cat: nat)
    requires CategoriesOk(categories) && cat < |categories|
    ensures Parse(categories, table, Sign(on) + "@" + categories[cat]) == Some(Category(on, cat))
  {
    var op := Sign(on) + "@" + categories[cat];
    assert op[1] == '@' && op[2..] == categories[cat];
    DiffersAt(op, "allcommands", 0);
    DiffersAt(op, "nocommands", 0);
    assert "+@all"[2..] == "all" && "-@all"[2..] == "all";
    if SameText(op, "+@all") { SameTail(op, "+@all", 2); }
    if SameText(op, "-@all") { SameTail(op, "-@all", 2); }
    FindsCategory(categories, cat, categories[cat], 0);
  }

  lemma ReadsAll(categories: seq<string>, table: seq<Command>, on: bool)
    ensures Parse(categories, table, Sign(on) + "@all") == Some(All(on))
  {
    assert Sign(on) + "@all" == if on then "+@all" else "-@all";
    if !on {
      DiffersAt("-@all", "allcommands", 0);
      DiffersAt("-@all", "+@all", 0);
    }
  }

  /** Every rule that can be emitted is read back as itself. */
  lemma ReadsBack(categories: seq<string>, table: seq<Command>, r: Rule)
    requires NamesOk(table) && CategoriesOk(categories) && Legal(table, r)
    ensures Parse(categories, table, Text(categories, r)) == Some(r)
  {
    hide Parse, ParseAllow, Lookup, NamesOk;
    match r
    case All(on) => ReadsAll(categories, table, on);
    case Category(on, cat) => ReadsCategory(categories, table, on, cat);
    case Single(on, c) =>
      FindsNode(table, c);
      ReadsSigned(categories, table, on, c.fullname);
      if on { ReadsAllow(table, c); }
    case FirstArg(c, arg) =>
      var name := c.fullname + "|" + arg;
      MemberIds(table, c);
      FindsNode(table, c);
      ReadsFirstArg(table, c, arg);
      ReadsSigned(categories, table, true, name);
      assert "+" + c.fullname + "|" + arg == Sign(true) + name;
  }

  lemma LookupFinds(table: seq<Command>, text: string)
    requires NamesOk(table) && Lookup(table, text).Some?
    ensures var c := Lookup(table, text).value; c in Nodes(table) && (c in table || IsSub(c))
  {
    var c := Lookup(table, text).value;
    var base := Fetch(table, Split(text, '|')[0]).value;
    MemberIds(table, base);
    if c !in table {
      assert c in base.subs;
      FindsSubcommand(table, base, c);
      MemberIds(base.subs, c);
      SubNodes(table, base, c);
    } else {
      MemberIds(table, c);
    }
  }

  lemma {:induction false} SubNodes(table: seq<Command>, p: Command, c: Command)
    requires p in table && c in p.subs
    ensures c in Nodes(table)
    decreases |table|
  {
    MemberIds(p.subs, c);
    if p != table[0] { SubNodes(table[1..], p, c); }
  }

  /** Nothing else can be read: a text that is accepted is a legal rule, as long as first
      arguments are given to commands inside the bitmap. */
  lemma ReadsLegal(categories: seq<string>, table: seq<Command>, op: string)
    requires NamesOk(table) && CategoriesOk(categories) && Parse(categories, table, op).Some?
    ensures var r := Parse(categories, table, op).value; Legal(table, r) || (r.FirstArg? && Overflows(r.cmd))
  {
    var r := Parse(categories, table, op).value;
    if r.Single? || r.FirstArg? {
      var name := op[1..];
      if Lookup(table, name).Some? { LookupFinds(table, name); }
      if '|' in name && Lookup(table, name[..LastBar(name)]).Some? { LookupFinds(table, name[..LastBar(name)]); }
    }
  }

  lemma LowerConcat(a: string, b: string)
    ensures LowerAll(a + b) == LowerAll(a) + LowerAll(b)
  {}

  /** A looked up text is the full name of the command, but for the case of letters. */
  lemma LookupName(table: seq<Command>, text: string)
    requires NamesOk(table) && Lookup(table, text).Some?
    ensures SameText(text, Lookup(table, text).value.fullname)
  {
    hide Pieces, Fetch;
    var parts, c := Split(text, '|'), Lookup(table, text).value;
    JoinPieces(text, '|');
    FetchedName(table, parts[0]);
    var base := Fetch(table, parts[0]).value;
    if |parts| == 2 {
      FetchedName(base.subs, parts[1]);
      assert parts[1..] == [parts[1]] && text == parts[0] + "|" + parts[1];
      LowerConcat(parts[0] + "|", parts[1]);
      LowerConcat(parts[0], "|");
      LowerConcat(base.name + "|", c.name);
      LowerConcat(base.name, "|");
    }
  }

  /** What is accepted is the printed form of the rule that was understood, but for the case of letters,
      or one of the two old words for all and no commands. */
  lemma ReadsOnly(categories: seq<string>, table: seq<Command>, op: string)
    requires NamesOk(table) && CategoriesOk(categories) && Parse(categories, table, op).Some?
    ensures var r := Parse(categories, table, op).value;
      || SameText(op, Text(categories, r))
      || (r == All(true) && SameText(op, "allcommands")) || (r == All(false) && SameText(op, "nocommands"))
  {
    hide Lookup, LastBar, CategoryOf, LowerAll, NamesOk, CategoriesOk;
    var r := Parse(categories, table, op).value;
    match r
    case All(on) => assert Text(categories, r) == if on then "+@all" else "-@all";
    case Category(on, cat) =>
      FoundCategory(categories, op[2..], 0);
      assert op == Sign(on) + "@" + op[2..];
      SameAfter(Sign(on) + "@", op[2..], categories[cat]);
    case Single(on, c) =>
      LookupName(table, op[1..]);
      assert op == Sign(on) + op[1..];
      SameAfter(Sign(on), op[1..], c.fullname);
    case FirstArg(c, arg) => ReadsOnlyArg(categories, table, op);
  }

  lemma ReadsOnlyArg(categories: seq<string>, table: seq<Command>, op: string)
    requires NamesOk(table) && Parse(categories, table, op).Some? && Parse(categories, table, op).value.FirstArg?
    ensures SameText(op, Text(categories, Parse(categories, table, op).value))
  {
    hide Lookup, LastBar, CategoryOf, LowerAll, NamesOk;
    var r := Parse(categories, table, op).value;
    var name := op[1..];
    var k := LastBar(name);
    var front, back := "+" + name[..k], "|" + r.arg;
    LookupName(table, name[..k]);
    assert name == name[..k] + back;
    assert op == front + back && Text(categories, r) == "+" + r.cmd.fullname + back;
    hide Parse, Text;
    SameAfter("+", name[..k], r.cmd.fullname);
    SameBefore(front, "+" + r.cmd.fullname, back);
  }

  lemma SameAfter(p: string, a: string, b: string)
    requires SameText(a, b)
    ensures SameText(p + a, p + b)
  {
    hide LowerAll;
    LowerConcat(p, a);
    LowerConcat(p, b);
  }

  lemma SameBefore(a: string, b: string, p: string)
    requires SameText(a, b)
    ensures SameText(a + p, b + p)
  {
    hide LowerAll;
    LowerConcat(a, p);
    LowerConcat(b, p);
  }

  /** How rules are written. */
  lemma Spelled(categories: seq<string>, table: seq<Command>, cat: nat, c: Command, d: Command, arg: string)
    requires NamesOk(table) && CategoriesOk(categories) && cat < CATEGORIES
    requires c in Nodes(table) && TakesArgs(table, d) && arg != "" && '|' !in arg
    ensures Parse(categories, table, "+@all") == Parse(categories, table, "allcommands") == Some(All(true))
    ensures Parse(categories, table, "-@all") == Parse(categories, table, "nocommands") == Some(All(false))
    ensures Parse(categories, table, "+@" + categories[cat]) == Some(Category(true, cat))
    ensures Parse(categories, table, "-@" + categories[cat]) == Some(Category(false, cat))
    ensures Parse(categories, table, "+" + c.fullname) == Some(Single(true, c))
    ensures Parse(categories, table, "-" + c.fullname) == Some(Single(false, c))
    ensures Parse(categories, table, "+" + d.name + "|" + arg) == Some(FirstArg(d, arg))
  {
    OldWords(categories, table);
    hide Parse, ParseAllow, Lookup, NamesOk, LowerAll;
    ReadsBack(categories, table, All(true));
    ReadsBack(categories, table, All(false));
    ReadsBack(categories, table, Category(true, cat));
    ReadsBack(categories, table, Category(false, cat));
    ReadsBack(categories, table, Single(true, c));
    ReadsBack(categories, table, Single(false, c));
    ReadsBack(categories, table, FirstArg(d, arg));
    TopName(table, d);
    assert Text(categories, All(true)) == "+@all" && Text(categories, All(false)) == "-@all";
    assert Text(categories, Category(true, cat)) == "+@" + categories[cat];
    assert Text(categories, Category(false, cat)) == "-@" + categories[cat];
  }

  lemma TopName(table: seq<Command>, c: Command)
    requires NamesOk(table) && c in table
    ensures c.fullname == c.name
  {}

  lemma OldWords(categories: seq<string>, table: seq<Command>)
    ensures Parse(categories, table, "allcommands") == Some(All(true))
    ensures Parse(categories, table, "nocommands") == Some(All(false))
  {
    DiffersAt("nocommands", "allcommands", 0);
    DiffersAt("nocommands", "+@all", 0);
  }

  // ---------------------------------------------------------------- the whole description

  function Texts(categories: seq<string>, rules: seq<Rule>): seq<string> {
    seq(|rules|, i requires 0 <= i < |rules| => Text(categories, rules[i]))
  }

  /** A description split at its spaces gives back the rules if and only if no first argument in
      it holds a space. */
  lemma DescriptionReadsBackIff(categories: seq<string>, table: seq<Command>, rules: seq<Rule>)
    requires NamesOk(table) && CategoriesOk(categories) && rules != []
    requires forall i :: 0 <= i < |rules| ==> Legal(table, rules[i])
    ensures Split(Join(Texts(categories, rules), ' '), ' ') == Texts(categories, rules)
       <==> forall i :: 0 <= i < |rules| && rules[i].FirstArg? ==> ' ' !in rules[i].arg
    ensures forall i :: 0 <= i < |rules| ==> Parse(categories, table, Texts(categories, rules)[i]) == Some(rules[i])
  {
    var ts := Texts(categories, rules);
    forall i | 0 <= i < |rules|
      ensures Parse(categories, table, ts[i]) == Some(rules[i])
      ensures ' ' in ts[i] <==> rules[i].FirstArg? && ' ' in rules[i].arg
      ensures ts[i] != ""
    {
      ReadsBack(categories, table, rules[i]);
      SpaceInText(categories, table, rules[i]);
    }
    SplitJoin(ts, ' ');
    JoinNonEmpty(ts, ' ');
  }

  /** A first argument with a space can be given to a command, and its description is then read
      back as something else. */
  lemma SpacedArgument(categories: seq<string>, table: seq<Command>, c: Command)
    requires NamesOk(table) && CategoriesOk(categories) && TakesArgs(table, c)
    ensures Parse(categories, table, "+" + c.fullname + "|a b") == Some(FirstArg(c, "a b"))
    ensures var rules := [All(false), FirstArg(c, "a b")];
      Split(Join(Texts(categories, rules), ' '), ' ') != Texts(categories, rules)
  {
    hide Parse, Lookup;
    var rules := [All(false), FirstArg(c, "a b")];
    DescriptionReadsBackIff(categories, table, rules);
    assert rules[1].FirstArg? && rules[1].arg[1] == ' ';
    assert Parse(categories, table, Texts(categories, rules)[1]) == Some(rules[1]);
    assert Texts(categories, rules)[1] == "+" + c.fullname + "|" + "a b" == "+" + c.fullname + "|a b";
  }

  lemma JoinNonEmpty(ts: seq<string>, sep: char)
    requires ts != [] && ts[0] != ""
    ensures Join(ts, sep) != ""
  {}

  lemma SpaceInText(categories: seq<string>, table: seq<Command>, r: Rule)
    requires NamesOk(table) && CategoriesOk(categories) && Legal(table, r)
    ensures ' ' in Text(categories, r) <==> r.FirstArg? && ' ' in r.arg
    ensures Text(categories, r) != ""
  {
    if r.Single? {
      var p := NodeCases(table, r.cmd);
      if r.cmd in table { assert Plain(r.cmd.name); } else { assert Plain(p.name) && Plain(r.cmd.name); }
    } else if r.FirstArg? {
      assert Plain(r.cmd.name);
    }
  }
}
