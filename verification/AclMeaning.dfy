/** What rules mean for the commands of the table: who may run what after any sequence of rules. */
module AclMeaning {
  import opened AclRules

  // ---------------------------------------------------------------- which commands a category takes in

  /** The command is in the category, or directly under a container that is; commands of modules are
      only taken in by their container. */
  ghost predicate Covers(table: seq<Command>, cat: nat, d: Command) {
    exists c :: c in table && CoversUnder(c, cat, d)
  }

  ghost predicate CoversUnder(c: Command, cat: nat, d: Command) {
    && !c.isModule
    && (if d == c then cat in c.categories
        else d in c.subs && (cat in c.categories || (!d.isModule && cat in d.categories)))
  }

  /** Identifiers tell commands apart. */
  lemma {:induction false} SameId(cmds: seq<Command>, c: Command, d: Command)
    requires Distinct(cmds) && c in Nodes(cmds) && d in Nodes(cmds) && c.id == d.id
    ensures c == d
    decreases cmds
  {
    var first, rest := cmds[0], cmds[1..];
    forall x | x in Nodes(first.subs) ensures x.id in Ids(first.subs) { NodeIds(first.subs, x); }
    forall x | x in Nodes(rest) ensures x.id in Ids(rest) { NodeIds(rest, x); }
    if c in Nodes(first.subs) && d in Nodes(first.subs) {
      SameId(first.subs, c, d);
    } else if c in Nodes(rest) && d in Nodes(rest) {
      SameId(rest, c, d);
    }
  }

  lemma {:induction false} TopOrSub(table: seq<Command>, d: Command) returns (c: Command)
    requires d in Nodes(table) && forall p, s :: p in table && s in p.subs ==> s.subs == []
    ensures c in table && (d == c || d in c.subs)
    decreases |table|
  {
    c := table[0];
    if d != c {
      if d in Nodes(c.subs) { LeafNodes(c.subs, d); } else { c := TopOrSub(table[1..], d); }
    }
  }

  lemma {:induction false} LeafTouched(cmds: seq<Command>, cat: nat, id: nat)
    requires forall s :: s in cmds ==> s.subs == []
    ensures id in Touched(cmds, cat) <==> LeafIn(cmds, cat, id)
    decreases |cmds|
  {
    if cmds != [] {
      LeafTouched(cmds[1..], cat, id);
      assert Family(cmds[0]) == {cmds[0].id};
      assert forall i :: 0 < i < |cmds| ==> cmds[i] == cmds[1..][i - 1];
      assert forall i :: 0 <= i < |cmds[1..]| ==> cmds[1..][i] == cmds[i + 1];
    }
  }

  ghost predicate LeafIn(cmds: seq<Command>, cat: nat, id: nat) {
    exists i :: 0 <= i < |cmds| && !cmds[i].isModule && cat in cmds[i].categories && cmds[i].id == id
  }

  /** The identifier is taken in by a top-level command of the table. */
  ghost predicate TouchedUnder(c: Command, cat: nat, id: nat) {
    && !c.isModule
    && if cat in c.categories then id in Family(c) else LeafIn(c.subs, cat, id)
  }

  lemma {:induction false} TouchedIff(table: seq<Command>, cat: nat, id: nat)
    requires forall p, s :: p in table && s in p.subs ==> s.subs == []
    ensures id in Touched(table, cat) <==> exists c :: c in table && TouchedUnder(c, cat, id)
    decreases |table|
  {
    if table != [] {
      var c := table[0];
      TouchedIff(table[1..], cat, id);
      LeafTouched(c.subs, cat, id);
      assert forall x :: x in table <==> x == c || x in table[1..];
      assert LeafIn(c.subs, cat, id) ==> id in Family(c);
      assert id in Touched(table, cat) <==> TouchedUnder(c, cat, id) || id in Touched(table[1..], cat);
    }
  }

  lemma UnderIff(table: seq<Command>, c: Command, cat: nat, d: Command)
    requires TableOk(table) && c in table && d in Nodes(table)
    ensures TouchedUnder(c, cat, d.id) <==> CoversUnder(c, cat, d)
  {
    MemberIds(table, c);
    if TouchedUnder(c, cat, d.id) {
      if cat in c.categories {
        if d.id == c.id {
          SameId(table, c, d);
        } else {
          var s :| s in c.subs && s.id == d.id;
          SubIsNode(table, c, s);
          SameId(table, s, d);
        }
      } else {
        var i :| 0 <= i < |c.subs| && !c.subs[i].isModule && cat in c.subs[i].categories && c.subs[i].id == d.id;
        SubIsNode(table, c, c.subs[i]);
        SameId(table, c.subs[i], d);
        assert c !in c.subs by { if c in c.subs { MemberIds(c.subs, c); NoSelf(table, c); } }
      }
    }
  }

  lemma {:induction false} SubIsNode(cmds: seq<Command>, c: Command, s: Command)
    requires c in cmds && s in c.subs
    ensures s in Nodes(cmds)
    decreases |cmds|
  {
    if c == cmds[0] { MemberIds(c.subs, s); } else { SubIsNode(cmds[1..], c, s); }
  }

  lemma {:induction false} NoSelf(cmds: seq<Command>, c: Command)
    requires Distinct(cmds) && c in cmds
    ensures c.id !in Ids(c.subs)
    decreases |cmds|
  {
    if c != cmds[0] { NoSelf(cmds[1..], c); }
  }

  lemma TouchedIsCovered(table: seq<Command>, cat: nat, d: Command)
    requires TableOk(table) && d in Nodes(table)
    ensures d.id in Touched(table, cat) <==> Covers(table, cat, d)
  {
    TouchedIff(table, cat, d.id);
    forall c | c in table ensures TouchedUnder(c, cat, d.id) <==> CoversUnder(c, cat, d) { UnderIff(table, c, cat, d); }
  }

  // ---------------------------------------------------------------- one rule

  /** Changing a set of identifiers decides exactly about these. */
  lemma ChangeDecides(table: seq<Command>, s: Selector, ids: set<nat>, resets: set<nat>, on: bool, d: Command,
                      arg: seq<string>)
    requires StateOk(table, s) && !Overflows(d) && resets <= ids
    requires d.id in ids && d.id !in resets ==> d.id !in s.args
    ensures Allowed(Change(s, ids, resets, on), d, false, arg)
         <==> if d.id in ids then on else Allowed(s, d, false, arg)
  {}

  lemma ArgsUntouched(table: seq<Command>, s: Selector, cat: nat, d: Command)
    requires TableOk(table) && StateOk(table, s) && d.id in Touched(table, cat) && d.id !in Resets(table, cat)
    ensures d.id !in s.args
  {
    var c, sub := UnresetAreSubs(table, cat, d.id);
    NoArgsOfSubs(table, s, c, sub);
  }

  /** A category rule allows or denies exactly the commands the category takes in, with any first
      argument; every other command keeps every decision. */
  lemma CategoryRule(table: seq<Command>, s: Selector, on: bool, cat: nat, d: Command, arg: seq<string>)
    requires TableOk(table) && StateOk(table, s) && d in Nodes(table) && !Overflows(d)
    ensures Allowed(Apply(table, s, Category(on, cat)), d, false, arg)
         <==> if Covers(table, cat, d) then on else Allowed(s, d, false, arg)
  {
    hide Touched, Resets, Covers, StateOk, Allowed, Change, Nodes;
    TouchedIds(table, cat);
    TouchedIsCovered(table, cat, d);
    if d.id in Touched(table, cat) && d.id !in Resets(table, cat) { ArgsUntouched(table, s, cat, d); }
    ChangeDecides(table, s, Touched(table, cat), Resets(table, cat), on, d, arg);
  }

  /** A rule for one command allows or denies it and its subcommands, and no other command. */
  lemma SingleRule(table: seq<Command>, s: Selector, on: bool, c: Command, d: Command, arg: seq<string>)
    requires TableOk(table) && StateOk(table, s) && c in Nodes(table) && d in Nodes(table) && !Overflows(d)
    ensures Allowed(Apply(table, s, Single(on, c)), d, false, arg)
         <==> if d == c || d in c.subs then on else Allowed(s, d, false, arg)
  {
    hide StateOk, Allowed, Change, Nodes;
    FamilyIs(table, c, d);
    if d.id in Family(c) && d.id != c.id {
      ContainersOnTop(table, c);
      NoArgsOfSubs(table, s, c, d);
    }
    ChangeDecides(table, s, Family(c), {c.id}, on, d, arg);
  }

  lemma FamilyIs(table: seq<Command>, c: Command, d: Command)
    requires TableOk(table) && c in Nodes(table) && d in Nodes(table)
    ensures d.id in Family(c) <==> d == c || d in c.subs
  {
    if d.id == c.id {
      SameId(table, c, d);
    } else if d.id in Family(c) {
      var s :| s in c.subs && s.id == d.id;
      ContainersOnTop(table, c);
      SubIsNode(table, c, s);
      SameId(table, s, d);
    }
  }

  /** A first argument is allowed for its command, in any case of letters, and nothing else changes. */
  lemma FirstArgRule(table: seq<Command>, s: Selector, c: Command, a: string, d: Command, arg: seq<string>)
    requires TableOk(table) && StateOk(table, s) && TakesArgs(table, c) && d in Nodes(table)
    ensures Allowed(Apply(table, s, FirstArg(c, a)), d, false, arg)
         <==> Allowed(s, d, false, arg) || (d == c && arg != [] && SameText(a, arg[0]))
  {
    MemberIds(table, c);
    if d.id == c.id {
      SameId(table, c, d);
      if arg != [] { AddedArg(Args(s, c.id), a, arg[0]); }
    }
  }

  lemma AddedArg(args: seq<string>, a: string, x: string)
    ensures Mentions(AddArg(args, a), x) <==> Mentions(args, x) || SameText(a, x)
  {
    if Mentions(args, a) {
      var i :| 0 <= i < |args| && SameText(args[i], a);
      assert SameText(a, x) ==> SameText(args[i], x);
    } else {
      var more := args + [a];
      assert more[|args|] == a && forall i :: 0 <= i < |args| ==> more[i] == args[i];
    }
  }

  /** Equal but for the case of the letters A to Z. */
  lemma SameTextIff(a: string, b: string)
    ensures SameText(a, b) <==> |a| == |b| && forall i :: 0 <= i < |a| ==> SameLetter(a[i], b[i])
  {
    if SameText(a, b) {
      assert |LowerAll(a)| == |LowerAll(b)|;
      forall i | 0 <= i < |a| ensures SameLetter(a[i], b[i]) { assert LowerAll(a)[i] == LowerAll(b)[i]; }
    } else if |a| == |b| {
      var i :| 0 <= i < |a| && LowerAll(a)[i] != LowerAll(b)[i];
      assert !SameLetter(a[i], b[i]);
    }
  }

  predicate SameLetter(x: char, y: char) {
    || x == y
    || ('A' <= x <= 'Z' && y as int - 'a' as int == x as int - 'A' as int)
    || ('A' <= y <= 'Z' && x as int - 'a' as int == y as int - 'A' as int)
  }

  /** A command past the end of the bitmap may run only while all commands may. A rule that denies some
      commands ends that exactly if one of them has a bit. */
  lemma OverflowingCommand(table: seq<Command>, s: Selector, r: Rule, d: Command, arg: seq<string>)
    requires TableOk(table) && StateOk(table, s) && Legal(table, r) && d in Nodes(table) && Overflows(d)
    ensures Allowed(Apply(table, s, r), d, false, arg) <==>
      if r.All? then r.on else Allowed(s, d, false, arg) && !DeniesBit(table, r)
  {
    hide Nodes, Covers;
    assert d.id !in s.args;
    match r
    case All(_) =>
    case Category(on, cat) =>
      TouchedIds(table, cat);
      forall id | id in Touched(table, cat)
        ensures exists c :: c in Nodes(table) && c.id == id && Covers(table, cat, c)
      {
        var c := NodeOf(table, id);
        TouchedIsCovered(table, cat, c);
      }
      forall c | c in Nodes(table) && Covers(table, cat, c) ensures c.id in Touched(table, cat) {
        TouchedIsCovered(table, cat, c);
      }
    case Single(on, c) =>
      forall id | id in Family(c) ensures exists x :: x in Nodes(table) && x.id == id && (x == c || x in c.subs) {
        NodeIds(table, c);
        var x := NodeOf(table, id);
        FamilyIs(table, c, x);
      }
      forall x | x in Nodes(table) && (x == c || x in c.subs) ensures x.id in Family(c) { FamilyIs(table, c, x); }
    case FirstArg(c, a) =>
  }

  /** The rule denies some command that has a bit. */
  ghost predicate DeniesBit(table: seq<Command>, r: Rule) {
    exists c :: c in Nodes(table) && !Overflows(c) && Denies(table, r, c)
  }

  lemma {:induction false} NodeOf(cmds: seq<Command>, id: nat) returns (c: Command)
    requires id in Ids(cmds)
    ensures c in Nodes(cmds) && c.id == id
    decreases cmds
  {
    if id == cmds[0].id {
      c := cmds[0];
    } else if id in Ids(cmds[0].subs) {
      c := NodeOf(cmds[0].subs, id);
    } else {
      c := NodeOf(cmds[1..], id);
    }
  }

  // ---------------------------------------------------------------- all rules

  ghost predicate Mentioned(table: seq<Command>, r: Rule, d: Command) {
    match r
    case All(_) => true
    case Category(_, cat) => Covers(table, cat, d)
    case Single(_, c) => d == c || d in c.subs
    case FirstArg(_, _) => false
  }

  ghost predicate Denies(table: seq<Command>, r: Rule, d: Command) {
    !r.FirstArg? && !r.on && Mentioned(table, r, d)
  }

  ghost predicate Grants(table: seq<Command>, r: Rule, d: Command, arg: seq<string>) {
    if r.FirstArg? then d == r.cmd && arg != [] && SameText(r.arg, arg[0]) else r.on && Mentioned(table, r, d)
  }

  /** Some rule grants it and no later one denies it. */
  ghost predicate Granted(table: seq<Command>, rules: seq<Rule>, d: Command, arg: seq<string>) {
    exists i :: 0 <= i < |rules| && Grants(table, rules[i], d, arg)
      && forall j :: i < j < |rules| ==> !Denies(table, rules[j], d)
  }

  lemma RuleDecides(table: seq<Command>, s: Selector, r: Rule, d: Command, arg: seq<string>)
    requires TableOk(table) && StateOk(table, s) && Legal(table, r) && d in Nodes(table) && !Overflows(d)
    ensures Allowed(Apply(table, s, r), d, false, arg)
         <==> Grants(table, r, d, arg) || (Allowed(s, d, false, arg) && !Denies(table, r, d))
  {
    match r
    case All(_) =>
    case Category(on, cat) => hide *; CategoryMeans(table, s, on, cat, d, arg);
    case Single(on, c) => SingleRule(table, s, on, c, d, arg);
    case FirstArg(c, a) => FirstArgRule(table, s, c, a, d, arg);
  }

  lemma CategoryMeans(table: seq<Command>, s: Selector, on: bool, cat: nat, d: Command, arg: seq<string>)
    requires TableOk(table) && StateOk(table, s) && d in Nodes(table) && !Overflows(d)
    ensures var r := Category(on, cat);
      Allowed(Apply(table, s, r), d, false, arg) <==>
      Grants(table, r, d, arg) || (Allowed(s, d, false, arg) && !Denies(table, r, d))
  {
    hide Apply, Covers, Nodes, StateOk, Allowed, TableOk;
    CategoryRule(table, s, on, cat, d, arg);
  }

  lemma GrantedMore(table: seq<Command>, rules: seq<Rule>, d: Command, arg: seq<string>)
    requires rules != []
    ensures var k := |rules| - 1;
      Granted(table, rules, d, arg) <==>
      Grants(table, rules[k], d, arg) || (Granted(table, rules[..k], d, arg) && !Denies(table, rules[k], d))
  {
    hide Grants, Denies;
    var k := |rules| - 1;
    var front := rules[..k];
    assert forall i :: 0 <= i < k ==> front[i] == rules[i];
    if Granted(table, rules, d, arg) && !Grants(table, rules[k], d, arg) {
      var i :| 0 <= i < |rules| && Grants(table, rules[i], d, arg)
        && forall j :: i < j < |rules| ==> !Denies(table, rules[j], d);
      assert Grants(table, front[i], d, arg);
      assert !Denies(table, rules[k], d);
    } else if Granted(table, front, d, arg) && !Denies(table, rules[k], d) {
      var i :| 0 <= i < |front| && Grants(table, front[i], d, arg)
        && forall j :: i < j < |front| ==> !Denies(table, front[j], d);
      assert Grants(table, rules[i], d, arg);
    }
  }

  /** The main result: after any sequence of rules a command with a bit may run, with a given first
      argument or none, if and only if some rule grants it and no later rule denies it. */
  lemma {:induction false} RulesDecide(table: seq<Command>, rules: seq<Rule>, d: Command, arg: seq<string>)
    requires TableOk(table) && (forall i :: 0 <= i < |rules| ==> Legal(table, rules[i]))
    requires d in Nodes(table) && !Overflows(d)
    ensures Allowed(ApplyAll(table, Nothing(), rules), d, false, arg) <==> Granted(table, rules, d, arg)
  {
    hide Apply, Allowed, Legal, TableOk, StateOk, Nodes, Granted, Grants, Denies, Nothing;
    if rules == [] {
      NothingAllowed(table, d, arg);
    } else {
      var k := |rules| - 1;
      Reachable(table, rules[..k]);
      RulesDecide(table, rules[..k], d, arg);
      RuleDecides(table, ApplyAll(table, Nothing(), rules[..k]), rules[k], d, arg);
      GrantedMore(table, rules, d, arg);
    }
  }

  lemma NothingAllowed(table: seq<Command>, d: Command, arg: seq<string>)
    ensures !Allowed(Nothing(), d, false, arg) && !Granted(table, [], d, arg)
  {}
}
