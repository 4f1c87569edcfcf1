/**
 Command permissions of a user: a bitmap over command identifiers, a flag for all commands, and
 lists of allowed first arguments. Rules change them; this module gives the meaning of a rule.
 */
module AclRules {

  /** A command of the command table, or a subcommand of one. */
  datatype Command = Command(name: string, fullname: string, id: nat, categories: set<nat>, isModule: bool,
      subs: seq<Command>)

  /** Size of the bitmap. Its last bit belongs to no command: it stands for commands of the future. */
  const BITS: nat := 1024
  const RESERVED: nat := 1023
  const CATEGORIES: nat := 21

  datatype Selector = Selector(bits: seq<bool>, all: bool, args: map<nat, seq<string>>)

  datatype Rule =
    | All(on: bool)
    | Category(on: bool, cat: nat)
    | Single(on: bool, cmd: Command)
    | FirstArg(cmd: Command, arg: string)

  // ---------------------------------------------------------------- the command table

  function Ids(cmds: seq<Command>): set<nat>
    decreases cmds
  {
    if cmds == [] then {} else {cmds[0].id} + Ids(cmds[0].subs) + Ids(cmds[1..])
  }

  function Nodes(cmds: seq<Command>): set<Command>
    decreases cmds
  {
    if cmds == [] then {} else {cmds[0]} + Nodes(cmds[0].subs) + Nodes(cmds[1..])
  }

  ghost predicate Distinct(cmds: seq<Command>)
    decreases cmds
  {
    cmds == [] ||
    var c, rest := cmds[0], cmds[1..];
    && c.id !in Ids(c.subs) && c.id !in Ids(rest) && Ids(c.subs) !! Ids(rest)
    && Distinct(c.subs) && Distinct(rest)
  }

  /** Identifiers are unique, the reserved one is free, and subcommands have no subcommands. */
  ghost predicate TableOk(table: seq<Command>) {
    && Distinct(table)
    && RESERVED !in Ids(table)
    && forall c, s :: c in table && s in c.subs ==> s.subs == []
  }

  // ---------------------------------------------------------------- what a rule does

  function SetBits(bits: seq<bool>, ids: set<nat>, on: bool): seq<bool> {
    seq(|bits|, i requires 0 <= i < |bits| => if i in ids then on else bits[i])
  }

  /** Allow or deny `ids` and forget the first arguments of `resets`. Identifiers past the end of
      the bitmap are ignored; a denied one inside it ends the permission for all commands. */
  function Change(s: Selector, ids: set<nat>, resets: set<nat>, on: bool): Selector {
    Selector(SetBits(s.bits, ids, on),
             s.all && (on || forall id :: id in ids ==> id >= |s.bits|),
             s.args - resets)
  }

  /** A container command in the category takes its subcommands along; module commands are left alone. */
  function Touched(cmds: seq<Command>, cat: nat): set<nat>
    decreases cmds
  {
    if cmds == [] then {}
    else
      var c := cmds[0];
      (if c.isModule then {} else (if cat in c.categories then Family(c) else {}) + Touched(c.subs, cat))
      + Touched(cmds[1..], cat)
  }

  function Resets(cmds: seq<Command>, cat: nat): set<nat>
    decreases cmds
  {
    if cmds == [] then {}
    else
      var c := cmds[0];
      (if c.isModule then {} else (if cat in c.categories then {c.id} else {}) + Resets(c.subs, cat))
      + Resets(cmds[1..], cat)
  }

  /** A command and its direct subcommands. */
  function Family(c: Command): set<nat> { {c.id} + set s | s in c.subs :: s.id }

  function Args(s: Selector, id: nat): seq<string> { if id in s.args then s.args[id] else [] }

  function Lower(c: char): char { if 'A' <= c <= 'Z' then (c as int + 32) as char else c }

  function LowerAll(t: string): string { seq(|t|, i requires 0 <= i < |t| => Lower(t[i])) }

  predicate SameText(a: string, b: string) { LowerAll(a) == LowerAll(b) }

  predicate Mentions(args: seq<string>, arg: string) { exists i :: 0 <= i < |args| && SameText(args[i], arg) }

  function AddArg(args: seq<string>, arg: string): seq<string> { if Mentions(args, arg) then args else args + [arg] }

  function Apply(table: seq<Command>, s: Selector, r: Rule): Selector {
    match r
    case All(on) => Selector(seq(|s.bits|, _ => on), on, map[])
    case Category(on, cat) => Change(s, Touched(table, cat), Resets(table, cat), on)
    case Single(on, c) => Change(s, Family(c), {c.id}, on)
    case FirstArg(c, arg) => s.(args := s.args[c.id := AddArg(Args(s, c.id), arg)])
  }

  function Nothing(): Selector { Selector(seq(BITS, _ => false), false, map[]) }

  function ApplyAll(table: seq<Command>, s: Selector, rules: seq<Rule>): Selector {
    if rules == [] then s else Apply(table, ApplyAll(table, s, rules[..|rules| - 1]), rules[|rules| - 1])
  }

  /** Whether a command may run, given its first argument, if any. */
  predicate Allowed(s: Selector, c: Command, noAuth: bool, arg: seq<string>) {
    s.all || noAuth || (c.id < |s.bits| && s.bits[c.id]) || (arg != [] && Mentions(Args(s, c.id), arg[0]))
  }

  // ---------------------------------------------------------------- legal rules and reachable selectors

  /** Only commands outside any container, and without subcommands, take first arguments. */
  predicate TakesArgs(table: seq<Command>, c: Command) { c in table && c.subs == [] && c.id < BITS }

  predicate Legal(table: seq<Command>, r: Rule) {
    match r
    case All(_) => true
    case Category(_, cat) => cat < CATEGORIES
    case Single(_, c) => c in Nodes(table)
    case FirstArg(c, arg) => TakesArgs(table, c) && arg != "" && '|' !in arg
  }

  ghost predicate NoRepeats(args: seq<string>) {
    forall i, j :: 0 <= i < j < |args| ==> !SameText(args[i], args[j])
  }

  /** What holds of every selector that rules can produce. */
  ghost predicate StateOk(table: seq<Command>, s: Selector) {
    && |s.bits| == BITS
    && (forall id :: 0 <= id < BITS && id !in Ids(table) ==> s.bits[id] == s.bits[RESERVED])
    && (s.all ==> forall id :: 0 <= id < BITS ==> s.bits[id])
    && (forall id :: id in s.args ==> ArgsOk(table, id, s.args[id]))
  }

  ghost predicate ArgsOk(table: seq<Command>, id: nat, args: seq<string>) {
    && (exists c :: TakesArgs(table, c) && c.id == id)
    && args != [] && NoRepeats(args)
    && forall i :: 0 <= i < |args| ==> args[i] != "" && '|' !in args[i]
  }

  lemma {:induction false} NodeIds(cmds: seq<Command>, c: Command)
    requires c in Nodes(cmds)
    ensures c.id in Ids(cmds) && Family(c) <= Ids(cmds)
    decreases cmds
  {
    if c == cmds[0] {
      forall s | s in c.subs ensures s.id in Ids(c.subs) { MemberIds(c.subs, s); }
    } else if c in Nodes(cmds[0].subs) {
      NodeIds(cmds[0].subs, c);
    } else {
      NodeIds(cmds[1..], c);
    }
  }

  lemma {:induction false} MemberIds(cmds: seq<Command>, c: Command)
    requires c in cmds
    ensures c.id in Ids(cmds) && c in Nodes(cmds)
    decreases |cmds|
  {
    if c != cmds[0] { MemberIds(cmds[1..], c); }
  }

  lemma {:induction false} TouchedIds(cmds: seq<Command>, cat: nat)
    ensures Touched(cmds, cat) <= Ids(cmds) && Resets(cmds, cat) <= Touched(cmds, cat)
    decreases cmds
  {
    if cmds != [] {
      MemberIds(cmds, cmds[0]);
      NodeIds(cmds, cmds[0]);
      TouchedIds(cmds[0].subs, cat);
      TouchedIds(cmds[1..], cat);
    }
  }

  /** Every rule keeps the selector in the reachable shape, and only the rules for all commands
      change the reserved bit. */
  lemma ApplyKeeps(table: seq<Command>, s: Selector, r: Rule)
    requires TableOk(table) && StateOk(table, s) && Legal(table, r)
    ensures StateOk(table, Apply(table, s, r))
    ensures !r.All? ==> Apply(table, s, r).bits[RESERVED] == s.bits[RESERVED]
  {
    match r
    case All(_) =>
    case Category(_, cat) => TouchedIds(table, cat);
    case Single(_, c) => NodeIds(table, c);
    case FirstArg(c, arg) =>
      var args := AddArg(Args(s, c.id), arg);
      assert ArgsOk(table, c.id, args);
  }

  lemma {:induction false} Reachable(table: seq<Command>, rules: seq<Rule>)
    requires TableOk(table) && forall i :: 0 <= i < |rules| ==> Legal(table, rules[i])
    ensures StateOk(table, ApplyAll(table, Nothing(), rules))
  {
    if rules != [] {
      var k := |rules| - 1;
      Reachable(table, rules[..k]);
      ApplyKeeps(table, ApplyAll(table, Nothing(), rules[..k]), rules[k]);
    }
  }

  // ---------------------------------------------------------------- selectors nobody can tell apart

  /** The same bits, and the same first arguments wherever they are looked at. */
  ghost predicate Same(s: Selector, t: Selector) {
    s.bits == t.bits && forall id :: 0 <= id < |s.bits| && !s.bits[id] ==> Args(s, id) == Args(t, id)
  }

  predicate Overflows(c: Command) { c.id >= BITS }

  /** Two such selectors decide alike about every command that has a bit, and about all commands
      if and only if they agree on the flag or every command has a bit. */
  lemma SameDecides(table: seq<Command>, s: Selector, t: Selector)
    requires StateOk(table, s) && StateOk(table, t) && Same(s, t)
    ensures forall c: Command, noAuth, arg :: !Overflows(c) ==> Allowed(s, c, noAuth, arg) == Allowed(t, c, noAuth, arg)
    ensures (forall c: Command, noAuth, arg :: c in Nodes(table) ==>
        Allowed(s, c, noAuth, arg) == Allowed(t, c, noAuth, arg))
       <==> (s.all == t.all || forall c :: c in Nodes(table) ==> !Overflows(c))
  {
    forall c: Command, noAuth, arg | Overflows(c)
      ensures Allowed(s, c, noAuth, arg) == (s.all || noAuth)
      ensures Allowed(t, c, noAuth, arg) == (t.all || noAuth)
    {
      assert c.id !in s.args && c.id !in t.args;
    }
    if c :| c in Nodes(table) && Overflows(c) && s.all != t.all {
      assert Allowed(s, c, false, []) != Allowed(t, c, false, []);
    }
  }

  lemma {:induction false} SubIdsNotTop(table: seq<Command>, c: Command, s: Command, top: Command)
    requires Distinct(table) && c in table && s in c.subs && top in table
    ensures s.id != top.id
    decreases |table|
  {
    MemberIds(c.subs, s);
    if c == table[0] && top != table[0] {
      MemberIds(table[1..], top);
    } else if c != table[0] && top == table[0] {
      MemberIds(table[1..], c);
      NodeIds(table[1..], c);
    } else if c != table[0] {
      SubIdsNotTop(table[1..], c, s, top);
    } else {
      assert top.id !in Ids(top.subs);
    }
  }

  lemma NoArgsOfSubs(table: seq<Command>, s: Selector, c: Command, sub: Command)
    requires TableOk(table) && StateOk(table, s) && c in table && sub in c.subs
    ensures sub.id !in s.args
  {
    if sub.id in s.args {
      assert ArgsOk(table, sub.id, s.args[sub.id]);
      var top :| TakesArgs(table, top) && top.id == sub.id;
      SubIdsNotTop(table, c, sub, top);
    }
  }

  lemma {:induction false} ContainersOnTop(table: seq<Command>, c: Command)
    requires c in Nodes(table) && c.subs != []
    requires forall p, s :: p in table && s in p.subs ==> s.subs == []
    ensures c in table
    decreases |table|
  {
    if c != table[0] {
      if c in Nodes(table[0].subs) {
        LeafNodes(table[0].subs, c);
      } else {
        ContainersOnTop(table[1..], c);
      }
    }
  }

  lemma {:induction false} LeafNodes(cmds: seq<Command>, c: Command)
    requires c in Nodes(cmds) && forall s :: s in cmds ==> s.subs == []
    ensures c.subs == [] && c in cmds
    decreases |cmds|
  {
    if c != cmds[0] { LeafNodes(cmds[1..], c); }
  }

  lemma {:induction false} LeavesReset(cmds: seq<Command>, cat: nat)
    requires forall s :: s in cmds ==> s.subs == []
    ensures Touched(cmds, cat) == Resets(cmds, cat)
    decreases |cmds|
  {
    if cmds != [] { LeavesReset(cmds[1..], cat); }
  }

  /** A category rule keeps the first arguments of no command it touches, except that
      subcommands, which have none, are not reset with their container. */
  lemma {:induction false} UnresetAreSubs(table: seq<Command>, cat: nat, id: nat) returns (c: Command, sub: Command)
    requires forall p, s :: p in table && s in p.subs ==> s.subs == []
    requires id in Touched(table, cat) && id !in Resets(table, cat)
    ensures c in table && sub in c.subs && sub.id == id
    decreases |table|
  {
    LeavesReset(table[0].subs, cat);
    if id in Touched(table[1..], cat) {
      c, sub := UnresetAreSubs(table[1..], cat, id);
    } else {
      c := table[0];
      sub :| sub in c.subs && sub.id == id;
    }
  }

  /** Removing permissions leaves no stale first arguments in view. */
  lemma ChangeSame(table: seq<Command>, s: Selector, t: Selector, ids: set<nat>, resets: set<nat>, on: bool)
    requires StateOk(table, s) && StateOk(table, t) && Same(s, t)
    requires forall id :: id in ids && id !in resets ==> id !in s.args && id !in t.args
    ensures Same(Change(s, ids, resets, on), Change(t, ids, resets, on))
  {
    var s', t' := Change(s, ids, resets, on), Change(t, ids, resets, on);
    assert s'.bits == t'.bits;
    forall id | 0 <= id < |s'.bits| && !s'.bits[id]
      ensures Args(s', id) == Args(t', id)
    {
      if id !in resets && id !in ids { assert !s.bits[id]; }
    }
  }

  lemma SameKept(table: seq<Command>, s: Selector, t: Selector, r: Rule)
    requires TableOk(table) && StateOk(table, s) && StateOk(table, t) && Same(s, t) && Legal(table, r)
    ensures Same(Apply(table, s, r), Apply(table, t, r))
  {
    match r
    case All(_) =>
    case Category(on, cat) =>
      forall id | id in Touched(table, cat) && id !in Resets(table, cat)
        ensures id !in s.args && id !in t.args
      {
        var c, sub := UnresetAreSubs(table, cat, id);
        NoArgsOfSubs(table, s, c, sub);
        NoArgsOfSubs(table, t, c, sub);
      }
      ChangeSame(table, s, t, Touched(table, cat), Resets(table, cat), on);
    case Single(on, c) =>
      forall sub | sub in c.subs
        ensures sub.id !in s.args && sub.id !in t.args
      {
        ContainersOnTop(table, c);
        NoArgsOfSubs(table, s, c, sub);
        NoArgsOfSubs(table, t, c, sub);
      }
      ChangeSame(table, s, t, Family(c), {c.id}, on);
    case FirstArg(_, _) =>
  }

  /** No sequence of further rules tells the two apart, at any of its steps. */
  lemma {:induction false} SameForever(table: seq<Command>, s: Selector, t: Selector, rules: seq<Rule>)
    requires TableOk(table) && StateOk(table, s) && StateOk(table, t) && Same(s, t)
    requires forall i :: 0 <= i < |rules| ==> Legal(table, rules[i])
    ensures var s', t' := ApplyAll(table, s, rules), ApplyAll(table, t, rules);
      && StateOk(table, s') && StateOk(table, t') && Same(s', t')
      && forall c: Command, noAuth, arg :: !Overflows(c) ==> Allowed(s', c, noAuth, arg) == Allowed(t', c, noAuth, arg)
  {
    var s', t' := ApplyAll(table, s, rules), ApplyAll(table, t, rules);
    if rules != [] {
      var k := |rules| - 1;
      SameForever(table, s, t, rules[..k]);
      var s0, t0 := ApplyAll(table, s, rules[..k]), ApplyAll(table, t, rules[..k]);
      ApplyKeeps(table, s0, rules[k]);
      ApplyKeeps(table, t0, rules[k]);
      SameKept(table, s0, t0, rules[k]);
    }
    SameDecides(table, s', t');
  }

  // ---------------------------------------------------------------- the order of the table

  lemma {:induction false} TouchedHas(cmds: seq<Command>, c: Command, cat: nat)
    requires c in cmds
    ensures Touched([c], cat) <= Touched(cmds, cat) && Resets([c], cat) <= Resets(cmds, cat)
    decreases |cmds|
  {
    if c != cmds[0] { TouchedHas(cmds[1..], c, cat); }
  }

  lemma {:induction false} TouchedWithin(a: seq<Command>, b: seq<Command>, cat: nat)
    requires forall c :: c in a ==> c in b
    ensures Touched(a, cat) <= Touched(b, cat) && Resets(a, cat) <= Resets(b, cat)
    decreases |a|
  {
    if a != [] {
      TouchedHas(b, a[0], cat);
      TouchedWithin(a[1..], b, cat);
      assert [a[0]][1..] == [];
    }
  }

  /** The dictionary of commands may be walked in any order: the rules mean the same. */
  lemma {:induction false} OrderIrrelevant(a: seq<Command>, b: seq<Command>, s: Selector, rules: seq<Rule>)
    requires forall c :: c in a <==> c in b
    ensures ApplyAll(a, s, rules) == ApplyAll(b, s, rules)
    decreases |rules|
  {
    if rules != [] {
      var k := |rules| - 1;
      OrderIrrelevant(a, b, s, rules[..k]);
      if rules[k].Category? {
        TouchedWithin(a, b, rules[k].cat);
        TouchedWithin(b, a, rules[k].cat);
      }
    }
  }

  // ---------------------------------------------------------------- command identifiers

  /** Hands out the identifiers: the same name keeps its identifier, different names never share
      one, and the reserved one is left out. */
  class CommandIds {
    var ids: map<string, nat>
    var next: nat

    ghost predicate Valid()
      reads this
    {
      && next != RESERVED
      && (forall n :: n in ids ==> ids[n] < next && ids[n] != RESERVED)
      && forall m, n :: m in ids && n in ids && ids[m] == ids[n] ==> m == n
    }

    constructor ()
      ensures Valid() && ids == map[]
    {
      ids, next := map[], 0;
    }

    method GetCommandId(name: string) returns (id: nat)
      requires Valid()
      modifies this
      ensures Valid() && id != RESERVED
      ensures LowerAll(name) in ids && ids[LowerAll(name)] == id
      ensures ids == old(ids) || (LowerAll(name) !in old(ids) && ids == old(ids)[LowerAll(name) := id]
          && id !in old(ids).Values)
    {
      var lower := LowerAll(name);
      if lower in ids { return ids[lower]; }
      ids := ids[lower := next];
      id := next;
      next := next + 1;
      if next == RESERVED { next := next + 1; }
    }
  }
}
