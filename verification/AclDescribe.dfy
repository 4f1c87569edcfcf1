/**
 The selector object, changed in place by rules, and the describer that finds a short list of
 rules for it.
 */
module AclDescribe {
  import opened AclRules

  // ---------------------------------------------------------------- composing changes

  lemma ChangeTwice(s: Selector, a: set<nat>, ra: set<nat>, b: set<nat>, rb: set<nat>, on: bool)
    ensures Change(Change(s, a, ra, on), b, rb, on) == Change(s, a + b, ra + rb, on)
  {
    var x, y := Change(Change(s, a, ra, on), b, rb, on), Change(s, a + b, ra + rb, on);
    assert x.bits == y.bits;
    assert x.args == y.args;
  }

  lemma ChangeNothing(s: Selector, on: bool)
    ensures Change(s, {}, {}, on) == s
  {
    assert Change(s, {}, {}, on).bits == s.bits;
  }

  class AclSelector {
    var allowed: array<bool>
    var all: bool
    var args: map<nat, seq<string>>

    ghost function Value(): Selector
      reads this, allowed
    {
      Selector(allowed[..], all, args)
    }

    constructor ()
      ensures Value() == Nothing() && fresh(allowed)
    {
      allowed := new bool[BITS](_ => false);
      all := false;
      args := map[];
      new;
      assert allowed[..] == Nothing().bits;
    }

    method SetCommandBit(id: nat, on: bool)
      modifies this`all, allowed
      ensures Value() == Change(old(Value()), {id}, {}, on)
    {
      if id >= allowed.Length { assert allowed[..] == SetBits(old(allowed[..]), {id}, on); return; }
      allowed[id] := on;
      if !on { all := false; }
      assert allowed[..] == SetBits(old(allowed[..]), {id}, on);
    }

    predicate Bit(id: nat)
      reads this, allowed
    {
      id < allowed.Length && allowed[id]
    }

    method ResetFirstArgsForCommand(id: nat)
      modifies this`args
      ensures Value() == Change(old(Value()), {}, {id}, true)
    {
      args := args - {id};
      assert allowed[..] == SetBits(allowed[..], {}, true);
    }

    /** The list is scanned for an equal argument before the new one is appended. */
    method AddAllowedFirstArg(id: nat, arg: string)
      modifies this`args
      ensures args == old(args)[id := AddArg(Args(old(Value()), id), arg)]
    {
      var items := 0;
      var list := if id in args then args[id] else [];
      while items < |list|
        invariant 0 <= items <= |list|
        invariant !Mentions(list[..items], arg)
      {
        if SameText(list[items], arg) {
          args := args[id := list];
          return;
        }
        items := items + 1;
      }
      assert list[..|list|] == list;
      args := args[id := list + [arg]];
    }

    /** Allows or denies a command together with its subcommands. */
    method ChangePerm(c: Command, on: bool)
      modifies this`all, this`args, allowed
      ensures Value() == Change(old(Value()), Family(c), {c.id}, on)
    {
      SetCommandBit(c.id, on);
      ghost var mid := Value();
      ResetFirstArgsForCommand(c.id);
      assert Value() == Change(mid, {}, {c.id}, on);
      ghost var ids := {c.id};
      ChangeTwice(old(Value()), {c.id}, {}, {}, {c.id}, on);
      assert {c.id} + {} == ids && {} + {c.id} == {c.id};
      for i := 0 to |c.subs|
        invariant ids == {c.id} + set s | s in c.subs[..i] :: s.id
        invariant Value() == Change(old(Value()), ids, {c.id}, on)
      {
        SetCommandBit(c.subs[i].id, on);
        ChangeTwice(old(Value()), ids, {c.id}, {c.subs[i].id}, {}, on);
        assert {c.id} + {} == {c.id};
        assert c.subs[..i + 1] == c.subs[..i] + [c.subs[i]];
        ids := ids + {c.subs[i].id};
      }
      assert c.subs[..|c.subs|] == c.subs;
    }

    method SetBitsForCategory(cmds: seq<Command>, cat: nat, on: bool)
      modifies this`all, this`args, allowed
      ensures Value() == Change(old(Value()), Touched(cmds, cat), Resets(cmds, cat), on)
      decreases cmds
    {
      hide Change;
      ghost var t: set<nat>, r: set<nat> := {}, {};
      ChangeNothing(Value(), on);
      assert cmds[0..] == cmds;
      for i := 0 to |cmds|
        invariant t + Touched(cmds[i..], cat) == Touched(cmds, cat)
        invariant r + Resets(cmds[i..], cat) == Resets(cmds, cat)
        invariant Value() == Change(old(Value()), t, r, on)
      {
        var c := cmds[i];
        assert cmds[i..][0] == c && cmds[i..][1..] == cmds[i + 1..];
        if c.isModule { continue; }
        if cat in c.categories {
          ChangePerm(c, on);
          ChangeTwice(old(Value()), t, r, Family(c), {c.id}, on);
          t, r := t + Family(c), r + {c.id};
        }
        SetBitsForCategory(c.subs, cat, on);
        ChangeTwice(old(Value()), t, r, Touched(c.subs, cat), Resets(c.subs, cat), on);
        t, r := t + Touched(c.subs, cat), r + Resets(c.subs, cat);
      }
    }

    /** One rule, as the parser has understood it. */
    method SetSelector(table: seq<Command>, r: Rule)
      modifies this, allowed
      ensures Value() == Apply(table, old(Value()), r) && allowed == old(allowed)
    {
      match r
      case All(on) =>
        for i := 0 to allowed.Length
          invariant allowed == old(allowed)
          invariant forall k :: 0 <= k < i ==> allowed[k] == on
        {
          allowed[i] := on;
        }
        all := on;
        args := map[];
        assert allowed[..] == Apply(table, old(Value()), r).bits;
      case Category(on, cat) => SetBitsForCategory(table, cat, on);
      case Single(on, c) => ChangePerm(c, on);
      case FirstArg(c, arg) => AddAllowedFirstArg(c.id, arg);
    }

    /** The part of the permission check that concerns the command itself. */
    method CheckCommand(c: Command, noAuth: bool, arg: seq<string>) returns (ok: bool)
      ensures ok <==> Allowed(Value(), c, noAuth, arg)
    {
      if !all && !noAuth {
        if !Bit(c.id) {
          if arg == [] || c.id !in args { return false; }
          var subid := 0;
          var list := args[c.id];
          while true
            invariant 0 <= subid <= |list|
            invariant forall k :: 0 <= k < subid ==> !SameText(list[k], arg[0])
            decreases |list| - subid
          {
            if subid == |list| { return false; }
            if SameText(arg[0], list[subid]) { break; }
            subid := subid + 1;
          }
        }
      }
      return true;
    }
  }

  // ---------------------------------------------------------------- counting a category

  ghost function CountIn(cmds: seq<Command>, cat: nat, bits: seq<bool>, value: bool): nat
    decreases cmds
  {
    if cmds == [] then 0
    else
      var c := cmds[0];
      (if cat in c.categories && (c.id < |bits| && bits[c.id]) == value then 1 else 0)
      + CountIn(c.subs, cat, bits, value) + CountIn(cmds[1..], cat, bits, value)
  }

  /** The commands of a category, at any depth, whose bit has the given value. */
  ghost function WithBit(cmds: seq<Command>, cat: nat, bits: seq<bool>, value: bool): set<Command> {
    set c | c in Nodes(cmds) && cat in c.categories && (c.id < |bits| && bits[c.id]) == value
  }

  lemma NodesApart(cmds: seq<Command>)
    requires Distinct(cmds) && cmds != []
    ensures Nodes(cmds[0].subs) !! Nodes(cmds[1..]) && cmds[0] !in Nodes(cmds[0].subs) + Nodes(cmds[1..])
  {
    hide Nodes;
    var c, rest := cmds[0], cmds[1..];
    forall x | x in Nodes(c.subs) ensures x.id in Ids(c.subs) { NodeIds(c.subs, x); }
    forall x | x in Nodes(rest) ensures x.id in Ids(rest) { NodeIds(rest, x); }
  }

  ghost function OneWithBit(c: Command, cat: nat, bits: seq<bool>, value: bool): set<Command> {
    if cat in c.categories && (c.id < |bits| && bits[c.id]) == value then {c} else {}
  }

  lemma WithBitSplit(cmds: seq<Command>, cat: nat, bits: seq<bool>, value: bool)
    requires cmds != []
    ensures WithBit(cmds, cat, bits, value)
         == OneWithBit(cmds[0], cat, bits, value)
            + (WithBit(cmds[0].subs, cat, bits, value) + WithBit(cmds[1..], cat, bits, value))
  {}

  lemma SizeOfThree<T>(a: set<T>, b: set<T>, c: set<T>)
    requires a !! b + c && b !! c
    ensures |a + (b + c)| == |a| + |b| + |c|
  {}

  lemma {:induction false} CountIsSize(cmds: seq<Command>, cat: nat, bits: seq<bool>, value: bool)
    requires Distinct(cmds)
    ensures CountIn(cmds, cat, bits, value) == |WithBit(cmds, cat, bits, value)|
    decreases cmds
  {
    hide Nodes, Ids;
    if cmds == [] {
      NoNodes(cat, bits, value);
    } else {
      var c, rest := cmds[0], cmds[1..];
      CountIsSize(c.subs, cat, bits, value);
      CountIsSize(rest, cat, bits, value);
      NodesApart(cmds);
      WithBitSplit(cmds, cat, bits, value);
      SizeOfThree(OneWithBit(c, cat, bits, value), WithBit(c.subs, cat, bits, value), WithBit(rest, cat, bits, value));
    }
  }

  lemma NoNodes(cat: nat, bits: seq<bool>, value: bool)
    ensures WithBit([], cat, bits, value) == {}
  {}

  method CountCategoryBits(s: AclSelector, cmds: seq<Command>, cat: nat) returns (on: nat, off: nat)
    ensures on == CountIn(cmds, cat, s.allowed[..], true)
    ensures off == CountIn(cmds, cat, s.allowed[..], false)
    decreases cmds
  {
    on, off := 0, 0;
    assert cmds[0..] == cmds;
    for i := 0 to |cmds|
      invariant on + CountIn(cmds[i..], cat, s.allowed[..], true) == CountIn(cmds, cat, s.allowed[..], true)
      invariant off + CountIn(cmds[i..], cat, s.allowed[..], false) == CountIn(cmds, cat, s.allowed[..], false)
    {
      var c := cmds[i];
      assert cmds[i..][0] == c && cmds[i..][1..] == cmds[i + 1..];
      if cat in c.categories {
        if s.Bit(c.id) { on := on + 1; } else { off := off + 1; }
      }
      var subOn, subOff := CountCategoryBits(s, c.subs, cat);
      on, off := on + subOn, off + subOff;
    }
  }

  // ---------------------------------------------------------------- choosing a category

  const INT_MAX: nat := 0x7fff_ffff

  ghost function InCommon(table: seq<Command>, bits: seq<bool>, additive: bool, j: nat): nat {
    CountIn(table, j, bits, additive)
  }

  ghost function Differing(table: seq<Command>, bits: seq<bool>, additive: bool, j: nat): nat {
    CountIn(table, j, bits, !additive)
  }

  /** Category j is not used yet and has more commands in common than it has different. */
  ghost predicate Candidate(table: seq<Command>, bits: seq<bool>, additive: bool, applied: seq<bool>, j: nat) {
    && j < |applied| && !applied[j]
    && Differing(table, bits, additive, j) < InCommon(table, bits, additive, j)
    && Differing(table, bits, additive, j) <= INT_MAX
  }

  ghost predicate Better(table: seq<Command>, bits: seq<bool>, additive: bool, j: nat, k: nat) {
    var dj, dk := Differing(table, bits, additive, j), Differing(table, bits, additive, k);
    dj < dk || (dj == dk && InCommon(table, bits, additive, j) >= InCommon(table, bits, additive, k))
  }

  method BestCategory(table: seq<Command>, temp: AclSelector, additive: bool, applied: array<bool>) returns (best: int)
    requires applied.Length == CATEGORIES
    ensures -1 <= best < CATEGORIES
    ensures best == -1 ==>
        forall j :: 0 <= j < CATEGORIES ==> !Candidate(table, temp.allowed[..], additive, applied[..], j)
    ensures best >= 0 ==> Candidate(table, temp.allowed[..], additive, applied[..], best)
    ensures best >= 0 ==>
        forall j :: 0 <= j < CATEGORIES && Candidate(table, temp.allowed[..], additive, applied[..], j) ==>
              Better(table, temp.allowed[..], additive, best, j)
  {
    best := -1;
    var mindiff, maxsame := INT_MAX, 0;
    ghost var bits := temp.allowed[..];
    for j := 0 to CATEGORIES
      invariant -1 <= best < j
      invariant best == -1 ==> mindiff == INT_MAX && maxsame == 0
      invariant best == -1 ==> forall k :: 0 <= k < j ==> !Candidate(table, bits, additive, applied[..], k)
      invariant best >= 0 ==> Candidate(table, bits, additive, applied[..], best)
      invariant best >= 0 ==>
          mindiff == Differing(table, bits, additive, best) && maxsame == InCommon(table, bits, additive, best)
      invariant best >= 0 ==> forall k :: 0 <= k < j && Candidate(table, bits, additive, applied[..], k) ==>
                  Better(table, bits, additive, best, k)
    {
      if applied[j] { continue; }
      var on, off := CountCategoryBits(temp, table, j);
      var diff := if additive then off else on;
      var same := if additive then on else off;
      if same > diff && (diff < mindiff || (diff == mindiff && same > maxsame)) {
        best := j;
        mindiff := diff;
        maxsame := same;
      }
    }
  }

  // ---------------------------------------------------------------- fixing single commands

  /** The rules so far give the bits of `f`. They are right about the identifiers in `done`, and
      no other command has first arguments yet. */
  ghost predicate Described(table: seq<Command>, u: Selector, f: Selector, rules: seq<Rule>, done: set<nat>) {
    && (forall i :: 0 <= i < |rules| ==> Legal(table, rules[i]))
    && Sourced(u, rules)
    && f.bits == ApplyAll(table, Nothing(), rules).bits
    && Right(table, u, ApplyAll(table, Nothing(), rules), done)
  }

  /** First arguments are emitted only where the selector needs them. */
  ghost predicate Sourced(u: Selector, rules: seq<Rule>) {
    forall i :: 0 <= i < |rules| && rules[i].FirstArg? ==>
      rules[i].arg in Wanted(u, rules[i].cmd.id, {rules[i].cmd.id})
  }

  ghost predicate Right(table: seq<Command>, u: Selector, a: Selector, done: set<nat>) {
    && |u.bits| == BITS
    && StateOk(table, a) && a.bits[RESERVED] == u.bits[RESERVED]
    && (forall id :: id in done && id < BITS ==> a.bits[id] == u.bits[id])
    && (forall id: nat :: Args(a, id) == Wanted(u, id, done))
  }

  ghost function Wanted(u: Selector, id: nat, done: set<nat>): seq<string> {
    if id in done && !(id < |u.bits| && u.bits[id]) then Args(u, id) else []
  }

  lemma ApplyLast(table: seq<Command>, s: Selector, rules: seq<Rule>, r: Rule)
    ensures ApplyAll(table, s, rules + [r]) == Apply(table, ApplyAll(table, s, rules), r)
  {
    assert (rules + [r])[..|rules|] == rules;
  }

  lemma EmitSingle(table: seq<Command>, u: Selector, f: Selector, rules: seq<Rule>, done: set<nat>, c: Command,
      on: bool)
    requires TableOk(table) && Described(table, u, f, rules, done)
    requires c in Nodes(table) && Family(c) !! done
    ensures Described(table, u, Change(f, Family(c), {c.id}, on), rules + [Single(on, c)], done)
  {
    hide ApplyAll, Nodes, Ids;
    var a := ApplyAll(table, Nothing(), rules);
    ApplyLast(table, Nothing(), rules, Single(on, c));
    ApplyKeeps(table, a, Single(on, c));
  }

  function ArgRules(c: Command, args: seq<string>): seq<Rule> {
    seq(|args|, i requires 0 <= i < |args| => FirstArg(c, args[i]))
  }

  /** Allowing the arguments of a list one by one gives the list. */
  lemma {:induction false} EmitsList(table: seq<Command>, rules: seq<Rule>, c: Command, args: seq<string>)
    requires NoRepeats(args) && Args(ApplyAll(table, Nothing(), rules), c.id) == []
    ensures var a := ApplyAll(table, Nothing(), rules); var b := ApplyAll(table, Nothing(), rules + ArgRules(c, args));
      && b.bits == a.bits && b.all == a.all && Args(b, c.id) == args
      && forall id :: id != c.id ==> Args(b, id) == Args(a, id)
    decreases |args|
  {
    hide ApplyAll;
    if args == [] {
      assert rules + ArgRules(c, args) == rules;
    } else {
      var k := |args| - 1;
      EmitsList(table, rules, c, args[..k]);
      assert rules + ArgRules(c, args) == (rules + ArgRules(c, args[..k])) + [FirstArg(c, args[k])];
      ApplyLast(table, Nothing(), rules + ArgRules(c, args[..k]), FirstArg(c, args[k]));
      assert !Mentions(args[..k], args[k]);
      assert args[..k] + [args[k]] == args;
    }
  }

  lemma EmitArgs(table: seq<Command>, u: Selector, f: Selector, rules: seq<Rule>, done: set<nat>, c: Command)
    requires TableOk(table) && StateOk(table, u) && Described(table, u, f, rules, done)
    requires c in Nodes(table) && c.id !in done && (c.id < BITS ==> f.bits[c.id] == u.bits[c.id])
    ensures Described(table, u, f, rules + ArgRules(c, Wanted(u, c.id, done + {c.id})), done + {c.id})
  {
    hide ApplyAll, Nodes, Ids;
    var list := Wanted(u, c.id, done + {c.id});
    var out := rules + ArgRules(c, list);
    assert list == [] || (c.id in u.args && ArgsOk(table, c.id, u.args[c.id]));
    EmitsList(table, rules, c, list);
    if list != [] { OwnerIsLeaf(table, c); }
    assert forall i :: 0 <= i < |out| ==> Legal(table, out[i]);
    Reachable(table, out);
  }

  /** If first arguments are kept under the identifier of c, then c is a command that takes them. */
  lemma OwnerIsLeaf(table: seq<Command>, c: Command)
    requires TableOk(table) && c in Nodes(table)
    requires exists top :: TakesArgs(table, top) && top.id == c.id
    ensures TakesArgs(table, c)
  {
    var top :| TakesArgs(table, top) && top.id == c.id;
    MemberIds(table, top);
    SameNode(table, c, top);
  }

  lemma {:induction false} SameNode(cmds: seq<Command>, c: Command, d: Command)
    requires Distinct(cmds) && c in Nodes(cmds) && d in Nodes(cmds) && c.id == d.id
    ensures c == d
    decreases cmds
  {
    var subs, rest := cmds[0].subs, cmds[1..];
    if c in Nodes(subs) { NodeIds(subs, c); }
    if d in Nodes(subs) { NodeIds(subs, d); }
    if c in Nodes(rest) { NodeIds(rest, c); }
    if d in Nodes(rest) { NodeIds(rest, d); }
    if c in Nodes(subs) && d in Nodes(subs) {
      SameNode(subs, c, d);
    } else if c in Nodes(rest) && d in Nodes(rest) {
      SameNode(rest, c, d);
    }
  }

  /** Emits a rule for every command on which the two selectors still differ, containers before
      their subcommands, and the first arguments of denied commands. */
  method DescribeSingleCommands(table: seq<Command>, sel: AclSelector, fake: AclSelector, rules: seq<Rule>,
                                cmds: seq<Command>, ghost done: set<nat>) returns (out: seq<Rule>)
    requires TableOk(table) && Distinct(cmds) && Ids(cmds) !! done && Nodes(cmds) <= Nodes(table)
    requires sel != fake && sel.allowed != fake.allowed && StateOk(table, sel.Value())
    requires Described(table, sel.Value(), fake.Value(), rules, done)
    modifies fake`all, fake`args, fake.allowed
    ensures Described(table, sel.Value(), fake.Value(), out, done + Ids(cmds))
    ensures KeptBut(old(fake.Value().bits), fake.Value().bits, Ids(cmds)) && rules <= out
    decreases cmds
  {
    DescribedSizes(table, sel.Value(), fake.Value(), rules, done);
    hide Described, Distinct, Ids, Nodes, StateOk, TableOk, Change, ApplyAll, Left, KeptBut, Family;
    out := rules;
    ghost var u, d := sel.Value(), done;
    assert cmds[0..] == cmds;
    StartLeft(table, cmds, done);
    KeptAll(fake.Value().bits, Ids(cmds));
    for i := 0 to |cmds|
      invariant Left(table, cmds, i, d, done)
      invariant Described(table, u, fake.Value(), out, d)
      invariant KeptBut(old(fake.Value().bits), fake.Value().bits, Ids(cmds)) && rules <= out
    {
      var c := cmds[i];
      ghost var b0 := fake.Value().bits;
      HeadOf(table, cmds, i, d, done);
      out := FixCommand(table, sel, fake, out, c, d);
      ghost var b1 := fake.Value().bits;
      out := DescribeSingleCommands(table, sel, fake, out, c.subs, d);
      KeptOn(old(fake.Value().bits), b0, b1, fake.Value().bits, Family(c), Ids(c.subs), Ids(cmds), c.id);
      DescribedSizes(table, u, fake.Value(), out, d + Ids(c.subs));
      out := EmitFirstArgs(table, sel, out, c, fake.Value(), d + Ids(c.subs));
      d := d + Ids(c.subs) + {c.id};
    }
    EndLeft(table, cmds, d, done);
  }

  /** Only the bits of `ids` may have changed. */
  ghost predicate KeptBut(before: seq<bool>, after: seq<bool>, ids: set<nat>) {
    |before| == |after| && forall id :: 0 <= id < |before| && id !in ids ==> after[id] == before[id]
  }

  lemma KeptAll(bits: seq<bool>, ids: set<nat>)
    ensures KeptBut(bits, bits, ids)
  {}

  lemma KeptOn(a: seq<bool>, b: seq<bool>, c: seq<bool>, d: seq<bool>, x: set<nat>, y: set<nat>, all: set<nat>, id: nat)
    requires KeptBut(a, b, all) && KeptBut(b, c, x) && KeptBut(c, d, y) && x <= all && y <= all && id !in y
    ensures KeptBut(a, d, all) && |c| == |d| && (id < |c| ==> d[id] == c[id])
  {}

  /** The commands from index i on are still to do. */
  ghost predicate Left(table: seq<Command>, cmds: seq<Command>, i: nat, d: set<nat>, done: set<nat>) {
    && i <= |cmds| && Distinct(cmds[i..]) && Nodes(cmds[i..]) <= Nodes(table)
    && Ids(cmds[i..]) !! d && d + Ids(cmds[i..]) == done + Ids(cmds) && Ids(cmds[i..]) <= Ids(cmds)
  }

  lemma StartLeft(table: seq<Command>, cmds: seq<Command>, done: set<nat>)
    requires Distinct(cmds) && Nodes(cmds) <= Nodes(table) && Ids(cmds) !! done
    ensures Left(table, cmds, 0, done, done)
  {
    assert cmds[0..] == cmds;
  }

  lemma EndLeft(table: seq<Command>, cmds: seq<Command>, d: set<nat>, done: set<nat>)
    requires Left(table, cmds, |cmds|, d, done)
    ensures d == done + Ids(cmds)
  {
    assert Ids(cmds[|cmds|..]) == {};
    assert d + {} == d;
  }

  lemma HeadOf(table: seq<Command>, cmds: seq<Command>, i: nat, d: set<nat>, done: set<nat>)
    requires i < |cmds| && Left(table, cmds, i, d, done)
    ensures var c := cmds[i];
      && Left(table, cmds, i + 1, d + Ids(c.subs) + {c.id}, done)
      && c in Nodes(table) && Nodes(c.subs) <= Nodes(table) && Distinct(c.subs)
      && Ids(c.subs) !! d && c.id !in d + Ids(c.subs) && Family(c) !! d
      && Family(c) <= Ids(cmds) && Ids(c.subs) <= Ids(cmds)
  {
    var c, rest := cmds[i], cmds[i + 1..];
    assert cmds[i..][0] == c && cmds[i..][1..] == rest;
    assert Ids(cmds[i..]) == {c.id} + Ids(c.subs) + Ids(rest);
    forall s | s in c.subs ensures s.id in Ids(c.subs) { MemberIds(c.subs, s); }
  }

  method FixCommand(table: seq<Command>, sel: AclSelector, fake: AclSelector, rules: seq<Rule>,
                    c: Command, ghost done: set<nat>) returns (out: seq<Rule>)
    requires TableOk(table) && c in Nodes(table) && Family(c) !! done
    requires sel != fake && sel.allowed != fake.allowed
    requires Described(table, sel.Value(), fake.Value(), rules, done)
    modifies fake`all, fake`args, fake.allowed
    ensures Described(table, sel.Value(), fake.Value(), out, done)
    ensures c.id < BITS ==> fake.Value().bits[c.id] == sel.Value().bits[c.id]
    ensures KeptBut(old(fake.Value().bits), fake.Value().bits, Family(c)) && rules <= out
  {
    DescribedSizes(table, sel.Value(), fake.Value(), rules, done);
    hide Described, Change, KeptBut, Family, Nodes, TableOk;
    out := rules;
    var userbit := sel.Bit(c.id);
    var fakebit := fake.Bit(c.id);
    KeptAll(fake.Value().bits, Family(c));
    if userbit != fakebit {
      EmitSingle(table, sel.Value(), fake.Value(), out, done, c, userbit);
      ChangeKeeps(fake.Value(), c, userbit);
      out := out + [Single(userbit, c)];
      fake.ChangePerm(c, userbit);
    }
  }

  lemma ChangeKeeps(s: Selector, c: Command, on: bool)
    ensures var t := Change(s, Family(c), {c.id}, on);
      KeptBut(s.bits, t.bits, Family(c)) && |t.bits| == |s.bits| && (c.id < |s.bits| ==> t.bits[c.id] == on)
  {}

  lemma DescribedSizes(table: seq<Command>, u: Selector, f: Selector, rules: seq<Rule>, done: set<nat>)
    requires Described(table, u, f, rules, done)
    ensures |u.bits| == |f.bits| == BITS
  {}

  /** The first arguments of a denied command, in the order of its list. */
  method EmitFirstArgs(table: seq<Command>, sel: AclSelector, rules: seq<Rule>, c: Command,
                       ghost f: Selector, ghost done: set<nat>) returns (out: seq<Rule>)
    requires TableOk(table) && StateOk(table, sel.Value()) && Described(table, sel.Value(), f, rules, done)
    requires c in Nodes(table) && c.id !in done && |f.bits| == BITS
    requires c.id < BITS ==> f.bits[c.id] == sel.Value().bits[c.id]
    ensures Described(table, sel.Value(), f, out, done + {c.id}) && rules <= out
  {
    EmitArgs(table, sel.Value(), f, rules, done, c);
    var more := FirstArgsOf(sel, c);
    out := rules + more;
  }

  method FirstArgsOf(sel: AclSelector, c: Command) returns (out: seq<Rule>)
    ensures out == ArgRules(c, Wanted(sel.Value(), c.id, {c.id}))
  {
    out := [];
    if !sel.Bit(c.id) && c.id in sel.args {
      var j := 0;
      while j < |sel.args[c.id]|
        invariant 0 <= j <= |sel.args[c.id]|
        invariant out == ArgRules(c, sel.args[c.id][..j])
      {
        out := out + [FirstArg(c, sel.args[c.id][j])];
        j := j + 1;
      }
      assert sel.args[c.id][..j] == sel.args[c.id];
    }
  }

  // ---------------------------------------------------------------- the describer

  lemma StartDescription(table: seq<Command>, u: Selector, f: Selector)
    requires TableOk(table) && StateOk(table, u) && f == Apply(table, Nothing(), All(u.bits[RESERVED]))
    ensures Described(table, u, f, [All(u.bits[RESERVED])], {})
  {
    var r := All(u.bits[RESERVED]);
    ApplyLast(table, Nothing(), [], r);
    assert [] + [r] == [r];
  }

  lemma EmitCategory(table: seq<Command>, u: Selector, f: Selector, rules: seq<Rule>, r: Rule)
    requires TableOk(table) && Described(table, u, f, rules, {}) && r.Category? && r.cat < CATEGORIES
    ensures Described(table, u, Apply(table, f, r), rules + [r], {})
  {
    hide ApplyAll, Touched, Resets, Ids;
    ApplyLast(table, Nothing(), rules, r);
    ApplyKeeps(table, ApplyAll(table, Nothing(), rules), r);
  }

  /** Right about every command is right about every bit. */
  lemma FullyDescribed(table: seq<Command>, u: Selector, f: Selector, rules: seq<Rule>)
    requires TableOk(table) && StateOk(table, u) && Described(table, u, f, rules, Ids(table))
    ensures f.bits == u.bits && Same(ApplyAll(table, Nothing(), rules), u)
  {
    var a := ApplyAll(table, Nothing(), rules);
    assert forall id :: 0 <= id < BITS ==> a.bits[id] == u.bits[id];
    forall id | 0 <= id < BITS && !a.bits[id]
      ensures Args(a, id) == Args(u, id)
    {
      if id in u.args {
        assert ArgsOk(table, id, u.args[id]);
        var c :| TakesArgs(table, c) && c.id == id;
        MemberIds(table, c);
      }
    }
  }

  /** Starts from all or no commands, takes the best category as long as there is one, and repairs
      what is left command by command. Replaying the rules on an empty selector gives one that
      cannot be told apart from the original; the final comparison of the bitmaps succeeds. */
  method DescribeCommandRules(table: seq<Command>, sel: AclSelector) returns (rules: seq<Rule>)
    requires TableOk(table) && StateOk(table, sel.Value())
    ensures rules != [] && rules[0] == All(sel.Value().bits[RESERVED])
    ensures forall i :: 0 <= i < |rules| ==> Legal(table, rules[i])
    ensures StateOk(table, ApplyAll(table, Nothing(), rules)) && Same(ApplyAll(table, Nothing(), rules), sel.Value())
    ensures Sourced(sel.Value(), rules)
  {
    var fake := new AclSelector();
    var additive := !sel.Bit(RESERVED);
    rules := [All(!additive)];
    fake.SetSelector(table, All(!additive));
    StartDescription(table, sel.Value(), fake.Value());
    rules := AddCategories(table, sel, fake, rules, additive);
    rules := DescribeSingleCommands(table, sel, fake, rules, table, {});
    assert {} + Ids(table) == Ids(table);
    FullyDescribed(table, sel.Value(), fake.Value(), rules);
    assert fake.allowed[..] == sel.allowed[..];               // no serverPanic
  }

  method AddCategories(table: seq<Command>, sel: AclSelector, fake: AclSelector, start: seq<Rule>, additive: bool)
      returns (rules: seq<Rule>)
    requires TableOk(table) && sel != fake && sel.allowed != fake.allowed
    requires Described(table, sel.Value(), fake.Value(), start, {})
    modifies fake, fake.allowed
    ensures Described(table, sel.Value(), fake.Value(), rules, {}) && start <= rules
        && fake.allowed == old(fake.allowed)
  {
    hide Described, ApplyAll, Apply, TableOk;
    rules := start;
    var temp := new AclSelector();
    forall i | 0 <= i < temp.allowed.Length && i < sel.allowed.Length { temp.allowed[i] := sel.allowed[i]; }
    var applied := new bool[CATEGORIES](_ => false);
    ghost var left := set j | 0 <= j < CATEGORIES && !applied[j];
    while true
      invariant fresh(temp) && fresh(temp.allowed) && temp.allowed != applied && fake.allowed == old(fake.allowed)
      invariant left == set j | 0 <= j < CATEGORIES && !applied[j]
      invariant Described(table, sel.Value(), fake.Value(), rules, {}) && start <= rules
      decreases left
    {
      var best := BestCategory(table, temp, additive, applied);
      if best == -1 { break; }
      assert best in left;
      EmitCategory(table, sel.Value(), fake.Value(), rules, Category(additive, best));
      fake.SetSelector(table, Category(additive, best));
      temp.SetSelector(table, Category(!additive, best));
      rules := rules + [Category(additive, best)];
      applied[best] := true;
      left := left - {best};
    }
  }
}
