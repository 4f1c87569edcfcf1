/** A selector written as text and read again. */
module AclRoundTrip {
  import opened AclRules
  import opened AclDescribe
  import opened AclText
  import opened Wrappers

  /** No first argument that matters holds a space. */
  ghost predicate Readable(u: Selector) {
    forall id: nat, arg :: arg in Wanted(u, id, {id}) ==> ' ' !in arg
  }

  /** First arguments come from rules that give them. */
  lemma {:induction false} ArgsAreGiven(table: seq<Command>, rules: seq<Rule>, id: nat, arg: string) returns (i: nat)
    requires arg in Args(ApplyAll(table, Nothing(), rules), id)
    ensures i < |rules| && rules[i].FirstArg? && rules[i].arg == arg && rules[i].cmd.id == id
    decreases |rules|
  {
    hide Touched, Resets, Nodes;
    var n := |rules| - 1;
    var before, r := ApplyAll(table, Nothing(), rules[..n]), rules[n];
    if r.FirstArg? && r.cmd.id == id && r.arg == arg {
      i := n;
    } else {
      assert arg in Args(before, id);
      i := ArgsAreGiven(table, rules[..n], id, arg);
    }
  }

  /** The selector is readable exactly if no emitted rule holds a space. */
  lemma ReadableIff(table: seq<Command>, u: Selector, rules: seq<Rule>)
    requires |u.bits| == BITS && Sourced(u, rules) && Same(ApplyAll(table, Nothing(), rules), u)
    requires StateOk(table, u) && StateOk(table, ApplyAll(table, Nothing(), rules))
    ensures Readable(u) <==> forall i :: 0 <= i < |rules| && rules[i].FirstArg? ==> ' ' !in rules[i].arg
  {
    hide ApplyAll;
    if !Readable(u) {
      var id: nat, arg :| arg in Wanted(u, id, {id}) && ' ' in arg;
      assert id in u.args && ArgsOk(table, id, u.args[id]);
      assert id < BITS;
      var i := ArgsAreGiven(table, rules, id, arg);
    }
  }

  /** Writes the rules of a selector and reads them into a new one. The text falls into the rules
      again if and only if the selector is readable; the new selector then has the same bits and
      first arguments, and no later rule or command can tell the two apart. */
  method WriteAndRead(categories: seq<string>, table: seq<Command>, sel: AclSelector)
    returns (text: string, back: AclSelector, ok: bool, ghost rules: seq<Rule>)
    requires TableOk(table) && NamesOk(table) && CategoriesOk(categories) && StateOk(table, sel.Value())
    ensures rules != [] && text == Join(Texts(categories, rules), ' ')
    ensures Split(text, ' ') == Texts(categories, rules) <==> Readable(sel.Value())
    ensures Readable(sel.Value()) ==> ok && StateOk(table, back.Value()) && Same(back.Value(), sel.Value())
  {
    hide ApplyAll, Parse, Split, Join, StateOk, TableOk, NamesOk, CategoriesOk, Same, Readable, Sourced, Legal;
    var described := DescribeCommandRules(table, sel);
    rules := described;
    text := Join(Texts(categories, described), ' ');
    BitsOf(table, sel.Value());
    ReadableIff(table, sel.Value(), rules);
    DescriptionReadsBackIff(categories, table, rules);
    var tokens := SplitLen(text, ' ');
    back := new AclSelector();
    ok := true;
    ApplyNone(table);
    ghost var good := Readable(sel.Value());
    for i := 0 to |tokens|
      invariant fresh(back) && fresh(back.allowed)
      invariant good ==> back.Value() == ApplyAll(table, Nothing(), rules[..i])
    {
      var r := Parse(categories, table, tokens[i]);
      if good { assert r == Some(rules[i]); }
      if r.None? { return text, back, false, rules; }
      back.SetSelector(table, r.value);
      if good {
        assert rules[..i + 1] == rules[..i] + [rules[i]];
        ApplyLast(table, Nothing(), rules[..i], rules[i]);
      }
    }
    if good { assert rules[..|tokens|] == rules; }
  }

  lemma BitsOf(table: seq<Command>, u: Selector)
    requires StateOk(table, u)
    ensures |u.bits| == BITS
  {}

  lemma ApplyNone(table: seq<Command>)
    ensures forall rules: seq<Rule> :: ApplyAll(table, Nothing(), rules[..0]) == Nothing()
  {}
}
