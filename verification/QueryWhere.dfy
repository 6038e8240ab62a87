/** The WHERE clause reads as the filters it was made from. */
module QueryWhere {
  import opened Outcomes
  import opened QueryText
  import opened QueryFilter

  // ----- every filter reads as itself

  lemma {:induction false} TextReads(f: Filter, n: nat, rest: Toks)
    requires Text(f, n).Ok? && Filled(f)
    ensures var o := Text(f, n).value; ReadPrimary(o.toks + rest) == Some((o.cond, rest))
    decreases f, 1, 0
  {
    match f
    case FieldValue(c, op, right, _) => ValueReads(c, op, right, n, rest);
    case FieldField(a, name, b, _) => assert ([ColT(a), OpT(Cmp(name)), ColT(b)] + rest)[2..][1..] == rest;
    case Raw(t, _) => assert ([RawT(t)] + rest)[1..] == rest;
    case Expr(l, op, r, _) => ExprReads(l, op, r, n, rest);
    case Group(fs, _, _) =>
      ChildrenCount(f, ByConnector, 0, n);
      ChildrenRead(f, ByConnector, 0, n);
      GroupReads(Children(f, ByConnector, 0, n).value.items, rest);
  }

  lemma {:induction false} ChildrenCount(g: Filter, mode: Mode, i: nat, n: nat)
    requires g.Group? && i <= |g.filters| && Children(g, mode, i, n).Ok?
    ensures |Children(g, mode, i, n).value.items| == |g.filters| - i
    decreases |g.filters| - i
  {
    if i < |g.filters| { ChildrenCount(g, mode, i + 1, n + |Text(g.filters[i], n).value.vals|); }
  }

  lemma {:induction false} ChildrenRead(g: Filter, mode: Mode, i: nat, n: nat)
    requires g.Group? && i <= |g.filters| && Children(g, mode, i, n).Ok?
    requires forall k :: i <= k < |g.filters| ==> Filled(g.filters[k])
    ensures AllRead(Children(g, mode, i, n).value.items)
    decreases g, 0, |g.filters| - i
  {
    if i < |g.filters| {
      var o := Text(g.filters[i], n).value;
      var first := Item(WordBefore(g, mode, i), o.toks, o.cond);
      forall rest: Toks ensures ReadPrimary(first.toks + rest) == Some((first.cond, rest)) { TextReads(g.filters[i], n, rest); }
      ChildrenRead(g, mode, i + 1, n + |o.vals|);
      hide Text, Filled;
      assert Reads(first);
    }
  }

  lemma {:induction false} TextFails(f: Filter, n: nat, rest: Toks)
    requires Text(f, n).Ok? && !Filled(f)
    ensures ReadPrimary(Text(f, n).value.toks + rest) == None
    decreases f, 1, 0
  {
    match f
    case FieldValue(c, op, right, _) => EmptyListFails(c, op, rest);
    case Group(fs, _, _) =>
      var items := Children(f, ByConnector, 0, n).value.items;
      ChildrenCount(f, ByConnector, 0, n);
      var b := 0;
      if fs != [] { b := ChildrenFail(f, ByConnector, 0, n); }
      GroupFails(items, b, rest);
  }

  lemma EmptyListFails(c: string, op: Op, rest: Toks)
    requires op.In?
    ensures ReadPrimary([ColT(c), OpT(op), Open] + ParamList(0, 0) + [Close] + rest) == None
  {
    var ts := [ColT(c), OpT(op), Open] + ParamList(0, 0) + [Close] + rest;
    assert ts[2..][1..] == [Close] + rest;
  }

  lemma {:induction false} ChildrenFail(g: Filter, mode: Mode, i: nat, n: nat) returns (b: nat)
    requires g.Group? && i <= |g.filters| && Children(g, mode, i, n).Ok?
    requires exists k :: i <= k < |g.filters| && !Filled(g.filters[k])
    ensures FirstBad(Children(g, mode, i, n).value.items, b)
    decreases g, 0, |g.filters| - i
  {
    var o := Text(g.filters[i], n).value;
    var items := Children(g, mode, i, n).value.items;
    var rest := Children(g, mode, i + 1, n + |o.vals|).value.items;
    assert items[0].toks == o.toks && items[0].cond == o.cond && items[1..] == rest;
    if Filled(g.filters[i]) {
      forall more: Toks ensures ReadPrimary(o.toks + more) == Some((o.cond, more)) { TextReads(g.filters[i], n, more); }
      var c := ChildrenFail(g, mode, i + 1, n + |o.vals|);
      b := c + 1;
      hide Text, Filled, ReadPrimary;
      assert Reads(items[0]);
      assert forall k :: 1 <= k < |items| ==> items[k] == rest[k - 1];
    } else {
      forall more: Toks ensures ReadPrimary(o.toks + more) == None { TextFails(g.filters[i], n, more); }
      b := 0;
      assert Unreadable(items[0]);
    }
  }

  // ----- the value of a list of conditions

  predicate Joined(items: seq<Item>, c: Conn) {
    forall i :: 1 <= i < |items| ==> items[i].conn == c
  }

  function AllOf(items: seq<Item>, values: seq<Value>, sem: Sem): K3 {
    if items == [] then True else And3(Eval(items[0].cond, values, sem), AllOf(items[1..], values, sem))
  }

  function AnyOf(items: seq<Item>, values: seq<Value>, sem: Sem): K3 {
    if items == [] then False else Or3(Eval(items[0].cond, values, sem), AnyOf(items[1..], values, sem))
  }

  lemma {:induction false} AndsAreAll(items: seq<Item>, values: seq<Value>, sem: Sem)
    requires items != [] && Joined(items, And)
    ensures Run(items).1 == [] && Eval(Run(items).0, values, sem) == AllOf(items, values, sem)
  {
    if |items| == 1 {
      assert AllOf(items[1..], values, sem) == True;
    } else {
      assert items[1..][0] == items[1];
      AndsAreAll(items[1..], values, sem);
    }
  }

  lemma {:induction false} OrsAreAny(items: seq<Item>, values: seq<Value>, sem: Sem)
    requires items != [] && Joined(items, Or)
    ensures Eval(Runs(items), values, sem) == AnyOf(items, values, sem)
  {
    assert Run(items).1 == items[1..];
    if |items| == 1 {
      assert AnyOf(items[1..], values, sem) == False;
    } else {
      OrsAreAny(items[1..], values, sem);
    }
  }

  // ----- parameters are bound to their own values

  predicate Slice(values: seq<Value>, n: nat, vals: seq<Value>) {
    n + |vals| <= |values| && values[n..n + |vals|] == vals
  }

  lemma BoundIs(values: seq<Value>, n: nat, vals: seq<Value>)
    requires Slice(values, n, vals)
    ensures Bound(Numbers(n, |vals|), values) == vals
  {
    forall i | 0 <= i < |vals| ensures Bound(Numbers(n, |vals|), values)[i] == vals[i] {
      assert values[n..n + |vals|][i] == values[n + i];
    }
  }

  lemma SliceParts(values: seq<Value>, n: nat, a: seq<Value>, b: seq<Value>)
    requires Slice(values, n, a + b)
    ensures Slice(values, n, a) && Slice(values, n + |a|, b)
  {
    assert values[n..n + |a|] == (a + b)[..|a|] by { assert values[n..n + |a|] == values[n..n + |a + b|][..|a|]; }
    assert values[n + |a|..n + |a| + |b|] == (a + b)[|a|..] by {
      assert values[n + |a|..n + |a| + |b|] == values[n..n + |a + b|][|a|..];
    }
  }

  lemma ValueMeans(c: string, op: Op, right: Value, n: nat, values: seq<Value>, sem: Sem)
    requires ValueText(c, op, right, n).Ok? && Slice(values, n, ValueText(c, op, right, n).value.vals)
    ensures Eval(ValueText(c, op, right, n).value.cond, values, sem) == Meaning(FieldValue(c, op, right, And), sem)
  {
    var o := ValueText(c, op, right, n).value;
    BoundIs(values, n, o.vals);
    assert Numbers(n, 1) == [n + 1];
    assert Numbers(n, 2) == [n + 1, n + 2];
  }

  lemma ExprMeans(l: Template, op: Op, r: Template, n: nat, values: seq<Value>, sem: Sem)
    requires Text(Expr(l, op, r, And), n).Ok? && Slice(values, n, Text(Expr(l, op, r, And), n).value.vals)
    ensures Eval(Text(Expr(l, op, r, And), n).value.cond, values, sem) == Meaning(Expr(l, op, r, And), sem)
  {
    SliceParts(values, n, l.params[..l.holes], r.params[..r.holes]);
    BoundIs(values, n, l.params[..l.holes]);
    BoundIs(values, n + l.holes, r.params[..r.holes]);
  }

  /** Whatever values were bound before and after it, a filter's text means the filter. */
  lemma {:induction false} TextMeans(f: Filter, n: nat, values: seq<Value>, sem: Sem)
    requires Text(f, n).Ok? && Filled(f) && Slice(values, n, Text(f, n).value.vals)
    ensures Eval(Text(f, n).value.cond, values, sem) == Meaning(f, sem)
    decreases f, 1, 0
  {
    match f
    case FieldValue(c, op, right, _) => ValueMeans(c, op, right, n, values, sem);
    case FieldField(_, _, _, _) =>
    case Raw(_, _) =>
    case Expr(l, op, r, _) => ExprMeans(l, op, r, n, values, sem);
    case Group(fs, _, _) => GroupMeans(f, n, values, sem);
  }

  lemma {:induction false} GroupMeans(g: Filter, n: nat, values: seq<Value>, sem: Sem)
    requires g.Group? && Text(g, n).Ok? && Filled(g) && Slice(values, n, Text(g, n).value.vals)
    ensures Eval(Text(g, n).value.cond, values, sem) == Meaning(g, sem)
    decreases g, 0, |g.filters| + 1
  {
    var items := Children(g, ByConnector, 0, n).value.items;
    ChildrenCount(g, ByConnector, 0, n);
    ChildrenMean(g, ByConnector, 0, n, values, sem);
    ConnectorJoins(g, 0, n);
    if ConnOf(g) == And { AndsAreAll(items, values, sem); } else { OrsAreAny(items, values, sem); }
  }

  lemma {:induction false} ConnectorJoins(g: Filter, i: nat, n: nat)
    requires g.Group? && i <= |g.filters| && Children(g, ByConnector, i, n).Ok?
    ensures forall k :: 0 <= k < |Children(g, ByConnector, i, n).value.items| ==>
      Children(g, ByConnector, i, n).value.items[k].conn == ConnOf(g)
    decreases |g.filters| - i
  {
    if i < |g.filters| {
      ConnectorJoins(g, i + 1, n + |Text(g.filters[i], n).value.vals|);
      hide Text;
    }
  }

  lemma {:induction false} ChildrenMean(g: Filter, mode: Mode, i: nat, n: nat, values: seq<Value>, sem: Sem)
    requires g.Group? && i <= |g.filters| && Children(g, mode, i, n).Ok?
    requires forall k :: i <= k < |g.filters| ==> Filled(g.filters[k])
    requires Slice(values, n, Children(g, mode, i, n).value.vals)
    ensures AllOf(Children(g, mode, i, n).value.items, values, sem) == AllMean(g, i, sem)
    ensures AnyOf(Children(g, mode, i, n).value.items, values, sem) == AnyMeans(g, i, sem)
    decreases g, 0, |g.filters| - i
  {
    if i < |g.filters| {
      var o := Text(g.filters[i], n).value;
      var rest := Children(g, mode, i + 1, n + |o.vals|).value;
      SliceParts(values, n, o.vals, rest.vals);
      TextMeans(g.filters[i], n, values, sem);
      ChildrenMean(g, mode, i + 1, n + |o.vals|, values, sem);
      hide Text, Meaning, Filled, Eval, Slice;
      assert Children(g, mode, i, n).value.items[1..] == rest.items;
    }
  }
}
