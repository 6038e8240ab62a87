/** The WHERE clause and the renderer that binds its parameters. */
module QueryBuilder {
  import opened Outcomes
  import opened QueryText
  import opened QueryFilter
  import opened QueryWhere

  datatype Deleted = Excluded | OnlyDeleted | Included

  // ----- the clause

  function SoftItem(neg: bool): Item {
    Item(And, [ColT("deleted_at"), OpT(Is(neg)), LitT(NullV)], LeafC(IsL("deleted_at", neg, NullV)))
  }

  /** The soft-delete clause of an entity that has the column. */
  function Soft(has: bool, mode: Deleted): seq<Item> {
    if has && mode.OnlyDeleted? then [SoftItem(true)] else if has && mode.Excluded? then [SoftItem(false)] else []
  }

  function SoftMeaning(has: bool, mode: Deleted, sem: Sem): K3 {
    if has && mode.OnlyDeleted? then sem(IsA("deleted_at", true, NullV))
    else if has && mode.Excluded? then sem(IsA("deleted_at", false, NullV)) else True
  }

  /** The filters of a query as one list, each with its own word before it. */
  function Top(filters: seq<Filter>): Filter {
    Group(filters, None, And)
  }

  /** The first filter follows the soft-delete clause with AND, whatever its own word is. */
  function AndFirst(items: seq<Item>): seq<Item> {
    if items == [] then [] else [items[0].(conn := And)] + items[1..]
  }

  function Where(has: bool, mode: Deleted, filters: seq<Filter>, n: nat): Result<Parts, Error> {
    var list := Children(Top(filters), ByOperands, 0, n);
    if list.Err? then list else Ok(Parts(Soft(has, mode) + AndFirst(list.value.items), list.value.vals))
  }

  lemma SoftReads(neg: bool)
    ensures Reads(SoftItem(neg))
  {
    forall rest: Toks ensures ReadPrimary(SoftItem(neg).toks + rest) == Some((SoftItem(neg).cond, rest)) {
      assert (SoftItem(neg).toks + rest)[2..][1..] == rest;
    }
  }

  predicate AllFilled(filters: seq<Filter>) {
    forall i :: 0 <= i < |filters| ==> Filled(filters[i])
  }

  /** The clause is one readable condition exactly when no group and no IN list in it is empty. */
  lemma WhereReads(has: bool, mode: Deleted, filters: seq<Filter>, n: nat)
    requires Where(has, mode, filters, n).Ok? && Where(has, mode, filters, n).value.items != []
    ensures var items := Where(has, mode, filters, n).value.items;
      Reading(FlatText(items)) == if AllFilled(filters) then Some(Runs(items)) else None
  {
    var top := Top(filters);
    var list := Children(top, ByOperands, 0, n).value.items;
    var items := Where(has, mode, filters, n).value.items;
    SoftReads(true);
    SoftReads(false);
    assert FlatText(items) + [] == FlatText(items);
    if AllFilled(filters) {
      ChildrenRead(top, ByOperands, 0, n);
      AndFirstReads(list);
      hide Reads, FlatText, ReadOr;
      assert AllRead(items);
      FlatReads(items, []);
    } else {
      var b := ChildrenFail(top, ByOperands, 0, n);
      AndFirstBad(list, b);
      var off := |Soft(has, mode)|;
      hide Reads, Unreadable, FlatText, ReadOr;
      assert items[b + off] == AndFirst(list)[b];
      assert FirstBad(items, b + off);
      FlatFails(items, b + off, []);
    }
  }

  lemma AndFirstReads(items: seq<Item>)
    requires AllRead(items)
    ensures AllRead(AndFirst(items))
  {
    forall i | 0 <= i < |AndFirst(items)| ensures Reads(AndFirst(items)[i]) { assert Reads(items[i]); }
  }

  lemma AndFirstBad(items: seq<Item>, b: nat)
    requires FirstBad(items, b)
    ensures FirstBad(AndFirst(items), b)
  {
    assert AndFirst(items)[b].toks == items[b].toks;
    forall i | 0 <= i < b ensures Reads(AndFirst(items)[i]) { assert Reads(items[i]); }
    assert Unreadable(AndFirst(items)[b]);
  }

  // ----- meaning

  predicate OnlyAnds(filters: seq<Filter>) {
    forall i :: 1 <= i < |filters| ==> filters[i].operand == And
  }

  lemma {:induction false} OperandsJoin(g: Filter, i: nat, n: nat)
    requires g.Group? && i <= |g.filters| && Children(g, ByOperands, i, n).Ok?
    ensures |Children(g, ByOperands, i, n).value.items| == |g.filters| - i
    ensures forall k :: 0 <= k < |g.filters| - i ==> Children(g, ByOperands, i, n).value.items[k].conn == g.filters[i + k].operand
    decreases |g.filters| - i
  {
    if i < |g.filters| {
      OperandsJoin(g, i + 1, n + |Text(g.filters[i], n).value.vals|);
      hide Text;
    }
  }

  lemma AllOfAndFirst(items: seq<Item>, values: seq<Value>, sem: Sem)
    ensures AllOf(AndFirst(items), values, sem) == AllOf(items, values, sem)
  {
    if items != [] { assert AndFirst(items)[1..] == items[1..]; }
  }

  lemma AllOfSoft(has: bool, mode: Deleted, items: seq<Item>, values: seq<Value>, sem: Sem)
    ensures AllOf(Soft(has, mode) + items, values, sem) == And3(SoftMeaning(has, mode, sem), AllOf(items, values, sem))
  {
    var s := Soft(has, mode);
    if s == [] { assert s + items == items; } else { assert (s + items)[1..] == items; }
  }

  /** With only AND between the filters the text is the soft-delete clause and all of the filters. */
  lemma WhereMeans(has: bool, mode: Deleted, filters: seq<Filter>, n: nat, values: seq<Value>, sem: Sem)
    requires Where(has, mode, filters, n).Ok? && Where(has, mode, filters, n).value.items != []
    requires AllFilled(filters) && OnlyAnds(filters) && Slice(values, n, Where(has, mode, filters, n).value.vals)
    ensures var c := Reading(FlatText(Where(has, mode, filters, n).value.items));
      c.Some? && Eval(c.value, values, sem) == And3(SoftMeaning(has, mode, sem), AllMean(Top(filters), 0, sem))
  {
    WhereReads(has, mode, filters, n);
    var list := Children(Top(filters), ByOperands, 0, n).value.items;
    var items := Where(has, mode, filters, n).value.items;
    OperandsJoin(Top(filters), 0, n);
    ChildrenMean(Top(filters), ByOperands, 0, n, values, sem);
    AllOfAndFirst(list, values, sem);
    AllOfSoft(has, mode, AndFirst(list), values, sem);
    hide Eval, AllOf, FlatText, Slice, Reading;
    assert Joined(items, And);
    AndsAreAll(items, values, sem);
  }

  // ----- where an OR at the top leads

  const NotDeleted := IsA("deleted_at", false, NullV)

  /** The filter tests the soft-delete clause itself. */
  predicate TestsDeleted(f: Filter)
    decreases f
  {
    match f
    case FieldValue(c, op, right, _) => c == "deleted_at" && op == Is(false) && right == NullV
    case Group(fs, _, _) => exists i :: 0 <= i < |fs| && TestsDeleted(fs[i])
    case _ => false
  }

  /** A deleted row on which every other condition holds. */
  function DeletedButMatching(a: Atom): K3 {
    if a == NotDeleted then False else True
  }

  lemma {:induction false} MatchingMeans(f: Filter)
    requires Filled(f) && !TestsDeleted(f)
    ensures Meaning(f, DeletedButMatching) == True
    decreases f, 1, 0
  {
    match f
    case Group(fs, _, _) => MatchingChildren(f, 0);
    case _ =>
  }

  lemma {:induction false} MatchingChildren(g: Filter, i: nat)
    requires g.Group? && i <= |g.filters|
    requires forall k :: 0 <= k < |g.filters| ==> Filled(g.filters[k]) && !TestsDeleted(g.filters[k])
    ensures AllMean(g, i, DeletedButMatching) == True
    ensures i < |g.filters| ==> AnyMeans(g, i, DeletedButMatching) == True
    decreases g, 0, |g.filters| - i
  {
    if i < |g.filters| {
      MatchingMeans(g.filters[i]);
      MatchingChildren(g, i + 1);
    }
  }

  lemma {:induction false} AllTrueRuns(items: seq<Item>, values: seq<Value>, sem: Sem)
    requires items != [] && forall i :: 0 <= i < |items| ==> Eval(items[i].cond, values, sem) == True
    ensures Eval(Run(items).0, values, sem) == True && Eval(Runs(items), values, sem) == True
    decreases |items|
  {
    if |items| > 1 && items[1].conn == And {
      forall i | 0 <= i < |items[1..]| ensures Eval(items[1..][i].cond, values, sem) == True { assert items[1..][i] == items[i + 1]; }
      AllTrueRuns(items[1..], values, sem);
    }
    RunIsSuffix(items);
    var more := Run(items).1;
    if more != [] {
      forall i | 0 <= i < |more| ensures Eval(more[i].cond, values, sem) == True { assert more[i] == items[|items| - |more| + i]; }
      AllTrueRuns(more, values, sem);
    }
    EvalRuns(items, values, sem);
  }

  lemma EvalRuns(items: seq<Item>, values: seq<Value>, sem: Sem)
    requires items != []
    ensures Eval(Runs(items), values, sem) == (var r := Run(items);
      if r.1 == [] then Eval(r.0, values, sem) else Or3(Eval(r.0, values, sem), Eval(Runs(r.1), values, sem)))
  {
  }

  lemma {:induction false} OrSplits(items: seq<Item>, j: nat)
    requires 1 <= j < |items| && items[j].conn == Or
    ensures Run(items).1 != []
  {
    if items[1].conn == And {
      assert items[1..][j - 1] == items[j];
      OrSplits(items[1..], j - 1);
    }
  }

  /** Everything after the soft-delete clause holds, and there is an OR: the whole clause holds. */
  lemma OrAdmits(soft: Item, items: seq<Item>, j: nat, values: seq<Value>, sem: Sem)
    requires 1 <= j < |items| && items[j].conn == Or
    requires forall i :: 0 <= i < |items| ==> Eval(items[i].cond, values, sem) == True
    ensures Eval(Runs([soft] + items), values, sem) == True
  {
    var all := [soft] + items;
    assert all[j + 1] == items[j];
    OrSplits(all, j + 1);
    RunIsSuffix(all);
    var more := Run(all).1;
    hide Eval;
    forall i | 0 <= i < |more| ensures Eval(more[i].cond, values, sem) == True {
      assert more[i] == all[|all| - |more| + i];
    }
    AllTrueRuns(more, values, sem);
    EvalRuns(all, values, sem);
  }

  lemma {:induction false} ChildrenTrue(g: Filter, i: nat, n: nat, values: seq<Value>, sem: Sem)
    requires g.Group? && i <= |g.filters| && Children(g, ByOperands, i, n).Ok?
    requires forall k :: i <= k < |g.filters| ==> Filled(g.filters[k]) && Meaning(g.filters[k], sem) == True
    requires Slice(values, n, Children(g, ByOperands, i, n).value.vals)
    ensures forall k :: 0 <= k < |Children(g, ByOperands, i, n).value.items| ==>
      Eval(Children(g, ByOperands, i, n).value.items[k].cond, values, sem) == True
    decreases |g.filters| - i
  {
    if i < |g.filters| {
      var o := Text(g.filters[i], n).value;
      SliceParts(values, n, o.vals, Children(g, ByOperands, i + 1, n + |o.vals|).value.vals);
      TextMeans(g.filters[i], n, values, sem);
      ChildrenTrue(g, i + 1, n + |o.vals|, values, sem);
      hide Text, Meaning, Filled, Eval, Slice;
    }
  }

  ghost predicate AdmitsNoDeleted(c: Cond, values: seq<Value>) {
    forall sem: Sem :: sem(NotDeleted) == False ==> Eval(c, values, sem) != True
  }

  /** In the mode that excludes deleted rows: whatever truth values the filters' conditions have, the clause admits no deleted
      row, if and only if no filter but the first is joined by OR. The soft-delete clause is not parenthesised against the
      filters. */
  lemma ExcludesDeletedExactly(filters: seq<Filter>, n: nat, values: seq<Value>)
    requires Where(true, Excluded, filters, n).Ok? && Slice(values, n, Where(true, Excluded, filters, n).value.vals)
    requires AllFilled(filters) && forall i :: 0 <= i < |filters| ==> !TestsDeleted(filters[i])
    ensures AdmitsNoDeleted(Runs(Where(true, Excluded, filters, n).value.items), values) <==> OnlyAnds(filters)
  {
    var items := Where(true, Excluded, filters, n).value.items;
    if OnlyAnds(filters) {
      forall sem: Sem | sem(NotDeleted) == False ensures Eval(Runs(items), values, sem) != True {
        WhereMeans(true, Excluded, filters, n, values, sem);
        WhereReads(true, Excluded, filters, n);
      }
    } else {
      AdmitsDeleted(filters, n, values);
    }
  }

  lemma AdmitsDeleted(filters: seq<Filter>, n: nat, values: seq<Value>)
    requires Where(true, Excluded, filters, n).Ok? && Slice(values, n, Where(true, Excluded, filters, n).value.vals)
    requires AllFilled(filters) && forall i :: 0 <= i < |filters| ==> !TestsDeleted(filters[i])
    requires !OnlyAnds(filters)
    ensures !AdmitsNoDeleted(Runs(Where(true, Excluded, filters, n).value.items), values)
  {
    var items := Where(true, Excluded, filters, n).value.items;
    var sem := DeletedButMatching;
    var top := Top(filters);
    var list := Children(top, ByOperands, 0, n).value.items;
    forall k | 0 <= k < |filters| ensures Meaning(filters[k], sem) == True { MatchingMeans(filters[k]); }
    ChildrenTrue(top, 0, n, values, sem);
    OperandsJoin(top, 0, n);
    var j :| 1 <= j < |filters| && filters[j].operand != And;
    hide Children, Meaning, Eval, Slice, TestsDeleted, Filled;
    assert AndFirst(list)[j] == list[j];
    forall i | 0 <= i < |AndFirst(list)| ensures Eval(AndFirst(list)[i].cond, values, sem) == True {
      assert AndFirst(list)[i].cond == list[i].cond;
    }
    OrAdmits(SoftItem(false), AndFirst(list), j, values, sem);
    assert items == [SoftItem(false)] + AndFirst(list);
    assert sem(NotDeleted) == False;
  }

  // ----- which rows pass, AND binding more strongly than OR

  predicate ItemsHold(items: seq<Item>, i: nat, values: seq<Value>, sem: Sem)
    requires i < |items|
    decreases |items| - i
  {
    Eval(items[i].cond, values, sem) == True
    && (i + 1 < |items| && items[i + 1].conn == And ==> ItemsHold(items, i + 1, values, sem))
  }

  predicate LaterRun(items: seq<Item>, i: nat, values: seq<Value>, sem: Sem) {
    exists j :: i < j < |items| && items[j].conn == Or && ItemsHold(items, j, values, sem)
  }

  /** The first run of an item list, and the runs after it. */
  lemma {:induction false} RunsHold(items: seq<Item>, i: nat, values: seq<Value>, sem: Sem)
    requires i < |items|
    ensures var r := Run(items[i..]);
      && (Eval(r.0, values, sem) == True <==> ItemsHold(items, i, values, sem))
      && (r.1 != [] && Eval(Runs(r.1), values, sem) == True <==> LaterRun(items, i, values, sem))
    decreases |items| - i
  {
    if i + 1 < |items| {
      RunsHold(items, i + 1, values, sem);
      assert items[i..][0] == items[i] && items[i..][1] == items[i + 1] && items[i..][1..] == items[i + 1..];
      NextRun(items, i, values, sem);
      if items[i + 1].conn == Or { EvalRuns(items[i + 1..], values, sem); }
    }
  }

  lemma NextRun(items: seq<Item>, i: nat, values: seq<Value>, sem: Sem)
    requires i + 1 < |items|
    ensures LaterRun(items, i, values, sem) <==>
      LaterRun(items, i + 1, values, sem) || (items[i + 1].conn == Or && ItemsHold(items, i + 1, values, sem))
  {
    hide ItemsHold;
  }

  /** The filters from `i` to the next OR all hold. */
  predicate FiltersHold(filters: seq<Filter>, i: nat, sem: Sem)
    requires i < |filters|
    decreases |filters| - i
  {
    Meaning(filters[i], sem) == True
    && (i + 1 < |filters| && filters[i + 1].operand == And ==> FiltersHold(filters, i + 1, sem))
  }

  /** Some filter joined by OR holds, with those that follow it up to the next OR. */
  predicate PassesByOr(filters: seq<Filter>, sem: Sem) {
    exists i :: 1 <= i < |filters| && filters[i].operand == Or && FiltersHold(filters, i, sem)
  }

  lemma {:induction false} ChildrenEval(g: Filter, i: nat, n: nat, values: seq<Value>, sem: Sem)
    requires g.Group? && i <= |g.filters| && Children(g, ByOperands, i, n).Ok?
    requires forall k :: i <= k < |g.filters| ==> Filled(g.filters[k])
    requires Slice(values, n, Children(g, ByOperands, i, n).value.vals)
    ensures |Children(g, ByOperands, i, n).value.items| == |g.filters| - i
    ensures forall k :: 0 <= k < |g.filters| - i ==>
      Eval(Children(g, ByOperands, i, n).value.items[k].cond, values, sem) == Meaning(g.filters[i + k], sem)
    decreases |g.filters| - i
  {
    if i < |g.filters| {
      var o := Text(g.filters[i], n).value;
      SliceParts(values, n, o.vals, Children(g, ByOperands, i + 1, n + |o.vals|).value.vals);
      TextMeans(g.filters[i], n, values, sem);
      ChildrenEval(g, i + 1, n + |o.vals|, values, sem);
      hide Text, Meaning, Filled, Eval, Slice;
    }
  }

  /** Item `i + off` of the clause is filter `i`. */
  predicate Lists(items: seq<Item>, off: nat, filters: seq<Filter>, values: seq<Value>, sem: Sem) {
    |items| == |filters| + off && forall i :: 0 <= i < |filters| ==> ItemIs(items[off + i], filters[i], i == 0, values, sem)
  }

  predicate ItemIs(item: Item, f: Filter, first: bool, values: seq<Value>, sem: Sem) {
    Eval(item.cond, values, sem) == Meaning(f, sem) && item.conn == if first then And else f.operand
  }

  lemma {:induction false} FiltersAreItems(items: seq<Item>, off: nat, filters: seq<Filter>, i: nat, values: seq<Value>, sem: Sem)
    requires Lists(items, off, filters, values, sem) && i < |filters|
    ensures ItemsHold(items, off + i, values, sem) <==> FiltersHold(filters, i, sem)
    decreases |filters| - i
  {
    hide Eval, Meaning;
    assert ItemIs(items[off + i], filters[i], i == 0, values, sem);
    if i + 1 < |filters| {
      FiltersAreItems(items, off, filters, i + 1, values, sem);
      assert ItemIs(items[off + (i + 1)], filters[i + 1], false, values, sem);
    }
  }

  lemma LaterIsOr(items: seq<Item>, off: nat, filters: seq<Filter>, values: seq<Value>, sem: Sem)
    requires Lists(items, off, filters, values, sem) && off <= 1 && items != []
    ensures LaterRun(items, 0, values, sem) <==> PassesByOr(filters, sem)
  {
    hide Eval, Meaning, ItemsHold, FiltersHold;
    if LaterRun(items, 0, values, sem) {
      var j :| 0 < j < |items| && items[j].conn == Or && ItemsHold(items, j, values, sem);
      assert items[off + (j - off)] == items[j];
      assert ItemIs(items[off + (j - off)], filters[j - off], j == off, values, sem);
      FiltersAreItems(items, off, filters, j - off, values, sem);
    }
    if PassesByOr(filters, sem) {
      var i :| 1 <= i < |filters| && filters[i].operand == Or && FiltersHold(filters, i, sem);
      FiltersAreItems(items, off, filters, i, values, sem);
      assert ItemIs(items[off + i], filters[i], false, values, sem);
    }
  }

  lemma WhereLists(has: bool, mode: Deleted, filters: seq<Filter>, n: nat, values: seq<Value>, sem: Sem)
    requires Where(has, mode, filters, n).Ok? && AllFilled(filters) && Slice(values, n, Where(has, mode, filters, n).value.vals)
    ensures Lists(Where(has, mode, filters, n).value.items, |Soft(has, mode)|, filters, values, sem)
  {
    var list := Children(Top(filters), ByOperands, 0, n).value.items;
    TopItems(filters, n, values, sem);
    hide Children, Eval, Meaning, Slice, Filled;
    var items := Soft(has, mode) + AndFirst(list);
    forall i | 0 <= i < |filters| ensures ItemIs(items[|Soft(has, mode)| + i], filters[i], i == 0, values, sem) {
      assert items[|Soft(has, mode)| + i] == AndFirst(list)[i];
    }
  }

  lemma TopItems(filters: seq<Filter>, n: nat, values: seq<Value>, sem: Sem)
    requires Children(Top(filters), ByOperands, 0, n).Ok? && AllFilled(filters)
    requires Slice(values, n, Children(Top(filters), ByOperands, 0, n).value.vals)
    ensures var list := Children(Top(filters), ByOperands, 0, n).value.items;
      |list| == |filters| && forall i :: 0 <= i < |filters| ==>
        list[i].conn == filters[i].operand && Eval(list[i].cond, values, sem) == Meaning(filters[i], sem)
  {
    hide Children, Eval, Meaning, Slice, Filled;
    var top := Top(filters);
    OperandsJoin(top, 0, n);
    ChildrenEval(top, 0, n, values, sem);
    var list := Children(top, ByOperands, 0, n).value.items;
    forall i | 0 <= i < |filters|
      ensures list[i].conn == filters[i].operand && Eval(list[i].cond, values, sem) == Meaning(filters[i], sem) {
      assert top.filters[0 + i] == filters[i];
    }
  }

  /** Whatever the operands at the top: a row passes the clause exactly when it passes the soft-delete clause and the filters
      up to the first OR, or the filters from some OR to the next. */
  lemma PassesExactly(has: bool, mode: Deleted, filters: seq<Filter>, n: nat, values: seq<Value>, sem: Sem)
    requires Where(has, mode, filters, n).Ok? && Where(has, mode, filters, n).value.items != []
    requires AllFilled(filters) && Slice(values, n, Where(has, mode, filters, n).value.vals)
    ensures var c := Reading(FlatText(Where(has, mode, filters, n).value.items));
      c.Some? && (Eval(c.value, values, sem) == True <==>
        (SoftMeaning(has, mode, sem) == True && (filters == [] || FiltersHold(filters, 0, sem))) || PassesByOr(filters, sem))
  {
    var items := Where(has, mode, filters, n).value.items;
    var off := |Soft(has, mode)|;
    WhereReads(has, mode, filters, n);
    WhereLists(has, mode, filters, n, values, sem);
    assert items[0..] == items;
    RunsHold(items, 0, values, sem);
    EvalRuns(items, values, sem);
    LaterIsOr(items, off, filters, values, sem);
    if filters != [] { FiltersAreItems(items, off, filters, 0, values, sem); }
    FirstHolds(has, mode, items, filters, values, sem);
  }

  lemma FirstHolds(has: bool, mode: Deleted, items: seq<Item>, filters: seq<Filter>, values: seq<Value>, sem: Sem)
    requires items != [] && Soft(has, mode) <= items && Lists(items, |Soft(has, mode)|, filters, values, sem)
    requires filters != [] ==>
      (ItemsHold(items, |Soft(has, mode)|, values, sem) <==> FiltersHold(filters, 0, sem))
    ensures ItemsHold(items, 0, values, sem) <==>
      SoftMeaning(has, mode, sem) == True && (filters == [] || FiltersHold(filters, 0, sem))
  {
    var off := |Soft(has, mode)|;
    if filters != [] { assert ItemIs(items[off + 0], filters[0], true, values, sem); }
    if off == 1 { assert Eval(items[0].cond, values, sem) == SoftMeaning(has, mode, sem); }
    hide FiltersHold, Meaning;
  }

  /** Where deleted rows are excluded, a deleted row passes exactly by an OR. */
  lemma DeletedPassesExactly(filters: seq<Filter>, n: nat, values: seq<Value>, sem: Sem)
    requires Where(true, Excluded, filters, n).Ok? && Slice(values, n, Where(true, Excluded, filters, n).value.vals)
    requires AllFilled(filters) && sem(NotDeleted) == False
    ensures var c := Reading(FlatText(Where(true, Excluded, filters, n).value.items));
      c.Some? && (Eval(c.value, values, sem) == True <==> PassesByOr(filters, sem))
  {
    hide Eval, FlatText, Reading, FiltersHold, Slice;
    PassesExactly(true, Excluded, filters, n, values, sem);
  }

  // ----- rendering

  /** Collects the bound values; the answer of `Add` is the number of the placeholder. */
  class ParamWriter {
    var values: seq<Value>

    constructor ()
      ensures values == []
    {
      values := [];
    }

    method Add(v: Value) returns (n: nat)
      modifies this
      ensures values == old(values) + [v] && n == |values|
    {
      values := values + [v];
      n := |values|;
    }

    /** One placeholder for each value, in order. */
    method AddHoles(vs: seq<Value>) returns (toks: Toks)
      modifies this
      ensures values == old(values) + vs && toks == Holes(|old(values)|, |vs|)
    {
      toks := [];
      ghost var n := |values|;
      for k := 0 to |vs|
        invariant values == old(values) + vs[..k] && toks == Holes(n, k)
      {
        var p := Add(vs[k]);
        toks := toks + [Param(p)];
      }
    }

    method AddList(vs: seq<Value>) returns (toks: Toks)
      modifies this
      ensures values == old(values) + vs && toks == ParamList(|old(values)|, |vs|)
    {
      toks := [];
      ghost var n := |values|;
      for k := 0 to |vs|
        invariant values == old(values) + vs[..k] && toks == ParamList(n, k)
      {
        var p := Add(vs[k]);
        ListGrows(n, k);
        toks := toks + (if k == 0 then [Param(p)] else [Comma, Param(p)]);
      }
    }

    method RenderValue(c: string, op: Op, right: Value) returns (r: Result<Toks, Error>)
      modifies this
      ensures Rendered(ValueText(c, op, right, |old(values)|), old(values), r)
    {
      match op {
        case In(_) =>
          var list := AddList(Listed(right));
          return Ok([ColT(c), OpT(op), Open] + list + [Close]);
        case Between =>
          var vs := Listed(right);
          if |vs| != 2 { return Err(BetweenNeedsTwo); }
          var lo := Add(vs[0]);
          var hi := Add(vs[1]);
          assert old(values) + [vs[0]] + [vs[1]] == old(values) + vs;
          return Ok([ColT(c), OpT(op), Param(lo), Join(And), Param(hi)]);
        case Is(_) =>
          if !(right.NullV? || right.BoolV?) { return Err(IsNeedsNullOrBoolean); }
          return Ok([ColT(c), OpT(op), LitT(right)]);
        case Like(_) =>
          var p := Add(right);
          return Ok([ColT(c), OpT(op), Param(p), EscapeT]);
        case Vector(_) =>
          var p := Add(right);
          return Ok([ColT(c), OpT(op), Param(p), CastT]);
        case Ne(_) =>
          var p := Add(right);
          return Ok([Open, ColT(c), OpT(Is(false)), LitT(NullV), Join(Or), ColT(c), OpT(op), Param(p), Close]);
        case Cmp(_) =>
          var p := Add(right);
          return Ok([ColT(c), OpT(op), Param(p)]);
      }
    }

    /** The text is the specified one and the values are appended in the order of their placeholders. */
    ghost predicate Rendered(t: Result<Out, Error>, before: seq<Value>, r: Result<Toks, Error>)
      reads this
    {
      if t.Ok? then r == Ok(t.value.toks) && values == before + t.value.vals else r == Err(t.error)
    }

    method RenderFilterExpr(f: Filter) returns (r: Result<Toks, Error>)
      modifies this
      ensures Rendered(Text(f, |old(values)|), old(values), r)
      decreases f, 1, 0
    {
      match f {
        case FieldValue(c, op, right, _) => r := RenderValue(c, op, right);
        case FieldField(a, name, b, _) => r := Ok([ColT(a), OpT(Cmp(name)), ColT(b)]);
        case Raw(t, _) => r := Ok([RawT(t)]);
        case Expr(left, op, right, _) =>
          if |left.params| < left.holes { return Err(TooManyMarkers); }
          var l := AddHoles(left.params[..left.holes]);
          if |right.params| < right.holes { return Err(TooManyMarkers); }
          var h := AddHoles(right.params[..right.holes]);
          r := Ok([TemplateT(left.sql, left.holes)] + l + [OpT(op), TemplateT(right.sql, right.holes)] + h);
        case Group(_, _, _) =>
          var inner := RenderChildren(f, ByConnector, 0);
          if inner.Err? { return Err(inner.error); }
          r := Ok([Open] + inner.value + [Close]);
      }
    }

    /** The children from `i` on with their words between them. */
    method RenderChildren(g: Filter, mode: Mode, i: nat) returns (r: Result<Toks, Error>)
      requires g.Group? && i <= |g.filters|
      modifies this
      ensures RenderedList(Children(g, mode, i, |old(values)|), old(values), r)
      decreases g, 0, |g.filters| - i
    {
      if i == |g.filters| { return Ok([]); }
      ChildrenUnfold(g, mode, i, |values|);
      hide Text, Children, FlatText;
      var first := RenderFilterExpr(g.filters[i]);
      if first.Err? { return first; }
      ghost var vals := Text(g.filters[i], |old(values)|).value.vals;
      var rest := RenderChildren(g, mode, i + 1);
      if rest.Err? { return rest; }
      Appended(old(values), vals, Children(g, mode, i + 1, |old(values)| + |vals|).value.vals);
      if i + 1 == |g.filters| {
        r := Ok(first.value);
      } else {
        r := Ok(first.value + ([Join(WordBefore(g, mode, i + 1))] + rest.value));
      }
    }

    ghost predicate RenderedList(t: Result<Parts, Error>, before: seq<Value>, r: Result<Toks, Error>)
      reads this
    {
      if t.Ok? then r == Ok(FlatText(t.value.items)) && values == before + t.value.vals else r == Err(t.error)
    }

    /** The soft-delete clause and the filters, joined by AND; empty when there is neither. */
    method RenderWhere(has: bool, mode: Deleted, filters: seq<Filter>) returns (r: Result<Toks, Error>)
      modifies this
      ensures RenderedList(Where(has, mode, filters, |old(values)|), old(values), r)
    {
      var soft: Toks := [];
      if has && mode.OnlyDeleted? { soft := SoftItem(true).toks; }
      if has && mode.Excluded? { soft := SoftItem(false).toks; }
      var expr := RenderChildren(Top(filters), ByOperands, 0);
      if expr.Err? { return expr; }
      ghost var list := Children(Top(filters), ByOperands, 0, |old(values)|).value.items;
      OperandsJoin(Top(filters), 0, |old(values)|);
      hide Children;
      FlatAndFirst(list);
      WhereText(has, mode, list);
      if filters == [] { return Ok(soft); }
      if soft == [] { return Ok(expr.value); }
      return Ok(soft + ([Join(And)] + expr.value));
    }
  }

  lemma {:induction false} ListGrows(n: nat, k: nat)
    ensures ParamList(n, k + 1) == ParamList(n, k) + (if k == 0 then [Param(n + k + 1)] else [Comma, Param(n + k + 1)])
    decreases k
  {
    if k > 0 { ListGrows(n + 1, k - 1); }
    if k > 1 {
      assert ParamList(n, k + 1) == [Param(n + 1), Comma] + ParamList(n + 1, k);
    }
  }

  predicate Unfolded(g: Filter, mode: Mode, i: nat, first: Out, rest: Result<Parts, Error>, all: Result<Parts, Error>)
    requires g.Group? && i < |g.filters|
  {
    (rest.Err? ==> all == rest)
    && (rest.Ok? ==> all.Ok? && all.value.vals == first.vals + rest.value.vals)
    && (rest.Ok? && i + 1 == |g.filters| ==> FlatText(all.value.items) == first.toks)
    && (rest.Ok? && i + 1 < |g.filters| ==>
        FlatText(all.value.items) == first.toks + ([Join(WordBefore(g, mode, i + 1))] + FlatText(rest.value.items)))
  }

  lemma Appended(a: seq<Value>, b: seq<Value>, c: seq<Value>)
    ensures (a + b) + c == a + (b + c)
  {
  }

  /** One child more: its text, the next word, the rest. */
  lemma ChildrenUnfold(g: Filter, mode: Mode, i: nat, n: nat)
    requires g.Group? && i < |g.filters|
    ensures Text(g.filters[i], n).Err? ==> Children(g, mode, i, n) == Err(Text(g.filters[i], n).error)
    ensures Text(g.filters[i], n).Ok? ==>
      Unfolded(g, mode, i, Text(g.filters[i], n).value, Children(g, mode, i + 1, n + |Text(g.filters[i], n).value.vals|),
               Children(g, mode, i, n))
  {
    var first := Text(g.filters[i], n);
    if first.Ok? {
      var m := n + |first.value.vals|;
      var rest := Children(g, mode, i + 1, m);
      if rest.Ok? {
        ChildrenCount(g, mode, i + 1, m);
        assert Children(g, mode, i, n).value.items[1..] == rest.value.items;
        HeadWord(g, mode, i + 1, m);
      }
    }
  }

  lemma HeadWord(g: Filter, mode: Mode, i: nat, n: nat)
    requires g.Group? && i <= |g.filters| && Children(g, mode, i, n).Ok?
    ensures var items := Children(g, mode, i, n).value.items;
      (items == [] <==> i == |g.filters|) && (i < |g.filters| ==> items[0].conn == WordBefore(g, mode, i))
  {
    hide Text;
  }

  lemma FlatAndFirst(items: seq<Item>)
    ensures FlatText(AndFirst(items)) == FlatText(items)
  {
    if items != [] { assert AndFirst(items)[1..] == items[1..]; }
  }

  lemma WhereText(has: bool, mode: Deleted, items: seq<Item>)
    ensures var s := Soft(has, mode);
      FlatText(s + AndFirst(items)) == if s == [] then FlatText(AndFirst(items))
        else if items == [] then s[0].toks else s[0].toks + ([Join(And)] + FlatText(AndFirst(items)))
  {
    var s := Soft(has, mode);
    if s == [] { assert s + AndFirst(items) == AndFirst(items); } else { assert (s + AndFirst(items))[1..] == AndFirst(items); }
  }
}
