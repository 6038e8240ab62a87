/** Filter trees, their text with numbered parameters, and what the text means. */
module QueryFilter {
  import opened Outcomes
  import opened QueryText

  datatype Template = Template(sql: string, holes: nat, params: seq<Value>)

  datatype Filter =
    | FieldValue(col: string, op: Op, right: Value, operand: Conn)
    | FieldField(left: string, name: string, other: string, operand: Conn)
    | Raw(text: string, operand: Conn)
    | Expr(l: Template, eop: Op, r: Template, operand: Conn)
    | Group(filters: seq<Filter>, connector: Option<Conn>, operand: Conn)

  /** `Group` with the operands of its children between them: the list of a WHERE clause. */
  datatype Mode = ByConnector | ByOperands

  // ----- meaning

  datatype K3 = False | Unknown | True

  function And3(a: K3, b: K3): K3 {
    if a == False || b == False then False else if a == Unknown || b == Unknown then Unknown else True
  }

  function Or3(a: K3, b: K3): K3 {
    if a == True || b == True then True else if a == Unknown || b == Unknown then Unknown else False
  }

  /** A single condition with its values. */
  datatype Atom =
    | ValueA(col: string, op: Op, vs: seq<Value>)
    | IsA(col: string, neg: bool, lit: Value)
    | FieldA(left: string, name: string, right: string)
    | RawA(text: string)
    | ExprA(lsql: string, lvs: seq<Value>, eop: Op, rsql: string, rvs: seq<Value>)

  /** What the database makes of a single condition on the row at hand. */
  type Sem = Atom -> K3

  function Bound(ps: seq<nat>, values: seq<Value>): seq<Value> {
    seq(|ps|, i requires 0 <= i < |ps| => if 0 < ps[i] <= |values| then values[ps[i] - 1] else NullV)
  }

  function Bind(l: Leaf, values: seq<Value>): Atom {
    match l
    case ValueL(c, op, ps) => ValueA(c, op, Bound(ps, values))
    case IsL(c, neg, lit) => IsA(c, neg, lit)
    case FieldL(a, op, b) => FieldA(a, op, b)
    case RawL(t) => RawA(t)
    case ExprL(a, ps, op, b, qs) => ExprA(a, Bound(ps, values), op, b, Bound(qs, values))
  }

  function Eval(c: Cond, values: seq<Value>, sem: Sem): K3 {
    match c
    case LeafC(l) => sem(Bind(l, values))
    case AndC(a, b) => And3(Eval(a, values, sem), Eval(b, values, sem))
    case OrC(a, b) => Or3(Eval(a, values, sem), Eval(b, values, sem))
  }

  function Listed(right: Value): seq<Value> {
    if right.ArrV? then right.vs else [right]
  }

  function ConnOf(g: Filter): Conn
    requires g.Group?
  {
    if g.connector.Some? then g.connector.value else g.operand
  }

  /** What the filter says: each group its connector over its children, `!=` also true of NULL. */
  function Meaning(f: Filter, sem: Sem): K3
    decreases f, 1, 0
  {
    match f
    case FieldValue(c, op, right, _) =>
      (match op
       case Ne(_) => Or3(sem(IsA(c, false, NullV)), sem(ValueA(c, op, [right])))
       case In(_) => sem(ValueA(c, op, Listed(right)))
       case Between => sem(ValueA(c, op, Listed(right)))
       case Is(neg) => sem(IsA(c, neg, right))
       case _ => sem(ValueA(c, op, [right])))
    case FieldField(a, name, b, _) => sem(FieldA(a, name, b))
    case Raw(t, _) => sem(RawA(t))
    case Expr(l, op, r, _) =>
      sem(ExprA(l.sql, l.params[..Min(l.holes, |l.params|)], op, r.sql, r.params[..Min(r.holes, |r.params|)]))
    case Group(_, _, _) => if ConnOf(f) == And then AllMean(f, 0, sem) else AnyMeans(f, 0, sem)
  }

  function Min(a: nat, b: nat): nat { if a < b then a else b }

  function AllMean(g: Filter, i: nat, sem: Sem): K3
    requires g.Group? && i <= |g.filters|
    decreases g, 0, |g.filters| - i
  {
    if i == |g.filters| then True else And3(Meaning(g.filters[i], sem), AllMean(g, i + 1, sem))
  }

  function AnyMeans(g: Filter, i: nat, sem: Sem): K3
    requires g.Group? && i <= |g.filters|
    decreases g, 0, |g.filters| - i
  {
    if i == |g.filters| then False else Or3(Meaning(g.filters[i], sem), AnyMeans(g, i + 1, sem))
  }

  // ----- the meaning of groups and comparisons, told by truth values

  /** A group is joined by its connector, or, without one, by its own operand. AND is true when every child is and false when one
      is; OR the other way round. */
  lemma GroupMeaning(g: Filter, sem: Sem)
    requires g.Group?
    ensures var every := g.connector == Some(And) || (g.connector == None && g.operand == And);
      if every then
        (Meaning(g, sem) == True <==> forall i :: 0 <= i < |g.filters| ==> Meaning(g.filters[i], sem) == True)
        && (Meaning(g, sem) == False <==> exists i :: 0 <= i < |g.filters| && Meaning(g.filters[i], sem) == False)
      else
        (Meaning(g, sem) == True <==> exists i :: 0 <= i < |g.filters| && Meaning(g.filters[i], sem) == True)
        && (Meaning(g, sem) == False <==> forall i :: 0 <= i < |g.filters| ==> Meaning(g.filters[i], sem) == False)
  {
    AllMeanIs(g, 0, sem);
    AnyMeansIs(g, 0, sem);
  }

  lemma {:induction false} AllMeanIs(g: Filter, i: nat, sem: Sem)
    requires g.Group? && i <= |g.filters|
    ensures AllMean(g, i, sem) == True <==> forall k :: i <= k < |g.filters| ==> Meaning(g.filters[k], sem) == True
    ensures AllMean(g, i, sem) == False <==> exists k :: i <= k < |g.filters| && Meaning(g.filters[k], sem) == False
    decreases |g.filters| - i
  {
    if i < |g.filters| { AllMeanIs(g, i + 1, sem); }
  }

  lemma {:induction false} AnyMeansIs(g: Filter, i: nat, sem: Sem)
    requires g.Group? && i <= |g.filters|
    ensures AnyMeans(g, i, sem) == True <==> exists k :: i <= k < |g.filters| && Meaning(g.filters[k], sem) == True
    ensures AnyMeans(g, i, sem) == False <==> forall k :: i <= k < |g.filters| ==> Meaning(g.filters[k], sem) == False
    decreases |g.filters| - i
  {
    if i < |g.filters| { AnyMeansIs(g, i + 1, sem); }
  }

  /** `!=` is true of NULL and of what differs; a list stands for its values, any other value for itself. */
  lemma ComparisonMeaning(c: string, op: Op, right: Value, operand: Conn, sem: Sem)
    ensures var m := Meaning(FieldValue(c, op, right, operand), sem); var listed := if right.ArrV? then right.vs else [right];
      (op.Ne? ==> (m == True <==> sem(IsA(c, false, NullV)) == True || sem(ValueA(c, op, [right])) == True))
      && (op.Ne? ==> (m == False <==> sem(IsA(c, false, NullV)) == False && sem(ValueA(c, op, [right])) == False))
      && (op.In? || op.Between? ==> m == sem(ValueA(c, op, listed)))
      && (op.Is? ==> m == sem(IsA(c, op.neg, right)))
      && (op.Cmp? || op.Like? || op.Vector? ==> m == sem(ValueA(c, op, [right])))
  {
  }

  // ----- text

  /** Text, the values it binds, and the condition it is meant to read as. */
  datatype Out = Out(toks: Toks, vals: seq<Value>, cond: Cond)

  datatype Error = TooManyMarkers | BetweenNeedsTwo | IsNeedsNullOrBoolean

  function Numbers(n: nat, k: nat): seq<nat> {
    seq(k, i requires 0 <= i < k => n + 1 + i)
  }

  function Holes(n: nat, k: nat): Toks {
    seq(k, i requires 0 <= i < k => Param(n + 1 + i))
  }

  /** `$n+1, …, $n+k`. */
  function ParamList(n: nat, k: nat): Toks
    decreases k
  {
    if k == 0 then [] else if k == 1 then [Param(n + 1)] else [Param(n + 1), Comma] + ParamList(n + 1, k - 1)
  }

  function Leaf1(toks: Toks, vals: seq<Value>, l: Leaf): Result<Out, Error> {
    Ok(Out(toks, vals, LeafC(l)))
  }

  /** The text of a filter after `n` values have been bound. */
  function Text(f: Filter, n: nat): Result<Out, Error>
    decreases f, 1, 0
  {
    match f
    case FieldValue(c, op, right, _) => ValueText(c, op, right, n)
    case FieldField(a, name, b, _) => Leaf1([ColT(a), OpT(Cmp(name)), ColT(b)], [], FieldL(a, name, b))
    case Raw(t, _) => Leaf1([RawT(t)], [], RawL(t))
    case Expr(l, op, r, _) =>
      if |l.params| < l.holes || |r.params| < r.holes then Err(TooManyMarkers)
      else Leaf1([TemplateT(l.sql, l.holes)] + Holes(n, l.holes) + [OpT(op), TemplateT(r.sql, r.holes)] + Holes(n + l.holes, r.holes),
                 l.params[..l.holes] + r.params[..r.holes],
                 ExprL(l.sql, Numbers(n, l.holes), op, r.sql, Numbers(n + l.holes, r.holes)))
    case Group(_, _, _) =>
      var parts := Children(f, ByConnector, 0, n);
      if parts.Err? then Err(parts.error)
      else Ok(Out([Open] + FlatText(parts.value.items) + [Close], parts.value.vals,
                  if parts.value.items == [] then LeafC(RawL("")) else Runs(parts.value.items)))
  }

  function ValueText(c: string, op: Op, right: Value, n: nat): Result<Out, Error> {
    match op
    case In(_) =>
      var vs := Listed(right);
      Leaf1([ColT(c), OpT(op), Open] + ParamList(n, |vs|) + [Close], vs, ValueL(c, op, Numbers(n, |vs|)))
    case Between =>
      var vs := Listed(right);
      if |vs| != 2 then Err(BetweenNeedsTwo)
      else Leaf1([ColT(c), OpT(op), Param(n + 1), Join(And), Param(n + 2)], vs, ValueL(c, op, [n + 1, n + 2]))
    case Is(neg) =>
      if right.NullV? || right.BoolV? then Leaf1([ColT(c), OpT(op), LitT(right)], [], IsL(c, neg, right))
      else Err(IsNeedsNullOrBoolean)
    case Like(_) => Leaf1([ColT(c), OpT(op), Param(n + 1), EscapeT], [right], ValueL(c, op, [n + 1]))
    case Vector(_) => Leaf1([ColT(c), OpT(op), Param(n + 1), CastT], [right], ValueL(c, op, [n + 1]))
    case Ne(_) =>
      Ok(Out([Open, ColT(c), OpT(Is(false)), LitT(NullV), Join(Or), ColT(c), OpT(op), Param(n + 1), Close], [right],
             OrC(LeafC(IsL(c, false, NullV)), LeafC(ValueL(c, op, [n + 1])))))
    case Cmp(_) => Leaf1([ColT(c), OpT(op), Param(n + 1)], [right], ValueL(c, op, [n + 1]))
  }

  /** Which values a comparison binds, in order, and when it is refused: BETWEEN without two values, IS with anything but NULL or a
      boolean, an expression with fewer values than marks. */
  lemma ValuesBound(f: Filter, n: nat)
    ensures f.FieldValue? ==>
      var r, v, t := f.right, if f.right.ArrV? then f.right.vs else [f.right], Text(f, n);
      if f.op.Between? && !(r.ArrV? && |r.vs| == 2) then t == Err(BetweenNeedsTwo)
      else if f.op.Is? && !r.NullV? && !r.BoolV? then t == Err(IsNeedsNullOrBoolean)
      else t.Ok? && t.value.vals == if f.op.Is? then [] else if f.op.In? || f.op.Between? then v else [r]
    ensures f.Expr? ==>
      var t := Text(f, n);
      if |f.l.params| < f.l.holes || |f.r.params| < f.r.holes then t == Err(TooManyMarkers)
      else t.Ok? && t.value.vals == f.l.params[..f.l.holes] + f.r.params[..f.r.holes]
    ensures f.FieldField? || f.Raw? ==> Text(f, n).Ok? && Text(f, n).value.vals == []
  {
  }

  datatype Parts = Parts(items: seq<Item>, vals: seq<Value>)

  function WordBefore(g: Filter, mode: Mode, i: nat): Conn
    requires g.Group? && i < |g.filters|
  {
    if mode == ByConnector then ConnOf(g) else g.filters[i].operand
  }

  /** The children from `i` on, in order, each after the values of those before it. */
  function Children(g: Filter, mode: Mode, i: nat, n: nat): Result<Parts, Error>
    requires g.Group? && i <= |g.filters|
    decreases g, 0, |g.filters| - i
  {
    if i == |g.filters| then Ok(Parts([], []))
    else
      var first := Text(g.filters[i], n);
      if first.Err? then Err(first.error)
      else
        var rest := Children(g, mode, i + 1, n + |first.value.vals|);
        if rest.Err? then rest
        else Ok(Parts([Item(WordBefore(g, mode, i), first.value.toks, first.value.cond)] + rest.value.items,
                            first.value.vals + rest.value.vals))
  }

  // ----- what can be read

  /** No group and no IN list is empty. */
  predicate Filled(f: Filter)
    decreases f
  {
    match f
    case FieldValue(_, op, right, _) => op.In? ==> Listed(right) != []
    case Group(fs, _, _) => fs != [] && forall i :: 0 <= i < |fs| ==> Filled(fs[i])
    case _ => true
  }

  lemma {:induction false} ReadHolesIs(n: nat, k: nat, rest: Toks)
    ensures ReadHoles(Holes(n, k) + rest, k) == Some((Numbers(n, k), rest))
    decreases k
  {
    if k == 0 {
      assert Holes(n, k) + rest == rest;
    } else {
      assert Holes(n, k) == [Param(n + 1)] + Holes(n + 1, k - 1);
      assert (Holes(n, k) + rest)[1..] == Holes(n + 1, k - 1) + rest;
      ReadHolesIs(n + 1, k - 1, rest);
      assert Numbers(n, k) == [n + 1] + Numbers(n + 1, k - 1);
    }
  }

  lemma {:induction false} ReadListIs(n: nat, k: nat, rest: Toks)
    requires k > 0
    ensures ReadList(ParamList(n, k) + ([Close] + rest)) == Some((Numbers(n, k), rest))
    decreases k
  {
    var ts := ParamList(n, k) + ([Close] + rest);
    if k == 1 {
      assert ts[2..] == rest;
      assert Numbers(n, 1) == [n + 1];
    } else {
      assert ts[2..] == ParamList(n + 1, k - 1) + ([Close] + rest);
      ReadListIs(n + 1, k - 1, rest);
      assert Numbers(n, k) == [n + 1] + Numbers(n + 1, k - 1);
    }
  }

  lemma ValueReads(c: string, op: Op, right: Value, n: nat, rest: Toks)
    requires ValueText(c, op, right, n).Ok? && (op.In? ==> Listed(right) != [])
    ensures var o := ValueText(c, op, right, n).value; ReadPrimary(o.toks + rest) == Some((o.cond, rest))
  {
    var o := ValueText(c, op, right, n).value;
    var ts := o.toks + rest;
    match op
    case In(_) => InReads(c, op, Listed(right), n, rest);
    case Ne(_) => NeReads(c, op, right, n, rest);
    case Between => assert ts[2..][3..] == rest;
    case Is(_) => assert ts[2..][1..] == rest;
    case Like(_) => assert ts[2..][2..] == rest;
    case Vector(_) => assert ts[2..][2..] == rest;
    case Cmp(_) => assert ts[2..][1..] == rest;
  }

  lemma InReads(c: string, op: Op, vs: seq<Value>, n: nat, rest: Toks)
    requires op.In? && vs != []
    ensures ReadPrimary([ColT(c), OpT(op), Open] + ParamList(n, |vs|) + [Close] + rest)
      == Some((LeafC(ValueL(c, op, Numbers(n, |vs|))), rest))
  {
    var ts := [ColT(c), OpT(op), Open] + ParamList(n, |vs|) + [Close] + rest;
    assert ts[2..][1..] == ParamList(n, |vs|) + ([Close] + rest);
    ReadListIs(n, |vs|, rest);
  }

  lemma NeReads(c: string, op: Op, right: Value, n: nat, rest: Toks)
    requires op.Ne?
    ensures var o := ValueText(c, op, right, n).value; ReadPrimary(o.toks + rest) == Some((o.cond, rest))
  {
    var a := Item(Or, [ColT(c), OpT(Is(false)), LitT(NullV)], LeafC(IsL(c, false, NullV)));
    var b := Item(Or, [ColT(c), OpT(op), Param(n + 1)], LeafC(ValueL(c, op, [n + 1])));
    forall r: Toks ensures ReadPrimary(a.toks + r) == Some((a.cond, r)) { assert (a.toks + r)[2..][1..] == r; }
    forall r: Toks ensures ReadPrimary(b.toks + r) == Some((b.cond, r)) { assert (b.toks + r)[2..][1..] == r; }
    assert Reads(a) && Reads(b);
    GroupReads([a, b], rest);
    hide ReadPrimary, Reads;
    assert [a, b][1..] == [b] && [b][1..] == [];
    assert FlatText([a, b]) == a.toks + ([Join(Or)] + b.toks);
    assert Runs([a, b]) == OrC(a.cond, b.cond);
    assert [Open] + FlatText([a, b]) + [Close] == ValueText(c, op, right, n).value.toks;
  }

  lemma ExprReads(l: Template, op: Op, r: Template, n: nat, rest: Toks)
    requires |l.params| >= l.holes && |r.params| >= r.holes
    ensures var o := Text(Expr(l, op, r, And), n).value; ReadPrimary(o.toks + rest) == Some((o.cond, rest))
  {
    var tail := [OpT(op), TemplateT(r.sql, r.holes)] + (Holes(n + l.holes, r.holes) + rest);
    var ts := [TemplateT(l.sql, l.holes)] + (Holes(n, l.holes) + tail);
    assert Text(Expr(l, op, r, And), n).value.toks + rest == ts;
    assert ts[1..] == Holes(n, l.holes) + tail;
    ReadHolesIs(n, l.holes, tail);
    assert tail[2..] == Holes(n + l.holes, r.holes) + rest;
    ReadHolesIs(n + l.holes, r.holes, rest);
  }
}
