/** Conditions as token text, and SQL's reading of it: AND binds closer than OR, parentheses group, the AND of
    BETWEEN belongs to BETWEEN. */
module QueryText {
  import opened Outcomes

  datatype Conn = And | Or
  datatype Value = NullV | BoolV(b: bool) | Num(i: int) | ArrV(vs: seq<Value>)
  datatype Op = Cmp(name: string) | Ne(name: string) | In(neg: bool) | Between | Is(neg: bool) | Like(name: string) | Vector(name: string)

  datatype Tok =
    | Open | Close | Comma | Join(conn: Conn) | ColT(col: string) | OpT(op: Op) | Param(n: nat) | LitT(v: Value)
    | RawT(text: string) | TemplateT(sql: string, holes: nat) | EscapeT | CastT

  /** A single condition; parameters by number. */
  datatype Leaf =
    | ValueL(col: string, op: Op, params: seq<nat>)
    | IsL(col: string, neg: bool, lit: Value)
    | FieldL(left: string, name: string, right: string)
    | RawL(text: string)
    | ExprL(lsql: string, lparams: seq<nat>, eop: Op, rsql: string, rparams: seq<nat>)

  datatype Cond = LeafC(leaf: Leaf) | AndC(l: Cond, r: Cond) | OrC(l: Cond, r: Cond)

  type Toks = seq<Tok>

  // ----- reading one condition

  predicate Starts(ts: Toks, t: Tok) {
    ts != [] && ts[0] == t
  }

  /** `k` parameters in a row. */
  function ReadHoles(ts: Toks, k: nat): (r: Option<(seq<nat>, Toks)>)
    ensures r.Some? ==> |r.value.1| + k == |ts|
  {
    if k == 0 then Some(([], ts))
    else if ts == [] || !ts[0].Param? then None
    else
      var rest := ReadHoles(ts[1..], k - 1);
      if rest.Some? then Some(([ts[0].n] + rest.value.0, rest.value.1)) else None
  }

  /** `p, p, … )` with at least one parameter. */
  function ReadList(ts: Toks): (r: Option<(seq<nat>, Toks)>)
    ensures r.Some? ==> |r.value.1| < |ts|
  {
    if |ts| < 2 || !ts[0].Param? then None
    else if ts[1] == Close then Some(([ts[0].n], ts[2..]))
    else if ts[1] == Comma then
      var rest := ReadList(ts[2..]);
      if rest.Some? then Some(([ts[0].n] + rest.value.0, rest.value.1)) else None
    else None
  }

  function ReadOperand(col: string, op: Op, ts: Toks): (r: Option<(Leaf, Toks)>)
    ensures r.Some? ==> |r.value.1| < |ts|
  {
    match op
    case In(neg) =>
      if !Starts(ts, Open) then None
      else
        var list := ReadList(ts[1..]);
        if list.Some? then Some((ValueL(col, op, list.value.0), list.value.1)) else None
    case Between =>
      if |ts| >= 3 && ts[0].Param? && ts[1] == Join(And) && ts[2].Param? then
        Some((ValueL(col, op, [ts[0].n, ts[2].n]), ts[3..])) else None
    case Is(neg) => if ts != [] && ts[0].LitT? then Some((IsL(col, neg, ts[0].v), ts[1..])) else None
    case Like(_) => if |ts| >= 2 && ts[0].Param? && ts[1] == EscapeT then Some((ValueL(col, op, [ts[0].n]), ts[2..])) else None
    case Vector(_) => if |ts| >= 2 && ts[0].Param? && ts[1] == CastT then Some((ValueL(col, op, [ts[0].n]), ts[2..])) else None
    case _ =>
      if ts == [] then None
      else if ts[0].Param? then Some((ValueL(col, op, [ts[0].n]), ts[1..]))
      else if ts[0].ColT? && op.Cmp? then Some((FieldL(col, op.name, ts[0].col), ts[1..]))
      else None
  }

  function ReadExpr(sql: string, holes: nat, ts: Toks): (r: Option<(Leaf, Toks)>)
    ensures r.Some? ==> |r.value.1| < |ts|
  {
    var l := ReadHoles(ts, holes);
    if l == None || |l.value.1| < 2 || !l.value.1[0].OpT? || !l.value.1[1].TemplateT? then None
    else
      var r := ReadHoles(l.value.1[2..], l.value.1[1].holes);
      if r == None then None
      else Some((ExprL(sql, l.value.0, l.value.1[0].op, l.value.1[1].sql, r.value.0), r.value.1))
  }

  function ReadLeaf(ts: Toks): (r: Option<(Leaf, Toks)>)
    ensures r.Some? ==> |r.value.1| < |ts|
  {
    if ts == [] then None
    else if ts[0].RawT? then Some((RawL(ts[0].text), ts[1..]))
    else if ts[0].TemplateT? then ReadExpr(ts[0].sql, ts[0].holes, ts[1..])
    else if |ts| >= 2 && ts[0].ColT? && ts[1].OpT? then ReadOperand(ts[0].col, ts[1].op, ts[2..])
    else None
  }

  // ----- precedence

  function ReadPrimary(ts: Toks): (r: Option<(Cond, Toks)>)
    ensures r.Some? ==> |r.value.1| < |ts|
    decreases |ts|, 0
  {
    if Starts(ts, Open) then
      var inner := ReadOr(ts[1..]);
      if inner.Some? && Starts(inner.value.1, Close) then Some((inner.value.0, inner.value.1[1..])) else None
    else
      var leaf := ReadLeaf(ts);
      if leaf.Some? then Some((LeafC(leaf.value.0), leaf.value.1)) else None
  }

  function ReadAnd(ts: Toks): (r: Option<(Cond, Toks)>)
    ensures r.Some? ==> |r.value.1| < |ts|
    decreases |ts|, 1
  {
    var first := ReadPrimary(ts);
    if first == None || !Starts(first.value.1, Join(And)) then first
    else
      var rest := ReadAnd(first.value.1[1..]);
      if rest.Some? then Some((AndC(first.value.0, rest.value.0), rest.value.1)) else None
  }

  function ReadOr(ts: Toks): (r: Option<(Cond, Toks)>)
    ensures r.Some? ==> |r.value.1| < |ts|
    decreases |ts|, 2
  {
    var first := ReadAnd(ts);
    if first == None || !Starts(first.value.1, Join(Or)) then first
    else
      var rest := ReadOr(first.value.1[1..]);
      if rest.Some? then Some((OrC(first.value.0, rest.value.0), rest.value.1)) else None
  }

  /** The condition a whole text stands for, if it is one. */
  function Reading(ts: Toks): Option<Cond> {
    var r := ReadOr(ts);
    if r.Some? && r.value.1 == [] then Some(r.value.0) else None
  }

  // ----- flat lists of conditions

  /** One operand of a list: the word before it, its text, and what the text stands for. */
  datatype Item = Item(conn: Conn, toks: Toks, cond: Cond)

  function FlatText(items: seq<Item>): Toks {
    if items == [] then []
    else if |items| == 1 then items[0].toks
    else items[0].toks + ([Join(items[1].conn)] + FlatText(items[1..]))
  }

  /** The items up to the next OR, joined; and the items from that OR on. */
  function Run(items: seq<Item>): (r: (Cond, seq<Item>))
    requires items != []
    ensures |r.1| < |items| && (r.1 != [] ==> r.1[0].conn == Or)
  {
    if |items| == 1 || items[1].conn == Or then (items[0].cond, items[1..])
    else var r := Run(items[1..]); (AndC(items[0].cond, r.0), r.1)
  }

  function Runs(items: seq<Item>): Cond
    requires items != []
    decreases |items|
  {
    var r := Run(items);
    if r.1 == [] then r.0 else OrC(r.0, Runs(r.1))
  }

  ghost predicate Reads(item: Item) {
    forall rest: Toks :: ReadPrimary(item.toks + rest) == Some((item.cond, rest))
  }

  ghost predicate AllRead(items: seq<Item>) {
    forall i :: 0 <= i < |items| ==> Reads(items[i])
  }

  /** What may follow a list. */
  predicate Stops(rest: Toks) {
    rest == [] || rest[0] == Close
  }

  function After(items: seq<Item>, rest: Toks): Toks {
    if items == [] then rest else [Join(items[0].conn)] + (FlatText(items) + rest)
  }

  lemma FlatIs(items: seq<Item>, rest: Toks)
    requires items != []
    ensures FlatText(items) + rest == items[0].toks + After(items[1..], rest)
  {
    if |items| > 1 { assert items[1..][0] == items[1]; }
  }

  lemma {:induction false} AndReadsRun(items: seq<Item>, rest: Toks)
    requires items != [] && AllRead(items) && Stops(rest)
    ensures ReadAnd(FlatText(items) + rest) == Some((Run(items).0, After(Run(items).1, rest)))
    ensures AllRead(Run(items).1)
    decreases |items|
  {
    FlatIs(items, rest);
    var more := items[1..];
    assert AllRead(more);
    assert Reads(items[0]);
    assert ReadPrimary(items[0].toks + After(more, rest)) == Some((items[0].cond, After(more, rest)));
    hide ReadPrimary, Reads;
    if more != [] {
      assert After(more, rest)[1..] == FlatText(more) + rest;
      if more[0].conn == And { AndReadsRun(more, rest); }
    }
  }

  /** A list of readable operands reads as its runs of ANDs, joined by OR. */
  lemma {:induction false} FlatReads(items: seq<Item>, rest: Toks)
    requires items != [] && AllRead(items) && Stops(rest)
    ensures ReadOr(FlatText(items) + rest) == Some((Runs(items), rest))
    decreases |items|
  {
    AndReadsRun(items, rest);
    var more := Run(items).1;
    hide ReadAnd, Reads;
    if more != [] {
      assert After(more, rest)[1..] == FlatText(more) + rest;
      FlatReads(more, rest);
    }
  }

  lemma GroupReads(items: seq<Item>, rest: Toks)
    requires items != [] && AllRead(items)
    ensures ReadPrimary([Open] + FlatText(items) + [Close] + rest) == Some((Runs(items), rest))
  {
    hide ReadPrimary, ReadOr, FlatText, Runs, Reads;
    var inner := FlatText(items) + ([Close] + rest);
    assert [Open] + FlatText(items) + [Close] + rest == [Open] + inner;
    FlatReads(items, [Close] + rest);
    Enclosed(inner, Runs(items), rest);
  }

  lemma Enclosed(inner: Toks, c: Cond, rest: Toks)
    requires ReadOr(inner) == Some((c, [Close] + rest))
    ensures ReadPrimary([Open] + inner) == Some((c, rest))
  {
    assert ([Open] + inner)[1..] == inner && ([Close] + rest)[1..] == rest;
    hide ReadOr;
  }

  // ----- lists with an unreadable operand

  ghost predicate Unreadable(item: Item) {
    forall rest: Toks :: ReadPrimary(item.toks + rest) == None
  }

  lemma {:induction false} RunIsSuffix(items: seq<Item>)
    requires items != []
    ensures Run(items).1 == items[|items| - |Run(items).1|..]
  {
    if |items| > 1 && items[1].conn == And { RunIsSuffix(items[1..]); }
  }

  /** The operands before `b` read, operand `b` does not. */
  ghost predicate FirstBad(items: seq<Item>, b: nat) {
    b < |items| && Unreadable(items[b]) && forall i :: 0 <= i < b ==> Reads(items[i])
  }

  function AndWith(c: Cond, r: Option<(Cond, Toks)>): Option<(Cond, Toks)> {
    if r.Some? then Some((AndC(c, r.value.0), r.value.1)) else None
  }

  lemma AndUnfolds(items: seq<Item>, rest: Toks)
    requires |items| > 1 && Reads(items[0])
    ensures items[1].conn == Or ==> ReadAnd(FlatText(items) + rest) == Some((items[0].cond, After(items[1..], rest)))
    ensures items[1].conn == And ==> ReadAnd(FlatText(items) + rest) == AndWith(items[0].cond, ReadAnd(FlatText(items[1..]) + rest))
  {
    FlatIs(items, rest);
    var more := items[1..];
    assert ReadPrimary(items[0].toks + After(more, rest)) == Some((items[0].cond, After(more, rest)));
    assert After(more, rest)[1..] == FlatText(more) + rest;
  }

  lemma {:induction false} AndAt(items: seq<Item>, b: nat, rest: Toks)
    requires FirstBad(items, b)
    ensures b < |items| - |Run(items).1| ==> ReadAnd(FlatText(items) + rest) == None
    ensures b >= |items| - |Run(items).1| ==> ReadAnd(FlatText(items) + rest) == Some((Run(items).0, After(Run(items).1, rest)))
    decreases |items|
  {
    if b == 0 {
      FlatIs(items, rest);
      assert ReadPrimary(items[0].toks + After(items[1..], rest)) == None;
    } else {
      AndUnfolds(items, rest);
      assert FirstBad(items[1..], b - 1);
      hide FirstBad, ReadAnd, FlatText, Reads, After;
      if items[1].conn == And { AndAt(items[1..], b - 1, rest); }
    }
  }

  /** A list with an operand that does not read, does not read. */
  lemma {:induction false} FlatFails(items: seq<Item>, b: nat, rest: Toks)
    requires FirstBad(items, b)
    ensures ReadOr(FlatText(items) + rest) == None
    decreases |items|
  {
    AndAt(items, b, rest);
    RunIsSuffix(items);
    var more := Run(items).1;
    var off := |items| - |more|;
    if b >= off {
      assert more[b - off] == items[b];
      assert FirstBad(more, b - off);
      hide ReadAnd, FirstBad;
      assert After(more, rest)[1..] == FlatText(more) + rest;
      FlatFails(more, b - off, rest);
    }
  }

  lemma GroupFails(items: seq<Item>, b: nat, rest: Toks)
    requires items == [] || FirstBad(items, b)
    ensures ReadPrimary([Open] + FlatText(items) + [Close] + rest) == None
  {
    var ts := [Open] + FlatText(items) + [Close] + rest;
    assert ts[1..] == FlatText(items) + ([Close] + rest);
    if items != [] {
      FlatFails(items, b, [Close] + rest);
    } else {
      assert ts[1..] == [Close] + rest;
      assert ReadLeaf([Close] + rest) == None;
      assert ReadPrimary([Close] + rest) == None;
      assert ReadAnd([Close] + rest) == None;
      assert ReadOr([Close] + rest) == None;
    }
  }
}
