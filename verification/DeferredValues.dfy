/** Which value each placeholder of a buffered statement has in the merged one. */
module DeferredValues {
  import opened Outcomes
  import opened DeferredMerge
  import opened DeferredNames
  import opened DeferredMeaning
  import opened DeferredCommit
  import opened DeferredClash
  import opened DeferredErrors

  /** The bound values are numbered from one. */
  predicate BoundTo(values: seq<Bound>, n: nat, b: Bound) {
    1 <= n <= |values| && values[n - 1] == b
  }

  /** What became of `$n`: a value stands in the merged list under the new number, a reference became the field of the
      result it names, a number without a value stands for NULL. */
  predicate Renumbered(values: seq<Bound>, n: nat, m: MTok, merged: seq<Value>) {
    if n == 0 || n > |values| then m.Src? && m.tok.Param? && Holds(merged, m.tok.n, Null)
    else match values[n - 1]
      case Val(v) => m.Src? && m.tok.Param? && Holds(merged, m.tok.n, v)
      case FieldRef(k, f) => m == Scalar(f, k)
  }

  predicate Holds(merged: seq<Value>, g: nat, v: Value) {
    1 <= g <= |merged| && merged[g - 1] == v
  }

  predicate RenumberedBody(body: seq<Tok>, values: seq<Bound>, mbody: seq<MTok>, merged: seq<Value>) {
    |mbody| == |body| && forall k :: 0 <= k < |body| && body[k].Param? ==> Renumbered(values, body[k].n, mbody[k], merged)
  }

  lemma UnderRenumbered(body: seq<Tok>, mbody: seq<MTok>, op: Op, st: Space, merged: seq<Value>)
    requires SpaceOk(st, op) && st.merged <= merged && BodyUnder(body, mbody, op, st.index)
    ensures RenumberedBody(body, op.values, mbody, merged)
  {
    forall k | 0 <= k < |body| && body[k].Param? ensures Renumbered(op.values, body[k].n, mbody[k], merged) {
      assert Under(body[k], mbody[k], op, st.index);
    }
  }

  lemma ParamsStay(body: seq<Tok>, names: seq<string>, ns: string)
    ensures |RenameCtes(body, names, ns)| == |body|
    ensures forall k :: 0 <= k < |body| ==> (body[k].Param? <==> RenameCtes(body, names, ns)[k].Param?)
    ensures forall k :: 0 <= k < |body| && body[k].Param? ==> RenameCtes(body, names, ns)[k] == body[k]
  {
  }

  /** In every buffer that compiles, every body of every op: each placeholder carries its own value, each reference names the
      field and the op it was bound to, which is an earlier one. */
  lemma PlaceholdersKeepValues(ops: seq<Op>, m: Merged, i: nat, j: nat, p: nat)
    requires AllNamesOk(ops) && Compile(ops) == Ok(m) && Carries(m, p, i, j, ops)
    ensures IsBody(i, j, ops) && RenumberedBody(BodyAt(ops[i], j), ops[i].values, m.branches[p].body, m.values)
    ensures BackwardRefs(m.branches[p].body, i)
  {
    var q := PlaceOf(ops, m, i, j);
    assert q == p;
    var renamed := RenameCtes(BodyAt(ops[i], j), Names(ops[i].stmt.ctes), Ns(i));
    var st: Space :| SpaceOk(st, ops[i]) && st.merged <= m.values && BodyUnder(renamed, m.branches[p].body, ops[i], st.index);
    UnderRenumbered(renamed, m.branches[p].body, ops[i], st, m.values);
    ParamsStay(BodyAt(ops[i], j), Names(ops[i].stmt.ctes), Ns(i));
    hide Compile, AllNamesOk, Stands, BodyUnder, SpaceOk, RenameCtes, Renumbered;
  }

  /** The same for one op, whatever its names: its numbers have one new number each, no two the same, behind those of the ops
      before it, and every body uses them. */
  lemma OneNumberEach(i: nat, ops: seq<Op>, merged: seq<Value>, bs: seq<MBranch>, merged': seq<Value>)
    requires i < |ops| && CompileOp(i, ops, merged) == Ok((bs, merged')) && ResultName(i) !in Names(ops[i].stmt.ctes)
    ensures exists index: map<nat, nat> ::
      && NumbersOk(index, ops[i].values, |merged|, merged')
      && |bs| > |ops[i].stmt.ctes|
      && forall j :: 0 <= j <= |ops[i].stmt.ctes| ==> bs[j].Query? && UsesNumbers(BodyAt(ops[i], j), ops[i].values, bs[j].body, index)
  {
    OneGlobalIndexPerLocal(i, ops, merged, bs, merged');
    var ctes := ops[i].stmt.ctes;
    var index: map<nat, nat> :| SpaceOk(Space(merged', index), ops[i]) && (forall n :: n in index ==> index[n] > |merged|)
      && |bs| > |ctes| && CtesUnder(0, ops[i], bs[..|ctes|], i, index)
      && BranchUnder(bs[|ctes|], Branch(ResultName(i), ops[i].stmt.tail), Names(ctes), ops[i], i, index);
    SpaceNumbers(index, ops[i], |merged|, merged');
    hide CompileOp, SpaceOk, NumbersOk;
    forall j | 0 <= j <= |ctes| ensures bs[j].Query? && UsesNumbers(BodyAt(ops[i], j), ops[i].values, bs[j].body, index) {
      if j < |ctes| { assert BranchUnder(bs[..|ctes|][j], ctes[0 + j], Names(ctes), ops[i], i, index); }
      UnderUses(BodyAt(ops[i], j), Names(ctes), Ns(i), bs[j].body, ops[i], index);
    }
  }

  lemma SpaceNumbers(index: map<nat, nat>, op: Op, low: nat, merged: seq<Value>)
    requires SpaceOk(Space(merged, index), op) && forall n :: n in index ==> index[n] > low
    ensures NumbersOk(index, op.values, low, merged)
  {
  }

  predicate NumbersOk(index: map<nat, nat>, values: seq<Bound>, low: nat, merged: seq<Value>) {
    (forall n :: n in index ==> index[n] > low && HoldsValue(values, n, merged, index[n]))
    && forall a, b :: a in index && b in index && a != b ==> index[a] != index[b]
  }

  predicate HoldsValue(values: seq<Bound>, n: nat, merged: seq<Value>, g: nat) {
    if 1 <= n <= |values| then values[n - 1].Val? && Holds(merged, g, values[n - 1].v) else Holds(merged, g, Null)
  }

  predicate UsesNumbers(body: seq<Tok>, values: seq<Bound>, mbody: seq<MTok>, index: map<nat, nat>) {
    |mbody| == |body| && forall k :: 0 <= k < |body| && body[k].Param? ==> UsesNumber(body[k].n, values, mbody[k], index)
  }

  predicate UsesNumber(n: nat, values: seq<Bound>, m: MTok, index: map<nat, nat>) {
    if 1 <= n <= |values| && values[n - 1].FieldRef? then m == Scalar(values[n - 1].field, values[n - 1].op)
    else n in index && m == Src(Param(index[n]))
  }

  lemma UnderUses(body: seq<Tok>, names: seq<string>, ns: string, mbody: seq<MTok>, op: Op, index: map<nat, nat>)
    requires BodyUnder(RenameCtes(body, names, ns), mbody, op, index)
    ensures UsesNumbers(body, op.values, mbody, index)
  {
    var renamed := RenameCtes(body, names, ns);
    ParamsStay(body, names, ns);
    forall k | 0 <= k < |body| && body[k].Param? ensures UsesNumber(body[k].n, op.values, mbody[k], index) {
      assert Under(renamed[k], mbody[k], op, index);
    }
  }

  /** What the database sees at a placeholder: its value; for a reference the field of the first row the named op yields on its
      own, NULL when there is none. */
  predicate SeesValue(ops: seq<Op>, sem: Sem, i: nat, n: nat, seen: RTok)
    requires i < |ops|
  {
    var values, results := ops[i].values, Results(|ops|, ops, sem);
    if n == 0 || n > |values| then seen == Const(Null)
    else match values[n - 1]
      case Val(v) => seen == Const(v)
      case FieldRef(k, f) =>
        k < i && (if results[k] != [] && f in results[k][0] then seen == Const(results[k][0][f]) else seen == Const(Null))
  }

  lemma PlaceholdersSee(ops: seq<Op>, m: Merged, sem: Sem, i: nat, j: nat, p: nat, k: nat)
    requires NoClash(ops) && Compile(ops) == Ok(m) && Carries(m, p, i, j, ops)
    requires k < |BodyAt(ops[i], j)| && BodyAt(ops[i], j)[k].Param?
    ensures |MergedSeen(m, sem, p)| == |BodyAt(ops[i], j)| && SeesValue(ops, sem, i, BodyAt(ops[i], j)[k].n, MergedSeen(m, sem, p)[k])
  {
    assert AllNamesOk(ops) by { forall x | 0 <= x < |ops| ensures NamesOk(x, ops) { assert OpOk(x, ops); } }
    MergePreservesMeaning(ops, m, sem);
    MergedNamesDistinct(ops, m);
    assert MeaningKept(ops, m, sem);
    var q := PlaceOf(ops, m, i, j);
    PlaceholdersKeepValues(ops, m, i, j, p);
    SeenSame(ops, m, sem, i, j, p);
    var t, mt := BodyAt(ops[i], j)[k], m.branches[p].body[k];
    assert mt in m.branches[p].body;
    ResultsPrefix(|ops|, i, ops, sem);
    hide NoClash, Compile, MeaningKept, NoDup, Stands, EvalMerged, OwnSight, Results, RenumberedBody, MergedSeen, AllNamesOk;
    assert OwnSeen(i, j, ops, sem)[k] == Const(LocalValue(ops[i], Results(i, ops, sem), t.n));
    assert Renumbered(ops[i].values, t.n, mt, m.values) by { AtPlaceholder(BodyAt(ops[i], j), ops[i].values, m.branches[p].body, m.values, k); }
  }

  lemma AtPlaceholder(body: seq<Tok>, values: seq<Bound>, mbody: seq<MTok>, merged: seq<Value>, k: nat)
    requires RenumberedBody(body, values, mbody, merged) && k < |body| && body[k].Param?
    ensures Renumbered(values, body[k].n, mbody[k], merged)
  {
  }

  // ----- why a buffer does not compile

  /** Some placeholder of op `i` is bound to this field of op `k`. */
  predicate Refers(ops: seq<Op>, i: nat, k: nat, f: string) {
    i < |ops| && exists j, x :: 0 <= j <= |ops[i].stmt.ctes| && 0 <= x < |BodyAt(ops[i], j)| && RefersAt(BodyAt(ops[i], j)[x], ops[i], k, f)
  }

  predicate RefersAt(t: Tok, op: Op, k: nat, f: string) {
    t.Param? && BoundTo(op.values, t.n, FieldRef(k, f))
  }

  /** The error names a reference that does not point to an earlier op, or a field that op does not emit. */
  predicate Explains(ops: seq<Op>, i: nat, e: CompileError) {
    match e
    case ForwardRef(k, f) => Refers(ops, i, k, f) && k >= i
    case NotEmitted(k, f) => Refers(ops, i, k, f) && k < i && k < |ops| && f !in ops[k].emitted
  }

  lemma {:induction false} BodyError(body: seq<Tok>, names: seq<string>, i: nat, ops: seq<Op>, st: Space, from: seq<Tok>, x: nat)
    requires i < |ops| && x <= |from| && body == from[x..]
    requires RemapBody(RenameCtes(body, names, Ns(i)), ops[i], i, ops, st).Err?
    ensures var e := RemapBody(RenameCtes(body, names, Ns(i)), ops[i], i, ops, st).error;
      exists y: nat :: x <= y < |from| && TokError(from[y], i, ops, e)
    decreases |body|
  {
    if body != [] {
      var renamed := RenameCtes(body, names, Ns(i));
      assert renamed[1..] == RenameCtes(body[1..], names, Ns(i));
      assert from[x] == body[0];
      var first := RemapTok(renamed[0], ops[i], i, ops, st);
      if first.Err? {
        assert TokError(from[x], i, ops, first.error);
      } else {
        assert body[1..] == from[x + 1..];
        BodyError(body[1..], names, i, ops, first.value.1, from, x + 1);
      }
    }
  }

  predicate TokError(t: Tok, i: nat, ops: seq<Op>, e: CompileError)
    requires i < |ops|
  {
    match e
    case ForwardRef(k, f) => RefersAt(t, ops[i], k, f) && k >= i
    case NotEmitted(k, f) => RefersAt(t, ops[i], k, f) && k < i && f !in ops[k].emitted
  }

  lemma ErrorAt(ops: seq<Op>, i: nat, j: nat, st: Space)
    requires IsBody(i, j, ops)
    requires RemapBody(RenameCtes(BodyAt(ops[i], j), Names(ops[i].stmt.ctes), Ns(i)), ops[i], i, ops, st).Err?
    ensures Explains(ops, i, RemapBody(RenameCtes(BodyAt(ops[i], j), Names(ops[i].stmt.ctes), Ns(i)), ops[i], i, ops, st).error)
  {
    var body := BodyAt(ops[i], j);
    assert body == body[0..];
    var e := RemapBody(RenameCtes(body, Names(ops[i].stmt.ctes), Ns(i)), ops[i], i, ops, st).error;
    BodyError(body, Names(ops[i].stmt.ctes), i, ops, st, body, 0);
    var y: nat :| 0 <= y < |body| && TokError(body[y], i, ops, e);
  }

  lemma {:induction false} CtesError(ops: seq<Op>, i: nat, j: nat, st: Space)
    requires i < |ops| && j <= |ops[i].stmt.ctes|
    requires var ctes := ops[i].stmt.ctes; CompileCtes(ctes[j..], Names(ctes), ops[i], i, ops, st).Err?
    ensures var ctes := ops[i].stmt.ctes; Explains(ops, i, CompileCtes(ctes[j..], Names(ctes), ops[i], i, ops, st).error)
    decreases |ops[i].stmt.ctes| - j
  {
    var ctes := ops[i].stmt.ctes;
    if j < |ctes| {
      assert ctes[j..][0] == ctes[j] && ctes[j..][1..] == ctes[j + 1..] && BodyAt(ops[i], j) == ctes[j].body;
      hide Explains;
      var first := RemapBody(RenameCtes(ctes[j].body, Names(ctes), Ns(i)), ops[i], i, ops, st);
      if first.Err? { ErrorAt(ops, i, j, st); } else { CtesError(ops, i, j + 1, first.value.1); }
    }
  }

  lemma OpError(ops: seq<Op>, i: nat, merged: seq<Value>)
    requires i < |ops| && CompileOp(i, ops, merged).Err?
    ensures Explains(ops, i, CompileOp(i, ops, merged).error)
  {
    var ctes := ops[i].stmt.ctes;
    assert ctes[0..] == ctes && BodyAt(ops[i], |ctes|) == ops[i].stmt.tail;
    hide Explains;
    var first := CompileCtes(ctes, Names(ctes), ops[i], i, ops, Space(merged, map[]));
    if first.Err? { CtesError(ops, i, 0, Space(merged, map[])); } else { ErrorAt(ops, i, |ctes|, first.value.1); }
  }

  lemma {:induction false} UpToError(ops: seq<Op>, n: nat)
    requires n <= |ops| && CompileUpTo(n, ops).Err?
    ensures exists i: nat :: i < n && Explains(ops, i, CompileUpTo(n, ops).error)
  {
    if n > 0 {
      hide Explains, CompileOp;
      var less := CompileUpTo(n - 1, ops);
      if less.Err? { UpToError(ops, n - 1); } else { OpError(ops, n - 1, less.value.1); }
    }
  }

  /** The compile error of a buffer says what is wrong with one of its references. */
  lemma CompileErrorExplains(ops: seq<Op>)
    requires Compile(ops).Err?
    ensures exists i: nat :: i < |ops| && Explains(ops, i, Compile(ops).error)
  {
    UpToError(ops, |ops|);
  }
}
