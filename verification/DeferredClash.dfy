/** Exactly when the merge keeps the meaning: when no word of the buffer clashes with a branch name. */
module DeferredClash {
  import opened Outcomes
  import opened DeferredMerge
  import opened DeferredNames
  import opened DeferredMeaning
  import opened DeferredCommit

  /** Every result branch yields what its op's statement yields alone, and every other branch what it yields there. */
  ghost predicate MeaningKept(ops: seq<Op>, m: Merged, sem: Sem) {
    var env := EvalMerged(map[], m.branches, m.values, sem);
    && (forall i: nat :: i < |ops| ==> ResultName(i) in env && env[ResultName(i)] == Results(|ops|, ops, sem)[i])
    && OwnAgree(env, |ops|, ops, sem)
  }

  // ----- where a body stands in the merged statement

  /** The name under which the `j`-th body of op `i` goes. */
  function MergedAs(i: nat, j: nat, ops: seq<Op>): string
    requires i < |ops| && j <= |ops[i].stmt.ctes|
  {
    if j < |ops[i].stmt.ctes| then Ns(i) + ops[i].stmt.ctes[j].name else ResultName(i)
  }

  ghost predicate Stands(bs: seq<MBranch>, vs: seq<Value>, p: nat, i: nat, j: nat, ops: seq<Op>)
    requires i < |ops| && j <= |ops[i].stmt.ctes|
  {
    p < |bs| && bs[p].Query? && bs[p].name == MergedAs(i, j, ops) && Compiled(bs[p].body, vs, i, j, ops)
    && forall w :: Visible(w, i, j, ops) <==> w in BranchNames(bs[..p])
  }

  /** The renamed and renumbered body, its values among `vs`. */
  ghost predicate Compiled(body: seq<MTok>, vs: seq<Value>, i: nat, j: nat, ops: seq<Op>)
    requires i < |ops| && j <= |ops[i].stmt.ctes|
  {
    BackwardRefs(body, i)
    && exists st: Space :: SpaceOk(st, ops[i]) && st.merged <= vs
                           && BodyUnder(RenameCtes(BodyAt(ops[i], j), Names(ops[i].stmt.ctes), Ns(i)), body, ops[i], st.index)
  }

  lemma OpStands(i: nat, j: nat, ops: seq<Op>, merged: seq<Value>, bs: seq<MBranch>, merged': seq<Value>)
    requires i < |ops| && j <= |ops[i].stmt.ctes| && NamesOk(i, ops) && CompileOp(i, ops, merged) == Ok((bs, merged'))
    ensures j < |bs| && bs[j].Query? && bs[j].name == MergedAs(i, j, ops) && Compiled(bs[j].body, merged', i, j, ops)
  {
    var ctes := ops[i].stmt.ctes;
    var cs, tail, st1, st2 := OpParts(i, ops, merged, bs, merged');
    hide CompileOp, CompileCtes, RemapBody, SpaceOk, NamesOk;
    if j < |ctes| {
      assert bs[j] == cs[j] && BranchUnder(cs[j], ctes[0 + j], Names(ctes), ops[i], i, st1.index);
      CteName(j, i, ops);
      assert BodyAt(ops[i], j) == ctes[j].body;
      assert BodyUnder(RenameCtes(ctes[j].body, Names(ctes), Ns(i)), bs[j].body, ops[i], st1.index);
    } else {
      assert bs[j] == Query(ResultName(i), tail) && BodyAt(ops[i], j) == ops[i].stmt.tail;
      assert BodyUnder(RenameCtes(ops[i].stmt.tail, Names(ctes), Ns(i)), bs[j].body, ops[i], st2.index);
    }
  }

  lemma AbortStands(i: nat, ops: seq<Op>, merged: seq<Value>, bs: seq<MBranch>, merged': seq<Value>)
    requires i < |ops| && CompileOp(i, ops, merged) == Ok((bs, merged')) && ops[i].abort != NoAbort
    ensures |ops[i].stmt.ctes| + 1 < |bs| && bs[|ops[i].stmt.ctes| + 1].name == AbortName(i)
  {
    var cs, tail, st1, st2 := OpParts(i, ops, merged, bs, merged');
  }

  /** The names of the branches op `i` contributes are exactly its own. */
  lemma OpNamesAll(i: nat, ops: seq<Op>, merged: seq<Value>, bs: seq<MBranch>, merged': seq<Value>, w: string)
    requires i < |ops| && NamesOk(i, ops) && CompileOp(i, ops, merged) == Ok((bs, merged')) && OpName(w, i, ops[i])
    ensures w in BranchNames(bs)
  {
    var ctes := ops[i].stmt.ctes;
    var names := Names(ctes);
    if w == ResultName(i) {
      OpStands(i, |ctes|, ops, merged, bs, merged');
      assert BranchNames(bs)[|ctes|] == w;
    } else if w == AbortName(i) && ops[i].abort != NoAbort {
      AbortStands(i, ops, merged, bs, merged');
      assert BranchNames(bs)[|ctes| + 1] == w;
    } else {
      var n :| n in names && w == Ns(i) + n;
      var x :| 0 <= x < |names| && names[x] == n;
      OpStands(i, x, ops, merged, bs, merged');
      assert BranchNames(bs)[x] == w;
    }
  }

  lemma {:induction false} UpToNamesAll(n: nat, ops: seq<Op>, bs: seq<MBranch>, vs: seq<Value>, w: string)
    requires n <= |ops| && AllNamesOk(ops) && CompileUpTo(n, ops) == Ok((bs, vs)) && OpNameBelow(w, n, ops)
    ensures w in BranchNames(bs)
  {
    if n > 0 {
      var (bs0, vs0) := CompileUpTo(n - 1, ops).value;
      var (bs1, vs1) := CompileOp(n - 1, ops, vs0).value;
      assert BranchNames(bs) == BranchNames(bs0) + BranchNames(bs1);
      var i :| 0 <= i < n && OpName(w, i, ops[i]);
      if i < n - 1 {
        assert OpNameBelow(w, n - 1, ops);
        UpToNamesAll(n - 1, ops, bs0, vs0, w);
      } else {
        OpNamesAll(i, ops, vs0, bs1, vs1, w);
      }
    }
  }

  lemma {:induction false} UpToStands(n: nat, ops: seq<Op>, bs: seq<MBranch>, vs: seq<Value>, i: nat, j: nat) returns (p: nat)
    requires i < n <= |ops| && AllNamesOk(ops) && CompileUpTo(n, ops) == Ok((bs, vs)) && j <= |ops[i].stmt.ctes|
    ensures Stands(bs, vs, p, i, j, ops)
  {
    var (bs0, vs0) := CompileUpTo(n - 1, ops).value;
    var (bs1, vs1) := CompileOp(n - 1, ops, vs0).value;
    assert bs == bs0 + bs1;
    if i < n - 1 {
      p := UpToStands(n - 1, ops, bs0, vs0, i, j);
      OpGrows(n - 1, ops, vs0, bs1, vs1);
      StandsOn(bs0, bs1, vs0, vs, p, i, j, ops);
    } else {
      p := |bs0| + j;
      LastStands(ops, i, j, bs0, vs0, bs1, vs1);
    }
  }

  lemma StandsOn(bs0: seq<MBranch>, bs1: seq<MBranch>, vs0: seq<Value>, vs: seq<Value>, p: nat, i: nat, j: nat, ops: seq<Op>)
    requires i < |ops| && j <= |ops[i].stmt.ctes| && Stands(bs0, vs0, p, i, j, ops) && vs0 <= vs
    ensures Stands(bs0 + bs1, vs, p, i, j, ops)
  {
    assert (bs0 + bs1)[..p] == bs0[..p] && (bs0 + bs1)[p] == bs0[p];
    hide BodyUnder, Visible, SpaceOk;
    var st :| SpaceOk(st, ops[i]) && st.merged <= vs0
      && BodyUnder(RenameCtes(BodyAt(ops[i], j), Names(ops[i].stmt.ctes), Ns(i)), bs0[p].body, ops[i], st.index);
    assert st.merged <= vs;
  }

  lemma LastStands(ops: seq<Op>, i: nat, j: nat, bs0: seq<MBranch>, vs0: seq<Value>, bs1: seq<MBranch>, vs1: seq<Value>)
    requires i < |ops| && AllNamesOk(ops) && CompileUpTo(i, ops) == Ok((bs0, vs0)) && CompileOp(i, ops, vs0) == Ok((bs1, vs1))
    requires j <= |ops[i].stmt.ctes|
    ensures Stands(bs0 + bs1, vs1, |bs0| + j, i, j, ops)
  {
    assert NamesOk(i, ops);
    OpStands(i, j, ops, vs0, bs1, vs1);
    hide CompileOp, CompileUpTo, Compiled, Visible, AllNamesOk, NamesOk;
    assert (bs0 + bs1)[|bs0| + j] == bs1[j];
    assert (bs0 + bs1)[..|bs0| + j] == bs0 + bs1[..j];
    forall w ensures Visible(w, i, j, ops) <==> w in BranchNames(bs0 + bs1[..j]) {
      VisibleStands(w, ops, i, j, bs0, vs0, bs1, vs1);
    }
  }

  lemma VisibleStands(w: string, ops: seq<Op>, i: nat, j: nat, bs0: seq<MBranch>, vs0: seq<Value>, bs1: seq<MBranch>, vs1: seq<Value>)
    requires i < |ops| && AllNamesOk(ops) && CompileUpTo(i, ops) == Ok((bs0, vs0)) && CompileOp(i, ops, vs0) == Ok((bs1, vs1))
    requires j <= |ops[i].stmt.ctes| && j <= |bs1|
    ensures Visible(w, i, j, ops) <==> w in BranchNames(bs0 + bs1[..j])
  {
    assert NamesOk(i, ops);
    EarlierNames(w, ops, i, bs0, vs0);
    OwnNames(w, ops, i, j, vs0, bs1, vs1);
    hide *;
    NamesOfBoth(bs0, bs1[..j], w);
    VisibleMeans(w, i, j, ops);
  }

  lemma VisibleMeans(w: string, i: nat, j: nat, ops: seq<Op>)
    requires i < |ops| && j <= |ops[i].stmt.ctes|
    ensures Visible(w, i, j, ops) <==> OpNameBelow(w, i, ops) || OwnBefore(w, i, j, ops)
  {
    hide OpNameBelow, Ns;
  }

  ghost predicate OwnBefore(w: string, i: nat, j: nat, ops: seq<Op>)
    requires i < |ops| && j <= |ops[i].stmt.ctes|
  {
    exists x :: 0 <= x < j && w == Ns(i) + ops[i].stmt.ctes[x].name
  }

  lemma EarlierNames(w: string, ops: seq<Op>, i: nat, bs0: seq<MBranch>, vs0: seq<Value>)
    requires i < |ops| && AllNamesOk(ops) && CompileUpTo(i, ops) == Ok((bs0, vs0))
    ensures OpNameBelow(w, i, ops) <==> w in BranchNames(bs0)
  {
    if OpNameBelow(w, i, ops) { UpToNamesAll(i, ops, bs0, vs0, w); }
    if w in BranchNames(bs0) {
      UpToNames(i, ops, bs0, vs0);
      var x :| 0 <= x < |bs0| && BranchNames(bs0)[x] == w;
      hide OpNameBelow, CompileUpTo;
      assert OpNameBelow(bs0[x].name, i, ops);
    }
  }

  lemma OwnNames(w: string, ops: seq<Op>, i: nat, j: nat, vs0: seq<Value>, bs1: seq<MBranch>, vs1: seq<Value>)
    requires i < |ops| && NamesOk(i, ops) && CompileOp(i, ops, vs0) == Ok((bs1, vs1))
    requires j <= |ops[i].stmt.ctes| && j <= |bs1|
    ensures OwnBefore(w, i, j, ops) <==> w in BranchNames(bs1[..j])
  {
    forall x | 0 <= x < j ensures BranchNames(bs1[..j])[x] == Ns(i) + ops[i].stmt.ctes[x].name {
      OpStands(i, x, ops, vs0, bs1, vs1);
    }
    hide CompileOp, NamesOk, Ns;
    if OwnBefore(w, i, j, ops) {
      var x :| 0 <= x < j && w == Ns(i) + ops[i].stmt.ctes[x].name;
      assert BranchNames(bs1[..j])[x] == w;
    }
    if w in BranchNames(bs1[..j]) {
      var x :| 0 <= x < j && BranchNames(bs1[..j])[x] == w;
    }
  }

  lemma NamesOfBoth(a: seq<MBranch>, b: seq<MBranch>, w: string)
    ensures w in BranchNames(a + b) <==> w in BranchNames(a) || w in BranchNames(b)
  {
    assert BranchNames(a + b) == BranchNames(a) + BranchNames(b);
  }

  // ----- the rows of one branch

  lemma {:induction false} EvalKeys(env: map<string, Rows>, bs: seq<MBranch>, values: seq<Value>, sem: Sem, w: string)
    ensures w in EvalMerged(env, bs, values, sem) <==> w in env || w in BranchNames(bs)
    decreases bs
  {
    if bs != [] {
      assert BranchNames(bs) == [bs[0].name] + BranchNames(bs[1..]);
      EvalKeys(StepM(env, bs[0], values, sem), bs[1..], values, sem, w);
    }
  }

  /** In the end a branch has the rows of its body, read where the branch stands. */
  lemma MergedRows(bs: seq<MBranch>, p: nat, values: seq<Value>, sem: Sem)
    requires p < |bs| && bs[p].Query? && NoDup(BranchNames(bs))
    ensures var env := EvalMerged(map[], bs, values, sem);
      bs[p].name in env
      && env[bs[p].name] == sem(ResolveM(bs[p].body, EvalMerged(map[], bs[..p], values, sem), values))
  {
    var q, rest := [bs[p]], bs[p + 1..];
    assert bs == bs[..p] + (q + rest);
    var menv := EvalMerged(map[], bs[..p], values, sem);
    EvalAppend(map[], bs[..p], q + rest, values, sem);
    EvalAppend(menv, q, rest, values, sem);
    assert EvalMerged(menv, q, values, sem) == StepM(menv, bs[p], values, sem);
    assert bs[p].name !in BranchNames(rest) by {
      forall k | 0 <= k < |rest| ensures BranchNames(rest)[k] != bs[p].name {
        assert BranchNames(bs)[p + 1 + k] == rest[k].name && BranchNames(bs)[p] == bs[p].name;
      }
    }
    EvalFrame(EvalMerged(menv, q, values, sem), rest, values, sem, bs[p].name);
  }

  lemma {:induction false} OwnAppend(env: map<string, Rows>, a: seq<Branch>, b: seq<Branch>, op: Op, prior: seq<Rows>, sem: Sem)
    ensures EvalCtes(env, a + b, op, prior, sem) == EvalCtes(EvalCtes(env, a, op, prior, sem), b, op, prior, sem)
    decreases a
  {
    if a == [] {
      assert a + b == b;
    } else {
      assert (a + b)[1..] == a[1..] + b;
      OwnAppend(env[a[0].name := sem(Resolve(a[0].body, env, op, prior))], a[1..], b, op, prior, sem);
    }
  }

  lemma {:induction false} OwnFrame(env: map<string, Rows>, ctes: seq<Branch>, op: Op, prior: seq<Rows>, sem: Sem, w: string)
    requires w !in Names(ctes) && w in env
    ensures w in EvalCtes(env, ctes, op, prior, sem) && EvalCtes(env, ctes, op, prior, sem)[w] == env[w]
    decreases ctes
  {
    if ctes != [] {
      assert Names(ctes) == [ctes[0].name] + Names(ctes[1..]);
      OwnFrame(env[ctes[0].name := sem(Resolve(ctes[0].body, env, op, prior))], ctes[1..], op, prior, sem, w);
    }
  }

  /** What the `j`-th body of op `i` sees in its own statement. */
  function OwnSight(i: nat, j: nat, ops: seq<Op>, sem: Sem): map<string, Rows>
    requires i < |ops| && j <= |ops[i].stmt.ctes|
  {
    EvalCtes(map[], ops[i].stmt.ctes[..j], ops[i], Results(i, ops, sem), sem)
  }

  lemma OwnSightKeys(i: nat, j: nat, ops: seq<Op>, sem: Sem, w: string)
    requires i < |ops| && j <= |ops[i].stmt.ctes|
    ensures w in OwnSight(i, j, ops, sem) <==> w in Names(ops[i].stmt.ctes)[..j]
  {
    OwnKeys(map[], ops[i].stmt.ctes[..j], ops[i], Results(i, ops, sem), sem, w);
    assert Names(ops[i].stmt.ctes[..j]) == Names(ops[i].stmt.ctes)[..j];
  }

  function OwnRows(i: nat, j: nat, ops: seq<Op>, sem: Sem): Rows
    requires i < |ops| && j <= |ops[i].stmt.ctes|
  {
    sem(Resolve(BodyAt(ops[i], j), OwnSight(i, j, ops, sem), ops[i], Results(i, ops, sem)))
  }

  lemma OwnBranchRows(i: nat, j: nat, ops: seq<Op>, sem: Sem)
    requires i < |ops| && j < |ops[i].stmt.ctes| && NoDup(Names(ops[i].stmt.ctes))
    ensures var w := ops[i].stmt.ctes[j].name; w in OwnEnv(i, ops, sem) && OwnEnv(i, ops, sem)[w] == OwnRows(i, j, ops, sem)
  {
    var op, prior, ctes := ops[i], Results(i, ops, sem), ops[i].stmt.ctes;
    var q, rest := [ctes[j]], ctes[j + 1..];
    assert ctes == ctes[..j] + (q + rest);
    var env := OwnSight(i, j, ops, sem);
    OwnAppend(map[], ctes[..j], q + rest, op, prior, sem);
    OwnAppend(env, q, rest, op, prior, sem);
    var next := env[ctes[j].name := OwnRows(i, j, ops, sem)];
    assert EvalCtes(env, q, op, prior, sem) == next by { assert q[1..] == []; }
    assert ctes[j].name !in Names(rest) by {
      forall k | 0 <= k < |rest| ensures Names(rest)[k] != ctes[j].name {
        assert Names(ctes)[j + 1 + k] == rest[k].name && Names(ctes)[j] == ctes[j].name;
      }
    }
    OwnFrame(next, rest, op, prior, sem, ctes[j].name);
  }

  lemma {:induction false} ResultRows(n: nat, i: nat, ops: seq<Op>, sem: Sem)
    requires i < n <= |ops|
    ensures Results(n, ops, sem)[i] == OwnRows(i, |ops[i].stmt.ctes|, ops, sem)
  {
    if i < n - 1 {
      ResultRows(n - 1, i, ops, sem);
    } else {
      assert ops[i].stmt.ctes[..|ops[i].stmt.ctes|] == ops[i].stmt.ctes;
    }
  }

  /** If the meaning is kept, each branch has in the merged statement the rows it has in its own. */
  lemma KeptRows(ops: seq<Op>, m: Merged, sem: Sem, i: nat, j: nat)
    requires MeaningKept(ops, m, sem) && i < |ops| && j <= |ops[i].stmt.ctes| && NamesOk(i, ops)
    ensures var env := EvalMerged(map[], m.branches, m.values, sem);
      MergedAs(i, j, ops) in env && env[MergedAs(i, j, ops)] == OwnRows(i, j, ops, sem)
  {
    if j < |ops[i].stmt.ctes| {
      assert Names(ops[i].stmt.ctes)[j] in Names(ops[i].stmt.ctes);
      OwnBranchRows(i, j, ops, sem);
      hide OwnRows, OwnEnv, EvalMerged, Results;
    } else {
      ResultRows(|ops|, i, ops, sem);
    }
  }

  // ----- a clash is seen by some meaning

  /** Tells whether one token stands at one place. */
  function Spot(k: nat, t: RTok): Sem {
    (b: seq<RTok>) => if k < |b| && b[k] == t then [map[]] else []
  }

  /** What a clashing word means in its own statement. */
  function Alone(t: Tok): RTok {
    match t
    case Ident(w) => Word(w)
    case RelName(w) => Base(w)
    case Sym(s) => Punct(s)
    case Param(_) => Const(Null)
  }

  lemma ClashAlone(i: nat, j: nat, k: nat, ops: seq<Op>, sem: Sem)
    requires i < |ops| && j <= |ops[i].stmt.ctes| && k < |BodyAt(ops[i], j)| && !TokOk(BodyAt(ops[i], j)[k], j, i, ops)
    ensures Resolve(BodyAt(ops[i], j), OwnSight(i, j, ops, sem), ops[i], Results(i, ops, sem))[k] == Alone(BodyAt(ops[i], j)[k])
  {
    var t := BodyAt(ops[i], j)[k];
    if t.RelName? { OwnSightKeys(i, j, ops, sem, t.name); }
    hide OwnSight, Visible;
  }

  lemma ClashMerged(i: nat, j: nat, k: nat, ops: seq<Op>, bs: seq<MBranch>, p: nat, values: seq<Value>, sem: Sem)
    requires i < |ops| && j <= |ops[i].stmt.ctes| && NamesOk(i, ops) && Stands(bs, values, p, i, j, ops)
    requires k < |BodyAt(ops[i], j)| && !TokOk(BodyAt(ops[i], j)[k], j, i, ops)
    ensures var menv := EvalMerged(map[], bs[..p], values, sem);
      k < |bs[p].body| && ResolveM(bs[p].body, menv, values)[k] != Alone(BodyAt(ops[i], j)[k])
  {
    var names := Names(ops[i].stmt.ctes);
    var t := BodyAt(ops[i], j)[k];
    var renamed := RenameCtes(BodyAt(ops[i], j), names, Ns(i));
    var st :| SpaceOk(st, ops[i]) && st.merged <= values && BodyUnder(renamed, bs[p].body, ops[i], st.index);
    assert Under(renamed[k], bs[p].body[k], ops[i], st.index);
    if t.Ident? { IdentSurvivesExactly(t.word, names, i); }
    if t.RelName? {
      if t.name in names { RenameGrows(t.name, names, Ns(i)); } else { RenameOther(t.name, names, Ns(i)); }
      EvalKeys(map[], bs[..p], values, sem, t.name);
    }
    hide EvalMerged, RenameWord, Visible, NamesOk, BodyUnder;
  }

  lemma ClashSeen(ops: seq<Op>, m: Merged, i: nat, j: nat, k: nat) returns (sem: Sem)
    requires AllNamesOk(ops) && Compile(ops) == Ok(m) && i < |ops| && j <= |ops[i].stmt.ctes|
    requires k < |BodyAt(ops[i], j)| && !TokOk(BodyAt(ops[i], j)[k], j, i, ops)
    ensures !MeaningKept(ops, m, sem)
  {
    sem := Spot(k, Alone(BodyAt(ops[i], j)[k]));
    var p := UpToStands(|ops|, ops, m.branches, m.values, i, j);
    MergedNamesDistinct(ops, m);
    assert NamesOk(i, ops);
    ClashAlone(i, j, k, ops, sem);
    ClashMerged(i, j, k, ops, m.branches, p, m.values, sem);
    MergedRows(m.branches, p, m.values, sem);
    assert OwnRows(i, j, ops, sem) == [map[]];
    hide OwnRows, EvalMerged, TokOk, Alone, BodyAt, NamesOk, Compile, ResolveM;
    if MeaningKept(ops, m, sem) { KeptRows(ops, m, sem, i, j); }
  }

  /** For every buffer that compiles, the names of each statement's branches being in order: the merged statement means what
      the statements mean one by one, whatever their bodies mean, if and only if no word clashes with a branch name. */
  lemma MeaningKeptExactly(ops: seq<Op>, m: Merged)
    requires AllNamesOk(ops) && Compile(ops) == Ok(m)
    ensures NoClash(ops) <==> forall sem :: MeaningKept(ops, m, sem)
  {
    if NoClash(ops) {
      forall sem ensures MeaningKept(ops, m, sem) { MergePreservesMeaning(ops, m, sem); }
    } else {
      var i, j, k := ClashOf(ops);
      var sem := ClashSeen(ops, m, i, j, k);
    }
  }

  lemma ClashOf(ops: seq<Op>) returns (i: nat, j: nat, k: nat)
    requires AllNamesOk(ops) && !NoClash(ops)
    ensures i < |ops| && j <= |ops[i].stmt.ctes| && k < |BodyAt(ops[i], j)| && !TokOk(BodyAt(ops[i], j)[k], j, i, ops)
  {
    hide TokOk, NamesOk, BodyAt;
    i :| i < |ops| && !OpOk(i, ops);
    assert NamesOk(i, ops);
    j :| j <= |ops[i].stmt.ctes| && !BodyOk(BodyAt(ops[i], j), j, i, ops);
    k :| k < |BodyAt(ops[i], j)| && !TokOk(BodyAt(ops[i], j)[k], j, i, ops);
  }
}
