/** The main results about the merged statement of a whole buffer. */
module DeferredCommit {
  import opened Outcomes
  import opened DeferredMerge
  import opened DeferredNames
  import opened DeferredMeaning

  // ----- evaluation of branch lists

  lemma {:induction false} EvalAppend(env: map<string, Rows>, a: seq<MBranch>, b: seq<MBranch>, values: seq<Value>, sem: Sem)
    ensures EvalMerged(env, a + b, values, sem) == EvalMerged(EvalMerged(env, a, values, sem), b, values, sem)
    decreases a
  {
    if a == [] {
      assert a + b == b;
    } else {
      assert (a + b)[1..] == a[1..] + b;
      EvalAppend(StepM(env, a[0], values, sem), a[1..], b, values, sem);
    }
  }

  lemma {:induction false} EvalFrame(env: map<string, Rows>, bs: seq<MBranch>, values: seq<Value>, sem: Sem, w: string)
    requires w !in BranchNames(bs)
    ensures w in EvalMerged(env, bs, values, sem) <==> w in env
    ensures w in env ==> EvalMerged(env, bs, values, sem)[w] == env[w]
    decreases bs
  {
    if bs != [] {
      assert BranchNames(bs)[0] == bs[0].name && BranchNames(bs)[1..] == BranchNames(bs[1..]);
      EvalFrame(StepM(env, bs[0], values, sem), bs[1..], values, sem, w);
    }
  }

  // ----- names

  /** Every branch one op contributes carries a name of that op. */
  lemma OpBranchNames(i: nat, ops: seq<Op>, merged: seq<Value>, bs: seq<MBranch>, merged': seq<Value>)
    requires i < |ops| && NamesOk(i, ops) && CompileOp(i, ops, merged) == Ok((bs, merged'))
    ensures forall k :: 0 <= k < |bs| ==> OpName(bs[k].name, i, ops[i])
    ensures NoDup(BranchNames(bs))
  {
    var op := ops[i];
    var ctes := op.stmt.ctes;
    var names := Names(ctes);
    var (cs, st1) := CompileCtes(ctes, names, op, i, ops, Space(merged, map[])).value;
    assert ctes[0..] == ctes;
    CompileCtesSpace(0, i, ops, Space(merged, map[]), cs, st1);
    forall k | 0 <= k < |cs| ensures cs[k].name == Ns(i) + names[k] {
      assert BranchUnder(cs[k], ctes[0 + k], names, op, i, st1.index);
      CteName(k, i, ops);
    }
    forall k | 0 <= k < |bs|
      ensures bs[k].name == if k < |cs| then Ns(i) + names[k] else if k == |cs| then ResultName(i) else AbortName(i)
      ensures OpName(bs[k].name, i, op)
    {
      if k < |cs| { assert bs[k] == cs[k] && names[k] in names; }
    }
    forall j, k | 0 <= j < k < |bs| ensures BranchNames(bs)[j] != BranchNames(bs)[k] {
      KindsDisjoint(i, i, if j < |cs| then names[j] else "");
      if k < |cs| && Ns(i) + names[j] == Ns(i) + names[k] {
        NsInjective(i, names[j], i, names[k]);
      }
    }
  }

  ghost predicate NamedBelow(bs: seq<MBranch>, n: nat, ops: seq<Op>)
    requires n <= |ops|
  {
    forall k :: 0 <= k < |bs| ==> OpNameBelow(bs[k].name, n, ops)
  }

  lemma AppendNames(n: nat, ops: seq<Op>, bs0: seq<MBranch>, bs1: seq<MBranch>)
    requires n < |ops| && NamedBelow(bs0, n, ops) && NoDup(BranchNames(bs0))
    requires (forall k :: 0 <= k < |bs1| ==> OpName(bs1[k].name, n, ops[n])) && NoDup(BranchNames(bs1))
    ensures NoDup(BranchNames(bs0 + bs1))
  {
    forall j, k | 0 <= j < |bs0| && 0 <= k < |bs1| ensures bs0[j].name != bs1[k].name {
      assert OpNameBelow(bs0[j].name, n, ops);
      var i :| 0 <= i < n && OpName(bs0[j].name, i, ops[i]);
      if bs0[j].name == bs1[k].name { OpNamesDisjoint(bs0[j].name, i, ops[i], n, ops[n]); }
    }
    var a, b := BranchNames(bs0), BranchNames(bs1);
    assert BranchNames(bs0 + bs1) == a + b;
  }

  lemma {:induction false} UpToNames(n: nat, ops: seq<Op>, bs: seq<MBranch>, vs: seq<Value>)
    requires n <= |ops| && AllNamesOk(ops) && CompileUpTo(n, ops) == Ok((bs, vs))
    ensures NamedBelow(bs, n, ops) && NoDup(BranchNames(bs))
  {
    if n > 0 {
      var (bs0, vs0) := CompileUpTo(n - 1, ops).value;
      var (bs1, vs1) := CompileOp(n - 1, ops, vs0).value;
      UpToNames(n - 1, ops, bs0, vs0);
      assert NamesOk(n - 1, ops);
      OpBranchNames(n - 1, ops, vs0, bs1, vs1);
      AppendNames(n - 1, ops, bs0, bs1);
      forall k | 0 <= k < |bs| ensures OpNameBelow(bs[k].name, n, ops) {
        if k >= |bs0| {
          assert OpName(bs1[k - |bs0|].name, n - 1, ops[n - 1]);
        } else {
          assert OpNameBelow(bs0[k].name, n - 1, ops);
        }
      }
    }
  }

  // ----- meaning of one op inside the merged statement

  function OwnEnv(k: nat, ops: seq<Op>, sem: Sem): map<string, Rows>
    requires k < |ops|
  {
    EvalCtes(map[], ops[k].stmt.ctes, ops[k], Results(k, ops, sem), sem)
  }

  /** Each branch of the first `i` ops holds the rows it has in its own statement. */
  ghost predicate OwnAgree(menv: map<string, Rows>, i: nat, ops: seq<Op>, sem: Sem)
    requires i <= |ops|
  {
    forall k, w :: 0 <= k < i && w in Names(ops[k].stmt.ctes) ==>
      Ns(k) + w in menv && w in OwnEnv(k, ops, sem) && menv[Ns(k) + w] == OwnEnv(k, ops, sem)[w]
  }

  /** The state of the merged evaluation before op `i`. */
  ghost predicate BeforeOp(menv: map<string, Rows>, i: nat, ops: seq<Op>, sem: Sem)
    requires i <= |ops|
  {
    PriorAgree(menv, Results(i, ops, sem), i) && forall w :: w in menv ==> OpNameBelow(w, i, ops)
  }

  lemma OpMeaning(i: nat, ops: seq<Op>, merged: seq<Value>, bs: seq<MBranch>, merged': seq<Value>,
                  menv: map<string, Rows>, values: seq<Value>, sem: Sem)
    requires i < |ops| && NoClash(ops) && CompileOp(i, ops, merged) == Ok((bs, merged')) && merged' <= values
    requires BeforeOp(menv, i, ops, sem)
    ensures var menv' := EvalMerged(menv, bs, values, sem);
      && BeforeOp(menv', i + 1, ops, sem)
      && forall w :: w in Names(ops[i].stmt.ctes) ==>
           Ns(i) + w in menv' && w in OwnEnv(i, ops, sem) && menv'[Ns(i) + w] == OwnEnv(i, ops, sem)[w]
    ensures merged <= merged'
  {
    assert OpOk(i, ops);
    var op, prior, names := ops[i], Results(i, ops, sem), Names(ops[i].stmt.ctes);
    var cs, tail, st1, st2 := OpParts(i, ops, merged, bs, merged');
    hide *;
    BeforeFirst(menv, i, ops, sem);
    CtesMeaning(0, i, ops, Space(merged, map[]), cs, st1, map[], menv, prior, values, sem);
    var menv1 := EvalMerged(menv, cs, values, sem);
    TailMeaning(i, ops, st1, tail, st2, menv1, values, sem);
    EvalOp(i, op, cs, tail, menv, values, sem);
    NextResult(i, ops, menv1, sem);
    OpEnds(i, ops, menv1, RunAlone(op, prior, sem), Results(i + 1, ops, sem));
    OwnKept(i, ops, menv1, RunAlone(op, prior, sem), sem);
  }

  /** The branches of one op: its own ones, the result, the abort branch. */
  lemma EvalOp(i: nat, op: Op, cs: seq<MBranch>, tail: seq<MTok>, menv: map<string, Rows>, values: seq<Value>, sem: Sem)
    ensures var menv1 := EvalMerged(menv, cs, values, sem);
      var r := menv1[ResultName(i) := sem(ResolveM(tail, menv1, values))];
      EvalMerged(menv, cs + [Query(ResultName(i), tail)] + AbortBranches(op, Names(op.stmt.ctes), i), values, sem)
        == if op.abort == NoAbort then r else r[AbortName(i) := []]
  {
    var q, ab := Query(ResultName(i), tail), AbortBranches(op, Names(op.stmt.ctes), i);
    var menv1 := EvalMerged(menv, cs, values, sem);
    var r := menv1[ResultName(i) := sem(ResolveM(tail, menv1, values))];
    assert EvalMerged(menv1, [q], values, sem) == r;
    assert EvalMerged(r, ab, values, sem) == if op.abort == NoAbort then r else r[AbortName(i) := []];
    EvalAppend(menv, cs, [q], values, sem);
    EvalAppend(menv, cs + [q], ab, values, sem);
  }

  /** What the compiler makes of one op. */
  lemma OpParts(i: nat, ops: seq<Op>, merged: seq<Value>, bs: seq<MBranch>, merged': seq<Value>)
      returns (cs: seq<MBranch>, tail: seq<MTok>, st1: Space, st2: Space)
    requires i < |ops| && CompileOp(i, ops, merged) == Ok((bs, merged'))
    ensures var op := ops[i]; var names := Names(op.stmt.ctes);
      && CompileCtes(op.stmt.ctes[0..], names, op, i, ops, Space(merged, map[])) == Ok((cs, st1))
      && RemapBody(RenameCtes(op.stmt.tail, names, Ns(i)), op, i, ops, st1) == Ok((tail, st2))
      && bs == cs + [Query(ResultName(i), tail)] + AbortBranches(op, names, i)
      && st2.merged == merged'
    ensures SpaceOk(Space(merged, map[]), ops[i]) && SpaceOk(st1, ops[i]) && SpaceOk(st2, ops[i])
    ensures merged <= st1.merged <= merged' && Extends(st1, st2)
    ensures CtesUnder(0, ops[i], cs, i, st1.index)
    ensures BodyUnder(RenameCtes(ops[i].stmt.tail, Names(ops[i].stmt.ctes), Ns(i)), tail, ops[i], st2.index)
    ensures BackwardRefs(tail, i)
  {
    var op := ops[i];
    var names := Names(op.stmt.ctes);
    var st0 := Space(merged, map[]);
    assert op.stmt.ctes[0..] == op.stmt.ctes;
    cs, st1 := CompileCtes(op.stmt.ctes, names, op, i, ops, st0).value.0, CompileCtes(op.stmt.ctes, names, op, i, ops, st0).value.1;
    var renamed := RenameCtes(op.stmt.tail, names, Ns(i));
    CompileCtesSpace(0, i, ops, st0, cs, st1);
    tail, st2 := RemapBody(renamed, op, i, ops, st1).value.0, RemapBody(renamed, op, i, ops, st1).value.1;
    RemapBodySpace(renamed, i, ops, st1, tail, st2);
  }

  lemma BeforeFirst(menv: map<string, Rows>, i: nat, ops: seq<Op>, sem: Sem)
    requires i < |ops| && BeforeOp(menv, i, ops, sem)
    ensures Before(menv, Results(i, ops, sem), i, 0, ops)
    ensures Mirrors(map[], menv, Names(ops[i].stmt.ctes)[..0], Ns(i))
    ensures OwnEnv(i, ops, sem) == EvalCtes(map[], ops[i].stmt.ctes[0..], ops[i], Results(i, ops, sem), sem)
  {
    assert ops[i].stmt.ctes[0..] == ops[i].stmt.ctes;
    hide OpNameBelow;
  }

  lemma TailMeaning(i: nat, ops: seq<Op>, st: Space, tail: seq<MTok>, st': Space, menv: map<string, Rows>,
                    values: seq<Value>, sem: Sem)
    requires i < |ops| && OpOk(i, ops) && SpaceOk(st, ops[i]) && st'.merged <= values
    requires RemapBody(RenameCtes(ops[i].stmt.tail, Names(ops[i].stmt.ctes), Ns(i)), ops[i], i, ops, st) == Ok((tail, st'))
    requires Mirrors(OwnEnv(i, ops, sem), menv, Names(ops[i].stmt.ctes), Ns(i))
    requires Before(menv, Results(i, ops, sem), i, |ops[i].stmt.ctes|, ops)
    ensures sem(ResolveM(tail, menv, values)) == RunAlone(ops[i], Results(i, ops, sem), sem)
  {
    var op, prior := ops[i], Results(i, ops, sem);
    var names := Names(op.stmt.ctes);
    assert names[..|op.stmt.ctes|] == names;
    assert BodyOk(BodyAt(op, |op.stmt.ctes|), |op.stmt.ctes|, i, ops);
    assert RunAlone(op, prior, sem) == sem(Resolve(op.stmt.tail, OwnEnv(i, ops, sem), op, prior));
    hide BodyOk, OwnEnv, RunAlone, Mirrors, RemapBody, SpaceOk, OpOk, KeysVisible, PriorAgree;
    OwnWords(op.stmt.tail, |op.stmt.ctes|, i, ops, OwnEnv(i, ops, sem), menv);
    BodyMeaning(op.stmt.tail, names, i, ops, st, tail, st', OwnEnv(i, ops, sem), menv, prior, values);
  }

  lemma OwnKept(i: nat, ops: seq<Op>, menv: map<string, Rows>, rows: Rows, sem: Sem)
    requires i < |ops| && Mirrors(OwnEnv(i, ops, sem), menv, Names(ops[i].stmt.ctes), Ns(i))
    ensures var r := menv[ResultName(i) := rows]; var next := if ops[i].abort == NoAbort then r else r[AbortName(i) := []];
      forall w :: w in Names(ops[i].stmt.ctes) ==>
        Ns(i) + w in next && w in OwnEnv(i, ops, sem) && next[Ns(i) + w] == OwnEnv(i, ops, sem)[w]
  {
    forall w ensures Ns(i) + w != ResultName(i) && Ns(i) + w != AbortName(i) { KindsDisjoint(i, i, w); }
    hide OwnEnv, ResultName, AbortName, Ns;
  }

  /** Adding the result of op `i` to the results before it. */
  lemma NextResult(i: nat, ops: seq<Op>, menv: map<string, Rows>, sem: Sem)
    requires i < |ops| && PriorAgree(menv, Results(i, ops, sem), i)
    ensures PriorAgree(menv[ResultName(i) := RunAlone(ops[i], Results(i, ops, sem), sem)], Results(i + 1, ops, sem), i + 1)
  {
    hide RunAlone, ResultName;
    forall k: nat | k < i ensures ResultName(k) != ResultName(i) {
      if ResultName(k) == ResultName(i) { ResultNameInjective(k, i); }
    }
  }

  /** The result and the abort branch of op `i`. */
  lemma OpEnds(i: nat, ops: seq<Op>, menv: map<string, Rows>, rows: Rows, rs: seq<Rows>)
    requires i < |ops| && KeysVisible(menv, i, |ops[i].stmt.ctes|, ops)
    requires PriorAgree(menv[ResultName(i) := rows], rs, i + 1)
    ensures var next := if ops[i].abort == NoAbort then menv[ResultName(i) := rows] else menv[ResultName(i) := rows][AbortName(i) := []];
      PriorAgree(next, rs, i + 1) && forall w :: w in next ==> OpNameBelow(w, i + 1, ops)
  {
    var names := Names(ops[i].stmt.ctes);
    assert OpName(ResultName(i), i, ops[i]);
    assert ops[i].abort != NoAbort ==> OpName(AbortName(i), i, ops[i]);
    forall k: nat | k < i + 1 ensures ResultName(k) != AbortName(i) { KindsDisjoint(k, i, ""); }
    forall w | w in menv ensures OpNameBelow(w, i + 1, ops) {
      assert Visible(w, i, |names|, ops);
      if !OpNameBelow(w, i, ops) {
        var x :| 0 <= x < |names| && w == Ns(i) + ops[i].stmt.ctes[x].name;
        assert names[x] in names;
        assert OpName(w, i, ops[i]);
      }
    }
  }

  lemma {:induction false} UpToMeaning(n: nat, ops: seq<Op>, bs: seq<MBranch>, vs: seq<Value>, values: seq<Value>, sem: Sem)
    requires n <= |ops| && NoClash(ops) && CompileUpTo(n, ops) == Ok((bs, vs)) && vs <= values
    ensures BeforeOp(EvalMerged(map[], bs, values, sem), n, ops, sem)
    ensures OwnAgree(EvalMerged(map[], bs, values, sem), n, ops, sem)
  {
    if n > 0 {
      var (bs0, vs0) := CompileUpTo(n - 1, ops).value;
      var (bs1, vs1) := CompileOp(n - 1, ops, vs0).value;
      OpGrows(n - 1, ops, vs0, bs1, vs1);
      UpToMeaning(n - 1, ops, bs0, vs0, values, sem);
      var menv := EvalMerged(map[], bs0, values, sem);
      OpMeaning(n - 1, ops, vs0, bs1, vs1, menv, values, sem);
      EvalAppend(map[], bs0, bs1, values, sem);
      assert OpOk(n - 1, ops);
      OpBranchNames(n - 1, ops, vs0, bs1, vs1);
      hide OpName, EvalMerged, OwnAgree, BeforeOp, CompileOp, CompileUpTo, NoClash, OpOk;
      OthersKept(n - 1, ops, bs1, menv, values, sem);
      OwnAgreeNext(n - 1, ops, EvalMerged(menv, bs1, values, sem), sem);
    } else {
      NothingBefore(ops, sem);
    }
  }

  lemma NothingBefore(ops: seq<Op>, sem: Sem)
    ensures BeforeOp(map[], 0, ops, sem) && OwnAgree(map[], 0, ops, sem)
  {
  }

  lemma OwnAgreeNext(i: nat, ops: seq<Op>, menv: map<string, Rows>, sem: Sem)
    requires i < |ops| && OwnAgree(menv, i, ops, sem)
    requires forall w :: w in Names(ops[i].stmt.ctes) ==>
      Ns(i) + w in menv && w in OwnEnv(i, ops, sem) && menv[Ns(i) + w] == OwnEnv(i, ops, sem)[w]
    ensures OwnAgree(menv, i + 1, ops, sem)
  {
    hide OwnEnv, Ns;
  }

  /** The branches of op `i` leave those of the earlier ops as they were. */
  lemma OthersKept(i: nat, ops: seq<Op>, bs: seq<MBranch>, menv: map<string, Rows>, values: seq<Value>, sem: Sem)
    requires i < |ops| && OwnAgree(menv, i, ops, sem) && forall k :: 0 <= k < |bs| ==> OpName(bs[k].name, i, ops[i])
    ensures OwnAgree(EvalMerged(menv, bs, values, sem), i, ops, sem)
  {
    hide OpName, EvalMerged, OwnEnv;
    forall k, w | 0 <= k < i && w in Names(ops[k].stmt.ctes)
      ensures var e := EvalMerged(menv, bs, values, sem); Ns(k) + w in e && e[Ns(k) + w] == menv[Ns(k) + w]
    {
      NotOthersName(i, ops, bs, k, w);
      EvalFrame(menv, bs, values, sem, Ns(k) + w);
    }
  }

  lemma NotOthersName(i: nat, ops: seq<Op>, bs: seq<MBranch>, k: nat, w: string)
    requires k < i < |ops| && w in Names(ops[k].stmt.ctes) && forall j :: 0 <= j < |bs| ==> OpName(bs[j].name, i, ops[i])
    ensures Ns(k) + w !in BranchNames(bs)
  {
    assert OpName(Ns(k) + w, k, ops[k]);
    hide OpName;
    forall j | 0 <= j < |bs| ensures bs[j].name != Ns(k) + w {
      if bs[j].name == Ns(k) + w { OpNamesDisjoint(Ns(k) + w, k, ops[k], i, ops[i]); }
    }
  }

  lemma OpGrows(i: nat, ops: seq<Op>, merged: seq<Value>, bs: seq<MBranch>, merged': seq<Value>)
    requires i < |ops| && CompileOp(i, ops, merged) == Ok((bs, merged'))
    ensures merged <= merged'
  {
    var op := ops[i];
    var names := Names(op.stmt.ctes);
    var st0 := Space(merged, map[]);
    assert op.stmt.ctes[0..] == op.stmt.ctes;
    var (cs, st1) := CompileCtes(op.stmt.ctes, names, op, i, ops, st0).value;
    CompileCtesSpace(0, i, ops, st0, cs, st1);
    var (tail, st2) := RemapBody(RenameCtes(op.stmt.tail, names, Ns(i)), op, i, ops, st1).value;
    RemapBodySpace(RenameCtes(op.stmt.tail, names, Ns(i)), i, ops, st1, tail, st2);
  }

  // ----- main results

  /** Branch `__rN` of the merged statement yields the rows op N's own statement yields alone, with
      its own parameter values, each marker standing for the field of the source op's first row; and
      every other branch yields what it yields in its own statement. */
  lemma MergePreservesMeaning(ops: seq<Op>, m: Merged, sem: Sem)
    requires NoClash(ops) && Compile(ops) == Ok(m)
    ensures var env := EvalMerged(map[], m.branches, m.values, sem);
      && (forall i: nat :: i < |ops| ==> ResultName(i) in env && env[ResultName(i)] == Results(|ops|, ops, sem)[i])
      && OwnAgree(env, |ops|, ops, sem)
  {
    UpToMeaning(|ops|, ops, m.branches, m.values, m.values, sem);
  }

  /** No two branches of the merged statement share a name. */
  lemma MergedNamesDistinct(ops: seq<Op>, m: Merged)
    requires AllNamesOk(ops) && Compile(ops) == Ok(m)
    ensures NoDup(BranchNames(m.branches))
  {
    UpToNames(|ops|, ops, m.branches, m.values);
  }

  /** One injective map from local to global indices serves every branch of an op, and the global
      slot holds the local value; a marker never takes a slot and only points to an earlier op. */
  lemma OneGlobalIndexPerLocal(i: nat, ops: seq<Op>, merged: seq<Value>, bs: seq<MBranch>, merged': seq<Value>)
    requires i < |ops| && CompileOp(i, ops, merged) == Ok((bs, merged'))
    ensures exists index: map<nat, nat> ::
      && SpaceOk(Space(merged', index), ops[i])
      && (forall n :: n in index ==> index[n] > |merged|)
      && |bs| > |ops[i].stmt.ctes|
      && CtesUnder(0, ops[i], bs[..|ops[i].stmt.ctes|], i, index)
      && BranchUnder(bs[|ops[i].stmt.ctes|], Branch(ResultName(i), ops[i].stmt.tail), Names(ops[i].stmt.ctes), ops[i], i, index)
    requires ResultName(i) !in Names(ops[i].stmt.ctes)
  {
    var op := ops[i];
    var ctes := op.stmt.ctes;
    var names := Names(ctes);
    var st0 := Space(merged, map[]);
    assert ctes[0..] == ctes;
    var (cs, st1) := CompileCtes(ctes, names, op, i, ops, st0).value;
    CompileCtesSpace(0, i, ops, st0, cs, st1);
    FreshCtes(0, i, ops, st0, cs, st1, |merged|);
    var renamed := RenameCtes(op.stmt.tail, names, Ns(i));
    var (tail, st2) := RemapBody(renamed, op, i, ops, st1).value;
    RemapBodySpace(renamed, i, ops, st1, tail, st2);
    FreshBody(renamed, i, ops, st1, tail, st2, |merged|);
    RenameOther(ResultName(i), names, Ns(i));
    assert bs[..|ctes|] == cs;
    forall k | 0 <= k < |cs| ensures BranchUnder(cs[k], ctes[0 + k], names, op, i, st2.index) {
      assert BranchUnder(cs[k], ctes[0 + k], names, op, i, st1.index);
      var r := RenameCtes(ctes[k].body, names, Ns(i));
      forall x | 0 <= x < |r| ensures Under(r[x], cs[k].body[x], op, st2.index) {
        assert Under(r[x], cs[k].body[x], op, st1.index);
      }
    }
    assert CtesUnder(0, op, bs[..|ctes|], i, st2.index);
  }

  lemma {:induction false} FreshBody(body: seq<Tok>, i: nat, ops: seq<Op>, st: Space, mbody: seq<MTok>, st': Space, low: nat)
    requires i < |ops| && RemapBody(body, ops[i], i, ops, st) == Ok((mbody, st'))
    requires low <= |st.merged| && forall n :: n in st.index ==> st.index[n] > low
    ensures low <= |st'.merged| && forall n :: n in st'.index ==> st'.index[n] > low
  {
    if body != [] {
      var (t, st1) := RemapTok(body[0], ops[i], i, ops, st).value;
      FreshBody(body[1..], i, ops, st1, mbody[1..], st', low);
    }
  }

  lemma {:induction false} FreshCtes(j: nat, i: nat, ops: seq<Op>, st: Space, bs: seq<MBranch>, st': Space, low: nat)
    requires i < |ops| && j <= |ops[i].stmt.ctes|
    requires var ctes := ops[i].stmt.ctes; CompileCtes(ctes[j..], Names(ctes), ops[i], i, ops, st) == Ok((bs, st'))
    requires low <= |st.merged| && forall n :: n in st.index ==> st.index[n] > low
    ensures low <= |st'.merged| && forall n :: n in st'.index ==> st'.index[n] > low
    decreases |ops[i].stmt.ctes| - j
  {
    var ctes := ops[i].stmt.ctes;
    if j < |ctes| {
      assert ctes[j..][0] == ctes[j] && ctes[j..][1..] == ctes[j + 1..];
      var r := RenameCtes(ctes[j].body, Names(ctes), Ns(i));
      var (body, st1) := RemapBody(r, ops[i], i, ops, st).value;
      FreshBody(r, i, ops, st, body, st1, low);
      FreshCtes(j + 1, i, ops, st1, bs[1..], st', low);
    }
  }

  // ----- when the whole statement aborts

  /** The code an op's abort branch raises when the op yields no row. */
  function AbortCode(i: nat, ops: seq<Op>, sem: Sem): string
    requires i < |ops| && ops[i].abort != NoAbort
  {
    if ops[i].abort.Fixed? then ops[i].abort.code
    else
      var own := OwnEnv(i, ops, sem);
      if "matched" in own && own["matched"] != [] then "ERR01" else "ERR03"
  }

  /** The ops that must yield a row but do not. */
  function Missing(ops: seq<Op>, sem: Sem): set<nat> {
    set i: nat | i < |ops| && ops[i].abort != NoAbort && Results(|ops|, ops, sem)[i] == []
  }

  /** The raising branches of one op are its abort branches. */
  lemma OpRaises(i: nat, ops: seq<Op>, merged: seq<Value>, bs: seq<MBranch>, merged': seq<Value>, b: MBranch)
    requires i < |ops| && CompileOp(i, ops, merged) == Ok((bs, merged')) && b.Raise?
    ensures b in bs <==> b in AbortBranches(ops[i], Names(ops[i].stmt.ctes), i)
  {
    var op := ops[i];
    assert op.stmt.ctes[0..] == op.stmt.ctes;
    var (cs, st1) := CompileCtes(op.stmt.ctes, Names(op.stmt.ctes), op, i, ops, Space(merged, map[])).value;
    CompileCtesSpace(0, i, ops, Space(merged, map[]), cs, st1);
    forall k | 0 <= k < |cs| ensures cs[k] != b {
      assert BranchUnder(cs[k], op.stmt.ctes[0 + k], Names(op.stmt.ctes), op, i, st1.index);
    }
  }

  /** `b` is the abort branch of one of the first `n` ops. */
  ghost predicate AbortBelow(b: MBranch, n: nat, ops: seq<Op>)
    requires n <= |ops|
  {
    exists i :: 0 <= i < n && b in AbortBranches(ops[i], Names(ops[i].stmt.ctes), i)
  }

  lemma AbortBelowStep(b: MBranch, n: nat, ops: seq<Op>)
    requires 0 < n <= |ops|
    ensures AbortBelow(b, n, ops) <==>
      AbortBelow(b, n - 1, ops) || b in AbortBranches(ops[n - 1], Names(ops[n - 1].stmt.ctes), n - 1)
  {
    if AbortBelow(b, n, ops) {
      var i :| 0 <= i < n && b in AbortBranches(ops[i], Names(ops[i].stmt.ctes), i);
      assert i < n - 1 ==> AbortBelow(b, n - 1, ops);
    }
  }

  lemma {:induction false} RaisesUpTo(n: nat, ops: seq<Op>, bs: seq<MBranch>, vs: seq<Value>, b: MBranch)
    requires n <= |ops| && CompileUpTo(n, ops) == Ok((bs, vs)) && b.Raise?
    ensures b in bs <==> AbortBelow(b, n, ops)
  {
    if n > 0 {
      var (bs0, vs0) := CompileUpTo(n - 1, ops).value;
      var (bs1, vs1) := CompileOp(n - 1, ops, vs0).value;
      RaisesUpTo(n - 1, ops, bs0, vs0, b);
      OpRaises(n - 1, ops, vs0, bs1, vs1, b);
      AbortBelowStep(b, n, ops);
    }
  }

  lemma {:induction false} GuardsUpTo(n: nat, ops: seq<Op>, i: nat)
    requires n <= |ops| && i < |ops|
    ensures AbortName(i) in Guards(n, ops) <==> i < n && ops[i].abort != NoAbort
  {
    if n > 0 {
      GuardsUpTo(n - 1, ops, i);
      var guards, name, last := Guards(n - 1, ops), AbortName(i), AbortName(n - 1);
      if name == last { AbortNameInjective(i, n - 1); }
      assert Guards(n, ops) == guards + if ops[n - 1].abort == NoAbort then [] else [last];
      hide AbortName, Guards;
      assert name in guards + [last] <==> name in guards || name == last;
    }
  }

  lemma {:induction false} OwnKeys(env: map<string, Rows>, ctes: seq<Branch>, op: Op, prior: seq<Rows>, sem: Sem, w: string)
    ensures w in EvalCtes(env, ctes, op, prior, sem) <==> w in env || w in Names(ctes)
    decreases ctes
  {
    if ctes != [] {
      assert Names(ctes)[0] == ctes[0].name && Names(ctes)[1..] == Names(ctes[1..]);
      OwnKeys(env[ctes[0].name := sem(Resolve(ctes[0].body, env, op, prior))], ctes[1..], op, prior, sem, w);
    }
  }

  lemma AbortOf(i: nat, ops: seq<Op>, guards: seq<string>, rs: seq<Rows>, sem: Sem, env: map<string, Rows>, b: MBranch)
    requires i < |ops| && guards == Guards(|ops|, ops) && rs == Results(|ops|, ops, sem)
    requires b in AbortBranches(ops[i], Names(ops[i].stmt.ctes), i)
    requires ResultName(i) in env && env[ResultName(i)] == rs[i] && OwnAgree(env, |ops|, ops, sem)
    ensures Fires(b, guards, env) <==> rs[i] == []
    ensures b.Raise? && ops[i].abort != NoAbort && RaisedCode(b, env) == AbortCode(i, ops, sem)
  {
    GuardsUpTo(|ops|, ops, i);
    var names := Names(ops[i].stmt.ctes);
    if ops[i].abort.Matched? {
      OwnKeys(map[], ops[i].stmt.ctes, ops[i], Results(i, ops, sem), sem, "matched");
      if "matched" in names {
        assert env[Ns(i) + "matched"] == OwnEnv(i, ops, sem)["matched"];
      }
    }
  }

  /** The merged statement commits exactly when no body raises and every op that must yield a row does, and then its columns
      are the ops' own results; otherwise it aborts with the codes of the missing ops and of the bodies. */
  lemma CommitOutcome(ops: seq<Op>, m: Merged, sem: Sem, errors: set<string>)
    requires NoClash(ops) && Compile(ops) == Ok(m)
    ensures Execute(m, sem, errors) ==
      if Missing(ops, sem) == {} && errors == {} then Committed(Results(|ops|, ops, sem))
      else Aborted(MissingCodes(ops, sem) + errors)
  {
    var env := EvalMerged(map[], m.branches, m.values, sem);
    var codes := RaisedCodes(m, env);
    var expected := MissingCodes(ops, sem);
    forall i | i in Missing(ops, sem) ensures AbortCode(i, ops, sem) in codes {
      MissingRaises(i, ops, m, sem, env);
    }
    forall c | c in codes ensures c in expected {
      RaisedIsMissing(c, ops, m, sem, env);
    }
    assert codes == expected;
    if i :| i in Missing(ops, sem) {
      assert AbortCode(i, ops, sem) in expected;
    } else {
      assert expected == {};
      ColumnsAreResults(ops, m, sem, env);
    }
  }

  function MissingCodes(ops: seq<Op>, sem: Sem): set<string> {
    set i | i in Missing(ops, sem) :: AbortCode(i, ops, sem)
  }

  lemma {:induction false} ColumnsAreResults(ops: seq<Op>, m: Merged, sem: Sem, env: map<string, Rows>)
    requires NoClash(ops) && Compile(ops) == Ok(m) && env == EvalMerged(map[], m.branches, m.values, sem)
    ensures m.columns == Columns(|ops|)
    ensures seq(|m.columns|, i requires 0 <= i < |m.columns| => if m.columns[i] in env then env[m.columns[i]] else [])
      == Results(|ops|, ops, sem)
  {
    assert m.columns == Columns(|ops|);
    hide Compile, NoClash, EvalMerged, OwnAgree, Results, ResultName;
    MergePreservesMeaning(ops, m, sem);
    assert forall i :: 0 <= i < |ops| ==> m.columns[i] == ResultName(i);
    ColumnsRead(m.columns, env, Results(|ops|, ops, sem));
  }

  lemma ColumnsRead(columns: seq<string>, env: map<string, Rows>, rs: seq<Rows>)
    requires |columns| == |rs| && forall i :: 0 <= i < |rs| ==> columns[i] in env && env[columns[i]] == rs[i]
    ensures seq(|columns|, i requires 0 <= i < |columns| => if columns[i] in env then env[columns[i]] else []) == rs
  {
  }

  lemma MissingRaises(i: nat, ops: seq<Op>, m: Merged, sem: Sem, env: map<string, Rows>)
    requires NoClash(ops) && Compile(ops) == Ok(m) && env == EvalMerged(map[], m.branches, m.values, sem)
    requires i in Missing(ops, sem)
    ensures AbortCode(i, ops, sem) in RaisedCodes(m, env)
  {
    MergePreservesMeaning(ops, m, sem);
    var b := AbortBranches(ops[i], Names(ops[i].stmt.ctes), i)[0];
    RaisesUpTo(|ops|, ops, m.branches, m.values, b);
    AbortOf(i, ops, m.guards, Results(|ops|, ops, sem), sem, env, b);
  }

  lemma RaisedIsMissing(c: string, ops: seq<Op>, m: Merged, sem: Sem, env: map<string, Rows>)
    requires NoClash(ops) && Compile(ops) == Ok(m) && env == EvalMerged(map[], m.branches, m.values, sem)
    requires c in RaisedCodes(m, env)
    ensures c in MissingCodes(ops, sem)
  {
    MergePreservesMeaning(ops, m, sem);
    var b :| b in m.branches && Fires(b, m.guards, env) && c == RaisedCode(b, env);
    RaisesUpTo(|ops|, ops, m.branches, m.values, b);
    var i: nat :| i < |ops| && b in AbortBranches(ops[i], Names(ops[i].stmt.ctes), i);
    AbortOf(i, ops, m.guards, Results(|ops|, ops, sem), sem, env, b);
    assert i in Missing(ops, sem);
  }
}
