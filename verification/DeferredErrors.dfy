/** Bodies that raise errors of their own: the merged statement raises what the statements raise one by one. */
module DeferredErrors {
  import opened Outcomes
  import opened DeferredMerge
  import opened DeferredNames
  import opened DeferredMeaning
  import opened DeferredCommit
  import opened DeferredClash

  /** What evaluating the `j`-th body of op `i` raises when it sees these tokens; nothing also when its statement does not
      evaluate it. */
  type Raises = (nat, nat, seq<RTok>) -> Option<string>

  /** What a body sees when its statement runs alone. */
  function OwnSeen(i: nat, j: nat, ops: seq<Op>, sem: Sem): seq<RTok>
    requires i < |ops| && j <= |ops[i].stmt.ctes|
  {
    Resolve(BodyAt(ops[i], j), OwnSight(i, j, ops, sem), ops[i], Results(i, ops, sem))
  }

  /** What the branch at `p` sees in the merged statement. */
  function MergedSeen(m: Merged, sem: Sem, p: nat): seq<RTok>
    requires p < |m.branches| && m.branches[p].Query?
  {
    ResolveM(m.branches[p].body, EvalMerged(map[], m.branches[..p], m.values, sem), m.values)
  }

  predicate IsBody(i: nat, j: nat, ops: seq<Op>) {
    i < |ops| && j <= |ops[i].stmt.ctes|
  }

  predicate Carries(m: Merged, p: nat, i: nat, j: nat, ops: seq<Op>) {
    IsBody(i, j, ops) && p < |m.branches| && m.branches[p].Query? && m.branches[p].name == MergedAs(i, j, ops)
  }

  /** Some body of the ops raises `code` in its own statement. */
  ghost predicate RaisesAlone(ops: seq<Op>, sem: Sem, raises: Raises, code: string) {
    exists i: nat, j: nat :: IsBody(i, j, ops) && raises(i, j, OwnSeen(i, j, ops, sem)) == Some(code)
  }

  /** Some branch of the merged statement that carries a body raises it. */
  ghost predicate RaisesMerged(ops: seq<Op>, m: Merged, sem: Sem, raises: Raises, code: string) {
    exists i: nat, j: nat, p: nat :: Carries(m, p, i, j, ops) && raises(i, j, MergedSeen(m, sem, p)) == Some(code)
  }

  // ----- a body sees the same in both

  lemma {:induction false} ResultsPrefix(n: nat, k: nat, ops: seq<Op>, sem: Sem)
    requires k < n <= |ops|
    ensures forall i: nat :: i < k ==> Results(n, ops, sem)[i] == Results(k, ops, sem)[i]
    decreases n
  {
    if k < n - 1 { ResultsPrefix(n - 1, k, ops, sem); }
  }

  /** A branch keeps its rows to the end. */
  lemma KeptToEnd(bs: seq<MBranch>, p: nat, values: seq<Value>, sem: Sem, w: string)
    requires p <= |bs| && NoDup(BranchNames(bs)) && w in BranchNames(bs[..p])
    ensures var menv, env := EvalMerged(map[], bs[..p], values, sem), EvalMerged(map[], bs, values, sem);
      w in menv && w in env && menv[w] == env[w]
  {
    assert bs == bs[..p] + bs[p..];
    EvalAppend(map[], bs[..p], bs[p..], values, sem);
    EvalKeys(map[], bs[..p], values, sem, w);
    var x :| 0 <= x < p && BranchNames(bs[..p])[x] == w;
    assert BranchNames(bs)[x] == w;
    forall k | 0 <= k < |bs[p..]| ensures BranchNames(bs[p..])[k] != w { assert BranchNames(bs)[p + k] == bs[p..][k].name; }
    EvalFrame(EvalMerged(map[], bs[..p], values, sem), bs[p..], values, sem, w);
  }

  lemma OwnKeptToEnd(i: nat, j: nat, ops: seq<Op>, sem: Sem, w: string)
    requires IsBody(i, j, ops) && NoDup(Names(ops[i].stmt.ctes)) && w in Names(ops[i].stmt.ctes)[..j]
    ensures w in OwnSight(i, j, ops, sem) && w in OwnEnv(i, ops, sem) && OwnSight(i, j, ops, sem)[w] == OwnEnv(i, ops, sem)[w]
  {
    var ctes := ops[i].stmt.ctes;
    assert ctes == ctes[..j] + ctes[j..];
    OwnAppend(map[], ctes[..j], ctes[j..], ops[i], Results(i, ops, sem), sem);
    OwnSightKeys(i, j, ops, sem, w);
    var x :| 0 <= x < j && Names(ctes)[x] == w;
    forall k | 0 <= k < |ctes[j..]| ensures Names(ctes[j..])[k] != w { assert Names(ctes)[j + k] == ctes[j..][k].name; }
    OwnFrame(OwnSight(i, j, ops, sem), ctes[j..], ops[i], Results(i, ops, sem), sem, w);
  }

  /** The words of the `j`-th body of op `i` mean the same at `p`. */
  lemma WordsSame(ops: seq<Op>, m: Merged, sem: Sem, i: nat, j: nat, p: nat, t: Tok)
    requires NoClash(ops) && IsBody(i, j, ops) && Stands(m.branches, m.values, p, i, j, ops) && NoDup(BranchNames(m.branches))
    requires MeaningKept(ops, m, sem) && TokOk(t, j, i, ops)
    ensures WordAgrees(t, Names(ops[i].stmt.ctes), Ns(i), OwnSight(i, j, ops, sem), EvalMerged(map[], m.branches[..p], m.values, sem))
  {
    var names := Names(ops[i].stmt.ctes);
    assert OpOk(i, ops);
    assert NoDup(names) && PassesIndependent(names, Ns(i));
    hide NoClash, OpOk, EvalMerged, OwnSight, OwnEnv, Results, NamesOk, PassesIndependent;
    match t {
      case Ident(w) => RenameOther(w, names, Ns(i));
      case RelName(w) =>
        OwnSightKeys(i, j, ops, sem, w);
        if w in names[..j] {
          var x :| 0 <= x < j && names[x] == w;
          assert names[x] in names;
          RenameOwn(w, names, Ns(i));
          assert Visible(Ns(i) + w, i, j, ops);
          KeptToEnd(m.branches, p, m.values, sem, Ns(i) + w);
          OwnKeptToEnd(i, j, ops, sem, w);
        } else {
          RenameOther(w, names, Ns(i));
          assert !Visible(w, i, j, ops);
          EvalKeys(map[], m.branches[..p], m.values, sem, w);
        }
      case _ =>
    }
  }

  lemma PriorSame(ops: seq<Op>, m: Merged, sem: Sem, i: nat, j: nat, p: nat)
    requires IsBody(i, j, ops) && Stands(m.branches, m.values, p, i, j, ops) && NoDup(BranchNames(m.branches))
    requires MeaningKept(ops, m, sem)
    ensures PriorAgree(EvalMerged(map[], m.branches[..p], m.values, sem), Results(i, ops, sem), i)
  {
    hide EvalMerged, OwnAgree, Compiled;
    forall k: nat | k < i
      ensures var menv := EvalMerged(map[], m.branches[..p], m.values, sem);
        ResultName(k) in menv && menv[ResultName(k)] == Results(i, ops, sem)[k]
    {
      assert OpName(ResultName(k), k, ops[k]);
      assert OpNameBelow(ResultName(k), i, ops);
      assert Visible(ResultName(k), i, j, ops);
      KeptToEnd(m.branches, p, m.values, sem, ResultName(k));
      ResultsPrefix(|ops|, i, ops, sem);
    }
  }

  lemma SeenSame(ops: seq<Op>, m: Merged, sem: Sem, i: nat, j: nat, p: nat)
    requires NoClash(ops) && IsBody(i, j, ops) && Stands(m.branches, m.values, p, i, j, ops) && NoDup(BranchNames(m.branches))
    requires MeaningKept(ops, m, sem)
    ensures MergedSeen(m, sem, p) == OwnSeen(i, j, ops, sem)
  {
    var body, names := BodyAt(ops[i], j), Names(ops[i].stmt.ctes);
    var renamed, mbody := RenameCtes(body, names, Ns(i)), m.branches[p].body;
    var st: Space :| SpaceOk(st, ops[i]) && st.merged <= m.values && BodyUnder(renamed, mbody, ops[i], st.index);
    var menv := EvalMerged(map[], m.branches[..p], m.values, sem);
    assert BackwardRefs(mbody, i);
    PriorSame(ops, m, sem, i, j, p);
    hide NoClash, EvalMerged, OwnSight, Results, Stands, MeaningKept, NoDup, SpaceOk, BodyAt, PriorAgree, TokOk, WordAgrees;
    forall k | 0 <= k < |body|
      ensures ResolveMTok(mbody[k], menv, m.values) == ResolveTok(body[k], OwnSight(i, j, ops, sem), ops[i], Results(i, ops, sem))
    {
      assert Under(renamed[k], mbody[k], ops[i], st.index);
      assert mbody[k] in mbody;
      WordOk(ops, i, j, k);
      WordsSame(ops, m, sem, i, j, p, body[k]);
      TokMeaning(body[k], names, i, ops[i], mbody[k], st, OwnSight(i, j, ops, sem), menv, Results(i, ops, sem), m.values);
    }
  }

  lemma WordOk(ops: seq<Op>, i: nat, j: nat, k: nat)
    requires NoClash(ops) && IsBody(i, j, ops) && k < |BodyAt(ops[i], j)|
    ensures TokOk(BodyAt(ops[i], j)[k], j, i, ops)
  {
    assert OpOk(i, ops);
    assert BodyOk(BodyAt(ops[i], j), j, i, ops);
  }

  /** Each body has its own place. */
  lemma PlaceOf(ops: seq<Op>, m: Merged, i: nat, j: nat) returns (p: nat)
    requires AllNamesOk(ops) && Compile(ops) == Ok(m) && IsBody(i, j, ops)
    ensures Carries(m, p, i, j, ops) && Stands(m.branches, m.values, p, i, j, ops)
    ensures forall q: nat :: Carries(m, q, i, j, ops) ==> q == p
  {
    p := UpToStands(|ops|, ops, m.branches, m.values, i, j);
    MergedNamesDistinct(ops, m);
    forall q: nat | Carries(m, q, i, j, ops) ensures q == p {
      assert BranchNames(m.branches)[q] == BranchNames(m.branches)[p];
    }
  }

  /** The merged statement raises exactly what the statements raise one by one. */
  lemma ErrorsSame(ops: seq<Op>, m: Merged, sem: Sem, raises: Raises, code: string)
    requires NoClash(ops) && Compile(ops) == Ok(m)
    ensures RaisesMerged(ops, m, sem, raises, code) <==> RaisesAlone(ops, sem, raises, code)
  {
    assert AllNamesOk(ops) by { forall i | 0 <= i < |ops| ensures NamesOk(i, ops) { assert OpOk(i, ops); } }
    MergePreservesMeaning(ops, m, sem);
    MergedNamesDistinct(ops, m);
    assert MeaningKept(ops, m, sem);
    hide NoClash, AllNamesOk, Compile, MeaningKept, NoDup, Stands, MergedSeen, OwnSeen, Carries, IsBody;
    if RaisesMerged(ops, m, sem, raises, code) {
      var i: nat, j: nat, q: nat :| Carries(m, q, i, j, ops) && raises(i, j, MergedSeen(m, sem, q)) == Some(code);
      CarriesBody(m, q, i, j, ops);
      var p := PlaceOf(ops, m, i, j);
      SeenSame(ops, m, sem, i, j, p);
    }
    if RaisesAlone(ops, sem, raises, code) {
      var i: nat, j: nat :| IsBody(i, j, ops) && raises(i, j, OwnSeen(i, j, ops, sem)) == Some(code);
      var p := PlaceOf(ops, m, i, j);
      SeenSame(ops, m, sem, i, j, p);
    }
  }

  lemma CarriesBody(m: Merged, q: nat, i: nat, j: nat, ops: seq<Op>)
    requires Carries(m, q, i, j, ops)
    ensures IsBody(i, j, ops)
  {
  }

  /** The codes the merged statement's bodies raise. */
  ghost function MergedErrors(ops: seq<Op>, m: Merged, sem: Sem, raises: Raises): set<string> {
    set i: nat, j: nat, p: nat | i < |ops| && j <= |ops[i].stmt.ctes| && p < |m.branches|
      && Carries(m, p, i, j, ops) && raises(i, j, MergedSeen(m, sem, p)).Some? :: raises(i, j, MergedSeen(m, sem, p)).value
  }

  lemma MergedErrorsAre(ops: seq<Op>, m: Merged, sem: Sem, raises: Raises, code: string)
    ensures code in MergedErrors(ops, m, sem, raises) <==> RaisesMerged(ops, m, sem, raises, code)
  {
    hide MergedSeen;
    if RaisesMerged(ops, m, sem, raises, code) {
      var i: nat, j: nat, p: nat :| Carries(m, p, i, j, ops) && raises(i, j, MergedSeen(m, sem, p)) == Some(code);
      assert i < |ops| && j <= |ops[i].stmt.ctes| && p < |m.branches|;
    }
  }

  /** The merged statement commits exactly when, one by one, no statement raises and none that must yield a row misses it; then
      its columns are the ops' own results. Otherwise it aborts, with a code that some statement raises or that a missing row
      stands for. */
  lemma OutcomeExactly(ops: seq<Op>, m: Merged, sem: Sem, raises: Raises)
    requires NoClash(ops) && Compile(ops) == Ok(m)
    ensures var o := Execute(m, sem, MergedErrors(ops, m, sem, raises));
      (o.Committed? <==> Missing(ops, sem) == {} && forall code :: !RaisesAlone(ops, sem, raises, code))
      && (o.Committed? ==> o.payload == Results(|ops|, ops, sem))
      && (o.Aborted? ==> forall code :: code in o.codes <==>
            code in MissingCodes(ops, sem) || RaisesAlone(ops, sem, raises, code))
  {
    var errors := MergedErrors(ops, m, sem, raises);
    CommitOutcome(ops, m, sem, errors);
    hide NoClash, Compile, Execute, RaisesMerged, RaisesAlone, Missing, MissingCodes, Results, MergedErrors;
    forall code ensures code in errors <==> RaisesAlone(ops, sem, raises, code) {
      MergedErrorsAre(ops, m, sem, raises, code);
      ErrorsSame(ops, m, sem, raises, code);
    }
  }
}
